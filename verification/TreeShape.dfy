/**
 * Binary trees of the shape that RFC 6962 section 2.1 gives to n leaves, and the two ways to recompute
 * the root from one leaf and the siblings on its path: top down, as the tree is defined, and bottom up,
 * as the verifier's loop does. How two nodes join is a parameter.
 */
module TreeShape {
  import opened Common

  /** The split point k of section 2.1: the largest power of two smaller than n. */
  function Split(n: nat): (k: nat)
    requires n >= 2
    ensures k < n <= 2 * k
  {
    if n == 2 then 1 else 2 * Split((n + 1) / 2)
  }

  predicate IsPowerOfTwo(n: nat) {
    n == 1 || (n >= 2 && n % 2 == 0 && IsPowerOfTwo(n / 2))
  }

  lemma TwicePowerOfTwo(h: nat, p: nat)
    requires p == 2 * h && p >= 2
    ensures IsPowerOfTwo(p) == IsPowerOfTwo(h)
  {
    assert p / 2 == h;
  }

  lemma {:induction false} SplitIsPowerOfTwo(n: nat)
    requires n >= 2
    ensures IsPowerOfTwo(Split(n))
  {
    if n > 2 {
      var k := Split((n + 1) / 2);
      SplitIsPowerOfTwo((n + 1) / 2);
      TwicePowerOfTwo(k, 2 * k);
    }
  }

  /** Split is what section 2.1 asks for: a power of two, and no power of two in between. */
  lemma {:induction false} SplitIsLargestPowerOfTwo(n: nat, p: nat)
    requires n >= 2
    ensures IsPowerOfTwo(Split(n)) && Split(n) < n
    ensures IsPowerOfTwo(p) && p < n ==> p <= Split(n)
  {
    SplitIsPowerOfTwo(n);
    if n > 2 && p > 1 && IsPowerOfTwo(p) {
      SplitIsLargestPowerOfTwo((n + 1) / 2, p / 2);
    }
  }

  /** How many nodes an audit path has: a number fixed by the position and the tree size. */
  function PathLength(m: nat, n: nat): nat
    requires m < n
    decreases n
  {
    if n == 1 then 0
    else
      var k := Split(n);
      1 + if m < k then PathLength(m, k) else PathLength(m - k, n - k)
  }

  /** The least c with n <= 2^c. */
  function CeilLog2(n: nat): nat
    requires n >= 1
  {
    if n == 1 then 0 else 1 + CeilLog2((n + 1) / 2)
  }

  lemma CeilLog2Monotone(a: nat, b: nat)
    requires 1 <= a <= b
    ensures CeilLog2(a) <= CeilLog2(b)
  {
  }

  lemma {:induction false} CeilLog2OfSplit(n: nat)
    requires n >= 2
    ensures CeilLog2(n) == 1 + CeilLog2(Split(n))
  {
    if n > 2 {
      CeilLog2OfSplit((n + 1) / 2);
      assert Split(n) == 2 * Split((n + 1) / 2);
      assert (Split(n) + 1) / 2 == Split((n + 1) / 2);
    }
  }

  /** An audit path has at most ceil(log2 n) nodes. */
  lemma {:induction false} PathLengthBound(m: nat, n: nat)
    requires m < n
    ensures PathLength(m, n) <= CeilLog2(n)
    decreases n
  {
    if n > 1 {
      var k := Split(n);
      CeilLog2OfSplit(n);
      if m < k {
        PathLengthBound(m, k);
      } else {
        PathLengthBound(m - k, n - k);
        CeilLog2Monotone(n - k, k);
      }
    }
  }

  /** The leftmost path is the longest one: exactly ceil(log2 n) nodes. */
  lemma {:induction false} LeftmostPathLength(n: nat)
    requires n >= 1
    ensures PathLength(0, n) == CeilLog2(n)
  {
    if n > 1 {
      CeilLog2OfSplit(n);
      LeftmostPathLength(Split(n));
    }
  }

  // ----- Recomputing a root from a leaf and a path, in tree order

  /** Joins a sibling (on the left when the flag is set) and a node, unless that fails. */
  type Join<!D> = (D, D, bool) -> Option<D>

  /** Join, when the node itself may have failed. */
  function JoinClaim<D>(sibling: D, node: Option<D>, siblingOnLeft: bool, join: Join<D>): Option<D> {
    if node.None? then None else join(sibling, node.value, siblingOnLeft)
  }

  /** The root that a leaf and a path claim, reading the path from its root end as the tree is defined. */
  function RootFrom<D>(node: D, m: nat, n: nat, path: seq<D>, join: Join<D>): Option<D>
    requires m < n
    decreases n
  {
    if n == 1 then
      if path == [] then Some(node) else None
    else if path == [] then None
    else
      var k := Split(n);
      var sibling := path[|path| - 1];
      var below := path[..|path| - 1];
      if m < k then
        JoinClaim(sibling, RootFrom(node, m, k, below, join), false, join)
      else
        JoinClaim(sibling, RootFrom(node, m - k, n - k, below, join), true, join)
  }

  /** Only paths of the right length give a root. */
  lemma {:induction false} RootFromLength<D>(node: D, m: nat, n: nat, path: seq<D>, join: Join<D>)
    requires m < n
    ensures RootFrom(node, m, n, path, join).Some? ==> |path| == PathLength(m, n)
    decreases n
  {
    if n > 1 && path != [] {
      var k := Split(n);
      var below := path[..|path| - 1];
      if m < k {
        RootFromLength(node, m, k, below, join);
      } else {
        RootFromLength(node, m - k, n - k, below, join);
      }
    }
  }

  /** Appending the sibling of the root extends a path by one step of the recursion: entry left of the split. */
  lemma RootFromLeft<D>(node: D, m: nat, n: nat, k: nat, below: seq<D>, sibling: D, join: Join<D>)
    requires n >= 2 && k == Split(n) && m < k
    ensures RootFrom(node, m, n, below + [sibling], join)
            == JoinClaim(sibling, RootFrom(node, m, k, below, join), false, join)
  {
    var path := below + [sibling];
    assert path[|path| - 1] == sibling && path[..|path| - 1] == below;
  }

  /** The same for an entry right of the split; m and n are its position and size inside the right subtree. */
  lemma RootFromRight<D>(node: D, m: nat, n: nat, k: nat, below: seq<D>, sibling: D, join: Join<D>)
    requires m < n && k >= 1 && k == Split(n + k)
    ensures RootFrom(node, m + k, n + k, below + [sibling], join)
            == JoinClaim(sibling, RootFrom(node, m, n, below, join), true, join)
  {
    var path := below + [sibling];
    assert path[|path| - 1] == sibling && path[..|path| - 1] == below;
    assert m + k - k == m && n + k - k == n;
  }

  /** A claim about the left subtree, joined with its sibling, is a claim about the tree. */
  lemma ClaimThroughLeft<D>(node: D, m: nat, n: nat, k: nat, below: seq<D>, sibling: D, path: seq<D>, join: Join<D>,
                            sub: D, root: D)
    requires n >= 2 && k == Split(n) && m < k && path == below + [sibling]
    requires RootFrom(node, m, k, below, join) == Some(sub) && join(sibling, sub, false) == Some(root)
    ensures RootFrom(node, m, n, path, join) == Some(root)
  {
    RootFromLeft(node, m, n, k, below, sibling, join);
  }

  /** The same for the right subtree, of n1 nodes. */
  lemma ClaimThroughRight<D>(node: D, m: nat, n: nat, k: nat, m1: nat, n1: nat, below: seq<D>, sibling: D, path: seq<D>,
                             join: Join<D>, sub: D, root: D)
    requires n >= 2 && k == Split(n) && m == m1 + k && n == n1 + k && m1 < n1 && path == below + [sibling]
    requires RootFrom(node, m1, n1, below, join) == Some(sub) && join(sibling, sub, true) == Some(root)
    ensures RootFrom(node, m, n, path, join) == Some(root)
  {
    RootFromRight(node, m1, n1, k, below, sibling, join);
  }

  // ----- Reading the path from its leaf end

  /**
   * A level of n = 2q - odd nodes has a next level of q nodes. Positions are written 2h + b, so that
   * h is the position one level up and b the low bit.
   */
  predicate IsLevel(n: nat, q: nat, odd: nat) {
    odd <= 1 && n + odd == 2 * q && n >= 2
  }

  lemma SplitOfNextLevel(n: nat, q: nat, odd: nat)
    requires IsLevel(n, q, odd) && q >= 2
    ensures Split(n) == 2 * Split(q)
  {
    assert (n + 1) / 2 == q;
  }

  /** Join the lowest node of the path, then go on in the tree of the next level. */
  function JoinedRoot<D>(node: D, h: nat, b: nat, q: nat, path: seq<D>, join: Join<D>): Option<D>
    requires h < q
  {
    if path == [] then None
    else
      var parent := join(path[0], node, b == 1);
      if parent.None? then None else RootFrom(parent.value, h, q, path[1..], join)
  }

  lemma JoinedRootLeft<D>(node: D, h: nat, b: nat, q: nat, k: nat, below: seq<D>, sibling: D, join: Join<D>)
    requires q >= 2 && k == Split(q) && h < k && below != []
    ensures JoinedRoot(node, h, b, q, below + [sibling], join)
            == JoinClaim(sibling, JoinedRoot(node, h, b, k, below, join), false, join)
  {
    var parent := join(below[0], node, b == 1);
    assert (below + [sibling])[1..] == below[1..] + [sibling];
    if parent.Some? {
      RootFromLeft(parent.value, h, q, k, below[1..], sibling, join);
    }
  }

  lemma JoinedRootRight<D>(node: D, h: nat, b: nat, q: nat, k: nat, below: seq<D>, sibling: D, join: Join<D>)
    requires h < q && k >= 1 && k == Split(q + k) && below != []
    ensures JoinedRoot(node, h + k, b, q + k, below + [sibling], join)
            == JoinClaim(sibling, JoinedRoot(node, h, b, q, below, join), true, join)
  {
    var parent := join(below[0], node, b == 1);
    assert (below + [sibling])[1..] == below[1..] + [sibling];
    if parent.Some? {
      RootFromRight(parent.value, h, q, k, below[1..], sibling, join);
    }
  }

  /**
   * Reading a path from its leaf end: a node with a sibling on its own level joins it and moves up
   * one level, in the tree whose leaves are the nodes of that level.
   */
  lemma {:induction false} JoinSibling<D>(node: D, m: nat, h: nat, b: nat, n: nat, q: nat, odd: nat,
                                       path: seq<D>, join: Join<D>)
    requires IsLevel(n, q, odd) && b <= 1 && m == 2 * h + b && 2 * h + 1 < n
    ensures RootFrom(node, m, n, path, join) == JoinedRoot(node, h, b, q, path, join)
    decreases n
  {
    if path == [] {
    } else if n == 2 {
      JoinSiblingOfPair(node, b, path, join);
    } else if |path| == 1 {
      JoinSiblingShort(node, m, h, b, n, q, odd, path, join);
    } else {
      SplitOfNextLevel(n, q, odd);
      var k, k2 := Split(q), Split(n);
      var below, sibling := path[..|path| - 1], path[|path| - 1];
      assert path == below + [sibling];
      if h < k {
        JoinLeft(node, m, n, k2, h, b, q, k, below, sibling, join);
      } else {
        JoinRight(node, m - k2, n - k2, k2, h - k, b, q - k, k, odd, below, sibling, join);
      }
    }
  }

  lemma {:induction false} JoinLeft<D>(node: D, m: nat, n: nat, k2: nat, h: nat, b: nat, q: nat, k: nat,
                                    below: seq<D>, sibling: D, join: Join<D>)
    requires n >= 2 && k2 == Split(n) && q >= 2 && k == Split(q) && k2 == 2 * k
    requires b <= 1 && m == 2 * h + b && h < k && below != []
    ensures RootFrom(node, m, n, below + [sibling], join) == JoinedRoot(node, h, b, q, below + [sibling], join)
    decreases n, 0
  {
    JoinSibling(node, m, h, b, k2, k, 0, below, join);
    RootFromLeft(node, m, n, k2, below, sibling, join);
    JoinedRootLeft(node, h, b, q, k, below, sibling, join);
  }

  lemma {:induction false} JoinRight<D>(node: D, m: nat, n: nat, k2: nat, h: nat, b: nat, q: nat, k: nat, odd: nat,
                                     below: seq<D>, sibling: D, join: Join<D>)
    requires IsLevel(n, q, odd) && k >= 1 && k2 == Split(n + k2) && k == Split(q + k) && k2 == 2 * k
    requires b <= 1 && m == 2 * h + b && 2 * h + 1 < n && below != []
    ensures RootFrom(node, m + k2, n + k2, below + [sibling], join)
            == JoinedRoot(node, h + k, b, q + k, below + [sibling], join)
    decreases n + k2, 0
  {
    JoinSibling(node, m, h, b, n, q, odd, below, join);
    RootFromRight(node, m, n, k2, below, sibling, join);
    JoinedRootRight(node, h, b, q, k, below, sibling, join);
  }

  lemma JoinSiblingOfPair<D>(node: D, b: nat, path: seq<D>, join: Join<D>)
    requires b <= 1 && path != []
    ensures RootFrom(node, b, 2, path, join) == JoinedRoot(node, 0, b, 1, path, join)
  {
    assert |path| == 1 ==> path[..0] == [] && path[1..] == [] && path[0] == path[|path| - 1];
    assert |path| > 1 ==> path[..|path| - 1] != [] && path[1..] != [];
    RootFromLength(node, 0, 1, path[..|path| - 1], join);
  }

  lemma JoinSiblingShort<D>(node: D, m: nat, h: nat, b: nat, n: nat, q: nat, odd: nat, path: seq<D>, join: Join<D>)
    requires IsLevel(n, q, odd) && n >= 3 && b <= 1 && m == 2 * h + b && 2 * h + 1 < n && |path| == 1
    ensures RootFrom(node, m, n, path, join) == JoinedRoot(node, h, b, q, path, join) == None
  {
    SplitOfNextLevel(n, q, odd);
    assert path[..0] == [] && path[1..] == [];
  }

  lemma BothThroughRight<D>(node: D, m: nat, n: nat, k2: nat, h: nat, q: nat, k: nat,
                            below: seq<D>, sibling: D, join: Join<D>)
    requires m < n && k2 >= 1 && k2 == Split(n + k2) && h < q && k >= 1 && k == Split(q + k)
    requires RootFrom(node, m, n, below, join) == RootFrom(node, h, q, below, join)
    ensures RootFrom(node, m + k2, n + k2, below + [sibling], join)
            == RootFrom(node, h + k, q + k, below + [sibling], join)
  {
    RootFromRight(node, m, n, k2, below, sibling, join);
    RootFromRight(node, h, q, k, below, sibling, join);
  }

  /** The last node of a level of odd size has no sibling there and moves up unchanged. */
  lemma {:induction false} MoveUpAlone<D>(node: D, m: nat, n: nat, h: nat, q: nat, path: seq<D>, join: Join<D>)
    requires h >= 1 && m == 2 * h && n == m + 1 && q == h + 1
    ensures RootFrom(node, m, n, path, join) == RootFrom(node, h, q, path, join)
    decreases h
  {
    if path != [] {
      SplitOfNextLevel(n, q, 1);
      var k, k2 := Split(q), Split(n);
      var below, sibling := path[..|path| - 1], path[|path| - 1];
      assert path == below + [sibling];
      var m1, n1, h1, q1 := m - k2, n - k2, h - k, q - k;
      if h1 >= 1 {
        MoveUpAlone(node, m1, n1, h1, q1, below, join);
      }
      BothThroughRight(node, m1, n1, k2, h1, q1, k, below, sibling, join);
    }
  }
}
