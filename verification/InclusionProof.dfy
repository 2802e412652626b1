/**
 * `verifyInclusionProof` (packages/verifier/src/transparency.ts): the bottom-up loop of section 2.1.3.2
 * of RFC 9162, with JavaScript's 32-bit bitwise operators, against the top-down tree of RFC 6962.
 */
module InclusionProof {
  import opened Common
  import opened ByteOperations
  import opened MerkleTree
  import opened TreeShape

  const TWO_31: int := 0x8000_0000
  const TWO_32: int := 0x1_0000_0000

  /** JavaScript's ToInt32: the value modulo 2^32, read as a signed word. */
  function ToInt32(x: int): int {
    if -TWO_31 <= x < TWO_31 then x
    else
      var word := x % TWO_32;
      if word < TWO_31 then word else word - TWO_32
  }

  /** A signed 32-bit word that differs from the value by a multiple of 2^32. */
  lemma ToInt32IsSignedWord(x: int)
    ensures -0x8000_0000 <= ToInt32(x) < 0x8000_0000
    ensures ToInt32(x) == x - 0x1_0000_0000 * ((x + 0x8000_0000) / 0x1_0000_0000)
  {
    assert x == TWO_32 * (x / TWO_32) + x % TWO_32;
  }

  /** `x & 1` */
  function LowBit(x: int): int {
    ToInt32(x) % 2
  }

  /** `x >>= 1`, an arithmetic shift of the 32-bit value. */
  function Halve(x: int): int {
    ToInt32(x) / 2
  }

  lemma HalveSmall(x: int)
    requires 0 <= x < TWO_31
    ensures Halve(x) == x / 2 && LowBit(x) == x % 2
  {
  }

  /** Iterations that the inner loop can still make. */
  function SkipMeasure(index: int): nat {
    if index == 0 then 0
    else if -TWO_31 <= index < TWO_31 then (if index < 0 then -index else index)
    else TWO_32
  }

  lemma HalveShrinks(index: int)
    requires LowBit(index) == 0 && index != 0
    ensures SkipMeasure(Halve(index)) < SkipMeasure(index)
  {
  }

  /** The inner loop: skip the trailing zero bits of the index, shifting both numbers. */
  function SkipZeros(index: int, last: int): (int, int)
    decreases SkipMeasure(index)
  {
    if LowBit(index) == 0 && index != 0 then SkipZeros(Halve(index), Halve(last)) else (index, last)
  }

  /** The outer loop from a given point on: the node reached once the path is used up, if nothing fails. */
  function Fold<D>(node: D, index: int, last: int, path: seq<D>, join: Join<D>): Option<D>
    decreases |path|
  {
    if last <= 0 then
      if path == [] then Some(node) else None
    else if path == [] then None
    else
      var siblingOnLeft := LowBit(index) == 1 || index == last;
      var parent := join(path[0], node, siblingOnLeft);
      if parent.None? then None
      else
        var (i, l) := if siblingOnLeft then SkipZeros(index, last) else (index, last);
        Fold(parent.value, Halve(i), Halve(l), path[1..], join)
  }

  predicate WellFormedInput(eventHash: Bytes, leafIndex: int, treeSize: int, expectedRoot: Bytes) {
    && |eventHash| == HASH_BYTES
    && IsSafeInteger(leafIndex) && IsSafeInteger(treeSize)
    && 0 <= leafIndex < treeSize
    && |expectedRoot| == HASH_BYTES
  }

  /** What the verifier answers. */
  predicate Accepts(eventHash: Bytes, leafIndex: int, treeSize: int, path: seq<Bytes>, expectedRoot: Bytes,
                    hash: Hash)
  {
    && WellFormedInput(eventHash, leafIndex, treeSize, expectedRoot)
    && var leaf := HashLeaf(eventHash, hash);
       leaf.Some? && |leaf.value| == HASH_BYTES
       && Fold(leaf.value, leafIndex, treeSize - 1, path, Combiner(hash)) == Some(expectedRoot)
  }

  /** `verifyInclusionProof`. It terminates on every input, also where the 32-bit shifts wrap around. */
  method VerifyInclusionProof(eventHash: Bytes, leafIndex: int, treeSize: int, auditPath: seq<Bytes>,
                              expectedRoot: Bytes, hash: Hash)
    returns (valid: bool)
    ensures valid <==> Accepts(eventHash, leafIndex, treeSize, auditPath, expectedRoot, hash)
  {
    if |eventHash| != HASH_BYTES || !IsSafeInteger(leafIndex) || leafIndex < 0 || !IsSafeInteger(treeSize)
       || treeSize < 1 || leafIndex >= treeSize || |expectedRoot| != HASH_BYTES {
      return false;
    }
    var leaf := HashLeaf(eventHash, hash);
    if leaf.None? || |leaf.value| != HASH_BYTES {
      return false;
    }
    var node := leaf.value;
    var index := leafIndex;
    var last := treeSize - 1;
    var pathIndex := 0;
    while last > 0
      invariant pathIndex <= |auditPath| && |node| == HASH_BYTES
      invariant Fold(leaf.value, leafIndex, treeSize - 1, auditPath, Combiner(hash))
                == Fold(node, index, last, auditPath[pathIndex..], Combiner(hash))
      decreases |auditPath| - pathIndex
    {
      if pathIndex >= |auditPath| {
        return false;
      }
      var sibling := auditPath[pathIndex];
      if |sibling| != HASH_BYTES {
        return false;
      }
      assert auditPath[pathIndex..][1..] == auditPath[pathIndex + 1..];
      var parent: Option<Bytes>;
      if LowBit(index) == 1 || index == last {
        parent := HashNode(sibling, node, hash);
        ghost var skipped := SkipZeros(index, last);
        while LowBit(index) == 0 && index != 0
          invariant SkipZeros(index, last) == skipped
          decreases SkipMeasure(index)
        {
          HalveShrinks(index);
          index, last := Halve(index), Halve(last);
        }
      } else {
        parent := HashNode(node, sibling, hash);
      }
      if parent.None? || |parent.value| != HASH_BYTES {
        return false;
      }
      node := parent.value;
      index, last := Halve(index), Halve(last);
      pathIndex := pathIndex + 1;
    }
    var same := ConstantTimeEqual(node, expectedRoot);
    valid := pathIndex == |auditPath| && same;
  }

  // ----- The loop computes the tree's root claim

  /** On the right edge the loop does not tell apart a node and the same node one level up. */
  lemma FoldMovesUpAlone<D>(node: D, m: nat, h: nat, path: seq<D>, join: Join<D>)
    requires 1 <= h && m == 2 * h < TWO_31
    ensures Fold(node, m, m, path, join) == Fold(node, h, h, path, join)
  {
    HalveSmall(m);
    assert SkipZeros(m, m) == SkipZeros(h, h);
  }

  /** One iteration of the loop, given what its tests and shifts come to. */
  lemma FoldStep<D>(node: D, index: int, last: int, path: seq<D>, join: Join<D>, onLeft: bool, i: int, l: int)
    requires last > 0 && path != [] && (onLeft <==> LowBit(index) == 1 || index == last)
    requires onLeft ==> SkipZeros(index, last) == (index, last)
    requires Halve(index) == i && Halve(last) == l
    ensures Fold(node, index, last, path, join)
            == var parent := join(path[0], node, onLeft);
               if parent.None? then None else Fold(parent.value, i, l, path[1..], join)
  {
  }

  /** One iteration of the loop for a node with a sibling on its own level. */
  lemma FoldJoins<D>(node: D, h: nat, b: nat, n: nat, q: nat, odd: nat, path: seq<D>, join: Join<D>)
    requires IsLevel(n, q, odd) && n <= TWO_31 && b <= 1 && 2 * h + 1 < n
    ensures path == [] ==> Fold(node, 2 * h + b, n - 1, path, join) == None
    ensures path != [] ==>
              var parent := join(path[0], node, b == 1);
              Fold(node, 2 * h + b, n - 1, path, join)
              == if parent.None? then None else Fold(parent.value, h, q - 1, path[1..], join)
  {
    if path != [] {
      HalvesOfLevel(h, b, n, q, odd);
      FoldStep(node, 2 * h + b, n - 1, path, join, b == 1, h, q - 1);
    }
  }

  lemma HalvesOfLevel(h: nat, b: nat, n: nat, q: nat, odd: nat)
    requires IsLevel(n, q, odd) && n <= TWO_31 && b <= 1 && 2 * h + 1 < n
    ensures Halve(2 * h + b) == h && LowBit(2 * h + b) == b && Halve(n - 1) == q - 1
    ensures b == 1 ==> SkipZeros(2 * h + b, n - 1) == (2 * h + b, n - 1)
  {
    HalveSmall(2 * h + b);
    HalveSmall(n - 1);
  }

  /** A position and a size, halved with their remainders. */
  lemma Halved(m: nat, n: nat) returns (h: nat, b: nat, q: nat, odd: nat)
    requires m < n && n > 1
    ensures m == 2 * h + b && b <= 1 && IsLevel(n, q, odd)
    ensures 2 * h + 1 < n || (b == 0 && n == m + 1 && h >= 1)
  {
    h, b, q, odd := m / 2, m % 2, (n + 1) / 2, n % 2;
  }

  lemma FoldAtLeaf<D>(node: D, path: seq<D>, join: Join<D>)
    ensures Fold(node, 0, 0, path, join) == RootFrom(node, 0, 1, path, join)
  {
  }

  /**
   * The loop and the tree agree: on every path, honest or not, the bottom-up fold of the loop is the
   * top-down root claim, for every position in every tree of at most 2^31 leaves.
   */
  lemma {:induction false} FoldIsRootFrom<D>(node: D, m: nat, n: nat, path: seq<D>, join: Join<D>)
    requires m < n <= TWO_31
    ensures Fold(node, m, n - 1, path, join) == RootFrom(node, m, n, path, join)
    decreases n
  {
    if n == 1 {
      FoldAtLeaf(node, path, join);
    } else {
      var h, b, q, odd := Halved(m, n);
      if 2 * h + 1 < n {
        FoldIsRootFromJoin(node, m, h, b, n, q, odd, path, join);
      } else {
        FoldIsRootFromAlone(node, m, h, path, join);
      }
    }
  }

  lemma {:induction false} FoldIsRootFromAlone<D>(node: D, m: nat, h: nat, path: seq<D>, join: Join<D>)
    requires h >= 1 && m == 2 * h < TWO_31
    ensures Fold(node, m, m, path, join) == RootFrom(node, m, m + 1, path, join)
    decreases m + 1, 0
  {
    assert Fold(node, h, h, path, join) == RootFrom(node, h, h + 1, path, join) by {
      FoldIsRootFrom(node, h, h + 1, path, join);
    }
    assert RootFrom(node, m, m + 1, path, join) == RootFrom(node, h, h + 1, path, join) by {
      MoveUpAlone(node, m, m + 1, h, h + 1, path, join);
    }
    FoldMovesUpAlone(node, m, h, path, join);
  }

  lemma {:induction false} FoldIsRootFromJoin<D>(node: D, m: nat, h: nat, b: nat, n: nat, q: nat, odd: nat,
                                              path: seq<D>, join: Join<D>)
    requires IsLevel(n, q, odd) && n <= TWO_31 && b <= 1 && m == 2 * h + b && 2 * h + 1 < n
    ensures Fold(node, m, n - 1, path, join) == RootFrom(node, m, n, path, join)
    decreases n, 0
  {
    JoinSibling(node, m, h, b, n, q, odd, path, join);
    FoldJoins(node, h, b, n, q, odd, path, join);
    if path != [] {
      var parent := join(path[0], node, b == 1);
      if parent.Some? {
        FoldIsRootFrom(parent.value, h, q, path[1..], join);
      }
    }
  }

  // ----- Main results

  ghost predicate AreEventHashes(entries: seq<Bytes>) {
    forall e :: e in entries ==> |e| == 32
  }

  /**
   * Soundness: a proof accepted against the tree hash of `entries` shows the entry at that index, or
   * gives away two different inputs with the same hash.
   */
  lemma Soundness(eventHash: Bytes, i: nat, entries: seq<Bytes>, path: seq<Bytes>, hash: Hash)
    requires 0 < |entries| <= TWO_31 && IsDigestFunction(hash)
    requires Accepts(eventHash, i, |entries|, path, TreeHash(entries, hash), hash)
    ensures i < |entries| && |path| == PathLength(i, |entries|)
    ensures eventHash == entries[i] || IsCollision(ExposedPair(eventHash, i, entries, path, hash), hash)
  {
    var leaf := Digest(LeafInput(eventHash), hash);
    FoldIsRootFrom(leaf, i, |entries|, path, Combiner(hash));
    RootFromLength(leaf, i, |entries|, path, Combiner(hash));
    RootBindsEntry(eventHash, i, entries, path, hash);
  }

  /** Completeness: the audit path of every entry is accepted, and has at most ceil(log2 n) nodes. */
  lemma Completeness(i: nat, entries: seq<Bytes>, hash: Hash)
    requires i < |entries| <= TWO_31 && AreEventHashes(entries) && IsDigestFunction(hash)
    ensures Accepts(entries[i], i, |entries|, AuditPath(i, entries, hash), TreeHash(entries, hash), hash)
    ensures |AuditPath(i, entries, hash)| == PathLength(i, |entries|) <= CeilLog2(|entries|)
  {
    var leaf := Digest(LeafInput(entries[i]), hash);
    var path := AuditPath(i, entries, hash);
    FoldIsRootFrom(leaf, i, |entries|, path, Combiner(hash));
    AuditPathGivesRoot(i, entries, entries[i], leaf, hash);
    PathLengthBound(i, |entries|);
    assert HashLeaf(entries[i], hash) == Some(leaf);
    assert Fold(leaf, i, |entries| - 1, path, Combiner(hash)) == Some(TreeHash(entries, hash));
  }

  lemma {:induction false} FoldChecksPath(node: Bytes, index: int, last: int, path: seq<Bytes>, hash: Hash, k: nat)
    requires k < |path| && Fold(node, index, last, path, Combiner(hash)).Some?
    ensures |path[k]| == 32
    decreases |path|
  {
    if k > 0 {
      var siblingOnLeft := LowBit(index) == 1 || index == last;
      var parent := Combine(path[0], node, siblingOnLeft, hash);
      var (i, l) := if siblingOnLeft then SkipZeros(index, last) else (index, last);
      FoldChecksPath(parent.value, Halve(i), Halve(l), path[1..], hash, k - 1);
    }
  }

  /** Whatever the hash function: the verifier accepts 32-byte values only, at a position inside a tree of safe size. */
  lemma AcceptedInput(eventHash: Bytes, leafIndex: int, treeSize: int, path: seq<Bytes>, root: Bytes, hash: Hash)
    requires Accepts(eventHash, leafIndex, treeSize, path, root, hash)
    ensures |eventHash| == |root| == 32 && 0 <= leafIndex < treeSize <= 0x1F_FFFF_FFFF_FFFF
    ensures forall k :: 0 <= k < |path| ==> |path[k]| == 32
  {
    forall k | 0 <= k < |path|
      ensures |path[k]| == 32
    {
      FoldChecksPath(HashLeaf(eventHash, hash).value, leafIndex, treeSize - 1, path, hash, k);
    }
  }

  /** A hash function that rejects wherever `hash` returns anything but 32 bytes. */
  function Checked(hash: Hash): Hash {
    x => if hash(x).Some? && |hash(x).value| == 32 then hash(x) else None
  }

  lemma {:induction false} FoldChecksHashes(node: Bytes, index: int, last: int, path: seq<Bytes>, hash: Hash)
    ensures Fold(node, index, last, path, Combiner(hash)) == Fold(node, index, last, path, Combiner(Checked(hash)))
    decreases |path|
  {
    if last > 0 && path != [] {
      var siblingOnLeft := LowBit(index) == 1 || index == last;
      var parent := Combine(path[0], node, siblingOnLeft, hash);
      assert parent == Combine(path[0], node, siblingOnLeft, Checked(hash));
      if parent.Some? {
        var (i, l) := if siblingOnLeft then SkipZeros(index, last) else (index, last);
        FoldChecksHashes(parent.value, Halve(i), Halve(l), path[1..], hash);
      }
    }
  }

  /** A hash of another length than 32 bytes is refused wherever it turns up, like a rejected one. */
  lemma OnlyDigestsCount(eventHash: Bytes, leafIndex: int, treeSize: int, path: seq<Bytes>, root: Bytes, hash: Hash)
    ensures Accepts(eventHash, leafIndex, treeSize, path, root, hash)
            <==> Accepts(eventHash, leafIndex, treeSize, path, root, Checked(hash))
  {
    var leaf := HashLeaf(eventHash, hash);
    if leaf.Some? {
      FoldChecksHashes(leaf.value, leafIndex, treeSize - 1, path, hash);
    }
  }

  // ----- The limit of the 32-bit shifts

  /** Every honest proof of a tree with n leaves is accepted. */
  ghost predicate AcceptsHonestProofs(n: nat, hash: Hash)
    requires IsDigestFunction(hash)
  {
    forall entries: seq<Bytes>, i: nat | |entries| == n && AreEventHashes(entries) && i < n ::
      Accepts(entries[i], i, n, AuditPath(i, entries, hash), TreeHash(entries, hash), hash)
  }

  /** Nodes that the loop consumes for index 0. */
  function StepsAtZero(last: int): nat
    decreases if last <= 0 then 0 else if last < TWO_31 then last else TWO_32
  {
    if last <= 0 then 0 else 1 + StepsAtZero(Halve(last))
  }

  lemma {:induction false} FoldLengthAtZero<D>(node: D, last: int, path: seq<D>, join: Join<D>)
    ensures Fold(node, 0, last, path, join).Some? ==> |path| == StepsAtZero(last)
    decreases |path|
  {
    if last > 0 && path != [] {
      var parent := join(path[0], node, false);
      if parent.Some? {
        FoldLengthAtZero(parent.value, Halve(last), path[1..], join);
      }
    }
  }

  function Pow2(c: nat): nat {
    if c == 0 then 1 else 2 * Pow2(c - 1)
  }

  lemma {:induction false} StepsAtZeroBound(last: int, c: nat)
    requires last < Pow2(c) <= TWO_31
    ensures StepsAtZero(last) <= c
    decreases c
  {
    if last > 0 {
      HalveSmall(last);
      StepsAtZeroBound(last / 2, c - 1);
    }
  }

  lemma {:induction false} CeilLog2AtLeast(n: nat, c: nat)
    requires n > Pow2(c)
    ensures CeilLog2(n) >= c + 1
  {
    if c > 0 {
      CeilLog2AtLeast((n + 1) / 2, c - 1);
    }
  }

  lemma Pow2Values()
    ensures Pow2(30) == 0x4000_0000 && Pow2(31) == TWO_31
  {
    assert Pow2(5) == 32;
    assert Pow2(10) == 1024;
    assert Pow2(15) == 0x8000;
    assert Pow2(20) == 0x10_0000;
    assert Pow2(25) == 0x200_0000;
    assert Pow2(30) == 0x4000_0000;
  }

  /** Beyond 2^31 leaves no path of the leftmost leaf's true length can be accepted. */
  lemma LeftmostProofTooLong<D>(n: nat, node: D, path: seq<D>, join: Join<D>)
    requires n > TWO_31 && |path| == PathLength(0, n)
    ensures Fold(node, 0, n - 1, path, join).None?
  {
    Pow2Values();
    LeftmostPathLength(n);
    CeilLog2AtLeast(n, 31);
    FoldLengthAtZero(node, n - 1, path, join);
    assert Halve(n - 1) < Pow2(30);
    StepsAtZeroBound(Halve(n - 1), 30);
  }

  function ZeroEntries(n: nat): (entries: seq<Bytes>)
    ensures |entries| == n && forall e :: e in entries ==> |e| == 32
  {
    seq(n, _ => seq(32, _ => 0))
  }

  lemma LeftmostProofRejected(entry: Bytes, n: nat, path: seq<Bytes>, root: Bytes, hash: Hash)
    requires n > TWO_31 && |path| == PathLength(0, n)
    ensures !Accepts(entry, 0, n, path, root, hash)
  {
    var leaf := HashLeaf(entry, hash);
    if leaf.Some? {
      LeftmostProofTooLong(n, leaf.value, path, Combiner(hash));
    }
  }

  /** The exact range of the verifier: all honest proofs pass if and only if the tree has at most 2^31 leaves. */
  lemma CompleteExactlyUpToTwo31(n: nat, hash: Hash)
    requires 1 <= n && IsDigestFunction(hash)
    ensures AcceptsHonestProofs(n, hash) <==> n <= TWO_31
  {
    if n <= TWO_31 {
      forall entries: seq<Bytes>, i: nat | |entries| == n && AreEventHashes(entries) && i < n
        ensures Accepts(entries[i], i, n, AuditPath(i, entries, hash), TreeHash(entries, hash), hash)
      {
        Completeness(i, entries, hash);
      }
    } else {
      var entries := ZeroEntries(n);
      LeftmostProofRejected(entries[0], n, AuditPath(0, entries, hash), TreeHash(entries, hash), hash);
      assert AreEventHashes(entries);
    }
  }
}
