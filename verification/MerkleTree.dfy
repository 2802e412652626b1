/** The Merkle tree of RFC 6962: tree hash and audit path (sections 2.1 and 2.1.1), top down. */
module MerkleTree {
  import opened Common
  import opened TreeShape

  /** A hash function; None stands for a rejected promise. */
  type Hash = Bytes -> Option<Bytes>

  // ----- The tree of RFC 6962

  /** A total hash of 32-byte digests, as SHA-256 is. */
  ghost predicate IsDigestFunction(hash: Hash) {
    forall x: Bytes :: hash(x).Some? && |hash(x).value| == 32
  }

  /** The digest of x under a digest function. */
  function Digest(x: Bytes, hash: Hash): (d: Bytes)
    requires IsDigestFunction(hash)
    ensures |d| == 32 && hash(x) == Some(d)
  {
    hash(x).value
  }

  /** Section 2.1: the hash of a leaf is that of 0x00 and the entry. */
  function LeafInput(entry: Bytes): Bytes {
    [0x00] + entry
  }

  /** Section 2.1: the hash of an inner node is that of 0x01 and the hashes of its two subtrees. */
  function NodeInput(left: Bytes, right: Bytes): Bytes {
    [0x01] + left + right
  }

  /** Merkle Tree Hash (section 2.1) of a non-empty list of entries. */
  function TreeHash(entries: seq<Bytes>, hash: Hash): (root: Bytes)
    requires |entries| > 0 && IsDigestFunction(hash)
    ensures |root| == 32
    decreases |entries|
  {
    if |entries| == 1 then
      Digest(LeafInput(entries[0]), hash)
    else
      var k := Split(|entries|);
      Digest(NodeInput(TreeHash(entries[..k], hash), TreeHash(entries[k..], hash)), hash)
  }

  /** Merkle audit path (section 2.1.1) of entry m. */
  function AuditPath(m: nat, entries: seq<Bytes>, hash: Hash): (path: seq<Bytes>)
    requires m < |entries| && IsDigestFunction(hash)
    ensures |path| == PathLength(m, |entries|)
    decreases |entries|
  {
    if |entries| == 1 then
      []
    else
      var k := Split(|entries|);
      if m < k then
        AuditPath(m, entries[..k], hash) + [TreeHash(entries[k..], hash)]
      else
        AuditPath(m - k, entries[k..], hash) + [TreeHash(entries[..k], hash)]
  }

  // ----- The verifier's own hashing

  const HASH_BYTES: nat := 32
  const LEAF_PREFIX: Bytes := [0]
  const NODE_PREFIX: Bytes := [1]

  function HashLeaf(entry: Bytes, hash: Hash): Option<Bytes> {
    hash(LEAF_PREFIX + entry)
  }

  function HashNode(left: Bytes, right: Bytes, hash: Hash): Option<Bytes> {
    hash(NODE_PREFIX + left + right)
  }

  // ----- Recomputing a root hash from a leaf hash and a path

  /** One combination step: the sibling must be a digest, and so must the result. */
  function Combine(sibling: Bytes, node: Bytes, siblingOnLeft: bool, hash: Hash): Option<Bytes> {
    if |sibling| != HASH_BYTES then None
    else
      var combined := if siblingOnLeft then HashNode(sibling, node, hash) else HashNode(node, sibling, hash);
      if combined.Some? && |combined.value| == HASH_BYTES then combined else None
  }

  function Combiner(hash: Hash): Join<Bytes> {
    (sibling, node, siblingOnLeft) => Combine(sibling, node, siblingOnLeft, hash)
  }

  lemma CombineDigests(left: Bytes, right: Bytes, hash: Hash)
    requires |left| == |right| == 32 && IsDigestFunction(hash)
    ensures Combine(right, left, false, hash) == Some(Digest(NodeInput(left, right), hash))
    ensures Combine(left, right, true, hash) == Some(Digest(NodeInput(left, right), hash))
  {
  }

  /** The tree hash joins the hashes of the two subtrees, whichever of them comes as the sibling. */
  lemma TreeHashJoins(entries: seq<Bytes>, k: nat, hash: Hash)
    requires |entries| >= 2 && k == Split(|entries|) && IsDigestFunction(hash)
    ensures var left, right := TreeHash(entries[..k], hash), TreeHash(entries[k..], hash);
            && Combiner(hash)(right, left, false) == Some(TreeHash(entries, hash))
            && Combiner(hash)(left, right, true) == Some(TreeHash(entries, hash))
  {
    CombineDigests(TreeHash(entries[..k], hash), TreeHash(entries[k..], hash), hash);
  }

  lemma PathThroughLeft(m: nat, entries: seq<Bytes>, k: nat, hash: Hash)
    requires |entries| >= 2 && k == Split(|entries|) && m < k && IsDigestFunction(hash)
    ensures AuditPath(m, entries, hash) == AuditPath(m, entries[..k], hash) + [TreeHash(entries[k..], hash)]
  {
  }

  lemma PathThroughRight(m: nat, entries: seq<Bytes>, k: nat, hash: Hash)
    requires |entries| >= 2 && k == Split(|entries|) && k <= m < |entries| && IsDigestFunction(hash)
    ensures AuditPath(m, entries, hash) == AuditPath(m - k, entries[k..], hash) + [TreeHash(entries[..k], hash)]
  {
  }

  /** Folded through the honest path of entry m, a leaf hash gives the tree hash. */
  predicate ClaimsRoot(leaf: Bytes, m: nat, entries: seq<Bytes>, hash: Hash)
    requires m < |entries| && IsDigestFunction(hash)
  {
    RootFrom(leaf, m, |entries|, AuditPath(m, entries, hash), Combiner(hash)) == Some(TreeHash(entries, hash))
  }

  lemma RootThroughLeft(leaf: Bytes, m: nat, entries: seq<Bytes>, k: nat, hash: Hash)
    requires |entries| >= 2 && k == Split(|entries|) && m < k && IsDigestFunction(hash)
    requires ClaimsRoot(leaf, m, entries[..k], hash)
    ensures ClaimsRoot(leaf, m, entries, hash)
  {
    var path, root := AuditPath(m, entries, hash), TreeHash(entries, hash);
    var below, left, right := AuditPath(m, entries[..k], hash), TreeHash(entries[..k], hash),
                              TreeHash(entries[k..], hash);
    assert RootFrom(leaf, m, |entries|, path, Combiner(hash)) == Some(root) by {
      PathThroughLeft(m, entries, k, hash);
      TreeHashJoins(entries, k, hash);
      ClaimThroughLeft(leaf, m, |entries|, k, below, right, path, Combiner(hash), left, root);
    }
  }

  lemma RootThroughRight(leaf: Bytes, m: nat, entries: seq<Bytes>, k: nat, hash: Hash)
    requires |entries| >= 2 && k == Split(|entries|) && k <= m < |entries| && IsDigestFunction(hash)
    requires ClaimsRoot(leaf, m - k, entries[k..], hash)
    ensures ClaimsRoot(leaf, m, entries, hash)
  {
    var path, root := AuditPath(m, entries, hash), TreeHash(entries, hash);
    var below, left, right := AuditPath(m - k, entries[k..], hash), TreeHash(entries[..k], hash),
                              TreeHash(entries[k..], hash);
    assert RootFrom(leaf, m, |entries|, path, Combiner(hash)) == Some(root) by {
      PathThroughRight(m, entries, k, hash);
      TreeHashJoins(entries, k, hash);
      ClaimThroughRight(leaf, m, |entries|, k, m - k, |entries[k..]|, below, left, path, Combiner(hash), right, root);
    }
  }

  lemma SingleEntryGivesRoot(entries: seq<Bytes>, leaf: Bytes, hash: Hash)
    requires |entries| == 1 && IsDigestFunction(hash) && leaf == Digest(LeafInput(entries[0]), hash)
    ensures ClaimsRoot(leaf, 0, entries, hash)
  {
  }

  /** The subtree that holds entry m, and the position of m in it. */
  function Descend(m: nat, entries: seq<Bytes>): (sub: (nat, seq<Bytes>))
    requires m < |entries| && |entries| >= 2
    ensures sub.0 < |sub.1| < |entries| && sub.1[sub.0] == entries[m]
  {
    var k := Split(|entries|);
    if m < k then (m, entries[..k]) else (m - k, entries[k..])
  }

  lemma RootThroughSubtree(leaf: Bytes, m: nat, entries: seq<Bytes>, hash: Hash)
    requires m < |entries| && |entries| >= 2 && IsDigestFunction(hash)
    requires ClaimsRoot(leaf, Descend(m, entries).0, Descend(m, entries).1, hash)
    ensures ClaimsRoot(leaf, m, entries, hash)
  {
    var k := Split(|entries|);
    if m < k {
      RootThroughLeft(leaf, m, entries, k, hash);
    } else {
      RootThroughRight(leaf, m, entries, k, hash);
    }
  }

  /** An honest audit path recomputes the tree hash. */
  lemma {:induction false} AuditPathGivesRoot(m: nat, entries: seq<Bytes>, entry: Bytes, leaf: Bytes, hash: Hash)
    requires m < |entries| && entries[m] == entry && IsDigestFunction(hash) && leaf == Digest(LeafInput(entry), hash)
    ensures ClaimsRoot(leaf, m, entries, hash)
    decreases |entries|
  {
    if |entries| == 1 {
      SingleEntryGivesRoot(entries, leaf, hash);
    } else {
      AuditPathGivesRoot(Descend(m, entries).0, Descend(m, entries).1, entry, leaf, hash);
      RootThroughSubtree(leaf, m, entries, hash);
    }
  }

  ghost predicate IsCollision(pair: (Bytes, Bytes), hash: Hash) {
    pair.0 != pair.1 && hash(pair.0) == hash(pair.1)
  }

  /** What the tree itself feeds to the hash at its root. */
  function RootInput(entries: seq<Bytes>, hash: Hash): Bytes
    requires |entries| >= 2 && IsDigestFunction(hash)
  {
    var k := Split(|entries|);
    NodeInput(TreeHash(entries[..k], hash), TreeHash(entries[k..], hash))
  }

  /** What the verifier feeds to the hash at the root, for the given path. */
  function ClaimedRootInput(leaf: Bytes, m: nat, entries: seq<Bytes>, path: seq<Bytes>, hash: Hash): Bytes
    requires m < |entries| && |entries| >= 2 && path != []
  {
    var sub := Descend(m, entries);
    var sibling := path[|path| - 1];
    var claimed := RootFrom(leaf, sub.0, |sub.1|, path[..|path| - 1], Combiner(hash)).GetOr([]);
    if m < Split(|entries|) then NodeInput(claimed, sibling) else NodeInput(sibling, claimed)
  }

  /**
   * The two inputs that a wrong but accepted proof exposes: walk down from the root to the first
   * node whose hash input differs from the tree's own.
   */
  function ExposedPair(entry: Bytes, m: nat, entries: seq<Bytes>, path: seq<Bytes>, hash: Hash): (Bytes, Bytes)
    requires m < |entries| && IsDigestFunction(hash)
    decreases |entries|
  {
    if |entries| == 1 || path == [] then
      (LeafInput(entry), LeafInput(entries[m]))
    else
      var input := ClaimedRootInput(Digest(LeafInput(entry), hash), m, entries, path, hash);
      if input != RootInput(entries, hash) then
        (input, RootInput(entries, hash))
      else
        var sub := Descend(m, entries);
        ExposedPair(entry, sub.0, sub.1, path[..|path| - 1], hash)
  }

  lemma {:induction false} RootFromIsDigest(node: Bytes, m: nat, n: nat, path: seq<Bytes>, hash: Hash)
    requires m < n && |node| == HASH_BYTES
    ensures RootFrom(node, m, n, path, Combiner(hash)).Some? ==>
              |RootFrom(node, m, n, path, Combiner(hash)).value| == HASH_BYTES
  {
  }

  /** Equal node inputs made of digests have equal halves. */
  lemma NodeInputInjective(a: Bytes, b: Bytes, c: Bytes, d: Bytes)
    requires |a| == |c|
    requires NodeInput(a, b) == NodeInput(c, d)
    ensures a == c && b == d
  {
    assert a == NodeInput(a, b)[1..1 + |a|] == NodeInput(c, d)[1..1 + |c|] == c;
    assert b == NodeInput(a, b)[1 + |a|..] == NodeInput(c, d)[1 + |c|..] == d;
  }

  /** The verifier's hash input at the root hashes to what the path claims. */
  lemma ClaimIsHashOfInput(leaf: Bytes, m: nat, entries: seq<Bytes>, path: seq<Bytes>, hash: Hash)
    requires m < |entries| && |entries| >= 2 && |leaf| == HASH_BYTES && path != []
    requires RootFrom(leaf, m, |entries|, path, Combiner(hash)).Some?
    ensures var sub := Descend(m, entries);
            var claimed := RootFrom(leaf, sub.0, |sub.1|, path[..|path| - 1], Combiner(hash));
            claimed.Some? && |claimed.value| == HASH_BYTES && |path[|path| - 1]| == HASH_BYTES
    ensures hash(ClaimedRootInput(leaf, m, entries, path, hash))
            == RootFrom(leaf, m, |entries|, path, Combiner(hash))
  {
    var sub := Descend(m, entries);
    RootFromIsDigest(leaf, sub.0, |sub.1|, path[..|path| - 1], hash);
  }

  /** At one level: the verifier's input is the tree's own and its claim the true subtree hash, or the two collide. */
  lemma RootBindsSubtree(leaf: Bytes, m: nat, entries: seq<Bytes>, path: seq<Bytes>, hash: Hash)
    requires m < |entries| && |entries| >= 2 && IsDigestFunction(hash) && |leaf| == HASH_BYTES && path != []
    requires RootFrom(leaf, m, |entries|, path, Combiner(hash)) == Some(TreeHash(entries, hash))
    ensures var input := ClaimedRootInput(leaf, m, entries, path, hash);
            var sub := Descend(m, entries);
            if input == RootInput(entries, hash)
            then RootFrom(leaf, sub.0, |sub.1|, path[..|path| - 1], Combiner(hash)) == Some(TreeHash(sub.1, hash))
            else IsCollision((input, RootInput(entries, hash)), hash)
  {
    ClaimIsHashOfInput(leaf, m, entries, path, hash);
    var sub := Descend(m, entries);
    SameInputSameClaim(RootFrom(leaf, sub.0, |sub.1|, path[..|path| - 1], Combiner(hash)).value,
                       path[|path| - 1], m, entries, hash);
  }

  /** A root input that equals the tree's own names the true hash of the subtree on the path. */
  lemma SameInputSameClaim(claimed: Bytes, sibling: Bytes, m: nat, entries: seq<Bytes>, hash: Hash)
    requires m < |entries| && |entries| >= 2 && IsDigestFunction(hash) && |claimed| == |sibling| == HASH_BYTES
    ensures (if m < Split(|entries|) then NodeInput(claimed, sibling) else NodeInput(sibling, claimed))
            == RootInput(entries, hash)
            ==> claimed == TreeHash(Descend(m, entries).1, hash)
  {
    var k := Split(|entries|);
    var left, right := TreeHash(entries[..k], hash), TreeHash(entries[k..], hash);
    if m < k {
      if NodeInput(claimed, sibling) == NodeInput(left, right) {
        NodeInputInjective(claimed, sibling, left, right);
      }
    } else if NodeInput(sibling, claimed) == NodeInput(left, right) {
      NodeInputInjective(sibling, claimed, left, right);
    }
  }

  /** A path that recomputes the tree hash proves its entry, or exposes a collision of the hash. */
  lemma {:induction false} RootBindsEntry(entry: Bytes, m: nat, entries: seq<Bytes>, path: seq<Bytes>, hash: Hash)
    requires m < |entries| && IsDigestFunction(hash)
    requires RootFrom(Digest(LeafInput(entry), hash), m, |entries|, path, Combiner(hash))
             == Some(TreeHash(entries, hash))
    ensures entry == entries[m] || IsCollision(ExposedPair(entry, m, entries, path, hash), hash)
    decreases |entries|
  {
    var leaf := Digest(LeafInput(entry), hash);
    if |entries| == 1 {
      if entry != entries[0] {
        assert entry == LeafInput(entry)[1..];
        assert entries[0] == LeafInput(entries[0])[1..];
      }
    } else {
      assert path != [];
      RootBindsSubtree(leaf, m, entries, path, hash);
      if ClaimedRootInput(leaf, m, entries, path, hash) == RootInput(entries, hash) {
        var sub := Descend(m, entries);
        RootBindsEntry(entry, sub.0, sub.1, path[..|path| - 1], hash);
      }
    }
  }
}
