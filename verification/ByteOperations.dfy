/** Byte-array helpers: `packages/crypto/src/bytes.ts` and the concatenation loop of the proof verifier. */
module ByteOperations {
  import opened Common

  function Concatenated(parts: seq<Bytes>): Bytes {
    if parts == [] then [] else parts[0] + Concatenated(parts[1..])
  }

  lemma ConcatenatedSnoc(parts: seq<Bytes>, last: Bytes)
    ensures Concatenated(parts + [last]) == Concatenated(parts) + last
  {
    if parts == [] {
      assert [last][1..] == [];
    } else {
      assert (parts + [last])[1..] == parts[1..] + [last];
      ConcatenatedSnoc(parts[1..], last);
      assert parts[0] + (Concatenated(parts[1..]) + last) == parts[0] + Concatenated(parts[1..]) + last;
    }
  }

  lemma ConcatenatedSplit(parts: seq<Bytes>, i: nat)
    requires i < |parts|
    ensures Concatenated(parts[..i + 1]) == Concatenated(parts[..i]) + parts[i]
  {
    assert parts[..i + 1] == parts[..i] + [parts[i]];
    ConcatenatedSnoc(parts[..i], parts[i]);
  }

  /** A prefix never holds more bytes than the whole. */
  lemma ConcatenatedPrefix(parts: seq<Bytes>, i: nat)
    requires i <= |parts|
    ensures |Concatenated(parts[..i])| <= |Concatenated(parts)|
    decreases |parts| - i
  {
    if i == |parts| {
      assert parts[..i] == parts;
    } else {
      ConcatenatedSplit(parts, i);
      ConcatenatedPrefix(parts, i + 1);
    }
  }

  /** `concatBytes`: measure, allocate, then copy each part at a moving offset. */
  method ConcatBytes(parts: seq<Bytes>) returns (output: array<Byte>)
    ensures fresh(output)
    ensures output[..] == Concatenated(parts)
  {
    var length := 0;
    for i := 0 to |parts|
      invariant length == |Concatenated(parts[..i])|
    {
      ConcatenatedSplit(parts, i);
      length := length + |parts[i]|;
    }
    assert parts[..|parts|] == parts;
    output := new Byte[length];
    var offset := 0;
    for i := 0 to |parts|
      invariant offset == |Concatenated(parts[..i])| <= length
      invariant output[..offset] == Concatenated(parts[..i])
    {
      ConcatenatedSplit(parts, i);
      ConcatenatedPrefix(parts, i + 1);
      ghost var before := output[..offset];
      forall k | 0 <= k < |parts[i]| {
        output[offset + k] := parts[i][k];
      }
      assert output[..offset + |parts[i]|] == before + parts[i];
      offset := offset + |parts[i]|;
    }
  }

  /** Bitwise exclusive or, on the words the source combines (all below 2^32). */
  function Xor(x: nat, y: nat): nat {
    if x == 0 && y == 0 then 0 else (if x % 2 == y % 2 then 0 else 1) + 2 * Xor(x / 2, y / 2)
  }

  /** Bitwise or. */
  function Or(x: nat, y: nat): nat {
    if x == 0 && y == 0 then 0 else (if x % 2 == 1 || y % 2 == 1 then 1 else 0) + 2 * Or(x / 2, y / 2)
  }

  lemma {:induction false} XorDetectsDifference(x: nat, y: nat)
    ensures Xor(x, y) == 0 <==> x == y
  {
    if x != 0 || y != 0 {
      XorDetectsDifference(x / 2, y / 2);
    }
  }

  lemma {:induction false} OrKeepsBits(x: nat, y: nat)
    ensures Or(x, y) == 0 <==> x == 0 && y == 0
  {
    if x != 0 || y != 0 {
      OrKeepsBits(x / 2, y / 2);
    }
  }

  /** The byte read at an index, 0 past the end, as the source reads it. */
  function ByteAt(bytes: Bytes, i: nat): Byte {
    if i < |bytes| then bytes[i] else 0
  }

  const WORD := 0x1_0000_0000

  /** Equal when both are continued with zero bytes. */
  predicate EqualPadded(left: Bytes, right: Bytes) {
    forall k :: 0 <= k < |left| + |right| ==> ByteAt(left, k) == ByteAt(right, k)
  }

  /**
   * `constantTimeEqual`: accumulate every difference over the longer input, never return early. The lengths are
   * compared as 32-bit words, which decides equality of contents below 2^32 bytes.
   */
  method ConstantTimeEqual(left: Bytes, right: Bytes) returns (equal: bool)
    ensures equal <==> |left| % 0x1_0000_0000 == |right| % 0x1_0000_0000 && EqualPadded(left, right)
    ensures |left| < 0x1_0000_0000 && |right| < 0x1_0000_0000 ==> (equal <==> left == right)
  {
    var comparisonLength := if |left| < |right| then |right| else |left|;
    var difference := Xor(|left| % WORD, |right| % WORD);
    XorDetectsDifference(|left| % WORD, |right| % WORD);
    for index := 0 to comparisonLength
      invariant difference == 0 <==>
                  |left| % WORD == |right| % WORD && forall k :: 0 <= k < index ==> ByteAt(left, k) == ByteAt(right, k)
    {
      var bits := ByteAt(left, index) ^ ByteAt(right, index);
      OrKeepsBits(difference, bits as nat);
      difference := Or(difference, bits as nat);
    }
    equal := difference == 0;
    if |left| == |right| {
      PaddedSameLength(left, right);
    }
  }

  lemma PaddedSameLength(left: Bytes, right: Bytes)
    requires |left| == |right|
    ensures EqualPadded(left, right) <==> left == right
  {
    if EqualPadded(left, right) {
      forall k | 0 <= k < |left|
        ensures left[k] == right[k]
      {
        assert ByteAt(left, k) == ByteAt(right, k);
      }
    }
  }

  function Zeros(n: nat): (bytes: Bytes)
    ensures |bytes| == n && forall k: nat :: ByteAt(bytes, k) == 0
  {
    seq(n, _ => 0)
  }

  /**
   * For inputs of two given lengths the comparison always answers equality of contents if and only if the lengths
   * are equal or differ as 32-bit words. Otherwise it takes zero bytes of the two lengths for equal.
   */
  lemma ComparisonExactIff(m: nat, n: nat)
    ensures (forall left: Bytes, right: Bytes :: |left| == m && |right| == n ==>
               (m % WORD == n % WORD && EqualPadded(left, right) <==> left == right))
            <==> m == n || m % WORD != n % WORD
  {
    if m == n {
      forall left: Bytes, right: Bytes | |left| == m && |right| == n
        ensures EqualPadded(left, right) <==> left == right
      {
        PaddedSameLength(left, right);
      }
    } else if m % WORD == n % WORD {
      assert EqualPadded(Zeros(m), Zeros(n)) && Zeros(m) != Zeros(n);
    }
  }
}
