/**
 * Unpadded base64url (packages/protocol/src/base64url.ts; sections 3.5, 4 and 5 of RFC 4648). `btoa` and `atob`
 * are those of section 4, `atob` ignoring the bits that are left over at the end. An octet is its value.
 */
module Base64Url {
  import opened Common

  type Octet = x: int | 0 <= x < 256
  type Sextet = x: int | 0 <= x < 64

  // ----- Octets and sextets

  // three octets as four groups of six bits
  function Sextet0(a: Octet): Sextet {
    a / 4
  }

  function Sextet1(a: Octet, b: Octet): Sextet {
    a % 4 * 16 + b / 16
  }

  function Sextet2(b: Octet, c: Octet): Sextet {
    b % 16 * 4 + c / 64
  }

  function Sextet3(c: Octet): Sextet {
    c % 64
  }

  // and back
  function Octet0(s: Sextet, t: Sextet): Octet {
    s * 4 + t / 16
  }

  function Octet1(t: Sextet, u: Sextet): Octet {
    t % 16 * 16 + u / 4
  }

  function Octet2(u: Sextet, v: Sextet): Octet {
    u % 4 * 64 + v
  }

  lemma OctetsToSextetsAndBack(a: Octet, b: Octet, c: Octet)
    ensures Octet0(Sextet0(a), Sextet1(a, b)) == a
    ensures Octet1(Sextet1(a, b), Sextet2(b, c)) == b
    ensures Octet2(Sextet2(b, c), Sextet3(c)) == c
  {
  }

  lemma FilledUpWithZeros(a: Octet, b: Octet)
    ensures Sextet1(a, 0) % 16 == 0 && Sextet2(b, 0) % 4 == 0
  {
  }

  lemma SextetsToOctetsAndBack(s: Sextet, t: Sextet, u: Sextet, v: Sextet)
    ensures Sextet0(Octet0(s, t)) == s
    ensures Sextet1(Octet0(s, t), Octet1(t, u)) == t
    ensures Sextet2(Octet1(t, u), Octet2(u, v)) == u
    ensures Sextet3(Octet2(u, v)) == v
    ensures Sextet1(Octet0(s, t), 0) == t <==> t % 16 == 0
    ensures Sextet2(Octet1(t, u), 0) == u <==> u % 4 == 0
  {
  }

  /** The groups of six bits of section 4, the last one filled up with zero bits. */
  function ToSextets(bytes: seq<Octet>): seq<Sextet> {
    if bytes == [] then []
    else if |bytes| == 1 then [Sextet0(bytes[0]), Sextet1(bytes[0], 0)]
    else if |bytes| == 2 then [Sextet0(bytes[0]), Sextet1(bytes[0], bytes[1]), Sextet2(bytes[1], 0)]
    else
      [Sextet0(bytes[0]), Sextet1(bytes[0], bytes[1]), Sextet2(bytes[1], bytes[2]), Sextet3(bytes[2])]
        + ToSextets(bytes[3..])
  }

  /** The whole octets in a sequence of groups; bits left over are dropped. */
  function FromSextets(sextets: seq<Sextet>): seq<Octet> {
    if |sextets| < 2 then []
    else if |sextets| == 2 then [Octet0(sextets[0], sextets[1])]
    else if |sextets| == 3 then [Octet0(sextets[0], sextets[1]), Octet1(sextets[1], sextets[2])]
    else
      [Octet0(sextets[0], sextets[1]), Octet1(sextets[1], sextets[2]), Octet2(sextets[2], sextets[3])]
      + FromSextets(sextets[4..])
  }

  /** The length fits whole octets, and the bits left over are zero. */
  predicate Canonical(sextets: seq<Sextet>) {
    && |sextets| % 4 != 1
    && (|sextets| % 4 == 2 ==> sextets[|sextets| - 1] % 16 == 0)
    && (|sextets| % 4 == 3 ==> sextets[|sextets| - 1] % 4 == 0)
  }

  lemma FourMore<T>(first: seq<T>, rest: seq<T>)
    requires |first| == 4
    ensures (first + rest)[4..] == rest && |first + rest| % 4 == |rest| % 4
  {
  }

  lemma ThreeMore<T>(first: seq<T>, rest: seq<T>)
    requires |first| == 3
    ensures (first + rest)[3..] == rest
  {
  }

  lemma FromSextetsGroup(s: Sextet, t: Sextet, u: Sextet, v: Sextet, rest: seq<Sextet>)
    ensures FromSextets([s, t, u, v] + rest) == [Octet0(s, t), Octet1(t, u), Octet2(u, v)] + FromSextets(rest)
  {
    FourMore([s, t, u, v], rest);
  }

  lemma CanonicalGroup(s: Sextet, t: Sextet, u: Sextet, v: Sextet, rest: seq<Sextet>)
    ensures Canonical([s, t, u, v] + rest) <==> Canonical(rest)
  {
    FourMore([s, t, u, v], rest);
  }

  lemma FromTwoSextets(s: Sextet, t: Sextet)
    ensures FromSextets([s, t]) == [Octet0(s, t)] && (Canonical([s, t]) <==> t % 16 == 0)
  {
  }

  lemma FromThreeSextets(s: Sextet, t: Sextet, u: Sextet)
    ensures FromSextets([s, t, u]) == [Octet0(s, t), Octet1(t, u)] && (Canonical([s, t, u]) <==> u % 4 == 0)
  {
  }

  lemma LastOctetSurvives(a: Octet)
    ensures FromSextets(ToSextets([a])) == [a] && Canonical(ToSextets([a]))
  {
    OctetsToSextetsAndBack(a, 0, 0);
    FilledUpWithZeros(a, 0);
    FromTwoSextets(Sextet0(a), Sextet1(a, 0));
  }

  lemma LastTwoOctetsSurvive(a: Octet, b: Octet)
    ensures FromSextets(ToSextets([a, b])) == [a, b] && Canonical(ToSextets([a, b]))
  {
    OctetsToSextetsAndBack(a, b, 0);
    FilledUpWithZeros(a, b);
    FromThreeSextets(Sextet0(a), Sextet1(a, b), Sextet2(b, 0));
  }

  lemma ToSextetsGroup(a: Octet, b: Octet, c: Octet, rest: seq<Octet>)
    ensures ToSextets([a, b, c] + rest) == [Sextet0(a), Sextet1(a, b), Sextet2(b, c), Sextet3(c)] + ToSextets(rest)
  {
    ThreeMore([a, b, c], rest);
  }

  lemma {:induction false} OctetsSurvive(bytes: seq<Octet>)
    ensures FromSextets(ToSextets(bytes)) == bytes && Canonical(ToSextets(bytes))
  {
    if |bytes| == 1 {
      LastOctetSurvives(bytes[0]);
      assert bytes == [bytes[0]];
    } else if |bytes| == 2 {
      LastTwoOctetsSurvive(bytes[0], bytes[1]);
      assert bytes == [bytes[0], bytes[1]];
    } else if |bytes| >= 3 {
      OctetsSurvive(bytes[3..]);
      GroupSurvives(bytes[0], bytes[1], bytes[2], bytes[3..]);
      assert bytes == [bytes[0], bytes[1], bytes[2]] + bytes[3..];
    }
  }

  lemma GroupSurvives(a: Octet, b: Octet, c: Octet, rest: seq<Octet>)
    requires FromSextets(ToSextets(rest)) == rest && Canonical(ToSextets(rest))
    ensures var s := ToSextets([a, b, c] + rest); FromSextets(s) == [a, b, c] + rest && Canonical(s)
  {
    ToSextetsGroup(a, b, c, rest);
    OctetsToSextetsAndBack(a, b, c);
    FromSextetsGroup(Sextet0(a), Sextet1(a, b), Sextet2(b, c), Sextet3(c), ToSextets(rest));
    CanonicalGroup(Sextet0(a), Sextet1(a, b), Sextet2(b, c), Sextet3(c), ToSextets(rest));
  }

  lemma Cancel<T>(first: seq<T>, rest: seq<T>, other: seq<T>)
    ensures first + rest == first + other <==> rest == other
  {
    if first + rest == first + other {
      assert (first + rest)[|first|..] == rest && (first + other)[|first|..] == other;
    }
  }

  lemma TwoSextetsSurviveIff(s: Sextet, t: Sextet)
    ensures ToSextets(FromSextets([s, t])) == [s, t] <==> Canonical([s, t])
  {
    FromTwoSextets(s, t);
    SextetsToOctetsAndBack(s, t, 0, 0);
    assert ToSextets([Octet0(s, t)]) == [Sextet0(Octet0(s, t)), Sextet1(Octet0(s, t), 0)];
  }

  lemma ThreeSextetsSurviveIff(s: Sextet, t: Sextet, u: Sextet)
    ensures ToSextets(FromSextets([s, t, u])) == [s, t, u] <==> Canonical([s, t, u])
  {
    FromThreeSextets(s, t, u);
    SextetsToOctetsAndBack(s, t, u, 0);
    var a, b := Octet0(s, t), Octet1(t, u);
    assert ToSextets([a, b]) == [Sextet0(a), Sextet1(a, b), Sextet2(b, 0)];
  }

  lemma FourSextetsSurviveIff(s: Sextet, t: Sextet, u: Sextet, v: Sextet, rest: seq<Sextet>)
    requires ToSextets(FromSextets(rest)) == rest <==> Canonical(rest)
    ensures ToSextets(FromSextets([s, t, u, v] + rest)) == [s, t, u, v] + rest <==> Canonical([s, t, u, v] + rest)
  {
    FromSextetsGroup(s, t, u, v, rest);
    ToSextetsGroup(Octet0(s, t), Octet1(t, u), Octet2(u, v), FromSextets(rest));
    SextetsToOctetsAndBack(s, t, u, v);
    CanonicalGroup(s, t, u, v, rest);
    Cancel([s, t, u, v], ToSextets(FromSextets(rest)), rest);
  }

  lemma {:induction false} SextetsSurviveIff(sextets: seq<Sextet>)
    requires |sextets| % 4 != 1
    ensures ToSextets(FromSextets(sextets)) == sextets <==> Canonical(sextets)
  {
    if |sextets| == 2 {
      TwoSextetsSurviveIff(sextets[0], sextets[1]);
      assert sextets == [sextets[0], sextets[1]];
    } else if |sextets| == 3 {
      ThreeSextetsSurviveIff(sextets[0], sextets[1], sextets[2]);
      assert sextets == [sextets[0], sextets[1], sextets[2]];
    } else if |sextets| >= 4 {
      SextetsSurviveIff(sextets[4..]);
      FourSextetsSurviveIff(sextets[0], sextets[1], sextets[2], sextets[3], sextets[4..]);
      assert sextets == [sextets[0], sextets[1], sextets[2], sextets[3]] + sextets[4..];
    }
  }

  // ----- Characters

  function Mapped<A, B>(f: A -> B, s: seq<A>): (r: seq<B>)
    ensures |r| == |s| && forall i :: 0 <= i < |s| ==> r[i] == f(s[i])
  {
    seq(|s|, i requires 0 <= i < |s| => f(s[i]))
  }

  function Offset(base: char, n: nat): char
    requires base as int + n < 0x80
  {
    (base as int + n) as char
  }

  /** The alphabet of section 4. */
  function Base64Char(v: Sextet): char {
    if v < 26 then Offset('A', v)
    else if v < 52 then Offset('a', v - 26)
    else if v < 62 then Offset('0', v - 52)
    else if v == 62 then '+' else '/'
  }

  function Base64Value(c: char): Option<Sextet> {
    if 'A' <= c <= 'Z' then Some(c as int - 'A' as int)
    else if 'a' <= c <= 'z' then Some(c as int - 'a' as int + 26)
    else if '0' <= c <= '9' then Some(c as int - '0' as int + 52)
    else if c == '+' then Some(62)
    else if c == '/' then Some(63)
    else None
  }

  function ToUrl(c: char): char {
    if c == '+' then '-' else if c == '/' then '_' else c
  }

  function FromUrl(c: char): char {
    if c == '-' then '+' else if c == '_' then '/' else c
  }

  /** BASE64URL_PATTERN */
  predicate IsUrlChar(c: char) {
    'A' <= c <= 'Z' || 'a' <= c <= 'z' || '0' <= c <= '9' || c == '_' || c == '-'
  }

  lemma UrlChars(v: Sextet)
    ensures IsUrlChar(ToUrl(Base64Char(v))) && ToUrl(Base64Char(v)) != '='
    ensures Base64Value(FromUrl(ToUrl(Base64Char(v)))) == Some(v)
  {
  }

  lemma UrlValues(c: char)
    ensures IsUrlChar(c) <==> (c != '+' && c != '/' && Base64Value(FromUrl(c)).Some?)
    ensures IsUrlChar(c) ==> ToUrl(Base64Char(Base64Value(FromUrl(c)).value)) == c && FromUrl(c) != '='
  {
  }

  function CharOf(o: Octet): char {
    o as char
  }

  function CodeOf(c: char): Octet {
    if c as int < 256 then c as int else 0
  }

  // `btoa`, `atob`, `padEnd` and the replacements

  function Padding(n: nat): string {
    seq(n, i => '=')
  }

  function MissingPadding(length: nat): nat {
    (4 - length % 4) % 4
  }

  /** `btoa` of a string whose characters are all below 256. */
  function Btoa(binary: string): string {
    var sextets := ToSextets(Mapped(CodeOf, binary));
    Mapped(Base64Char, sextets) + Padding(MissingPadding(|sextets|))
  }

  function DropPad(s: string): string {
    if s != [] && s[|s| - 1] == '=' then s[..|s| - 1] else s
  }

  /** `atob` of a string without white space; None when it throws. */
  function Atob(s: string): Option<string> {
    var t := if |s| % 4 == 0 then DropPad(DropPad(s)) else s;
    if |t| % 4 == 1 || exists i :: 0 <= i < |t| && Base64Value(t[i]).None? then None
    else Some(Mapped(CharOf, FromSextets(SextetsOf(t))))
  }

  function SextetsOf(t: string): seq<Sextet>
    requires forall i :: 0 <= i < |t| ==> Base64Value(t[i]).Some?
  {
    seq(|t|, i requires 0 <= i < |t| => Base64Value(t[i]).value)
  }

  function StripPadding(s: string): string {
    if s != [] && s[|s| - 1] == '=' then StripPadding(s[..|s| - 1]) else s
  }

  // ----- The codec

  function Encode(bytes: seq<Octet>): string {
    StripPadding(Mapped(ToUrl, Btoa(Mapped(CharOf, bytes))))
  }

  predicate InPattern(value: string) {
    forall i :: 0 <= i < |value| ==> IsUrlChar(value[i])
  }

  /** `decodeBase64Url`; None when it throws. */
  function Decode(value: string): Option<seq<Octet>> {
    if !InPattern(value) || |value| % 4 == 1 then None
    else
      match Atob(Mapped(FromUrl, value) + Padding(MissingPadding(|value|)))
      case None => None
      case Some(binary) =>
        var bytes := Mapped(CodeOf, binary);
        if Encode(bytes) != value then None else Some(bytes)
  }

  method BytesToBinary(bytes: seq<Octet>) returns (output: string)
    ensures output == Mapped(CharOf, bytes)
  {
    output := "";
    var index := 0;
    while index < |bytes|
      invariant 0 <= index <= |bytes| && |output| == index
      invariant forall i :: 0 <= i < index ==> output[i] == CharOf(bytes[i])
    {
      output := output + [CharOf(bytes[index])];
      index := index + 1;
    }
  }

  // ----- Theorems

  /** The URL and filename safe alphabet of section 5. */
  function UrlChar(v: Sextet): char {
    if v < 26 then ('A' as int + v) as char
    else if v < 52 then ('a' as int + v - 26) as char
    else if v < 62 then ('0' as int + v - 52) as char
    else if v == 62 then '-' else '_'
  }

  lemma UrlCharIsMapped(v: Sextet)
    ensures UrlChar(v) == ToUrl(Base64Char(v))
  {
  }

  /** Four groups of six bits hold the same 24-bit number as the three octets, most significant bits first. */
  lemma GroupsHoldTheBits(a: Octet, b: Octet, c: Octet)
    ensures ToSextets([a, b, c]) == [Sextet0(a), Sextet1(a, b), Sextet2(b, c), Sextet3(c)]
    ensures 0x1_0000 * a + 0x100 * b + c
            == 0x4_0000 * Sextet0(a) + 0x1000 * Sextet1(a, b) + 0x40 * Sextet2(b, c) + Sextet3(c)
  {
    assert ToSextets([]) == [];
  }

  function UrlSextets(value: string): seq<Sextet>
    requires InPattern(value)
  {
    seq(|value|, i requires 0 <= i < |value| => UrlValue(value[i]))
  }

  function UrlValue(c: char): Sextet
    requires IsUrlChar(c)
  {
    UrlValues(c);
    Base64Value(FromUrl(c)).value
  }

  lemma CodesOfChars(bytes: seq<Octet>)
    ensures Mapped(CodeOf, Mapped(CharOf, bytes)) == bytes
  {
  }

  lemma {:induction false} StripsPadding(s: string, n: nat)
    requires s == [] || s[|s| - 1] != '='
    ensures StripPadding(s + Padding(n)) == s
  {
    if n == 0 {
      assert s + Padding(n) == s;
    } else {
      assert (s + Padding(n))[..|s| + n - 1] == s + Padding(n - 1);
      StripsPadding(s, n - 1);
    }
  }

  /** Encoding writes the groups of six bits in the alphabet of section 5, without padding. */
  lemma EncodeWritesSextets(bytes: seq<Octet>)
    ensures Encode(bytes) == Mapped(UrlChar, ToSextets(bytes))
  {
    var sextets := ToSextets(bytes);
    var n := MissingPadding(|sextets|);
    var text := Mapped(UrlChar, sextets);
    CodesOfChars(bytes);
    assert Mapped(ToUrl, Mapped(Base64Char, sextets) + Padding(n)) == text + Padding(n);
    if sextets != [] {
      UrlChars(sextets[|sextets| - 1]);
    }
    StripsPadding(text, n);
  }

  lemma PaddedLength(length: nat)
    requires length % 4 != 1
    ensures (length + MissingPadding(length)) % 4 == 0 && MissingPadding(length) <= 2
  {
  }

  lemma AtobOfPadded(t: string)
    requires |t| % 4 != 1 && forall i :: 0 <= i < |t| ==> Base64Value(t[i]).Some?
    ensures Atob(t + Padding(MissingPadding(|t|))) == Some(Mapped(CharOf, FromSextets(SextetsOf(t))))
  {
    PaddedLength(|t|);
    DropsPadding(t, MissingPadding(|t|));
  }

  lemma AtobReadsSextets(value: string)
    requires InPattern(value) && |value| % 4 != 1
    ensures Atob(Mapped(FromUrl, value) + Padding(MissingPadding(|value|)))
            == Some(Mapped(CharOf, FromSextets(UrlSextets(value))))
  {
    var t := Mapped(FromUrl, value);
    forall i | 0 <= i < |t|
      ensures Base64Value(t[i]) == Some(UrlValue(value[i]))
    {
      UrlValues(value[i]);
    }
    AtobOfPadded(t);
    assert SextetsOf(t) == UrlSextets(value);
  }

  lemma DropsPadding(t: string, n: nat)
    requires n <= 2 && (t == [] || t[|t| - 1] != '=')
    ensures DropPad(DropPad(t + Padding(n))) == t
  {
    if n == 0 {
      assert t + Padding(n) == t;
    } else {
      assert DropPad(t + Padding(n)) == t + Padding(n - 1);
      assert t + Padding(0) == t;
    }
  }

  lemma CharsOfSextets(value: string)
    requires InPattern(value)
    ensures Mapped(UrlChar, UrlSextets(value)) == value
  {
    forall i | 0 <= i < |value|
      ensures UrlChar(UrlSextets(value)[i]) == value[i]
    {
      UrlValues(value[i]);
    }
  }

  lemma SextetsOfChars(sextets: seq<Sextet>)
    ensures InPattern(Mapped(UrlChar, sextets)) && UrlSextets(Mapped(UrlChar, sextets)) == sextets
  {
    forall i | 0 <= i < |sextets|
      ensures IsUrlChar(UrlChar(sextets[i])) && UrlValue(UrlChar(sextets[i])) == sextets[i]
    {
      UrlChars(sextets[i]);
    }
  }

  /** What decoding amounts to. */
  lemma DecodeIs(value: string)
    ensures Decode(value)
            == if InPattern(value) && Canonical(UrlSextets(value)) then Some(FromSextets(UrlSextets(value))) else None
  {
    if InPattern(value) && |value| % 4 != 1 {
      var sextets := UrlSextets(value);
      var bytes := FromSextets(sextets);
      AtobReadsSextets(value);
      CodesOfChars(bytes);
      EncodeWritesSextets(bytes);
      SextetsSurviveIff(sextets);
      CharsOfSextets(value);
      SextetsOfChars(ToSextets(bytes));
    }
  }

  /** Decoding an encoding returns the bytes. */
  lemma DecodeEncode(bytes: seq<Octet>)
    ensures Decode(Encode(bytes)) == Some(bytes)
  {
    EncodeWritesSextets(bytes);
    SextetsOfChars(ToSextets(bytes));
    OctetsSurvive(bytes);
    DecodeIs(Encode(bytes));
  }

  /** The encoder: the text holds the bytes' groups of six bits, and decoding it gives the bytes back. */
  method EncodeBase64Url(bytes: seq<Octet>) returns (text: string)
    ensures text == Mapped(UrlChar, ToSextets(bytes))
    ensures Decode(text) == Some(bytes)
  {
    var binary := BytesToBinary(bytes);
    text := StripPadding(Mapped(ToUrl, Btoa(binary)));
    EncodeWritesSextets(bytes);
    DecodeEncode(bytes);
  }

  /**
   * The accepted strings are exactly the encodings: characters of the alphabet only, a length that is not 1
   * modulo 4, and zero bits at the end. Encoding what was decoded returns the string.
   */
  lemma AcceptedAreEncodings(value: string)
    ensures Decode(value).Some? <==> InPattern(value) && Canonical(UrlSextets(value))
    ensures Decode(value).Some? <==> exists bytes :: Encode(bytes) == value
    ensures Decode(value).Some? ==> Encode(Decode(value).value) == value
  {
    DecodeIs(value);
    forall bytes | Encode(bytes) == value
      ensures Decode(value) == Some(bytes)
    {
      DecodeEncode(bytes);
    }
  }
}
