/**
 * The converse of JsonText: every text that the scanner accepts is a JSON text, up to what it takes for a literal or
 * a number. Together they say exactly which texts are accepted.
 */
module JsonGrammar {
  import opened Common
  import opened StrictJson
  import opened JsonText

  lemma {:induction false} ParseBlank(s: Text) returns (space: Text)
    ensures Blank(space) && s == space + SkipWhitespace(s)
  {
    space := [];
    if s != [] && IsWhitespace(s[0]) {
      var others := ParseBlank(s[1..]);
      space := [s[0]] + others;
      Prepended(s, others, SkipWhitespace(s));
    }
  }

  lemma Prepended<T>(s: seq<T>, first: seq<T>, rest: seq<T>)
    requires s != [] && s[1..] == first + rest
    ensures s == ([s[0]] + first) + rest
  {
  }

  lemma {:induction false} ParseToken(s: Text) returns (token: Text)
    ensures s == token + SkipToken(s) && forall u :: u in token ==> !EndsToken(u)
    ensures SkipToken(s) == [] || EndsToken(SkipToken(s)[0])
  {
    token := [];
    if s != [] && !EndsToken(s[0]) {
      var others := ParseToken(s[1..]);
      token := [s[0]] + others;
      Prepended(s, others, SkipToken(s));
    }
  }

  // ----- Strings

  lemma PiecesCons(p: Piece, pieces: Pieces)
    requires PieceOk(p) && PiecesOk(pieces)
    ensures PiecesOk([p] + pieces) && PrintPieces([p] + pieces) == PrintPiece(p) + PrintPieces(pieces)
  {
    assert ([p] + pieces)[1..] == pieces;
  }

  /** The first piece of a string that JSON.parse reads. */
  lemma FirstPiece(body: Text) returns (p: Piece)
    requires body != [] && Unescape(body).Some?
    ensures PieceOk(p) && |PrintPiece(p)| <= |body| && body == PrintPiece(p) + body[|PrintPiece(p)|..]
    ensures Unescape(body[|PrintPiece(p)|..]).Some?
  {
    if body[0] != BACKSLASH {
      p := Plain(body[0]);
    } else if |body| >= 6 && body[1] == LETTER_U && FourHexDigits(body[2..6]) {
      p := Hex(body[2..6]);
      assert body == [BACKSLASH, LETTER_U] + body[2..6] + body[6..];
    } else {
      p := Short(body[1]);
      assert body == [BACKSLASH, body[1]] + body[2..];
    }
  }

  lemma {:induction false} ParsePieces(body: Text) returns (pieces: Pieces)
    requires Unescape(body).Some?
    ensures PiecesOk(pieces) && PrintPieces(pieces) == body
    decreases |body|
  {
    if body == [] {
      pieces := [];
    } else {
      var p := FirstPiece(body);
      var others := ParsePieces(body[|PrintPiece(p)|..]);
      PiecesCons(p, others);
      pieces := [p] + others;
    }
  }

  lemma QuotedSplit<T>(s: seq<T>, n: nat)
    requires 1 <= n < |s|
    ensures s == [s[0]] + s[1..n] + [s[n]] + s[n + 1..]
  {
  }

  lemma ParseLiteral(s: Text) returns (pieces: Pieces)
    requires ReadString(s).Some?
    ensures PiecesOk(pieces) && s == PrintString(pieces) + ReadString(s).value.rest
  {
    var n := Closing(s[1..], false).value;
    pieces := ParsePieces(s[1..n]);
    assert s[n] == s[1..][n - 1] == QUOTE;
    QuotedSplit(s, n);
  }

  // ----- Values

  lemma Regrouped<T>(a: seq<T>, b: seq<T>, c: seq<T>)
    ensures a + (b + c) == a + b + c
  {
  }

  lemma Split<T>(s: seq<T>)
    requires s != []
    ensures s == [s[0]] + s[1..]
  {
  }

  /** The value at the start of `s`, behind white space. */
  ghost predicate StartsWithValue(s: Text, lead: Text, v: Json, rest: Text) {
    && Blank(lead) && JsonOk(v) && s == lead + (Print(v) + rest)
    && (v.Token? ==> rest == [] || EndsToken(rest[0]))
  }

  lemma {:induction false} ParseValue(s: Text) returns (lead: Text, v: Json)
    requires ScanValue(s).Some?
    ensures StartsWithValue(s, lead, v, ScanValue(s).value)
    decreases |s|, 1
  {
    var t, rest := SkipWhitespace(s), ScanValue(s).value;
    lead := ParseBlank(s);
    if StartsWith(t, OPEN_BRACE) {
      v := ParseObject(t, rest);
    } else if StartsWith(t, OPEN_BRACKET) {
      v := ParseArray(t, rest);
    } else if StartsWith(t, QUOTE) {
      var pieces := ParseLiteral(t);
      v := Literal(pieces);
    } else {
      var token := ParseToken(t);
      v := Token(token);
    }
  }

  lemma {:induction false} ParseArray(t: Text, rest: Text) returns (v: Json)
    requires StartsWith(t, OPEN_BRACKET) && SkipWhitespace(t) == t && ScanValue(t) == Some(rest)
    ensures !v.Token? && JsonOk(v) && t == Print(v) + rest
    decreases |t|, 0
  {
    var inside := SkipWhitespace(t[1..]);
    var space := ParseBlank(t[1..]);
    Split(t);
    if StartsWith(inside, CLOSE_BRACKET) {
      Split(inside);
      v := EmptyArray(space);
    } else {
      var items := ParseItems(inside);
      v := Array(ItemsBehind(space, items));
      ItemsBehindPrinted(space, items, rest);
      Regrouped([OPEN_BRACKET], PrintItems(ItemsBehind(space, items)), rest);
    }
  }

  lemma {:induction false} ParseObject(t: Text, rest: Text) returns (v: Json)
    requires StartsWith(t, OPEN_BRACE) && SkipWhitespace(t) == t && ScanValue(t) == Some(rest)
    ensures !v.Token? && JsonOk(v) && t == Print(v) + rest
    decreases |t|, 0
  {
    var inside := SkipWhitespace(t[1..]);
    var space := ParseBlank(t[1..]);
    Split(t);
    if StartsWith(inside, CLOSE_BRACE) {
      Split(inside);
      v := EmptyObject(space);
    } else {
      var members := ParseMembers(inside, {});
      v := Object(MembersBehind(space, members));
      MembersBehindPrinted(space, members, rest);
      Regrouped([OPEN_BRACE], PrintMembers(MembersBehind(space, members)), rest);
    }
  }

  /** The same items behind more white space. */
  function ItemsBehind(space: Text, items: Items): Items {
    items.(before := space + items.before)
  }

  function MembersBehind(space: Text, members: Members): Members {
    members.(beforeKey := space + members.beforeKey)
  }

  lemma ItemsBehindPrinted(space: Text, items: Items, rest: Text)
    requires Blank(space) && ItemsOk(items)
    ensures ItemsOk(ItemsBehind(space, items))
    ensures PrintItems(ItemsBehind(space, items)) + rest == space + (PrintItems(items) + rest)
  {
    Regroup(space + items.before, Print(items.value), items.after, ItemsTail(items), rest);
    Regroup(items.before, Print(items.value), items.after, ItemsTail(items), rest);
    Regrouped(space, items.before, Print(items.value) + (items.after + (ItemsTail(items) + rest)));
  }

  lemma MembersBehindPrinted(space: Text, members: Members, rest: Text)
    requires Blank(space) && MembersOk(members)
    ensures MembersOk(MembersBehind(space, members))
    ensures PrintMembers(MembersBehind(space, members)) + rest == space + (PrintMembers(members) + rest)
  {
    MembersPrinted(members, rest);
    MembersPrinted(MembersBehind(space, members), rest);
    Regrouped(space, members.beforeKey, PrintString(members.key) + MembersAfterKey(members, rest));
  }

  /** Printed members, read from the left. */
  lemma MembersPrinted(members: Members, rest: Text)
    ensures PrintMembers(members) + rest
            == members.beforeKey + (PrintString(members.key) + MembersAfterKey(members, rest))
  {
    RegroupMember(members.beforeKey, PrintString(members.key), members.afterKey, COLON,
                  members.before, Print(members.value), members.after, MembersTail(members), rest);
  }

  lemma {:induction false} ParseItems(s: Text) returns (items: Items)
    requires ScanElements(s).Some?
    ensures ItemsOk(items) && s == PrintItems(items) + ScanElements(s).value
    decreases |s|, 2
  {
    var afterValue, rest := ScanValue(s).value, ScanElements(s).value;
    var before, value := ParseValue(s);
    var after := ParseBlank(afterValue);
    var u := SkipWhitespace(afterValue);
    Split(u);
    if StartsWith(u, CLOSE_BRACKET) {
      items := LastItem(before, value, after);
    } else {
      var others := ParseItems(u[1..]);
      items := MoreItems(before, value, after, others);
      Regrouped([COMMA], PrintItems(others), rest);
    }
    assert u == ItemsTail(items) + rest;
    Regroup(before, Print(value), after, ItemsTail(items), rest);
  }

  lemma {:induction false} ParseMembers(s: Text, keys: set<Text>) returns (members: Members)
    requires ScanMembers(s, keys).Some?
    ensures MembersOk(members) && s == PrintMembers(members) + ScanMembers(s, keys).value
    decreases |s|, 2
  {
    var rest := ScanMembers(s, keys).value;
    var beforeKey := ParseBlank(s);
    var read := ReadString(SkipWhitespace(s)).value;
    var key := ParseLiteral(SkipWhitespace(s));
    var afterKey := ParseBlank(read.rest);
    var t := SkipWhitespace(read.rest);
    Split(t);
    var afterValue := ScanValue(t[1..]).value;
    var before, value := ParseValue(t[1..]);
    var after := ParseBlank(afterValue);
    var u := SkipWhitespace(afterValue);
    Split(u);
    if StartsWith(u, CLOSE_BRACE) {
      members := LastMember(beforeKey, key, afterKey, before, value, after);
    } else {
      var others := ParseMembers(u[1..], keys + {read.value});
      members := MoreMembers(beforeKey, key, afterKey, before, value, after, others);
      Regrouped([COMMA], PrintMembers(others), rest);
    }
    assert u == MembersTail(members) + rest;
    MembersPrinted(members, rest);
  }

  // ----- Theorem

  /** A JSON text, with white space around it, whose objects repeat no key at any depth. */
  ghost predicate IsUniqueJson(text: Text) {
    exists lead, v, trail :: IsJsonText(text, lead, v, trail) && UniqueKeys(v)
  }

  ghost predicate IsJsonText(text: Text, lead: Text, v: Json, trail: Text) {
    Blank(lead) && JsonOk(v) && Blank(trail) && text == lead + Print(v) + trail
  }

  /**
   * The scanner accepts exactly the JSON texts without repeated keys, where literals and numbers are any runs of
   * characters that end no token.
   */
  lemma {:induction false} AcceptsExactlyUniqueJson(text: Text)
    ensures Accepts(text) <==> IsUniqueJson(text)
  {
    if Accepts(text) {
      var rest := ScanValue(text).value;
      var lead, v := ParseValue(text);
      var trail := ParseBlank(rest);
      assert trail + [] == trail == rest;
      Regrouped(lead, Print(v), rest);
      AcceptsExactlyUniqueKeys(lead, v, trail);
      assert IsJsonText(text, lead, v, trail);
    }
    if IsUniqueJson(text) {
      var lead, v, trail :| IsJsonText(text, lead, v, trail) && UniqueKeys(v);
      AcceptsExactlyUniqueKeys(lead, v, trail);
    }
  }
}
