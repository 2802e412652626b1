/**
 * Concrete JSON texts (sections 2 to 7 of RFC 8259): every value with every layout of white space and every
 * legal way of escaping each character, and how the scanner fares on them.
 */
module JsonText {
  import opened Common
  import opened StrictJson

  /** One character of a string literal as it may be written. */
  datatype Piece = Plain(unit: Unit) | Short(letter: Unit) | Hex(digits: Text)

  type Pieces = seq<Piece>

  datatype Json =
    | Token(text: Text)
    | Literal(pieces: Pieces)
    | EmptyArray(space: Text)
    | Array(items: Items)
    | EmptyObject(space: Text)
    | Object(members: Members)

  datatype Items =
    | LastItem(before: Text, value: Json, after: Text)
    | MoreItems(before: Text, value: Json, after: Text, tail: Items)

  datatype Members =
    | LastMember(beforeKey: Text, key: Pieces, afterKey: Text, before: Text, value: Json, after: Text)
    | MoreMembers(beforeKey: Text, key: Pieces, afterKey: Text, before: Text, value: Json, after: Text, tail: Members)

  // ----- Which trees are JSON

  predicate Blank(space: Text) {
    forall u :: u in space ==> IsWhitespace(u)
  }

  predicate PieceOk(p: Piece) {
    match p
    case Plain(u) => u != QUOTE && u != BACKSLASH && u >= 0x20
    case Short(letter) => ShortEscape(letter).Some?
    case Hex(digits) => FourHexDigits(digits)
  }

  predicate PiecesOk(pieces: Pieces) {
    forall p :: p in pieces ==> PieceOk(p)
  }

  /** What true, false, null and all numbers have in common. */
  predicate TokenOk(text: Text) {
    && text != [] && text[0] != QUOTE && text[0] != OPEN_BRACE && text[0] != OPEN_BRACKET
    && forall u :: u in text ==> !EndsToken(u)
  }

  predicate JsonOk(v: Json) {
    match v
    case Token(text) => TokenOk(text)
    case Literal(pieces) => PiecesOk(pieces)
    case EmptyArray(space) => Blank(space)
    case Array(items) => ItemsOk(items)
    case EmptyObject(space) => Blank(space)
    case Object(members) => MembersOk(members)
  }

  predicate ItemsOk(items: Items) {
    && Blank(items.before) && JsonOk(items.value) && Blank(items.after)
    && (items.MoreItems? ==> ItemsOk(items.tail))
  }

  predicate MembersOk(members: Members) {
    && Blank(members.beforeKey) && PiecesOk(members.key) && Blank(members.afterKey)
    && Blank(members.before) && JsonOk(members.value) && Blank(members.after)
    && (members.MoreMembers? ==> MembersOk(members.tail))
  }

  // ----- How they are written

  function PrintPiece(p: Piece): Text {
    match p
    case Plain(u) => [u]
    case Short(letter) => [BACKSLASH, letter]
    case Hex(digits) => [BACKSLASH, LETTER_U] + digits
  }

  function PrintPieces(pieces: Pieces): Text {
    if pieces == [] then [] else PrintPiece(pieces[0]) + PrintPieces(pieces[1..])
  }

  function PrintString(pieces: Pieces): Text {
    [QUOTE] + PrintPieces(pieces) + [QUOTE]
  }

  function Print(v: Json): Text {
    match v
    case Token(text) => text
    case Literal(pieces) => PrintString(pieces)
    case EmptyArray(space) => [OPEN_BRACKET] + space + [CLOSE_BRACKET]
    case Array(items) => [OPEN_BRACKET] + PrintItems(items)
    case EmptyObject(space) => [OPEN_BRACE] + space + [CLOSE_BRACE]
    case Object(members) => [OPEN_BRACE] + PrintMembers(members)
  }

  function PrintItems(items: Items): Text {
    items.before + Print(items.value) + items.after
    + match items
      case LastItem(_, _, _) => [CLOSE_BRACKET]
      case MoreItems(_, _, _, tail) => [COMMA] + PrintItems(tail)
  }

  function PrintMembers(members: Members): Text {
    members.beforeKey + PrintString(members.key) + members.afterKey + [COLON]
    + (members.before + Print(members.value) + members.after
       + match members
         case LastMember(_, _, _, _, _, _) => [CLOSE_BRACE]
         case MoreMembers(_, _, _, _, _, _, tail) => [COMMA] + PrintMembers(tail))
  }

  // ----- What they mean

  function PieceValue(p: Piece): Unit
    requires PieceOk(p)
  {
    match p
    case Plain(u) => u
    case Short(letter) => ShortEscape(letter).value
    case Hex(digits) => HexValue(digits)
  }

  function StringValue(pieces: Pieces): Text
    requires PiecesOk(pieces)
  {
    if pieces == [] then [] else [PieceValue(pieces[0])] + StringValue(pieces[1..])
  }

  function KeysOf(members: Members): seq<Text>
    requires MembersOk(members)
  {
    [StringValue(members.key)] + if members.MoreMembers? then KeysOf(members.tail) else []
  }

  predicate PairwiseDistinct(keys: seq<Text>) {
    forall i, j :: 0 <= i < j < |keys| ==> keys[i] != keys[j]
  }

  /** At every depth, the keys of an object are pairwise distinct as strings. */
  predicate UniqueKeys(v: Json)
    requires JsonOk(v)
  {
    match v
    case Array(items) => UniqueInItems(items)
    case Object(members) => PairwiseDistinct(KeysOf(members)) && UniqueInMembers(members)
    case _ => true
  }

  predicate UniqueInItems(items: Items)
    requires ItemsOk(items)
  {
    UniqueKeys(items.value) && (items.MoreItems? ==> UniqueInItems(items.tail))
  }

  predicate UniqueInMembers(members: Members)
    requires MembersOk(members)
  {
    UniqueKeys(members.value) && (members.MoreMembers? ==> UniqueInMembers(members.tail))
  }

  // ----- The scanner on printed strings

  lemma {:induction false} SkipBlank(space: Text, rest: Text)
    requires Blank(space)
    ensures SkipWhitespace(space + rest) == SkipWhitespace(rest)
  {
    if space == [] {
      assert space + rest == rest;
    } else {
      assert (space + rest)[1..] == space[1..] + rest;
      SkipBlank(space[1..], rest);
    }
  }

  lemma {:induction false} UnescapePrinted(pieces: Pieces)
    requires PiecesOk(pieces)
    ensures Unescape(PrintPieces(pieces)) == Some(StringValue(pieces))
  {
    if pieces != [] {
      var body, rest := PrintPieces(pieces), PrintPieces(pieces[1..]);
      UnescapePrinted(pieces[1..]);
      assert PieceOk(pieces[0]);
      match pieces[0] {
        case Plain(u) =>
          assert body[1..] == rest;
        case Short(letter) =>
          assert body[0] == BACKSLASH && body[1] == letter && body[2..] == rest;
        case Hex(digits) =>
          assert body == [BACKSLASH, LETTER_U] + digits + rest;
          assert body[2..6] == digits && body[6..] == rest;
      }
    }
  }

  lemma ShortSkipped(letter: Unit, rest: Text)
    requires Closing(rest, false).Some?
    ensures Closing([BACKSLASH, letter] + rest, false) == Some(2 + Closing(rest, false).value)
  {
    PairThen(BACKSLASH, letter, rest);
  }

  lemma PairThen<T>(first: T, second: T, rest: seq<T>)
    ensures ([first, second] + rest)[1..] == [second] + rest && ([second] + rest)[1..] == rest
  {
  }

  lemma OneThen<T>(first: T, rest: seq<T>)
    ensures ([first] + rest)[1..] == rest
  {
  }

  lemma PlainSkipped(u: Unit, rest: Text)
    requires u != QUOTE && u != BACKSLASH && Closing(rest, false).Some?
    ensures Closing([u] + rest, false) == Some(1 + Closing(rest, false).value)
  {
    OneThen(u, rest);
  }

  lemma FirstOfRest<T>(s: seq<T>, n: nat)
    requires 1 <= n <= |s|
    ensures s[1..][n - 1..] == s[n..]
  {
  }

  /** The loop runs over units other than a quote and a backslash. */
  lemma {:induction false} PlainUnitsSkipped(s: Text, n: nat)
    requires n <= |s| && forall i :: 0 <= i < n ==> s[i] != QUOTE && s[i] != BACKSLASH
    requires Closing(s[n..], false).Some?
    ensures Closing(s, false) == Some(n + Closing(s[n..], false).value)
  {
    if n == 0 {
      assert s[0..] == s;
    } else {
      FirstOfRest(s, n);
      PlainUnitsSkipped(s[1..], n - 1);
    }
  }

  lemma Behind<T>(first: seq<T>, rest: seq<T>)
    ensures (first + rest)[|first|..] == rest && forall i :: 0 <= i < |first| ==> (first + rest)[i] == first[i]
  {
  }

  lemma HexDigitsSkipped(digits: Text, rest: Text)
    requires FourHexDigits(digits) && Closing(rest, false).Some?
    ensures Closing(digits + rest, false) == Some(4 + Closing(rest, false).value)
  {
    Behind(digits, rest);
    PlainUnitsSkipped(digits + rest, 4);
  }

  lemma HexSkipped(digits: Text, tail: Text, rest: Text)
    requires FourHexDigits(digits) && Closing(rest, false).Some? && tail == digits + rest
    ensures Closing([BACKSLASH, LETTER_U] + tail, false) == Some(6 + Closing(rest, false).value)
  {
    HexDigitsSkipped(digits, rest);
    ShortSkipped(LETTER_U, tail);
  }

  lemma PrintedPiece(p: Piece, rest: Text)
    requires PieceOk(p)
    ensures |PrintPiece(p)| == if p.Plain? then 1 else if p.Short? then 2 else 6
    ensures PrintPiece(p) + rest
            == match p
               case Plain(u) => [u] + rest
               case Short(letter) => [BACKSLASH, letter] + rest
               case Hex(digits) => [BACKSLASH, LETTER_U] + (digits + rest)
  {
    if p.Hex? {
      Joined([BACKSLASH, LETTER_U], p.digits, rest);
    }
  }

  lemma PieceSkipped(p: Piece, rest: Text)
    requires PieceOk(p) && Closing(rest, false).Some?
    ensures Closing(PrintPiece(p) + rest, false) == Some(|PrintPiece(p)| + Closing(rest, false).value)
  {
    PrintedPiece(p, rest);
    match p
    case Plain(u) => PlainSkipped(u, rest);
    case Short(letter) => ShortSkipped(letter, rest);
    case Hex(digits) => HexSkipped(digits, digits + rest, rest);
  }

  lemma {:induction false} ClosingPrinted(pieces: Pieces, rest: Text)
    requires PiecesOk(pieces)
    ensures Closing(PrintPieces(pieces) + [QUOTE] + rest, false) == Some(|PrintPieces(pieces)| + 1)
  {
    if pieces == [] {
      assert PrintPieces(pieces) + [QUOTE] + rest == [QUOTE] + rest;
    } else {
      var tail := PrintPieces(pieces[1..]) + [QUOTE] + rest;
      ClosingPrinted(pieces[1..], rest);
      PieceSkipped(pieces[0], tail);
      assert PrintPieces(pieces) + [QUOTE] + rest == PrintPiece(pieces[0]) + tail;
    }
  }

  lemma QuotedParts<T>(quote: T, body: seq<T>, rest: seq<T>)
    ensures var s := [quote] + body + [quote] + rest;
            s[1..] == body + [quote] + rest && s[1..|body| + 1] == body && s[|body| + 2..] == rest && s[0] == quote
  {
  }

  /** A printed string is read back as its value. */
  lemma ReadPrinted(pieces: Pieces, rest: Text)
    requires PiecesOk(pieces)
    ensures ReadString(PrintString(pieces) + rest) == Some(StringRead(StringValue(pieces), rest))
  {
    QuotedParts(QUOTE, PrintPieces(pieces), rest);
    ClosingPrinted(pieces, rest);
    UnescapePrinted(pieces);
  }

  // ----- The scanner on printed values

  lemma Consed<T>(first: T, body: seq<T>, rest: seq<T>)
    ensures var s := [first] + body + rest; s[0] == first && s[1..] == body + rest
  {
    assert ([first] + body + rest)[1..] == body + rest;
  }

  lemma {:induction false} SkipTokenPrinted(text: Text, rest: Text)
    requires (forall u :: u in text ==> !EndsToken(u)) && (rest == [] || EndsToken(rest[0]))
    ensures SkipToken(text + rest) == rest
  {
    if text == [] {
      assert text + rest == rest;
    } else {
      assert (text + rest)[1..] == text[1..] + rest;
      SkipTokenPrinted(text[1..], rest);
    }
  }

  /** A printed value starts with a character that is neither white space nor the end of anything. */
  lemma PrintStarts(v: Json)
    requires JsonOk(v)
    ensures Print(v) != [] && !EndsToken(Print(v)[0])
  {
    match v
    case Token(text) => assert text[0] in text;
    case _ =>
  }

  /** Leading white space makes no difference to the three scanning functions. */
  lemma ScanSkips(s: Text, keys: set<Text>)
    ensures ScanValue(SkipWhitespace(s)) == ScanValue(s)
    ensures ScanElements(SkipWhitespace(s)) == ScanElements(s)
    ensures ScanMembers(SkipWhitespace(s), keys) == ScanMembers(s, keys)
  {
    assert SkipWhitespace(SkipWhitespace(s)) == SkipWhitespace(s);
  }

  lemma ScanAfterBlank(space: Text, s: Text)
    requires Blank(space)
    ensures ScanValue(space + s) == ScanValue(s)
  {
    SkipBlank(space, s);
    ScanSkips(space + s, {});
    ScanSkips(s, {});
  }

  lemma {:induction false} ScanPrinted(v: Json, rest: Text)
    requires JsonOk(v) && (v.Token? ==> rest == [] || EndsToken(rest[0]))
    ensures ScanValue(Print(v) + rest) == if UniqueKeys(v) then Some(rest) else None
    decreases v, 0
  {
    PrintStarts(v);
    var s := Print(v) + rest;
    assert SkipWhitespace(s) == s;
    match v
    case Token(text) => SkipTokenPrinted(text, rest);
    case Literal(pieces) => ReadPrinted(pieces, rest);
    case EmptyArray(space) =>
      assert s == [OPEN_BRACKET] + space + ([CLOSE_BRACKET] + rest);
      Consed(OPEN_BRACKET, space, [CLOSE_BRACKET] + rest);
      SkipBlank(space, [CLOSE_BRACKET] + rest);
    case EmptyObject(space) =>
      assert s == [OPEN_BRACE] + space + ([CLOSE_BRACE] + rest);
      Consed(OPEN_BRACE, space, [CLOSE_BRACE] + rest);
      SkipBlank(space, [CLOSE_BRACE] + rest);
    case Array(items) =>
      Consed(OPEN_BRACKET, PrintItems(items), rest);
      ItemsStart(items, rest);
      ScanItems(items, rest);
      ScanSkips(PrintItems(items) + rest, {});
    case Object(members) =>
      Consed(OPEN_BRACE, PrintMembers(members), rest);
      MembersStart(members, rest);
      ScanMembersPrinted(members, rest, {});
      ScanSkips(PrintMembers(members) + rest, {});
  }

  lemma Regroup<T>(a: seq<T>, b: seq<T>, c: seq<T>, d: seq<T>, rest: seq<T>)
    ensures a + b + c + d + rest == a + (b + (c + (d + rest)))
  {
  }

  /** What stands behind an item or a member: the closing character, or a comma and the others. */
  function ItemsTail(items: Items): Text {
    match items
    case LastItem(_, _, _) => [CLOSE_BRACKET]
    case MoreItems(_, _, _, tail) => [COMMA] + PrintItems(tail)
  }

  function MembersTail(members: Members): Text {
    match members
    case LastMember(_, _, _, _, _, _) => [CLOSE_BRACE]
    case MoreMembers(_, _, _, _, _, _, tail) => [COMMA] + PrintMembers(tail)
  }

  lemma ItemsStart(items: Items, rest: Text)
    requires ItemsOk(items)
    ensures !StartsWith(SkipWhitespace(PrintItems(items) + rest), CLOSE_BRACKET)
  {
    Regroup(items.before, Print(items.value), items.after, ItemsTail(items), rest);
    SkipBlank(items.before, Print(items.value) + (items.after + (ItemsTail(items) + rest)));
    PrintStarts(items.value);
  }

  lemma MembersStart(members: Members, rest: Text)
    requires MembersOk(members)
    ensures !StartsWith(SkipWhitespace(PrintMembers(members) + rest), CLOSE_BRACE)
  {
    var others := members.before + Print(members.value) + members.after + MembersTail(members);
    Regroup(members.beforeKey, PrintString(members.key), members.afterKey, [COLON] + others, rest);
    assert PrintMembers(members)
      == members.beforeKey + PrintString(members.key) + members.afterKey + ([COLON] + others);
    SkipBlank(members.beforeKey, PrintString(members.key) + (members.afterKey + ([COLON] + others + rest)));
  }

  /** Behind a printed value, its trailing white space and a closing character or a comma. */
  lemma ScanValueThen(value: Json, after: Text, tail: Text)
    requires JsonOk(value) && Blank(after) && tail != [] && EndsToken(tail[0]) && !IsWhitespace(tail[0])
    ensures ScanValue(Print(value) + (after + tail)) == if UniqueKeys(value) then Some(after + tail) else None
    ensures SkipWhitespace(after + tail) == tail
    decreases value, 1
  {
    assert after != [] ==> after[0] in after;
    ScanPrinted(value, after + tail);
    SkipBlank(after, tail);
  }

  lemma {:induction false} ScanItems(items: Items, rest: Text)
    requires ItemsOk(items)
    ensures ScanElements(PrintItems(items) + rest) == if UniqueInItems(items) then Some(rest) else None
    decreases items
  {
    var tail := ItemsTail(items) + rest;
    var s := Print(items.value) + (items.after + tail);
    Regroup(items.before, Print(items.value), items.after, ItemsTail(items), rest);
    ScanAfterBlank(items.before, s);
    ScanValueThen(items.value, items.after, tail);
    match items
    case LastItem(_, _, _) => Consed(CLOSE_BRACKET, [], rest);
    case MoreItems(_, _, _, others) =>
      Consed(COMMA, PrintItems(others), rest);
      ScanItems(others, rest);
  }

  lemma DistinctCons(key: Text, keys: seq<Text>)
    ensures PairwiseDistinct([key] + keys) <==> key !in keys && PairwiseDistinct(keys)
  {
    var all := [key] + keys;
    if PairwiseDistinct(all) {
      forall i, j | 0 <= i < j < |keys|
        ensures keys[i] != keys[j]
      {
        assert all[i + 1] != all[j + 1];
      }
      forall j | 0 <= j < |keys|
        ensures keys[j] != key
      {
        assert all[0] != all[j + 1];
      }
    }
  }

  predicate NoneSeen(keys: seq<Text>, seen: set<Text>) {
    forall key :: key in keys ==> key !in seen
  }

  predicate MembersPass(members: Members, seen: set<Text>)
    requires MembersOk(members)
  {
    UniqueInMembers(members) && PairwiseDistinct(KeysOf(members)) && NoneSeen(KeysOf(members), seen)
  }

  /** One round of the loop decides about the first member and leaves the rest to the next. */
  lemma MembersPassStep(members: Members, seen: set<Text>)
    requires MembersOk(members)
    ensures MembersPass(members, seen)
            <==> StringValue(members.key) !in seen && UniqueKeys(members.value)
                 && (members.MoreMembers? ==> MembersPass(members.tail, seen + {StringValue(members.key)}))
  {
    if members.MoreMembers? {
      DistinctCons(StringValue(members.key), KeysOf(members.tail));
    }
  }

  /** One round of the loop, given what its parts find. */
  lemma ScanMembersUnfolds(s: Text, seen: set<Text>, read: StringRead, behind: Text, valueOk: bool, after: Text,
                           tail: Text)
    requires ReadString(SkipWhitespace(s)) == Some(read)
    requires StartsWith(SkipWhitespace(read.rest), COLON) && SkipWhitespace(read.rest)[1..] == behind
    requires ScanValue(behind) == (if valueOk then Some(after) else None) && SkipWhitespace(after) == tail
    ensures ScanMembers(s, seen)
            == if read.value in seen || !valueOk then None
               else if StartsWith(tail, CLOSE_BRACE) then Some(tail[1..])
               else if StartsWith(tail, COMMA) then ScanMembers(tail[1..], seen + {read.value})
               else None
  {
  }

  lemma MembersTailStarts(members: Members, rest: Text)
    ensures var tail := MembersTail(members) + rest;
            if members.LastMember? then StartsWith(tail, CLOSE_BRACE) && tail[1..] == rest
            else StartsWith(tail, COMMA) && tail[1..] == PrintMembers(members.tail) + rest
  {
    match members
    case LastMember(_, _, _, _, _, _) => Consed(CLOSE_BRACE, [], rest);
    case MoreMembers(_, _, _, _, _, _, others) => Consed(COMMA, PrintMembers(others), rest);
  }

  /** One round of the loop over printed members. */
  lemma ScanMembersRound(members: Members, rest: Text, seen: set<Text>)
    requires MembersOk(members)
    ensures ScanMembers(PrintMembers(members) + rest, seen)
            == if StringValue(members.key) in seen || !UniqueKeys(members.value) then None
               else if members.LastMember? then Some(rest)
               else ScanMembers(PrintMembers(members.tail) + rest, seen + {StringValue(members.key)})
    decreases members, 0
  {
    var tail := MembersTail(members) + rest;
    var valueText := Print(members.value) + (members.after + tail);
    MembersTailStarts(members, rest);
    MemberRead(members, rest);
    ScanAfterBlank(members.before, valueText);
    ScanValueThen(members.value, members.after, tail);
    ScanMembersUnfolds(PrintMembers(members) + rest, seen,
                       StringRead(StringValue(members.key), MembersAfterKey(members, rest)),
                       members.before + valueText, UniqueKeys(members.value), members.after + tail, tail);
  }

  /** The loop over members fails exactly on a key seen before or on a value that fails. */
  lemma {:induction false} ScanMembersPrinted(members: Members, rest: Text, seen: set<Text>)
    requires MembersOk(members)
    ensures ScanMembers(PrintMembers(members) + rest, seen) == if MembersPass(members, seen) then Some(rest) else None
    decreases members, 1
  {
    ScanMembersRound(members, rest, seen);
    MembersPassStep(members, seen);
    if members.MoreMembers? {
      ScanMembersPrinted(members.tail, rest, seen + {StringValue(members.key)});
    }
  }

  /** The text behind the key of the first member. */
  function MembersAfterKey(members: Members, rest: Text): Text {
    members.afterKey
      + ([COLON] + (members.before + (Print(members.value) + (members.after + (MembersTail(members) + rest)))))
  }

  lemma MemberRead(members: Members, rest: Text)
    requires MembersOk(members)
    ensures ReadString(SkipWhitespace(PrintMembers(members) + rest))
            == Some(StringRead(StringValue(members.key), MembersAfterKey(members, rest)))
    ensures var t := SkipWhitespace(MembersAfterKey(members, rest));
            StartsWith(t, COLON)
            && t[1..] == members.before + (Print(members.value) + (members.after + (MembersTail(members) + rest)))
  {
    var behind := members.before + (Print(members.value) + (members.after + (MembersTail(members) + rest)));
    RegroupMember(members.beforeKey, PrintString(members.key), members.afterKey, COLON,
                  members.before, Print(members.value), members.after, MembersTail(members), rest);
    SkipBlank(members.beforeKey, PrintString(members.key) + MembersAfterKey(members, rest));
    ReadPrinted(members.key, MembersAfterKey(members, rest));
    SkipBlank(members.afterKey, [COLON] + behind);
    Consed(COLON, [], behind);
  }

  lemma RegroupMember<T>(a: seq<T>, b: seq<T>, c: seq<T>, colon: T, d: seq<T>, e: seq<T>, f: seq<T>, g: seq<T>,
                         rest: seq<T>)
    ensures a + b + c + [colon] + (d + e + f + g) + rest == a + (b + (c + ([colon] + (d + (e + (f + (g + rest)))))))
  {
    Regroup(d, e, f, g, rest);
    Regroup(a, b, c, [colon], (d + e + f + g) + rest);
    Joined(a + b + c + [colon], d + e + f + g, rest);
  }

  lemma Joined<T>(a: seq<T>, b: seq<T>, rest: seq<T>)
    ensures a + b + rest == a + (b + rest)
  {
  }

  // ----- The characters

  /** The character classes and escapes of the scanner are those of sections 2 and 7 of RFC 8259. */
  lemma CharactersAreThoseOfJson(u: Unit)
    ensures QUOTE == '"' as int && BACKSLASH == '\\' as int && COLON == ':' as int && COMMA == ',' as int
    ensures OPEN_BRACE == '{' as int && CLOSE_BRACE == '}' as int
    ensures OPEN_BRACKET == '[' as int && CLOSE_BRACKET == ']' as int && LETTER_U == 'u' as int
    ensures IsWhitespace(u) <==> u in {' ' as int, '\t' as int, '\n' as int, '\r' as int}
    ensures EndsToken(u) <==> IsWhitespace(u) || u in {',' as int, ']' as int, '}' as int}
    ensures ShortEscape(u)
            == if u in {'"' as int, '\\' as int, '/' as int} then Some(u)
               else if u == 'b' as int then Some(8) else if u == 'f' as int then Some(12)
               else if u == 'n' as int then Some('\n' as int) else if u == 'r' as int then Some('\r' as int)
               else if u == 't' as int then Some('\t' as int) else None
  {
  }

  /** Four hexadecimal digits, of either case, name their unit. */
  lemma HexDigitsAreThoseOfJson(u: Unit, digits: Text)
    ensures HexDigit(u)
            == if '0' as int <= u <= '9' as int then Some(u - '0' as int)
               else if 'a' as int <= u <= 'f' as int then Some(10 + (u - 'a' as int))
               else if 'A' as int <= u <= 'F' as int then Some(10 + (u - 'A' as int)) else None
    ensures FourHexDigits(digits) ==>
              HexValue(digits) == 16 * (16 * (16 * HexDigit(digits[0]).value + HexDigit(digits[1]).value)
                                        + HexDigit(digits[2]).value) + HexDigit(digits[3]).value
  {
  }

  // ----- Theorems

  /**
   * On every JSON text, with any white space and any escapes, the scanner accepts and ends at the end of the text
   * exactly when at every depth the keys of each object are pairwise distinct after unescaping.
   */
  lemma AcceptsExactlyUniqueKeys(lead: Text, v: Json, trail: Text)
    requires Blank(lead) && JsonOk(v) && Blank(trail)
    ensures Accepts(lead + Print(v) + trail) <==> UniqueKeys(v)
  {
    assert lead + Print(v) + trail == lead + (Print(v) + trail);
    ScanAfterBlank(lead, Print(v) + trail);
    assert trail != [] ==> trail[0] in trail;
    ScanPrinted(v, trail);
    SkipBlank(trail, []);
    assert trail + [] == trail;
  }
}
