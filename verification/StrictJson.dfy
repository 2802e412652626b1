/**
 * The JSON scanner that refuses duplicate keys (workers/edge-api/src/index.ts and
 * apps/reference-rp/worker/reference-rp-state.ts, one algorithm twice). Texts are sequences of UTF-16 code
 * units. The scanner runs before JSON.parse, which checks the rest of the grammar; only JSON.parse of a string
 * literal is needed here (sections 7 and 8 of RFC 8259).
 */
module StrictJson {
  import opened Common

  type Unit = u: int | 0 <= u < 0x10000 witness 0

  type Text = seq<Unit>

  const QUOTE: Unit := 0x22
  const BACKSLASH: Unit := 0x5C
  const SLASH: Unit := 0x2F
  const COLON: Unit := 0x3A
  const COMMA: Unit := 0x2C
  const OPEN_BRACE: Unit := 0x7B
  const CLOSE_BRACE: Unit := 0x7D
  const OPEN_BRACKET: Unit := 0x5B
  const CLOSE_BRACKET: Unit := 0x5D
  const LETTER_U: Unit := 0x75

  predicate IsWhitespace(u: Unit) {
    u == 0x20 || u == 0x09 || u == 0x0A || u == 0x0D
  }

  /** The character of an escape of two characters. */
  function ShortEscape(letter: Unit): Option<Unit> {
    if letter == QUOTE || letter == BACKSLASH || letter == SLASH then Some(letter)
    else if letter == 0x62 then Some(0x08)
    else if letter == 0x66 then Some(0x0C)
    else if letter == 0x6E then Some(0x0A)
    else if letter == 0x72 then Some(0x0D)
    else if letter == 0x74 then Some(0x09)
    else None
  }

  function HexDigit(u: Unit): (digit: Option<nat>)
    ensures digit.Some? ==> digit.value < 16
  {
    if 0x30 <= u <= 0x39 then Some(u - 0x30)
    else if 0x41 <= u <= 0x46 then Some(u - 0x41 + 10)
    else if 0x61 <= u <= 0x66 then Some(u - 0x61 + 10)
    else None
  }

  predicate FourHexDigits(digits: Text) {
    |digits| == 4 && forall i :: 0 <= i < 4 ==> HexDigit(digits[i]).Some?
  }

  function HexValue(digits: Text): Unit
    requires FourHexDigits(digits)
  {
    HexDigit(digits[0]).value * 0x1000 + HexDigit(digits[1]).value * 0x100 + HexDigit(digits[2]).value * 0x10
    + HexDigit(digits[3]).value
  }

  /** JSON.parse of a string literal, without its quotes; None when it throws. */
  function Unescape(body: Text): Option<Text> {
    if body == [] then Some([])
    else if body[0] != BACKSLASH then
      if body[0] == QUOTE || body[0] < 0x20 then None
      else
        match Unescape(body[1..])
        case None => None
        case Some(rest) => Some([body[0]] + rest)
    else if |body| >= 6 && body[1] == LETTER_U && FourHexDigits(body[2..6]) then
      match Unescape(body[6..])
      case None => None
      case Some(rest) => Some([HexValue(body[2..6])] + rest)
    else if |body| >= 2 && ShortEscape(body[1]).Some? then
      match Unescape(body[2..])
      case None => None
      case Some(rest) => Some([ShortEscape(body[1]).value] + rest)
    else None
  }

  // ----- The scanner as functions of the text that is left

  function SkipWhitespace(s: Text): (rest: Text)
    ensures |rest| <= |s| && (rest == [] || !IsWhitespace(rest[0]))
  {
    if s != [] && IsWhitespace(s[0]) then SkipWhitespace(s[1..]) else s
  }

  /** How far the loop of `readString` runs: up to and including the closing quote. */
  function Closing(s: Text, escaped: bool): (n: Option<nat>)
    ensures n.Some? ==> 1 <= n.value <= |s| && s[n.value - 1] == QUOTE
  {
    if s == [] then None
    else if !escaped && s[0] == QUOTE then Some(1)
    else
      match Closing(s[1..], !escaped && s[0] == BACKSLASH)
      case None => None
      case Some(n) => Some(n + 1)
  }

  datatype StringRead = StringRead(value: Text, rest: Text)

  function ReadString(s: Text): (r: Option<StringRead>)
    ensures r.Some? ==> |r.value.rest| < |s|
  {
    if s == [] || s[0] != QUOTE then None
    else
      match Closing(s[1..], false)
      case None => None
      case Some(n) =>
        match Unescape(s[1..n])
        case None => None
        case Some(value) => Some(StringRead(value, s[n + 1..]))
  }

  predicate EndsToken(u: Unit) {
    IsWhitespace(u) || u == COMMA || u == CLOSE_BRACKET || u == CLOSE_BRACE
  }

  function SkipToken(s: Text): (rest: Text)
    ensures |rest| <= |s|
  {
    if s != [] && !EndsToken(s[0]) then SkipToken(s[1..]) else s
  }

  predicate StartsWith(s: Text, u: Unit) {
    s != [] && s[0] == u
  }

  /** `scanValue`: the text left behind the value, None when it throws. */
  function ScanValue(s: Text): (r: Option<Text>)
    ensures r.Some? ==> |r.value| < |s|
    decreases |s|, 1
  {
    var t := SkipWhitespace(s);
    if StartsWith(t, OPEN_BRACE) then
      var inside := SkipWhitespace(t[1..]);
      if StartsWith(inside, CLOSE_BRACE) then Some(inside[1..]) else ScanMembers(inside, {})
    else if StartsWith(t, OPEN_BRACKET) then
      var inside := SkipWhitespace(t[1..]);
      if StartsWith(inside, CLOSE_BRACKET) then Some(inside[1..]) else ScanElements(inside)
    else if StartsWith(t, QUOTE) then
      match ReadString(t)
      case None => None
      case Some(read) => Some(read.rest)
    else
      var rest := SkipToken(t);
      if rest == t then None else Some(rest)
  }

  /** The loop over the members of an object with the keys already seen. */
  function ScanMembers(s: Text, keys: set<Text>): (r: Option<Text>)
    ensures r.Some? ==> |r.value| < |s|
    decreases |s|, 2
  {
    match ReadString(SkipWhitespace(s))
    case None => None
    case Some(read) =>
      var t := SkipWhitespace(read.rest);
      if read.value in keys || !StartsWith(t, COLON) then None
      else
        match ScanValue(t[1..])
        case None => None
        case Some(afterValue) =>
          var u := SkipWhitespace(afterValue);
          if StartsWith(u, CLOSE_BRACE) then Some(u[1..])
          else if StartsWith(u, COMMA) then ScanMembers(u[1..], keys + {read.value})
          else None
  }

  function ScanElements(s: Text): (r: Option<Text>)
    ensures r.Some? ==> |r.value| < |s|
    decreases |s|, 2
  {
    match ScanValue(s)
    case None => None
    case Some(afterValue) =>
      var u := SkipWhitespace(afterValue);
      if StartsWith(u, CLOSE_BRACKET) then Some(u[1..])
      else if StartsWith(u, COMMA) then ScanElements(u[1..])
      else None
  }

  /** The scanner reaches the end of the text without throwing. */
  predicate Accepts(text: Text) {
    match ScanValue(text)
    case None => false
    case Some(rest) => SkipWhitespace(rest) == []
  }

  // ----- The scanner with its cursor

  class Scanner {
    const text: Text
    var cursor: nat

    constructor (text: Text)
      ensures this.text == text && Valid() && Rest() == text
    {
      this.text, cursor := text, 0;
    }

    predicate Valid()
      reads this
    {
      cursor <= |text|
    }

    /** What the cursor has not passed. */
    function Rest(): Text
      requires Valid()
      reads this
    {
      text[cursor..]
    }

    predicate At(u: Unit)
      requires Valid()
      reads this
      ensures At(u) <==> StartsWith(Rest(), u)
    {
      cursor < |text| && text[cursor] == u
    }

    method Step()
      requires Valid() && cursor < |text|
      modifies this`cursor
      ensures Valid() && cursor == old(cursor) + 1 && Rest() == old(Rest())[1..]
    {
      cursor := cursor + 1;
    }

    method SkipSpaces()
      requires Valid()
      modifies this`cursor
      ensures Valid() && old(cursor) <= cursor && Rest() == SkipWhitespace(old(Rest()))
    {
      while cursor < |text| && IsWhitespace(text[cursor])
        invariant Valid() && old(cursor) <= cursor && SkipWhitespace(Rest()) == SkipWhitespace(old(Rest()))
      {
        Step();
      }
    }

    method SkipTokenCharacters()
      requires Valid()
      modifies this`cursor
      ensures Valid() && old(cursor) <= cursor && Rest() == SkipToken(old(Rest()))
    {
      while cursor < |text| && !EndsToken(text[cursor])
        invariant Valid() && old(cursor) <= cursor && SkipToken(Rest()) == SkipToken(old(Rest()))
      {
        Step();
      }
    }

    /** The loop of `readString`, up to and including the closing quote. */
    method FindClosingQuote() returns (closed: bool)
      requires Valid()
      modifies this`cursor
      ensures Valid() && old(cursor) <= cursor
      ensures match Closing(old(Rest()), false)
              case None => !closed
              case Some(n) => closed && cursor == old(cursor) + n
    {
      var escaped := false;
      while cursor < |text|
        invariant Valid() && old(cursor) <= cursor
        invariant Closing(old(Rest()), false)
                  == match Closing(Rest(), escaped)
                     case None => None
                     case Some(n) => Some(n + cursor - old(cursor))
      {
        var character := text[cursor];
        Step();
        if escaped {
          escaped := false;
        } else if character == BACKSLASH {
          escaped := true;
        } else if character == QUOTE {
          return true;
        }
      }
      return false;
    }

    /** The string at the cursor, None when the scanner throws. */
    method ReadStringLiteral() returns (key: Option<Text>)
      requires Valid()
      modifies this`cursor
      ensures Valid() && old(cursor) <= cursor
      ensures match ReadString(old(Rest()))
              case None => key.None?
              case Some(read) => key == Some(read.value) && Rest() == read.rest && old(cursor) < cursor
    {
      if !At(QUOTE) {
        return None;
      }
      var start := cursor;
      Step();
      var closed := FindClosingQuote();
      if !closed {
        return None;
      }
      assert text[start + 1..cursor - 1] == old(Rest())[1..cursor - start - 1];
      assert Rest() == old(Rest())[cursor - start..];
      return Unescape(text[start + 1..cursor - 1]);
    }

    /** `scanValue`; its two branches for objects and arrays are ScanObject and ScanArray. */
    method ScanValueAtCursor() returns (ok: bool)
      requires Valid()
      modifies this`cursor
      ensures Valid() && old(cursor) <= cursor
      ensures ok <==> ScanValue(old(Rest())).Some?
      ensures ok ==> Some(Rest()) == ScanValue(old(Rest())) && old(cursor) < cursor
      decreases |text| - cursor
    {
      SkipSpaces();
      if At(OPEN_BRACE) {
        ok := ScanObject();
        return ok;
      }
      if At(OPEN_BRACKET) {
        ok := ScanArray();
        return ok;
      }
      if At(QUOTE) {
        var read := ReadStringLiteral();
        return read.Some?;
      }
      var start := cursor;
      SkipTokenCharacters();
      return start != cursor;
    }

    method ScanObject() returns (ok: bool)
      requires Valid() && At(OPEN_BRACE) && SkipWhitespace(Rest()) == Rest()
      modifies this`cursor
      ensures Valid() && old(cursor) <= cursor
      ensures ok <==> ScanValue(old(Rest())).Some?
      ensures ok ==> Some(Rest()) == ScanValue(old(Rest())) && old(cursor) < cursor
      decreases |text| - cursor, 0
    {
      Step();
      SkipSpaces();
      if At(CLOSE_BRACE) {
        Step();
        return true;
      }
      var keys: set<Text> := {};
      while true
        invariant Valid() && old(cursor) < cursor && ScanValue(old(Rest())) == ScanMembers(Rest(), keys)
        decreases |text| - cursor
      {
        SkipSpaces();
        var key := ReadStringLiteral();
        if key.None? || key.value in keys {
          return false;
        }
        SkipSpaces();
        if !At(COLON) {
          return false;
        }
        Step();
        ok := ScanValueAtCursor();
        if !ok {
          return false;
        }
        SkipSpaces();
        if At(CLOSE_BRACE) {
          Step();
          return true;
        }
        if !At(COMMA) {
          return false;
        }
        Step();
        keys := keys + {key.value};
      }
    }

    method ScanArray() returns (ok: bool)
      requires Valid() && At(OPEN_BRACKET) && SkipWhitespace(Rest()) == Rest()
      modifies this`cursor
      ensures Valid() && old(cursor) <= cursor
      ensures ok <==> ScanValue(old(Rest())).Some?
      ensures ok ==> Some(Rest()) == ScanValue(old(Rest())) && old(cursor) < cursor
      decreases |text| - cursor, 0
    {
      Step();
      SkipSpaces();
      if At(CLOSE_BRACKET) {
        Step();
        return true;
      }
      while true
        invariant Valid() && old(cursor) < cursor && ScanValue(old(Rest())) == ScanElements(Rest())
        decreases |text| - cursor
      {
        ok := ScanValueAtCursor();
        if !ok {
          return false;
        }
        SkipSpaces();
        if At(CLOSE_BRACKET) {
          Step();
          return true;
        }
        if !At(COMMA) {
          return false;
        }
        Step();
      }
    }

    /** The scan of a whole text, before JSON.parse. */
    method ScanText() returns (ok: bool)
      requires Valid() && cursor == 0
      modifies this`cursor
      ensures ok <==> Accepts(text)
    {
      assert Rest() == text;
      ok := ScanValueAtCursor();
      if ok {
        SkipSpaces();
        ok := cursor == |text|;
      }
    }

    /** The copy in the edge, which refuses the empty text before it scans: it accepts the same texts. */
    method ScanNonEmptyText() returns (ok: bool)
      requires Valid() && cursor == 0
      modifies this`cursor
      ensures ok <==> Accepts(text)
    {
      if |text| == 0 {
        return false;
      }
      ok := ScanText();
    }
  }
}
