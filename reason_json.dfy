/**
 * The text the JavaScript ingestion script stores reasons as:
 * `JSON.stringify` of an array of `{rule, description}` objects, and the
 * `JSON.parse` that reads it back. Stringify escapes as ECMAScript's
 * QuoteJSONString does (quote, backslash, the five short escapes, other
 * control characters as `\u00xx` in lower-case hex) and writes no
 * whitespace. The decoder accepts that output, plus the `\/` and upper-case
 * `\uXXXX` escapes a JSON text may use, and is proved to invert stringify.
 */
module ReasonJson {
  import opened Common

  // ---------------------------------------------------------------------------
  // Stringify

  /** The lower-case hex digit of `n`. */
  function HexDigit(n: nat): char
    requires n < 16
  {
    if n < 10 then (48 + n) as char else (87 + n) as char
  }

  /** One character inside a JSON string literal. */
  function Escape(c: char): string
  {
    if c == '"' then ['\\', '"']
    else if c == '\\' then ['\\', '\\']
    else if c == '\U{0008}' then ['\\', 'b']
    else if c == '\U{000C}' then ['\\', 'f']
    else if c == '\n' then ['\\', 'n']
    else if c == '\r' then ['\\', 'r']
    else if c == '\t' then ['\\', 't']
    else if c < ' ' then ['\\', 'u', '0', '0', HexDigit(c as nat / 16), HexDigit(c as nat % 16)]
    else [c]
  }

  function EscapeAll(s: string): string
    decreases |s|
  {
    if s == [] then [] else Escape(s[0]) + EscapeAll(s[1..])
  }

  /** A JSON string literal. */
  function Quote(s: string): string
  {
    "\"" + EscapeAll(s) + "\""
  }

  /** One reason object, keys in insertion order: rule, then description. */
  function Object(r: Reason): string
  {
    "{\"rule\":" + Quote(r.rule) + ",\"description\":" + Quote(r.description) + "}"
  }

  /** The objects separated by commas. */
  function Items(rs: seq<Reason>): string
    decreases |rs|
  {
    if rs == [] then ""
    else if |rs| == 1 then Object(rs[0])
    else Object(rs[0]) + "," + Items(rs[1..])
  }

  /** `JSON.stringify(reasons)`. */
  function Stringify(rs: seq<Reason>): string
  {
    "[" + Items(rs) + "]"
  }

  // ---------------------------------------------------------------------------
  // Parse

  /** The value of a hex digit, in either case. */
  function HexValue(c: char): Option<nat>
  {
    if '0' <= c <= '9' then Some(c as nat - 48)
    else if 'a' <= c <= 'f' then Some(c as nat - 87)
    else if 'A' <= c <= 'F' then Some(c as nat - 55)
    else None
  }

  /** The character a `\uXXXX` escape names; surrogate halves are outside the model. */
  function UnicodeEscape(h: string): Option<char>
    requires |h| == 4
  {
    match (HexValue(h[0]), HexValue(h[1]), HexValue(h[2]), HexValue(h[3]))
    case (Some(a), Some(b), Some(c), Some(d)) =>
      var v := 4096 * a + 256 * b + 16 * c + d;
      if 0xD800 <= v < 0xE000 then None else Some(v as char)
    case _ => None
  }

  /** The character a two-character escape `\e` names. */
  function ShortEscape(e: char): Option<char>
  {
    if e == '"' then Some('"')
    else if e == '\\' then Some('\\')
    else if e == '/' then Some('/')
    else if e == 'b' then Some('\U{0008}')
    else if e == 'f' then Some('\U{000C}')
    else if e == 'n' then Some('\n')
    else if e == 'r' then Some('\r')
    else if e == 't' then Some('\t')
    else None
  }

  /** Prepends `c` to the decoded text of a successful parse. */
  function Cons(c: char, o: Option<(string, string)>): Option<(string, string)>
  {
    match o
    case None => None
    case Some((s, rest)) => Some(([c] + s, rest))
  }

  /**
   * The body of a string literal up to and including its closing quote:
   * the decoded text and what follows the quote. A raw control character,
   * an unknown escape or a missing closing quote is an error.
   */
  function StringBody(t: string): (o: Option<(string, string)>)
    ensures o.Some? ==> |o.value.1| < |t|
    decreases |t|
  {
    if t == [] then None
    else if t[0] == '"' then Some(([], t[1..]))
    else if t[0] == '\\' then
      if |t| < 2 then None
      else if t[1] == 'u' then
        if |t| < 6 then None
        else match UnicodeEscape(t[2..6])
          case None => None
          case Some(c) => Cons(c, StringBody(t[6..]))
      else match ShortEscape(t[1])
        case None => None
        case Some(c) => Cons(c, StringBody(t[2..]))
    else if t[0] < ' ' then None
    else Cons(t[0], StringBody(t[1..]))
  }

  /** What follows `lit` at the start of `t`, if `t` starts with it. */
  function Expect(lit: string, t: string): (o: Option<string>)
    ensures o.Some? ==> |o.value| == |t| - |lit|
  {
    if |lit| <= |t| && t[..|lit|] == lit then Some(t[|lit|..]) else None
  }

  /** A string literal at the start of `t`. */
  function StringLiteral(t: string): (o: Option<(string, string)>)
    ensures o.Some? ==> |o.value.1| < |t|
  {
    match Expect("\"", t)
    case None => None
    case Some(body) => StringBody(body)
  }

  /** A reason object at the start of `t`, and what follows it. */
  function ReasonObject(t: string): (o: Option<(Reason, string)>)
    ensures o.Some? ==> |o.value.1| < |t|
  {
    match Expect("{\"rule\":", t)
    case None => None
    case Some(t1) =>
      match StringLiteral(t1)
      case None => None
      case Some((rule, t2)) =>
        match Expect(",\"description\":", t2)
        case None => None
        case Some(t3) =>
          match StringLiteral(t3)
          case None => None
          case Some((description, t4)) =>
            match Expect("}", t4)
            case None => None
            case Some(t5) => Some((Reason(rule, description), t5))
  }

  /** One or more objects separated by commas, then the closing bracket, then nothing. */
  function ItemList(t: string): Option<seq<Reason>>
    decreases |t|
  {
    match ReasonObject(t)
    case None => None
    case Some((r, rest)) =>
      if rest == "]" then Some([r])
      else if |rest| > 0 && rest[0] == ',' then
        match ItemList(rest[1..])
        case None => None
        case Some(more) => Some([r] + more)
      else None
  }

  /** `JSON.parse` of a stored reasons text; anything but an array of reason objects is an error. */
  function Parse(t: string): Option<seq<Reason>>
  {
    if t == "[]" then Some([])
    else if |t| > 0 && t[0] == '[' then ItemList(t[1..])
    else None
  }

  // ---------------------------------------------------------------------------
  // The round trip

  lemma HexRoundTrip(n: nat)
    requires n < 16
    ensures HexValue(HexDigit(n)) == Some(n)
  {
  }

  /** Reading one escaped character back yields that character and leaves the rest to read. */
  lemma EscapeStep(c: char, tail: string)
    ensures StringBody(Escape(c) + tail) == Cons(c, StringBody(tail))
  {
    var t := Escape(c) + tail;
    assert t[|Escape(c)|..] == tail;
    if c < ' ' && c !in {'\U{0008}', '\U{000C}', '\n', '\r', '\t'} {
      var hi, lo := c as nat / 16, c as nat % 16;
      HexRoundTrip(hi);
      HexRoundTrip(lo);
      assert t[2..6] == ['0', '0', HexDigit(hi), HexDigit(lo)];
      assert UnicodeEscape(t[2..6]) == Some(c);
    }
  }

  /** The body of a quoted string reads back as the string, stopping at the closing quote. */
  lemma {:induction false} StringRoundTrip(s: string, rest: string)
    ensures StringBody(EscapeAll(s) + ("\"" + rest)) == Some((s, rest))
    decreases |s|
  {
    if s == [] {
      assert EscapeAll(s) + ("\"" + rest) == "\"" + rest;
    } else {
      StringRoundTrip(s[1..], rest);
      AppendAssociative(Escape(s[0]), EscapeAll(s[1..]), "\"" + rest);
      EscapeStep(s[0], EscapeAll(s[1..]) + ("\"" + rest));
      assert [s[0]] + s[1..] == s;
    }
  }

  lemma ExpectPrefix(lit: string, rest: string)
    ensures Expect(lit, lit + rest) == Some(rest)
  {
    assert (lit + rest)[..|lit|] == lit;
  }

  lemma LiteralRoundTrip(s: string, rest: string)
    ensures StringLiteral(Quote(s) + rest) == Some((s, rest))
  {
    AppendAssociative("\"" + EscapeAll(s), "\"", rest);
    AppendAssociative("\"", EscapeAll(s), "\"" + rest);
    ExpectPrefix("\"", EscapeAll(s) + ("\"" + rest));
    StringRoundTrip(s, rest);
  }

  lemma ObjectRoundTrip(r: Reason, rest: string)
    ensures ReasonObject(Object(r) + rest) == Some((r, rest))
  {
    var a, b := "{\"rule\":", ",\"description\":";
    var t4 := "}" + rest;
    var t3 := Quote(r.description) + t4;
    var t2 := b + t3;
    var t1 := Quote(r.rule) + t2;
    assert Object(r) + rest == a + t1 by {
      AppendAssociative(a + Quote(r.rule) + b + Quote(r.description), "}", rest);
      AppendAssociative(a + Quote(r.rule) + b, Quote(r.description), t4);
      AppendAssociative(a + Quote(r.rule), b, t3);
      AppendAssociative(a, Quote(r.rule), t2);
    }
    ExpectPrefix(a, t1);
    LiteralRoundTrip(r.rule, t2);
    ExpectPrefix(b, t3);
    LiteralRoundTrip(r.description, t4);
    ExpectPrefix("}", rest);
  }

  /** An object followed by a comma continues the list with whatever the rest reads as. */
  lemma ItemListComma(t: string, r: Reason, tail: string, more: seq<Reason>)
    requires ReasonObject(t) == Some((r, "," + tail))
    requires ItemList(tail) == Some(more)
    ensures ItemList(t) == Some([r] + more)
  {
    assert ("," + tail)[1..] == tail;
    assert ("," + tail)[0] == ',';
  }

  /** A list of two or more objects reads its first object, leaving the comma and the rest. */
  lemma ItemsHead(rs: seq<Reason>)
    requires |rs| > 1
    ensures ReasonObject(Items(rs) + "]") == Some((rs[0], "," + (Items(rs[1..]) + "]")))
  {
    var tail := Items(rs[1..]) + "]";
    assert Items(rs) + "]" == Object(rs[0]) + ("," + tail) by {
      AppendAssociative(Object(rs[0]) + ",", Items(rs[1..]), "]");
      AppendAssociative(Object(rs[0]), ",", tail);
    }
    ObjectRoundTrip(rs[0], "," + tail);
  }

  lemma {:induction false} ItemsRoundTrip(rs: seq<Reason>)
    requires rs != []
    ensures ItemList(Items(rs) + "]") == Some(rs)
    decreases |rs|
  {
    if |rs| == 1 {
      ObjectRoundTrip(rs[0], "]");
      assert [rs[0]] == rs;
    } else {
      ItemsRoundTrip(rs[1..]);
      ItemsHead(rs);
      ItemListComma(Items(rs) + "]", rs[0], Items(rs[1..]) + "]", rs[1..]);
      assert [rs[0]] + rs[1..] == rs;
    }
  }

  /** Parsing what stringify wrote gives back the same reasons, in the same order. */
  lemma ParseStringify(rs: seq<Reason>)
    ensures Parse(Stringify(rs)) == Some(rs)
  {
    if rs != [] {
      ItemsRoundTrip(rs);
      var t := Stringify(rs);
      assert t == "[" + (Items(rs) + "]");
      assert t[1..] == Items(rs) + "]";
      assert |Object(rs[0])| > 0;
    }
  }

  /** Stringify never writes the empty text, so the script's `? JSON.parse(..) : []` always parses. */
  lemma StringifyNotEmpty(rs: seq<Reason>)
    ensures Stringify(rs) != ""
    ensures Stringify(rs)[0] == '['
  {
  }

  /** Different reason lists are stored as different texts. */
  lemma StringifyInjective(a: seq<Reason>, b: seq<Reason>)
    requires Stringify(a) == Stringify(b)
    ensures a == b
  {
    ParseStringify(a);
    ParseStringify(b);
  }
}
