/** The JSON values the scripts exchange with the server, their JavaScript
    truthiness, and `JSON.stringify` of an array of strings (ECMA-262
    QuoteJSONString, the compact form without spaces), together with a
    decoder for that form written after sections 5 and 7 of RFC 8259. */
module Json {
  import opened Wrappers
  import opened Text

  /** A parsed JSON value. Numbers are integers here. */
  datatype Value =
    | Null
    | Bool(b: bool)
    | Num(n: int)
    | Str(s: string)
    | Arr(items: seq<Value>)
    | Obj(fields: map<string, Value>)

  /** JavaScript truthiness of a value; `None` stands for `undefined`. */
  predicate Truthy(v: Option<Value>) {
    match v
    case None => false
    case Some(Null) => false
    case Some(Bool(b)) => b
    case Some(Num(n)) => n != 0
    case Some(Str(s)) => s != []
    case Some(Arr(_)) => true
    case Some(Obj(_)) => true
  }

  /** Property access `v.name`: the field of an object, `undefined` otherwise. */
  function Prop(v: Option<Value>, name: string): Option<Value> {
    if v.Some? && v.value.Obj? && name in v.value.fields then Some(v.value.fields[name]) else None
  }

  /** `String(v)`, the text an `Error` built from `v` carries: arrays are
      joined with commas, their `null` elements giving nothing. */
  function JsString(v: Value): string
    decreases v
  {
    match v
    case Null => "null"
    case Bool(b) => if b then "true" else "false"
    case Num(n) => IntToString(n)
    case Str(s) => s
    case Obj(_) => "[object Object]"
    case Arr(items) =>
      Join(seq(|items|, i requires 0 <= i < |items| =>
        if items[i].Null? then "" else JsString(items[i])), ",")
  }

  // ---------------------------------------------------------------- encoding

  function HexDigit(d: nat): (c: char)
    requires d < 16
  {
    if d < 10 then ('0' as int + d) as char else ('a' as int + d - 10) as char
  }

  /** The JSON text of one character inside a string literal. */
  function EscapeChar(c: char): string {
    if c == '"' then "\\\""
    else if c == '\\' then "\\\\"
    else if c == '\U{0008}' then "\\b"
    else if c == '\t' then "\\t"
    else if c == '\n' then "\\n"
    else if c == '\U{000C}' then "\\f"
    else if c == '\r' then "\\r"
    else if (c as int) < 0x20 then "\\u00" + [HexDigit(c as int / 16), HexDigit(c as int % 16)]
    else [c]
  }

  function EscapeAll(s: string): string {
    if s == [] then [] else EscapeChar(s[0]) + EscapeAll(s[1..])
  }

  /** `JSON.stringify(s)` for a string `s`. */
  function Quote(s: string): string {
    "\"" + EscapeAll(s) + "\""
  }

  function Elements(xs: seq<string>): string {
    if xs == [] then []
    else if |xs| == 1 then Quote(xs[0])
    else Quote(xs[0]) + "," + Elements(xs[1..])
  }

  /** `JSON.stringify(xs)` for an array of strings. */
  function StringArray(xs: seq<string>): string {
    "[" + Elements(xs) + "]"
  }

  // ---------------------------------------------------------------- decoding

  predicate IsHex(c: char) {
    '0' <= c <= '9' || 'a' <= c <= 'f' || 'A' <= c <= 'F'
  }

  function HexValue(c: char): (v: nat)
    requires IsHex(c)
    ensures v < 16
  {
    if '0' <= c <= '9' then c as int - '0' as int
    else if 'a' <= c <= 'f' then c as int - 'a' as int + 10
    else c as int - 'A' as int + 10
  }

  /** The character a two-character escape `\e` stands for. */
  function ShortEscape(e: char): Option<char> {
    if e == '"' then Some('"')
    else if e == '\\' then Some('\\')
    else if e == '/' then Some('/')
    else if e == 'b' then Some('\U{0008}')
    else if e == 'f' then Some('\U{000C}')
    else if e == 'n' then Some('\n')
    else if e == 'r' then Some('\r')
    else if e == 't' then Some('\t')
    else None
  }

  function Prepend(c: char, p: Option<(string, string)>): Option<(string, string)> {
    match p
    case None => None
    case Some((d, rest)) => Some(([c] + d, rest))
  }

  /** The characters of a string literal up to its closing quote, and the
      text after that quote. `s` starts just after the opening quote. A
      `\u` escape must name a scalar value: surrogate pairs are not read. */
  function StringBody(s: string): (r: Option<(string, string)>)
    ensures r.Some? ==> |r.value.1| < |s|
    decreases |s|
  {
    if s == [] then None
    else if s[0] == '"' then Some(([], s[1..]))
    else if s[0] == '\\' then
      if |s| < 2 then None
      else if s[1] == 'u' then
        if |s| < 6 || !(IsHex(s[2]) && IsHex(s[3]) && IsHex(s[4]) && IsHex(s[5])) then None
        else
          var v := 4096 * HexValue(s[2]) + 256 * HexValue(s[3]) + 16 * HexValue(s[4]) + HexValue(s[5]);
          if 0xD800 <= v < 0xE000 then None
          else Prepend(v as char, StringBody(s[6..]))
      else
        match ShortEscape(s[1])
        case None => None
        case Some(c) => Prepend(c, StringBody(s[2..]))
    else if (s[0] as int) < 0x20 then None
    else Prepend(s[0], StringBody(s[1..]))
  }

  /** The array elements and the closing bracket; `s` starts at an element. */
  function ElementsOf(s: string): Option<seq<string>>
    decreases |s|
  {
    if s == [] || s[0] != '"' then None
    else
      match StringBody(s[1..])
      case None => None
      case Some((x, rest)) =>
        if rest == "]" then Some([x])
        else if rest != [] && rest[0] == ',' then
          match ElementsOf(rest[1..])
          case None => None
          case Some(xs) => Some([x] + xs)
        else None
  }

  /** Reads a JSON array of strings written without insignificant whitespace. */
  function ParseStringArray(s: string): Option<seq<string>> {
    if s == "[]" then Some([])
    else if |s| < 2 || s[0] != '[' then None
    else ElementsOf(s[1..])
  }

  // ---------------------------------------------------------------- round trip

  lemma HexRoundTrip(d: nat)
    requires d < 16
    ensures IsHex(HexDigit(d)) && HexValue(HexDigit(d)) == d
  {
  }

  /** The characters JSON writes with a two-character escape. */
  predicate HasShortEscape(c: char) {
    c == '"' || c == '\\' || c == '\U{0008}' || c == '\t' || c == '\n' || c == '\U{000C}' || c == '\r'
  }

  lemma ShortEscapeRoundTrip(c: char, tail: string)
    requires HasShortEscape(c)
    ensures StringBody(EscapeChar(c) + tail) == Prepend(c, StringBody(tail))
  {
    var s := EscapeChar(c) + tail;
    assert s[2..] == tail;
  }

  lemma UnicodeEscapeRoundTrip(c: char, tail: string)
    requires !HasShortEscape(c) && (c as int) < 0x20
    ensures StringBody(EscapeChar(c) + tail) == Prepend(c, StringBody(tail))
  {
    var e := EscapeChar(c);
    var s := e + tail;
    var n := c as int;
    HexRoundTrip(n / 16);
    HexRoundTrip(n % 16);
    assert s[..6] == e;
    assert s[6..] == tail;
    assert s[2] == '0' && s[3] == '0';
    assert s[4] == HexDigit(n / 16) && s[5] == HexDigit(n % 16);
    var v := 4096 * HexValue(s[2]) + 256 * HexValue(s[3]) + 16 * HexValue(s[4]) + HexValue(s[5]);
    assert v == n;
  }

  /** Reading one escaped character gives the character back. */
  lemma EscapeCharRoundTrip(c: char, tail: string)
    ensures StringBody(EscapeChar(c) + tail) == Prepend(c, StringBody(tail))
  {
    if HasShortEscape(c) {
      ShortEscapeRoundTrip(c, tail);
    } else if (c as int) < 0x20 {
      UnicodeEscapeRoundTrip(c, tail);
    } else {
      assert (EscapeChar(c) + tail)[1..] == tail;
    }
  }

  /** Reading the escaped text of a string, then the closing quote, gives
      the string and leaves what follows. */
  lemma {:induction false} StringBodyRoundTrip(x: string, tail: string)
    ensures StringBody(EscapeAll(x) + "\"" + tail) == Some((x, tail))
  {
    if x == [] {
      assert EscapeAll(x) + "\"" + tail == "\"" + tail;
      assert ("\"" + tail)[1..] == tail;
    } else {
      StringBodyRoundTrip(x[1..], tail);
      assert EscapeAll(x) + "\"" + tail == EscapeChar(x[0]) + (EscapeAll(x[1..]) + "\"" + tail);
      EscapeCharRoundTrip(x[0], EscapeAll(x[1..]) + "\"" + tail);
      assert [x[0]] + x[1..] == x;
    }
  }

  /** The last element read: a quoted string and the closing bracket. */
  lemma QuotedLast(x: string)
    ensures ElementsOf(Quote(x) + "]") == Some([x])
  {
    var s := Quote(x) + "]";
    assert s[1..] == EscapeAll(x) + "\"" + "]";
    StringBodyRoundTrip(x, "]");
  }

  /** An element read, then a comma and the rest of the elements. */
  lemma QuotedNext(x: string, rest: string, ys: seq<string>)
    requires ElementsOf(rest) == Some(ys)
    ensures ElementsOf(Quote(x) + "," + rest) == Some([x] + ys)
  {
    var s := Quote(x) + "," + rest;
    var tail := "," + rest;
    assert s[1..] == EscapeAll(x) + "\"" + tail;
    StringBodyRoundTrip(x, tail);
    assert tail[1..] == rest;
    assert tail != "]";
  }

  lemma {:induction false} ElementsRoundTrip(xs: seq<string>)
    requires xs != []
    ensures ElementsOf(Elements(xs) + "]") == Some(xs)
  {
    if |xs| == 1 {
      assert Elements(xs) == Quote(xs[0]);
      QuotedLast(xs[0]);
      assert xs == [xs[0]];
    } else {
      ElementsRoundTrip(xs[1..]);
      assert Elements(xs) + "]" == Quote(xs[0]) + "," + (Elements(xs[1..]) + "]");
      QuotedNext(xs[0], Elements(xs[1..]) + "]", xs[1..]);
      assert [xs[0]] + xs[1..] == xs;
    }
  }

  /** Decoding what `JSON.stringify` produced for an array of strings gives
      the array back, element for element and in order. */
  lemma StringArrayRoundTrip(xs: seq<string>)
    ensures ParseStringArray(StringArray(xs)) == Some(xs)
  {
    var s := StringArray(xs);
    if xs == [] {
      assert s == "[]";
    } else {
      ElementsRoundTrip(xs);
      assert Elements(xs) != [] by {
        assert |Quote(xs[0])| >= 2;
      }
      assert s != "[]";
      assert s[1..] == Elements(xs) + "]";
    }
  }
}
