/**
  The JavaScript values a parsed JSON request body can hold, JavaScript's
  truthiness test on them, property lookup by destructuring, and the
  serialisation of a string by `JSON.stringify` (QuoteJSONString in the
  ECMAScript language specification, section 25.5.2.3) together with a
  JSON string-literal reader (section 7 of RFC 8259) that undoes it.
 */
module Json {
  import opened Wrappers

  /** A JavaScript value as produced by `JSON.parse`, plus `undefined` for an
      absent property. Numbers are idealised as exact reals. */
  datatype JsValue =
    | Undefined
    | Null
    | Bool(b: bool)
    | Number(n: real)
    | Str(s: string)
    | Array(items: seq<JsValue>)
    | Object(props: seq<(string, JsValue)>)

  /** JavaScript's `!!v`: `undefined`, `null`, `false`, `0` and `""` are falsy. */
  predicate Truthy(v: JsValue) {
    match v
    case Undefined => false
    case Null => false
    case Bool(b) => b
    case Number(n) => n != 0.0
    case Str(s) => |s| > 0
    case Array(_) => true
    case Object(_) => true
  }

  /** The value of property `key`, as destructuring reads it from a value that
      is neither `null` nor `undefined`; when `JSON.parse` meets a key twice
      the later entry wins. Only own properties are modelled, so this is
      destructuring for a key that no prototype defines, such as `question`,
      the only key the handler reads: arrays and primitives then have no such
      property. Keys like `length` or `toString` are outside this model. */
  function Property(v: JsValue, key: string): (r: JsValue)
    requires !v.Undefined? && !v.Null?
    ensures !v.Object? ==> r.Undefined?
  {
    if v.Object? then Lookup(v.props, key) else Undefined
  }

  /** The last entry for `key`, or `undefined`. */
  function Lookup(props: seq<(string, JsValue)>, key: string): (r: JsValue)
    ensures (forall i :: 0 <= i < |props| ==> props[i].0 != key) ==> r.Undefined?
    ensures !r.Undefined? ==> exists i :: 0 <= i < |props| && props[i] == (key, r)
    ensures (exists i :: 0 <= i < |props| && props[i].0 == key) ==>
      exists i :: 0 <= i < |props| && props[i] == (key, r) && forall j :: i < j < |props| ==> props[j].0 != key
    decreases |props|
  {
    if |props| == 0 then Undefined
    else if props[|props| - 1].0 == key then props[|props| - 1].1
    else
      var front := props[..|props| - 1];
      assert forall i :: 0 <= i < |front| ==> front[i] == props[i];
      Lookup(front, key)
  }

  /** Lower-case hexadecimal digit for `0 <= v < 16`. */
  function HexDigit(v: int): char
    requires 0 <= v < 16
  {
    if v < 10 then ('0' as int + v) as char else ('a' as int + (v - 10)) as char
  }

  /** The value of a hexadecimal digit of either case. */
  function HexValue(c: char): (r: Option<int>)
    ensures r.Some? ==> 0 <= r.value < 16
  {
    if '0' <= c <= '9' then Some(c as int - '0' as int)
    else if 'a' <= c <= 'f' then Some(c as int - 'a' as int + 10)
    else if 'A' <= c <= 'F' then Some(c as int - 'A' as int + 10)
    else None
  }

  /** The characters that the ECMAScript escape table writes as a backslash and a letter. */
  function ShortEscape(c: char): Option<char> {
    if c == '\U{8}' then Some('b')
    else if c == '\t' then Some('t')
    else if c == '\n' then Some('n')
    else if c == '\U{C}' then Some('f')
    else if c == '\r' then Some('r')
    else if c == '"' then Some('"')
    else if c == '\\' then Some('\\')
    else None
  }

  /** How `JSON.stringify` writes one character inside a string literal. */
  function EscapeChar(c: char): (e: string)
    ensures 1 <= |e| && e[0] != '"'
    ensures '\n' !in e
  {
    var short := ShortEscape(c);
    if short.Some? then ['\\', short.value]
    else if c < ' ' then
      var v := c as int;
      ['\\', 'u', '0', '0', HexDigit(v / 16), HexDigit(v % 16)]
    else [c]
  }

  function Escape(s: string): (e: string)
    ensures '\n' !in e
    decreases |s|
  {
    if |s| == 0 then "" else EscapeChar(s[0]) + Escape(s[1..])
  }

  /** A character `JSON.stringify` writes as itself. */
  predicate IsPlain(c: char) {
    ' ' <= c && c != '"' && c != '\\'
  }

  /** Text made of plain characters is left as it is. */
  lemma {:induction false} EscapePlain(s: string)
    requires forall c <- s :: IsPlain(c)
    ensures Escape(s) == s
    decreases |s|
  {
    if |s| > 0 {
      assert s[0] in s && forall c <- s[1..] :: c in s;
      assert EscapeChar(s[0]) == [s[0]];
      EscapePlain(s[1..]);
      assert [s[0]] + s[1..] == s;
    }
  }

  /** `JSON.stringify(s)` for a string `s`. */
  function Quote(s: string): (q: string)
    ensures |q| >= 2 && q[0] == '"' && q[|q| - 1] == '"'
    ensures '\n' !in q
  {
    "\"" + Escape(s) + "\""
  }

  /** The character meant by an escape letter, the inverse of `ShortEscape`. */
  function UnescapeLetter(c: char): Option<char> {
    if c == 'b' then Some('\U{8}')
    else if c == 't' then Some('\t')
    else if c == 'n' then Some('\n')
    else if c == 'f' then Some('\U{C}')
    else if c == 'r' then Some('\r')
    else if c == '"' then Some('"')
    else if c == '\\' then Some('\\')
    else if c == '/' then Some('/')
    else None
  }

  /** Reads one character of a string literal's body: the character and how
      many input characters it took, or `None` at the closing quote or at
      anything RFC 8259 does not allow there. A `\u` escape for half of a
      surrogate pair is refused: such pairs are not read. */
  function ReadChar(u: string): (r: Option<(char, nat)>)
    ensures r.Some? ==> 1 <= r.value.1 <= |u|
  {
    if |u| == 0 || u[0] == '"' then None
    else if u[0] != '\\' then (if u[0] < ' ' then None else Some((u[0], 1)))
    else if |u| < 2 then None
    else if u[1] != 'u' then
      var c := UnescapeLetter(u[1]);
      if c.Some? then Some((c.value, 2)) else None
    else if |u| < 6 then None
    else
      var h0, h1, h2, h3 := HexValue(u[2]), HexValue(u[3]), HexValue(u[4]), HexValue(u[5]);
      if h0.None? || h1.None? || h2.None? || h3.None? then None
      else
        var v := h0.value * 4096 + h1.value * 256 + h2.value * 16 + h3.value;
        if 0xD800 <= v < 0xE000 then None else Some((v as char, 6))
  }

  /** Reads a string literal's body up to its closing quote: the decoded
      string and the text after the quote. */
  function ReadBody(u: string): Option<(string, string)>
    decreases |u|
  {
    if |u| == 0 then None
    else if u[0] == '"' then Some(("", u[1..]))
    else
      match ReadChar(u)
      case None => None
      case Some((c, k)) =>
        match ReadBody(u[k..])
        case None => None
        case Some((s, rest)) => Some(([c] + s, rest))
  }

  /** Reads a JSON string literal at the start of `t`: the string it denotes
      and the text after it. */
  function ReadString(t: string): Option<(string, string)> {
    if |t| == 0 || t[0] != '"' then None else ReadBody(t[1..])
  }

  lemma HexRoundTrip(v: int)
    requires 0 <= v < 16
    ensures HexValue(HexDigit(v)) == Some(v)
  {
  }

  /** Reading one escaped character gives it back, and consumes exactly its escape. */
  lemma ReadEscapedChar(c: char, t: string)
    ensures ReadChar(EscapeChar(c) + t) == Some((c, |EscapeChar(c)|))
  {
    var e := EscapeChar(c);
    var u := e + t;
    if ShortEscape(c).None? && c < ' ' {
      var v := c as int;
      HexRoundTrip(v / 16);
      HexRoundTrip(v % 16);
      assert u[..6] == e;
      assert 0 * 4096 + 0 * 256 + (v / 16) * 16 + v % 16 == v;
    }
  }

  /** Reading the body of a quoted string gives the string and what follows. */
  lemma {:induction false} ReadBodyEscape(s: string, rest: string)
    ensures ReadBody(Escape(s) + "\"" + rest) == Some((s, rest))
    decreases |s|
  {
    var u := Escape(s) + "\"" + rest;
    if |s| == 0 {
      assert u == "\"" + rest;
      assert u[1..] == rest;
    } else {
      var e := EscapeChar(s[0]);
      var t := Escape(s[1..]) + "\"" + rest;
      assert u == e + t;
      ReadEscapedChar(s[0], t);
      assert u[|e|..] == t;
      ReadBodyEscape(s[1..], rest);
      assert [s[0]] + s[1..] == s;
    }
  }

  /** `JSON.stringify` keeps a string intact: reading the literal back gives
      the original string and leaves the text after it untouched. */
  lemma ReadQuote(s: string, rest: string)
    ensures ReadString(Quote(s) + rest) == Some((s, rest))
  {
    var t := Quote(s) + rest;
    assert t[1..] == Escape(s) + "\"" + rest;
    ReadBodyEscape(s, rest);
  }
}
