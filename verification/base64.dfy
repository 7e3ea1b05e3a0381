/**
  Base 64 encoding with padding, as in section 4 of RFC 4648: what Node's
  `digest('base64')` produces from a digest. `Decode` is the decoder a
  receiving party applies; the two are tied by `DecodeEncode`.
 */
module Base64 {
  import opened Wrappers

  newtype byte = x: int | 0 <= x < 256

  type sextet = x: int | 0 <= x < 64

  /** The character for a 6-bit value: `A`-`Z`, `a`-`z`, `0`-`9`, `+`, `/`. */
  function Digit(v: sextet): (c: char)
    ensures IsAlphabetChar(c)
  {
    if v < 26 then ('A' as int + v) as char
    else if v < 52 then ('a' as int + (v - 26)) as char
    else if v < 62 then ('0' as int + (v - 52)) as char
    else if v == 62 then '+'
    else '/'
  }

  predicate IsAlphabetChar(c: char) {
    'A' <= c <= 'Z' || 'a' <= c <= 'z' || '0' <= c <= '9' || c == '+' || c == '/'
  }

  /** A character that may appear in an encoding: an alphabet character or the pad `=`. */
  predicate IsEncodingChar(c: char) {
    IsAlphabetChar(c) || c == '='
  }

  /** The 6-bit value of an alphabet character, the inverse of `Digit`. */
  function DigitValue(c: char): (r: Option<sextet>)
    ensures r.Some? <==> IsAlphabetChar(c)
    ensures r.Some? ==> Digit(r.value) == c
  {
    if 'A' <= c <= 'Z' then Some(c as int - 'A' as int)
    else if 'a' <= c <= 'z' then Some(c as int - 'a' as int + 26)
    else if '0' <= c <= '9' then Some(c as int - '0' as int + 52)
    else if c == '+' then Some(62)
    else if c == '/' then Some(63)
    else None
  }

  /** Four characters for the 24 bits of three bytes, most significant first. */
  function EncodeGroup(a: byte, b: byte, c: byte): string {
    var x, y, z := a as int, b as int, c as int;
    Quad(Digit(x / 4), Digit((x % 4) * 16 + y / 16), Digit((y % 16) * 4 + z / 64), Digit(z % 64))
  }

  /** A final single byte: its 8 bits and four zero bits, then `==`. */
  function EncodeOne(a: byte): string {
    var x := a as int;
    Quad(Digit(x / 4), Digit((x % 4) * 16), '=', '=')
  }

  /** A final pair of bytes: their 16 bits and two zero bits, then `=`. */
  function EncodeTwo(a: byte, b: byte): string {
    var x, y := a as int, b as int;
    Quad(Digit(x / 4), Digit((x % 4) * 16 + y / 16), Digit((y % 16) * 4), '=')
  }

  function Quad(c0: char, c1: char, c2: char, c3: char): (q: string)
    ensures |q| == 4 && q[0] == c0 && q[1] == c1 && q[2] == c2 && q[3] == c3
  {
    [c0, c1, c2, c3]
  }

  /** The encoding of `bytes`: every three bytes become four characters and a
      final one or two bytes are padded with `=` to four characters. */
  function Encode(bytes: seq<byte>): string
    decreases |bytes|
  {
    if |bytes| == 0 then ""
    else if |bytes| == 1 then EncodeOne(bytes[0])
    else if |bytes| == 2 then EncodeTwo(bytes[0], bytes[1])
    else EncodeGroup(bytes[0], bytes[1], bytes[2]) + Encode(bytes[3..])
  }

  /** Every three bytes, or final one or two, take four characters. */
  lemma {:induction false} EncodeLength(bytes: seq<byte>)
    ensures |Encode(bytes)| == (|bytes| + 2) / 3 * 4
    decreases |bytes|
  {
    if |bytes| >= 3 {
      EncodeLength(bytes[3..]);
      assert (|bytes| + 2) / 3 == (|bytes[3..]| + 2) / 3 + 1;
    }
  }

  /** An encoding holds only alphabet characters and the pad. */
  lemma {:induction false} EncodeAlphabet(bytes: seq<byte>)
    ensures forall c <- Encode(bytes) :: IsEncodingChar(c)
    decreases |bytes|
  {
    if |bytes| >= 3 {
      EncodeAlphabet(bytes[3..]);
      var g := EncodeGroup(bytes[0], bytes[1], bytes[2]);
      assert forall c <- g :: IsEncodingChar(c);
    }
  }

  /** The bytes of one group of four characters: three, or, in the final
      group only, one or two when it ends in `==` or `=`. */
  function DecodeQuad(q: string, final: bool): (r: Option<seq<byte>>)
    requires |q| == 4
    ensures r.Some? ==> 1 <= |r.value| <= 3 && (|r.value| < 3 ==> final)
  {
    var d0, d1, d2, d3 := DigitValue(q[0]), DigitValue(q[1]), DigitValue(q[2]), DigitValue(q[3]);
    if d0.None? || d1.None? then None
    else
      var v0, v1 := d0.value, d1.value;
      var first := (v0 * 4 + v1 / 16) as byte;
      if final && q[2] == '=' && q[3] == '=' then Some([first])
      else if d2.None? then None
      else
        var v2 := d2.value;
        var second := ((v1 % 16) * 16 + v2 / 4) as byte;
        if final && q[3] == '=' then Some([first, second])
        else if d3.None? then None
        else Some([first, second, ((v2 % 4) * 64 + d3.value) as byte])
  }

  /** The bytes of a padded encoding, or `None` if `s` is not one. */
  function Decode(s: string): Option<seq<byte>>
    decreases |s|
  {
    if |s| == 0 then Some([])
    else if |s| < 4 then None
    else
      match DecodeQuad(s[..4], |s| == 4)
      case None => None
      case Some(group) =>
        if |group| < 3 then Some(group)
        else
          match Decode(s[4..])
          case None => None
          case Some(rest) => Some(group + rest)
  }

  /** Splitting a byte into its top six or two bits and its low bits. */
  lemma Regroup(x: int, y: int)
    requires 0 <= x < 256 && 0 <= y < 256
    ensures (x / 4) * 4 + ((x % 4) * 16 + y / 16) / 16 == x
    ensures (((x % 4) * 16 + y / 16) % 16) * 16 == (y / 16) * 16
    ensures ((y % 16) * 4) / 4 == y % 16
  {
    var t := (x % 4) * 16 + y / 16;
    assert t / 16 == x % 4 && t % 16 == y / 16;
  }

  lemma RegroupLast(y: int, z: int)
    requires 0 <= y < 256 && 0 <= z < 256
    ensures (y / 16) * 16 + ((y % 16) * 4 + z / 64) / 4 == y
    ensures (((y % 16) * 4 + z / 64) % 4) * 64 + z % 64 == z
  {
    var t := (y % 16) * 4 + z / 64;
    assert t / 4 == y % 16 && t % 4 == z / 64;
  }

  /** Reading a digit back gives its value. */
  lemma DigitRoundTrip(v: sextet)
    ensures DigitValue(Digit(v)) == Some(v)
  {
  }

  /** Two digits and `==` in the final group give the byte their top eight bits hold. */
  lemma QuadOne(v0: sextet, v1: sextet, a: byte)
    requires v0 * 4 + v1 / 16 == a as int
    ensures DecodeQuad(Quad(Digit(v0), Digit(v1), '=', '='), true) == Some([a])
  {
    DigitRoundTrip(v0);
    DigitRoundTrip(v1);
  }

  /** Three digits and `=` in the final group give the two bytes their top sixteen bits hold. */
  lemma QuadTwo(v0: sextet, v1: sextet, v2: sextet, a: byte, b: byte)
    requires v0 * 4 + v1 / 16 == a as int && (v1 % 16) * 16 + v2 / 4 == b as int
    ensures DecodeQuad(Quad(Digit(v0), Digit(v1), Digit(v2), '='), true) == Some([a, b])
  {
    DigitRoundTrip(v0);
    DigitRoundTrip(v1);
    DigitRoundTrip(v2);
  }

  /** Four digits give the three bytes their 24 bits hold, in the final group or not. */
  lemma QuadThree(v0: sextet, v1: sextet, v2: sextet, v3: sextet, a: byte, b: byte, c: byte, final: bool)
    requires v0 * 4 + v1 / 16 == a as int && (v1 % 16) * 16 + v2 / 4 == b as int
    requires (v2 % 4) * 64 + v3 == c as int
    ensures DecodeQuad(Quad(Digit(v0), Digit(v1), Digit(v2), Digit(v3)), final) == Some([a, b, c])
  {
    DigitRoundTrip(v0);
    DigitRoundTrip(v1);
    DigitRoundTrip(v2);
    DigitRoundTrip(v3);
    assert Digit(v2) != '=' && Digit(v3) != '=';
  }

  /** A final group holding one byte decodes to that byte. */
  lemma DecodeOne(a: byte)
    ensures DecodeQuad(EncodeOne(a), true) == Some([a])
  {
    var x := a as int;
    var v0, v1 := x / 4, (x % 4) * 16;
    assert EncodeOne(a) == Quad(Digit(v0), Digit(v1), '=', '=');
    Regroup(x, 0);
    QuadOne(v0, v1, a);
  }

  /** A final group holding two bytes decodes to those bytes. */
  lemma DecodeTwo(a: byte, b: byte)
    ensures DecodeQuad(EncodeTwo(a, b), true) == Some([a, b])
  {
    var x, y := a as int, b as int;
    var v0, v1, v2 := x / 4, (x % 4) * 16 + y / 16, (y % 16) * 4;
    assert EncodeTwo(a, b) == Quad(Digit(v0), Digit(v1), Digit(v2), '=');
    Regroup(x, y);
    assert (y / 16) * 16 + y % 16 == y;
    QuadTwo(v0, v1, v2, a, b);
  }

  /** A full group decodes to its three bytes, final or not. */
  lemma DecodeGroup(a: byte, b: byte, c: byte, final: bool)
    ensures DecodeQuad(EncodeGroup(a, b, c), final) == Some([a, b, c])
  {
    var x, y, z := a as int, b as int, c as int;
    var v0, v1, v2, v3 := x / 4, (x % 4) * 16 + y / 16, (y % 16) * 4 + z / 64, z % 64;
    assert EncodeGroup(a, b, c) == Quad(Digit(v0), Digit(v1), Digit(v2), Digit(v3));
    GroupBits(x, y, z);
    QuadThree(v0, v1, v2, v3, a, b, c, final);
  }

  /** The four sextets of three bytes put back together give the bytes. */
  lemma GroupBits(x: int, y: int, z: int)
    requires 0 <= x < 256 && 0 <= y < 256 && 0 <= z < 256
    ensures (x / 4) * 4 + ((x % 4) * 16 + y / 16) / 16 == x
    ensures (((x % 4) * 16 + y / 16) % 16) * 16 + ((y % 16) * 4 + z / 64) / 4 == y
    ensures (((y % 16) * 4 + z / 64) % 4) * 64 + z % 64 == z
  {
    Regroup(x, y);
    RegroupLast(y, z);
  }

  /** A group of one or two bytes that ends the input decodes alone. */
  lemma DecodeLast(q: string, group: seq<byte>)
    requires |q| == 4 && DecodeQuad(q, true) == Some(group) && |group| < 3
    ensures Decode(q) == Some(group)
  {
    assert q[..4] == q;
  }

  /** A full group followed by the encoding of the rest. */
  lemma DecodeThen(q: string, t: string, group: seq<byte>, rest: seq<byte>)
    requires |q| == 4 && DecodeQuad(q, |t| == 0) == Some(group) && |group| == 3 && Decode(t) == Some(rest)
    ensures Decode(q + t) == Some(group + rest)
  {
    var s := q + t;
    assert s[..4] == q && s[4..] == t;
  }

  /** Decoding an encoding gives the bytes back. */
  lemma {:induction false} DecodeEncode(bytes: seq<byte>)
    ensures Decode(Encode(bytes)) == Some(bytes)
    decreases |bytes|
  {
    if |bytes| == 1 {
      DecodeEncodeOne(bytes);
    } else if |bytes| == 2 {
      DecodeEncodeTwo(bytes);
    } else if |bytes| >= 3 {
      DecodeEncode(bytes[3..]);
      DecodeEncodeStep(bytes);
    }
  }

  lemma DecodeEncodeOne(bytes: seq<byte>)
    requires |bytes| == 1
    ensures Decode(Encode(bytes)) == Some(bytes)
  {
    DecodeOne(bytes[0]);
    DecodeLast(EncodeOne(bytes[0]), [bytes[0]]);
    assert bytes == [bytes[0]];
  }

  lemma DecodeEncodeTwo(bytes: seq<byte>)
    requires |bytes| == 2
    ensures Decode(Encode(bytes)) == Some(bytes)
  {
    DecodeTwo(bytes[0], bytes[1]);
    DecodeLast(EncodeTwo(bytes[0], bytes[1]), [bytes[0], bytes[1]]);
    assert bytes == [bytes[0], bytes[1]];
  }

  /** One more full group in front of an encoding that decodes. */
  lemma DecodeEncodeStep(bytes: seq<byte>)
    requires |bytes| >= 3
    requires Decode(Encode(bytes[3..])) == Some(bytes[3..])
    ensures Decode(Encode(bytes)) == Some(bytes)
  {
    var rest := bytes[3..];
    var t := Encode(rest);
    assert Encode(bytes) == EncodeGroup(bytes[0], bytes[1], bytes[2]) + t;
    EncodeLength(rest);
    DecodeGroup(bytes[0], bytes[1], bytes[2], |t| == 0);
    DecodeThen(EncodeGroup(bytes[0], bytes[1], bytes[2]), t, [bytes[0], bytes[1], bytes[2]], rest);
    FirstThree(bytes);
  }

  lemma FirstThree<T>(s: seq<T>)
    requires |s| >= 3
    ensures s == [s[0], s[1], s[2]] + s[3..]
  {
    assert s[..3] == [s[0], s[1], s[2]];
    assert s == s[..3] + s[3..];
  }
}
