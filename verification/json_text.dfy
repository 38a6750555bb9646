/**
 JSON values, and string escaping as Python's `json.dumps` does it with its default
 `ensure_ascii=True`: the quote and the backslash are escaped, the five
 control characters with short forms use them, every other character outside
 printable ASCII becomes `\uXXXX` in lower-case hexadecimal, and characters
 beyond the Basic Multilingual Plane become a surrogate pair (section 7 of
 RFC 8259). Also the matching decoder, to state the round trip.
 */
module JsonText {
  import opened Wrappers
  import opened Text

  /** JSON values as a decoder produces them (numbers are integers here). */
  datatype Json =
    | JNull
    | JBool(b: bool)
    | JNum(n: int)
    | JStr(s: string)
    | JArr(items: seq<Json>)
    | JObj(fields: map<string, Json>)

  /** The characters `json.dumps` writes unescaped: space through tilde. */
  predicate Printable(c: char) {
    ' ' <= c <= '~'
  }

  function HexDigit(d: nat): (c: char)
    requires d < 16
    ensures Printable(c) && c != '\\' && c != '"'
  {
    if d < 10 then ('0' as int + d) as char else ('a' as int + d - 10) as char
  }

  function HexValue(c: char): (r: Option<nat>)
    ensures r.Some? ==> r.value < 16
  {
    if '0' <= c <= '9' then Some(c as int - '0' as int)
    else if 'a' <= c <= 'f' then Some(c as int - 'a' as int + 10)
    else None
  }

  lemma HexDigitValue(d: nat)
    requires d < 16
    ensures HexValue(HexDigit(d)) == Some(d)
  {
  }

  /** Two lower-case hexadecimal digits for a byte. */
  function Hex2(b: nat): (h: string)
    requires b < 0x100
    ensures |h| == 2
  {
    [HexDigit(b / 16), HexDigit(b % 16)]
  }

  /** Four lower-case hexadecimal digits for a 16-bit code unit. */
  function Hex4(n: nat): (h: string)
    requires n < 0x10000
    ensures |h| == 4
  {
    Hex2(n / 0x100) + Hex2(n % 0x100)
  }

  function Hex4Value(h: string): (r: Option<nat>)
    requires |h| == 4
    ensures r.Some? ==> r.value < 0x10000
  {
    match (HexValue(h[0]), HexValue(h[1]), HexValue(h[2]), HexValue(h[3]))
    case (Some(a), Some(b), Some(c), Some(d)) => Some(((a * 16 + b) * 16 + c) * 16 + d)
    case _ => None
  }

  lemma Hex4RoundTrip(n: nat)
    requires n < 0x10000
    ensures Hex4Value(Hex4(n)) == Some(n)
  {
    var hi := n / 0x100;
    var lo := n % 0x100;
    var h := Hex4(n);
    HexDigitValue(hi / 16);
    HexDigitValue(hi % 16);
    HexDigitValue(lo / 16);
    HexDigitValue(lo % 16);
    assert h == [HexDigit(hi / 16), HexDigit(hi % 16), HexDigit(lo / 16), HexDigit(lo % 16)];
    assert hi == (hi / 16) * 16 + hi % 16;
    assert lo == (lo / 16) * 16 + lo % 16;
    assert n == hi * 0x100 + lo;
  }

  /** `\u` followed by four hexadecimal digits. */
  function UnitEscape(n: nat): (e: string)
    requires n < 0x10000
    ensures |e| == 6 && e[..2] == "\\u" && e[2..] == Hex4(n)
  {
    "\\u" + Hex4(n)
  }

  /** The short escape of a character, when it has one. */
  function ShortEscape(c: char): (r: Option<char>)
    ensures r.Some? ==> Printable(r.value) && r.value != 'u'
  {
    if c == '"' then Some('"')
    else if c == '\\' then Some('\\')
    else if c == '\n' then Some('n')
    else if c == '\r' then Some('r')
    else if c == '\t' then Some('t')
    else if c == '\U{8}' then Some('b')
    else if c == '\U{c}' then Some('f')
    else None
  }

  /** The inverse of `ShortEscape`. */
  function ShortUnescape(e: char): Option<char> {
    if e == '"' then Some('"')
    else if e == '\\' then Some('\\')
    else if e == 'n' then Some('\n')
    else if e == 'r' then Some('\r')
    else if e == 't' then Some('\t')
    else if e == 'b' then Some('\U{8}')
    else if e == 'f' then Some('\U{c}')
    else None
  }

  /** How one character is written inside a JSON string. */
  function EscapeChar(c: char): (e: string)
    ensures |e| > 0 && forall i :: 0 <= i < |e| ==> Printable(e[i])
  {
    match ShortEscape(c)
    case Some(x) => ['\\', x]
    case None =>
      if Printable(c) then [c]
      else if c as int < 0x10000 then UnitEscape(c as int)
      else
        var v := c as int - 0x10000;
        UnitEscape(0xD800 + v / 0x400) + UnitEscape(0xDC00 + v % 0x400)
  }

  /** The body of the JSON string literal for `s`, without the quotes. */
  function Escape(s: string): (e: string)
    ensures forall i :: 0 <= i < |e| ==> Printable(e[i])
  {
    if |s| == 0 then "" else EscapeChar(s[0]) + Escape(s[1..])
  }

  /** `json.dumps(s)` for a string `s`. */
  function Quote(s: string): (q: string)
    ensures |q| >= 2 && q[0] == '"' && q[|q| - 1] == '"'
    ensures forall i :: 0 <= i < |q| ==> Printable(q[i])
  {
    "\"" + Escape(s) + "\""
  }

  function Cons(c: char, r: Option<string>): Option<string> {
    match r
    case None => None
    case Some(t) => Some([c] + t)
  }

  /** The code point of a surrogate pair. */
  function Combine(hi: nat, lo: nat): (c: char)
    requires 0xD800 <= hi < 0xDC00 && 0xDC00 <= lo < 0xE000
    ensures c as int == 0x10000 + (hi - 0xD800) * 0x400 + (lo - 0xDC00)
  {
    var v := (hi - 0xD800) * 0x400 + (lo - 0xDC00);
    assert v <= 0x3FF * 0x400 + 0x3FF;
    (0x10000 + v) as char
  }

  /** Decoding the body of a JSON string literal; `None` on a malformed escape. */
  function Unescape(t: string): Option<string>
    decreases |t|
  {
    if |t| == 0 then Some("")
    else if t[0] != '\\' then Cons(t[0], Unescape(t[1..]))
    else if |t| < 2 then None
    else if t[1] != 'u' then
      match ShortUnescape(t[1])
      case None => None
      case Some(c) => Cons(c, Unescape(t[2..]))
    else if |t| < 6 then None
    else
      match Hex4Value(t[2..6])
      case None => None
      case Some(v) =>
        if 0xD800 <= v < 0xDC00 then
          if |t| < 12 || t[6..8] != "\\u" then None
          else
            match Hex4Value(t[8..12])
            case None => None
            case Some(w) => if 0xDC00 <= w < 0xE000 then Cons(Combine(v, w), Unescape(t[12..])) else None
        else if 0xDC00 <= v < 0xE000 then None
        else Cons(v as char, Unescape(t[6..]))
  }

  lemma UnescapeChar(c: char, rest: string)
    ensures Unescape(EscapeChar(c) + rest) == Cons(c, Unescape(rest))
  {
    match ShortEscape(c)
    case Some(x) =>
      UnescapeShort(c, rest);
    case None =>
      if Printable(c) {
        var t := EscapeChar(c) + rest;
        assert t[1..] == rest;
      } else if c as int < 0x10000 {
        UnescapeUnit(c, rest);
      } else {
        UnescapePair(c, rest);
      }
  }

  /** A short escape reads back as its character. */
  lemma UnescapeShort(c: char, rest: string)
    requires ShortEscape(c).Some?
    ensures Unescape(EscapeChar(c) + rest) == Cons(c, Unescape(rest))
  {
    var x := ShortEscape(c).value;
    assert ShortUnescape(x) == Some(c);
    var t := EscapeChar(c) + rest;
    assert t[0] == '\\' && t[1] == x;
    assert t[2..] == rest;
  }

  /** A `\uXXXX` escape of a character in the Basic Multilingual Plane reads back as that character. */
  lemma UnescapeUnit(c: char, rest: string)
    requires ShortEscape(c).None? && !Printable(c) && c as int < 0x10000
    ensures Unescape(EscapeChar(c) + rest) == Cons(c, Unescape(rest))
  {
    var t := EscapeChar(c) + rest;
    Hex4RoundTrip(c as int);
    assert EscapeChar(c) == UnitEscape(c as int);
    assert t[0] == '\\' && t[1] == 'u';
    assert t[2..6] == Hex4(c as int);
    assert t[6..] == rest;
  }

  /** A surrogate pair of escapes reads back as the character above the Basic Multilingual Plane. */
  lemma UnescapePair(c: char, rest: string)
    requires ShortEscape(c).None? && !Printable(c) && c as int >= 0x10000
    ensures Unescape(EscapeChar(c) + rest) == Cons(c, Unescape(rest))
  {
    var v := c as int - 0x10000;
    var hi := 0xD800 + v / 0x400;
    var lo := 0xDC00 + v % 0x400;
    assert EscapeChar(c) == UnitEscape(hi) + UnitEscape(lo);
    SurrogatesCombine(c);
    UnescapeSurrogates(hi, lo, rest);
    assert EscapeChar(c) + rest == UnitEscape(hi) + UnitEscape(lo) + rest;
  }

  /** The two halves `json.dumps` writes for a character above the Basic Multilingual Plane combine back into it. */
  lemma SurrogatesCombine(c: char)
    requires c as int >= 0x10000
    ensures var v := c as int - 0x10000;
      && 0xD800 <= 0xD800 + v / 0x400 < 0xDC00 && 0xDC00 <= 0xDC00 + v % 0x400 < 0xE000
      && Combine(0xD800 + v / 0x400, 0xDC00 + v % 0x400) == c
  {
    var v := c as int - 0x10000;
    assert v == (v / 0x400) * 0x400 + v % 0x400;
  }

  /** Two `\uXXXX` escapes of a high and a low surrogate decode to the character they encode. */
  lemma UnescapeSurrogates(hi: nat, lo: nat, rest: string)
    requires 0xD800 <= hi < 0xDC00 && 0xDC00 <= lo < 0xE000
    ensures Unescape(UnitEscape(hi) + UnitEscape(lo) + rest) == Cons(Combine(hi, lo), Unescape(rest))
  {
    var t := UnitEscape(hi) + UnitEscape(lo) + rest;
    Hex4RoundTrip(hi);
    Hex4RoundTrip(lo);
    assert t[0] == '\\' && t[1] == 'u';
    assert t[2..6] == Hex4(hi);
    assert t[6..8] == "\\u";
    assert t[8..12] == Hex4(lo);
    assert t[12..] == rest;
  }

  /** Decoding what `json.dumps` wrote gives back the original string, for every string. */
  lemma {:induction false} EscapeRoundTrip(s: string)
    ensures Unescape(Escape(s)) == Some(s)
    decreases |s|
  {
    if |s| > 0 {
      EscapeRoundTrip(s[1..]);
      UnescapeChar(s[0], Escape(s[1..]));
      assert [s[0]] + s[1..] == s;
    }
  }
}
