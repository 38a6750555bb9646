/**
 String routines shared by the model: prefix and substring tests, joining and
 splitting, Python's `str.strip()`, ASCII lower-casing and decimal rendering.
 Strings are sequences of Unicode scalar values; no encoding is involved.
 */
module Text {

  /** `prefix` is an initial segment of `s` (Python `str.startswith`, JavaScript `startsWith`). */
  predicate StartsWith(s: string, prefix: string) {
    |prefix| <= |s| && s[..|prefix|] == prefix
  }

  /** `suffix` is a final segment of `s`. */
  predicate EndsWith(s: string, suffix: string) {
    |suffix| <= |s| && s[|s| - |suffix|..] == suffix
  }

  /** Python's `sub in s`: `sub` occurs somewhere in `s` (the empty string occurs everywhere). */
  predicate Contains(s: string, sub: string)
    decreases |s|
  {
    StartsWith(s, sub) || (|s| > 0 && Contains(s[1..], sub))
  }

  /** `sub` occurs in `s` starting at index `i`. */
  predicate OccursAt(s: string, sub: string, i: int) {
    0 <= i <= |s| - |sub| && s[i..i + |sub|] == sub
  }

  /** `Contains` holds exactly when `sub` occurs at some index of `s`. */
  lemma {:induction false} ContainsIffOccurs(s: string, sub: string)
    ensures Contains(s, sub) <==> exists i :: OccursAt(s, sub, i)
    decreases |s|
  {
    if StartsWith(s, sub) {
      assert OccursAt(s, sub, 0);
    } else if |s| > 0 {
      ContainsIffOccurs(s[1..], sub);
      if exists i :: OccursAt(s, sub, i) {
        var i :| OccursAt(s, sub, i);
        assert i != 0;
        assert OccursAt(s[1..], sub, i - 1);
      }
      if Contains(s[1..], sub) {
        var i :| OccursAt(s[1..], sub, i);
        assert OccursAt(s, sub, i + 1);
      }
    } else {
      assert |sub| > 0;
    }
  }

  /** No character of `s` belongs to `chars`. */
  predicate Free(s: string, chars: set<char>) {
    forall i :: 0 <= i < |s| ==> s[i] !in chars
  }

  /** Python's `sep.join(parts)` and JavaScript's `parts.join(sep)`. */
  function Join(parts: seq<string>, sep: string): string {
    if |parts| == 0 then ""
    else if |parts| == 1 then parts[0]
    else parts[0] + sep + Join(parts[1..], sep)
  }

  /** Concatenation of all `parts`, in order. */
  function Concat(parts: seq<string>): string {
    if |parts| == 0 then "" else parts[0] + Concat(parts[1..])
  }

  lemma ConcatAppend(parts: seq<string>, last: string)
    ensures Concat(parts + [last]) == Concat(parts) + last
  {
    if |parts| > 0 {
      assert (parts + [last])[1..] == parts[1..] + [last];
    }
  }

  /** Gluing a prefix onto the first piece of a join glues it onto the whole join. */
  lemma JoinGlueFirst(a: string, parts: seq<string>, sep: string)
    requires |parts| >= 1
    ensures Join([a + parts[0]] + parts[1..], sep) == a + Join(parts, sep)
  {
    var glued := [a + parts[0]] + parts[1..];
    if |parts| > 1 {
      assert glued[1..] == parts[1..];
    }
  }

  /**
   The pieces of `s` between separator characters, in order, the empty pieces
   included (JavaScript's `s.split(c)` when `seps == {c}`). There is always at
   least one piece, and no piece contains a separator.
   */
  function SplitAny(s: string, seps: set<char>): (pieces: seq<string>)
    ensures |pieces| >= 1
    ensures forall k :: 0 <= k < |pieces| ==> Free(pieces[k], seps)
    decreases |s|
  {
    if |s| == 0 then [""]
    else
      var rest := SplitAny(s[1..], seps);
      if s[0] in seps then [""] + rest else [[s[0]] + rest[0]] + rest[1..]
  }

  /** Splitting on one character and joining with that character gives back the text. */
  lemma {:induction false} SplitThenJoin(s: string, c: char)
    ensures Join(SplitAny(s, {c}), [c]) == s
    decreases |s|
  {
    if |s| > 0 {
      var rest := SplitAny(s[1..], {c});
      SplitThenJoin(s[1..], c);
      if s[0] == c {
        assert ([""] + rest)[1..] == rest;
        assert s == [c] + s[1..];
      } else {
        JoinGlueFirst([s[0]], rest, [c]);
        assert s == [s[0]] + s[1..];
      }
    }
  }

  lemma {:induction false} SplitFreePiece(a: string, seps: set<char>)
    requires Free(a, seps)
    ensures SplitAny(a, seps) == [a]
    decreases |a|
  {
    if |a| > 0 {
      SplitFreePiece(a[1..], seps);
      assert [a[0]] + a[1..] == a;
    }
  }

  lemma {:induction false} SplitAtSeparator(a: string, c: char, t: string, seps: set<char>)
    requires Free(a, seps) && c in seps
    ensures SplitAny(a + [c] + t, seps) == [a] + SplitAny(t, seps)
    decreases |a|
  {
    var s := a + [c] + t;
    if |a| == 0 {
      assert s[1..] == t;
    } else {
      assert s[1..] == a[1..] + [c] + t;
      SplitAtSeparator(a[1..], c, t, seps);
      assert [a[0]] + a[1..] == a;
    }
  }

  /** Joining separator-free pieces with a separator and splitting again gives back the pieces. */
  lemma {:induction false} JoinThenSplit(parts: seq<string>, c: char, seps: set<char>)
    requires |parts| >= 1 && c in seps
    requires forall k :: 0 <= k < |parts| ==> Free(parts[k], seps)
    ensures SplitAny(Join(parts, [c]), seps) == parts
    decreases |parts|
  {
    if |parts| == 1 {
      SplitFreePiece(parts[0], seps);
    } else {
      JoinThenSplit(parts[1..], c, seps);
      assert Join(parts, [c]) == parts[0] + [c] + Join(parts[1..], [c]);
      SplitAtSeparator(parts[0], c, Join(parts[1..], [c]), seps);
      assert [parts[0]] + parts[1..] == parts;
    }
  }

  /**
   The pieces of `s` between non-overlapping occurrences of `sep`, found from
   left to right, the empty pieces included (JavaScript's `s.split(sep)`).
   */
  function SplitOn(s: string, sep: string): (pieces: seq<string>)
    requires |sep| > 0
    ensures |pieces| >= 1
    decreases |s|
  {
    if |s| < |sep| then [s]
    else if s[..|sep|] == sep then [""] + SplitOn(s[|sep|..], sep)
    else
      var rest := SplitOn(s[1..], sep);
      [[s[0]] + rest[0]] + rest[1..]
  }

  /** Joining the pieces with the separator gives back the text. */
  lemma {:induction false} SplitOnThenJoin(s: string, sep: string)
    requires |sep| > 0
    ensures Join(SplitOn(s, sep), sep) == s
    decreases |s|
  {
    if |s| < |sep| {
    } else if s[..|sep|] == sep {
      var rest := SplitOn(s[|sep|..], sep);
      SplitOnThenJoin(s[|sep|..], sep);
      assert ([""] + rest)[1..] == rest;
      assert s == s[..|sep|] + s[|sep|..];
    } else {
      var rest := SplitOn(s[1..], sep);
      SplitOnThenJoin(s[1..], sep);
      JoinGlueFirst([s[0]], rest, sep);
      assert s == [s[0]] + s[1..];
    }
  }

  /** Text without the separator's first character is a single piece. */
  lemma {:induction false} SplitOnWhole(p: string, sep: string)
    requires |sep| > 0 && Free(p, {sep[0]})
    ensures SplitOn(p, sep) == [p]
    decreases |p|
  {
    if |p| >= |sep| {
      assert p[..|sep|][0] == p[0];
      SplitOnWhole(p[1..], sep);
      assert [p[0]] + p[1..] == p;
    }
  }

  /** A leading piece that cannot start a separator is cut off at the first separator. */
  lemma {:induction false} SplitOnFirstPiece(p: string, sep: string, t: string)
    requires |sep| > 0 && Free(p, {sep[0]})
    ensures SplitOn(p + sep + t, sep) == [p] + SplitOn(t, sep)
    decreases |p|
  {
    var s := p + sep + t;
    if |p| == 0 {
      assert s[..|sep|] == sep;
      assert s[|sep|..] == t;
    } else {
      assert s[..|sep|][0] == p[0];
      assert s[1..] == p[1..] + sep + t;
      SplitOnFirstPiece(p[1..], sep, t);
      assert [p[0]] + p[1..] == p;
    }
  }

  /** Python's `str.isspace()` for one character (the set `str.strip()` removes). */
  predicate IsPyWhitespace(c: char) {
    || ('\t' <= c <= '\r')
    || ('\U{1c}' <= c <= '\U{1f}')
    || c == ' ' || c == '\U{85}' || c == '\U{a0}' || c == '\U{1680}'
    || ('\U{2000}' <= c <= '\U{200a}')
    || c == '\U{2028}' || c == '\U{2029}' || c == '\U{202f}' || c == '\U{205f}' || c == '\U{3000}'
  }

  /** The characters JavaScript's `String.prototype.trim` removes. */
  predicate IsJsWhitespace(c: char) {
    || ('\t' <= c <= '\r')
    || c == ' ' || c == '\U{a0}' || c == '\U{1680}'
    || ('\U{2000}' <= c <= '\U{200a}')
    || c == '\U{2028}' || c == '\U{2029}' || c == '\U{202f}' || c == '\U{205f}' || c == '\U{3000}'
    || c == '\U{feff}'
  }

  /** `s.trim()` is the empty string in JavaScript. */
  predicate IsBlankJs(s: string) {
    forall i :: 0 <= i < |s| ==> IsJsWhitespace(s[i])
  }

  function StripStart(s: string): (r: string)
    ensures |r| <= |s| && r == s[|s| - |r|..]
    ensures forall i :: 0 <= i < |s| - |r| ==> IsPyWhitespace(s[i])
    ensures |r| > 0 ==> !IsPyWhitespace(r[0])
    decreases |s|
  {
    if |s| > 0 && IsPyWhitespace(s[0]) then StripStart(s[1..]) else s
  }

  function StripEnd(s: string): (r: string)
    ensures |r| <= |s| && r == s[..|r|]
    ensures forall i :: |r| <= i < |s| ==> IsPyWhitespace(s[i])
    ensures |r| > 0 ==> !IsPyWhitespace(r[|r| - 1])
    decreases |s|
  {
    if |s| > 0 && IsPyWhitespace(s[|s| - 1]) then StripEnd(s[..|s| - 1]) else s
  }

  /**
   Python's `s.strip()`: `s` without its leading and trailing whitespace. What
   remains sits right after the leading whitespace, with only whitespace
   around it, and neither starts nor ends with whitespace.
   */
  function Strip(s: string): (r: string)
    ensures |r| <= |s|
    ensures |r| > 0 ==> !IsPyWhitespace(r[0]) && !IsPyWhitespace(r[|r| - 1])
    ensures TrimmedAt(s, r, |s| - |StripStart(s)|)
  {
    StripTrimmed(s);
    StripEnd(StripStart(s))
  }

  /** Stripping the start, then the end, leaves a slice with only whitespace around it. */
  lemma StripTrimmed(s: string)
    ensures TrimmedAt(s, StripEnd(StripStart(s)), |s| - |StripStart(s)|)
  {
    var t := StripStart(s);
    var r := StripEnd(t);
    var a := |s| - |t|;
    assert s[a..a + |r|] == t[..|r|];
    assert OccursAt(s, r, a);
    assert forall i :: 0 <= i < a ==> IsPyWhitespace(s[i]);
    forall i | a + |r| <= i < |s| ensures IsPyWhitespace(s[i]) {
      assert s[i] == t[i - a];
    }
  }

  /** `r` sits at index `a` of `s`, with only whitespace before and after it. */
  predicate TrimmedAt(s: string, r: string, a: int) {
    && OccursAt(s, r, a)
    && (forall i :: 0 <= i < a ==> IsPyWhitespace(s[i]))
    && (forall i :: a + |r| <= i < |s| ==> IsPyWhitespace(s[i]))
  }

  /**
   What `strip()` returns is a slice of its argument, and only whitespace
   lies outside it: nothing but leading and trailing whitespace is removed.
   */
  lemma StripIsSlice(s: string)
    ensures exists a :: TrimmedAt(s, Strip(s), a)
  {
    assert TrimmedAt(s, Strip(s), |s| - |StripStart(s)|);
  }

  /** Stripping twice strips nothing more. */
  lemma StripIdempotent(s: string)
    ensures Strip(Strip(s)) == Strip(s)
  {
    var r := Strip(s);
    assert StripStart(r) == r;
    assert StripEnd(r) == r;
  }

  /** Stripping a string free of some characters leaves it free of them. */
  lemma StripKeepsFree(s: string, chars: set<char>)
    requires Free(s, chars)
    ensures Free(Strip(s), chars)
  {
    var r := Strip(s);
    StripIsSlice(s);
    var a :| TrimmedAt(s, r, a);
    forall i | 0 <= i < |r| ensures r[i] !in chars {
      assert r[i] == s[a + i];
    }
  }

  predicate IsAsciiDigit(c: char) {
    '0' <= c <= '9'
  }

  /** The whole of `s` is one or more ASCII digits (the regular expression `^\d+$`, ASCII digits only). */
  predicate AllDigits(s: string) {
    |s| > 0 && forall i :: 0 <= i < |s| ==> IsAsciiDigit(s[i])
  }

  /** `c` lower-cased when it is an ASCII capital letter. */
  function AsciiLower(c: char): (d: char)
    ensures 'A' <= c <= 'Z' ==> 'a' <= d <= 'z' && d as int == c as int + 32
    ensures !('A' <= c <= 'Z') ==> d == c
  {
    if 'A' <= c <= 'Z' then (c as int + 32) as char else c
  }

  /** `s` with every ASCII capital lower-cased. */
  function Lower(s: string): (r: string)
    ensures |r| == |s|
    ensures forall i :: 0 <= i < |s| ==> r[i] == AsciiLower(s[i])
  {
    seq(|s|, i requires 0 <= i < |s| => AsciiLower(s[i]))
  }

  /** Python's `s.replace(from, to)` for single characters. */
  function ReplaceChar(s: string, from: char, to: char): (r: string)
    ensures |r| == |s|
    ensures forall i :: 0 <= i < |s| ==> r[i] == (if s[i] == from then to else s[i])
  {
    seq(|s|, i requires 0 <= i < |s| => if s[i] == from then to else s[i])
  }

  function DigitChar(d: nat): (c: char)
    requires d < 10
    ensures IsAsciiDigit(c) && c as int - '0' as int == d
  {
    (d + '0' as int) as char
  }

  /** Python's `str(n)` for a natural number: decimal, no leading zeros. */
  function NatToString(n: nat): (s: string)
    ensures |s| >= 1
    ensures forall i :: 0 <= i < |s| ==> IsAsciiDigit(s[i])
    ensures |s| > 1 ==> s[0] != '0'
  {
    if n < 10 then [DigitChar(n)] else NatToString(n / 10) + [DigitChar(n % 10)]
  }

  /** The number a string of decimal digits denotes. */
  function DigitsValue(s: string): int
    requires forall i :: 0 <= i < |s| ==> IsAsciiDigit(s[i])
  {
    if |s| == 0 then 0
    else 10 * DigitsValue(s[..|s| - 1]) + (s[|s| - 1] as int - '0' as int)
  }

  /** Reading the rendering back gives the number: the rendering loses nothing. */
  lemma {:induction false} NatToStringRoundTrip(n: nat)
    ensures DigitsValue(NatToString(n)) == n
  {
    if n >= 10 {
      var s := NatToString(n);
      NatToStringRoundTrip(n / 10);
      assert s[..|s| - 1] == NatToString(n / 10);
    }
  }
}
