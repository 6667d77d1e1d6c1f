/** Character and string primitives of Python and JavaScript that the search
    back end (app.py) and the page script (static/script.js) rely on, stated
    over Dafny strings (sequences of Unicode scalar values). */
module Text {
  import opened Options

  // ---------------------------------------------------------------------------
  // Whitespace, stripping and case

  /** Python's `str.isspace()`: the characters `str.strip()` removes. */
  predicate IsPySpace(c: char) {
    || c == ' ' || ('\t' <= c <= '\r') || ('\U{1C}' <= c <= '\U{1F}')
    || c == '\U{85}' || c == '\U{A0}' || c == '\U{1680}' || ('\U{2000}' <= c <= '\U{200A}')
    || c == '\U{2028}' || c == '\U{2029}' || c == '\U{202F}' || c == '\U{205F}' || c == '\U{3000}'
  }

  /** ECMAScript WhiteSpace and LineTerminator: the characters `String.prototype.trim`
      and `parseInt` skip. Unlike Python it includes U+FEFF and excludes U+001C..U+001F and U+0085. */
  predicate IsJsSpace(c: char) {
    || c == ' ' || ('\t' <= c <= '\r') || c == '\U{A0}' || c == '\U{1680}'
    || ('\U{2000}' <= c <= '\U{200A}') || c == '\U{2028}' || c == '\U{2029}'
    || c == '\U{202F}' || c == '\U{205F}' || c == '\U{3000}' || c == '\U{FEFF}'
  }

  /** `s` without its leading `space` characters. */
  function TrimStart(s: string, space: char -> bool): string {
    if s != [] && space(s[0]) then TrimStart(s[1..], space) else s
  }

  /** `s` without its trailing `space` characters. */
  function TrimEnd(s: string, space: char -> bool): string {
    if s != [] && space(s[|s| - 1]) then TrimEnd(s[..|s| - 1], space) else s
  }

  /** `s` without leading and trailing `space` characters. */
  function Strip(s: string, space: char -> bool): string {
    TrimEnd(TrimStart(s, space), space)
  }

  lemma {:induction false} TrimStartFacts(s: string, space: char -> bool)
    ensures var r := TrimStart(s, space);
      && |r| <= |s| && r == s[|s| - |r|..]
      && (r != [] ==> !space(r[0]))
      && (forall i :: 0 <= i < |s| - |r| ==> space(s[i]))
  {
    if s != [] && space(s[0]) {
      TrimStartFacts(s[1..], space);
    }
  }

  lemma {:induction false} TrimEndFacts(s: string, space: char -> bool)
    ensures var r := TrimEnd(s, space);
      && |r| <= |s| && r == s[..|r|]
      && (r != [] ==> !space(r[|r| - 1]))
      && (forall i :: |r| <= i < |s| ==> space(s[i]))
  {
    if s != [] && space(s[|s| - 1]) {
      TrimEndFacts(s[..|s| - 1], space);
    }
  }

  /** Stripping keeps the longest slice of `s` that neither starts nor ends with a
      `space` character, and leaves nothing exactly when `s` is all spaces. */
  lemma StripFacts(s: string, space: char -> bool)
    ensures var r := Strip(s, space);
      && Contains(s, r)
      && (r != [] ==> !space(r[0]) && !space(r[|r| - 1]))
      && (r == [] <==> forall i :: 0 <= i < |s| ==> space(s[i]))
      && exists i, j :: StrippedAt(s, r, space, i, j)
  {
    var t := TrimStart(s, space);
    TrimStartFacts(s, space);
    TrimEndFacts(t, space);
    var r := TrimEnd(t, space);
    assert r <= s[|s| - |t|..];
    var i := |s| - |t|;
    var j := i + |r|;
    assert r == s[i..j];
    forall k | j <= k < |s|
      ensures space(s[k])
    {
      assert s[k] == t[k - i];
    }
    assert StrippedAt(s, r, space, i, j);
  }

  /** `r` is the slice `s[i..j]` and everything of `s` around it is a `space` character. */
  predicate StrippedAt(s: string, r: string, space: char -> bool, i: int, j: int) {
    && 0 <= i <= j <= |s| && r == s[i..j]
    && (forall k :: 0 <= k < i ==> space(s[k]))
    && (forall k :: j <= k < |s| ==> space(s[k]))
  }

  /** Python's `str.strip()`. */
  function PyStrip(s: string): string {
    Strip(s, IsPySpace)
  }

  /** JavaScript's `String.prototype.trim()`. */
  function JsTrim(s: string): string {
    Strip(s, IsJsSpace)
  }

  /** Lower-casing of one character, restricted to the ASCII letters. */
  function LowerChar(c: char): char {
    if 'A' <= c <= 'Z' then (c as int + 32) as char else c
  }

  /** `str.lower()`, restricted to the ASCII letters. */
  function Lower(s: string): (r: string)
    ensures |r| == |s|
    ensures forall i :: 0 <= i < |s| ==> r[i] == LowerChar(s[i])
  {
    seq(|s|, i requires 0 <= i < |s| => LowerChar(s[i]))
  }

  lemma LowerAppend(a: string, b: string)
    ensures Lower(a + b) == Lower(a) + Lower(b)
  {
    assert forall i :: 0 <= i < |a + b| ==> Lower(a + b)[i] == (Lower(a) + Lower(b))[i];
  }

  /** Lower-casing keeps the spaces of a string and makes no new ones. */
  lemma LowerKeepsSpaces(s: string)
    ensures ' ' in Lower(s) <==> ' ' in s
  {
    if ' ' in Lower(s) {
      var i :| 0 <= i < |s| && Lower(s)[i] == ' ';
      assert s[i] == ' ';
    }
    if ' ' in s {
      var i :| 0 <= i < |s| && s[i] == ' ';
      assert Lower(s)[i] == ' ';
    }
  }

  /** Lower-casing never turns a character into whitespace or whitespace into something else,
      so lower-casing a stripped string leaves nothing more to strip. */
  lemma {:induction false} StripOfLowerStripped(s: string)
    ensures PyStrip(Lower(PyStrip(s))) == Lower(PyStrip(s))
  {
    StripFacts(s, IsPySpace);
    var t := Lower(PyStrip(s));
    if t != [] {
      assert !IsPySpace(t[0]) && !IsPySpace(t[|t| - 1]);
      assert TrimStart(t, IsPySpace) == t;
      assert TrimEnd(t, IsPySpace) == t;
    }
  }

  // ---------------------------------------------------------------------------
  // Substrings and replacement

  /** Substring test: Python's `p in s`, JavaScript's `s.includes(p)`. */
  predicate Contains(s: string, p: string) {
    exists i :: 0 <= i <= |s| && p <= s[i..]
  }

  /** The first position at or after `k` where `p` occurs in `s`. */
  function IndexFrom(s: string, p: string, k: nat): (r: Option<nat>)
    requires k <= |s|
    decreases |s| - k
    ensures r.Some? ==> k <= r.value <= |s| && p <= s[r.value..]
    ensures r.Some? ==> forall j :: k <= j < r.value ==> !(p <= s[j..])
    ensures r.None? ==> forall j :: k <= j <= |s| ==> !(p <= s[j..])
  {
    if p <= s[k..] then Some(k)
    else if k == |s| then None
    else IndexFrom(s, p, k + 1)
  }

  /** JavaScript's `s.indexOf(p)`, with `None` for -1. */
  function IndexOf(s: string, p: string): (r: Option<nat>)
    ensures r.None? <==> !Contains(s, p)
    ensures r.Some? ==> r.value + |p| <= |s| && s[r.value..r.value + |p|] == p
    ensures r.Some? ==> forall j :: 0 <= j < r.value ==> !(p <= s[j..])
  {
    IndexFrom(s, p, 0)
  }

  /** JavaScript's `s.replace(p, rep)` with a string pattern: only the FIRST occurrence
      of `p` is replaced, wherever it stands; without one, `s` is returned unchanged. */
  function ReplaceFirst(s: string, p: string, rep: string): string {
    match IndexOf(s, p)
    case None => s
    case Some(i) => s[..i] + rep + s[i + |p|..]
  }

  /** Without an occurrence nothing changes; an occurrence at the start is the one
      replaced; otherwise some occurrence is replaced by `rep`. */
  lemma ReplaceFirstFacts(s: string, p: string, rep: string)
    ensures var r := ReplaceFirst(s, p, rep);
      && (!Contains(s, p) ==> r == s)
      && (p <= s ==> r == rep + s[|p|..])
      && (Contains(s, p) ==> exists i :: 0 <= i <= |s| - |p| && s[i..i + |p|] == p && r == s[..i] + rep + s[i + |p|..])
  {
  }

  /** A pattern whose first character does not occur in `a` can only occur in `a + x`
      where it already occurs in `x`. */
  lemma NotContainsAfterPrefix(a: string, x: string, p: string)
    requires p != [] && p[0] !in a
    requires !Contains(x, p)
    ensures !Contains(a + x, p)
  {
    forall i | 0 <= i <= |a + x|
      ensures !(p <= (a + x)[i..])
    {
      if i < |a| {
        assert (a + x)[i] == a[i];
      } else {
        assert (a + x)[i..] == x[i - |a|..];
      }
    }
  }

  /** A pattern without a space that occurs in `a + " " + b` occurs in `a` or in `b`. */
  lemma {:induction false} ContainsAcrossSpace(a: string, b: string, p: string)
    requires ' ' !in p
    requires Contains(a + " " + b, p)
    ensures Contains(a, p) || Contains(b, p)
  {
    var s := a + " " + b;
    var i :| 0 <= i <= |s| && p <= s[i..];
    if i + |p| <= |a| {
      assert p <= a[i..];
    } else if i > |a| {
      assert s[i..] == b[i - |a| - 1..];
      assert p <= b[i - |a| - 1..];
    } else {
      SliceAt(s, i, p, |a|);
      assert false;
    }
  }

  /** Where `p` occurs at `i` in `s`, its character `k - i` is the character `k` of `s`. */
  lemma SliceAt(s: string, i: nat, p: string, k: nat)
    requires i <= |s| && p <= s[i..]
    requires i <= k < i + |p|
    ensures p[k - i] == s[k]
  {
  }

  /** A substring of `a` or of `b` is a substring of `a + " " + b`. */
  lemma ContainsInJoin(a: string, b: string, p: string)
    requires Contains(a, p) || Contains(b, p)
    ensures Contains(a + " " + b, p)
  {
    var s := a + " " + b;
    if Contains(a, p) {
      var i :| 0 <= i <= |a| && p <= a[i..];
      assert s[i..] == a[i..] + " " + b;
      assert p <= s[i..];
    } else {
      var i :| 0 <= i <= |b| && p <= b[i..];
      assert s[|a| + 1 + i..] == b[i..];
      assert p <= s[|a| + 1 + i..];
    }
  }

  // ---------------------------------------------------------------------------
  // Digits and integers

  predicate IsDigit(c: char) {
    '0' <= c <= '9'
  }

  predicate AllDigits(s: string) {
    forall i :: 0 <= i < |s| ==> IsDigit(s[i])
  }

  /** The value of a run of ASCII decimal digits. */
  function DigitsValue(d: string): nat
    requires AllDigits(d)
  {
    if d == [] then 0 else DigitsValue(d[..|d| - 1]) * 10 + (d[|d| - 1] as int - '0' as int)
  }

  /** The longest prefix of `s` made of decimal digits. */
  function DigitPrefix(s: string): (r: string)
    ensures r <= s && AllDigits(r)
    ensures |r| < |s| ==> !IsDigit(s[|r|])
  {
    if s != [] && IsDigit(s[0]) then [s[0]] + DigitPrefix(s[1..]) else []
  }

  /** `d` occurs in `s` at `i`, no digit comes before it and no digit right after it. */
  predicate RunAt(s: string, d: string, i: int) {
    && 0 <= i <= |s| && d <= s[i..]
    && (forall j :: 0 <= j < i ==> !IsDigit(s[j]))
    && (i + |d| < |s| ==> !IsDigit(s[i + |d|]))
  }

  /** The first element of Python's `re.findall(r'\d+', s)`: the first maximal run of
      decimal digits, or `None` when `s` has no digit. */
  function FirstDigitRun(s: string): (r: Option<string>)
    ensures r.None? <==> forall i :: 0 <= i < |s| ==> !IsDigit(s[i])
    ensures r.Some? ==> r.value != [] && AllDigits(r.value)
    ensures r.Some? ==> exists i :: RunAt(s, r.value, i)
  {
    if s == [] then None
    else if IsDigit(s[0]) then
      var d := DigitPrefix(s);
      assert RunAt(s, d, 0);
      Some(d)
    else
      var r := FirstDigitRun(s[1..]);
      FirstDigitRunShift(s, r);
      r
  }

  /** The first digit run of `s[1..]` is that of `s` when `s[0]` is not a digit. */
  lemma FirstDigitRunShift(s: string, r: Option<string>)
    requires s != [] && !IsDigit(s[0])
    requires r.Some? ==> exists i :: RunAt(s[1..], r.value, i)
    ensures r.Some? ==> exists i :: RunAt(s, r.value, i)
  {
    if r.Some? {
      var i :| RunAt(s[1..], r.value, i);
      assert s[1..][i..] == s[i + 1..];
      forall j | 0 <= j < i + 1
        ensures !IsDigit(s[j])
      {
        if j > 0 { assert s[j] == s[1..][j - 1]; }
      }
      assert RunAt(s, r.value, i + 1);
    }
  }

  function DigitChar(n: nat): char
    requires n < 10
  {
    ('0' as int + n) as char
  }

  /** Python's `str(n)` and JavaScript's `String(n)` for a natural number. */
  function NatToString(n: nat): (r: string)
    ensures r != [] && AllDigits(r)
    ensures DigitsValue(r) == n
    ensures |r| > 1 ==> r[0] != '0'
  {
    if n < 10 then [DigitChar(n)]
    else
      var r := NatToString(n / 10) + [DigitChar(n % 10)];
      assert r[..|r| - 1] == NatToString(n / 10);
      r
  }

  /** Python's `int(s)` on a string: surrounding whitespace, an optional sign and at
      least one decimal digit; anything else raises `ValueError` (here `None`). */
  function PyInt(s: string): Option<int> {
    var t := PyStrip(s);
    if t != [] && (t[0] == '+' || t[0] == '-') then
      if |t| > 1 && AllDigits(t[1..]) then
        Some(if t[0] == '-' then -(DigitsValue(t[1..]) as int) else DigitsValue(t[1..]))
      else None
    else if t != [] && AllDigits(t) then Some(DigitsValue(t))
    else None
  }

  lemma DigitIsNotSpace(c: char)
    requires IsDigit(c)
    ensures !IsPySpace(c) && !IsJsSpace(c) && c != '+' && c != '-'
  {
  }

  /** Within the digit limit, `int()` reads a run of digits as its decimal value, so the
      target of a stock search parses. */
  lemma PyIntOfDigits(d: string)
    requires d != [] && AllDigits(d)
    ensures PyInt(d) == Some(DigitsValue(d))
  {
    DigitIsNotSpace(d[0]);
    DigitIsNotSpace(d[|d| - 1]);
    assert !IsPySpace(d[0]) && !IsPySpace(d[|d| - 1]);
    assert TrimStart(d, IsPySpace) == d;
    assert TrimEnd(d, IsPySpace) == d;
  }

  /** Characters without a digit in front of `s` do not change its first digit run. */
  lemma {:induction false} FirstDigitRunAfter(p: string, s: string)
    requires forall i :: 0 <= i < |p| ==> !IsDigit(p[i])
    ensures FirstDigitRun(p + s) == FirstDigitRun(s)
  {
    if p != [] {
      assert (p + s)[1..] == p[1..] + s;
      FirstDigitRunAfter(p[1..], s);
    } else {
      assert p + s == s;
    }
  }

  /** A digit run followed by a non-digit is the first digit run. */
  lemma FirstDigitRunOf(d: string, rest: string)
    requires d != [] && AllDigits(d)
    requires rest != [] ==> !IsDigit(rest[0])
    ensures FirstDigitRun(d + rest) == Some(d)
  {
    assert (d + rest)[0] == d[0];
    DigitPrefixOf(d, rest);
  }

  /** Round trip: `int(str(n)) == n`. */
  lemma PyIntOfNatToString(n: nat)
    ensures PyInt(NatToString(n)) == Some(n)
  {
    PyIntOfDigits(NatToString(n));
  }

  predicate IsHexDigit(c: char) {
    IsDigit(c) || ('a' <= c <= 'f') || ('A' <= c <= 'F')
  }

  predicate AllHexDigits(s: string) {
    forall i :: 0 <= i < |s| ==> IsHexDigit(s[i])
  }

  function HexDigitValue(c: char): nat
    requires IsHexDigit(c)
  {
    if IsDigit(c) then c as int - '0' as int
    else if 'a' <= c <= 'f' then c as int - 'a' as int + 10
    else c as int - 'A' as int + 10
  }

  function HexValue(h: string): nat
    requires AllHexDigits(h)
  {
    if h == [] then 0 else HexValue(h[..|h| - 1]) * 16 + HexDigitValue(h[|h| - 1])
  }

  /** The longest prefix of `s` made of hexadecimal digits. */
  function HexPrefix(s: string): (r: string)
    ensures r <= s && AllHexDigits(r)
  {
    if s != [] && IsHexDigit(s[0]) then [s[0]] + HexPrefix(s[1..]) else []
  }

  /** JavaScript's `parseInt(s)` without a radix, `None` standing for `NaN`: skip leading
      whitespace, take an optional sign, read hexadecimal after `0x`/`0X` and decimal
      otherwise, and stop at the first character that is not a digit. */
  function JsParseInt(s: string): Option<int> {
    var t := TrimStart(s, IsJsSpace);
    var negative := t != [] && t[0] == '-';
    var u := if t != [] && (t[0] == '-' || t[0] == '+') then t[1..] else t;
    if |u| >= 2 && u[0] == '0' && (u[1] == 'x' || u[1] == 'X') then
      var h := HexPrefix(u[2..]);
      if h == [] then None else Some(if negative then -(HexValue(h) as int) else HexValue(h))
    else
      var d := DigitPrefix(u);
      if d == [] then None else Some(if negative then -(DigitsValue(d) as int) else DigitsValue(d))
  }

  /** `parseInt` reads the leading digit run and ignores what follows it, unless the run
      is a single `0` followed by `x` or `X`. */
  lemma JsParseIntDigitsThen(d: string, rest: string)
    requires d != [] && AllDigits(d)
    requires rest != [] ==> !IsDigit(rest[0])
    requires |d| == 1 && d[0] == '0' ==> rest == [] || (rest[0] != 'x' && rest[0] != 'X')
    ensures JsParseInt(d + rest) == Some(DigitsValue(d))
  {
    var s := d + rest;
    assert s[0] == d[0];
    assert !(|s| >= 2 && s[0] == '0' && (s[1] == 'x' || s[1] == 'X')) by {
      if |d| >= 2 {
        assert s[1] == d[1];
      } else if rest != [] {
        assert s[1] == rest[0];
      }
    }
    JsParseIntDecimal(s);
    DigitPrefixOf(d, rest);
  }

  /** A text starting with a digit and not with `0x` is read as its leading digit run. */
  lemma JsParseIntDecimal(s: string)
    requires s != [] && IsDigit(s[0])
    requires !(|s| >= 2 && s[0] == '0' && (s[1] == 'x' || s[1] == 'X'))
    ensures DigitPrefix(s) != [] && JsParseInt(s) == Some(DigitsValue(DigitPrefix(s)))
  {
    DigitIsNotSpace(s[0]);
    assert TrimStart(s, IsJsSpace) == s;
  }

  lemma {:induction false} DigitPrefixOf(d: string, rest: string)
    requires AllDigits(d)
    requires rest != [] ==> !IsDigit(rest[0])
    ensures DigitPrefix(d + rest) == d
  {
    if d != [] {
      assert (d + rest)[1..] == d[1..] + rest;
      DigitPrefixOf(d[1..], rest);
    } else {
      assert d + rest == rest;
    }
  }

  /** Round trip: `parseInt(String(n)) == n`. */
  lemma JsParseIntOfNatToString(n: nat)
    ensures JsParseInt(NatToString(n)) == Some(n)
  {
    JsParseIntDigitsThen(NatToString(n), []);
    assert NatToString(n) + [] == NatToString(n);
  }

  // ---------------------------------------------------------------------------
  // Lengths and joining

  /** The positions of `s` holding a character outside the Basic Multilingual Plane. */
  function AstralPositions(s: string): set<nat> {
    set i: nat | i < |s| && s[i] as int > 0xFFFF
  }

  /** The positions `0 .. n - 1`. */
  function Positions(n: nat): (r: set<nat>)
    ensures |r| == n
    ensures forall i: nat :: i in r <==> i < n
  {
    if n == 0 then {} else Positions(n - 1) + {n - 1}
  }

  /** JavaScript's `s.length`: UTF-16 code units, two for a character outside the
      Basic Multilingual Plane. */
  function Utf16Length(s: string): nat {
    |s| + |AstralPositions(s)|
  }

  /** A string has at least one and at most two code units per character, and exactly one
      per character when it has no character outside the Basic Multilingual Plane. */
  lemma Utf16LengthBounds(s: string)
    ensures |s| <= Utf16Length(s) <= 2 * |s|
    ensures Utf16Length(s) == |s| <==> forall i :: 0 <= i < |s| ==> s[i] as int <= 0xFFFF
  {
    var p := Positions(|s|);
    assert AstralPositions(s) <= p;
    SubsetCardinality(AstralPositions(s), p);
    if exists i :: 0 <= i < |s| && s[i] as int > 0xFFFF {
      var i :| 0 <= i < |s| && s[i] as int > 0xFFFF;
      assert i in AstralPositions(s);
    }
  }

  lemma {:induction false} SubsetCardinality(a: set<nat>, b: set<nat>)
    requires a <= b
    ensures |a| <= |b|
    decreases |b|
  {
    if b != {} {
      var x :| x in b;
      SubsetCardinality(a - {x}, b - {x});
    }
  }

  /** JavaScript's `parts.join(sep)`. */
  function Join(parts: seq<string>, sep: string): string {
    if parts == [] then ""
    else if |parts| == 1 then parts[0]
    else parts[0] + sep + Join(parts[1..], sep)
  }
}
