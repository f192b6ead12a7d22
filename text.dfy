/**
 * The string operations of Python's `str` that the engine relies on:
 * `strip`, `split`, `splitlines`, `startswith`, `isdigit`, `int` and
 * `"".join`, each with the property that makes it what it is.
 */
module Text {

  /** The characters for which Python's `str.isspace` holds; `str.strip()` removes these. */
  const Whitespace: set<char> :=
    {' ', '\t', '\n', '\r', '\U{0B}', '\U{0C}', '\U{1C}', '\U{1D}', '\U{1E}', '\U{1F}',
     '\U{85}', '\U{A0}', '\U{1680}', '\U{2000}', '\U{2001}', '\U{2002}', '\U{2003}',
     '\U{2004}', '\U{2005}', '\U{2006}', '\U{2007}', '\U{2008}', '\U{2009}', '\U{200A}',
     '\U{2028}', '\U{2029}', '\U{202F}', '\U{205F}', '\U{3000}'}

  /** The characters that `str.splitlines` treats as line boundaries ("\r\n" counts once). */
  const LineBreaks: set<char> :=
    {'\n', '\r', '\U{0B}', '\U{0C}', '\U{1C}', '\U{1D}', '\U{1E}', '\U{85}', '\U{2028}', '\U{2029}'}

  /** The index of the first character of `s` that is in `cs`, or `|s|` when there is none. */
  function FirstIn(s: string, cs: set<char>): (i: nat)
    ensures i <= |s|
    ensures i < |s| ==> s[i] in cs
    ensures forall k :: 0 <= k < i ==> s[k] !in cs
    decreases |s|
  {
    if s == [] then 0
    else if s[0] in cs then 0
    else 1 + FirstIn(s[1..], cs)
  }

  /**
   * Only the first `cs` character matters: `FirstIn` is the index `i` when no
   * character before `i` is in `cs` and `s[i]` is (or `i == |s|`).
   */
  lemma {:induction false} FirstInIs(s: string, cs: set<char>, i: nat)
    requires i <= |s|
    requires forall k :: 0 <= k < i ==> s[k] !in cs
    requires i < |s| ==> s[i] in cs
    ensures FirstIn(s, cs) == i
    decreases |s|
  {
    if i > 0 {
      assert s[0] !in cs;
      FirstInIs(s[1..], cs, i - 1);
    }
  }

  /** The index of the first character of `s` at or after `i` that is not in `cs`, or `|s|`. */
  function SkipFrom(s: string, cs: set<char>, i: nat): (j: nat)
    requires i <= |s|
    ensures i <= j <= |s|
    ensures j < |s| ==> s[j] !in cs
    decreases |s| - i
  {
    if i < |s| && s[i] in cs then SkipFrom(s, cs, i + 1) else i
  }

  /** The index just after the last character of `s[lo..j]` that is not in `cs`, or `lo`. */
  function SkipBackFrom(s: string, cs: set<char>, lo: nat, j: nat): (r: nat)
    requires lo <= j <= |s|
    ensures lo <= r <= j
    ensures lo < r ==> s[r - 1] !in cs
    decreases j
  {
    if lo < j && s[j - 1] in cs then SkipBackFrom(s, cs, lo, j - 1) else j
  }

  /** `SkipFrom` stops at the first character that is not in `cs`. */
  lemma {:induction false} SkipFromIs(s: string, cs: set<char>, i: nat, j: nat)
    requires i <= j <= |s|
    requires forall k :: i <= k < j ==> s[k] in cs
    requires j < |s| ==> s[j] !in cs
    ensures SkipFrom(s, cs, i) == j
    decreases j - i
  {
    if i < j {
      SkipFromIs(s, cs, i + 1, j);
    }
  }

  /** `SkipBackFrom` stops just after the last character that is not in `cs`. */
  lemma {:induction false} SkipBackFromIs(s: string, cs: set<char>, lo: nat, r: nat, j: nat)
    requires lo <= r <= j <= |s|
    requires forall k :: r <= k < j ==> s[k] in cs
    requires lo < r ==> s[r - 1] !in cs
    ensures SkipBackFrom(s, cs, lo, j) == r
    decreases j - r
  {
    if r < j {
      SkipBackFromIs(s, cs, lo, r, j - 1);
    }
  }

  /** `s.strip(cs)`: `s` without every leading and every trailing character of `cs`. */
  function Trim(s: string, cs: set<char>): (r: string)
    ensures |r| <= |s|
    ensures r == [] || (r[0] !in cs && r[|r| - 1] !in cs)
  {
    var i := SkipFrom(s, cs, 0);
    s[i..SkipBackFrom(s, cs, i, |s|)]
  }

  /**
   * What `strip` leaves: when `s[..i]` and `s[j..]` are made of `cs`
   * characters and `s[i..j]` neither starts nor ends with one, `strip` gives
   * `s[i..j]`; when every character is in `cs` it gives `""`.
   */
  lemma TrimIsInfix(s: string, cs: set<char>, i: nat, j: nat)
    requires i <= j <= |s|
    requires forall k :: 0 <= k < i ==> s[k] in cs
    requires forall k :: j <= k < |s| ==> s[k] in cs
    requires i < j ==> s[i] !in cs && s[j - 1] !in cs
    ensures Trim(s, cs) == s[i..j]
  {
    if i < j {
      SkipFromIs(s, cs, 0, i);
      SkipBackFromIs(s, cs, i, j, |s|);
    } else {
      SkipFromIs(s, cs, 0, |s|);
    }
  }

  /** `s.strip()`: `s` without leading and trailing whitespace. */
  function Strip(s: string): (r: string)
    ensures |r| <= |s|
    ensures r == [] || (r[0] !in Whitespace && r[|r| - 1] !in Whitespace)
  {
    Trim(s, Whitespace)
  }

  /** Stripping twice is stripping once. */
  lemma StripIsIdempotent(s: string)
    ensures Strip(Strip(s)) == Strip(s)
  {
    var r := Strip(s);
    assert r[0..|r|] == r;
    TrimIsInfix(r, Whitespace, 0, |r|);
  }

  /** `s.startswith(p)`. */
  predicate StartsWith(s: string, p: string)
  {
    |p| <= |s| && s[..|p|] == p
  }

  predicate IsDigit(c: char)
  {
    '0' <= c <= '9'
  }

  /** `s.isdigit()`, restricted to the ASCII digits: non-empty and digits only. */
  predicate IsDigits(s: string)
  {
    |s| > 0 && forall k :: 0 <= k < |s| ==> IsDigit(s[k])
  }

  /** `int(s)` for a string of decimal digits (leading zeros allowed). */
  function Decimal(s: string): (n: nat)
    requires forall k :: 0 <= k < |s| ==> IsDigit(s[k])
    decreases |s|
  {
    if s == [] then 0
    else
      assert IsDigit(s[|s| - 1]);
      10 * Decimal(s[..|s| - 1]) + (s[|s| - 1] as int - '0' as int)
  }

  /** `int` ignores leading zeros: `"01"` reads as `1`. */
  lemma {:induction false} DecimalIgnoresLeadingZero(s: string)
    requires forall k :: 0 <= k < |s| ==> IsDigit(s[k])
    ensures Decimal("0" + s) == Decimal(s)
    decreases |s|
  {
    if s != [] {
      var z := "0" + s;
      assert z[..|z| - 1] == "0" + s[..|s| - 1];
      assert z[|z| - 1] == s[|s| - 1];
      DecimalIgnoresLeadingZero(s[..|s| - 1]);
    }
  }

  /** `str(n)`: the decimal digits of `n`, without leading zeros. */
  function DigitsOf(n: nat): (s: string)
    ensures IsDigits(s)
    ensures |s| > 1 ==> s[0] != '0'
  {
    if n < 10 then [('0' as int + n) as char]
    else DigitsOf(n / 10) + [('0' as int + n % 10) as char]
  }

  /** `int(str(n)) == n`: the digit segment written for an index reads back as that index. */
  lemma {:induction false} DecimalOfDigitsOf(n: nat)
    ensures Decimal(DigitsOf(n)) == n
  {
    if n >= 10 {
      var s := DigitsOf(n);
      assert s[..|s| - 1] == DigitsOf(n / 10);
      DecimalOfDigitsOf(n / 10);
    }
  }

  /** `sep.join(parts)` for a one-character separator. */
  function Join(parts: seq<string>, sep: char): (s: string)
  {
    if parts == [] then ""
    else if |parts| == 1 then parts[0]
    else parts[0] + [sep] + Join(parts[1..], sep)
  }

  /** `"".join(parts)`. */
  function Concat(parts: seq<string>): (s: string)
  {
    if parts == [] then "" else parts[0] + Concat(parts[1..])
  }

  /**
   * `s.split(sep)`: the pieces of `s` between occurrences of `sep`. There is
   * always at least one piece, no piece contains `sep`, and joining the pieces
   * with `sep` gives `s` back.
   */
  function Split(s: string, sep: char): (parts: seq<string>)
    ensures |parts| >= 1
    ensures forall k :: 0 <= k < |parts| ==> sep !in parts[k]
    ensures Join(parts, sep) == s
    decreases |s|
  {
    var i := FirstIn(s, {sep});
    if i == |s| then
      [s]
    else
      var rest := Split(s[i + 1..], sep);
      assert s == s[..i] + [sep] + s[i + 1..];
      [s[..i]] + rest
  }

  /** Splitting the join of separator-free pieces gives the pieces back. */
  lemma {:induction false} SplitOfJoin(parts: seq<string>, sep: char)
    requires |parts| >= 1
    requires forall k :: 0 <= k < |parts| ==> sep !in parts[k]
    ensures Split(Join(parts, sep), sep) == parts
  {
    var s := Join(parts, sep);
    var p0 := parts[0];
    if |parts| == 1 {
      FirstInIs(s, {sep}, |s|);
    } else {
      var tail := Join(parts[1..], sep);
      assert s == p0 + [sep] + tail;
      assert s[..|p0|] == p0 && s[|p0|] == sep && s[|p0| + 1..] == tail;
      FirstInIs(s, {sep}, |p0|);
      SplitOfJoin(parts[1..], sep);
    }
  }

  /**
   * `t.splitlines()`: the lines of `t`, without their terminators. A terminator
   * at the very end does not open an empty last line, and "\r\n" ends one line.
   */
  function SplitLines(t: string): (lines: seq<string>)
    ensures forall k, c :: 0 <= k < |lines| && c in lines[k] ==> c !in LineBreaks
    ensures t == [] <==> lines == []
    decreases |t|
  {
    if t == [] then []
    else
      var i := FirstIn(t, LineBreaks);
      if i == |t| then [t]
      else
        var w := if t[i] == '\r' && i + 1 < |t| && t[i + 1] == '\n' then 2 else 1;
        [t[..i]] + SplitLines(t[i + w..])
  }

  /** The text whose lines are `lines`, each ended by "\n". */
  function Terminated(lines: seq<string>): (t: string)
  {
    if lines == [] then "" else lines[0] + "\n" + Terminated(lines[1..])
  }

  /** Splitting newline-terminated lines that hold no line boundary gives the lines back. */
  lemma {:induction false} SplitLinesOfTerminated(lines: seq<string>)
    requires forall k, c :: 0 <= k < |lines| && c in lines[k] ==> c !in LineBreaks
    ensures SplitLines(Terminated(lines)) == lines
  {
    if lines != [] {
      var l := lines[0];
      var t := Terminated(lines);
      var rest := Terminated(lines[1..]);
      assert t == l + "\n" + rest;
      assert t[..|l|] == l && t[|l|] == '\n' && t[|l| + 1..] == rest;
      FirstInIs(t, LineBreaks, |l|);
      SplitLinesOfTerminated(lines[1..]);
    }
  }

  /** A last line with no terminator after it is still a line. */
  lemma SplitLinesLast(l: string)
    requires l != []
    requires forall c :: c in l ==> c !in LineBreaks
    ensures SplitLines(l) == [l]
  {
    FirstInIs(l, LineBreaks, |l|);
  }

  /**
   * A line ended by one terminator: "\r\n", or any single boundary character
   * (a lone "\r" only when no "\n" follows it, since "\r\n" is one terminator).
   */
  lemma SplitLinesStep(l: string, b: string, rest: string)
    requires forall c :: c in l ==> c !in LineBreaks
    requires b == "\r\n" || (|b| == 1 && b[0] in LineBreaks && (b[0] == '\r' ==> rest == [] || rest[0] != '\n'))
    ensures SplitLines(l + b + rest) == [l] + SplitLines(rest)
  {
    var t := l + b + rest;
    assert t[..|l|] == l && t[|l|] == b[0] && t[|l| + |b|..] == rest;
    FirstInIs(t, LineBreaks, |l|);
  }
}
