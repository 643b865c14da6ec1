/** Python string operations used by the dashboard: split, join, strip, str() of integers. */
module Strings {

  /** Python's `str.isspace` (and `\s` in a `str` regular expression). */
  predicate IsSpace(c: char) {
    ('\t' <= c <= '\r') || ('\U{1c}' <= c <= ' ') || c == '\U{85}' || c == '\U{a0}' || c == '\U{1680}'
    || ('\U{2000}' <= c <= '\U{200a}') || c == '\U{2028}' || c == '\U{2029}' || c == '\U{202f}'
    || c == '\U{205f}' || c == '\U{3000}'
  }

  predicate AllSpace(s: string) {
    forall i :: 0 <= i < |s| ==> IsSpace(s[i])
  }

  predicate AllChar(s: string, c: char) {
    forall i :: 0 <= i < |s| ==> s[i] == c
  }

  /** `s.lstrip(c)` for a single character. */
  function LStripChar(s: string, c: char): (r: string)
    ensures |r| <= |s| && r == s[|s| - |r|..]
    ensures AllChar(s[..|s| - |r|], c)
    ensures r == [] || r[0] != c
  {
    if |s| > 0 && s[0] == c then
      var r := LStripChar(s[1..], c);
      assert s[..|s| - |r|] == [c] + s[1..][..|s| - 1 - |r|];
      r
    else s
  }

  /** `s.rstrip(c)` for a single character. */
  function RStripChar(s: string, c: char): (r: string)
    ensures |r| <= |s| && r == s[..|r|]
    ensures AllChar(s[|r|..], c)
    ensures r == [] || r[|r| - 1] != c
  {
    if |s| > 0 && s[|s| - 1] == c then
      var r := RStripChar(s[..|s| - 1], c);
      assert s[|r|..] == s[..|s| - 1][|r|..] + [c];
      r
    else s
  }

  /** `s.lstrip()`: drops leading whitespace. */
  function LStrip(s: string): (r: string)
    ensures |r| <= |s|
  {
    if |s| > 0 && IsSpace(s[0]) then LStrip(s[1..]) else s
  }

  /** `s.rstrip()`: drops trailing whitespace. */
  function RStrip(s: string): (r: string)
    ensures |r| <= |s|
  {
    if |s| > 0 && IsSpace(s[|s| - 1]) then RStrip(s[..|s| - 1]) else s
  }

  /** `LStrip` keeps a suffix, drops only whitespace, and leaves no leading whitespace. */
  lemma {:induction false} LStripShape(s: string)
    ensures var r := LStrip(s);
      && r == s[|s| - |r|..]
      && AllSpace(s[..|s| - |r|])
      && (r == [] || !IsSpace(r[0]))
  {
    if |s| > 0 && IsSpace(s[0]) {
      LStripShape(s[1..]);
      var r := LStrip(s[1..]);
      assert s[..|s| - |r|] == [s[0]] + s[1..][..|s| - 1 - |r|];
    }
  }

  /** Stripping a string that starts with `k` whitespace characters removes at least those. */
  lemma LStripPastSpaces(s: string, k: nat)
    requires k <= |s| && AllSpace(s[..k])
    ensures |LStrip(s)| <= |s| - k
  {
    LStripShape(s);
  }

  /** `RStrip` keeps a prefix, drops only whitespace, and leaves no trailing whitespace. */
  lemma {:induction false} RStripShape(s: string)
    ensures var r := RStrip(s);
      && r == s[..|r|]
      && AllSpace(s[|r|..])
      && (r == [] || !IsSpace(r[|r| - 1]))
  {
    if |s| > 0 && IsSpace(s[|s| - 1]) {
      RStripShape(s[..|s| - 1]);
      var r := RStrip(s[..|s| - 1]);
      assert s[|r|..] == s[..|s| - 1][|r|..] + [s[|s| - 1]];
    }
  }

  /** Python's `s.strip()` with no argument. */
  function Strip(s: string): string {
    RStrip(LStrip(s))
  }

  /** `s.strip()` is empty exactly when every character of `s` is whitespace. */
  lemma StripEmptyIffAllSpace(s: string)
    ensures Strip(s) == "" <==> AllSpace(s)
  {
    var l := LStrip(s);
    LStripShape(s);
    RStripShape(l);
    if Strip(s) == "" {
      assert AllSpace(l[0..]) && l[0..] == l;
      assert |l| == 0;
      forall i | 0 <= i < |s| ensures IsSpace(s[i]) {
        assert s[..|s| - |l|][i] == s[i];
      }
    } else {
      var r := Strip(s);
      assert r == l[..|r|] && |r| > 0;
      assert l[0] == r[0];
      assert !IsSpace(l[0]);
      assert l[0] == s[|s| - |l|];
    }
  }

  /** `sep.join(parts)`. */
  function Join(parts: seq<string>, sep: string): string {
    if |parts| == 0 then ""
    else if |parts| == 1 then parts[0]
    else parts[0] + sep + Join(parts[1..], sep)
  }

  /** Python's `s.split(sep)` for a one-character separator: always at least one piece. */
  function Split(s: string, sep: char): (r: seq<string>)
    ensures |r| >= 1
    ensures forall k :: 0 <= k < |r| ==> sep !in r[k]
  {
    if |s| == 0 then [""]
    else
      var rest := Split(s[1..], sep);
      if s[0] == sep then [""] + rest
      else [[s[0]] + rest[0]] + rest[1..]
  }

  lemma {:induction false} SplitPrefix(p: string, t: string, sep: char)
    requires sep !in p
    ensures Split(p + t, sep) == [p + Split(t, sep)[0]] + Split(t, sep)[1..]
  {
    if |p| > 0 {
      assert (p + t)[1..] == p[1..] + t;
      SplitPrefix(p[1..], t, sep);
      assert [p[0]] + (p[1..] + Split(t, sep)[0]) == p + Split(t, sep)[0];
    } else {
      assert p + t == t;
      assert p + Split(t, sep)[0] == Split(t, sep)[0];
      assert Split(t, sep) == [Split(t, sep)[0]] + Split(t, sep)[1..];
    }
  }

  /** Splitting a joined list of separator-free pieces gives the pieces back. */
  lemma {:induction false} SplitJoin(parts: seq<string>, sep: char)
    requires |parts| >= 1
    requires forall k :: 0 <= k < |parts| ==> sep !in parts[k]
    ensures Split(Join(parts, [sep]), sep) == parts
  {
    if |parts| == 1 {
      SplitPrefix(parts[0], "", sep);
      assert parts[0] + "" == parts[0];
    } else {
      var rest := Join(parts[1..], [sep]);
      SplitJoin(parts[1..], sep);
      assert Join(parts, [sep]) == parts[0] + ([sep] + rest);
      SplitPrefix(parts[0], [sep] + rest, sep);
      assert ([sep] + rest)[1..] == rest;
      assert Split([sep] + rest, sep) == [""] + parts[1..];
      assert parts[0] + "" == parts[0];
    }
  }

  /** Joining the pieces of a split with the separator gives the string back. */
  lemma {:induction false} JoinSplit(s: string, sep: char)
    ensures Join(Split(s, sep), [sep]) == s
  {
    if |s| > 0 {
      var rest := Split(s[1..], sep);
      JoinSplit(s[1..], sep);
      if s[0] == sep {
        assert ([""] + rest)[1..] == rest;
        assert Join([""] + rest, [sep]) == "" + [sep] + Join(rest, [sep]);
        assert s == [sep] + s[1..];
      } else if |rest| == 1 {
        assert s == [s[0]] + s[1..];
      } else {
        var parts := [[s[0]] + rest[0]] + rest[1..];
        assert parts[1..] == rest[1..];
        assert Join(rest, [sep]) == rest[0] + [sep] + Join(rest[1..], [sep]);
        assert s == [s[0]] + s[1..];
      }
    }
  }

  /** Joining with one more piece at the end appends the separator and the piece. */
  lemma {:induction false} JoinSnoc(parts: seq<string>, p: string, sep: string)
    requires |parts| >= 1
    ensures Join(parts + [p], sep) == Join(parts, sep) + sep + p
  {
    if |parts| > 1 {
      assert (parts + [p])[1..] == parts[1..] + [p];
      JoinSnoc(parts[1..], p, sep);
    } else {
      assert (parts + [p])[1..] == [p];
    }
  }

  /** `"".join(f(x) for x in s)`: the pieces in order. */
  function Concat<T>(s: seq<T>, f: T -> string): string {
    if |s| == 0 then "" else Concat(s[..|s| - 1], f) + f(s[|s| - 1])
  }

  /** Concatenating over two runs concatenates each run in turn. */
  lemma {:induction false} ConcatAppend<T>(s: seq<T>, t: seq<T>, f: T -> string)
    ensures Concat(s + t, f) == Concat(s, f) + Concat(t, f)
    decreases |t|
  {
    if |t| == 0 {
      assert s + t == s;
    } else {
      var st := s + t;
      assert st[..|st| - 1] == s + t[..|t| - 1];
      assert st[|st| - 1] == t[|t| - 1];
      ConcatAppend(s, t[..|t| - 1], f);
    }
  }

  function Digit(d: nat): char
    requires d < 10
  {
    "0123456789"[d]
  }

  /** `str(n)` for a natural number. */
  function NatToString(n: nat): (r: string)
    ensures |r| >= 1
    ensures forall i :: 0 <= i < |r| ==> '0' <= r[i] <= '9'
    ensures n >= 10 ==> |r| >= 2
  {
    if n < 10 then [Digit(n)] else NatToString(n / 10) + [Digit(n % 10)]
  }

  lemma DigitInjective(a: nat, b: nat)
    requires a < 10 && b < 10 && Digit(a) == Digit(b)
    ensures a == b
  {
  }

  lemma NatToStringUnfold(n: nat)
    requires n >= 10
    ensures var s := NatToString(n); s == NatToString(n / 10) + [Digit(n % 10)]
  {
  }

  /** Different numbers have different decimal spellings. */
  lemma {:induction false} NatToStringInjective(a: nat, b: nat)
    requires NatToString(a) == NatToString(b)
    ensures a == b
  {
    if a >= 10 && b >= 10 {
      var pa, pb := NatToString(a / 10), NatToString(b / 10);
      NatToStringUnfold(a);
      NatToStringUnfold(b);
      assert pa + [Digit(a % 10)] == pb + [Digit(b % 10)];
      assert |pa| == |pb|;
      assert Digit(a % 10) == (pa + [Digit(a % 10)])[|pa|];
      DigitInjective(a % 10, b % 10);
      assert pa == (pa + [Digit(a % 10)])[..|pa|];
      assert pb == (pb + [Digit(b % 10)])[..|pb|];
      NatToStringInjective(a / 10, b / 10);
    } else if a < 10 && b < 10 {
      DigitInjective(a, b);
    }
  }

  /** `str(i)` for an integer. */
  function IntToString(i: int): (r: string)
    ensures |r| >= 1
    ensures forall k :: 0 <= k < |r| ==> r[k] == '-' || '0' <= r[k] <= '9'
  {
    if i < 0 then "-" + NatToString(-i) else NatToString(i)
  }

  /** Python's `needle in haystack` on strings. */
  predicate IsSubstring(needle: string, haystack: string) {
    exists i :: 0 <= i <= |haystack| && StartsWith(haystack[i..], needle)
  }

  predicate StartsWith(s: string, prefix: string) {
    |prefix| <= |s| && s[..|prefix|] == prefix
  }
}
