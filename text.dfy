/**
 * Character and string operations of the two runtimes the system uses:
 * JavaScript (trim, `\s`, split, join, toLowerCase) and Python
 * (strip, slicing, `str.lower`, zero-padded formatting).
 * Strings are sequences of Unicode scalar values.
 */
module Text {

  /** JavaScript WhiteSpace and LineTerminator code points: what `String.prototype.trim` removes and what the regex class `\s` matches. */
  predicate IsJsSpace(c: char) {
    c == '\t' || c == '\n' || c == '\U{000B}' || c == '\U{000C}' || c == '\r' || c == ' '
    || c == '\U{00A0}' || c == '\U{1680}' || ('\U{2000}' <= c <= '\U{200A}')
    || c == '\U{2028}' || c == '\U{2029}' || c == '\U{202F}' || c == '\U{205F}'
    || c == '\U{3000}' || c == '\U{FEFF}'
  }

  /** The code points for which Python's `str.isspace` holds: what `str.strip()` removes. */
  predicate IsPySpace(c: char) {
    c == '\t' || c == '\n' || c == '\U{000B}' || c == '\U{000C}' || c == '\r'
    || ('\U{001C}' <= c <= '\U{001F}') || c == ' ' || c == '\U{0085}' || c == '\U{00A0}'
    || c == '\U{1680}' || ('\U{2000}' <= c <= '\U{200A}')
    || c == '\U{2028}' || c == '\U{2029}' || c == '\U{202F}' || c == '\U{205F}' || c == '\U{3000}'
  }

  /** Drops the leading characters satisfying `isSpace`. */
  function TrimStart(s: string, isSpace: char -> bool): (r: string)
    ensures |r| <= |s| && r == s[|s| - |r|..]
    ensures r != [] ==> !isSpace(r[0])
    ensures forall i {:trigger isSpace(s[i])} :: 0 <= i < |s| - |r| ==> isSpace(s[i])
  {
    if s != [] && isSpace(s[0]) then TrimStart(s[1..], isSpace) else s
  }

  /** Drops the trailing characters satisfying `isSpace`. */
  function TrimEnd(s: string, isSpace: char -> bool): (r: string)
    ensures |r| <= |s| && r == s[..|r|]
    ensures r != [] ==> !isSpace(r[|r| - 1])
    ensures forall i {:trigger isSpace(s[i])} :: |r| <= i < |s| ==> isSpace(s[i])
  {
    if s != [] && isSpace(s[|s| - 1]) then TrimEnd(s[..|s| - 1], isSpace) else s
  }

  /** `r` is `s[i..j]` and everything of `s` outside `i..j` satisfies `isSpace`. */
  predicate CutFrom(s: string, r: string, i: nat, j: nat, isSpace: char -> bool) {
    && i <= j <= |s| && r == s[i..j]
    && (forall k {:trigger isSpace(s[k])} :: 0 <= k < i ==> isSpace(s[k]))
    && (forall k {:trigger isSpace(s[k])} :: j <= k < |s| ==> isSpace(s[k]))
  }

  /** Removes whitespace at both ends: the result is a slice of `s` that neither starts nor ends with a space, and only spaces were cut. */
  function Trim(s: string, isSpace: char -> bool): (r: string)
    ensures CutFrom(s, r, |s| - |TrimStart(s, isSpace)|, |s| - |TrimStart(s, isSpace)| + |r|, isSpace)
    ensures r != [] ==> !isSpace(r[0]) && !isSpace(r[|r| - 1])
  {
    var a := TrimStart(s, isSpace);
    var b := TrimEnd(a, isSpace);
    CutBoth(s, a, b, isSpace);
    b
  }

  /** A space-only prefix cut, then a space-only suffix cut, is one cut of `s`, with no space left at either end. */
  lemma CutBoth(s: string, a: string, b: string, isSpace: char -> bool)
    requires |a| <= |s| && a == s[|s| - |a|..] && forall k {:trigger isSpace(s[k])} :: 0 <= k < |s| - |a| ==> isSpace(s[k])
    requires a != [] ==> !isSpace(a[0])
    requires |b| <= |a| && b == a[..|b|] && forall k {:trigger isSpace(a[k])} :: |b| <= k < |a| ==> isSpace(a[k])
    requires b != [] ==> !isSpace(b[|b| - 1])
    ensures CutFrom(s, b, |s| - |a|, |s| - |a| + |b|, isSpace)
    ensures b != [] ==> !isSpace(b[0]) && !isSpace(b[|b| - 1])
  {
    var i := |s| - |a|;
    forall k | i + |b| <= k < |s| ensures isSpace(s[k]) {
      assert s[k] == a[k - i];
    }
    if b != [] {
      assert b[0] == a[0];
    }
  }

  /** A character absent from `s` is absent from its trimmed form. */
  lemma TrimAvoids(s: string, isSpace: char -> bool, c: char)
    requires c !in s
    ensures c !in Trim(s, isSpace)
  {
    var r := Trim(s, isSpace);
    var i := |s| - |TrimStart(s, isSpace)|;
    assert r == s[i..i + |r|];
    forall k | 0 <= k < |r| ensures r[k] != c {
      assert r[k] == s[i + k];
    }
  }

  /** JavaScript `s.trim()`. */
  function TrimJs(s: string): string { Trim(s, IsJsSpace) }

  /** Python `s.strip()`. */
  function StripPy(s: string): string { Trim(s, IsPySpace) }

  lemma TrimStartNoop(s: string, isSpace: char -> bool)
    requires s == [] || !isSpace(s[0])
    ensures TrimStart(s, isSpace) == s
  {
  }

  lemma TrimEndNoop(s: string, isSpace: char -> bool)
    requires s == [] || !isSpace(s[|s| - 1])
    ensures TrimEnd(s, isSpace) == s
  {
  }

  /** A string that neither starts nor ends with a space is its own trim. */
  lemma TrimNoop(s: string, isSpace: char -> bool)
    requires s == [] || (!isSpace(s[0]) && !isSpace(s[|s| - 1]))
    ensures Trim(s, isSpace) == s
  {
    TrimStartNoop(s, isSpace);
    TrimEndNoop(s, isSpace);
  }

  /** Trimming twice is trimming once. */
  lemma TrimIdempotent(s: string, isSpace: char -> bool)
    ensures Trim(Trim(s, isSpace), isSpace) == Trim(s, isSpace)
  {
    var t := Trim(s, isSpace);
    TrimStartNoop(t, isSpace);
    TrimEndNoop(t, isSpace);
  }

  /** ASCII lower-casing of one character. */
  function LowerChar(c: char): (r: char)
    ensures 'A' <= c <= 'Z' ==> 'a' <= r <= 'z' && r as int == c as int + 32
    ensures !('A' <= c <= 'Z') ==> r == c
  {
    if 'A' <= c <= 'Z' then (c as int + 32) as char else c
  }

  /** `toLowerCase()` / `lower()`, restricted to the ASCII letters. */
  function Lower(s: string): (r: string)
    ensures |r| == |s| && forall i :: 0 <= i < |s| ==> r[i] == LowerChar(s[i])
  {
    seq(|s|, i requires 0 <= i < |s| => LowerChar(s[i]))
  }

  /** Lower-casing leaves a string without upper-case ASCII letters unchanged. */
  lemma LowerNoop(s: string)
    requires forall i :: 0 <= i < |s| ==> !('A' <= s[i] <= 'Z')
    ensures Lower(s) == s
  {
  }

  /** Joins `parts` with `sep` between consecutive parts: JavaScript `parts.join(sep)`. */
  function Join(parts: seq<string>, sep: string): string {
    if |parts| == 0 then ""
    else if |parts| == 1 then parts[0]
    else parts[0] + sep + Join(parts[1..], sep)
  }

  /** The first index of `c` in `s`. */
  function IndexOf(s: string, c: char): (i: nat)
    requires c in s
    ensures i < |s| && s[i] == c && c !in s[..i]
  {
    if s[0] == c then 0 else 1 + IndexOf(s[1..], c)
  }

  /** JavaScript `s.split(c)` for a one-character separator: the pieces between occurrences of `c`, never containing `c`, that rejoin to `s`. */
  function Split(s: string, c: char): (r: seq<string>)
    ensures |r| >= 1
    ensures forall i :: 0 <= i < |r| ==> c !in r[i]
    ensures Join(r, [c]) == s
    ensures |r| == 1 <==> c !in s
    decreases |s|
  {
    if c !in s then [s]
    else
      var i := IndexOf(s, c);
      var rest := Split(s[i + 1..], c);
      assert s == s[..i] + [c] + s[i + 1..];
      [s[..i]] + rest
  }

  /** A piece free of `c` followed by `c` is split off as the first piece. */
  lemma SplitCons(a: string, c: char, t: string)
    requires c !in a
    ensures Split(a + [c] + t, c) == [a] + Split(t, c)
  {
    var s := a + [c] + t;
    assert s[|a|] == c;
    var i := IndexOf(s, c);
    assert s[..|a|] == a;
    assert s[..i] == a && s[i + 1..] == t;
  }

  /** A piece free of `c` followed by nothing, or by `c`, is the first piece. */
  lemma SplitHead(b: string, c: char, t: string)
    requires c !in b && (t == [] || t[0] == c)
    ensures Split(b + t, c)[0] == b
  {
    if t == [] {
      assert b + t == b;
    } else {
      assert b + t == b + [c] + t[1..];
      SplitCons(b, c, t[1..]);
    }
  }

  /**
   * Replaces every maximal run of characters satisfying `isRun` by the one
   * character `c`: JavaScript `s.replace(/[...]+/g, c)` for a character class.
   */
  function CollapseRuns(s: string, isRun: char -> bool, c: char): (r: string)
    ensures |r| <= |s|
    ensures forall i :: 0 <= i < |r| ==> r[i] == c || !isRun(r[i])
    decreases |s|
  {
    if s == [] then []
    else if isRun(s[0]) then [c] + CollapseRuns(TrimStart(s[1..], isRun), isRun, c)
    else [s[0]] + CollapseRuns(s[1..], isRun, c)
  }

  /** A string without run characters is left as it is. */
  lemma {:induction false} CollapseRunsNoop(s: string, isRun: char -> bool, c: char)
    requires forall i :: 0 <= i < |s| ==> !isRun(s[i])
    ensures CollapseRuns(s, isRun, c) == s
  {
    if s != [] {
      CollapseRunsNoop(s[1..], isRun, c);
      assert s == [s[0]] + s[1..];
    }
  }

  /** A run-free stretch is copied, the run after it becomes one `c`, and collapsing resumes after the run. */
  lemma {:induction false} CollapseRunsSpan(a: string, run: string, b: string, isRun: char -> bool, c: char)
    requires forall i {:trigger isRun(a[i])} :: 0 <= i < |a| ==> !isRun(a[i])
    requires |run| > 0 && forall i {:trigger isRun(run[i])} :: 0 <= i < |run| ==> isRun(run[i])
    requires b == [] || !isRun(b[0])
    ensures CollapseRuns(a + run + b, isRun, c) == a + [c] + CollapseRuns(b, isRun, c)
    decreases |a|
  {
    if a == [] {
      assert a + run + b == run + b;
      CollapseRunsAtRun(run, b, isRun, c);
    } else {
      var t := a[1..] + run + b;
      var x := CollapseRuns(b, isRun, c);
      assert a + run + b == [a[0]] + t;
      CollapseRunsHeadKeep(a[0], t, isRun, c);
      forall i | 0 <= i < |a| - 1 ensures !isRun(a[1..][i]) {
        assert a[1..][i] == a[i + 1];
      }
      CollapseRunsSpan(a[1..], run, b, isRun, c);
      assert a + [c] + x == [a[0]] + (a[1..] + [c] + x);
    }
  }

  /** A leading run becomes one `c`. */
  lemma CollapseRunsAtRun(run: string, b: string, isRun: char -> bool, c: char)
    requires |run| > 0 && forall i {:trigger isRun(run[i])} :: 0 <= i < |run| ==> isRun(run[i])
    requires b == [] || !isRun(b[0])
    ensures CollapseRuns(run + b, isRun, c) == [c] + CollapseRuns(b, isRun, c)
  {
    var s := run + b;
    var t := run[1..] + b;
    assert s[0] == run[0];
    assert s[1..] == t;
    TrimStartDropsRun(run[1..], b, isRun);
    CollapseRunsHeadRun(s, isRun, c);
  }

  lemma CollapseRunsHeadRun(s: string, isRun: char -> bool, c: char)
    requires s != [] && isRun(s[0])
    ensures CollapseRuns(s, isRun, c) == [c] + CollapseRuns(TrimStart(s[1..], isRun), isRun, c)
  {
  }

  lemma CollapseRunsHeadKeep(x: char, t: string, isRun: char -> bool, c: char)
    requires !isRun(x)
    ensures CollapseRuns([x] + t, isRun, c) == [x] + CollapseRuns(t, isRun, c)
  {
    assert ([x] + t)[0] == x && ([x] + t)[1..] == t;
  }

  /** Trimming a run followed by a non-run character leaves what follows. */
  lemma {:induction false} TrimStartDropsRun(run: string, b: string, isRun: char -> bool)
    requires forall i :: 0 <= i < |run| ==> isRun(run[i])
    requires b == [] || !isRun(b[0])
    ensures TrimStart(run + b, isRun) == b
    decreases |run|
  {
    if run == [] {
      assert run + b == b;
    } else {
      assert (run + b)[1..] == run[1..] + b;
      TrimStartDropsRun(run[1..], b, isRun);
    }
  }

  /** Keeps the characters satisfying `keep`, in order: a regex replace of the complement class with "". */
  function KeepIf(s: string, keep: char -> bool): (r: string)
    ensures |r| <= |s|
    ensures forall i :: 0 <= i < |r| ==> keep(r[i])
    ensures (forall i :: 0 <= i < |s| ==> keep(s[i])) ==> r == s
  {
    if s == [] then []
    else (if keep(s[0]) then [s[0]] else []) + KeepIf(s[1..], keep)
  }

  /** Replaces every `x` by `y`: JavaScript `s.replace(/x/g, y)` for one character. */
  function ReplaceChar(s: string, x: char, y: char): (r: string)
    ensures |r| == |s|
    ensures forall i :: 0 <= i < |s| ==> r[i] == if s[i] == x then y else s[i]
  {
    seq(|s|, i requires 0 <= i < |s| => if s[i] == x then y else s[i])
  }

  /** Python `s[:n]` for a non-negative `n`. */
  function Take(s: string, n: nat): (r: string)
    ensures |r| <= n && |r| <= |s|
    ensures r == s[..|r|]
    ensures |s| <= n ==> r == s
  {
    if |s| <= n then s else s[..n]
  }

  /** Python `s.endswith(suffix)`. */
  predicate EndsWith(s: string, suffix: string) {
    |suffix| <= |s| && s[|s| - |suffix|..] == suffix
  }

  function DigitChar(d: nat): (c: char)
    requires d < 10
    ensures '0' <= c <= '9' && c as int - '0' as int == d
  {
    (d + '0' as int) as char
  }

  /** The decimal value of a string of digits. */
  function DigitsValue(s: string): nat
    requires forall i :: 0 <= i < |s| ==> '0' <= s[i] <= '9'
  {
    if s == [] then 0 else 10 * DigitsValue(s[..|s| - 1]) + (s[|s| - 1] as int - '0' as int)
  }

  /** The decimal numeral of `n` (no sign, no leading zeros), as JavaScript and Python print a non-negative integer. */
  function NatToString(n: nat): string {
    if n < 10 then [DigitChar(n)] else NatToString(n / 10) + [DigitChar(n % 10)]
  }

  /** The numeral is digits only, has no leading zero and reads back to `n`. */
  lemma {:induction false} NatToStringSpec(n: nat)
    ensures 1 <= |NatToString(n)| && (forall i :: 0 <= i < |NatToString(n)| ==> '0' <= NatToString(n)[i] <= '9')
    ensures DigitsValue(NatToString(n)) == n
    ensures |NatToString(n)| > 1 ==> NatToString(n)[0] != '0'
  {
    if n >= 10 {
      NatToStringSpec(n / 10);
      var r := NatToString(n);
      assert r[..|r| - 1] == NatToString(n / 10);
    }
  }

  /** Python `f"{n:02d}"` for a non-negative `n`: the numeral, with a leading zero below 10. */
  function Pad2(n: nat): string {
    if n < 10 then "0" + NatToString(n) else NatToString(n)
  }

  /** The padded numeral has at least two digits and reads back to `n`. */
  lemma Pad2Spec(n: nat)
    ensures 2 <= |Pad2(n)| && (forall i :: 0 <= i < |Pad2(n)| ==> '0' <= Pad2(n)[i] <= '9')
    ensures DigitsValue(Pad2(n)) == n
  {
    NatToStringSpec(n);
    if n < 10 {
      var r := Pad2(n);
      assert r[..1] == "0";
    } else {
      NatToStringSpec(n / 10);
    }
  }
}
