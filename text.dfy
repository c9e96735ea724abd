/**
 * The parts of Python's `str` that both utilities rely on: `strip`,
 * `splitlines`, `split`, `join`, `startswith`, `in`, `int()` and `str()`.
 * Characters are Unicode scalar values; whitespace, line breaks and digits
 * are restricted to the ASCII range.
 */
module Text {
  import Collections

  /** `str.isspace()`, and the regular-expression class `\s`, on ASCII. */
  predicate IsSpace(c: char) {
    // ' ', then '\t' '\n' '\x0b' '\x0c' '\r', then '\x1c' to '\x1f'
    c == ' ' || '\t' <= c <= '\r' || '\U{1C}' <= c <= '\U{1F}'
  }

  /** The ASCII characters at which `str.splitlines()` ends a line. */
  predicate IsLineBreak(c: char) {
    // '\n' '\x0b' '\x0c' '\r', then '\x1c' '\x1d' '\x1e'
    '\n' <= c <= '\r' || '\U{1C}' <= c <= '\U{1E}'
  }

  predicate IsDigit(c: char) {
    '0' <= c <= '9'
  }

  predicate IsDigits(s: string) {
    forall i :: 0 <= i < |s| ==> IsDigit(s[i])
  }

  /** What the regular expression `\d+` matches, and the strings `int()` reads here. */
  predicate IsInteger(s: string) {
    |s| > 0 && IsDigits(s)
  }

  predicate AllSpace(s: string) {
    forall i :: 0 <= i < |s| ==> IsSpace(s[i])
  }

  predicate NoLineBreak(s: string) {
    forall i :: 0 <= i < |s| ==> !IsLineBreak(s[i])
  }

  predicate StartsWith(s: string, prefix: string) {
    |prefix| <= |s| && s[..|prefix|] == prefix
  }

  predicate EndsWith(s: string, suffix: string) {
    |suffix| <= |s| && s[|s| - |suffix|..] == suffix
  }

  /** Python's `t in s` on strings. */
  predicate Contains(s: string, t: string)
    decreases |s|
  {
    StartsWith(s, t) || (s != [] && Contains(s[1..], t))
  }

  lemma {:induction false} ContainsInside(a: string, t: string, b: string)
    ensures Contains(a + t + b, t)
  {
    if a == [] {
      assert (a + t + b)[..|t|] == t;
    } else {
      assert (a + t + b)[1..] == a[1..] + t + b;
      ContainsInside(a[1..], t, b);
    }
  }

  /** A string that lacks the first character of `t` does not contain `t`. */
  lemma {:induction false} NotContains(s: string, t: string)
    requires t != [] && forall i :: 0 <= i < |s| ==> s[i] != t[0]
    ensures !Contains(s, t)
    decreases |s|
  {
    if s != [] {
      if |t| <= |s| {
        assert s[..|t|][0] != t[0];
      }
      NotContains(s[1..], t);
    }
  }

  /** `s.lstrip()` */
  function TrimLeft(s: string): (r: string)
    ensures |r| <= |s| && r == s[|s| - |r|..]
    ensures AllSpace(s[..|s| - |r|])
    ensures r != [] ==> !IsSpace(r[0])
    decreases |s|
  {
    if s != [] && IsSpace(s[0]) then
      var r := TrimLeft(s[1..]);
      assert s[..|s| - |r|] == [s[0]] + s[1..][..|s| - 1 - |r|];
      r
    else s
  }

  /** `s.rstrip()` */
  function TrimRight(s: string): (r: string)
    ensures |r| <= |s| && r == s[..|r|]
    ensures AllSpace(s[|r|..])
    ensures r != [] ==> !IsSpace(r[|r| - 1])
    decreases |s|
  {
    if s != [] && IsSpace(s[|s| - 1]) then
      var r := TrimRight(s[..|s| - 1]);
      assert s[|r|..] == s[..|s| - 1][|r|..] + [s[|s| - 1]];
      r
    else s
  }

  /** `s.strip()`: `s` without its leading and trailing whitespace. */
  function Strip(s: string): (r: string)
    ensures |r| <= |s|
    ensures r != [] ==> !IsSpace(r[0]) && !IsSpace(r[|r| - 1])
    ensures s != [] && !IsSpace(s[0]) && !IsSpace(s[|s| - 1]) ==> r == s
  {
    TrimRight(TrimLeft(s))
  }

  /** The index of the first line break in `s`, or `|s|` when there is none. */
  function LineEnd(s: string): (n: nat)
    ensures n <= |s|
    ensures forall i :: 0 <= i < n ==> !IsLineBreak(s[i])
    ensures n < |s| ==> IsLineBreak(s[n])
    decreases |s|
  {
    if s == [] || IsLineBreak(s[0]) then 0 else 1 + LineEnd(s[1..])
  }

  /**
   * `s.splitlines()`: the lines of `s` without their breaks; "\r\n" is one
   * break, and a break at the very end does not begin another line.
   */
  function SplitLines(s: string): (lines: seq<string>)
    ensures |lines| <= |s|
    ensures forall k :: 0 <= k < |lines| ==> NoLineBreak(lines[k])
    decreases |s|
  {
    if s == [] then []
    else
      var n := LineEnd(s);
      var next := if n == |s| then n
                  else if s[n] == '\r' && n + 1 < |s| && s[n + 1] == '\n' then n + 2
                  else n + 1;
      [s[..n]] + SplitLines(s[next..])
  }

  lemma NoLineBreakAppend(a: string, b: string)
    ensures NoLineBreak(a + b) <==> NoLineBreak(a) && NoLineBreak(b)
  {
    assert forall i :: 0 <= i < |a| ==> (a + b)[i] == a[i];
    assert forall i :: 0 <= i < |b| ==> (a + b)[|a| + i] == b[i];
  }

  /** `sep.join(parts)` */
  function Join(parts: seq<string>, sep: string): string
  {
    if |parts| == 0 then ""
    else if |parts| == 1 then parts[0]
    else parts[0] + sep + Join(parts[1..], sep)
  }

  lemma {:induction false} JoinAppend(a: seq<string>, b: seq<string>, sep: string)
    requires a != [] && b != []
    ensures Join(a + b, sep) == Join(a, sep) + sep + Join(b, sep)
  {
    if |a| == 1 {
      assert (a + b)[1..] == b;
    } else {
      assert (a + b)[1..] == a[1..] + b;
      JoinAppend(a[1..], b, sep);
    }
  }

  /** A join of `head`, then `mid`, then `last` starts with the join of `head` and a separator, and ends with a separator and `last`. */
  lemma JoinFramed(head: seq<string>, mid: seq<string>, last: string, sep: string)
    requires head != []
    ensures StartsWith(Join(head + mid + [last], sep), Join(head, sep) + sep)
    ensures EndsWith(Join(head + mid + [last], sep), sep + last)
  {
    assert head + mid + [last] == head + (mid + [last]);
    JoinAppend(head, mid + [last], sep);
    JoinAppend(head + mid, [last], sep);
    var j := Join(head + mid + [last], sep);
    assert j == Join(head, sep) + sep + Join(mid + [last], sep);
    assert j == Join(head + mid, sep) + sep + last;
  }

  /** `splitlines` undoes a join with "\n" of lines that hold no break, the last one non-empty. */
  lemma {:induction false} SplitLinesJoin(lines: seq<string>)
    requires forall k :: 0 <= k < |lines| ==> NoLineBreak(lines[k])
    requires lines != [] ==> lines[|lines| - 1] != ""
    ensures SplitLines(Join(lines, "\n")) == lines
  {
    if |lines| == 1 {
      SplitLinesOne(lines[0]);
    } else if |lines| > 1 {
      SplitLinesCons(lines[0], Join(lines[1..], "\n"));
      SplitLinesJoin(lines[1..]);
    }
  }

  /** A line without a break, and not empty, splits into itself. */
  lemma SplitLinesOne(l: string)
    requires NoLineBreak(l) && l != ""
    ensures SplitLines(l) == [l]
  {
    assert LineEnd(l) == |l|;
    assert l[..|l|] == l && l[|l|..] == [];
  }

  /** A line followed by "\n" splits off as the first line. */
  lemma SplitLinesCons(l: string, t: string)
    requires NoLineBreak(l)
    ensures SplitLines(l + "\n" + t) == [l] + SplitLines(t)
  {
    var s := l + "\n" + t;
    assert forall i :: 0 <= i < |l| ==> s[i] == l[i];
    assert s[|l|] == '\n';
    assert LineEnd(s) == |l|;
    assert s[..|l|] == l;
    assert s[|l| + 1..] == t;
  }

  /** The index of the first `c` in `s`, or `|s|` when there is none. */
  function IndexOf(s: string, c: char): (n: nat)
    ensures n <= |s|
    ensures forall i :: 0 <= i < n ==> s[i] != c
    ensures n < |s| ==> s[n] == c
    decreases |s|
  {
    if s == [] || s[0] == c then 0 else 1 + IndexOf(s[1..], c)
  }

  lemma {:induction false} IndexOfAppend(a: string, b: string, c: char)
    requires c !in a
    ensures IndexOf(a + b, c) == |a| + IndexOf(b, c)
    decreases |a|
  {
    if a != [] {
      assert (a + b)[0] == a[0] != c;
      assert (a + b)[1..] == a[1..] + b;
      IndexOfAppend(a[1..], b, c);
    } else {
      assert a + b == b;
    }
  }

  lemma TakeAppend(a: string, b: string, n: nat)
    requires n <= |b|
    ensures (a + b)[..|a| + n] == a + b[..n]
  {
  }

  lemma StartsWithAppend(a: string, b: string)
    ensures StartsWith(a + b, a)
  {
    assert (a + b)[..|a|] == a;
  }

  /** `s.split(c)` */
  function Split(s: string, c: char): (parts: seq<string>)
    ensures |parts| >= 1
    ensures forall k, i :: 0 <= k < |parts| && 0 <= i < |parts[k]| ==> parts[k][i] != c
    decreases |s|
  {
    var n := IndexOf(s, c);
    if n == |s| then [s] else [s[..n]] + Split(s[n + 1..], c)
  }

  /** Splitting and joining back with the same separator gives the string again. */
  lemma {:induction false} JoinSplit(s: string, c: char)
    ensures Join(Split(s, c), [c]) == s
    decreases |s|
  {
    var n := IndexOf(s, c);
    if n < |s| {
      var rest := Split(s[n + 1..], c);
      assert Split(s, c)[1..] == rest;
      JoinSplit(s[n + 1..], c);
      Collections.SplitAround(s, n);
    }
  }

  /** `a, b = s.split(c)` unpacks exactly when `s` holds one `c`, between `a` and `b`. */
  lemma SplitInTwo(s: string, c: char, a: string, b: string)
    ensures Split(s, c) == [a, b] <==> (s == a + [c] + b && c !in a && c !in b)
  {
    if Split(s, c) == [a, b] {
      JoinSplit(s, c);
      assert forall i :: 0 <= i < |a| ==> a[i] != c by {
        assert forall i :: 0 <= i < |a| ==> Split(s, c)[0][i] != c;
      }
      assert forall i :: 0 <= i < |b| ==> b[i] != c by {
        assert forall i :: 0 <= i < |b| ==> Split(s, c)[1][i] != c;
      }
    }
    if s == a + [c] + b && c !in a && c !in b {
      assert s[|a|] == c;
      assert IndexOf(s, c) == |a|;
      assert s[..|a|] == a && s[|a| + 1..] == b;
      assert IndexOf(b, c) == |b|;
    }
  }

  function DigitValue(c: char): nat
    requires IsDigit(c)
  {
    c as int - '0' as int
  }

  function DigitChar(d: nat): (c: char)
    requires d < 10
    ensures IsDigit(c) && DigitValue(c) == d
  {
    ('0' as int + d) as char
  }

  /** `int(s)` for a string of ASCII digits. */
  function DecimalValue(s: string): nat
    requires IsDigits(s)
    decreases |s|
  {
    if s == [] then 0 else DecimalValue(s[..|s| - 1]) * 10 + DigitValue(s[|s| - 1])
  }

  function Pow10(n: nat): nat {
    if n == 0 then 1 else 10 * Pow10(n - 1)
  }

  /** The last `width` decimal digits of `n`, zero-padded, as `%02d`/`%04d` print. */
  function PadDecimal(n: nat, width: nat): (r: string)
    ensures |r| == width && IsDigits(r)
  {
    if width == 0 then "" else PadDecimal(n / 10, width - 1) + [DigitChar(n % 10)]
  }

  /** Reading a padded number back gives the number, when it fits the width. */
  lemma {:induction false} PadDecimalValue(n: nat, width: nat)
    requires n < Pow10(width)
    ensures DecimalValue(PadDecimal(n, width)) == n
  {
    if width > 0 {
      PadDecimalValue(n / 10, width - 1);
      var r := PadDecimal(n, width);
      assert r[..|r| - 1] == PadDecimal(n / 10, width - 1);
    }
  }

  /** `str(n)` for a natural number. */
  function NatToString(n: nat): (r: string)
    ensures IsInteger(r)
  {
    if n < 10 then [DigitChar(n)] else NatToString(n / 10) + [DigitChar(n % 10)]
  }

  /** `str(n)` reads back as `n` and has no leading zero. */
  lemma {:induction false} NatToStringValue(n: nat)
    ensures DecimalValue(NatToString(n)) == n
    ensures NatToString(n)[0] == '0' ==> n == 0
  {
    if n >= 10 {
      NatToStringValue(n / 10);
      var r := NatToString(n);
      assert r[..|r| - 1] == NatToString(n / 10);
    }
  }

  /** `str(i)` for an integer: a minus sign before the digits of a negative one. */
  function IntToString(i: int): (r: string)
    ensures NoLineBreak(r) && r != []
    ensures (r[0] == '-') == (i < 0)
  {
    if i < 0 then "-" + NatToString(-i) else NatToString(i)
  }

  /** `str(i)` reads back as `i`: the digits of `i`, or a minus sign and the digits of `-i`. */
  lemma IntToStringValue(i: int)
    ensures i >= 0 ==> IsInteger(IntToString(i)) && DecimalValue(IntToString(i)) == i
    ensures i < 0 ==> IsInteger(IntToString(i)[1..]) && DecimalValue(IntToString(i)[1..]) == -i
  {
    if i >= 0 {
      NatToStringValue(i);
    } else {
      NatToStringValue(-i);
      assert IntToString(i)[1..] == NatToString(-i);
    }
  }

  /** The length of the longest prefix of `s` made of digits: how far a greedy `\d*` reaches. */
  function DigitRun(s: string): (n: nat)
    ensures n <= |s|
    ensures forall i :: 0 <= i < n ==> IsDigit(s[i])
    ensures n < |s| ==> !IsDigit(s[n])
    decreases |s|
  {
    if s != [] && IsDigit(s[0]) then 1 + DigitRun(s[1..]) else 0
  }

  /** The run of digits that ends where the first non-digit is. */
  lemma DigitRunIs(s: string, n: nat)
    requires n <= |s| && (forall i :: 0 <= i < n ==> IsDigit(s[i])) && (n < |s| ==> !IsDigit(s[n]))
    ensures DigitRun(s) == n
  {
  }

  /** The length of the longest prefix of `s` made of whitespace: how far `\s*` reaches. */
  function SpaceRun(s: string): (n: nat)
    ensures n <= |s|
    ensures forall i :: 0 <= i < n ==> IsSpace(s[i])
    ensures n < |s| ==> !IsSpace(s[n])
    decreases |s|
  {
    if s != [] && IsSpace(s[0]) then 1 + SpaceRun(s[1..]) else 0
  }

  /** The run of whitespace at the start of `s` is all whitespace. */
  lemma SpaceRunAllSpace(s: string)
    ensures AllSpace(s[..SpaceRun(s)])
  {
    var n := SpaceRun(s);
    assert forall i :: 0 <= i < n ==> s[..n][i] == s[i];
  }

  /** The run of whitespace that ends where the first other character is. */
  lemma SpaceRunIs(s: string, n: nat)
    requires n <= |s| && (forall i :: 0 <= i < n ==> IsSpace(s[i])) && (n < |s| ==> !IsSpace(s[n]))
    ensures SpaceRun(s) == n
  {
  }
}
