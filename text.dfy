/** String helpers shared by the gateway and the status check: Python's
    `"\n".join(...)` and `str.split("\n")`, and the zero-padded decimal
    fields that `strftime` writes. */
module Text {

  /** `"\n".join(lines)` */
  function JoinLines(lines: seq<string>): string
  {
    if |lines| == 0 then ""
    else if |lines| == 1 then lines[0]
    else lines[0] + "\n" + JoinLines(lines[1..])
  }

  /** Index of the first occurrence of `c` in `s`. */
  function IndexOf(s: string, c: char): (i: nat)
    requires c in s
    ensures i < |s| && s[i] == c && c !in s[..i]
  {
    if s[0] == c then 0
    else
      assert c in s[1..] by { var k :| 0 <= k < |s| && s[k] == c; assert s[1..][k - 1] == c; }
      var j := IndexOf(s[1..], c);
      assert s[..j + 1] == [s[0]] + s[1..][..j];
      j + 1
  }

  /** `s.split("\n")`: the pieces between newlines, always at least one. */
  function SplitLines(s: string): (r: seq<string>)
    ensures |r| >= 1
    decreases |s|
  {
    if '\n' !in s then [s]
    else
      var i := IndexOf(s, '\n');
      [s[..i]] + SplitLines(s[i + 1..])
  }

  predicate NoNewline(lines: seq<string>)
  {
    forall k :: 0 <= k < |lines| ==> '\n' !in lines[k]
  }

  /** The first newline of `a + "\n" + b` is the one after `a` when `a` has none. */
  lemma {:induction false} IndexOfAfterPrefix(a: string, b: string, c: char)
    requires c !in a
    ensures c in a + [c] + b && IndexOf(a + [c] + b, c) == |a|
  {
    var s := a + [c] + b;
    assert s[|a|] == c;
    if a != [] {
      assert s[0] == a[0];
      assert s[1..] == a[1..] + [c] + b;
      IndexOfAfterPrefix(a[1..], b, c);
    }
  }

  /** Splitting at the newline after a newline-free `first` yields `first`
      and then the pieces of what follows. */
  lemma SplitAfterLine(first: string, rest: string)
    requires '\n' !in first
    ensures SplitLines(first + "\n" + rest) == [first] + SplitLines(rest)
  {
    var s := first + "\n" + rest;
    IndexOfAfterPrefix(first, rest, '\n');
    assert s[..|first|] == first;
    assert s[|first| + 1..] == rest;
  }

  /** Splitting a joined summary gives back its lines, one per entry and
      in order, as long as no entry holds a newline itself. */
  lemma {:induction false} SplitJoin(lines: seq<string>)
    requires |lines| > 0 && NoNewline(lines)
    ensures SplitLines(JoinLines(lines)) == lines
  {
    if |lines| == 1 {
      assert '\n' !in lines[0];
    } else {
      var tail := lines[1..];
      assert NoNewline(tail) by {
        forall k | 0 <= k < |tail| ensures '\n' !in tail[k] {
          assert tail[k] == lines[k + 1];
        }
      }
      assert '\n' !in lines[0];
      SplitAfterLine(lines[0], JoinLines(tail));
      SplitJoin(tail);
      assert lines == [lines[0]] + tail;
    }
  }

  predicate IsDigit(c: char)
  {
    '0' <= c <= '9'
  }

  predicate AllDigits(s: string)
  {
    forall i :: 0 <= i < |s| ==> IsDigit(s[i])
  }

  function DigitChar(d: nat): (c: char)
    requires d < 10
    ensures IsDigit(c) && c as int - '0' as int == d
  {
    ('0' as int + d) as char
  }

  /** The number a string of decimal digits denotes. */
  function Decimal(s: string): nat
    requires AllDigits(s)
  {
    if s == [] then 0
    else Decimal(s[..|s| - 1]) * 10 + (s[|s| - 1] as int - '0' as int)
  }

  function Pow10(n: nat): (p: nat)
    ensures p >= 1
  {
    if n == 0 then 1 else 10 * Pow10(n - 1)
  }

  /** `n` written in decimal with at least `width` digits, leading zeros
      filling the rest (the `%02d`-style fields of `strftime`). */
  function ZeroPad(n: nat, width: nat): (r: string)
    ensures AllDigits(r) && Decimal(r) == n
    ensures n < Pow10(width) ==> |r| == width
    decreases n + width
  {
    if n == 0 && width == 0 then ""
    else
      var front := ZeroPad(n / 10, if width == 0 then 0 else width - 1);
      var r := front + [DigitChar(n % 10)];
      assert r[..|r| - 1] == front;
      assert width > 0 && n < Pow10(width) ==> n / 10 < Pow10(width - 1);
      r
  }
}
