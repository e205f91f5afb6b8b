/** Characters and NUL-terminated strings as the original program sees them.
    A C string is a `seq<char>` read through `At`, which yields the
    terminating NUL at and past the end, so that "the cursor is at the end"
    is `At(s, i) == '\0'` exactly as `!**in` is in C.  Character classes are
    the ASCII ones of the C locale. */
module Chars {

  const NUL: char := '\0'

  /** The character under a cursor, NUL at or past the end. */
  function At(s: string, i: int): (c: char)
    ensures 0 <= i < |s| ==> c == s[i]
    ensures (i < 0 || i >= |s|) ==> c == NUL
  {
    if 0 <= i < |s| then s[i] else NUL
  }

  /** No embedded NUL: the whole sequence is one C string. */
  predicate NulFree(s: string) {
    forall i :: 0 <= i < |s| ==> s[i] != NUL
  }

  predicate IsDigit(c: char) { '0' <= c <= '9' }
  predicate IsUpper(c: char) { 'A' <= c <= 'Z' }
  predicate IsLower(c: char) { 'a' <= c <= 'z' }
  predicate IsAlnum(c: char) { IsDigit(c) || IsUpper(c) || IsLower(c) }

  /** `ISID`: a character that may occur in an identifier. */
  predicate IsId(c: char) { IsAlnum(c) || c == '_' }

  /** `tolower` of the C locale. */
  function Lower(c: char): (r: char)
    ensures IsUpper(c) ==> IsLower(r) && r as int == c as int + 32
    ensures !IsUpper(c) ==> r == c
  {
    if IsUpper(c) then (c as int + 32) as char else c
  }

  function LowerString(s: string): (r: string)
    ensures |r| == |s|
    ensures forall i :: 0 <= i < |s| ==> r[i] == Lower(s[i])
  {
    if s == [] then [] else [Lower(s[0])] + LowerString(s[1..])
  }

  function DigitValue(c: char): int { c as int - '0' as int }

  function DigitChar(d: int): (c: char)
    requires 0 <= d <= 9
    ensures IsDigit(c) && DigitValue(c) == d
  {
    ('0' as int + d) as char
  }

  predicate AllDigits(d: string) {
    forall i :: 0 <= i < |d| ==> IsDigit(d[i])
  }

  /** Every character of `s[i..j]` is a digit. */
  predicate DigitsIn(s: string, i: int, j: int) {
    forall t :: i <= t < j ==> IsDigit(At(s, t))
  }

  /** The end of the run of digits that starts at `i`. */
  function DigitsEnd(s: string, i: nat): (j: nat)
    requires i <= |s|
    ensures i <= j <= |s|
    ensures !IsDigit(At(s, j))
    decreases |s| - i
  {
    if i < |s| && IsDigit(s[i]) then DigitsEnd(s, i + 1) else i
  }

  /** Everything the digit scanner passes over is a digit. */
  lemma {:induction false} DigitsEndRun(s: string, i: nat)
    requires i <= |s|
    ensures DigitsIn(s, i, DigitsEnd(s, i))
    decreases |s| - i
  {
    if i < |s| && IsDigit(s[i]) {
      DigitsEndRun(s, i + 1);
    }
  }

  /** The value of the digits `s[i..j]`, read left to right as the
      accumulator loops `x = x * 10 + digit` of the original program do,
      computed exactly. */
  function RunValue(s: string, i: int, j: int): int
    decreases j - i
  {
    if j <= i then 0 else RunValue(s, i, j - 1) * 10 + DigitValue(At(s, j - 1))
  }

  /** The value of a whole digit string. */
  function DecValue(d: string): int {
    RunValue(d, 0, |d|)
  }

  /** Two strings that agree on their first `n` characters have the same
      value there. */
  lemma {:induction false} RunValueAgree(a: string, b: string, n: nat)
    requires n <= |a| && n <= |b| && a[..n] == b[..n]
    ensures RunValue(a, 0, n) == RunValue(b, 0, n)
  {
    if n > 0 {
      assert a[..n - 1] == a[..n][..n - 1];
      assert b[..n - 1] == b[..n][..n - 1];
      RunValueAgree(a, b, n - 1);
      assert a[n - 1] == a[..n][n - 1];
      assert b[n - 1] == b[..n][n - 1];
    }
  }

  /** The value of a run in place is the value of its slice. */
  lemma {:induction false} RunValueSlice(s: string, i: nat, j: nat)
    requires i <= j <= |s|
    ensures RunValue(s, i, j) == DecValue(s[i..j])
    decreases j - i
  {
    if i < j {
      RunValueSlice(s, i, j - 1);
      var t, u := s[i..j], s[i..j - 1];
      assert t[..j - 1 - i] == u[..j - 1 - i];
      RunValueAgree(t, u, j - 1 - i);
      assert At(t, j - 1 - i) == At(s, j - 1);
    }
  }

  /** A run of digits is worth at least as much as any of its prefixes. */
  lemma {:induction false} RunValuePrefix(s: string, i: nat, k: nat, j: nat)
    requires i <= k <= j && DigitsIn(s, i, j)
    ensures 0 <= RunValue(s, i, k) <= RunValue(s, i, j)
    decreases j - i
  {
    if k < j {
      RunValuePrefix(s, i, k, j - 1);
      assert IsDigit(At(s, j - 1));
    } else if i < j {
      RunValuePrefix(s, i, j - 1, j - 1);
      assert IsDigit(At(s, j - 1));
    }
  }

  /** The run the digit scanner passes over has a natural value. */
  lemma RunNonneg(s: string, i: nat)
    requires i <= |s|
    ensures RunValue(s, i, DigitsEnd(s, i)) >= 0
  {
    DigitsEndRun(s, i);
    RunValuePrefix(s, i, i, DigitsEnd(s, i));
  }

  /** Reads the run of digits at `i`, accumulating its value. */
  method ReadDigits(s: string, i: nat) returns (j: nat, n: int)
    requires i <= |s|
    ensures j == DigitsEnd(s, i)
    ensures n == RunValue(s, i, j) && n >= 0
  {
    j, n := i, 0;
    while j < |s| && IsDigit(s[j])
      invariant i <= j <= |s| && DigitsIn(s, i, j)
      invariant DigitsEnd(s, j) == DigitsEnd(s, i)
      invariant n == RunValue(s, i, j) && n >= 0
      decreases |s| - j
    {
      n := n * 10 + DigitValue(s[j]);
      j := j + 1;
    }
  }

  /** A run of digits `d` placed after `p` and before a non-digit is the
      whole run the scanner reads at `|p|`. */
  lemma {:induction false} DigitRun(p: string, d: string, q: string)
    requires AllDigits(d) && !IsDigit(At(q, 0))
    ensures DigitsEnd(p + d + q, |p|) == |p| + |d|
    ensures (p + d + q)[|p|..|p| + |d|] == d
    decreases |d|
  {
    var s := p + d + q;
    if d != [] {
      assert s == (p + [d[0]]) + d[1..] + q;
      DigitRun(p + [d[0]], d[1..], q);
    } else if q == [] {
      assert |s| == |p|;
    } else {
      assert s[|p|] == q[0];
    }
  }

  /** The shortest decimal rendering of a natural number, as `%d` prints it. */
  function Decimal(n: nat): (d: string)
    ensures |d| > 0
    ensures DecValue(d) == n
    ensures n >= 10 ==> d[0] != '0'
  {
    if n < 10 then
      var d := [DigitChar(n)];
      assert RunValue(d, 0, 1) == RunValue(d, 0, 0) * 10 + DigitValue(d[0]);
      d
    else
      var p := Decimal(n / 10);
      var d := p + [DigitChar(n % 10)];
      assert d[..|p|] == p[..|p|];
      RunValueAgree(d, p, |p|);
      d
  }

  /** `%0<w>d` of a natural number: left padding with zeros to width `w`. */
  function ZeroPad(d: string, w: int): (r: string)
    ensures |r| == if |d| >= w then |d| else w
    ensures DecValue(r) == DecValue(d)
    decreases w - |d|
  {
    if |d| >= w then d
    else
      var r := ZeroPad(['0'] + d, w);
      LeadingZero(d);
      r
  }

  /** A leading zero does not change the value of a digit run. */
  lemma {:induction false} LeadingZero(d: string)
    ensures DecValue(['0'] + d) == DecValue(d)
    decreases |d|
  {
    var z := ['0'] + d;
    if d == [] {
      assert RunValue(z, 0, 1) == RunValue(z, 0, 0) * 10 + DigitValue(z[0]);
    } else {
      var p := d[..|d| - 1];
      var zp := ['0'] + p;
      assert z[..|zp|] == zp[..|zp|];
      RunValueAgree(z, zp, |zp|);
      LeadingZero(p);
      assert d[..|p|] == p[..|p|];
      RunValueAgree(d, p, |p|);
      assert RunValue(z, 0, |z|) == RunValue(z, 0, |zp|) * 10 + DigitValue(z[|zp|]);
      assert RunValue(d, 0, |d|) == RunValue(d, 0, |p|) * 10 + DigitValue(d[|p|]);
      assert z[|zp|] == d[|p|];
    }
  }

  /** `sprintf("%0<w>d", x)`: the sign, then the magnitude padded with zeros
      so that sign and digits together take at least `w` characters. */
  function FormatInt(x: int, w: int): (r: string)
    ensures |r| > 0
    ensures x >= 0 ==> DecValue(r) == x
    ensures x < 0 ==> r[0] == '-' && DecValue(r[1..]) == -x
  {
    if x < 0 then
      var r := "-" + ZeroPad(Decimal(-x), w - 1);
      assert r[1..] == ZeroPad(Decimal(-x), w - 1);
      r
    else ZeroPad(Decimal(x), w)
  }

  /** `%d` writes digits only, after the sign of a negative number. */
  lemma FormatIntDigits(x: int, w: int)
    ensures x >= 0 ==> AllDigits(FormatInt(x, w))
    ensures x < 0 ==> AllDigits(FormatInt(x, w)[1..])
  {
    if x < 0 {
      DecimalDigits(-x);
      ZeroPadDigits(Decimal(-x), w - 1);
      assert FormatInt(x, w)[1..] == ZeroPad(Decimal(-x), w - 1);
    } else {
      DecimalDigits(x);
      ZeroPadDigits(Decimal(x), w);
    }
  }

  lemma {:induction false} DecimalDigits(n: nat)
    ensures AllDigits(Decimal(n))
  {
    if n >= 10 {
      DecimalDigits(n / 10);
    }
  }

  lemma {:induction false} ZeroPadDigits(d: string, w: int)
    requires AllDigits(d)
    ensures AllDigits(ZeroPad(d, w))
    decreases w - |d|
  {
    if |d| < w {
      ZeroPadDigits(['0'] + d, w);
    }
  }

  /** C's `strcmp` from index `i` on: the difference of the first pair of
      characters that differ, or 0 when both strings end together. */
  function StrCmp(a: string, b: string, i: nat := 0): int
    requires i <= |a|
    decreases |a| - i
  {
    var ca, cb := At(a, i), At(b, i);
    if ca != cb then ca as int - cb as int
    else if ca == NUL then 0
    else StrCmp(a, b, i + 1)
  }

  /** Two C strings compare equal exactly when they are the same string. */
  lemma {:induction false} StrCmpZero(a: string, b: string, i: nat)
    requires NulFree(a) && NulFree(b) && i <= |a| && i <= |b|
    ensures StrCmp(a, b, i) == 0 <==> a[i..] == b[i..]
    decreases |a| - i
  {
    if At(a, i) == At(b, i) && At(a, i) != NUL {
      StrCmpZero(a, b, i + 1);
      assert a[i..] == [a[i]] + a[i + 1..];
      assert b[i..] == [b[i]] + b[i + 1..];
    } else if At(a, i) != At(b, i) {
      if i < |a| && i < |b| {
        assert a[i..][0] != b[i..][0];
      } else {
        assert |a[i..]| != |b[i..]|;
      }
    }
  }

  /** Swapping the arguments negates the comparison. */
  lemma {:induction false} StrCmpSwap(a: string, b: string, i: nat)
    requires i <= |a| && i <= |b|
    ensures StrCmp(b, a, i) == -StrCmp(a, b, i)
    decreases |a| - i
  {
    if At(a, i) == At(b, i) && At(a, i) != NUL {
      StrCmpSwap(a, b, i + 1);
    }
  }

  /** The order `strcmp` defines is transitive. */
  lemma {:induction false} StrCmpTrans(a: string, b: string, c: string, i: nat)
    requires i <= |a| && i <= |b| && i <= |c|
    requires StrCmp(a, b, i) < 0 && StrCmp(b, c, i) < 0
    ensures StrCmp(a, c, i) < 0
    decreases |a| - i
  {
    if At(a, i) == At(b, i) && At(b, i) == At(c, i) {
      StrCmpTrans(a, b, c, i + 1);
    }
  }

  /** Lexicographic order: `a` is a proper prefix of `b`, or the two agree
      up to a position where `a` has the smaller character. */
  predicate LexLess(a: string, b: string) {
    (|a| < |b| && a == b[..|a|]) ||
    exists k :: 0 <= k < |a| && k < |b| && a[..k] == b[..k] && a[k] < b[k]
  }

  /** `strcmp` is negative exactly when its first argument comes first in
      lexicographic order, from any position up to which the two agree. */
  lemma {:induction false} StrCmpLess(a: string, b: string, i: nat)
    requires NulFree(a) && NulFree(b) && i <= |a| && i <= |b|
    requires a[..i] == b[..i]
    ensures StrCmp(a, b, i) < 0 <==> LexLess(a, b)
    decreases |a| - i
  {
    if i < |a| && i < |b| && a[i] == b[i] {
      assert a[..i + 1] == a[..i] + [a[i]] && b[..i + 1] == b[..i] + [b[i]];
      StrCmpLess(a, b, i + 1);
    } else {
      forall k | 0 <= k < i
        ensures a[k] == b[k]
      {
        assert a[..i][k] == a[k] && b[..i][k] == b[k];
      }
      if i < |a| && i < |b| {
        assert a[i] != b[i];
        if a[i] < b[i] {
          assert a[..i] == b[..i] && a[i] < b[i];
        }
      } else if i == |a| && i < |b| {
        assert a == b[..|a|];
      } else {
        assert StrCmp(a, b, i) >= 0;
        assert !(|a| < |b|);
      }
    }
  }
}
