/** Decimal digit strings of natural numbers, as `String(n)` prints them. */
module Digits {
  predicate IsDigit(c: char) {
    '0' <= c <= '9'
  }

  predicate AllDigits(s: string) {
    forall i :: 0 <= i < |s| ==> IsDigit(s[i])
  }

  function DigitChar(d: nat): (c: char)
    requires d < 10
    ensures IsDigit(c) && DigitValue(c) == d
  {
    '0' + d as char
  }

  function DigitValue(c: char): nat
    requires IsDigit(c)
  {
    c as int - '0' as int
  }

  function ToText(n: nat): (s: string)
    ensures AllDigits(s) && s != ""
    ensures n != 0 ==> s[0] != '0'
  {
    if n < 10 then [DigitChar(n)] else ToText(n / 10) + [DigitChar(n % 10)]
  }

  function FromText(s: string): nat
    requires AllDigits(s)
  {
    if s == "" then 0 else FromText(s[..|s| - 1]) * 10 + DigitValue(s[|s| - 1])
  }

  function Zeros(n: nat): (s: string)
    ensures |s| == n && AllDigits(s)
  {
    seq(n, _ => '0')
  }

  /** `s.padStart(width, '0')`. */
  function PadStart(s: string, width: nat): (r: string)
    ensures |r| >= width && |r| >= |s|
    ensures AllDigits(s) ==> AllDigits(r)
  {
    if |s| >= width then s else Zeros(width - |s|) + s
  }

  lemma {:induction false} ReadBack(n: nat)
    ensures FromText(ToText(n)) == n
  {
    if n >= 10 {
      ReadBack(n / 10);
      assert ToText(n)[..|ToText(n)| - 1] == ToText(n / 10);
    }
  }

  lemma {:induction false} ReadPadded(zeros: nat, s: string)
    requires AllDigits(s)
    ensures AllDigits(Zeros(zeros) + s)
    ensures FromText(Zeros(zeros) + s) == FromText(s)
  {
    var t := Zeros(zeros) + s;
    if s != "" {
      ReadPadded(zeros, s[..|s| - 1]);
      assert t[..|t| - 1] == Zeros(zeros) + s[..|s| - 1];
    } else if zeros > 0 {
      ReadPadded(zeros - 1, s);
      assert t[..|t| - 1] == Zeros(zeros - 1) + s;
    }
  }

  lemma ReadPadStart(n: nat, width: nat)
    ensures FromText(PadStart(ToText(n), width)) == n
  {
    ReadBack(n);
    if |ToText(n)| < width {
      ReadPadded(width - |ToText(n)|, ToText(n));
    }
  }

  lemma ToTextInjective(m: nat, n: nat)
    requires ToText(m) == ToText(n)
    ensures m == n
  {
    ReadBack(m);
    ReadBack(n);
  }
}
