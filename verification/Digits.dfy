/** Numbers written in decimal, as file names carry them. */
module Digits {
  import opened Wrappers

  predicate IsDigit(c: char) { '0' <= c <= '9' }

  predicate AllDigits(s: string) {
    forall i :: 0 <= i < |s| ==> IsDigit(s[i])
  }

  /** The number a text of digits stands for; the empty text stands for 0. */
  function DigitsValue(s: string): Option<nat> {
    if s == "" then Some(0)
    else if !IsDigit(s[|s| - 1]) then None
    else
      match DigitsValue(s[..|s| - 1])
      case None => None
      case Some(n) => Some(10 * n + (s[|s| - 1] as int - '0' as int))
  }

  function Digit(n: int): char
    requires 0 <= n < 10
  {
    '0' + n as char
  }

  /** The last `width` digits of a number, as Go's `%04d` writes one that fits. */
  function Padded(n: nat, width: nat): (s: string)
    ensures |s| == width
  {
    if width == 0 then "" else Padded(n / 10, width - 1) + [Digit(n % 10)]
  }

  /** The character for a digit. */
  function DigitChar(d: nat): char
    requires d <= 9
  {
    "0123456789"[d]
  }

  lemma PaddedNext(m: nat, d: nat, width: nat, n: nat)
    requires d <= 9 && n == 10 * m + d
    ensures Padded(n, width + 1) == Padded(m, width) + [DigitChar(d)]
  {
    assert n / 10 == m && n % 10 == d;
  }

  lemma {:induction false} TwoDigits(a: nat, b: nat, n: nat)
    requires a <= 9 && b <= 9 && n == 10 * a + b
    ensures Padded(n, 2) == [DigitChar(a), DigitChar(b)]
  {
    PaddedNext(0, a, 0, a);
    PaddedNext(a, b, 1, n);
  }

  lemma {:induction false} ThreeDigits(a: nat, b: nat, c: nat, n: nat)
    requires a <= 9 && b <= 9 && c <= 9 && n == 100 * a + 10 * b + c
    ensures Padded(n, 3) == [DigitChar(a), DigitChar(b), DigitChar(c)]
  {
    TwoDigits(a, b, 10 * a + b);
    PaddedNext(10 * a + b, c, 2, n);
  }

  /** Most significant first. */
  lemma {:induction false} FourDigits(a: nat, b: nat, c: nat, d: nat, n: nat)
    requires a <= 9 && b <= 9 && c <= 9 && d <= 9 && n == 1000 * a + 100 * b + 10 * c + d
    ensures Padded(n, 4) == [DigitChar(a), DigitChar(b), DigitChar(c), DigitChar(d)]
  {
    ThreeDigits(a, b, c, 100 * a + 10 * b + c);
    PaddedNext(100 * a + 10 * b + c, d, 3, n);
  }

  function PowerOfTen(width: nat): nat {
    if width == 0 then 1 else 10 * PowerOfTen(width - 1)
  }

  lemma {:induction false} ValueNeedsDigits(s: string)
    ensures DigitsValue(s).Some? <==> AllDigits(s)
    decreases |s|
  {
    if s != "" {
      var front := s[..|s| - 1];
      ValueNeedsDigits(front);
      assert forall i :: 0 <= i < |front| ==> front[i] == s[i];
    }
  }

  lemma {:induction false} PaddedValue(n: nat, width: nat)
    requires n < PowerOfTen(width)
    ensures DigitsValue(Padded(n, width)) == Some(n)
    decreases width
  {
    if width > 0 {
      var s := Padded(n, width);
      PaddedValue(n / 10, width - 1);
      assert s[..|s| - 1] == Padded(n / 10, width - 1);
    }
  }

  /** A text of digits is the padded form of its value, so two of one length and value are
      the same. */
  lemma {:induction false} ValuePadded(s: string)
    requires AllDigits(s)
    ensures DigitsValue(s).Some? && DigitsValue(s).value < PowerOfTen(|s|)
    ensures Padded(DigitsValue(s).value, |s|) == s
    decreases |s|
  {
    if s != "" {
      var front := s[..|s| - 1];
      assert forall i :: 0 <= i < |front| ==> front[i] == s[i];
      ValuePadded(front);
      assert s == front + [s[|s| - 1]];
      assert DigitsValue(s).value / 10 == DigitsValue(front).value;
    }
  }
}
