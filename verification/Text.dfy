/** Rendering of numbers as text, and the reason composite text keys are unambiguous. */
module Text {

  const DIGITS := "0123456789abcdef"

  function DigitChar(d: nat): (c: char)
    requires d < 16
    ensures c in DIGITS
  {
    DIGITS[d]
  }

  function LowDigit(n: nat, hex: bool): (d: nat)
    ensures d < 16
  {
    if hex then n % 16 else n % 10
  }

  function HighPart(n: nat, hex: bool): nat {
    if hex then n / 16 else n / 10
  }

  /** The text of `n` in base ten, or sixteen when `hex`, most significant digit first. */
  function Digits(n: nat, hex: bool): (s: string)
    ensures |s| > 0 && forall c | c in s :: c in DIGITS
    decreases n
  {
    (if HighPart(n, hex) == 0 then [] else Digits(HighPart(n, hex), hex)) + [DigitChar(LowDigit(n, hex))]
  }

  lemma DigitCharInjective(i: nat, j: nat)
    requires i < 16 && j < 16 && DigitChar(i) == DigitChar(j)
    ensures i == j
  {
  }

  lemma {:induction false} DigitsInjective(m: nat, n: nat, hex: bool)
    requires Digits(m, hex) == Digits(n, hex)
    ensures m == n
    decreases m
  {
    var s, t := Digits(m, hex), Digits(n, hex);
    assert s[|s| - 1] == DigitChar(LowDigit(m, hex)) && t[|t| - 1] == DigitChar(LowDigit(n, hex));
    DigitCharInjective(LowDigit(m, hex), LowDigit(n, hex));
    var i, j := HighPart(m, hex), HighPart(n, hex);
    assert s[..|s| - 1] == if i == 0 then [] else Digits(i, hex);
    assert t[..|t| - 1] == if j == 0 then [] else Digits(j, hex);
    if i > 0 && j > 0 {
      DigitsInjective(i, j, hex);
    }
  }

  /** A token made of digits ends at the first character that is not a digit. */
  lemma TokenEnds(a: string, c: char, x: string, b: string, d: char, y: string)
    requires forall ch | ch in a :: ch in DIGITS
    requires forall ch | ch in b :: ch in DIGITS
    requires c !in DIGITS && d !in DIGITS
    requires a + [c] + x == b + [d] + y
    ensures a == b && c == d && x == y
  {
    var s, t := a + [c] + x, b + [d] + y;
    assert s[|a|] == c && t[|b|] == d;
    if |a| != |b| {
      assert false;
    }
    assert a == s[..|a|] && b == t[..|b|];
    assert x == s[|a| + 1..] && y == t[|b| + 1..];
  }
}
