/** Natural numbers written in a base up to sixteen, as `toString(base)` writes them, and read back. */
module Numerals {
  function DigitChar(d: nat): char
    requires d < 16
  {
    if d < 10 then '0' + d as char else 'a' + (d - 10) as char
  }

  predicate IsDigitIn(c: char, base: nat)
    requires 2 <= base <= 16
  {
    exists d: nat | d < base :: DigitChar(d) == c
  }

  function DigitValue(c: char): nat {
    if '0' <= c <= '9' then (c - '0') as nat else if 'a' <= c <= 'f' then (c - 'a') as nat + 10 else 0
  }

  function Render(n: nat, base: nat): (s: string)
    requires 2 <= base <= 16
    ensures s != []
    decreases n
  {
    if n < base then [DigitChar(n)] else Render(n / base, base) + [DigitChar(n % base)]
  }

  lemma {:induction false} RenderedDigits(n: nat, base: nat)
    requires 2 <= base <= 16
    ensures forall i | 0 <= i < |Render(n, base)| :: IsDigitIn(Render(n, base)[i], base)
    decreases n
  {
    if n < base {
      assert IsDigitIn(DigitChar(n), base);
    } else {
      RenderedDigits(n / base, base);
      assert IsDigitIn(DigitChar(n % base), base);
    }
  }

  /** A digit as `toString(16)` writes it. */
  predicate IsLowerHexDigit(c: char) {
    '0' <= c <= '9' || 'a' <= c <= 'f'
  }

  predicate IsHexDigit(c: char) {
    IsLowerHexDigit(c) || 'A' <= c <= 'F'
  }

  /** A text of decimal digits. */
  predicate Decimal(s: string) {
    forall i | 0 <= i < |s| :: '0' <= s[i] <= '9'
  }

  lemma RenderedIsDecimal(n: nat)
    ensures Decimal(Render(n, 10))
  {
    RenderedDigits(n, 10);
    assert forall c | IsDigitIn(c, 10) :: '0' <= c <= '9';
  }

  function Value(s: string, base: nat): nat {
    if s == [] then 0 else base * Value(s[..|s| - 1], base) + DigitValue(s[|s| - 1])
  }

  lemma DigitIsReadBack(d: nat)
    requires d < 16
    ensures DigitValue(DigitChar(d)) == d
  {
    var c := DigitChar(d);
    assert c as int == if d < 10 then '0' as int + d else 'a' as int + d - 10;
  }

  lemma ValueOfAppended(s: string, d: nat, base: nat)
    requires d < 16
    ensures Value(s + [DigitChar(d)], base) == base * Value(s, base) + d
  {
    DigitIsReadBack(d);
    assert (s + [DigitChar(d)])[..|s|] == s;
  }

  lemma QuotientIs(n: nat, base: nat, quotient: nat, rest: nat)
    requires n == quotient * base + rest && rest < base
    ensures n / base == quotient && n % base == rest
  {
    Division(n, base);
    if n / base < quotient {
      Monotone(base, n / base + 1, quotient);
    } else if quotient < n / base {
      Monotone(base, quotient + 1, n / base);
    }
  }

  lemma Division(n: nat, base: nat)
    requires base > 0
    ensures base * (n / base) + n % base == n && n % base < base
    ensures base >= 2 && n >= base ==> n / base < n
  {
  }

  lemma {:induction false} ValueOfRender(n: nat, base: nat)
    requires 2 <= base <= 16
    ensures Value(Render(n, base), base) == n
    decreases n
  {
    if n < base {
      ValueOfAppended([], n, base);
      assert [] + [DigitChar(n)] == Render(n, base);
    } else {
      Division(n, base);
      RenderStep(n, base);
      ValueOfRender(n / base, base);
      ValueOfStep(Render(n / base, base), n / base, n % base, base, n);
    }
  }

  lemma ValueOfStep(rendered: string, quotient: nat, digit: nat, base: nat, n: nat)
    requires digit < 16 && Value(rendered, base) == quotient && base * quotient + digit == n
    ensures Value(rendered + [DigitChar(digit)], base) == n
  {
    ValueOfAppended(rendered, digit, base);
  }

  lemma RenderStep(n: nat, base: nat)
    requires 2 <= base <= 16 && n >= base
    ensures Render(n, base) == Render(n / base, base) + [DigitChar(n % base)]
  {
  }

  lemma RenderIsInjective(m: nat, n: nat, base: nat)
    requires 2 <= base <= 16 && Render(m, base) == Render(n, base)
    ensures m == n
  {
    ValueOfRender(m, base);
    ValueOfRender(n, base);
  }

  /** `padStart(width, "0")`. */
  function PadStart(s: string, width: nat): string
    decreases width - |s|
  {
    if |s| >= width then s else PadStart("0" + s, width)
  }

  lemma {:induction false} LeadingZero(s: string, base: nat)
    ensures Value("0" + s, base) == Value(s, base)
  {
    var z := "0" + s;
    if s == [] {
      assert z[..|z| - 1] == [];
    } else {
      LeadingZero(s[..|s| - 1], base);
      assert z[..|z| - 1] == "0" + s[..|s| - 1];
    }
  }

  lemma {:induction false} Padded(s: string, width: nat, base: nat)
    requires 2 <= base <= 16 && |s| <= width
    requires forall i | 0 <= i < |s| :: IsDigitIn(s[i], base)
    ensures |PadStart(s, width)| == width
    ensures forall i | 0 <= i < width :: IsDigitIn(PadStart(s, width)[i], base)
    ensures Value(PadStart(s, width), base) == Value(s, base)
    decreases width - |s|
  {
    if |s| < width {
      LeadingZero(s, base);
      assert DigitChar(0) == '0';
      Padded("0" + s, width, base);
    }
  }

  function Pow(base: nat, k: nat): nat {
    if k == 0 then 1 else base * Pow(base, k - 1)
  }

  lemma {:induction false} RenderIsShort(n: nat, base: nat, k: nat)
    requires 2 <= base <= 16 && k >= 1 && n < Pow(base, k)
    ensures |Render(n, base)| <= k
    decreases k
  {
    if n >= base {
      if k == 1 {
        assert false;
      } else {
        Quotient(n, base, Pow(base, k - 1));
        RenderIsShort(n / base, base, k - 1);
      }
    }
  }

  lemma Quotient(n: nat, base: nat, bound: nat)
    requires base > 0 && n < base * bound
    ensures n / base < bound
  {
    if n / base >= bound {
      Monotone(base, bound, n / base);
    }
  }

  lemma Monotone(factor: nat, a: nat, b: nat)
    requires a <= b
    ensures factor * a <= factor * b
  {
  }
}
