/**
 Decimal and hexadecimal digit strings: the canonical printed form of a number
 and its positional reading.
 */
module Digits {

  predicate Supported(base: nat) { base == 10 || base == 16 }

  const DIGITS: string := "0123456789ABCDEF"

  function DigitChar(d: nat): char
    requires d < 16
  {
    DIGITS[d]
  }

  /** The canonical digits of `n`, most significant first; "0" for zero. */
  function Print(n: nat, base: nat): (s: string)
    requires Supported(base)
  {
    if n < base then [DigitChar(n)] else Print(n / base, base) + [DigitChar(n % base)]
  }

  function DigitValue(c: char): int {
    if '0' <= c <= '9' then c as int - '0' as int
    else if 'A' <= c <= 'F' then c as int - 'A' as int + 10
    else -1
  }

  predicate IsDigit(c: char, base: nat) { 0 <= DigitValue(c) < base }

  /** The number a digit string denotes by position. */
  function Read(s: string, base: nat): int
    requires Supported(base)
    decreases |s|
  {
    if s == [] then 0 else Read(s[..|s|-1], base) * base + DigitValue(s[|s|-1])
  }

  lemma DigitRoundTrip(d: nat)
    requires d < 16
    ensures DigitValue(DigitChar(d)) == d
  {
    assert DIGITS[0] == '0' && DIGITS[9] == '9' && DIGITS[10] == 'A' && DIGITS[15] == 'F';
  }

  /** No leading zero, but for zero itself. */
  predicate Canonical(s: string, base: nat) {
    && |s| > 0 && (forall c <- s :: IsDigit(c, base))
    && (s[0] == '0' ==> |s| == 1)
  }

  lemma ReadSnoc(s: string, c: char, base: nat)
    requires Supported(base)
    ensures Read(s + [c], base) == Read(s, base) * base + DigitValue(c)
  {
    assert (s + [c])[..|s|] == s;
  }

  lemma DivMod(n: nat, base: nat)
    requires Supported(base)
    ensures n / base * base + n % base == n
  {
    if base == 10 {
      assert n / 10 * 10 + n % 10 == n;
    } else {
      assert n / 16 * 16 + n % 16 == n;
    }
  }

  /** Printing yields canonical digits whose positional reading is the number. */
  lemma {:induction false} ReadPrint(n: nat, base: nat)
    requires Supported(base)
    ensures Canonical(Print(n, base), base) && Read(Print(n, base), base) == n
    ensures n > 0 ==> Print(n, base)[0] != '0'
    decreases n
  {
    DigitRoundTrip(n % base);
    if n < base {
      DigitRoundTrip(n);
      ReadSnoc([], DigitChar(n), base);
      assert Print(n, base) == [] + [DigitChar(n)];
    } else {
      ReadPrint(n / base, base);
      ReadSnoc(Print(n / base, base), DigitChar(n % base), base);
      DivMod(n, base);
    }
  }

  function Pow(base: nat, k: nat): nat {
    if k == 0 then 1 else base * Pow(base, k - 1)
  }

  /** A number below base^k prints in at most k digits. */
  lemma {:induction false} PrintLength(n: nat, base: nat, k: nat)
    requires Supported(base) && k > 0 && n < Pow(base, k)
    ensures |Print(n, base)| <= k
    decreases k
  {
    if n >= base {
      assert k > 1 by {
        assert Pow(base, 1) == base * Pow(base, 0);
      }
      assert n / base < Pow(base, k - 1);
      PrintLength(n / base, base, k - 1);
    }
  }

  lemma {:induction false} PowAdd(base: nat, j: nat, k: nat)
    ensures Pow(base, j + k) == Pow(base, j) * Pow(base, k)
    decreases j
  {
    if j > 0 {
      PowAdd(base, j - 1, k);
      assert base * (Pow(base, j - 1) * Pow(base, k)) == base * Pow(base, j - 1) * Pow(base, k);
    }
  }

  lemma PowValues()
    ensures Pow(10, 20) == 100000000000000000000
    ensures Pow(16, 16) == 0x1_0000_0000_0000_0000
  {
    assert Pow(10, 1) == 10 && Pow(16, 1) == 16;
    PowAdd(10, 1, 1); PowAdd(10, 2, 2); PowAdd(10, 1, 4); PowAdd(10, 5, 5); PowAdd(10, 10, 10);
    PowAdd(16, 1, 1); PowAdd(16, 2, 2); PowAdd(16, 4, 4); PowAdd(16, 8, 8);
  }
}
