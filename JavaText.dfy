/** The pieces of Java arithmetic and text conversion the ledger relies on:
    `long` division and remainder (which truncate toward zero, unlike
    Dafny's Euclidean `/` and `%`), Long.toString, String.format("%02d")
    and List.toString, and the "reais,cents" rendering the sources build
    from them. */
module JavaText {

  /** Java's `a / d` for a positive divisor: the quotient truncated toward zero. */
  function JavaDiv(a: int, d: int): int
    requires d > 0
  {
    if a >= 0 then a / d else -((-a) / d)
  }

  /** Java's `a % d` for a positive divisor: the remainder takes the sign of `a`. */
  function JavaRem(a: int, d: int): int
    requires d > 0
  {
    if a >= 0 then a % d else -((-a) % d)
  }

  /** Truncating division is characterised by `a == d*q + r` with `r`
      carrying the sign of `a` and `|r| < d`; on non-negative operands it
      agrees with Dafny's operators. */
  lemma JavaDivision(a: int, d: int)
    requires d > 0
    ensures d * JavaDiv(a, d) + JavaRem(a, d) == a
    ensures a >= 0 ==> 0 <= JavaRem(a, d) < d
    ensures a < 0 ==> -d < JavaRem(a, d) <= 0
    ensures a >= 0 ==> JavaDiv(a, d) == a / d && JavaRem(a, d) == a % d
    ensures JavaDiv(-a, d) == -JavaDiv(a, d)
  {
    if a < 0 {
      assert d * ((-a) / d) + (-a) % d == -a;
    }
  }

  predicate IsDigit(c: char) { '0' <= c <= '9' }

  predicate AllDigits(s: string) { forall i :: 0 <= i < |s| ==> IsDigit(s[i]) }

  function DigitChar(d: int): (c: char)
    requires 0 <= d < 10
    ensures IsDigit(c) && c as int - '0' as int == d
  {
    (d + '0' as int) as char
  }

  /** Long.toString of a non-negative value: decimal digits, no leading zero. */
  function NatToString(n: nat): (s: string)
    ensures |s| >= 1 && AllDigits(s)
    ensures |s| > 1 ==> s[0] != '0'
    ensures n < 10 <==> |s| == 1
  {
    if n < 10 then [DigitChar(n)] else NatToString(n / 10) + [DigitChar(n % 10)]
  }

  /** The value a string of decimal digits denotes. */
  function ParseDigits(s: string): nat
    requires AllDigits(s)
  {
    if s == [] then 0
    else 10 * ParseDigits(s[..|s| - 1]) + (s[|s| - 1] as int - '0' as int)
  }

  lemma {:induction false} ParseNatToString(n: nat)
    ensures ParseDigits(NatToString(n)) == n
  {
    if n >= 10 {
      var s := NatToString(n);
      assert s[..|s| - 1] == NatToString(n / 10);
      ParseNatToString(n / 10);
    }
  }

  /** Long.toString / string concatenation of a `long`. */
  function LongToString(n: int): string
  {
    if n < 0 then "-" + NatToString(-n) else NatToString(n)
  }

  /** String.format("%02d", n): at least two characters, zero-padded. */
  function Pad2(n: int): string
  {
    if 0 <= n < 10 then "0" + NatToString(n) else LongToString(n)
  }

  /** `(c / 100) + "," + String.format("%02d", c % 100)`, the way every
      amount in cents is shown (Wallet.java:117, AccountWallet.java:44,
      and the descriptions built by the wallets and repositories). */
  function Reais(c: int): string
  {
    LongToString(JavaDiv(c, 100)) + "," + Pad2(JavaRem(c, 100))
  }

  /** For a non-negative amount the rendering reads back: the digits
      before the comma are `c / 100` and exactly two digits after it
      are `c % 100`. */
  lemma ReaisRoundTrip(c: int)
    requires c >= 0
    ensures var s := Reais(c);
      && |s| >= 4 && s[|s| - 3] == ','
      && AllDigits(s[..|s| - 3]) && AllDigits(s[|s| - 2..])
      && ParseDigits(s[..|s| - 3]) == c / 100
      && ParseDigits(s[|s| - 2..]) == c % 100
  {
    var s := Reais(c);
    var whole, cents := NatToString(c / 100), Pad2(c % 100);
    assert s == whole + "," + cents;
    assert |cents| == 2 && AllDigits(cents) && ParseDigits(cents) == c % 100 by {
      if c % 100 < 10 {
        assert cents == ['0', DigitChar(c % 100)];
        assert cents[..1] == ['0'] && cents[..1][..0] == [];
        assert ParseDigits(cents[..1]) == 0;
      } else {
        assert NatToString(c % 100) == NatToString(c % 100 / 10) + [DigitChar(c % 100 % 10)];
        ParseNatToString(c % 100);
      }
    }
    assert s[..|s| - 3] == whole;
    assert s[|s| - 2..] == cents;
    ParseNatToString(c / 100);
  }

  /** The elements joined by ", ", as AbstractCollection.toString does. */
  function Join(xs: seq<string>): string
  {
    if |xs| == 0 then ""
    else if |xs| == 1 then xs[0]
    else xs[0] + ", " + Join(xs[1..])
  }

  /** List.toString of a list of strings. */
  function ListToString(xs: seq<string>): string
  {
    "[" + Join(xs) + "]"
  }
}
