/** Text keys. Go's "%s:%d" is used twice: for cache keys (name and query type) and
    for upstream addresses (name and port). */
module Text {

  function Digit(d: nat): char
    requires d < 10
  {
    "0123456789"[d]
  }

  /** Decimal digits of a natural number, no leading zeros. */
  function Natural(n: nat): string
  {
    if n < 10 then [Digit(n)] else Natural(n / 10) + [Digit(n % 10)]
  }

  /** The "%d" verb on a Go int. */
  function Decimal(n: int): string
  {
    if n < 0 then "-" + Natural(-n) else Natural(n)
  }

  /** The "%s:%d" format. */
  function Key(name: string, number: int): string
  {
    name + ":" + Decimal(number)
  }

  lemma {:induction false} NaturalDigits(n: nat)
    ensures |Natural(n)| > 0
    ensures '-' !in Natural(n) && ':' !in Natural(n)
  {
    if n >= 10 {
      NaturalDigits(n / 10);
    }
  }

  /** The number that a string of digits denotes. */
  function Value(digits: string): int {
    if digits == "" then 0
    else 10 * Value(digits[..|digits| - 1]) + (digits[|digits| - 1] as int - '0' as int)
  }

  /** The number that a decimal text denotes. */
  function Read(text: string): int {
    if text != "" && text[0] == '-' then -Value(text[1..]) else Value(text)
  }

  lemma DigitValue(d: nat)
    requires d < 10
    ensures '0' <= Digit(d) <= '9' && Digit(d) as int - '0' as int == d
  {
  }

  /** The digits of a number denote it, and there are no leading zeros. */
  lemma {:induction false} NaturalValue(n: nat)
    ensures Value(Natural(n)) == n
    ensures forall i | 0 <= i < |Natural(n)| :: '0' <= Natural(n)[i] <= '9'
    ensures |Natural(n)| > 0 && (Natural(n)[0] == '0' <==> n == 0)
  {
    DigitValue(n % 10);
    var s := Natural(n);
    if n < 10 {
      assert s[..|s| - 1] == "";
    } else {
      NaturalValue(n / 10);
      assert s[..|s| - 1] == Natural(n / 10) && s[|s| - 1] == Digit(n % 10);
    }
  }

  lemma DecimalRead(n: int)
    ensures Read(Decimal(n)) == n
  {
    hide Natural, Value;
    if n < 0 {
      NaturalValue(-n);
      assert Decimal(n)[1..] == Natural(-n);
    } else {
      NaturalValue(n);
    }
  }

  /** A key is the name, a colon and a text that denotes the number. */
  lemma KeyReads(name: string, number: int)
    ensures var k := Key(name, number);
            |k| > |name| && k[..|name|] == name && k[|name|] == ':' && Read(k[|name| + 1..]) == number
  {
    DecimalRead(number);
    assert Key(name, number)[|name| + 1..] == Decimal(number);
  }

  lemma DecimalCharacters(n: int)
    ensures ':' !in Decimal(n)
    ensures '-' in Decimal(n) <==> n < 0
  {
    NaturalDigits(if n < 0 then -n else n);
    assert n < 0 ==> Decimal(n)[0] == '-';
  }

  lemma DecimalInjective(m: int, n: int)
    requires Decimal(m) == Decimal(n)
    ensures m == n
  {
    DecimalRead(m);
    DecimalRead(n);
  }

  /** A key determines both of its parts, even when the name itself contains ':'. */
  lemma KeyInjective(a: string, m: int, b: string, n: int)
    ensures Key(a, m) == Key(b, n) <==> a == b && m == n
  {
    if Key(a, m) == Key(b, n) {
      DecimalCharacters(m);
      DecimalCharacters(n);
      var k := Key(a, m);
      assert k[|a|] == ':' && k[|b|] == ':';
      assert |a| == |b| by {
        if |a| < |b| {
          assert false;
        } else if |b| < |a| {
          assert false;
        }
      }
      assert a == k[..|a|] && b == k[..|b|];
      assert Decimal(m) == k[|a| + 1..] && Decimal(n) == k[|b| + 1..];
      DecimalInjective(m, n);
    }
  }
}
