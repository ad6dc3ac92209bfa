/** Integers: sorted sets and printed numerals. */
module Numbers {

  predicate IsLeast(least: int, ids: set<int>) {
    least in ids && forall i :: i in ids ==> least <= i
  }

  /** The ids in increasing order. */
  function Sorted(ids: set<int>): (out: seq<int>)
    ensures forall i :: i in out <==> i in ids
    ensures forall i, j :: 0 <= i < j < |out| ==> out[i] < out[j]
    ensures |out| == |ids|
  {
    if ids == {} then []
    else
      LeastExists(ids);
      var least :| IsLeast(least, ids);
      LeastBelow(least, ids, Sorted(ids - {least}));
      [least] + Sorted(ids - {least})
  }

  lemma LeastBelow(least: int, ids: set<int>, rest: seq<int>)
    requires IsLeast(least, ids)
    requires forall i :: i in rest <==> i in ids - {least}
    ensures forall k :: 0 <= k < |rest| ==> least < rest[k]
    ensures forall i :: i in [least] + rest <==> i in ids
  {
    forall k | 0 <= k < |rest| ensures least < rest[k] { assert rest[k] in rest; }
  }

  lemma Pick<T>(s: set<T>) returns (x: T)
    requires s != {}
    ensures x in s
  {
    x :| x in s;
  }

  lemma {:induction false} LeastExists(ids: set<int>)
    requires ids != {}
    ensures exists least :: IsLeast(least, ids)
  {
    var some := Pick(ids);
    var rest := ids - {some};
    if rest == {} {
      assert forall i :: i in ids ==> i == some || i in rest;
      assert IsLeast(some, ids);
    } else {
      LeastExists(rest);
      var least :| IsLeast(least, rest);
      forall i | i in ids ensures (if some < least then some else least) <= i {
        assert i == some || i in rest;
      }
      assert IsLeast(if some < least then some else least, ids);
    }
  }

  const DIGITS := "0123456789abcdef"

  function Digit(d: nat): char
    requires d < 16
  {
    DIGITS[d]
  }

  /** The numeral of a natural number in a base up to 16. */
  function Numeral(n: nat, base: nat): (text: string)
    requires 2 <= base <= 16
    ensures |text| >= 1
  {
    if n < base then [Digit(n)] else Numeral(n / base, base) + [Digit(n % base)]
  }

  /** A number in decimal, without leading zeros. */
  function Decimal(n: int): string {
    if n < 0 then "-" + Numeral(-n, 10) else Numeral(n, 10)
  }

  // ----- decimal texts

  predicate IsDigit(c: char) {
    '0' <= c <= '9'
  }

  predicate AllDigits(text: string) {
    forall k :: 0 <= k < |text| ==> IsDigit(text[k])
  }

  /** The number a text of decimal digits stands for. */
  function ParseDigits(text: string): nat
    requires AllDigits(text)
  {
    if text == "" then 0 else 10 * ParseDigits(text[..|text| - 1]) + (text[|text| - 1] - '0') as nat
  }

  lemma {:induction false} DigitValue(d: nat)
    requires d < 10
    ensures IsDigit(Digit(d)) && (Digit(d) - '0') as nat == d
  {
  }

  lemma {:induction false} NumeralDigits(n: nat)
    ensures AllDigits(Numeral(n, 10))
    ensures ParseDigits(Numeral(n, 10)) == n
    decreases n
  {
    hide Digit;
    DigitValue(n % 10);
    if n < 10 {
      assert ParseDigits([Digit(n)][..0]) == 0;
    } else {
      NumeralDigits(n / 10);
      var high := Numeral(n / 10, 10);
      var text := high + [Digit(n % 10)];
      assert text[..|text| - 1] == high;
    }
  }

  /** The decimal text of a number: digits without a leading zero, after a minus sign
      when it is negative. */
  ghost predicate IsDecimal(text: string, n: int) {
    if n >= 0 then IsNatural(text, n)
    else text != "" && text[0] == '-' && IsNatural(text[1..], -n)
  }

  ghost predicate IsNatural(text: string, n: nat) {
    text != "" && AllDigits(text) && (text[0] == '0' ==> text == "0") && ParseDigits(text) == n
  }

  lemma {:induction false} NumeralStarts(n: nat)
    requires n > 0
    ensures Numeral(n, 10)[0] != '0'
  {
    if n >= 10 {
      NumeralStarts(n / 10);
    }
  }

  lemma {:induction false} DecimalIs(n: int)
    ensures IsDecimal(Decimal(n), n)
  {
    hide Numeral, ParseDigits;
    var m := if n < 0 then -n else n;
    NumeralDigits(m);
    if m > 0 {
      NumeralStarts(m);
    } else {
      ZeroText();
    }
    if n < 0 {
      assert Decimal(n)[1..] == Numeral(m, 10);
    }
  }

  /** There is no other such text. */
  lemma {:induction false} NaturalUnique(text: string, n: nat)
    requires IsNatural(text, n)
    ensures text == Numeral(n, 10)
    decreases n
  {
    var before, last := text[..|text| - 1], (text[|text| - 1] - '0') as nat;
    DigitOf(text[|text| - 1]);
    DivMod(n, 10, ParseDigits(before), last);
    if |text| == 1 {
      assert text == [text[0]];
    } else {
      assert before[0] == text[0];
      LeadingPositive(before);
      NaturalUnique(before, n / 10);
      assert text == before + [text[|text| - 1]];
    }
  }

  lemma DigitOf(c: char)
    requires IsDigit(c)
    ensures Digit((c - '0') as nat) == c
  {
  }

  lemma {:induction false} LeadingPositive(text: string)
    requires text != "" && AllDigits(text) && text[0] != '0'
    ensures ParseDigits(text) > 0
  {
    if |text| > 1 {
      LeadingPositive(text[..|text| - 1]);
    }
  }

  lemma ZeroText()
    ensures Numeral(0, 10) == "0"
  {
  }

  // ----- quotients

  lemma {:induction false} AtLeastOnce(d: nat, k: nat)
    requires k >= 1
    ensures d * k >= d
  {
    assert d * k == d * (k - 1) + d;
  }

  /** A quotient and remainder that fit are the quotient and remainder. */
  lemma {:induction false} DivMod(a: int, d: int, q: int, r: int)
    requires d > 0 && 0 <= r < d && a == d * q + r
    ensures a / d == q && a % d == r
  {
    var k := a / d - q;
    assert a == d * (a / d) + a % d;
    assert d * k == d * (a / d) - d * q;
    if k >= 1 {
      AtLeastOnce(d, k);
    }
  }
}
