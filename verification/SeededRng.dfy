/** The 31-bit linear congruential generator behind deterministic ids: its period
    is the whole range, so ids repeat only after 2^31 draws.
 */
module SeededRng {
  import Numbers

  const MULTIPLIER := 1_103_515_245
  const INCREMENT := 12_345
  const MODULUS := 0x8000_0000
  const TWO_64: int := 0x1_0000_0000_0000_0000

  function Next(x: nat): (y: nat)
    ensures y < MODULUS
  {
    (MULTIPLIER * x + INCREMENT) % MODULUS
  }

  /** The state after `n` draws. */
  function Draw(x: nat, n: nat): nat {
    if n == 0 then x else Next(Draw(x, n - 1))
  }

  /** The first draws of the seed zero, one by one. */
  lemma {:induction false} FirstDraws()
    ensures Draw(0, 0) == 0 && Draw(0, 1) == 12_345 && Draw(0, 2) == 1_406_932_606 && Draw(0, 3) == 654_583_775
  {
    assert Draw(0, 2) == Next(Draw(0, 1));
  }

  // ----- exact powers and geometric sums of the multiplier

  function Power(n: nat): (p: nat)
    ensures p % 4 == 1
  {
    if n == 0 then 1
    else
      OneModFour(Power(n - 1));
      MULTIPLIER * Power(n - 1)
  }

  lemma OneModFour(p: nat)
    requires p % 4 == 1
    ensures (MULTIPLIER * p) % 4 == 1
  {
    assert MULTIPLIER * p == 4 * (275_878_811 * p) + p;
  }

  function Geometric(n: nat): nat {
    if n == 0 then 0 else MULTIPLIER * Geometric(n - 1) + 1
  }

  lemma {:induction false} PowerAdd(m: nat, n: nat)
    ensures Power(m + n) == Power(m) * Power(n)
  {
    if n > 0 {
      PowerAdd(m, n - 1);
      assert MULTIPLIER * (Power(m) * Power(n - 1)) == Power(m) * (MULTIPLIER * Power(n - 1));
    }
  }

  lemma {:induction false} GeometricClosed(n: nat)
    ensures Power(n) == (MULTIPLIER - 1) * Geometric(n) + 1
  {
    if n > 0 {
      GeometricClosed(n - 1);
    }
  }

  /** S(m + n) = S(m) + A^m S(n) */
  lemma {:induction false} GeometricAdd(m: nat, n: nat)
    ensures Geometric(m + n) == Geometric(m) * Power(n) + Geometric(n)
  {
    if n > 0 {
      GeometricAdd(m, n - 1);
      assert MULTIPLIER * (Geometric(m) * Power(n - 1)) == Geometric(m) * (MULTIPLIER * Power(n - 1));
    }
  }

  // ----- divisibility by powers of two

  predicate Twos(k: nat, n: int) {
    k == 0 || (n % 2 == 0 && Twos(k - 1, n / 2))
  }

  function PowerOfTwo(k: nat): (p: nat)
    ensures p >= 1
  {
    if k == 0 then 1 else 2 * PowerOfTwo(k - 1)
  }

  lemma {:induction false} TwosIsDivides(k: nat, n: int)
    ensures Twos(k, n) <==> n % PowerOfTwo(k) == 0
  {
    if k > 0 {
      TwosIsDivides(k - 1, n / 2);
      var p := PowerOfTwo(k - 1);
      var q, r := (n / 2) / p, (n / 2) % p;
      assert 2 * (p * q) == (2 * p) * q;
      Numbers.DivMod(n, 2 * p, q, 2 * r + n % 2);
    }
  }

  /** An odd factor does not matter. */
  lemma {:induction false} TwosTimesOdd(k: nat, n: int, odd: int)
    requires odd % 2 == 1
    ensures Twos(k, n * odd) <==> Twos(k, n)
  {
    if k > 0 {
      var h := odd / 2;
      assert n * odd == 2 * (n * h) + n;
      if n % 2 == 0 {
        assert n * odd == 2 * ((n / 2) * odd);
        TwosTimesOdd(k - 1, n / 2, odd);
      }
    }
  }

  lemma OddTimes(g: nat, h: nat)
    requires h == 1_103_515_245 * g + 1
    ensures h % 2 == (g + 1) % 2
  {
    EvenMore(551_757_622 * g, g + 1);
  }

  lemma EvenMore(k: nat, n: nat)
    ensures (2 * k + n) % 2 == n % 2
  {
  }

  lemma GeometricNext(n: nat)
    requires n > 0
    ensures Geometric(n) == 1_103_515_245 * Geometric(n - 1) + 1
  {
  }

  lemma {:induction false} GeometricParity(n: nat)
    ensures Geometric(n) % 2 == n % 2
  {
    hide Geometric;
    if n == 0 {
      assert Geometric(0) == 0 by { GeometricClosed(0); }
    } else {
      GeometricParity(n - 1);
      GeometricNext(n);
      OddTimes(Geometric(n - 1), Geometric(n));
    }
  }

  /** A power of two divides the geometric sum exactly when it divides its length:
      doubling the length doubles the sum up to an odd factor. */
  lemma {:induction false} GeometricTwos(k: nat, n: nat)
    ensures Twos(k, Geometric(n)) <==> Twos(k, n)
    decreases k
  {
    hide Power;
    if k > 0 {
      GeometricParity(n);
      if n % 2 == 0 {
        var half := n / 2;
        GeometricAdd(half, half);
        HalfSum(Geometric(half), Power(half));
        TwosTimesOdd(k - 1, Geometric(half), (Power(half) + 1) / 2);
        GeometricTwos(k - 1, half);
      }
    }
  }

  lemma {:induction false} HalfSum(s: nat, p: nat)
    requires p % 4 == 1
    ensures (s * p + s) / 2 == s * ((p + 1) / 2) && ((p + 1) / 2) % 2 == 1
  {
    var q := (p + 1) / 2;
    assert p == 2 * q - 1;
    assert s * p + s == 2 * (s * q);
  }

  // ----- draws as one affine map

  /** A^n x + C S(n), without any reduction. */
  function Unreduced(x: nat, n: nat): nat {
    Power(n) * x + INCREMENT * Geometric(n)
  }

  lemma {:induction false} ModStep(y: nat)
    ensures (MULTIPLIER * (y % MODULUS) + INCREMENT) % MODULUS == (MULTIPLIER * y + INCREMENT) % MODULUS
  {
    var q := y / MODULUS;
    var small := MULTIPLIER * (y % MODULUS) + INCREMENT;
    assert MULTIPLIER * y + INCREMENT == MODULUS * (MULTIPLIER * q + small / MODULUS) + small % MODULUS;
    Numbers.DivMod(MULTIPLIER * y + INCREMENT, MODULUS, MULTIPLIER * q + small / MODULUS, small % MODULUS);
  }

  lemma {:induction false} DrawIsAffine(x: nat, n: nat)
    requires x < MODULUS
    ensures Draw(x, n) == Unreduced(x, n) % MODULUS
  {
    if n > 0 {
      DrawIsAffine(x, n - 1);
      ModStep(Unreduced(x, n - 1));
      assert MULTIPLIER * (Power(n - 1) * x) == Power(n) * x;
    }
  }

  lemma {:induction false} DrawAdd(x: nat, m: nat, n: nat)
    ensures Draw(x, m + n) == Draw(Draw(x, m), n)
  {
    if n > 0 {
      DrawAdd(x, m, n - 1);
    }
  }

  lemma DrawInRange(x: nat, n: nat)
    requires x < MODULUS
    ensures Draw(x, n) < MODULUS
  {
  }

  /** How far `n` draws move a state: the geometric sum times an odd number. */
  lemma {:induction false} Displacement(x: nat, n: nat)
    ensures Unreduced(x, n) - x == Geometric(n) * ((MULTIPLIER - 1) * x + INCREMENT)
    ensures ((MULTIPLIER - 1) * x + INCREMENT) % 2 == 1
  {
    GeometricClosed(n);
    assert ((MULTIPLIER - 1) * Geometric(n)) * x == Geometric(n) * ((MULTIPLIER - 1) * x);
  }

  lemma {:induction false} SameRemainder(y: nat, x: nat)
    requires x < MODULUS
    ensures y % MODULUS == x <==> (y - x) % MODULUS == 0
  {
    if y % MODULUS == x {
      Numbers.DivMod(y - x, MODULUS, y / MODULUS, 0);
    }
    if (y - x) % MODULUS == 0 {
      Numbers.DivMod(y, MODULUS, (y - x) / MODULUS, x);
    }
  }

  lemma PowerOfTwo31()
    ensures PowerOfTwo(31) == MODULUS
  {
    assert PowerOfTwo(8) == 256;
    assert PowerOfTwo(16) == 256 * PowerOfTwo(8);
    assert PowerOfTwo(24) == 256 * PowerOfTwo(16);
    assert PowerOfTwo(31) == 128 * PowerOfTwo(24);
  }

  /** A state comes back after `n` draws exactly when 2^31 divides n. */
  lemma {:induction false} Returns(x: nat, n: nat)
    requires x < MODULUS
    ensures Draw(x, n) == x <==> n % MODULUS == 0
  {
    hide Power, Geometric, Twos, Draw, Unreduced, PowerOfTwo;
    DrawIsAffine(x, n);
    Displacement(x, n);
    SameRemainder(Unreduced(x, n), x);
    PowerOfTwo31();
    TwosIsDivides(31, Unreduced(x, n) - x);
    TwosTimesOdd(31, Geometric(n), (MULTIPLIER - 1) * x + INCREMENT);
    GeometricTwos(31, n);
    TwosIsDivides(31, n);
  }

  /** Full period: draws i and j of any seed agree exactly when they are a multiple
      of 2^31 apart. */
  lemma {:induction false} FullPeriod(seed: nat, i: nat, j: nat)
    requires seed < MODULUS && i <= j
    ensures Draw(seed, i) == Draw(seed, j) <==> (j - i) % MODULUS == 0
  {
    DrawAdd(seed, i, j - i);
    DrawInRange(seed, i);
    Returns(Draw(seed, i), j - i);
  }

  // ----- ids

  function Zeros(n: nat): string {
    if n == 0 then "" else Zeros(n - 1) + "0"
  }

  /** A number in lower-case hexadecimal, padded to eight digits. */
  function Hex8(n: nat): string {
    var text := Numbers.Numeral(n, 16);
    if |text| >= 8 then text else Zeros(8 - |text|) + text
  }

  function Id(prefix: string, n: nat): string {
    prefix + "_" + Hex8(n)
  }

  function DigitValue(c: char): nat {
    if '0' <= c <= '9' then (c - '0') as nat else if 'a' <= c <= 'f' then (c - 'a') as nat + 10 else 0
  }

  function ParseHex(text: string): nat {
    if text == "" then 0 else 16 * ParseHex(text[..|text| - 1]) + DigitValue(text[|text| - 1])
  }

  lemma DigitRoundTrip(d: nat)
    requires d < 16
    ensures DigitValue(Numbers.Digit(d)) == d
  {
  }

  lemma {:induction false} NumeralRoundTrip(n: nat)
    ensures ParseHex(Numbers.Numeral(n, 16)) == n
    decreases n
  {
    hide Numbers.Digit, DigitValue;
    DigitRoundTrip(n % 16);
    if n < 16 {
      assert ParseHex([Numbers.Digit(n)][..0]) == 0;
    } else {
      NumeralRoundTrip(n / 16);
      var high := Numbers.Numeral(n / 16, 16);
      var text := high + [Numbers.Digit(n % 16)];
      assert text[..|text| - 1] == high;
    }
  }

  lemma {:induction false} ZerosAreZero(k: nat)
    ensures ParseHex(Zeros(k)) == 0
  {
    if k > 0 {
      ZerosAreZero(k - 1);
      assert Zeros(k)[..|Zeros(k)| - 1] == Zeros(k - 1);
    }
  }

  lemma {:induction false} ZerosParse(k: nat, text: string)
    ensures ParseHex(Zeros(k) + text) == ParseHex(text)
  {
    if text == "" {
      assert Zeros(k) + "" == Zeros(k);
      ZerosAreZero(k);
    } else {
      ZerosParse(k, text[..|text| - 1]);
      assert (Zeros(k) + text)[..|Zeros(k) + text| - 1] == Zeros(k) + text[..|text| - 1];
    }
  }

  lemma {:induction false} Hex8RoundTrip(n: nat)
    ensures ParseHex(Hex8(n)) == n
  {
    NumeralRoundTrip(n);
    var text := Numbers.Numeral(n, 16);
    if |text| < 8 {
      ZerosParse(8 - |text|, text);
    }
  }

  lemma ZerosLength(n: nat)
    ensures |Zeros(n)| == n && forall k :: 0 <= k < n ==> Zeros(n)[k] == '0'
  {
  }

  function PowerOf16(k: nat): nat {
    if k == 0 then 1 else 16 * PowerOf16(k - 1)
  }

  lemma {:induction false} NumeralFits(n: nat, k: nat)
    requires k >= 1 && n < PowerOf16(k)
    ensures |Numbers.Numeral(n, 16)| <= k
  {
    hide Numbers.Digit;
    if n >= 16 {
      NumeralFits(n / 16, k - 1);
    }
  }

  lemma {:induction false} DigitIsHex(d: nat)
    requires d < 16
    ensures Numbers.Digit(d) in "0123456789abcdef"
  {
  }

  lemma {:induction false} NumeralIsHex(n: nat)
    ensures forall c :: c in Numbers.Numeral(n, 16) ==> c in "0123456789abcdef"
    decreases n
  {
    hide Numbers.Digit;
    DigitIsHex(n % 16);
    if n >= 16 {
      NumeralIsHex(n / 16);
    }
  }

  /** A 32-bit number is printed with exactly eight of the sixteen digits. */
  lemma {:induction false} Hex8Width(n: nat)
    requires n < 0x1_0000_0000
    ensures |Hex8(n)| == 8 && forall c :: c in Hex8(n) ==> c in "0123456789abcdef"
  {
    hide Numbers.Digit;
    assert PowerOf16(8) == 0x1_0000_0000 by {
      assert PowerOf16(4) == 0x1_0000;
    }
    NumeralFits(n, 8);
    NumeralIsHex(n);
    var text := Numbers.Numeral(n, 16);
    ZerosLength(8 - |text|);
    forall c | c in Hex8(n) ensures c in "0123456789abcdef" {
      assert c in Zeros(8 - |text|) || c in text;
      assert "0123456789abcdef"[0] == '0';
    }
  }

  lemma {:induction false} InHexadecimal()
    ensures Numbers.Numeral(12_345, 16) == "3039"
  {
    assert Numbers.Numeral(3, 16) == "3";
    assert Numbers.Numeral(48, 16) == "3" + "0";
    assert Numbers.Numeral(771, 16) == "30" + "3";
  }

  /** The first id of the seed zero. */
  lemma {:induction false} FirstId()
    ensures Hex8(Draw(0, 1)) == "00003039" && Id("msg", Draw(0, 1)) == "msg_00003039"
  {
    hide Draw, Numbers.Numeral;
    FirstDraws();
    InHexadecimal();
    assert Zeros(2) == "00";
    assert Zeros(4) == "00" + "0" + "0";
  }

  /** Ids of one prefix are pairwise distinct over any 2^31 consecutive draws, and
      after exactly that many the first one comes again. */
  lemma {:induction false} IdsDistinct(seed: nat, prefix: string, i: nat, j: nat)
    requires seed < MODULUS && i <= j
    ensures Id(prefix, Draw(seed, i)) == Id(prefix, Draw(seed, j)) <==> (j - i) % MODULUS == 0
  {
    hide Draw, Hex8, ParseHex;
    FullPeriod(seed, i, j);
    var x, y := Draw(seed, i), Draw(seed, j);
    if Id(prefix, x) == Id(prefix, y) {
      assert Hex8(x) == Id(prefix, x)[|prefix| + 1..] == Hex8(y);
      Hex8RoundTrip(x);
      Hex8RoundTrip(y);
    }
  }

  class Generator {
    var state: nat

    constructor (seed: nat)
      requires seed < TWO_64
      ensures state == seed % MODULUS
    {
      state := seed % MODULUS;
    }

    /** The 64-bit product and sum are computed with wrap-around, which the mask
        keeps from ever happening. */
    method NextU32() returns (r: nat)
      requires state < MODULUS
      modifies this
      ensures MULTIPLIER * old(state) + INCREMENT < TWO_64
      ensures r == state == Draw(old(state), 1) && state < MODULUS
    {
      var product := (MULTIPLIER * state) % TWO_64;
      state := ((product + INCREMENT) % TWO_64) % MODULUS;
      assert Draw(old(state), 1) == Next(Draw(old(state), 0));
      r := state;
    }

    method NextHex() returns (text: string)
      requires state < MODULUS
      modifies this
      ensures state == Draw(old(state), 1) < MODULUS && text == Hex8(state)
    {
      var n := NextU32();
      text := Hex8(n);
    }

    method NextId(prefix: string) returns (id: string)
      requires state < MODULUS
      modifies this
      ensures state == Draw(old(state), 1) < MODULUS && id == Id(prefix, state)
    {
      var hex := NextHex();
      id := prefix + "_" + hex;
    }
  }
}
