/** The names of rotated backups: <database>.bak.YYYYMMDD_hhmmss with an optional
    collision number, and their age order.
 */
module Generations {
  import opened Sql
  import opened Numbers
  import Order

  const MAX_SEQUENCE := 0xffff_ffff

  /** `padsYears`: whether the platform's strftime pads a year below 1000, so that
      printing gives the same text back. */
  datatype Family = Family(database: string, padsYears: bool)

  datatype Generation = Generation(timestamp: string, sequence: nat)

  /** A number in decimal, with at least two digits. */
  function TwoDigits(n: nat): string {
    if n < 10 then "0" + Numeral(n, 10) else Numeral(n, 10)
  }

  predicate IsLeap(year: nat) {
    year % 4 == 0 && (year % 100 != 0 || year % 400 == 0)
  }

  function DaysIn(year: nat, month: nat): nat {
    if month == 2 then (if IsLeap(year) then 29 else 28)
    else if month == 4 || month == 6 || month == 9 || month == 11 then 30 else 31
  }

  /** A calendar second that prints as this text. */
  predicate IsTimestamp(text: string, padsYears: bool) {
    && |text| == 15 && text[8] == '_' && AllDigits(text[..8]) && AllDigits(text[9..])
    && var year := ParseDigits(text[..4]);
       var month := ParseDigits(text[4..6]);
       var day := ParseDigits(text[6..8]);
       && (if padsYears then 1 else 1000) <= year
       && 1 <= month <= 12 && 1 <= day <= DaysIn(year, month)
       && ParseDigits(text[9..11]) < 24 && ParseDigits(text[11..13]) < 60 && ParseDigits(text[13..15]) < 60
  }

  predicate StartsWith(text: string, prefix: string) {
    |prefix| <= |text| && text[..|prefix|] == prefix
  }

  function Prefix(family: Family): string {
    family.database + ".bak."
  }

  function Parse(family: Family, name: string): Option<Generation> {
    if !StartsWith(name, Prefix(family)) then None
    else
      var rest := name[|Prefix(family)|..];
      if |rest| < 15 || !IsTimestamp(rest[..15], family.padsYears) then None
      else if |rest| == 15 then Some(Generation(rest, 0))
      else
        var collision := rest[16..];
        if rest[15] != '-' || !(2 <= |collision| <= 10) || !AllDigits(collision) then None
        else
          var sequence := ParseDigits(collision);
          if 0 < sequence <= MAX_SEQUENCE && TwoDigits(sequence) == collision
          then Some(Generation(rest[..15], sequence)) else None
  }

  predicate Accepts(family: Family, name: string) {
    Parse(family, name).Some?
  }

  lemma AcceptedStarts(family: Family, name: string)
    requires Accepts(family, name)
    ensures |family.database| <= |name| && name[..|family.database|] == family.database
  {
    assert name[..|Prefix(family)|][..|family.database|] == family.database;
  }

  predicate ValidGeneration(family: Family, g: Generation) {
    IsTimestamp(g.timestamp, family.padsYears) && g.sequence <= MAX_SEQUENCE
  }

  function Print(family: Family, g: Generation): string {
    Prefix(family) + g.timestamp + if g.sequence == 0 then "" else "-" + TwoDigits(g.sequence)
  }

  // ----- the names in words

  /** The two decimal digits at this place. */
  ghost predicate Reads(text: string, at: nat, value: int) {
    && at + 2 <= |text| && '0' <= text[at] <= '9' && '0' <= text[at + 1] <= '9'
    && value == 10 * (text[at] as int - '0' as int) + (text[at + 1] as int - '0' as int)
  }

  /** A day of the Gregorian calendar; `year` counts within its century. */
  ghost predicate IsDay(century: int, year: int, month: int, day: int) {
    && 1 <= month <= 12 && 1 <= day <= 31
    && (month == 4 || month == 6 || month == 9 || month == 11 ==> day != 31)
    && (month == 2 ==> day <= 29)
    && (month == 2 && day == 29 ==> if year == 0 then century % 4 == 0 else year % 4 == 0)
  }

  ghost predicate IsSecond(text: string, padsYears: bool, century: int, year: int, month: int, day: int, hour: int,
                           minute: int, second: int) {
    && |text| == 15 && text[8] == '_'
    && Reads(text, 0, century) && Reads(text, 2, year) && Reads(text, 4, month) && Reads(text, 6, day)
    && Reads(text, 9, hour) && Reads(text, 11, minute) && Reads(text, 13, second)
    && (if padsYears then century != 0 || year != 0 else century >= 10)
    && IsDay(century, year, month, day) && hour <= 23 && minute <= 59 && second <= 59
  }

  /** YYYYMMDD_hhmmss of a calendar second. */
  ghost predicate NamesSecond(text: string, padsYears: bool) {
    exists century, year, month, day, hour, minute, second ::
      IsSecond(text, padsYears, century, year, month, day, hour, minute, second)
  }

  /** <database>.bak.<second>, then a dash and the collision number unless it is zero. */
  ghost predicate IsBackupName(family: Family, name: string, timestamp: string, sequence: nat) {
    && NamesSecond(timestamp, family.padsYears) && sequence <= 4_294_967_295
    && if sequence == 0 then name == family.database + ".bak." + timestamp
       else exists number :: IsNatural(number, sequence) && Collides(family, name, timestamp, sequence, number)
  }

  ghost predicate Collides(family: Family, name: string, timestamp: string, sequence: nat, number: string) {
    name == family.database + ".bak." + timestamp + (if sequence < 10 then "-0" else "-") + number
  }

  /** Of a later second, or of the same second with a larger collision number. */
  ghost predicate IsLater(family: Family, name: string, other: string) {
    exists t, m, u, n: nat ::
      && IsBackupName(family, name, t, m) && IsBackupName(family, other, u, n)
      && (Order.EarlierText(u, t) || (t == u && n < m))
  }

  lemma {:induction false} PairValue(text: string, at: nat)
    requires at + 2 <= |text| && AllDigits(text[at..at + 2])
    ensures Reads(text, at, ParseDigits(text[at..at + 2]))
  {
    var pair := text[at..at + 2];
    assert pair[..1] == [text[at]];
    assert pair[..1][..0] == "";
    assert ParseDigits(pair[..1]) == (text[at] - '0') as nat;
  }

  lemma {:induction false} YearValue(text: string)
    requires |text| >= 4 && AllDigits(text[..4])
    ensures ParseDigits(text[..4]) == 100 * ParseDigits(text[..2]) + ParseDigits(text[2..4])
  {
    var year, three := text[..4], text[..3];
    assert year[..3] == three && three[..2] == text[..2];
    var pair := text[2..4];
    assert pair[..1] == [text[2]] && pair[..1][..0] == "";
    assert ParseDigits(pair[..1]) == (text[2] - '0') as nat;
  }

  /** Years divisible by four, except the centuries not divisible by four. */
  lemma {:induction false} LeapMeans(century: nat, year: nat)
    requires year < 100
    ensures IsLeap(100 * century + year) <==> if year == 0 then century % 4 == 0 else year % 4 == 0
  {
    var whole := 100 * century + year;
    DivMod(whole, 100, century, year);
    DivMod(whole, 4, 25 * century + year / 4, year % 4);
    if year == 0 {
      DivMod(whole, 400, century / 4, 100 * (century % 4));
    }
  }

  lemma {:induction false} DaysMean(century: nat, year: nat, month: nat, day: nat)
    requires year < 100
    ensures 1 <= month <= 12 && 1 <= day <= DaysIn(100 * century + year, month) <==> IsDay(century, year, month, day)
  {
    hide IsLeap;
    LeapMeans(century, year);
  }

  lemma {:induction false} TimestampMeans(text: string, padsYears: bool)
    ensures IsTimestamp(text, padsYears) <==> NamesSecond(text, padsYears)
  {
    hide ParseDigits, DaysIn, IsDay;
    if |text| == 15 && text[8] == '_' && AllDigits(text[..8]) && AllDigits(text[9..]) {
      var century, year := ParseDigits(text[..2]), ParseDigits(text[2..4]);
      var month, day := ParseDigits(text[4..6]), ParseDigits(text[6..8]);
      var hour, minute, second := ParseDigits(text[9..11]), ParseDigits(text[11..13]), ParseDigits(text[13..15]);
      PairValue(text, 0);
      PairValue(text, 2);
      PairValue(text, 4);
      PairValue(text, 6);
      PairValue(text, 9);
      PairValue(text, 11);
      PairValue(text, 13);
      YearValue(text);
      DaysMean(century, year, month, day);
      assert IsTimestamp(text, padsYears) <==>
             IsSecond(text, padsYears, century, year, month, day, hour, minute, second);
    } else if NamesSecond(text, padsYears) {
      DigitsRead(text, padsYears);
    }
  }

  lemma DigitsRead(text: string, padsYears: bool)
    requires NamesSecond(text, padsYears)
    ensures |text| == 15 && text[8] == '_' && AllDigits(text[..8]) && AllDigits(text[9..])
  {
    var century, year, month, day, hour, minute, second :|
      IsSecond(text, padsYears, century, year, month, day, hour, minute, second);
    assert forall k :: 0 <= k < 15 && k != 8 ==> IsDigit(text[k]);
  }

  // ----- canonical names

  /** An accepted name is the canonical print of what it parses to. */
  lemma {:induction false} PrintParse(family: Family, name: string)
    requires Accepts(family, name)
    ensures ValidGeneration(family, Parse(family, name).value)
    ensures Print(family, Parse(family, name).value) == name
  {
    hide IsTimestamp, TwoDigits, AllDigits, ParseDigits;
    var prefix := Prefix(family);
    var rest := name[|prefix|..];
    assert name == prefix + rest;
    var g := Parse(family, name).value;
    if |rest| == 15 {
      assert rest[..15] == rest;
      assert prefix + rest + "" == name;
    } else {
      assert "-" + TwoDigits(g.sequence) == rest[15..];
      assert prefix + rest[..15] + rest[15..] == name;
    }
  }

  lemma {:induction false} NumeralLength(n: nat, k: nat)
    requires k >= 1 && n < PowerOfTen(k)
    ensures |Numeral(n, 10)| <= k
  {
    hide Digit;
    if n >= 10 {
      assert PowerOfTen(k) == 10 * PowerOfTen(k - 1);
      NumeralLength(n / 10, k - 1);
    }
  }

  function PowerOfTen(k: nat): nat {
    if k == 0 then 1 else 10 * PowerOfTen(k - 1)
  }

  lemma {:induction false} TwoDigitsShape(n: nat)
    requires n <= MAX_SEQUENCE
    ensures 2 <= |TwoDigits(n)| <= 10
    ensures AllDigits(TwoDigits(n)) && ParseDigits(TwoDigits(n)) == n
  {
    NumeralDigits(n);
    assert PowerOfTen(5) == 100_000;
    assert PowerOfTen(10) == 10_000_000_000;
    NumeralLength(n, 10);
    if n < 10 {
      var text := "0" + Numeral(n, 10);
      assert text[..|text| - 1] == "0";
      assert ParseDigits("0") == 10 * ParseDigits("0"[..0]) + 0;
    }
  }

  /** Every valid generation is the parse of its print, so accepted names and
      valid generations correspond one to one. */
  lemma {:induction false} ParsePrint(family: Family, g: Generation)
    requires ValidGeneration(family, g)
    ensures Parse(family, Print(family, g)) == Some(g)
  {
    hide IsTimestamp, TwoDigits, AllDigits, ParseDigits;
    var prefix := Prefix(family);
    var name := Print(family, g);
    StampLength(family, g);
    assert name[..|prefix|] == prefix;
    if g.sequence == 0 {
      assert name[|prefix|..] == g.timestamp;
      assert g.timestamp[..15] == g.timestamp;
    } else {
      TwoDigitsShape(g.sequence);
      var rest := g.timestamp + ("-" + TwoDigits(g.sequence));
      assert name == prefix + rest;
      assert name[|prefix|..] == rest;
      assert rest[..15] == g.timestamp;
      assert rest[16..] == TwoDigits(g.sequence);
    }
  }

  lemma StampLength(family: Family, g: Generation)
    requires ValidGeneration(family, g)
    ensures |g.timestamp| == 15
  {
  }

  /** A name is parsed exactly when it is such a name, to what it says. */
  lemma {:induction false} NameMeans(family: Family, name: string, g: Generation)
    ensures Parse(family, name) == Some(g) <==> IsBackupName(family, name, g.timestamp, g.sequence)
  {
    hide IsTimestamp, ParseDigits, AllDigits, NamesSecond, Parse;
    TimestampMeans(g.timestamp, family.padsYears);
    if Parse(family, name) == Some(g) {
      PrintParse(family, name);
      PrintedName(family, g);
    }
    if IsBackupName(family, name, g.timestamp, g.sequence) {
      if g.sequence > 0 {
        var number :| IsNatural(number, g.sequence) && Collides(family, name, g.timestamp, g.sequence, number);
        NaturalUnique(number, g.sequence);
        PrintedWith(family, g, number);
      } else {
        assert name + "" == name;
      }
      ParsePrint(family, g);
    }
  }

  lemma PrintedWith(family: Family, g: Generation, number: string)
    requires g.sequence > 0 && number == Numeral(g.sequence, 10)
    ensures Collides(family, Print(family, g), g.timestamp, g.sequence, number)
  {
    var start := family.database + ".bak." + g.timestamp;
    if g.sequence < 10 {
      assert start + "-0" + number == start + ("-" + ("0" + number));
    } else {
      assert start + "-" + number == start + ("-" + number);
    }
  }

  lemma {:induction false} PrintedName(family: Family, g: Generation)
    requires ValidGeneration(family, g)
    ensures IsBackupName(family, Print(family, g), g.timestamp, g.sequence)
  {
    hide IsTimestamp, NamesSecond, IsNatural;
    TimestampMeans(g.timestamp, family.padsYears);
    var number := Numeral(g.sequence, 10);
    if g.sequence > 0 {
      NumeralIsNatural(g.sequence);
      PrintedWith(family, g, number);
    } else {
      var start := family.database + ".bak." + g.timestamp;
      assert start + "" == start;
    }
  }

  lemma {:induction false} NumeralIsNatural(n: nat)
    ensures IsNatural(Numeral(n, 10), n)
  {
    DecimalIs(n);
  }

  // ----- order

  /** Tuple comparison of (timestamp text, collision number). */
  predicate Older(g: Generation, h: Generation) {
    Order.Less(g.timestamp, h.timestamp) || (g.timestamp == h.timestamp && g.sequence < h.sequence)
  }

  predicate NewerName(family: Family, name: string, other: string) {
    Accepts(family, name) && Accepts(family, other)
    && Older(Parse(family, other).value, Parse(family, name).value)
  }

  lemma {:induction false} OlderStrict(f: Generation, g: Generation, h: Generation)
    ensures Older(f, g) ==> !Older(g, f)
    ensures Older(f, g) && Older(g, h) ==> Older(f, h)
    ensures Older(f, g) || f == g || Older(g, f)
  {
    Order.LessTotal(f.timestamp, g.timestamp);
    if Order.Less(f.timestamp, g.timestamp) && Order.Less(g.timestamp, h.timestamp) {
      Order.LessTransitive(f.timestamp, g.timestamp, h.timestamp);
    }
  }

  /** No two backups are of the same age: the order has no ties. */
  lemma {:induction false} NamesDiffer(family: Family, name: string, other: string)
    requires Accepts(family, name) && Accepts(family, other) && name != other
    ensures NewerName(family, name, other) != NewerName(family, other, name)
  {
    hide Older, Print, Parse;
    PrintParse(family, name);
    PrintParse(family, other);
    var g, h := Parse(family, name).value, Parse(family, other).value;
    OlderStrict(g, h, g);
    OlderStrict(h, g, h);
  }

  /** The planner's order puts a later backup first. */
  lemma {:induction false} NewerMeans(family: Family, name: string, other: string)
    ensures NewerName(family, name, other) <==> IsLater(family, name, other)
  {
    hide Parse, IsBackupName, Order.Less, Order.EarlierText;
    forall g: Generation
      ensures Parse(family, name) == Some(g) <==> IsBackupName(family, name, g.timestamp, g.sequence)
      ensures Parse(family, other) == Some(g) <==> IsBackupName(family, other, g.timestamp, g.sequence)
    {
      NameMeans(family, name, g);
      NameMeans(family, other, g);
    }
    if NewerName(family, name, other) {
      var g, h := Parse(family, name).value, Parse(family, other).value;
      Order.LessIsEarlier(h.timestamp, g.timestamp);
      assert IsBackupName(family, name, g.timestamp, g.sequence);
    }
    if IsLater(family, name, other) {
      var t, m: nat, u, n: nat :|
        && IsBackupName(family, name, t, m) && IsBackupName(family, other, u, n)
        && (Order.EarlierText(u, t) || (t == u && n < m));
      assert Parse(family, name) == Some(Generation(t, m)) by {
        NameMeans(family, name, Generation(t, m));
      }
      assert Parse(family, other) == Some(Generation(u, n)) by {
        NameMeans(family, other, Generation(u, n));
      }
      Order.LessIsEarlier(u, t);
    }
  }

  /** A timestamp as one number, YYYYMMDDhhmmss. */
  function Moment(timestamp: string): nat
    requires |timestamp| == 15 && AllDigits(timestamp[..8]) && AllDigits(timestamp[9..])
  {
    1_000_000 * ParseDigits(timestamp[..8]) + ParseDigits(timestamp[9..])
  }

  lemma {:induction false} DigitsBelow(text: string)
    requires AllDigits(text)
    ensures ParseDigits(text) < PowerOfTen(|text|)
  {
    if text != "" {
      DigitsBelow(text[..|text| - 1]);
    }
  }

  lemma {:induction false} DigitsCons(text: string)
    requires AllDigits(text) && text != ""
    ensures ParseDigits(text) == PowerOfTen(|text| - 1) * (text[0] - '0') as nat + ParseDigits(text[1..])
  {
    if |text| > 1 {
      var before := text[..|text| - 1];
      DigitsCons(before);
      assert text[1..][..|text| - 2] == before[1..];
      Tenfold(PowerOfTen(|text| - 2), (text[0] - '0') as nat);
    } else {
      assert text[..0] == "";
    }
  }

  lemma Tenfold(p: nat, d: nat)
    ensures 10 * (p * d) == (10 * p) * d
  {
  }

  /** Among digit strings of one length, text order is numeric order. */
  lemma {:induction false} DigitOrder(a: string, b: string)
    requires AllDigits(a) && AllDigits(b) && |a| == |b|
    ensures Order.Less(a, b) <==> ParseDigits(a) < ParseDigits(b)
    ensures a == b <==> ParseDigits(a) == ParseDigits(b)
  {
    if a != "" {
      DigitsCons(a);
      DigitsCons(b);
      DigitsBelow(a[1..]);
      DigitsBelow(b[1..]);
      DigitOrder(a[1..], b[1..]);
      LeadingDigit(PowerOfTen(|a| - 1), (a[0] - '0') as nat, (b[0] - '0') as nat,
                   ParseDigits(a[1..]), ParseDigits(b[1..]));
      assert a == [a[0]] + a[1..] && b == [b[0]] + b[1..];
    }
  }

  lemma LeadingDigit(p: nat, c: nat, d: nat, x: nat, y: nat)
    requires x < p && y < p
    ensures p * c + x < p * d + y <==> c < d || (c == d && x < y)
    ensures p * c + x == p * d + y <==> c == d && x == y
  {
    if c < d {
      AtLeastOnce(p, d - c);
      assert p * d == p * c + p * (d - c);
    } else if d < c {
      AtLeastOnce(p, c - d);
      assert p * c == p * d + p * (c - d);
    }
  }

  lemma {:induction false} LessAppend(a: string, b: string, s: string, t: string)
    requires |a| == |b|
    ensures Order.Less(a + s, b + t) <==> Order.Less(a, b) || (a == b && Order.Less(s, t))
  {
    if a == "" {
      assert a + s == s && b + t == t;
    } else {
      LessAppend(a[1..], b[1..], s, t);
      assert (a + s)[1..] == a[1..] + s && (b + t)[1..] == b[1..] + t;
      assert a == [a[0]] + a[1..] && b == [b[0]] + b[1..];
    }
  }

  /** Newer means later in the calendar, then a larger collision number. */
  lemma {:induction false} OlderIsEarlier(family: Family, g: Generation, h: Generation)
    requires ValidGeneration(family, g) && ValidGeneration(family, h)
    ensures Older(g, h) <==>
              Moment(g.timestamp) < Moment(h.timestamp)
              || (Moment(g.timestamp) == Moment(h.timestamp) && g.sequence < h.sequence)
  {
    var a, b := g.timestamp, h.timestamp;
    assert a == a[..8] + ("_" + a[9..]) && b == b[..8] + ("_" + b[9..]);
    LessAppend(a[..8], b[..8], "_" + a[9..], "_" + b[9..]);
    LessAppend("_", "_", a[9..], b[9..]);
    Order.LessTotal("_", "_");
    DigitOrder(a[..8], b[..8]);
    DigitOrder(a[9..], b[9..]);
    DigitsBelow(a[9..]);
    DigitsBelow(b[9..]);
    assert PowerOfTen(6) == 1_000_000;
    LeadingDigit(1_000_000, ParseDigits(a[..8]), ParseDigits(b[..8]), ParseDigits(a[9..]), ParseDigits(b[9..]));
  }
}
