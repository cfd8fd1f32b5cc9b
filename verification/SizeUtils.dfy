/** Sizes as text: printing a byte count with a unit and reading it back, over the reals. */
module SizeUtils {
  import opened Text
  import opened GrantTypes
  import opened Decimals

  type Factor = n: int | 1 <= n witness 1

  datatype Unit = Unit(name: string, factor: Factor)

  const PB := Unit("PB", 1125899906842624)
  const TB := Unit("TB", 1099511627776)
  const GB := Unit("GB", 1073741824)
  const MB := Unit("MB", 1048576)
  const KB := Unit("KB", 1024)
  const B := Unit("B", 1)

  // The units that a size is printed in, largest first; smaller sizes are printed in bytes.
  const LARGE_UNITS: seq<Unit> := [PB, TB, GB, MB, KB]

  const ALL_UNITS: seq<Unit> := LARGE_UNITS + [B]

  // ---------------------------------------------------------------------------
  // Printing

  // The nearest integer; halves go to the even one.
  function Rounded(x: real): (r: int)
    ensures -0.5 <= r as real - x <= 0.5
  {
    var f := x.Floor;
    if x - f as real < 0.5 || (x - f as real == 0.5 && f % 2 == 0) then f else f + 1
  }

  // int(x)
  function Truncated(x: real): (r: int)
    ensures x >= 0.0 ==> r >= 0 && r as real <= x < r as real + 1.0
    ensures x < 0.0 ==> r <= 0 && r as real - 1.0 < x <= r as real
  {
    if x >= 0.0 then x.Floor else -((-x).Floor)
  }

  // str(n)
  function IntText(n: int): string {
    if n < 0 then "-" + Decimal(-n) else Decimal(n)
  }

  // A number of hundredths with its two decimals.
  function HundredthsText(q: nat): string {
    Decimal(q / 100) + "." + [Digit(q / 10 % 10), Digit(q % 10)]
  }

  // The first unit that fits in the size.
  function FittingUnit(b: real, units: seq<Unit>): (r: Option<Unit>)
    ensures r.Some? ==> r.value in units && b >= r.value.factor as real
  {
    if units == [] then None
    else if b >= units[0].factor as real then Some(units[0])
    else FittingUnit(b, units[1..])
  }

  // b / factor, in hundredths.
  function Hundredths(b: real, factor: Factor): (q: int)
    ensures b >= 0.0 ==> q >= 0
  {
    var x := b / factor as real;
    Rounded(100.0 * x)
  }

  function BytesToHuman(b: real): string {
    var unit := FittingUnit(b, LARGE_UNITS);
    if unit.None? then IntText(Truncated(b)) + " B"
    else HundredthsText(Hundredths(b, unit.value.factor)) + " " + unit.value.name
  }

  // ---------------------------------------------------------------------------
  // Reading

  // digits / 10^places
  datatype Numeral = Numeral(digits: int, places: nat)

  // float(s), of plain decimal numerals.
  function Float(s: string): Option<Numeral> {
    if s != "" && s[0] == '-' then
      var x := Unsigned(s[1..]);
      if x.Some? then Some(Numeral(-x.value.digits, x.value.places)) else None
    else if s != "" && s[0] == '+' then Unsigned(s[1..])
    else Unsigned(s)
  }

  function Unsigned(s: string): Option<Numeral> {
    var whole := Before(s, '.');
    var fraction := if |whole| < |s| then s[|whole| + 1..] else "";
    if !AllDigits(whole + fraction) || whole + fraction == "" then None
    else Some(Numeral(DigitsValue(whole + fraction), |fraction|))
  }

  function TenTo(n: nat): Factor {
    if n == 0 then 1 else 10 * TenTo(n - 1)
  }

  predicate HasSuffixCI(s: string, unit: string) {
    |unit| <= |s| && Upper(s[|s| - |unit|..]) == unit
  }

  function Number(s: string): Numeral {
    var x := Float(s);
    if x.Some? then x.value else Numeral(0, 0)
  }

  // The first unit that the text ends with.
  function EndingUnit(s: string, units: seq<Unit>): (r: Option<Unit>)
    ensures r.Some? ==> HasSuffixCI(s, r.value.name)
  {
    if units == [] then None
    else if HasSuffixCI(s, units[0].name) then Some(units[0])
    else EndingUnit(s, units[1..])
  }

  // The number in front of the unit; without a unit the text counts bytes.
  function ReadSize(s: string): (Numeral, Unit) {
    var t := Strip(s);
    var unit := EndingUnit(t, ALL_UNITS);
    if unit.None? then (Number(t), B)
    else (Number(Strip(t[..|t| - |unit.value.name|])), unit.value)
  }

  function Value(n: Numeral): real {
    n.digits as real / TenTo(n.places) as real
  }

  function Bytes(size: (Numeral, Unit)): real {
    Value(size.0) * size.1.factor as real
  }

  function ParseSizeBytes(s: string): real {
    Bytes(ReadSize(s))
  }

  // ---------------------------------------------------------------------------
  // Numerals read back

  lemma DotFree(s: string)
    requires AllDigits(s)
    ensures '.' !in s && (s != "" ==> s[0] !in {'-', '+'})
  {
  }

  lemma WholeReads(n: nat)
    ensures Unsigned(Decimal(n)) == Float(Decimal(n)) == Some(Numeral(n, 0))
  {
    var s := Decimal(n);
    DecimalReads(n);
    DotFree(s);
    BeforeAll(s, '.');
    assert s + "" == s;
  }

  lemma MinusReads(t: string, n: Numeral)
    requires Unsigned(t) == Some(n)
    ensures Float("-" + t) == Some(Numeral(-n.digits, n.places))
  {
    assert ("-" + t)[1..] == t;
  }

  lemma IntReads(n: int)
    ensures Float(IntText(n)) == Some(Numeral(n, 0))
  {
    if n < 0 {
      WholeReads(-n);
      MinusReads(Decimal(-n), Numeral(-n, 0));
    } else {
      WholeReads(n);
    }
  }

  lemma OneMoreDigit(s: string, d: nat)
    requires AllDigits(s) && d < 10
    ensures AllDigits(s + [Digit(d)]) && DigitsValue(s + [Digit(d)]) == 10 * DigitsValue(s) + d
  {
    DigitReads(d);
    assert (s + [Digit(d)])[..|s|] == s;
  }

  lemma HundredthsRead(q: nat)
    ensures Float(HundredthsText(q)) == Some(Numeral(q, 2))
  {
    var whole, tens, ones := Decimal(q / 100), q / 10 % 10, q % 10;
    var fraction := [Digit(tens), Digit(ones)];
    DecimalReads(q / 100);
    DotFree(whole);
    TwoMoreDigits(whole, q / 100, tens, ones);
    ThreeParts(q);
    HundredthsParts(q, whole, fraction);
  }

  lemma ThreeParts(q: nat)
    ensures 100 * (q / 100) + 10 * (q / 10 % 10) + q % 10 == q
  {
    assert q / 10 / 10 == q / 100;
  }

  lemma TwoMoreDigits(s: string, n: nat, tens: nat, ones: nat)
    requires AllDigits(s) && DigitsValue(s) == n && tens < 10 && ones < 10
    ensures AllDigits(s + [Digit(tens), Digit(ones)])
    ensures DigitsValue(s + [Digit(tens), Digit(ones)]) == 100 * n + 10 * tens + ones
  {
    OneMoreDigit(s, tens);
    OneMoreDigit(s + [Digit(tens)], ones);
    assert s + [Digit(tens), Digit(ones)] == s + [Digit(tens)] + [Digit(ones)];
  }

  lemma HundredthsParts(q: nat, whole: string, fraction: string)
    requires HundredthsText(q) == whole + "." + fraction && |fraction| == 2
    requires whole != "" && AllDigits(whole + fraction) && DigitsValue(whole + fraction) == q
    ensures Float(HundredthsText(q)) == Some(Numeral(q, 2))
  {
    var s := whole + ['.'] + fraction;
    assert whole + "." + fraction == s;
    assert forall i :: 0 <= i < |whole| ==> whole[i] == (whole + fraction)[i];
    DotFree(whole);
    BeforeStops(whole, '.', fraction);
    assert s[|whole| + 1..] == fraction;
    assert s[0] == whole[0];
  }

  // ---------------------------------------------------------------------------
  // Units read back

  // What stands in front of the final B of a unit.
  function UnitMark(u: Unit): char {
    if |u.name| < 2 then ' ' else u.name[0]
  }

  // One or two capital letters, the last one B.
  predicate UnitName(name: string) {
    1 <= |name| <= 2 && name[|name| - 1] == 'B' && Upper(name) == name
  }

  // The units in front of the i-th have two letters and another first letter.
  predicate Told(units: seq<Unit>, i: nat)
    requires i < |units|
  {
    && UnitName(units[i].name)
    && forall j :: 0 <= j < i ==> |units[j].name| == 2 && units[j].name[0] != UpperChar(UnitMark(units[i]))
  }

  lemma UnitsTold(i: nat)
    requires i < |ALL_UNITS|
    ensures Told(ALL_UNITS, i)
  {
    forall j | 0 <= j < |ALL_UNITS| ensures UnitName(ALL_UNITS[j].name) {
      CapitalName(ALL_UNITS[j].name);
    }
  }

  lemma CapitalName(name: string)
    requires 1 <= |name| <= 2 && name[|name| - 1] == 'B' && 'A' <= name[0] <= 'Z'
    ensures UnitName(name)
  {
  }

  lemma OtherUnit(s: string, unit: string)
    requires |s| >= 2 && |unit| == 2 && UpperChar(s[|s| - 2]) != unit[0]
    ensures !HasSuffixCI(s, unit)
  {
    assert Upper(s[|s| - 2..])[0] == UpperChar(s[|s| - 2]);
  }

  lemma {:induction false} EndingFrom(s: string, units: seq<Unit>, i: nat)
    requires i <= |units| && forall j :: 0 <= j < i ==> !HasSuffixCI(s, units[j].name)
    ensures EndingUnit(s, units) == EndingUnit(s, units[i..])
    decreases i
  {
    if i == 0 {
      assert units[0..] == units;
    } else {
      assert !HasSuffixCI(s, units[0].name);
      forall j | 0 <= j < i - 1 ensures !HasSuffixCI(s, units[1..][j].name) {
        assert units[1..][j] == units[j + 1];
      }
      EndingFrom(s, units[1..], i - 1);
      assert units[1..][i - 1..] == units[i..];
    }
  }

  lemma StripBehind(num: string)
    requires Trimmed(num)
    ensures Strip(num + " ") == num
  {
    var s := num + " ";
    assert LStrip(s) == s && s[..|num|] == num && IsSpace(s[|num|]);
  }

  lemma SizeEnds(num: string, u: Unit)
    requires UnitName(u.name) && Trimmed(num)
    ensures var s := num + " " + u.name;
            && Trimmed(s) && s[|s| - 2] == UnitMark(u)
            && HasSuffixCI(s, u.name) && s[..|s| - |u.name|] == num + " "
  {
    var s := num + " " + u.name;
    assert s[|s| - |u.name|..] == u.name;
  }

  lemma EndsIn(num: string, units: seq<Unit>, i: nat)
    requires i < |units| && Told(units, i) && Trimmed(num)
    ensures EndingUnit(num + " " + units[i].name, units) == Some(units[i])
  {
    var u := units[i];
    var s := num + " " + u.name;
    SizeEnds(num, u);
    forall j | 0 <= j < i ensures !HasSuffixCI(s, units[j].name) {
      OtherUnit(s, units[j].name);
    }
    EndingFrom(s, units, i);
    assert units[i..][0] == u;
  }

  // A trimmed number, a blank and a unit.
  lemma SizeReads(num: string, u: Unit, i: nat)
    requires i < |ALL_UNITS| && u == ALL_UNITS[i] && Trimmed(num)
    ensures ReadSize(num + " " + u.name) == (Number(num), u)
  {
    var s := num + " " + u.name;
    UnitsTold(i);
    SizeEnds(num, u);
    StripTrimmed(s);
    EndsIn(num, ALL_UNITS, i);
    StripBehind(num);
  }

  lemma NumeralTrimmed(n: nat)
    ensures Trimmed(Decimal(n))
  {
    DecimalReads(n);
  }

  lemma IntTrimmed(n: int)
    ensures Trimmed(IntText(n))
  {
    NumeralTrimmed(if n < 0 then -n else n);
  }

  lemma HundredthsTrimmed(q: nat)
    ensures Trimmed(HundredthsText(q))
  {
    NumeralTrimmed(q / 100);
    DigitReads(q % 10);
    assert HundredthsText(q)[0] == Decimal(q / 100)[0];
  }

  // ---------------------------------------------------------------------------
  // Sizes read back

  lemma LastUnit()
    ensures |ALL_UNITS| == 6 && ALL_UNITS[5] == B
  {
  }

  lemma LargeUnit(u: Unit) returns (i: nat)
    requires u in LARGE_UNITS
    ensures i < |ALL_UNITS| && ALL_UNITS[i] == u
  {
    i :| i < |LARGE_UNITS| && LARGE_UNITS[i] == u;
  }

  lemma IntSizeReads(n: int)
    ensures ReadSize(IntText(n) + " B") == (Numeral(n, 0), B)
  {
    IntReads(n);
    IntTrimmed(n);
    LastUnit();
    SizeReads(IntText(n), B, 5);
    InBytes(IntText(n));
  }

  lemma InBytes(s: string)
    ensures s + " " + B.name == s + " B"
  {
  }

  lemma LargeSizeReads(q: nat, u: Unit)
    requires u in LARGE_UNITS
    ensures ReadSize(HundredthsText(q) + " " + u.name) == (Numeral(q, 2), u)
  {
    HundredthsRead(q);
    HundredthsTrimmed(q);
    var i := LargeUnit(u);
    SizeReads(HundredthsText(q), u, i);
  }

  lemma FitsNext(b: real, u: Unit, units: seq<Unit>)
    ensures FittingUnit(b, [u] + units) == if b >= u.factor as real then Some(u) else FittingUnit(b, units)
  {
    assert ([u] + units)[1..] == units;
  }

  // Which sizes each unit is for.
  lemma UnitFits(b: real)
    ensures FittingUnit(b, LARGE_UNITS) ==
            if b >= PB.factor as real then Some(PB)
            else if b >= TB.factor as real then Some(TB)
            else if b >= GB.factor as real then Some(GB)
            else if b >= MB.factor as real then Some(MB)
            else if b >= KB.factor as real then Some(KB)
            else None
  {
    FitsNext(b, PB, [TB] + ([GB] + ([MB] + ([KB] + []))));
    FitsNext(b, TB, [GB] + ([MB] + ([KB] + [])));
    FitsNext(b, GB, [MB] + ([KB] + []));
    FitsNext(b, MB, [KB] + []);
    FitsNext(b, KB, []);
    assert [PB] + ([TB] + ([GB] + ([MB] + ([KB] + [])))) == LARGE_UNITS;
  }

  // ---------------------------------------------------------------------------
  // How far the text is from the size

  // The number and unit that a size is printed with.
  function PrintedSize(b: real): (Numeral, Unit) {
    var unit := FittingUnit(b, LARGE_UNITS);
    if unit.None? then (Numeral(Truncated(b), 0), B)
    else (Numeral(Hundredths(b, unit.value.factor), 2), unit.value)
  }

  // They are read back from the text, character by character.
  lemma PrintedReads(b: real)
    ensures ReadSize(BytesToHuman(b)) == PrintedSize(b)
  {
    var unit := FittingUnit(b, LARGE_UNITS);
    if unit.None? {
      IntSizeReads(Truncated(b));
    } else {
      LargeSizeReads(Hundredths(b, unit.value.factor), unit.value);
    }
  }

  lemma BytesRead(s: string, size: (Numeral, Unit))
    requires ReadSize(s) == size
    ensures ParseSizeBytes(s) == Bytes(size)
  {
  }

  // A size in hundredths of a unit, in bytes.
  function Kept(b: real, factor: Factor): real {
    Hundredths(b, factor) as real / 100.0 * factor as real
  }

  lemma HundredthsValue(q: int, u: Unit)
    ensures Bytes((Numeral(q, 2), u)) == q as real / 100.0 * u.factor as real
  {
    assert TenTo(2) == 10 * TenTo(1) && TenTo(1) == 10 * TenTo(0);
  }

  lemma WholeValue(n: int)
    ensures Bytes((Numeral(n, 0), B)) == n as real
  {
    assert TenTo(0) == 1 && B.factor == 1;
  }

  // The factor of the unit that a size is printed in.
  function Scale(b: real): Factor {
    var unit := FittingUnit(b, LARGE_UNITS);
    if unit.None? then 1 else unit.value.factor
  }

  lemma ScaleFacts(b: real)
    ensures b < 1024.0 <==> Scale(b) == 1
    ensures b >= 1024.0 ==> 1024.0 <= Scale(b) as real <= b
    ensures Scale(b) < PB.factor ==> b < 1024.0 * Scale(b) as real
  {
    UnitFits(b);
  }

  lemma ScaleSteps(a: real, b: real)
    requires a <= b && Scale(a) != Scale(b)
    ensures 1024 * Scale(a) <= Scale(b) && Scale(a) < PB.factor
  {
    UnitFits(a);
    UnitFits(b);
  }

  lemma SmallFits(b: real)
    ensures b < 1024.0 <==> FittingUnit(b, LARGE_UNITS).None?
  {
    UnitFits(b);
  }

  lemma SmallBytes(b: real)
    requires FittingUnit(b, LARGE_UNITS).None?
    ensures Bytes(PrintedSize(b)) == Truncated(b) as real
  {
    WholeValue(Truncated(b));
  }

  lemma LargePrinted(b: real, u: Unit)
    requires FittingUnit(b, LARGE_UNITS) == Some(u)
    ensures PrintedSize(b) == (Numeral(Hundredths(b, u.factor), 2), u)
  {
  }

  lemma LargeBytes(b: real, u: Unit)
    ensures Bytes((Numeral(Hundredths(b, u.factor), 2), u)) == Kept(b, u.factor)
  {
    HundredthsValue(Hundredths(b, u.factor), u);
  }

  // What is read back: whole bytes below 1024, hundredths of the unit from there on.
  lemma ReadBack(b: real)
    ensures ParseSizeBytes(BytesToHuman(b)) == if b < 1024.0 then Truncated(b) as real else Kept(b, Scale(b))
  {
    PrintedReads(b);
    BytesRead(BytesToHuman(b), PrintedSize(b));
    SmallFits(b);
    var unit := FittingUnit(b, LARGE_UNITS);
    if unit.None? {
      SmallBytes(b);
    } else {
      LargePrinted(b, unit.value);
      LargeBytes(b, unit.value);
    }
  }

  // ---------------------------------------------------------------------------
  // Error and order

  lemma Scaled(x: real, y: real, f: real)
    requires x <= y && f > 0.0
    ensures x * f <= y * f
  {
  }

  lemma Quotient(b: real, f: real)
    requires f > 0.0
    ensures b / f * f == b
  {
  }

  lemma ProductNear(b: real, f: real, x: real, y: real)
    requires 0.0 < f <= b && x * f == b && -0.005 <= y - x <= 0.005
    ensures -b / 200.0 <= y * f - b <= b / 200.0
  {
    var e := y - x;
    assert y * f == x * f + e * f;
    Scaled(e, 0.005, f);
    Scaled(-0.005, e, f);
  }

  lemma SameProduct(x: real, y: real, f: real)
    requires x == y
    ensures x * f == y * f
  {
  }

  lemma KeptNear(b: real, factor: Factor)
    requires b >= factor as real
    ensures -b / 200.0 <= Kept(b, factor) - b <= b / 200.0
  {
    var f := factor as real;
    Quotient(b, f);
    ProductNear(b, f, b / f, Hundredths(b, factor) as real / 100.0);
  }

  lemma RoundedMonotone(x: real, y: real)
    requires x <= y
    ensures Rounded(x) <= Rounded(y)
  {
    var f, g := x.Floor, y.Floor;
    assert f <= g && f <= Rounded(x) <= f + 1 && g <= Rounded(y) <= g + 1;
    if f == g && Rounded(x) == f + 1 {
      assert x - f as real >= 0.5 && y - f as real >= 0.5;
      assert Rounded(y) == f + 1;
    }
  }

  lemma RoundedWhole(m: int)
    ensures Rounded(m as real) == m
  {
    assert (m as real).Floor == m;
  }

  lemma QuotientMonotone(a: real, b: real, f: real)
    requires a <= b && f > 0.0
    ensures a / f <= b / f
  {
  }

  lemma QuotientOf(n: real, f: real)
    requires f > 0.0
    ensures n * f / f == n
  {
  }

  lemma KeptMonotone(a: real, b: real, factor: Factor)
    requires a <= b
    ensures Kept(a, factor) <= Kept(b, factor)
  {
    var f := factor as real;
    QuotientMonotone(a, b, f);
    RoundedMonotone(100.0 * (a / f), 100.0 * (b / f));
    Scaled(Hundredths(a, factor) as real / 100.0, Hundredths(b, factor) as real / 100.0, f);
  }

  lemma KeptIs(b: real, factor: Factor, q: int, m: real)
    requires Hundredths(b, factor) == q && q as real == 100.0 * m
    ensures Kept(b, factor) == m * factor as real
  {
    SameProduct(q as real / 100.0, m, factor as real);
  }

  // Whole units are kept exactly.
  lemma KeptExact(b: real, n: nat, factor: Factor)
    requires b == n as real * factor as real
    ensures Kept(b, factor) == b
  {
    QuotientOf(n as real, factor as real);
    RoundedWhole(100 * n);
    assert 100.0 * (n as real) == (100 * n) as real;
    KeptIs(b, factor, 100 * n, n as real);
  }

  // Between one unit and the next.
  lemma KeptWithin(b: real, factor: Factor)
    requires factor as real <= b
    ensures factor as real <= Kept(b, factor)
    ensures b <= 1024.0 * factor as real ==> Kept(b, factor) <= 1024.0 * factor as real
  {
    KeptExact(factor as real, 1, factor);
    KeptMonotone(factor as real, b, factor);
    if b <= 1024.0 * factor as real {
      KeptExact(1024.0 * factor as real, 1024, factor);
      KeptMonotone(b, 1024.0 * factor as real, factor);
    }
  }

  // Within half a percent from 1024 on; less than a byte, towards zero, below.
  lemma RoundTripError(b: real)
    ensures var back := ParseSizeBytes(BytesToHuman(b));
            && (b >= 1024.0 ==> -b / 200.0 <= back - b <= b / 200.0)
            && (0.0 <= b < 1024.0 ==> back <= b < back + 1.0)
            && (b < 0.0 ==> back - 1.0 < b <= back)
  {
    ReadBack(b);
    ScaleFacts(b);
    if b >= 1024.0 {
      KeptNear(b, Scale(b));
    }
  }

  lemma WholeMonotone(a: real, b: real)
    requires a <= b
    ensures Truncated(a) <= Truncated(b)
    ensures a < 1024.0 ==> Truncated(a) < 1024
  {
  }

  // A larger size never reads back smaller, across every unit boundary.
  lemma RoundTripMonotone(a: real, b: real)
    requires a <= b
    ensures ParseSizeBytes(BytesToHuman(a)) <= ParseSizeBytes(BytesToHuman(b))
  {
    ReadBack(a);
    ReadBack(b);
    ScaleFacts(a);
    ScaleFacts(b);
    WholeMonotone(a, b);
    if b >= 1024.0 {
      KeptWithin(b, Scale(b));
      if a >= 1024.0 {
        if Scale(a) == Scale(b) {
          KeptMonotone(a, b, Scale(a));
        } else {
          ScaleSteps(a, b);
          KeptWithin(a, Scale(a));
        }
      }
    }
  }

  // ---------------------------------------------------------------------------
  // The units by their names

  // The text shows b in this unit, to the nearest hundredth.
  ghost predicate PrintedIn(b: real, text: string, name: string, factor: real)
    requires factor > 0.0
  {
    exists q: int :: q >= 0 && text == HundredthsText(q) + " " + name && -0.5 <= q as real - 100.0 * (b / factor) <= 0.5
  }

  lemma ShownLarge(b: real, u: Unit)
    requires b >= 0.0 && FittingUnit(b, LARGE_UNITS) == Some(u)
    ensures PrintedIn(b, BytesToHuman(b), u.name, u.factor as real)
  {
    var q := Hundredths(b, u.factor);
    assert BytesToHuman(b) == HundredthsText(q) + " " + u.name;
  }

  // The unit of a size is the largest power of 1024 in it, under its name.
  lemma UnitShown(b: real)
    requires b >= 0.0
    ensures var text := BytesToHuman(b);
            if b >= 1125899906842624.0 then PrintedIn(b, text, "PB", 1125899906842624.0)
            else if b >= 1099511627776.0 then PrintedIn(b, text, "TB", 1099511627776.0)
            else if b >= 1073741824.0 then PrintedIn(b, text, "GB", 1073741824.0)
            else if b >= 1048576.0 then PrintedIn(b, text, "MB", 1048576.0)
            else if b >= 1024.0 then PrintedIn(b, text, "KB", 1024.0)
            else text == Decimal(b.Floor) + " B"
  {
    UnitFits(b);
    var u := FittingUnit(b, LARGE_UNITS);
    if u.Some? {
      ShownLarge(b, u.value);
    }
  }

  lemma WholeCounts(n: nat)
    ensures Value(Numeral(n, 0)) == n as real
  {
    assert TenTo(0) == 1;
  }

  lemma WholeBytes(n: nat, u: Unit)
    ensures Bytes((Numeral(n, 0), u)) == n as real * u.factor as real
  {
    WholeCounts(n);
    SameProduct(Value(Numeral(n, 0)), n as real, u.factor as real);
  }

  lemma WholeUnitReads(n: nat, u: Unit, i: nat, text: string)
    requires i < |ALL_UNITS| && u == ALL_UNITS[i] && text == Decimal(n) + " " + u.name
    ensures ParseSizeBytes(text) == Bytes((Numeral(n, 0), u))
  {
    WholeSizeReads(n, u, i);
    BytesRead(text, (Numeral(n, 0), u));
  }

  lemma WholeSizeReads(n: nat, u: Unit, i: nat)
    requires i < |ALL_UNITS| && u == ALL_UNITS[i]
    ensures ReadSize(Decimal(n) + " " + u.name) == (Numeral(n, 0), u)
  {
    IntReads(n);
    NumeralTrimmed(n);
    SizeReads(Decimal(n), u, i);
  }

  lemma Factors()
    ensures B.factor == 1 && KB.factor == 1024 && MB.factor == 1048576 && GB.factor == 1073741824
    ensures TB.factor == 1099511627776 && PB.factor == 1125899906842624
    ensures |ALL_UNITS| == 6 && ALL_UNITS == [PB, TB, GB, MB, KB, B]
  {
  }

  // A whole number in front of a unit counts as many of these bytes.
  lemma UnitReads(n: nat)
    ensures ParseSizeBytes(Decimal(n) + " B") == n as real
    ensures ParseSizeBytes(Decimal(n) + " KB") == n as real * 1024.0
    ensures ParseSizeBytes(Decimal(n) + " MB") == n as real * 1048576.0
    ensures ParseSizeBytes(Decimal(n) + " GB") == n as real * 1073741824.0
    ensures ParseSizeBytes(Decimal(n) + " TB") == n as real * 1099511627776.0
    ensures ParseSizeBytes(Decimal(n) + " PB") == n as real * 1125899906842624.0
  {
    UnitNames(n);
    Factors();
    OneUnitReads(n, PB, 0, Decimal(n) + " PB");
    OneUnitReads(n, TB, 1, Decimal(n) + " TB");
    OneUnitReads(n, GB, 2, Decimal(n) + " GB");
    OneUnitReads(n, MB, 3, Decimal(n) + " MB");
    OneUnitReads(n, KB, 4, Decimal(n) + " KB");
    OneUnitReads(n, B, 5, Decimal(n) + " B");
  }

  lemma OneUnitReads(n: nat, u: Unit, i: nat, text: string)
    requires i < |ALL_UNITS| && u == ALL_UNITS[i] && text == Decimal(n) + " " + u.name
    ensures ParseSizeBytes(text) == n as real * u.factor as real
  {
    WholeUnitReads(n, u, i, text);
    WholeBytes(n, u);
  }

  lemma UnitNames(n: nat)
    ensures Decimal(n) + " " + B.name == Decimal(n) + " B" && Decimal(n) + " " + KB.name == Decimal(n) + " KB"
    ensures Decimal(n) + " " + MB.name == Decimal(n) + " MB" && Decimal(n) + " " + GB.name == Decimal(n) + " GB"
    ensures Decimal(n) + " " + TB.name == Decimal(n) + " TB" && Decimal(n) + " " + PB.name == Decimal(n) + " PB"
  {
  }
}
