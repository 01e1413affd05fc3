/**
  Durations as PostgreSQL writes them (internal/parse/parse.go), with real numbers for float64.
 */
module PgTime {
  import opened Text
  import PgBytes

  datatype TimeUnit = Microseconds | Milliseconds | Seconds | Minutes | Hours | Days
  datatype VarType = Real | Integer

  /** UnitsToDuration, in nanoseconds */
  function Nanoseconds(u: TimeUnit): (n: int)
    ensures n > 0
  {
    match u
    case Microseconds => 1_000
    case Milliseconds => 1_000_000
    case Seconds => 1_000_000_000
    case Minutes => 60_000_000_000
    case Hours => 3_600_000_000_000
    case Days => 86_400_000_000_000
  }

  function NextSmallerTimeUnits(u: TimeUnit): TimeUnit {
    match u
    case Microseconds => Microseconds
    case Milliseconds => Microseconds
    case Seconds => Milliseconds
    case Minutes => Seconds
    case Hours => Minutes
    case Days => Hours
  }

  function TimeConversion(from: TimeUnit, to: TimeUnit): real {
    Nanoseconds(from) as real / Nanoseconds(to) as real
  }

  /** math.Round on a number that is not negative: halves go up. */
  function Round(x: real): real {
    (x + 0.5).Floor as real
  }

  function Power10(n: nat): (p: nat)
    ensures p > 0
  {
    if n == 0 then 1 else 10 * Power10(n - 1)
  }

  /** The value of `whole` or `whole.fraction`. */
  function DecimalValue(whole: string, fraction: string): (r: real)
    requires AllDigits(whole) && AllDigits(fraction)
    ensures r >= 0.0
  {
    NumberOf(whole) as real + NumberOf(fraction) as real / Power10(|fraction|) as real
  }

  function SkipSpaces(s: string): string {
    TrimLeft(s, IsSpace)
  }

  function NamedUnit(s: string): Option<Option<TimeUnit>> {
    if s == "" then Some(None)
    else if s == "us" then Some(Some(Microseconds))
    else if s == "ms" then Some(Some(Milliseconds))
    else if s == "s" then Some(Some(Seconds))
    else if s == "min" then Some(Some(Minutes))
    else if s == "h" then Some(Some(Hours))
    else if s == "d" then Some(Some(Days))
    else None
  }

  function DropEndQuote(s: string): string {
    if s != "" && s[|s| - 1] == '\'' then s[..|s| - 1] else s
  }

  /** (us|ms|s|min|h|d)?(?:')?$ */
  function UnitAndEnd(s: string): Option<Option<TimeUnit>> {
    NamedUnit(DropEndQuote(s))
  }

  /** A duration as written: a number that is not negative, and its unit if one is given. */
  datatype Written = Written(number: real, unit: Option<TimeUnit>)

  /** ^(?:')?([0-9]+(\.[0-9]+)?)(?:\s*)(us|ms|s|min|h|d)?(?:')?$ */
  function ReadTime(val: string): (r: Option<Written>)
    ensures r.Some? ==> r.value.number >= 0.0
  {
    ReadUnquoted(PgBytes.DropQuote(val))
  }

  /** The length of the fraction at the start of `s`, without its point. */
  function FractionRun(s: string): (f: nat)
    ensures f > 0 ==> f < |s| && s[0] == '.' && AllDigits(s[1..][..f])
  {
    if s != "" && s[0] == '.' then PgBytes.DigitRun(s[1..]) else 0
  }

  function ReadUnquoted(s: string): (r: Option<Written>)
    ensures r.Some? ==> r.value.number >= 0.0
  {
    var n := PgBytes.DigitRun(s);
    if n == 0 then None
    else
      var t := s[n..];
      var f := FractionRun(t);
      match UnitAndEnd(SkipSpaces(if f > 0 then t[1 + f..] else t))
      case None => None
      case Some(u) => Some(Written(DecimalValue(s[..n], if f > 0 then t[1..][..f] else ""), u))
  }

  /** `v` units `u` as a number of the next smaller units. */
  function Lowered(v: real, u: TimeUnit): real {
    Times(v, TimeConversion(u, NextSmallerTimeUnits(u)))
  }

  /** The closure `convert`: keep an integral number, move a fractional one to the next smaller unit. */
  function Convert(v: real, u: TimeUnit): (real, TimeUnit) {
    if v == v.Floor as real then (v, u)
    else
      (Round(Lowered(v, u)), NextSmallerTimeUnits(u))
  }

  const TWO_64: nat := PgBytes.UINT64_LIMIT
  const TWO_256: nat := TWO_64 * TWO_64 * TWO_64 * TWO_64

  /** 2^1024 less 2^970: from here on a number does not round to a float64, and strconv.ParseFloat fails. */
  const FLOAT_LIMIT: nat := TWO_256 * TWO_256 * TWO_256 * (TWO_256 - TWO_64 * TWO_64 * TWO_64 * 1024)

  predicate InRange(x: real) {
    x < FLOAT_LIMIT as real
  }

  lemma LimitIsLarge()
    ensures InRange(1000.0)
  {
  }

  /** The parsed number and the unit it is in; None is the source's format error. */
  function PGFormatToTime(val: string, defaultUnits: TimeUnit, vt: VarType): Option<(real, TimeUnit)> {
    match ReadTime(val)
    case None => None
    case Some(w) =>
      var units := if w.unit.Some? then w.unit.value else defaultUnits;
      if !InRange(w.number) then None
      else if units == defaultUnits && vt == Integer then Some((Round(w.number), units))
      else Some(Convert(w.number, units))
  }

  // ---------------------------------------------------------------- how far the result is from what was written

  function Abs(x: real): real {
    if x < 0.0 then -x else x
  }

  function Times(a: real, b: real): real {
    a * b
  }

  /** `v` units in nanoseconds. */
  function Span(v: real, u: TimeUnit): real {
    Times(v, Nanoseconds(u) as real)
  }

  /** A written duration in nanoseconds. */
  function Duration(w: Written, defaultUnits: TimeUnit): real {
    Span(w.number, if w.unit.Some? then w.unit.value else defaultUnits)
  }

  /** `v` units and `span` nanoseconds differ by at most half a unit. */
  predicate WithinHalf(v: real, u: TimeUnit, span: real) {
    Abs(Span(v, u) - span) <= Nanoseconds(u) as real / 2.0
  }

  lemma RoundError(x: real)
    ensures Abs(Round(x) - x) <= 0.5 && (x == x.Floor as real ==> Round(x) == x)
  {
    if x == x.Floor as real {
      assert (x + 0.5).Floor == x.Floor;
    }
  }

  lemma ScaleUp(a: real, b: real, n: real)
    requires a <= b && n > 0.0
    ensures Times(a, n) <= Times(b, n)
  {
  }

  lemma Distribute(a: real, b: real, n: real)
    ensures Times(a - b, n) == Times(a, n) - Times(b, n)
  {
  }

  lemma Halves(n: real)
    ensures Times(0.5, n) == n / 2.0 && Times(-0.5, n) == -(n / 2.0)
  {
  }

  lemma ErrorBounds(x: real, y: real, n: real)
    requires n > 0.0 && Abs(y - x) <= 0.5
    ensures -(n / 2.0) <= Times(y, n) - Times(x, n) <= n / 2.0
  {
    hide Times;
    ScaleUp(y - x, 0.5, n);
    ScaleUp(-0.5, y - x, n);
    Halves(n);
    Distribute(y, x, n);
  }

  /** Rounding a number of units moves a duration by at most half a unit. */
  lemma ScaledError(x: real, y: real, u: TimeUnit)
    requires Abs(y - x) <= 0.5
    ensures WithinHalf(y, u, Span(x, u))
  {
    hide Nanoseconds;
    hide Times;
    ErrorBounds(x, y, Nanoseconds(u) as real);
  }

  lemma Reassociate(v: real, n: real, m: real)
    requires m > 0.0
    ensures Times(Times(v, n / m), m) == Times(v, n)
  {
    assert n / m * m == n;
    assert v * (n / m) * m == v * (n / m * m);
  }

  /** The next smaller unit is smaller, and there is none in between. */
  lemma NextSmallerIsNext(u: TimeUnit)
    ensures u != Microseconds ==> Nanoseconds(NextSmallerTimeUnits(u)) < Nanoseconds(u)
    ensures forall v :: Nanoseconds(v) < Nanoseconds(u) ==> Nanoseconds(v) <= Nanoseconds(NextSmallerTimeUnits(u))
  {
  }

  lemma ConversionExact(v: real, u: TimeUnit)
    ensures Span(Lowered(v, u), NextSmallerTimeUnits(u)) == Span(v, u)
  {
    hide Nanoseconds;
    hide Times;
    Reassociate(v, Nanoseconds(u) as real, Nanoseconds(NextSmallerTimeUnits(u)) as real);
  }

  lemma ConvertError(v: real, u: TimeUnit)
    ensures WithinHalf(Convert(v, u).0, Convert(v, u).1, Span(v, u))
    ensures v == v.Floor as real ==> Convert(v, u) == (v, u)
  {
    hide Span;
    hide WithinHalf;
    hide Round;
    hide Lowered;
    if v == v.Floor as real {
      ScaledError(v, v, u);
    } else {
      var x := Lowered(v, u);
      RoundError(x);
      ScaledError(x, Round(x), NextSmallerTimeUnits(u));
      ConversionExact(v, u);
    }
  }

  /**
    Whatever is accepted, the returned number of returned units is within half a unit of the
    duration written, and equal to it when the number written is integral.
   */
  lemma TimeWithinHalfUnit(val: string, defaultUnits: TimeUnit, vt: VarType)
    ensures PGFormatToTime(val, defaultUnits, vt).Some? <==> ReadTime(val).Some? && InRange(ReadTime(val).value.number)
    ensures match (PGFormatToTime(val, defaultUnits, vt), ReadTime(val))
            case (Some((v, u)), Some(w)) =>
              && WithinHalf(v, u, Duration(w, defaultUnits)) && v == v.Floor as real
              && (w.number == w.number.Floor as real ==> Span(v, u) == Duration(w, defaultUnits))
              && (var units := if w.unit.Some? then w.unit.value else defaultUnits;
                  u == if w.number == w.number.Floor as real || (vt == Integer && units == defaultUnits) then units
                       else NextSmallerTimeUnits(units))
            case _ => true
  {
    hide ReadTime;
    hide InRange;
    hide Span;
    hide WithinHalf;
    match ReadTime(val)
    case None =>
    case Some(w) =>
      var units := if w.unit.Some? then w.unit.value else defaultUnits;
      RoundError(w.number);
      ScaledError(w.number, Round(w.number), units);
      ConvertError(w.number, units);
  }

  // ---------------------------------------------------------------- what is accepted

  function UnitName(u: TimeUnit): string {
    match u
    case Microseconds => "us"
    case Milliseconds => "ms"
    case Seconds => "s"
    case Minutes => "min"
    case Hours => "h"
    case Days => "d"
  }

  function Name(unit: Option<TimeUnit>): string {
    match unit
    case None => ""
    case Some(u) => UnitName(u)
  }

  function Fraction(d: string): string {
    if d == "" then "" else "." + d
  }

  /** The text of a duration: digits, a fraction, white space and a unit, with a quote before and after, all but the digits optional. */
  predicate TimeText(val: string, q1: string, n: string, d: string, spaces: string, unit: Option<TimeUnit>, q2: string) {
    PgBytes.IsQuote(q1) && PgBytes.IsQuote(q2) && n != "" && AllDigits(n) && AllDigits(d) && AllSpace(spaces) &&
    val == q1 + (n + (Fraction(d) + (spaces + (Name(unit) + q2))))
  }

  /** What follows the number does not go on with it. */
  predicate NoNumber(t: string) {
    t != "" ==> !IsDigit(t[0]) && t[0] != '.'
  }

  lemma AfterNumber(spaces: string, unit: Option<TimeUnit>, q2: string)
    requires AllSpace(spaces) && PgBytes.IsQuote(q2)
    ensures NoNumber(spaces + (Name(unit) + q2)) && (Name(unit) + q2 != "" ==> !IsSpace((Name(unit) + q2)[0]))
  {
    var t := Name(unit) + q2;
    assert t != "" ==> !IsDigit(t[0]) && t[0] != '.' && !IsSpace(t[0]);
    assert spaces + t != "" ==> (spaces + t)[0] == if spaces == "" then t[0] else spaces[0];
  }

  lemma ReadFraction(d: string, t: string)
    requires AllDigits(d) && NoNumber(t)
    ensures var s := Fraction(d) + t;
            && FractionRun(s) == |d|
            && (if d == "" then s == t else s[1..][..|d|] == d && s[1 + |d|..] == t)
  {
    hide PgBytes.DigitRun;
    var s := Fraction(d) + t;
    if d == "" {
      assert s == t;
    } else {
      assert s == "." + (d + t);
      assert s[1..] == d + t;
      PgBytes.ReadDigits(d, t);
      assert s[1 + |d|..] == (d + t)[|d|..];
    }
  }

  lemma ReadUnit(unit: Option<TimeUnit>, q2: string)
    requires PgBytes.IsQuote(q2)
    ensures UnitAndEnd(Name(unit) + q2) == Some(unit)
  {
    NameIsNamed(unit);
    hide NamedUnit;
    var t := Name(unit) + q2;
    assert if q2 == "" then t == Name(unit) else t[..|t| - 1] == Name(unit);
    hide Name;
  }

  lemma NameIsNamed(unit: Option<TimeUnit>)
    ensures NamedUnit(Name(unit)) == Some(unit) && (Name(unit) != "" ==> Name(unit)[|Name(unit)| - 1] != '\'')
  {
  }

  lemma PiecesAreRead(s: string, k: nat, d: string, unit: Option<TimeUnit>)
    requires PgBytes.DigitRun(s) == k > 0 && FractionRun(s[k..]) == |d| && AllDigits(d)
    requires d != "" ==> s[k..][1..][..|d|] == d
    requires UnitAndEnd(SkipSpaces(if d == "" then s[k..] else s[k..][1 + |d|..])) == Some(unit)
    ensures AllDigits(s[..k]) && ReadUnquoted(s) == Some(Written(DecimalValue(s[..k], d), unit))
  {
    hide PgBytes.DigitRun;
    hide DecimalValue;
    hide SkipSpaces;
    hide UnitAndEnd;
    hide FractionRun;
  }

  lemma UnquotedIsRead(n: string, d: string, spaces: string, unit: Option<TimeUnit>, q2: string)
    requires PgBytes.IsQuote(q2) && n != "" && AllDigits(n) && AllDigits(d) && AllSpace(spaces)
    ensures ReadUnquoted(n + (Fraction(d) + (spaces + (Name(unit) + q2)))) == Some(Written(DecimalValue(n, d), unit))
  {
    hide ReadUnquoted;
    hide PgBytes.DigitRun;
    hide DecimalValue;
    hide SkipSpaces;
    hide UnitAndEnd;
    hide FractionRun;
    var t := spaces + (Name(unit) + q2);
    AfterNumber(spaces, unit, q2);
    SkipAll(spaces, Name(unit) + q2);
    ReadUnit(unit, q2);
    hide Name;
    FractionStarts(d, t);
    ReadFraction(d, t);
    hide Fraction;
    var s := n + (Fraction(d) + t);
    PgBytes.ReadDigits(n, Fraction(d) + t);
    hide AllDigits;
    hide AllSpace;
    PiecesAreRead(s, |n|, d, unit);
  }

  lemma FractionStarts(d: string, t: string)
    requires NoNumber(t)
    ensures Fraction(d) + t != "" ==> !IsDigit((Fraction(d) + t)[0])
  {
    assert d == "" ==> Fraction(d) + t == t;
  }

  /** Whatever is written as a duration is read as it is written. */
  lemma TimeIsRead(val: string, q1: string, n: string, d: string, spaces: string, unit: Option<TimeUnit>, q2: string)
    requires TimeText(val, q1, n, d, spaces, unit, q2)
    ensures ReadTime(val) == Some(Written(DecimalValue(n, d), unit))
  {
    UnquotedIsRead(n, d, spaces, unit, q2);
    hide ReadUnquoted;
    hide DecimalValue;
    hide Fraction;
    hide Name;
    PgBytes.DropsQuote(q1, n + (Fraction(d) + (spaces + (Name(unit) + q2))));
  }

  lemma UnitTaken(t: string) returns (unit: Option<TimeUnit>, q2: string)
    requires UnitAndEnd(t).Some?
    ensures UnitAndEnd(t) == Some(unit) && PgBytes.IsQuote(q2) && t == Name(unit) + q2
  {
    unit := UnitAndEnd(t).value;
    q2 := t[|DropEndQuote(t)|..];
    assert Name(unit) == DropEndQuote(t);
    hide Name;
    hide NamedUnit;
  }

  lemma {:induction false} SpacesTaken(s: string) returns (spaces: string)
    ensures AllSpace(spaces) && s == spaces + SkipSpaces(s)
    decreases |s|
  {
    spaces := "";
    if s != "" && IsSpace(s[0]) {
      var more := SpacesTaken(s[1..]);
      spaces := [s[0]] + more;
      assert s == [s[0]] + s[1..];
    }
  }

  lemma FractionTaken(t: string) returns (d: string, rest: string)
    ensures AllDigits(d) && t == Fraction(d) + rest
    ensures var f := FractionRun(t);
            d == (if f > 0 then t[1..][..f] else "") && rest == if f > 0 then t[1 + f..] else t
  {
    var f := FractionRun(t);
    d := if f > 0 then t[1..][..f] else "";
    rest := if f > 0 then t[1 + f..] else t;
    hide FractionRun;
    if f > 0 {
      assert t == "." + t[1..][..f] + t[1 + f..];
    } else {
      assert "" + t == t;
    }
  }

  /** The three pieces of what is read: digits, fraction, and white space with the unit. */
  lemma UnquotedPieces(s: string)
    requires ReadUnquoted(s).Some?
    ensures var k := PgBytes.DigitRun(s);
            k > 0 && AllDigits(s[..k]) && s == s[..k] + s[k..] &&
            var f := FractionRun(s[k..]);
            var rest := if f > 0 then s[k..][1 + f..] else s[k..];
            var d := if f > 0 then s[k..][1..][..f] else "";
            && UnitAndEnd(SkipSpaces(rest)) == Some(ReadUnquoted(s).value.unit)
            && AllDigits(d) && ReadUnquoted(s).value.number == DecimalValue(s[..k], d)
  {
    hide PgBytes.DigitRun;
    hide DecimalValue;
    hide SkipSpaces;
    hide UnitAndEnd;
    hide FractionRun;
  }

  lemma UnquotedParts(s: string) returns (n: string, d: string, spaces: string, q2: string)
    requires ReadUnquoted(s).Some?
    ensures PgBytes.IsQuote(q2) && n != "" && AllDigits(n) && AllDigits(d) && AllSpace(spaces)
    ensures s == n + (Fraction(d) + (spaces + (Name(ReadUnquoted(s).value.unit) + q2)))
    ensures ReadUnquoted(s).value.number == DecimalValue(n, d)
  {
    UnquotedPieces(s);
    hide ReadUnquoted;
    hide DecimalValue;
    hide SkipSpaces;
    hide UnitAndEnd;
    hide Name;
    hide FractionRun;
    hide AllDigits;
    hide AllSpace;
    var k := PgBytes.DigitRun(s);
    hide PgBytes.DigitRun;
    n := s[..k];
    var rest: string;
    d, rest := FractionTaken(s[k..]);
    hide Fraction;
    spaces := SpacesTaken(rest);
    var unit: Option<TimeUnit>;
    unit, q2 := UnitTaken(SkipSpaces(rest));
  }

  /** And nothing else is read. */
  lemma ReadTimeParts(val: string) returns (q1: string, n: string, d: string, spaces: string, q2: string)
    requires ReadTime(val).Some?
    ensures TimeText(val, q1, n, d, spaces, ReadTime(val).value.unit, q2) && ReadTime(val).value.number == DecimalValue(n, d)
  {
    hide ReadUnquoted;
    hide DecimalValue;
    hide Fraction;
    hide Name;
    var s := PgBytes.DropQuote(val);
    n, d, spaces, q2 := UnquotedParts(s);
    q1 := if |val| > 0 && val[0] == '\'' then "'" else "";
    assert val == q1 + s;
  }

  /** The format: exactly the texts of durations are read, with the number and the unit written. */
  lemma ReadTimeIff(val: string, w: Written)
    ensures ReadTime(val) == Some(w) <==>
            exists q1, n, d, spaces, q2 :: TimeText(val, q1, n, d, spaces, w.unit, q2) && w.number == DecimalValue(n, d)
  {
    hide ReadTime;
    hide DecimalValue;
    hide Fraction;
    hide Name;
    if ReadTime(val).Some? {
      var q1, n, d, spaces, q2 := ReadTimeParts(val);
    }
    forall q1, n, d, spaces, q2 | TimeText(val, q1, n, d, spaces, w.unit, q2) && w.number == DecimalValue(n, d)
      ensures ReadTime(val) == Some(w)
    {
      TimeIsRead(val, q1, n, d, spaces, w.unit, q2);
    }
  }

  /** Every integral number, any white space and any unit are read as written. */
  lemma IntegralTimeIsRead(n: nat, spaces: string, u: TimeUnit)
    requires AllSpace(spaces)
    ensures ReadTime(Decimal(n) + (spaces + UnitName(u))) == Some(Written(n as real, Some(u)))
  {
    hide Decimal;
    hide NumberOf;
    hide ReadTime;
    DecimalRoundTrip(n);
    WholeValue(Decimal(n));
    var val := Decimal(n) + (spaces + UnitName(u));
    assert UnitName(u) + "" == UnitName(u) && "" + (spaces + UnitName(u)) == spaces + UnitName(u) && "" + val == val;
    TimeIsRead(val, "", Decimal(n), "", spaces, Some(u), "");
  }

  lemma WholeValue(d: string)
    requires AllDigits(d)
    ensures DecimalValue(d, "") == NumberOf(d) as real
  {
    EmptyNumber();
  }

  lemma EmptyNumber()
    ensures NumberOf("") == 0
  {
  }

  lemma {:induction false} SkipAll(spaces: string, t: string)
    requires AllSpace(spaces) && (t != "" ==> !IsSpace(t[0]))
    ensures SkipSpaces(spaces + t) == t
    decreases |spaces|
  {
    if spaces == "" {
      assert spaces + t == t;
    } else {
      assert (spaces + t)[1..] == spaces[1..] + t;
      SkipAll(spaces[1..], t);
    }
  }
}
