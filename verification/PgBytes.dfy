/** Byte amounts as PostgreSQL writes them (internal/parse/parse.go): printing, parsing, and what is lost between. */
module PgBytes {
  import opened Text

  const KILOBYTE := 0x400
  const MEGABYTE := 0x10_0000
  const GIGABYTE := 0x4000_0000
  const TERABYTE := 0x100_0000_0000

  /** Below this bound a float64 holds every byte count exactly. */
  const EXACT_LIMIT := 0x20_0000_0000_0000
  const INT64_LIMIT := 0x8000_0000_0000_0000
  const UINT64_LIMIT := 0x1_0000_0000_0000_0000

  datatype Unit = B | KB | MB | GB | TB
  {
    function Size(): (n: nat)
      ensures n > 0
    {
      match this
      case B => 1
      case KB => KILOBYTE
      case MB => MEGABYTE
      case GB => GIGABYTE
      case TB => TERABYTE
    }

    function Suffix(): string {
      match this
      case B => ""
      case KB => "kB"
      case MB => "MB"
      case GB => "GB"
      case TB => "TB"
    }

    /** The unit 1024 times smaller. */
    function Lower(): Unit {
      match this
      case TB => GB
      case GB => MB
      case MB => KB
      case _ => B
    }
  }

  /** The unit parseIntToFloatUnits selects. */
  function UnitOf(bytes: nat): Unit {
    if bytes >= TERABYTE then TB
    else if bytes >= GIGABYTE then GB
    else if bytes >= MEGABYTE then MB
    else if bytes >= KILOBYTE then KB
    else B
  }

  /** The fractional part, in units `u`, is more than 0.001. */
  predicate FractionMatters(bytes: nat, u: Unit) {
    bytes % u.Size() * 1000 > u.Size()
  }

  datatype Amount = Amount(count: nat, units: Unit)
  {
    function Bytes(): nat {
      count * units.Size()
    }
  }

  /** The count and unit that BytesToPGFormat prints. */
  function Rounded(bytes: nat): Amount {
    var u := UnitOf(bytes);
    match u
    case B => Amount(1, KB)
    case KB => Amount((bytes + KILOBYTE / 2) / KILOBYTE, KB)
    case _ =>
      if FractionMatters(bytes, u) then Amount(bytes * 1024 / u.Size(), u.Lower())
      else Amount(bytes / u.Size(), u)
  }

  /** The source panics on zero bytes. */
  function BytesToPGFormat(bytes: nat): string
    requires bytes >= 1
  {
    var a := Rounded(bytes);
    Decimal(a.count) + a.units.Suffix()
  }

  /** The length of the digits at the start of `s`. */
  function DigitRun(s: string): (n: nat)
    ensures n <= |s| && AllDigits(s[..n]) && (n < |s| ==> !IsDigit(s[n]))
  {
    if |s| > 0 && IsDigit(s[0]) then
      var n := 1 + DigitRun(s[1..]);
      assert forall i :: 1 <= i < n ==> s[i] == s[1..][..n - 1][i - 1];
      n
    else 0
  }

  function DropQuote(s: string): string {
    if |s| > 0 && s[0] == '\'' then s[1..] else s
  }

  function UnitAt(s: string): Option<Unit> {
    if |s| < 2 || s[1] != 'B' then None
    else match s[0]
      case 'k' => Some(KB)
      case 'M' => Some(MB)
      case 'G' => Some(GB)
      case 'T' => Some(TB)
      case _ => None
  }

  /** ^(?:')?([0-9]+)((?:k|M|G|T)B)?(?:')?$, an int64 number, and a uint64 product. */
  function PGFormatToBytes(val: string): Option<nat> {
    var s := DropQuote(val);
    var n := DigitRun(s);
    var u := UnitAt(s[n..]);
    var rest := if u.Some? then s[n + 2..] else s[n..];
    if n == 0 || (rest != "" && rest != "'") then None
    else
      var num := NumberOf(s[..n]);
      if num >= INT64_LIMIT then None
      else Some(num * (if u.Some? then u.value.Size() else 1) % UINT64_LIMIT)
  }

  // ---------------------------------------------------------------- printing then parsing

  /** What is left of `bytes` after printing and parsing. */
  function Reparsed(bytes: nat): nat {
    Rounded(bytes).Bytes()
  }

  lemma RoundedSize(bytes: nat)
    requires bytes >= 1
    ensures Rounded(bytes).units != B && Reparsed(bytes) >= 1
    ensures Reparsed(bytes) <= bytes + 1024
  {
  }

  /** Text printed with a unit parses to the count times the unit. */
  lemma ParsePrinted(count: nat, u: Unit)
    requires u != B && count < INT64_LIMIT
    ensures PGFormatToBytes(Decimal(count) + u.Suffix()) == Some(count * u.Size() % UINT64_LIMIT)
  {
    hide Decimal;
    hide NumberOf;
    hide DigitRun;
    var d, t := Decimal(count), u.Suffix();
    DecimalRoundTrip(count);
    ReadPrinted(d, t);
    UnitOfSuffix(u);
  }

  lemma UnitOfSuffix(u: Unit)
    requires u != B
    ensures |u.Suffix()| == 2 && !IsDigit(u.Suffix()[0]) && UnitAt(u.Suffix()) == Some(u)
  {
  }

  lemma ReadPrinted(d: string, t: string)
    requires AllDigits(d) && |d| >= 1 && |t| == 2 && !IsDigit(t[0])
    ensures var s := d + t; DropQuote(s) == s && DigitRun(s) == |d| && s[|d|..] == t && s[..|d|] == d && s[|d| + 2..] == ""
  {
    hide DigitRun;
    var s := d + t;
    assert s[..|d|] == d;
    DigitRunIs(s, |d|);
  }

  lemma {:induction false} DigitRunIs(s: string, n: nat)
    requires n <= |s| && AllDigits(s[..n]) && (n < |s| ==> !IsDigit(s[n]))
    ensures DigitRun(s) == n
  {
    if n > 0 {
      assert s[0] == s[..n][0];
      assert s[1..][..n - 1] == s[..n][1..];
      DigitRunIs(s[1..], n - 1);
    }
  }

  // ---------------------------------------------------------------- the format

  predicate IsQuote(q: string) {
    q == "" || q == "'"
  }

  lemma DropsQuote(q1: string, t: string)
    requires IsQuote(q1) && t != "" && IsDigit(t[0])
    ensures DropQuote(q1 + t) == t
  {
    assert q1 == "" ==> q1 + t == t;
    assert (q1 + t)[|q1|..] == t;
  }

  lemma ReadDigits(d: string, t: string)
    requires AllDigits(d) && (t != "" ==> !IsDigit(t[0]))
    ensures DigitRun(d + t) == |d| && (d + t)[..|d|] == d && (d + t)[|d|..] == t
    ensures t != "" ==> (d + t)[|d|] == t[0]
  {
    hide DigitRun;
    assert (d + t)[..|d|] == d;
    DigitRunIs(d + t, |d|);
  }

  function SuffixOf(u: Option<Unit>): string {
    match u
    case None => ""
    case Some(unit) => unit.Suffix()
  }

  function SizeOf(u: Option<Unit>): nat {
    match u
    case None => 1
    case Some(unit) => unit.Size()
  }

  /** The text of an amount: digits and a unit, with a quote before and after, all but the digits optional. */
  predicate BytesText(val: string, q1: string, n: string, u: Option<Unit>, q2: string) {
    IsQuote(q1) && IsQuote(q2) && n != "" && AllDigits(n) && u != Some(B) &&
    val == q1 + (n + (SuffixOf(u) + q2))
  }

  lemma ReadSuffix(u: Option<Unit>, q2: string)
    requires IsQuote(q2) && u != Some(B)
    ensures var t := SuffixOf(u) + q2;
            && UnitAt(t) == u && (t != "" ==> !IsDigit(t[0]))
            && (if u.Some? then |t| >= 2 && t[2..] == q2 else t == q2)
  {
  }

  lemma SuffixTaken(t: string) returns (q2: string)
    requires var rest := if UnitAt(t).Some? then t[2..] else t; rest == "" || rest == "'"
    ensures IsQuote(q2) && UnitAt(t) != Some(B) && t == SuffixOf(UnitAt(t)) + q2
  {
    q2 := if UnitAt(t).Some? then t[2..] else t;
    assert UnitAt(t).Some? ==> t[..2] == SuffixOf(UnitAt(t)) && t == t[..2] + q2;
    assert UnitAt(t).None? ==> "" + q2 == t;
  }

  lemma BytesOfPieces(val: string, k: nat, u: Option<Unit>)
    requires var s := DropQuote(val);
             DigitRun(s) == k > 0 && UnitAt(s[k..]) == u && IsQuote(if u.Some? then s[k..][2..] else s[k..])
    ensures var n := DropQuote(val)[..k];
            AllDigits(n) && PGFormatToBytes(val) == if NumberOf(n) < INT64_LIMIT then Some(NumberOf(n) * SizeOf(u) % UINT64_LIMIT) else None
  {
    hide NumberOf;
    hide DigitRun;
    if u.Some? {
      CutTwice(DropQuote(val), k);
    }
    hide UnitAt;
    hide DropQuote;
  }

  lemma BytesAreRead(val: string, q1: string, n: string, u: Option<Unit>, q2: string)
    requires BytesText(val, q1, n, u, q2)
    ensures PGFormatToBytes(val) == if NumberOf(n) < INT64_LIMIT then Some(NumberOf(n) * SizeOf(u) % UINT64_LIMIT) else None
  {
    hide PGFormatToBytes;
    hide NumberOf;
    hide DigitRun;
    hide UnitAt;
    hide DropQuote;
    ReadSuffix(u, q2);
    var t := SuffixOf(u) + q2;
    hide SuffixOf;
    ReadDigits(n, t);
    DropsQuote(q1, n + t);
    BytesOfPieces(val, |n|, u);
  }

  lemma CutTwice(s: string, k: nat)
    requires k + 2 <= |s|
    ensures s[k..][2..] == s[k + 2..]
  {
  }

  lemma BytesPieces(val: string)
    requires PGFormatToBytes(val).Some?
    ensures var s := DropQuote(val);
            var k := DigitRun(s);
            k > 0 && AllDigits(s[..k]) && s == s[..k] + s[k..] &&
            var rest := if UnitAt(s[k..]).Some? then s[k..][2..] else s[k..];
            rest == "" || rest == "'"
  {
    hide NumberOf;
    hide DigitRun;
    var s := DropQuote(val);
    var k := DigitRun(s);
    if UnitAt(s[k..]).Some? {
      CutTwice(s, k);
    }
    hide UnitAt;
  }

  lemma BytesParts(val: string) returns (q1: string, n: string, u: Option<Unit>, q2: string)
    requires PGFormatToBytes(val).Some?
    ensures BytesText(val, q1, n, u, q2)
  {
    BytesPieces(val);
    hide PGFormatToBytes;
    hide UnitAt;
    hide SuffixOf;
    var s := DropQuote(val);
    q1 := if |val| > 0 && val[0] == '\'' then "'" else "";
    assert val == q1 + s;
    var k := DigitRun(s);
    n, u := s[..k], UnitAt(s[k..]);
    hide DigitRun;
    q2 := SuffixTaken(s[k..]);
  }

  /** Exactly the texts of amounts are read, as long as the number is an int64; the product is a uint64 and can wrap around. */
  lemma PGFormatToBytesIff(val: string, bytes: nat)
    ensures PGFormatToBytes(val) == Some(bytes) <==>
            exists q1, n, u, q2 :: BytesText(val, q1, n, u, q2) && NumberOf(n) < INT64_LIMIT &&
                                   bytes == NumberOf(n) * SizeOf(u) % UINT64_LIMIT
  {
    hide PGFormatToBytes;
    hide NumberOf;
    hide SuffixOf;
    hide SizeOf;
    if PGFormatToBytes(val).Some? {
      var q1, n, u, q2 := BytesParts(val);
      BytesAreRead(val, q1, n, u, q2);
    }
    forall q1, n, u, q2 | BytesText(val, q1, n, u, q2) && NumberOf(n) < INT64_LIMIT && bytes == NumberOf(n) * SizeOf(u) % UINT64_LIMIT
      ensures PGFormatToBytes(val) == Some(bytes)
    {
      BytesAreRead(val, q1, n, u, q2);
    }
  }

  /** What is printed for any uint64 can be parsed. */
  lemma PrintedIsParsed(bytes: nat)
    requires 1 <= bytes < UINT64_LIMIT
    ensures PGFormatToBytes(BytesToPGFormat(bytes)).Some?
  {
    RoundedSize(bytes);
    var a := Rounded(bytes);
    ParsePrinted(a.count, a.units);
  }

  /** Parsing what was printed gives exactly `Reparsed`, for every count a float64 holds exactly. */
  lemma FormatThenParse(bytes: nat)
    requires 1 <= bytes < EXACT_LIMIT
    ensures PGFormatToBytes(BytesToPGFormat(bytes)) == Some(Reparsed(bytes))
  {
    RoundedSize(bytes);
    var a := Rounded(bytes);
    ParsePrinted(a.count, a.units);
  }

  /** From a megabyte up nothing is gained and at most a thousandth is lost. */
  lemma LossAtMostAThousandth(bytes: nat)
    requires bytes >= MEGABYTE
    ensures Reparsed(bytes) <= bytes && (bytes - Reparsed(bytes)) * 1000 <= bytes
  {
  }

  /** Between a kilobyte and a megabyte the nearest kilobyte is taken. */
  lemma NearestKilobyte(bytes: nat)
    requires KILOBYTE <= bytes < MEGABYTE
    ensures -512 <= Reparsed(bytes) - bytes <= 512
  {
  }

  /** From a megabyte up, in terms of the smaller unit: how the count is found and when it is used. */
  lemma InLowerUnits(bytes: nat)
    requires bytes >= MEGABYTE
    ensures var u := UnitOf(bytes);
            var d := u.Lower().Size();
            var q := bytes / d;
            && u.Size() == 1024 * d && q >= 1024
            && bytes * 1024 / u.Size() == q && bytes / u.Size() == q / 1024
            && bytes % u.Size() == q % 1024 * d + bytes % d
            && (FractionMatters(bytes, u) <==> q % 1024 >= 2 || (q % 1024 == 1 && bytes % d * 1000 > 24 * d))
  {
    match UnitOf(bytes)
    case TB => LowerBy(bytes, GIGABYTE);
    case GB => LowerBy(bytes, MEGABYTE);
    case MB => LowerBy(bytes, KILOBYTE);
  }

  lemma LowerBy(bytes: nat, d: nat)
    requires d == KILOBYTE || d == MEGABYTE || d == GIGABYTE
    ensures bytes * 1024 / (1024 * d) == bytes / d && bytes / (1024 * d) == bytes / d / 1024
    ensures bytes % (1024 * d) == bytes / d % 1024 * d + bytes % d
  {
    if d == KILOBYTE {
    } else if d == MEGABYTE {
    } else {
    }
  }

  /** The count that survives, from quotient and remainder by the smaller unit. */
  function Kept(q: nat, r: nat, d: nat): nat {
    if q % 1024 >= 2 || (q % 1024 == 1 && r * 1000 > 24 * d) then q else q - q % 1024
  }

  /** The smaller unit of an amount of at least a megabyte. */
  function Grain(bytes: nat): (d: nat)
    requires bytes >= MEGABYTE
    ensures d == KILOBYTE || d == MEGABYTE || d == GIGABYTE
  {
    UnitOf(bytes).Lower().Size()
  }

  lemma ReparsedForm(bytes: nat)
    requires bytes >= MEGABYTE
    ensures var d := Grain(bytes);
            var k := Kept(bytes / d, bytes % d, d);
            Reparsed(bytes) == k * d && k >= 1024
    ensures UnitOf(bytes).Size() <= Reparsed(bytes) <= bytes
  {
    InLowerUnits(bytes);
    var d := Grain(bytes);
    WholeUnits(bytes, bytes / d, d);
    hide FractionMatters;
    hide UnitOf;
    hide Grain;
  }

  lemma WholeUnits(bytes: nat, q: nat, d: nat)
    requires d == KILOBYTE || d == MEGABYTE || d == GIGABYTE
    requires q == bytes / d && q >= 1024
    ensures q / 1024 * (1024 * d) == (q - q % 1024) * d
    ensures 1024 * d <= (q - q % 1024) * d <= q * d <= bytes
  {
    if d == KILOBYTE {
    } else if d == MEGABYTE {
    } else {
    }
  }

  lemma KeptMonotone(q1: nat, r1: nat, q2: nat, r2: nat, d: nat)
    requires q1 < q2 || (q1 == q2 && r1 <= r2)
    ensures Kept(q1, r1, d) <= Kept(q2, r2, d)
  {
  }

  lemma DivModMonotone(a: nat, b: nat, d: nat)
    requires a <= b && d > 0
    ensures a / d < b / d || (a / d == b / d && a % d <= b % d)
  {
    assert a == a / d * d + a % d && b == b / d * d + b % d;
    if b / d < a / d {
      MulMonotone(b / d + 1, a / d, d);
    }
  }

  lemma MulMonotone(x: nat, y: nat, d: nat)
    requires x <= y
    ensures x * d <= y * d
  {
  }

  lemma SameUnitMonotone(a: nat, b: nat)
    requires MEGABYTE <= a <= b && UnitOf(a) == UnitOf(b)
    ensures Reparsed(a) <= Reparsed(b)
  {
    ReparsedForm(a);
    ReparsedForm(b);
    hide Reparsed;
    hide Kept;
    var d := Grain(a);
    DivModMonotone(a, b, d);
    KeptMonotone(a / d, a % d, b / d, b % d, d);
    MulMonotone(Kept(a / d, a % d, d), Kept(b / d, b % d, d), d);
  }

  lemma BelowAMegabyte(a: nat, b: nat)
    requires 1 <= a <= b < MEGABYTE
    ensures Reparsed(a) <= Reparsed(b) <= MEGABYTE
  {
  }

  lemma UnitsInOrder(a: nat, b: nat)
    requires a <= b && UnitOf(a) != UnitOf(b)
    ensures a <= UnitOf(b).Size() && (b >= MEGABYTE ==> MEGABYTE <= UnitOf(b).Size())
  {
  }

  /** Printing and parsing never reverses the order of two amounts. */
  lemma ReparsedMonotone(a: nat, b: nat)
    requires 1 <= a <= b
    ensures Reparsed(a) <= Reparsed(b)
  {
    hide Reparsed;
    hide UnitOf;
    if b < MEGABYTE {
      BelowAMegabyte(a, b);
    } else if a >= MEGABYTE && UnitOf(a) == UnitOf(b) {
      SameUnitMonotone(a, b);
    } else {
      ReparsedForm(b);
      if a >= MEGABYTE {
        UnitsInOrder(a, b);
        ReparsedForm(a);
      } else {
        BelowAMegabyte(a, a);
        LargeUnit(b);
      }
    }
  }

  lemma LargeUnit(b: nat)
    requires b >= MEGABYTE
    ensures UnitOf(b).Size() >= MEGABYTE
  {
  }

  /** Exactly when reformatting drops something more: a lowered unit whose count is 1 modulo 1024. */
  predicate DropsMore(bytes: nat) {
    bytes >= MEGABYTE && FractionMatters(bytes, UnitOf(bytes)) && Rounded(bytes).count % 1024 == 1
  }

  lemma StableIff(bytes: nat)
    requires bytes >= 1
    ensures Reparsed(Reparsed(bytes)) == Reparsed(bytes) <==> !DropsMore(bytes)
  {
    if bytes >= MEGABYTE {
      StableBig(bytes);
    } else {
      SmallStable(bytes);
    }
  }

  lemma SmallStable(bytes: nat)
    requires 1 <= bytes < MEGABYTE
    ensures Reparsed(Reparsed(bytes)) == Reparsed(bytes)
  {
    var r := Reparsed(bytes);
    if r == MEGABYTE {
      assert Rounded(r) == Amount(1, MB);
    } else {
      assert UnitOf(r) == KB;
    }
  }

  lemma DivModOfMultiple(k: nat, d: nat)
    requires d == KILOBYTE || d == MEGABYTE || d == GIGABYTE
    ensures k * d / d == k && k * d % d == 0
  {
    if d == KILOBYTE {
    } else if d == MEGABYTE {
    } else {
    }
  }

  /** Reformatting a result applies the same rule to its count, with nothing left over. */
  lemma ReparsedAgain(bytes: nat)
    requires bytes >= MEGABYTE
    ensures var d := Grain(bytes);
            var k := Kept(bytes / d, bytes % d, d);
            Reparsed(bytes) == k * d && Reparsed(bytes) >= MEGABYTE && Grain(Reparsed(bytes)) == d &&
            Reparsed(bytes) % d == 0 && Reparsed(Reparsed(bytes)) == Kept(k, 0, d) * d
  {
    ReparsedForm(bytes);
    var r := Reparsed(bytes);
    assert UnitOf(r) == UnitOf(bytes);
    ReparsedForm(r);
    var d := Grain(bytes);
    DivModOfMultiple(Kept(bytes / d, bytes % d, d), d);
  }

  lemma StableBig(bytes: nat)
    requires bytes >= MEGABYTE
    ensures Reparsed(Reparsed(bytes)) == Reparsed(bytes) <==> !DropsMore(bytes)
  {
    ReparsedAgain(bytes);
    InLowerUnits(bytes);
    hide FractionMatters;
    hide Reparsed;
    hide UnitOf;
    var d := Grain(bytes);
    var k := Kept(bytes / d, bytes % d, d);
    assert Kept(k, 0, d) == if k % 1024 == 1 then k - 1 else k;
    assert DropsMore(bytes) <==> k % 1024 == 1;
  }

  lemma StableAfterTwo(bytes: nat)
    requires bytes >= 1
    ensures Reparsed(Reparsed(Reparsed(bytes))) == Reparsed(Reparsed(bytes))
  {
    RoundedSize(bytes);
    StableIff(Reparsed(bytes));
    if bytes >= MEGABYTE {
      ReparsedAgain(bytes);
      StableMultiple(Reparsed(bytes));
    } else {
      SmallStable(bytes);
    }
    hide Reparsed;
    hide DropsMore;
  }

  /** A whole number of smaller units is reformatted once at most. */
  lemma StableMultiple(bytes: nat)
    requires bytes >= MEGABYTE && bytes % Grain(bytes) == 0
    ensures !DropsMore(bytes)
  {
    InLowerUnits(bytes);
    hide FractionMatters;
    hide UnitOf;
  }

  /** One application is not enough: 1 MB and 1600 bytes print as 1025kB, which prints as 1MB. */
  lemma OnceIsNotEnough()
    ensures BytesToPGFormat(MEGABYTE + 1600) == "1025kB" && BytesToPGFormat(Reparsed(MEGABYTE + 1600)) == "1MB"
  {
    assert Decimal(10) == "10" && Decimal(102) == "102";
    assert Rounded(MEGABYTE + 1600) == Amount(1025, KB) && Rounded(1025 * KILOBYTE) == Amount(1, MB);
  }
}
