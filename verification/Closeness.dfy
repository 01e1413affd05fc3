/** What "close enough" comes to, for amounts, numbers and switches, and on the lines of a finished run (tuner.go, utils.go). */
module Closeness {
  import opened Text
  import opened TuneSettings
  import opened LineGrammar
  import opened PgBytes
  import opened PgTune
  import opened Tuning
  import opened StaleIndex
  import opened Acceptance
  import opened Settling
  import opened Finishing
  import opened Runs
  import opened Theorems
  import opened Decisions
  import opened Amounts
  import PgTime

  /** `value` is within a twentieth of `target`. */
  predicate Twentieth(value: int, target: int) {
    19 * target <= 20 * value <= 21 * target
  }

  lemma CloseAmounts(value: nat, target: nat)
    requires target >= 1
    ensures CloseEnough(Finite(value as real), Finite(target as real)) <==> Twentieth(value, target)
  {
  }

  /** The parser of a group that recommends amounts reads them as bytes. */
  lemma AmountsReadAsBytes(r: Recommender, key: string, numeric: string -> Option<Float>, s: string)
    requires !r.PromscaleMemory? && BytesFor(r, key).Some?
    ensures ParseFloat(GetFloatParser(r), numeric, key, s) ==
            match PGFormatToBytes(s)
            case None => None
            case Some(n) => Some(Finite(n as real))
  {
    hide PGFormatToBytes;
    AmountKeys(r, key);
    hide BytesFor;
    hide ParseTimeout;
    hide ParseBool;
    hide WAL_COMPRESSION;
    hide CHECKPOINT_TIMEOUT;
  }

  /** An amount is in effect exactly when it is active and reads as a size within 5% of the one printed. */
  lemma AmountInEffectIff(found: ParseResult, r: Recommender, key: string, numeric: string -> Option<Float>)
    requires Guard(r, key) && !r.PromscaleMemory? && BytesFor(r, key).Some? && BytesFor(r, key).value < EXACT_LIMIT
    ensures InEffect(found, Recommend(r, key), GetFloatParser(r), numeric, key) <==>
            !found.commented && PGFormatToBytes(found.value).Some? &&
            Twentieth(PGFormatToBytes(found.value).value, Reparsed(BytesFor(r, key).value))
  {
    var bytes := BytesFor(r, key).value;
    AmountsReadAsBytes(r, key, numeric, found.value);
    AmountsReadAsBytes(r, key, numeric, Recommend(r, key));
    ReadAgain(r, key);
    RoundedSize(bytes);
    hide BytesFor;
    hide Recommend;
    hide Reparsed;
    hide PGFormatToBytes;
    hide ParseFloat;
    if PGFormatToBytes(found.value).Some? {
      CloseAmounts(PGFormatToBytes(found.value).value, Reparsed(bytes));
    }
    hide CloseEnough;
  }

  /** The check of a present amount, as the program reads it. */
  lemma AmountDecision(r: Recommender, key: string, tune: map<string, ParseResult>, numeric: string -> Option<Float>)
    requires Guard(r, key) && !r.PromscaleMemory? && BytesFor(r, key).Some? && BytesFor(r, key).value < EXACT_LIMIT && key in tune
    ensures DecideFor(r, tune, numeric, key) == Keep <==>
            !tune[key].commented && PGFormatToBytes(tune[key].value).Some? &&
            Twentieth(PGFormatToBytes(tune[key].value).value, Reparsed(BytesFor(r, key).value))
  {
    hide Guard;
    hide Recommend;
    hide BytesFor;
    hide Reparsed;
    hide Twentieth;
    hide PGFormatToBytes;
    hide InEffect;
    hide Decide;
    AmountIsRecommended(r, key);
    AmountInEffectIff(tune[key], r, key, numeric);
    KeptIff(Lookup(tune, key), Recommend(r, key), GetFloatParser(r), numeric, key);
  }

  lemma SmallProduct(a: nat, b: nat, limit: nat)
    requires a * b < limit
    ensures a * b % limit == a * b
  {
  }

  /**
    The check of a present amount, in terms of what is written on its line: kept exactly when it is
    active and the digits times the unit are within 5% of what the recommendation reads as.
   */
  lemma AmountKeptIff(r: Recommender, key: string, tune: map<string, ParseResult>, numeric: string -> Option<Float>,
                      q1: string, n: string, u: Option<Unit>, q2: string)
    requires Guard(r, key) && !r.PromscaleMemory? && BytesFor(r, key).Some? && BytesFor(r, key).value < EXACT_LIMIT
    requires key in tune && BytesText(tune[key].value, q1, n, u, q2)
    requires NumberOf(n) < INT64_LIMIT && NumberOf(n) * SizeOf(u) < UINT64_LIMIT
    ensures DecideFor(r, tune, numeric, key) == Keep <==>
            !tune[key].commented && Twentieth(NumberOf(n) * SizeOf(u), Reparsed(BytesFor(r, key).value))
  {
    hide Guard;
    hide DecideFor;
    hide BytesFor;
    hide Reparsed;
    hide Twentieth;
    hide PGFormatToBytes;
    hide NumberOf;
    hide SizeOf;
    SmallProduct(NumberOf(n), SizeOf(u), UINT64_LIMIT);
    BytesAreRead(tune[key].value, q1, n, u, q2);
    hide BytesText;
    AmountDecision(r, key, tune, numeric);
  }

  lemma AmountIsRecommended(r: Recommender, key: string)
    requires Guard(r, key) && BytesFor(r, key).Some?
    ensures Recommend(r, key) != NO_RECOMMENDATION
  {
    AmountEndsInUnit(BytesFor(r, key).value);
    hide BytesToPGFormat;
  }

  /** An index of one active line that gives an amount. */
  function AmountLine(key: string, n: nat, u: Unit): map<string, ParseResult> {
    map[key := ParseResult(0, false, key, Decimal(n) + u.Suffix(), "")]
  }

  lemma PlainAmountKeptIff(r: Recommender, key: string, numeric: string -> Option<Float>, n: nat, u: Unit)
    requires Guard(r, key) && !r.PromscaleMemory? && BytesFor(r, key).Some? && BytesFor(r, key).value < EXACT_LIMIT
    requires u != B && n < INT64_LIMIT && n * u.Size() < UINT64_LIMIT
    ensures DecideFor(r, AmountLine(key, n, u), numeric, key) == Keep <==> Twentieth(n * u.Size(), Reparsed(BytesFor(r, key).value))
  {
    hide Guard;
    hide DecideFor;
    hide BytesFor;
    hide Reparsed;
    hide Twentieth;
    hide NumberOf;
    hide Decimal;
    PlainAmount(n, u);
    hide BytesText;
    AmountKeptIff(r, key, AmountLine(key, n, u), numeric, "", Decimal(n), Some(u), "");
  }

  /** With 8 GB of memory, 128kB of shared buffers are not kept, and 2000MB are. */
  lemma SharedBuffersExamples(r: Recommender, numeric: string -> Option<Float>)
    requires r.Memory? && r.totalMemory == 8 * GIGABYTE
    ensures Guard(r, SHARED_BUFFERS)
    ensures DecideFor(r, AmountLine(SHARED_BUFFERS, 128, KB), numeric, SHARED_BUFFERS) != Keep
    ensures DecideFor(r, AmountLine(SHARED_BUFFERS, 2000, MB), numeric, SHARED_BUFFERS) == Keep
  {
    hide BytesFor;
    hide Reparsed;
    hide Guard;
    hide DecideFor;
    hide SHARED_BUFFERS;
    hide AmountLine;
    QuarterOfEight(r);
    PlainAmountKeptIff(r, SHARED_BUFFERS, numeric, 128, KB);
    PlainAmountKeptIff(r, SHARED_BUFFERS, numeric, 2000, MB);
  }

  lemma QuarterOfEight(r: Recommender)
    requires r.Memory? && r.totalMemory == 8 * GIGABYTE
    ensures Guard(r, SHARED_BUFFERS) && BytesFor(r, SHARED_BUFFERS) == Some(2 * GIGABYTE) && Reparsed(2 * GIGABYTE) == 2 * GIGABYTE
  {
    MemoryAmounts(r);
    hide BytesFor;
    hide WorkMemBytes;
  }

  lemma PlainAmount(n: nat, u: Unit)
    requires u != B
    ensures BytesText(Decimal(n) + u.Suffix(), "", Decimal(n), Some(u), "") && NumberOf(Decimal(n)) == n
  {
    hide Decimal;
    DecimalRoundTrip(n);
    var t := Decimal(n) + u.Suffix();
    assert u.Suffix() + "" == u.Suffix() && "" + t == t;
  }

  // ---------------------------------------------------------------- numbers

  /** A present number against a recommended number; nothing but the text itself is close to zero. */
  lemma NumberKeptIff(found: ParseResult, rec: string, numeric: string -> Option<Float>, key: string, x: real, t: real)
    requires rec != NO_RECOMMENDATION && numeric(found.value) == Some(Finite(x)) && numeric(rec) == Some(Finite(t))
    ensures Decide(Some(found), rec, NumericFloatParser, numeric, key) == Keep <==>
            !found.commented &&
            (found.value == rec || (t > 0.0 && 19.0 * t <= 20.0 * x <= 21.0 * t) || (t < 0.0 && 21.0 * t <= 20.0 * x <= 19.0 * t))
  {
  }

  /** A value that is no number, or not a finite one, is shown unless it is the recommendation. */
  lemma NoNumberIsShown(found: ParseResult, rec: string, numeric: string -> Option<Float>, key: string)
    requires rec != NO_RECOMMENDATION && !found.commented && found.value != rec
    requires numeric(found.value) in {None, Some(NonFinite)} && numeric(rec).Some?
    ensures Decide(Some(found), rec, NumericFloatParser, numeric, key) == Show
  {
  }

  // ---------------------------------------------------------------- after a run

  /** After a run, every recommended amount of a group that passed is on an active line that reads as a size within 5% of it. */
  lemma EffectiveAmount(lines: seq<string>, c: SystemConfig, p: Profile, env: Env, f: Flags, input: string, out: seq<string>,
                        g: SettingsGroup, k: string)
    requires AllSafe(Groups(c, p, env.linux)) && Selected(lines) && GoodClock(env.clock)
    requires Run(lines, c, p, env, f, input) == Written(out)
    requires g in Groups(c, p, env.linux) && IsAvailable(g.recommender) && k in g.keys && !g.recommender.PromscaleMemory?
    requires BytesFor(g.recommender, k).Some? && BytesFor(g.recommender, k).value < EXACT_LIMIT
    requires Passed(g, TuneIndex(lines), env.numeric, Chosen(lines, c, p, env, f, input))
    ensures FindKey(out, k).Some? && !FindKey(out, k).value.commented && PGFormatToBytes(FindKey(out, k).value.value).Some? &&
            Twentieth(PGFormatToBytes(FindKey(out, k).value.value).value, Reparsed(BytesFor(g.recommender, k).value))
  {
    hide Groups;
    hide Run;
    hide GoodClock;
    hide Selected;
    hide FindKey;
    hide TuneIndex;
    hide Passed;
    hide Chosen;
    hide BytesFor;
    hide Reparsed;
    hide PGFormatToBytes;
    hide Twentieth;
    hide InEffect;
    hide Recommend;
    assert Guard(g.recommender, k);
    AmountIsRecommended(g.recommender, k);
    EffectiveValue(lines, c, p, env, f, input, out, g, k);
    AmountInEffectIff(FindKey(out, k).value, g.recommender, k, env.numeric);
  }
}
