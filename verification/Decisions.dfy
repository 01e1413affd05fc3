/**
  When a present setting is kept, shown, or makes the check fail (tuner.go, float_parser.go): the
  parser a group gets decides what "close enough" compares.
 */
module Decisions {
  import opened Text
  import opened TuneSettings
  import opened PgBytes
  import opened PgTune
  import opened Tuning
  import opened LineGrammar
  import opened SharedPreloadLibs
  import opened StaleIndex
  import opened Recommendations
  import opened Settling
  import opened Prompting
  import opened Amounts
  import PgTime

  // ---------------------------------------------------------------- when the check fails

  /** The numerals that are recommended: integers of 64 bits, and two fractions. */
  predicate Numeral(s: string) {
    (0 < |s| <= 20 && AllDigits(s)) || (1 < |s| <= 20 && s[0] == '-' && AllDigits(s[1..])) || s == "0.9" || s == "1.1"
  }

  predicate EndsInUnit(s: string) {
    |s| > 0 && s[|s| - 1] == 'B'
  }

  /** What is used of strconv.ParseFloat: those numerals are numbers, and text that ends in a unit, "off" and "lz4" are not. */
  ghost predicate ReadsNumbers(numeric: string -> Option<Float>) {
    (forall s :: Numeral(s) ==> numeric(s).Some?) && (forall s :: EndsInUnit(s) ==> numeric(s).None?) &&
    numeric("off").None? && numeric("lz4").None?
  }

  /** Numbers of 64 bits: what the program formats. */
  ghost predicate InWidth(r: Recommender) {
    (forall key :: BytesFor(r, key).Some? ==> BytesFor(r, key).value < UINT64_LIMIT) &&
    (r.Parallel? ==> r.cpuCount < INT64_LIMIT && r.maxBGWorkers < INT64_LIMIT) &&
    (r.Misc? ==> r.maxConns < UINT64_LIMIT)
  }

  /** The recommendations that the parser of their own group cannot read. */
  predicate Unreadable(r: Recommender, key: string)
    requires Guard(r, key)
  {
    (r.PromscaleMemory? && key in MEMORY_KEYS) ||
    (r.Misc? && ((key == JIT && Recommend(r, key) == "off") || (key == TOAST_COMPRESSION && Recommend(r, key) == "lz4")))
  }

  lemma TimeoutIsRead()
    ensures ParseTimeout("900").Some?
  {
    NineHundred();
    hide ParseTimeout;
  }

  lemma SwitchIsRead()
    ensures ParseBool("1").Some?
  {
    assert Lower("1") == "1";
  }

  lemma AmountEndsInUnit(bytes: nat)
    requires bytes >= 1
    ensures EndsInUnit(BytesToPGFormat(bytes))
  {
    hide Decimal;
    RoundedSize(bytes);
    hide Rounded;
  }

  /** Amounts are read back by a byte parser, and never as numbers. */
  lemma AmountReadable(r: Recommender, key: string, numeric: string -> Option<Float>)
    requires Guard(r, key) && ReadsNumbers(numeric) && BytesFor(r, key).Some? && BytesFor(r, key).value < UINT64_LIMIT
    ensures ParseFloat(GetFloatParser(r), numeric, key, Recommend(r, key)).None? <==> Unreadable(r, key)
  {
    hide BytesToPGFormat;
    hide PGFormatToBytes;
    hide EndsInUnit;
    hide Numeral;
    hide ParseTimeout;
    hide ParseBool;
    AmountEndsInUnit(BytesFor(r, key).value);
    PrintedIsParsed(BytesFor(r, key).value);
    hide ReadsNumbers;
    AmountKeys(r, key);
    hide BytesFor;
    assert numeric(Recommend(r, key)).None?;
  }

  lemma AmountKeys(r: Recommender, key: string)
    requires BytesFor(r, key).Some?
    ensures r.PromscaleMemory? ==> key in MEMORY_KEYS
    ensures r.Memory? || r.PromscaleMemory? || r.Wal? || r.PromscaleWal?
    ensures r.Wal? || r.PromscaleWal? ==> key != WAL_COMPRESSION && key != CHECKPOINT_TIMEOUT
  {
    hide EffectiveCacheBytes;
    hide MaintenanceBytes;
    hide WorkMemBytes;
    hide WalBuffersBytes;
    hide CalcMaxWALBytes;
    hide PromscaleCalcMaxWALBytes;
    assert WAL_COMPRESSION[1] == 'a' && WAL_COMPRESSION[4] == 'c' && CHECKPOINT_TIMEOUT[0] == 'c';
    assert WAL_BUFFERS[4] == 'b' && MIN_WAL[0] == 'm' && MAX_WAL[0] == 'm' && WAL_BUFFERS[0] == 'w' && WAL_COMPRESSION[0] == 'w';
  }

  lemma LiteralNumerals()
    ensures Numeral("900") && Numeral("1") && Numeral("0") && Numeral("0.9") && Numeral("1.1") && Numeral("100") && Numeral("10")
    ensures Numeral("200") && Numeral("256") && Numeral("128") && Numeral("512") && Numeral("1024")
  {
  }

  lemma MiscKinds(m: nat, conns: nat, version: string, key: string)
    requires conns < UINT64_LIMIT
    ensures var rec := RecommendMisc(m, conns, version, key);
            rec == NO_RECOMMENDATION || Numeral(rec) || (key == JIT && rec == "off") || (key == TOAST_COMPRESSION && rec == "lz4")
  {
    LiteralNumerals();
    CountIsNumeral(if conns != 0 then conns else GetMaxConns(m));
    hide Numeral;
    hide Decimal;
    hide STATS_TARGET;
    hide RANDOM_PAGE_COST;
    hide CHECKPOINT_TARGET;
    hide MAX_CONNECTIONS;
    hide MAX_LOCKS;
    hide AUTOVACUUM_MAX_WORKERS;
    hide AUTOVACUUM_NAPTIME;
    hide TOAST_COMPRESSION;
    hide JIT;
    hide EFFECTIVE_IO;
  }

  lemma MiscReadable(r: Recommender, key: string, numeric: string -> Option<Float>)
    requires r.Misc? && InWidth(r) && ReadsNumbers(numeric) && Recommend(r, key) != NO_RECOMMENDATION
    ensures ParseFloat(GetFloatParser(r), numeric, key, Recommend(r, key)).None? <==> Unreadable(r, key)
  {
    MiscKinds(r.totalMemory, r.maxConns, r.pgMajorVersion, key);
    hide RecommendMisc;
    hide Numeral;
    hide EndsInUnit;
    hide JIT;
    hide TOAST_COMPRESSION;
  }

  lemma ParallelReadable(r: Recommender, key: string, numeric: string -> Option<Float>)
    requires r.Parallel? && InWidth(r) && Guard(r, key) && ReadsNumbers(numeric) && Recommend(r, key) != NO_RECOMMENDATION
    ensures ParseFloat(GetFloatParser(r), numeric, key, Recommend(r, key)).Some?
  {
    hide Decimal;
    SignedIsNumeral(Int64(3 + r.maxBGWorkers + r.cpuCount));
    hide Signed;
    hide Int64;
    CountIsNumeral(r.cpuCount);
    CountIsNumeral((r.cpuCount + 1) / 2);
    CountIsNumeral(r.maxBGWorkers);
    hide Numeral;
    hide EndsInUnit;
    hide MAX_WORKER_PROCESSES;
    hide MAX_PARALLEL_WORKERS;
    hide MAX_PARALLEL_WORKERS_GATHER;
    hide MAX_BACKGROUND_WORKERS;
  }

  lemma PlainReadable(r: Recommender, key: string, numeric: string -> Option<Float>)
    requires InWidth(r) && Guard(r, key) && ReadsNumbers(numeric) && BytesFor(r, key).None? && Recommend(r, key) != NO_RECOMMENDATION
    ensures ParseFloat(GetFloatParser(r), numeric, key, Recommend(r, key)).None? <==> Unreadable(r, key)
  {
    hide Decimal;
    hide ParseTimeout;
    hide ParseBool;
    hide ParseBytes;
    hide EndsInUnit;
    hide RecommendMisc;
    hide BytesFor;
    match r
    case Misc(_, _, _) => MiscReadable(r, key, numeric);
    case Parallel(_, _) => ParallelReadable(r, key, numeric);
    case PromscaleMemory(_, _, _) => NotAmounts(r, key);
    case _ =>
      TimeoutIsRead();
      SwitchIsRead();
      SwitchNames();
      LiteralNumerals();
      hide Numeral;
      hide CHECKPOINT_TIMEOUT;
      hide WAL_COMPRESSION;
  }

  lemma {:induction false} DecimalLength(n: nat, k: nat)
    requires k >= 1 && n < PgTime.Power10(k)
    ensures |Decimal(n)| <= k
  {
    if n >= 10 {
      DecimalLength(n / 10, k - 1);
    }
  }

  lemma {:induction false} PowerOfSum(a: nat, b: nat)
    ensures PgTime.Power10(a + b) == PgTime.Power10(a) * PgTime.Power10(b)
    decreases a
  {
    if a > 0 {
      PowerOfSum(a - 1, b);
    }
  }

  lemma Tens()
    ensures PgTime.Power10(20) == 100_000_000_000_000_000_000 && PgTime.Power10(19) == 10_000_000_000_000_000_000
  {
    assert PgTime.Power10(5) == 100_000;
    PowerOfSum(5, 5);
    PowerOfSum(10, 10);
    assert PgTime.Power10(20) == 10 * PgTime.Power10(19);
  }

  lemma CountIsNumeral(n: nat)
    requires n < UINT64_LIMIT
    ensures Numeral(Decimal(n))
  {
    Tens();
    DecimalLength(n, 20);
    hide Decimal;
  }

  lemma SignedIsNumeral(n: int)
    requires -INT64_LIMIT <= n < INT64_LIMIT
    ensures Numeral(Signed(n))
  {
    if n < 0 {
      Tens();
      DecimalLength(-n, 19);
      assert Signed(n)[1..] == Decimal(-n);
    } else {
      CountIsNumeral(n);
    }
    hide Decimal;
  }

  lemma SwitchNames()
    ensures CHECKPOINT_TIMEOUT != WAL_COMPRESSION
  {
    assert WAL_COMPRESSION[0] == 'w' && CHECKPOINT_TIMEOUT[0] == 'c';
  }

  lemma NotAmounts(r: Recommender, key: string)
    requires r.PromscaleMemory? && BytesFor(r, key).None?
    ensures key !in MEMORY_KEYS
  {
    hide EffectiveCacheBytes;
    hide MaintenanceBytes;
    hide WorkMemBytes;
  }

  /**
    The check of a setting fails exactly when its line holds a number that is not the recommendation,
    and the recommendation is one of those its group's parser cannot read.
   */
  lemma FailsExactly(r: Recommender, key: string, tune: map<string, ParseResult>, numeric: string -> Option<Float>)
    requires Guard(r, key) && ReadsNumbers(numeric) && InWidth(r)
    ensures DecideFor(r, tune, numeric, key) == Fail <==> Clashes(r, key, tune, numeric)
  {
    hide Recommend;
    hide Unreadable;
    hide BytesFor;
    hide ReadsNumbers;
    var rec := Recommend(r, key);
    if rec != NO_RECOMMENDATION {
      if BytesFor(r, key).Some? {
        AmountReadable(r, key, numeric);
      } else {
        PlainReadable(r, key, numeric);
      }
      UnreadableIsNumeric(r, key);
    }
    hide ParseFloat;
    FailsIff(Lookup(tune, key), rec, GetFloatParser(r), numeric, key);
    hide Decide;
  }

  /** The line of `key` holds a number, and its recommendation cannot be read as one. */
  ghost predicate Clashes(r: Recommender, key: string, tune: map<string, ParseResult>, numeric: string -> Option<Float>)
    requires Guard(r, key)
  {
    Unreadable(r, key) && Recommend(r, key) != NO_RECOMMENDATION && key in tune &&
    (tune[key].commented || tune[key].value != Recommend(r, key)) && numeric(tune[key].value).Some?
  }

  /** The recommendations of a configuration of this width are formatted from numbers of 64 bits. */
  lemma GroupsInWidth(c: SystemConfig, p: Profile, linux: bool)
    requires Accepted(c)
    ensures forall g :: g in Groups(c, p, linux) ==> InWidth(g.recommender)
  {
    hide InWidth;
    hide GroupKeys;
    forall name ensures InWidth(GetRecommender(name, c, p)) {
      RecommenderInWidth(name, c, p);
    }
    hide GetRecommender;
  }

  lemma RecommenderInWidth(name: Label, c: SystemConfig, p: Profile)
    requires Accepted(c)
    ensures InWidth(GetRecommender(name, c, p))
  {
    var r := GetRecommender(name, c, p);
    forall key | BytesFor(r, key).Some? ensures BytesFor(r, key).value < UINT64_LIMIT {
      match r
      case Memory(m, cpus, conns) => SmallWorkMem(m, cpus, conns, UINT64_LIMIT);
      case PromscaleMemory(m, cpus, conns) => SmallWorkMem(m, cpus, conns, UINT64_LIMIT);
      case Wal(_, _) => WalMaxInWidth(r);
      case PromscaleWal(_, _) => WalMaxInWidth(r);
    }
  }

  lemma WalMaxInWidth(r: Recommender)
    requires r.Wal? || r.PromscaleWal?
    ensures WalMax(r) < UINT64_LIMIT
  {
    WalMaxIs(r);
    hide WalMax;
    RoundUpBounds(r.walDiskSize * 60 % UINT64_LIMIT / 100);
  }

  lemma NoneFailIff(groups: seq<SettingsGroup>, tune: map<string, ParseResult>, numeric: string -> Option<Float>)
    requires AllSafe(groups) && ReadsNumbers(numeric) && forall g :: g in groups ==> InWidth(g.recommender)
    ensures NoneFail(groups, tune, numeric) <==>
            forall i, k :: 0 <= i < |groups| && IsAvailable(groups[i].recommender) && k in groups[i].keys ==>
              !Clashes(groups[i].recommender, k, tune, numeric)
  {
    hide ReadsNumbers;
    hide Clashes;
    hide BytesFor;
    hide Guard;
    hide DecideFor;
    forall i, k | 0 <= i < |groups| && IsAvailable(groups[i].recommender) && k in groups[i].keys
      ensures DecideIn(groups[i], tune, numeric, k) == Fail <==> Clashes(groups[i].recommender, k, tune, numeric)
    {
      assert groups[i] in groups;
      ClashFails(groups[i].recommender, k, tune, numeric);
    }
    hide DecideIn;
  }

  lemma ClashFails(r: Recommender, key: string, tune: map<string, ParseResult>, numeric: string -> Option<Float>)
    requires Safe(r) && ReadsNumbers(numeric) && InWidth(r)
    ensures DecideFor(r, tune, numeric, key) == Fail <==> Clashes(r, key, tune, numeric)
  {
    hide DecideFor;
    hide ReadsNumbers;
    hide Recommend;
    hide Unreadable;
    hide BytesFor;
    FailsExactly(r, key, tune, numeric);
  }

  /** Given yeses enough, a run writes its lines exactly when no line of an available group's parameter clashes. */
  lemma RunWritesIff(lines: seq<string>, c: SystemConfig, p: Profile, env: Env, f: Flags, input: string)
    requires AllSafe(Groups(c, p, env.linux)) && Ready(f, input, MOST_QUESTIONS) && ReadsNumbers(env.numeric)
    requires Accepted(c)
    ensures var groups := Groups(c, p, env.linux);
            Run(lines, c, p, env, f, input).Written? <==>
            forall i, k :: 0 <= i < |groups| && IsAvailable(groups[i].recommender) && k in groups[i].keys ==>
              !Clashes(groups[i].recommender, k, TuneIndex(lines), env.numeric)
  {
    hide AllSafe;
    hide ReadsNumbers;
    hide InWidth;
    hide Groups;
    hide Ready;
    hide Run;
    hide TuneIndex;
    hide Clashes;
    GroupsInWidth(c, p, env.linux);
    ReadyRun(lines, c, p, env, f, input);
    NoneFailIff(Groups(c, p, env.linux), TuneIndex(lines), env.numeric);
    hide NoneFail;
  }

  lemma UnreadableIsNumeric(r: Recommender, key: string)
    requires Guard(r, key)
    ensures Unreadable(r, key) ==> GetFloatParser(r) == NumericFloatParser
  {
    hide Recommend;
  }

  /** A line of one setting, commented or not. */
  function SettingLine(lead: Lead, k: string, v: string): string {
    lead.Text() + TunableLine(k, v, "")
  }

  lemma SettingLineIsRead(lead: Lead, k: string, v: string)
    requires lead.Valid() && KeyLike(k) && GoodValue(v)
    ensures !IsSharedLine(SettingLine(lead, k, v))
    ensures ParseKey(SettingLine(lead, k, v), k) == Some(ParseResult(0, lead.Commented?, k, v, ""))
  {
    GoodIsPrintable(v);
    NothingIsNotShared();
    LeadRoundTrip(lead, k, v, "");
    hide ParseKey;
    hide IsSharedLine;
    var s := SettingLine(lead, k, v);
    NoQuotes(lead, k, v);
    SharedIff(s);
  }

  lemma NoQuotes(lead: Lead, k: string, v: string)
    requires lead.Valid() && KeyLike(k) && GoodValue(v)
    ensures '\'' !in SettingLine(lead, k, v)
  {
    assert '\'' !in lead.Text();
    assert '\'' !in k;
  }

  lemma OneLineIndex(lead: Lead, k: string, v: string)
    requires lead.Valid() && k in ALL_KEYS && GoodValue(v)
    ensures var tune := TuneIndex([SettingLine(lead, k, v)]); k in tune && tune[k] == ParseResult(0, lead.Commented?, k, v, "")
  {
    hide KeyLike;
    hide GoodValue;
    hide ParseKey;
    hide IsSharedLine;
    hide SettingLine;
    hide FindKey;
    NamesAreKeyLike();
    SettingLineIsRead(lead, k, v);
    var lines := [SettingLine(lead, k, v)];
    FindKeyAfterAppend([], lines[0], k);
    assert [] + [lines[0]] == lines;
    hide ALL_KEYS;
  }

  lemma FiveGroups(c: SystemConfig, p: Profile, linux: bool)
    ensures |Groups(c, p, linux)| == |TUNABLES|
  {
  }

  /** A file of one setting, commented or not, a number where the recommendation is none, stops the run. */
  lemma NumberStopsRun(lead: Lead, k: string, v: string, i: nat, c: SystemConfig, p: Profile, env: Env, f: Flags, input: string)
    requires AllSafe(Groups(c, p, env.linux)) && Ready(f, input, MOST_QUESTIONS) && ReadsNumbers(env.numeric) && Accepted(c)
    requires lead.Valid() && GoodValue(v) && env.numeric(v).Some?
    requires i < |TUNABLES| && k in ALL_KEYS && k in Groups(c, p, env.linux)[i].keys
    requires var r := Groups(c, p, env.linux)[i].recommender;
             IsAvailable(r) && Guard(r, k) && Unreadable(r, k) && Recommend(r, k) !in [NO_RECOMMENDATION, v]
    ensures Run([SettingLine(lead, k, v)], c, p, env, f, input) == Stopped(ParseProblem)
  {
    hide AllSafe;
    hide ReadsNumbers;
    hide Groups;
    hide Ready;
    hide Run;
    hide TuneIndex;
    hide Unreadable;
    hide Recommend;
    hide Guard;
    hide SettingLine;
    hide NoneFail;
    hide GoodValue;
    var lines := [SettingLine(lead, k, v)];
    OneLineIndex(lead, k, v);
    FiveGroups(c, p, env.linux);
    hide ALL_KEYS;
    ReadyRun(lines, c, p, env, f, input);
    RunWritesIff(lines, c, p, env, f, input);
    assert Clashes(Groups(c, p, env.linux)[i].recommender, k, TuneIndex(lines), env.numeric);
  }

  /** "jit = 1", and "#jit = 1" as well, stops the run on every PostgreSQL version for which "off" is recommended. */
  lemma NumericJitStopsRun(c: SystemConfig, p: Profile, env: Env, f: Flags, input: string)
    requires AllSafe(Groups(c, p, env.linux)) && Ready(f, input, MOST_QUESTIONS) && ReadsNumbers(env.numeric) && Accepted(c)
    requires c.pgMajorVersion !in ["9.6", "10", "11"]
    ensures Run(["jit = 1"], c, p, env, f, input) == Stopped(ParseProblem)
    ensures Run(["#jit = 1"], c, p, env, f, input) == Stopped(ParseProblem)
  {
    hide AllSafe;
    hide Groups;
    hide Ready;
    hide Run;
    hide JIT;
    hide ALL_KEYS;
    hide Guard;
    hide Unreadable;
    hide Recommend;
    hide GoodValue;
    hide SettingLine;
    JitFacts(c, p, env.linux);
    JitLines();
    PlainNumbers(env.numeric);
    hide ReadsNumbers;
    FiveGroups(c, p, env.linux);
    NumberStopsRun(Bare, JIT, "1", 4, c, p, env, f, input);
    NumberStopsRun(Commented("", "#", ""), JIT, "1", 4, c, p, env, f, input);
  }

  lemma JitLines()
    ensures SettingLine(Bare, JIT, "1") == "jit = 1" && SettingLine(Commented("", "#", ""), JIT, "1") == "#jit = 1"
    ensures Commented("", "#", "").Valid()
  {
  }

  lemma PlainNumbers(numeric: string -> Option<Float>)
    requires ReadsNumbers(numeric)
    ensures numeric("1").Some? && numeric("4096").Some? && GoodValue("1") && GoodValue("4096")
  {
    assert Numeral("1") && Numeral("4096");
  }

  lemma JitFacts(c: SystemConfig, p: Profile, linux: bool)
    requires c.pgMajorVersion !in ["9.6", "10", "11"]
    ensures JIT in ALL_KEYS && |Groups(c, p, linux)| == 5 && JIT in Groups(c, p, linux)[4].keys
    ensures var r := Groups(c, p, linux)[4].recommender;
            IsAvailable(r) && Guard(r, JIT) && Unreadable(r, JIT) && Recommend(r, JIT) !in [NO_RECOMMENDATION, "1"]
  {
    assert MISC_KEYS[8] == JIT && MISC_KEYS[..|MISC_KEYS| - 1][8] == JIT;
    assert |JIT| == 3 && |CHECKPOINT_TARGET| == 28 && |STATS_TARGET| == 25 && |AUTOVACUUM_MAX_WORKERS| == 22 && |AUTOVACUUM_NAPTIME| == 18;
    assert |RANDOM_PAGE_COST| == 16 && |EFFECTIVE_IO| == 24 && |TOAST_COMPRESSION| == 25;
    assert |"off"| == 3 && |"1"| == 1;
  }

  /** Under the Promscale profile a plain number of kilobytes stops the run. */
  lemma NumericAmountStopsRun(c: SystemConfig, env: Env, f: Flags, input: string)
    requires AllSafe(Groups(c, PromscaleProfile, env.linux)) && Ready(f, input, MOST_QUESTIONS) && ReadsNumbers(env.numeric) && Accepted(c)
    ensures Run(["work_mem = 4096"], c, PromscaleProfile, env, f, input) == Stopped(ParseProblem)
  {
    hide Groups;
    hide Ready;
    hide Run;
    hide WORK_MEM;
    hide ALL_KEYS;
    hide BytesFor;
    hide GoodValue;
    hide SettingLine;
    WorkMemFacts(c, env.linux);
    var r := Groups(c, PromscaleProfile, env.linux)[0].recommender;
    assert Groups(c, PromscaleProfile, env.linux)[0] in Groups(c, PromscaleProfile, env.linux);
    assert Guard(r, WORK_MEM);
    hide AllSafe;
    PlainNumbers(env.numeric);
    hide ReadsNumbers;
    AmountEndsInUnit(BytesFor(r, WORK_MEM).value);
    hide BytesToPGFormat;
    assert Recommend(r, WORK_MEM) !in [NO_RECOMMENDATION, "4096"];
    hide Guard;
    hide Recommend;
    NumberStopsRun(Bare, WORK_MEM, "4096", 0, c, PromscaleProfile, env, f, input);
  }

  lemma WorkMemFacts(c: SystemConfig, linux: bool)
    ensures SettingLine(Bare, WORK_MEM, "4096") == "work_mem = 4096"
    ensures WORK_MEM in ALL_KEYS && |Groups(c, PromscaleProfile, linux)| == 5 && WORK_MEM in Groups(c, PromscaleProfile, linux)[0].keys
    ensures var r := Groups(c, PromscaleProfile, linux)[0].recommender;
            r.PromscaleMemory? && IsAvailable(r) && BytesFor(r, WORK_MEM).Some? && WORK_MEM in MEMORY_KEYS
  {
    assert MEMORY_KEYS[3] == WORK_MEM;
  }

  // ---------------------------------------------------------------- checkpoint_timeout

  /** The WAL parser keeps the half-unit bound when it converts to milliseconds. */
  lemma TimeoutWithinHalfUnit(s: string)
    ensures ParseTimeout(s).Some? <==> PgTime.ReadTime(s).Some? && PgTime.InRange(PgTime.ReadTime(s).value.number)
    ensures match (ParseTimeout(s), PgTime.ReadTime(s), PgTime.PGFormatToTime(s, PgTime.Milliseconds, PgTime.Integer))
            case (Some(Finite(ms)), Some(w), Some((v, u))) =>
              var written := PgTime.Duration(w, PgTime.Milliseconds);
              && PgTime.Abs(PgTime.Span(ms, PgTime.Milliseconds) - written) <= PgTime.Nanoseconds(u) as real / 2.0
              && (w.number == w.number.Floor as real ==> PgTime.Span(ms, PgTime.Milliseconds) == written)
              && (w.unit == None || w.unit == Some(PgTime.Milliseconds) ==> ms == ms.Floor as real)
            case _ => ParseTimeout(s).None?
  {
    hide PgTime.ReadTime;
    hide PgTime.InRange;
    hide PgTime.PGFormatToTime;
    hide PgTime.Times;
    hide PgTime.Nanoseconds;
    hide PgTime.Abs;
    hide PgTime.Duration;
    PgTime.TimeWithinHalfUnit(s, PgTime.Milliseconds, PgTime.Integer);
    match PgTime.PGFormatToTime(s, PgTime.Milliseconds, PgTime.Integer)
    case None =>
    case Some((v, u)) =>
      UnitInMilliseconds(u);
      TimesOne(v);
      PgTime.Reassociate(v, PgTime.Nanoseconds(u) as real, PgTime.Nanoseconds(PgTime.Milliseconds) as real);
  }

  lemma TimesOne(v: real)
    ensures PgTime.Times(v, 1.0) == v
  {
  }

  /** A present, active checkpoint_timeout is kept when it is "900" or within 5% of 900 milliseconds. */
  lemma TimeoutKeptIff(r: ParseResult, numeric: string -> Option<Float>)
    ensures Decide(Some(r), "900", WALFloatParser, numeric, CHECKPOINT_TIMEOUT) == Keep <==>
            !r.commented &&
            (r.value == "900" ||
             (ParseTimeout(r.value).Some? && ParseTimeout(r.value).value.Finite? && 855.0 <= ParseTimeout(r.value).value.x <= 945.0))
  {
    NineHundred();
    hide ParseTimeout;
    assert CHECKPOINT_TIMEOUT != WAL_COMPRESSION;
    assert ParseFloat(WALFloatParser, numeric, CHECKPOINT_TIMEOUT, r.value) == ParseTimeout(r.value);
  }

  lemma NineHundredHasNoUnit()
    ensures PgTime.ReadTime("900") == Some(PgTime.Written(900.0, None))
  {
    assert NumberOf("900") == 900 by {
      DecimalRoundTrip(900);
      assert Decimal(900) == "900";
    }
    assert NumberOf("") == 0;
    hide NumberOf;
    assert PgBytes.DigitRun("900") == 3 by { PgBytes.DigitRunIs("900", 3); }
    hide PgBytes.DigitRun;
    assert "900"[3..] == "" && "900"[..3] == "900";
    assert PgTime.SkipSpaces("") == "";
    hide PgTime.SkipSpaces;
  }

  lemma NineHundred()
    ensures ParseTimeout("900") == Some(Finite(900.0))
  {
    NineHundredHasNoUnit();
    hide PgTime.ReadTime;
    PgTime.LimitIsLarge();
    assert PgTime.InRange(900.0);
    hide PgTime.InRange;
    assert PgTime.Round(900.0) == 900.0;
  }

  /** A whole number of any unit, if it is a float64 at all, is read as that many milliseconds. */
  lemma WholeTimeout(n: nat, u: PgTime.TimeUnit)
    ensures ParseTimeout(Decimal(n) + PgTime.UnitName(u)) ==
            if PgTime.InRange(n as real) then Some(Finite(PgTime.Times(n as real, PgTime.TimeConversion(u, PgTime.Milliseconds))))
            else None
  {
    hide PgTime.InRange;
    hide Decimal;
    hide PgTime.ReadTime;
    hide PgTime.Times;
    hide PgTime.TimeConversion;
    hide PgTime.Lowered;
    assert "" + PgTime.UnitName(u) == PgTime.UnitName(u);
    PgTime.IntegralTimeIsRead(n, "", u);
    hide PgTime.UnitName;
    PgTime.RoundError(n as real);
    hide PgTime.Round;
    assert (n as real).Floor as real == n as real;
  }

  /** 900 seconds, in nanoseconds */
  const RECOMMENDED_TIMEOUT := 900_000_000_000.0

  /** How many of its units a value of the recommended duration counts. */
  function CountOf(unit: Option<PgTime.TimeUnit>): real {
    match unit
    case None => 900.0
    case Some(Microseconds) => 900_000_000.0
    case Some(Milliseconds) => 900_000.0
    case Some(Seconds) => 900.0
    case Some(Minutes) => 15.0
    case Some(Hours) => 0.25
    case Some(Days) => 1.0 / 96.0
  }

  lemma NumberOfTimeout(w: PgTime.Written)
    requires PgTime.Duration(w, PgTime.Seconds) == RECOMMENDED_TIMEOUT
    ensures w.number == CountOf(w.unit) && PgTime.InRange(w.number)
  {
    OneNumber(w.number, CountOf(w.unit), PgTime.Nanoseconds(if w.unit.Some? then w.unit.value else PgTime.Seconds) as real);
  }

  lemma OneNumber(x: real, y: real, n: real)
    requires n > 0.0 && PgTime.Times(x, n) == PgTime.Times(y, n)
    ensures x == y
  {
    assert (x - y) * n == 0.0;
  }

  /** What PGFormatToTime makes of that count. */
  function ReadCount(unit: Option<PgTime.TimeUnit>): (real, PgTime.TimeUnit) {
    match unit
    case None => (PgTime.Round(CountOf(unit)), PgTime.Milliseconds)
    case Some(u) => if u == PgTime.Milliseconds then (PgTime.Round(CountOf(unit)), u) else PgTime.Convert(CountOf(unit), u)
  }

  /** Parts of an hour become minutes, parts of a day become hours, and what is whole stays. */
  lemma CountsRead(unit: Option<PgTime.TimeUnit>)
    ensures ReadCount(unit) == match unit
                               case None => (900.0, PgTime.Milliseconds)
                               case Some(Hours) => (15.0, PgTime.Minutes)
                               case Some(Days) => (0.0, PgTime.Hours)
                               case Some(u) => (CountOf(unit), u)
  {
    match unit
    case Some(Hours) =>
      assert 0.25.Floor == 0;
      QuarterHour();
    case Some(Days) =>
      assert (1.0 / 96.0).Floor == 0;
      QuarterHour();
    case _ =>
  }

  lemma QuarterHour()
    ensures PgTime.Lowered(0.25, PgTime.Hours) == 15.0 && PgTime.Lowered(1.0 / 96.0, PgTime.Days) == 0.25
    ensures PgTime.Round(15.0) == 15.0 && PgTime.Round(0.25) == 0.0
  {
    assert 0.25 * (3_600_000_000_000.0 / 60_000_000_000.0) == 15.0;
    assert 1.0 / 96.0 * (86_400_000_000_000.0 / 3_600_000_000_000.0) == 0.25;
  }

  lemma UnitInMilliseconds(u: PgTime.TimeUnit)
    ensures PgTime.TimeConversion(u, PgTime.Milliseconds) ==
            match u
            case Microseconds => 0.001
            case Milliseconds => 1.0
            case Seconds => 1000.0
            case Minutes => 60_000.0
            case Hours => 3_600_000.0
            case Days => 86_400_000.0
  {
  }

  /** 900 milliseconds without a unit; otherwise 900 seconds, or nothing for parts of a day. */
  lemma TimeoutOfCount(unit: Option<PgTime.TimeUnit>)
    ensures PgTime.Times(ReadCount(unit).0, PgTime.TimeConversion(ReadCount(unit).1, PgTime.Milliseconds)) ==
            match unit
            case None => 900.0
            case Some(Days) => 0.0
            case _ => 900_000.0
  {
    CountsRead(unit);
    UnitInMilliseconds(ReadCount(unit).1);
    hide ReadCount;
    hide PgTime.TimeConversion;
  }

  /** Of the values that mean the recommended 900 seconds, the check keeps exactly those without a unit. */
  lemma RecommendedTimeoutKeptIff(r: ParseResult, w: PgTime.Written, numeric: string -> Option<Float>)
    requires !r.commented && PgTime.ReadTime(r.value) == Some(w) && PgTime.Duration(w, PgTime.Seconds) == RECOMMENDED_TIMEOUT
    ensures Decide(Some(r), "900", WALFloatParser, numeric, CHECKPOINT_TIMEOUT) == Keep <==> w.unit.None?
  {
    hide Decide;
    hide CHECKPOINT_TIMEOUT;
    hide PgTime.Duration;
    hide PgTime.ReadTime;
    hide PgTime.InRange;
    hide PgTime.Round;
    hide PgTime.Convert;
    hide PgTime.Times;
    hide PgTime.TimeConversion;
    NumberOfTimeout(w);
    TimeoutOfCount(w.unit);
    assert ReadCount(w.unit) == PgTime.PGFormatToTime(r.value, PgTime.Milliseconds, PgTime.Integer).value;
    hide ReadCount;
    hide CountOf;
    NineHundredHasNoUnit();
    TimeoutKeptIff(r, numeric);
  }

  lemma InMilliseconds()
    ensures PgTime.Times(15.0, PgTime.TimeConversion(PgTime.Minutes, PgTime.Milliseconds)) == 900000.0
    ensures PgTime.Times(900.0, PgTime.TimeConversion(PgTime.Milliseconds, PgTime.Milliseconds)) == 900.0
  {
  }

  lemma PlainNineHundred()
    ensures Decimal(15) + "min" != "900"
  {
    assert |Decimal(15) + "min"| >= 4;
  }

  /**
    The recommendation "900" carries no unit, PostgreSQL takes it for seconds, and the check takes it
    for milliseconds: the same duration written in minutes is shown, and 900 milliseconds are kept.
   */
  lemma SameTimeoutIsShown(r: ParseResult, numeric: string -> Option<Float>)
    requires !r.commented
    ensures r.value == Decimal(15) + "min" ==> Decide(Some(r), "900", WALFloatParser, numeric, CHECKPOINT_TIMEOUT) != Keep
    ensures r.value == Decimal(900) + "ms" ==> Decide(Some(r), "900", WALFloatParser, numeric, CHECKPOINT_TIMEOUT) == Keep
  {
    assert PgTime.UnitName(PgTime.Minutes) == "min" && PgTime.UnitName(PgTime.Milliseconds) == "ms";
    hide PgTime.UnitName;
    hide Decimal;
    hide Decide;
    hide ParseTimeout;
    hide CHECKPOINT_TIMEOUT;
    hide PgTime.Times;
    hide PgTime.TimeConversion;
    PgTime.LimitIsLarge();
    assert PgTime.InRange(15.0) && PgTime.InRange(900.0);
    hide PgTime.InRange;
    PlainNineHundred();
    InMilliseconds();
    WholeTimeout(15, PgTime.Minutes);
    WholeTimeout(900, PgTime.Milliseconds);
    TimeoutKeptIff(r, numeric);
  }

  // ---------------------------------------------------------------- wal_compression

  /** A switch without case and without quotes around it. */
  function Spelled(value: string): string {
    var isQuote := (c: char) => c == '"' || c == '\'';
    TrimRight(TrimLeft(Lower(value), isQuote), isQuote)
  }

  /** A present, active wal_compression is kept exactly when it is on in any of the ways to say so. */
  lemma CompressionKeptIff(r: ParseResult, numeric: string -> Option<Float>)
    ensures Decide(Some(r), "1", WALFloatParser, numeric, WAL_COMPRESSION) == Keep <==>
            !r.commented && (r.value == "1" || Spelled(r.value) in ["on", "true", "yes", "1"])
    ensures Decide(Some(r), "1", WALFloatParser, numeric, WAL_COMPRESSION) != Fail
  {
    SpelledSwitch(r.value);
    SpelledSwitch("1");
    assert Spelled("1") == "1" by { assert Lower("1") == "1"; }
    hide Spelled;
    hide ParseBool;
    hide WAL_COMPRESSION;
  }

  lemma SpelledSwitch(value: string)
    ensures Spelled(value) in ["on", "true", "yes", "1"] <==> ParseBool(value) == Some(Finite(1.0))
    ensures ParseBool(value).Some? && ParseBool(value) != Some(Finite(1.0)) ==> ParseBool(value) == Some(Finite(0.0))
  {
    hide TrimLeft;
    hide TrimRight;
    hide Lower;
  }
}
