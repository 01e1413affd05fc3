/** What every recommendation and every parameter name has in common. */
module Recommendations {
  import opened Text
  import opened PgBytes
  import opened TuneSettings
  import opened LineGrammar
  import opened PgTune
  import opened Tuning

  // ---------------------------------------------------------------- values

  lemma DigitsAreGood(d: string, suffix: string)
    requires AllDigits(d) && |d| >= 1
    requires forall i :: 0 <= i < |suffix| ==> !IsSpace(suffix[i]) && suffix[i] != '#' && suffix[i] != '\''
    ensures GoodValue(d + suffix)
  {
    var v := d + suffix;
    forall i | 0 <= i < |v| ensures !IsSpace(v[i]) && v[i] != '#' && v[i] != '\'' {
      if i < |d| {
        assert IsDigit(d[i]) && v[i] == d[i];
      } else {
        assert v[i] == suffix[i - |d|];
      }
    }
  }

  lemma AmountIsGood(bytes: nat)
    requires bytes >= 1
    ensures GoodValue(BytesToPGFormat(bytes))
  {
    hide Rounded;
    hide GoodValue;
    hide Decimal;
    var a := Rounded(bytes);
    DigitsAreGood(Decimal(a.count), a.units.Suffix());
  }

  lemma NumberIsGood(n: nat)
    ensures GoodValue(Decimal(n))
  {
    hide GoodValue;
    hide Decimal;
    DigitsAreGood(Decimal(n), "");
    assert Decimal(n) + "" == Decimal(n);
  }

  lemma SignedIsGood(n: int)
    ensures GoodValue(Signed(n))
  {
    NumberIsGood(if n < 0 then -n else n);
    if n < 0 {
      var d, v := Decimal(-n), Signed(n);
      assert forall i :: 0 < i < |v| ==> v[i] == d[i - 1];
      assert '\'' !in v by {
        forall i | 0 <= i < |v| ensures v[i] != '\'' {
          assert i > 0 ==> v[i] == d[i - 1] && d[i - 1] in d;
        }
      }
    }
  }

  /** Every recommendation is empty or can be printed unquoted and read back. */
  lemma RecommendationIsGood(r: Recommender, key: string)
    requires Guard(r, key)
    ensures Recommend(r, key) == NO_RECOMMENDATION || GoodValue(Recommend(r, key))
  {
    hide BytesFor;
    hide BytesToPGFormat;
    hide Decimal;
    if BytesFor(r, key).Some? {
      AmountIsGood(BytesFor(r, key).value);
    } else {
      match r
      case Parallel(cpus, workers) =>
        hide GoodValue;
        SignedIsGood(Int64(3 + workers + cpus));
        hide Signed;
        NumberIsGood(cpus);
        NumberIsGood((cpus + 1) / 2);
        NumberIsGood(workers);
      case Misc(m, conns, version) =>
        MiscIsGood(m, conns, version, key);
      case _ =>
    }
  }

  lemma MiscIsGood(m: nat, conns: nat, version: string, key: string)
    ensures RecommendMisc(m, conns, version, key) == NO_RECOMMENDATION || GoodValue(RecommendMisc(m, conns, version, key))
  {
    hide Decimal;
    NumberIsGood(if conns != 0 then conns else GetMaxConns(m));
  }

  // ---------------------------------------------------------------- names

  predicate NameChar(c: char) {
    'a' <= c <= 'z' || c == '_' || c == '.'
  }

  lemma ByCharacters(name: string)
    requires name != "" && forall c :: c in name ==> NameChar(c)
    ensures KeyLike(name)
  {
    assert forall i :: 0 <= i < |name| ==> name[i] in name;
  }

  lemma BufferNames()
    ensures KeyLike(SHARED_BUFFERS) && KeyLike(WORK_MEM)
  {
    ByCharacters(SHARED_BUFFERS);
    ByCharacters(WORK_MEM);
  }

  lemma CacheNames()
    ensures KeyLike(EFFECTIVE_CACHE)
  {
    ByCharacters(EFFECTIVE_CACHE);
  }

  lemma MaintenanceNames()
    ensures KeyLike(MAINTENANCE_WORK_MEM)
  {
    ByCharacters(MAINTENANCE_WORK_MEM);
  }

  lemma BackgroundNames()
    ensures KeyLike(MAX_BACKGROUND_WORKERS)
  {
    ByCharacters(MAX_BACKGROUND_WORKERS);
  }

  lemma WorkerNames()
    ensures KeyLike(MAX_WORKER_PROCESSES) && KeyLike(MAX_PARALLEL_WORKERS)
  {
    ByCharacters(MAX_WORKER_PROCESSES);
    ByCharacters(MAX_PARALLEL_WORKERS);
  }

  lemma GatherNames()
    ensures KeyLike(MAX_PARALLEL_WORKERS_GATHER)
  {
    ByCharacters(MAX_PARALLEL_WORKERS_GATHER);
  }

  lemma WalNames()
    ensures KeyLike(WAL_BUFFERS) && KeyLike(MIN_WAL) && KeyLike(MAX_WAL)
  {
    ByCharacters(WAL_BUFFERS);
    ByCharacters(MIN_WAL);
    ByCharacters(MAX_WAL);
  }

  lemma TimeoutNames()
    ensures KeyLike(CHECKPOINT_TIMEOUT) && KeyLike(WAL_COMPRESSION)
  {
    ByCharacters(CHECKPOINT_TIMEOUT);
    ByCharacters(WAL_COMPRESSION);
  }

  lemma PlannerNames()
    ensures KeyLike(STATS_TARGET) && KeyLike(JIT)
  {
    ByCharacters(STATS_TARGET);
    ByCharacters(JIT);
  }

  lemma CostNames()
    ensures KeyLike(RANDOM_PAGE_COST)
  {
    ByCharacters(RANDOM_PAGE_COST);
  }

  lemma TargetNames()
    ensures KeyLike(CHECKPOINT_TARGET)
  {
    ByCharacters(CHECKPOINT_TARGET);
  }

  lemma ConnectionNames()
    ensures KeyLike(MAX_CONNECTIONS)
  {
    ByCharacters(MAX_CONNECTIONS);
  }

  lemma LockNames()
    ensures KeyLike(MAX_LOCKS)
  {
    ByCharacters(MAX_LOCKS);
  }

  lemma EffectiveNames()
    ensures KeyLike(EFFECTIVE_IO)
  {
    ByCharacters(EFFECTIVE_IO);
  }

  lemma VacuumNames()
    ensures KeyLike(AUTOVACUUM_MAX_WORKERS) && KeyLike(AUTOVACUUM_NAPTIME)
  {
    ByCharacters(AUTOVACUUM_MAX_WORKERS);
    ByCharacters(AUTOVACUUM_NAPTIME);
  }

  lemma ToastNames()
    ensures KeyLike(TOAST_COMPRESSION)
  {
    ByCharacters(TOAST_COMPRESSION);
  }

  lemma WriterNames()
    ensures KeyLike(BGWRITER_FLUSH_AFTER)
  {
    ByCharacters(BGWRITER_FLUSH_AFTER);
  }

  lemma StampNames()
    ensures KeyLike(LAST_TUNED)
  {
    ByCharacters(LAST_TUNED);
  }

  lemma VersionNames()
    ensures KeyLike(LAST_TUNED_VERSION)
  {
    ByCharacters(LAST_TUNED_VERSION);
  }

  /** No name contains a character that delimits names. */
  lemma NamesAreKeyLike()
    ensures forall k :: k in ALL_KEYS ==> KeyLike(k)
    ensures forall p :: p in OUR_PARAMS ==> KeyLike(p)
  {
    hide KeyLike;
    BufferNames();
    CacheNames();
    MaintenanceNames();
    BackgroundNames();
    WorkerNames();
    GatherNames();
    WalNames();
    TimeoutNames();
    PlannerNames();
    CostNames();
    TargetNames();
    ConnectionNames();
    LockNames();
    EffectiveNames();
    VacuumNames();
    ToastNames();
    WriterNames();
    StampNames();
    VersionNames();
  }

  const KEY_TABLE := MEMORY_KEYS + PARALLEL_KEYS + WAL_KEYS + BGWRITER_KEYS + MISC_KEYS

  /** Lengths and a few characters tell all the names apart. */
  function KeyIndex(k: string): int {
    match |k|
    case 14 => 0
    case 20 => if k[0] == 'e' then 1 else if k[2] == 'i' then 2 else if k[0] == 'b' then 13 else if k[18] == 'e' then 5 else 7
    case 8 => 3
    case 34 => 4
    case 31 => 6
    case 11 => 8
    case 12 => if k[1] == 'i' then 9 else 10
    case 18 => if k[0] == 'c' then 11 else 20
    case 15 => if k[0] == 'w' then 12 else 17
    case 25 => if k[0] == 'm' then 18 else if k[23] == 'e' then 14 else 21
    case 16 => 15
    case 28 => 16
    case 22 => if k[0] == 'a' then 19 else -1
    case 3 => 22
    case 24 => 23
    case _ => -1
  }

  lemma TableIndex()
    ensures |KEY_TABLE| == 24 && forall i :: 0 <= i < 24 ==> KeyIndex(KEY_TABLE[i]) == i
  {
  }

  lemma NamesDiffer(i: nat, j: nat)
    requires i < j < |KEY_TABLE|
    ensures KEY_TABLE[i] != KEY_TABLE[j]
  {
    TableIndex();
    hide KeyIndex;
    assert KeyIndex(KEY_TABLE[i]) == i && KeyIndex(KEY_TABLE[j]) == j;
  }

  /** Our own parameters are not tuned ones. */
  lemma OwnNamesDiffer()
    ensures LAST_TUNED != LAST_TUNED_VERSION && LAST_TUNED !in ALL_KEYS && LAST_TUNED_VERSION !in ALL_KEYS
  {
    forall k | k in ALL_KEYS ensures KeyIndex(k) >= 0 {
      assert k in KEY_TABLE;
      TableIndex();
    }
    assert KeyIndex(LAST_TUNED) == -1 && KeyIndex(LAST_TUNED_VERSION) == -1;
  }

  /** The parameters of each group, in the order they are shown, and our own. */
  lemma Spelling()
    ensures MEMORY_KEYS == ["shared_buffers", "effective_cache_size", "maintenance_work_mem", "work_mem"]
    ensures PARALLEL_KEYS == ["timescaledb.max_background_workers", "max_worker_processes", "max_parallel_workers_per_gather",
                              "max_parallel_workers"]
    ensures WAL_KEYS == ["wal_buffers", "min_wal_size", "max_wal_size", "checkpoint_timeout", "wal_compression"]
    ensures BGWRITER_KEYS == ["bgwriter_flush_after"]
    ensures MISC_KEYS == ["default_statistics_target", "random_page_cost", "checkpoint_completion_target", "max_connections",
                          "max_locks_per_transaction", "autovacuum_max_workers", "autovacuum_naptime",
                          "default_toast_compression", "jit", "effective_io_concurrency"]
    ensures OUR_PARAMS == ["timescaledb.last_tuned", "timescaledb.last_tuned_version"] && VERSION == "0.19.0"
  {
  }
}
