/** What the recommended sizes promise: no panic, no disorder between parameters, exact WAL sizes, bounded work memory. */
module Amounts {
  import opened Text
  import opened PgBytes
  import opened PgTune
  import opened Tuning
  import opened Recommendations

  // ---------------------------------------------------------------- panics

  /** The three ways an amount can come out as zero. */
  predicate NoZeroAmount(c: SystemConfig) {
    c.memory >= 134 && c.memory * 3 % UINT64_LIMIT >= 4 &&
    (c.walDiskSize == 0 || c.walDiskSize * 60 % UINT64_LIMIT >= 100)
  }

  function WalMax(r: Recommender): nat
    requires r.Wal? || r.PromscaleWal?
  {
    if r.Wal? then CalcMaxWALBytes(r.walDiskSize) else PromscaleCalcMaxWALBytes(r.walDiskSize)
  }

  function RoundUp(x: nat): nat {
    if x % WAL_SEGMENT != 0 then (x / WAL_SEGMENT + 1) * WAL_SEGMENT else x
  }

  /** Both profiles round 60% of the disk up, and differ only where no size is given. */
  lemma WalMaxIs(r: Recommender)
    requires r.Wal? || r.PromscaleWal?
    ensures WalMax(r) == if r.walDiskSize == 0 then (if r.Wal? then GIGABYTE else 4 * GIGABYTE)
                         else RoundUp(r.walDiskSize * 60 % UINT64_LIMIT / 100)
  {
  }

  lemma MaxWalZeroIff(r: Recommender)
    requires r.Wal? || r.PromscaleWal?
    ensures WalMax(r) / 2 >= 1 <==> r.walDiskSize == 0 || r.walDiskSize * 60 % UINT64_LIMIT >= 100
    ensures WalMax(r) >= 1 <==> r.walDiskSize == 0 || r.walDiskSize * 60 % UINT64_LIMIT >= 100
  {
    WalMaxIs(r);
    hide WalMax;
    if r.walDiskSize != 0 {
      var max := r.walDiskSize * 60 % UINT64_LIMIT / 100;
      assert max == 0 <==> r.walDiskSize * 60 % UINT64_LIMIT < 100;
      assert max % WAL_SEGMENT == 0 && max > 0 ==> max >= WAL_SEGMENT;
    }
  }

  lemma MemoryGuards(r: Recommender)
    requires r.Memory? || r.PromscaleMemory?
    requires r.totalMemory >= 134
    ensures Safe(r) <==> r.totalMemory * 3 % UINT64_LIMIT >= 4
  {
    assert Guard(r, EFFECTIVE_CACHE) <==> EffectiveCacheBytes(r.totalMemory) >= 1;
  }

  lemma WalGuards(r: Recommender)
    requires r.Wal? || r.PromscaleWal?
    ensures Safe(r) <==> r.totalMemory >= 134 && (r.walDiskSize == 0 || r.walDiskSize * 60 % UINT64_LIMIT >= 100)
  {
    MaxWalZeroIff(r);
    assert WAL_BUFFERS != MIN_WAL && WAL_BUFFERS != MAX_WAL && MIN_WAL != MAX_WAL;
    assert Guard(r, WAL_BUFFERS) <==> WalBuffersBytes(r.totalMemory) >= 1;
    assert Guard(r, MIN_WAL) <==> WalMax(r) / 2 >= 1;
    assert WalBuffersBytes(r.totalMemory) >= 1 <==> r.totalMemory >= 134;
  }

  lemma InGroups(c: SystemConfig, p: Profile, linux: bool)
    ensures forall i :: 0 <= i < 5 ==> GetSettingsGroup(TUNABLES[i], c, p, linux) in Groups(c, p, linux)
    ensures forall g :: g in Groups(c, p, linux) ==> exists name :: g == GetSettingsGroup(name, c, p, linux)
  {
    hide GroupKeys;
    hide GetRecommender;
    var groups := Groups(c, p, linux);
    assert forall i :: 0 <= i < 5 ==> groups[i] == GetSettingsGroup(TUNABLES[i], c, p, linux);
  }

  /**
    For every configuration NewSystemConfig accepts: every recommendation processTunables asks for
    can be made without a panic exactly when none of the three amounts is zero.
   */
  lemma NoPanicIff(c: SystemConfig, p: Profile, linux: bool)
    requires Accepted(c)
    ensures AllSafe(Groups(c, p, linux)) <==> NoZeroAmount(c)
  {
    var memory := GetRecommender(MemoryLabel, c, p);
    var wal := GetRecommender(WALLabel, c, p);
    InGroups(c, p, linux);
    WalGuards(wal);
    if c.memory >= 134 {
      MemoryGuards(memory);
    }
    OthersAreSafe(c, p);
    hide Safe;
    hide GroupKeys;
    hide Groups;
    hide Accepted;
    if AllSafe(Groups(c, p, linux)) {
      assert GetSettingsGroup(TUNABLES[2], c, p, linux) in Groups(c, p, linux);
      assert GetSettingsGroup(TUNABLES[0], c, p, linux) in Groups(c, p, linux);
    }
  }

  lemma OthersAreSafe(c: SystemConfig, p: Profile)
    requires Accepted(c)
    ensures forall name :: name != MemoryLabel && name != WALLabel && IsAvailable(GetRecommender(name, c, p)) ==> Safe(GetRecommender(name, c, p))
    ensures IsAvailable(GetRecommender(MemoryLabel, c, p)) && IsAvailable(GetRecommender(WALLabel, c, p))
  {
  }

  /** In the range of real machines nothing panics. */
  lemma NoReachablePanic(c: SystemConfig, p: Profile, linux: bool)
    requires Accepted(c) && 134 <= c.memory < EXACT_LIMIT
    requires c.walDiskSize == 0 || 2 <= c.walDiskSize <= UINT64_LIMIT / 60
    ensures AllSafe(Groups(c, p, linux))
  {
    NoPanicIff(c, p, linux);
  }

  /** The lower bound comes from wal_buffers: with 133 bytes its amount is zero. */
  lemma SmallestMemory()
    ensures WalBuffersBytes(133) == 0 && WalBuffersBytes(134) == 1
  {
  }

  // ---------------------------------------------------------------- as printed and read again

  lemma PrintedAmount(r: Recommender, key: string, bytes: nat)
    requires Guard(r, key) && BytesFor(r, key) == Some(bytes) && bytes < EXACT_LIMIT
    ensures PGFormatToBytes(Recommend(r, key)) == Some(Reparsed(bytes))
  {
    hide PGFormatToBytes;
    hide BytesToPGFormat;
    FormatThenParse(bytes);
  }

  lemma ReadAgain(r: Recommender, key: string)
    requires Guard(r, key) && BytesFor(r, key).Some? && BytesFor(r, key).value < EXACT_LIMIT
    ensures PGFormatToBytes(Recommend(r, key)) == Some(Reparsed(BytesFor(r, key).value))
  {
    PrintedAmount(r, key, BytesFor(r, key).value);
  }

  /** The amounts of the memory group below the float64 limit. */
  lemma MemoryAmounts(r: Recommender)
    requires (r.Memory? || r.PromscaleMemory?) && 134 <= r.totalMemory < EXACT_LIMIT
    ensures Safe(r)
    ensures BytesFor(r, SHARED_BUFFERS) == Some(if r.Memory? then r.totalMemory / 4 else r.totalMemory / 2)
    ensures BytesFor(r, EFFECTIVE_CACHE) == Some(r.totalMemory * 3 / 4)
    ensures BytesFor(r, MAINTENANCE_WORK_MEM) == Some(MaintenanceBytes(r.totalMemory))
    ensures BytesFor(r, WORK_MEM) == Some(WorkMemBytes(r.totalMemory, r.cpus, r.conns))
  {
    MemoryGuards(r);
    hide WorkMemBytes;
    assert SHARED_BUFFERS != EFFECTIVE_CACHE && MAINTENANCE_WORK_MEM != EFFECTIVE_CACHE;
    assert WORK_MEM != SHARED_BUFFERS && WORK_MEM != EFFECTIVE_CACHE && WORK_MEM != MAINTENANCE_WORK_MEM;
    assert SHARED_BUFFERS != MAINTENANCE_WORK_MEM;
  }

  /** shared_buffers never exceeds effective_cache_size, in either profile, as PostgreSQL reads them. */
  lemma SharedBuffersBelowCache(r: Recommender)
    requires (r.Memory? || r.PromscaleMemory?) && 134 <= r.totalMemory < EXACT_LIMIT
    ensures Safe(r)
    ensures match (PGFormatToBytes(Recommend(r, SHARED_BUFFERS)), PGFormatToBytes(Recommend(r, EFFECTIVE_CACHE)))
            case (Some(shared), Some(cache)) => shared <= cache
            case _ => false
  {
    MemoryAmounts(r);
    hide Safe;
    hide BytesFor;
    hide Recommend;
    hide PGFormatToBytes;
    hide Reparsed;
    hide Guard;
    ReadBoth(r);
    ReparsedMonotone(BytesFor(r, SHARED_BUFFERS).value, BytesFor(r, EFFECTIVE_CACHE).value);
  }

  lemma ReadBoth(r: Recommender)
    requires Safe(r)
    requires forall key :: key in [SHARED_BUFFERS, EFFECTIVE_CACHE] ==> BytesFor(r, key).Some? && BytesFor(r, key).value < EXACT_LIMIT
    ensures forall key :: key in [SHARED_BUFFERS, EFFECTIVE_CACHE] ==>
              PGFormatToBytes(Recommend(r, key)) == Some(Reparsed(BytesFor(r, key).value))
  {
    hide Recommend;
    hide PGFormatToBytes;
    hide Reparsed;
    hide BytesFor;
    hide Guard;
    hide SHARED_BUFFERS;
    hide EFFECTIVE_CACHE;
    assert forall key :: Guard(r, key);
    ReadAgain(r, SHARED_BUFFERS);
    ReadAgain(r, EFFECTIVE_CACHE);
  }

  /** maintenance_work_mem never exceeds 2047 MB and wal_buffers never exceeds 16 MB. */
  lemma Ceilings(memory: nat)
    requires 134 <= memory < EXACT_LIMIT
    ensures Reparsed(MaintenanceBytes(memory)) <= 2047 * MEGABYTE
    ensures Reparsed(WalBuffersBytes(memory)) <= 16 * MEGABYTE
  {
    CeilingsAreFixed();
    hide Reparsed;
    ReparsedMonotone(MaintenanceBytes(memory), 2047 * MEGABYTE);
    ReparsedMonotone(WalBuffersBytes(memory), 16 * MEGABYTE);
  }

  lemma CeilingsAreFixed()
    ensures Reparsed(2047 * MEGABYTE) == 2047 * MEGABYTE && Reparsed(16 * MEGABYTE) == 16 * MEGABYTE
    ensures Reparsed(WORK_MEM_MIN) == WORK_MEM_MIN
  {
  }

  /** More memory never means a smaller size, except for work_mem; also across the 2 GB threshold. */
  lemma SizesAreMonotone(a: nat, b: nat)
    requires 134 <= a <= b < EXACT_LIMIT
    ensures Reparsed(a / 4) <= Reparsed(b / 4) && Reparsed(a / 2) <= Reparsed(b / 2)
    ensures Reparsed(EffectiveCacheBytes(a)) <= Reparsed(EffectiveCacheBytes(b))
    ensures Reparsed(MaintenanceBytes(a)) <= Reparsed(MaintenanceBytes(b))
    ensures Reparsed(WalBuffersBytes(a)) <= Reparsed(WalBuffersBytes(b))
  {
    hide Reparsed;
    ReparsedMonotone(a / 4, b / 4);
    ReparsedMonotone(a / 2, b / 2);
    ReparsedMonotone(EffectiveCacheBytes(a), EffectiveCacheBytes(b));
    ReparsedMonotone(MaintenanceBytes(a), MaintenanceBytes(b));
    ReparsedMonotone(WalBuffersBytes(a), WalBuffersBytes(b));
  }

  // ---------------------------------------------------------------- the size of the WAL

  lemma RoundUpBounds(x: nat)
    ensures RoundUp(x) % WAL_SEGMENT == 0 && x <= RoundUp(x) < x + WAL_SEGMENT
  {
  }

  lemma RoundUpLeast(x: nat, n: nat)
    requires n % WAL_SEGMENT == 0 && n >= x
    ensures n >= RoundUp(x)
  {
    RoundUpBounds(x);
    var m := RoundUp(x);
    hide RoundUp;
    assert n == n / WAL_SEGMENT * WAL_SEGMENT && m == m / WAL_SEGMENT * WAL_SEGMENT;
  }

  /** Rounding 60% up to a whole segment stays on a disk of 40 MB or more. */
  lemma RoomForRounding(disk: nat)
    requires disk >= 40 * MEGABYTE
    ensures RoundUp(disk * 60 / 100) <= disk
  {
    RoundUpBounds(disk * 60 / 100);
    hide RoundUp;
  }

  /** In both profiles, the least whole number of segments that covers 60% of the disk. */
  lemma MaxWalIsLeast(r: Recommender)
    requires (r.Wal? || r.PromscaleWal?) && r.walDiskSize > 0 && r.walDiskSize * 60 < UINT64_LIMIT
    ensures var m, x := WalMax(r), r.walDiskSize * 60 / 100;
            && m % 16_777_216 == 0 && m >= x
            && (forall n :: n % 16_777_216 == 0 && n >= x ==> n >= m)
            && (r.walDiskSize >= 41_943_040 ==> m <= r.walDiskSize)
  {
    SixtyPercent(r);
    hide WalMax;
    hide RoundUp;
    RoundUpIsLeast(r.walDiskSize * 60 / 100);
    if r.walDiskSize >= 40 * MEGABYTE {
      RoomForRounding(r.walDiskSize);
    }
  }

  lemma SixtyPercent(r: Recommender)
    requires (r.Wal? || r.PromscaleWal?) && r.walDiskSize > 0 && r.walDiskSize * 60 < UINT64_LIMIT
    ensures WalMax(r) == RoundUp(r.walDiskSize * 60 / 100)
  {
    WalMaxIs(r);
    hide WalMax;
    hide RoundUp;
    var n := r.walDiskSize * 60;
    assert n % UINT64_LIMIT == n;
  }

  lemma RoundUpIsLeast(x: nat)
    ensures RoundUp(x) % WAL_SEGMENT == 0 && RoundUp(x) >= x
    ensures forall n :: n % WAL_SEGMENT == 0 && n >= x ==> n >= RoundUp(x)
  {
    RoundUpBounds(x);
    hide RoundUp;
    forall n | n % WAL_SEGMENT == 0 && n >= x ensures n >= RoundUp(x) {
      RoundUpLeast(x, n);
    }
  }

  /** A multiple of half a segment below a terabyte is printed exactly. */
  lemma HalfSegmentsAreExact(k: nat)
    requires 1 <= k && k * (8 * MEGABYTE) < TERABYTE
    ensures Reparsed(k * (8 * MEGABYTE)) == k * (8 * MEGABYTE)
  {
    if k >= 128 {
      HalfSegmentsFromAGigabyte(k);
    } else {
      HalfSegmentsBelowAGigabyte(k);
    }
    hide Reparsed;
  }

  lemma HalfSegmentsBelowAGigabyte(k: nat)
    requires 1 <= k < 128
    ensures Reparsed(k * (8 * MEGABYTE)) == k * (8 * MEGABYTE)
  {
    var b := k * (8 * MEGABYTE);
    assert UnitOf(b) == MB && b == 8 * k * MEGABYTE;
    assert b % MEGABYTE == 0 && b / MEGABYTE == 8 * k;
    hide UnitOf;
  }

  lemma HalfSegmentsFromAGigabyte(k: nat)
    requires 128 <= k && k * (8 * MEGABYTE) < TERABYTE
    ensures Reparsed(k * (8 * MEGABYTE)) == k * (8 * MEGABYTE)
  {
    var b := k * (8 * MEGABYTE);
    assert UnitOf(b) == GB;
    hide UnitOf;
    assert b % GIGABYTE == k % 128 * (8 * MEGABYTE);
    assert b / GIGABYTE == k / 128 && b * 1024 / GIGABYTE == 8 * k;
  }

  lemma SegmentsHalve(m: nat)
    requires m % WAL_SEGMENT == 0 && m >= 1
    ensures m / 2 == m / WAL_SEGMENT * (8 * MEGABYTE) && m == 2 * (m / WAL_SEGMENT) * (8 * MEGABYTE)
  {
  }

  lemma WholeSegmentsAreExact(m: nat)
    requires m % WAL_SEGMENT == 0 && 1 <= m < TERABYTE
    ensures Reparsed(m) == m && Reparsed(m / 2) == m / 2 && 2 * (m / 2) == m && m / 2 >= 1
  {
    hide Reparsed;
    SegmentsHalve(m);
    HalfSegmentsAreExact(m / WAL_SEGMENT);
    HalfSegmentsAreExact(2 * (m / WAL_SEGMENT));
  }

  /** While the maximum is under a terabyte, both printed sizes read back exactly, the minimum half the maximum. */
  lemma WalSizesAreExact(r: Recommender)
    requires (r.Wal? || r.PromscaleWal?) && Safe(r) && WalMax(r) < TERABYTE
    ensures match (PGFormatToBytes(Recommend(r, MIN_WAL)), PGFormatToBytes(Recommend(r, MAX_WAL)))
            case (Some(min), Some(max)) => max == WalMax(r) && 2 * min == max
            case _ => false
  {
    hide WalMax;
    hide BytesFor;
    hide Recommend;
    hide PGFormatToBytes;
    hide Reparsed;
    hide Guard;
    WalAmounts(r);
    assert Guard(r, MIN_WAL) && Guard(r, MAX_WAL);
    WholeSegmentsAreExact(WalMax(r));
    ReadAgain(r, MIN_WAL);
    ReadAgain(r, MAX_WAL);
  }

  lemma WalAmounts(r: Recommender)
    requires r.Wal? || r.PromscaleWal?
    ensures BytesFor(r, MIN_WAL) == Some(WalMax(r) / 2) && BytesFor(r, MAX_WAL) == Some(WalMax(r))
    ensures WalMax(r) % WAL_SEGMENT == 0
    ensures Safe(r) ==> WalMax(r) >= 1
  {
    assert WAL_BUFFERS != MIN_WAL && WAL_BUFFERS != MAX_WAL && MIN_WAL != MAX_WAL;
    assert Safe(r) ==> Guard(r, MAX_WAL);
    WalMaxIs(r);
    RoundUpBounds(r.walDiskSize * 60 % UINT64_LIMIT / 100);
  }

  /** min_wal_size never exceeds max_wal_size, at any size. */
  lemma MinBelowMax(r: Recommender)
    requires (r.Wal? || r.PromscaleWal?) && Safe(r) && WalMax(r) < EXACT_LIMIT
    ensures match (PGFormatToBytes(Recommend(r, MIN_WAL)), PGFormatToBytes(Recommend(r, MAX_WAL)))
            case (Some(min), Some(max)) => min <= max
            case _ => false
  {
    WalAmounts(r);
    assert Guard(r, MIN_WAL) && Guard(r, MAX_WAL);
    hide WalMax;
    hide BytesFor;
    hide Recommend;
    hide PGFormatToBytes;
    hide Reparsed;
    ReadAgain(r, MIN_WAL);
    ReadAgain(r, MAX_WAL);
    assert BytesFor(r, MIN_WAL).value >= 1;
    ReparsedMonotone(WalMax(r) / 2, WalMax(r));
  }

  /** With a disk given, both profiles print the same WAL sizes. */
  lemma ProfilesAgree(memory: nat, disk: nat)
    requires disk != 0 && Safe(Wal(memory, disk))
    ensures Safe(PromscaleWal(memory, disk))
    ensures forall key :: key in [WAL_BUFFERS, MIN_WAL, MAX_WAL] ==>
              Recommend(Wal(memory, disk), key) == Recommend(PromscaleWal(memory, disk), key)
  {
    WalMaxIs(Wal(memory, disk));
    WalMaxIs(PromscaleWal(memory, disk));
    assert forall key :: BytesFor(Wal(memory, disk), key) == BytesFor(PromscaleWal(memory, disk), key);
    assert forall key :: Guard(Wal(memory, disk), key);
    forall key ensures Guard(PromscaleWal(memory, disk), key) {
      assert Guard(Wal(memory, disk), key);
    }
    hide WalMax;
    hide CalcMaxWALBytes;
    hide PromscaleCalcMaxWALBytes;
    hide WalBuffersBytes;
    hide BytesToPGFormat;
  }

  /**
    What the Promscale profile changes, as printed and read: half of the memory instead of a quarter
    for shared_buffers, and 4 GB instead of 1 GB of WAL when no disk size is given.
   */
  lemma ProfilesDiffer(c: SystemConfig, p: Profile)
    requires 134 <= c.memory < EXACT_LIMIT && c.walDiskSize == 0
    ensures var r, w := GetRecommender(MemoryLabel, c, p), GetRecommender(WALLabel, c, p);
            && Safe(r) && Safe(w)
            && PGFormatToBytes(Recommend(r, SHARED_BUFFERS)) == Some(Reparsed(c.memory / if p == PromscaleProfile then 2 else 4))
            && PGFormatToBytes(Recommend(w, MAX_WAL)) == Some(GIGABYTE * if p == PromscaleProfile then 4 else 1)
            && PGFormatToBytes(Recommend(w, MIN_WAL)) == Some(GIGABYTE * (if p == PromscaleProfile then 4 else 1) / 2)
  {
    var r, w := GetRecommender(MemoryLabel, c, p), GetRecommender(WALLabel, c, p);
    MemoryAmounts(r);
    WalGuards(w);
    assert WalMax(w) == GIGABYTE * if p == PromscaleProfile then 4 else 1;
    WholeSegmentsAreExact(WalMax(w));
    WalAmounts(w);
    hide WalMax;
    hide BytesFor;
    assert Guard(r, SHARED_BUFFERS) && Guard(w, MIN_WAL) && Guard(w, MAX_WAL);
    hide Guard;
    hide GetRecommender;
    hide Recommend;
    hide PGFormatToBytes;
    hide Reparsed;
    ReadAgain(r, SHARED_BUFFERS);
    ReadAgain(w, MIN_WAL);
    ReadAgain(w, MAX_WAL);
  }

  /** Only the Promscale profile touches the background writer, the checkpoint timeout and WAL compression. */
  lemma OnlyPromscale(c: SystemConfig, p: Profile, key: string)
    ensures var w := GetRecommender(WALLabel, c, p);
            Guard(w, key) ==>
              (key == CHECKPOINT_TIMEOUT ==> Recommend(w, key) == if p == PromscaleProfile then "900" else "") &&
              (key == WAL_COMPRESSION ==> Recommend(w, key) == if p == PromscaleProfile then "1" else "")
    ensures var r := GetRecommender(BgwriterLabel, c, p);
            Guard(r, key) && (key == BGWRITER_FLUSH_AFTER ==> Recommend(r, key) == if p == PromscaleProfile then "0" else "")
    ensures var r := GetRecommender(BgwriterLabel, c, p);
            Guard(r, key) && (Recommend(r, key) != NO_RECOMMENDATION <==> p == PromscaleProfile && key == BGWRITER_FLUSH_AFTER)
    ensures var w := GetRecommender(WALLabel, c, p);
            Guard(w, key) && key in [CHECKPOINT_TIMEOUT, WAL_COMPRESSION] ==>
              (Recommend(w, key) != NO_RECOMMENDATION <==> p == PromscaleProfile)
  {
    hide CalcMaxWALBytes;
    hide PromscaleCalcMaxWALBytes;
    hide WalBuffersBytes;
    hide Decimal;
    assert CHECKPOINT_TIMEOUT != WAL_COMPRESSION by {
      assert |WAL_COMPRESSION| == 15 && |CHECKPOINT_TIMEOUT| == 18;
    }
    assert CHECKPOINT_TIMEOUT !in [WAL_BUFFERS, MIN_WAL, MAX_WAL] && WAL_COMPRESSION !in [WAL_BUFFERS, MIN_WAL, MAX_WAL] by {
      assert |WAL_COMPRESSION| == 15 && |CHECKPOINT_TIMEOUT| == 18 && |WAL_BUFFERS| == 11 && |MIN_WAL| == 12 && |MAX_WAL| == 12;
    }
  }

  // ---------------------------------------------------------------- work memory

  /** From a megabyte up, all connections on half the CPUs stay within 25/64 of the memory. */
  lemma WorkMemBudget(memory: nat, cpus: pos, conns: pos)
    requires UnclampedWorkMem(memory, cpus, conns) >= MEGABYTE
    ensures Reparsed(WorkMemBytes(memory, cpus, conns)) * (conns * CpuFactor(cpus)) * 64 <= 25 * memory
  {
    hide Reparsed;
    var w := UnclampedWorkMem(memory, cpus, conns);
    assert WorkMemBytes(memory, cpus, conns) == w;
    LossAtMostAThousandth(w);
    assert w == memory * 400 / (1024 * Shares(cpus, conns));
    hide UnclampedWorkMem;
    hide WorkMemBytes;
    Within(memory, Shares(cpus, conns), w, Reparsed(w));
  }

  lemma Within(memory: nat, shares: pos, w: nat, r: nat)
    requires w == memory * 400 / (1024 * shares) && r <= w
    ensures r * shares * 64 <= 25 * memory
  {
    Quotient(memory, shares, w);
    MulMonotone(r, w, shares);
  }

  lemma Quotient(memory: nat, d: nat, w: nat)
    requires d > 0 && w == memory * 400 / (1024 * d)
    ensures w * d * 64 <= 25 * memory
  {
    var n := 1024 * d;
    assert w * n <= memory * 400;
    assert w * (1024 * d) == w * d * 1024;
  }

  /** The printed value is never below 64 kB. */
  lemma WorkMemFloor(memory: nat, cpus: pos, conns: pos)
    ensures Reparsed(WorkMemBytes(memory, cpus, conns)) >= 65536
  {
    CeilingsAreFixed();
    hide Reparsed;
    hide UnclampedWorkMem;
    ReparsedMonotone(WORK_MEM_MIN, WorkMemBytes(memory, cpus, conns));
  }

  /** For a fixed number of connections, more memory never means less work memory. */
  lemma WorkMemMonotone(a: nat, b: nat, cpus: pos, conns: pos)
    requires a <= b
    ensures Reparsed(WorkMemBytes(a, cpus, conns)) <= Reparsed(WorkMemBytes(b, cpus, conns))
  {
    DivModMonotone(a * 400, b * 400, 1024 * Shares(cpus, conns));
    hide Shares;
    hide Reparsed;
    ReparsedMonotone(WorkMemBytes(a, cpus, conns), WorkMemBytes(b, cpus, conns));
  }

  // ---------------------------------------------------------------- where work_mem drops

  /** The memory sizes above which there are more default connections. */
  predicate ConnectionStep(memory: nat) {
    memory == 2 * GIGABYTE || memory == 4 * GIGABYTE || memory == 6 * GIGABYTE
  }

  function DefaultWorkMem(memory: nat, cpus: pos): nat {
    WorkMemBytes(memory, cpus, GetMaxConns(memory))
  }

  /** work_mem with the default connections, as printed and read. */
  function PrintedWorkMem(memory: nat, cpus: pos): nat {
    Reparsed(DefaultWorkMem(memory, cpus))
  }

  lemma CancelFactor(n: nat, d: nat, k: nat)
    requires d > 0 && k > 0
    ensures n * k / (d * k) == n / d
  {
    var q, r := n / d, n % d;
    assert n * k == (q * d + r) * k == q * (d * k) + r * k;
    MulMonotone(r + 1, d, k);
    DivIs(n * k, d * k, q, r * k);
  }

  lemma DivIs(a: nat, d: nat, q: nat, r: nat)
    requires a == q * d + r && r < d
    ensures a / d == q
  {
    var p := a / d;
    assert a == p * d + a % d;
    if p < q {
      MulMonotone(p + 1, q, d);
    } else if q < p {
      MulMonotone(q + 1, p, d);
    }
  }

  /** At a step each connection gets 32 MB for each pair of CPUs; one byte more makes it 24 MB at most. */
  lemma AtStep(s: nat, cpus: pos)
    requires ConnectionStep(s)
    ensures UnclampedWorkMem(s, cpus, GetMaxConns(s)) == 33554432 / CpuFactor(cpus)
    ensures UnclampedWorkMem(s + 1, cpus, GetMaxConns(s + 1)) <= 25165825 / CpuFactor(cpus)
  {
    var n, m := GetMaxConns(s), GetMaxConns(s + 1);
    ShareOf(33554432, n, cpus);
    ShareOf(25165825, m, cpus);
    assert s * 400 == 33554432 * (1024 * n) && (s + 1) * 400 <= 25165825 * (1024 * m);
    hide GetMaxConns;
    QuotientMonotone((s + 1) * 400, 25165825 * (1024 * m), 1024 * Shares(cpus, m));
  }

  /** So many bytes for each connection, between the pairs of CPUs. */
  lemma ShareOf(bytes: nat, conns: pos, cpus: pos)
    ensures bytes * (1024 * conns) / (1024 * Shares(cpus, conns)) == bytes / CpuFactor(cpus)
  {
    var f := CpuFactor(cpus);
    CancelFactor(bytes, f, 1024 * conns);
    assert 1024 * (conns * f) == f * (1024 * conns);
  }

  lemma QuotientMonotone(a: nat, b: nat, d: nat)
    requires a <= b && d > 0
    ensures a / d <= b / d
  {
    DivModMonotone(a, b, d);
  }

  lemma QuotientAntitone(n: nat, f: pos, k: pos)
    requires f <= k
    ensures n / k <= n / f
  {
    var p, q := n / k, n / f;
    assert p * k <= n < q * f + f == (q + 1) * f;
    if q < p {
      MulMonotone(q + 1, p, f);
      MulMonotone(f, k, p);
    }
  }

  lemma ThreeQuarters(f: pos)
    ensures 4 * (25165825 / f) <= 3 * (33554432 / f) + 4
  {
    var a: nat, b: nat := 25165825 / (f as int), 33554432 / (f as int);
    assert a * f <= 25165825 && 33554432 < b * f + f;
    assert (3 * b + 5) * f == 3 * (b * f) + 5 * f;
    assert 4 * a * f == 4 * (a * f);
    if 4 * a > 3 * b + 4 {
      MulMonotone(3 * b + 5, 4 * a, f);
    }
  }

  lemma StepQuotients(f: pos)
    ensures 4 * (25165825 / f) <= 3 * (33554432 / f) + 4
    ensures f <= 508 <==> 33554432 / f >= 66048
    ensures f < 512 <==> 33554432 / f > 65536
  {
    ThreeQuarters(f);
    if f <= 508 {
      QuotientAntitone(33554432, f, 508);
    } else if f < 512 {
      QuotientAntitone(33554432, 509, f);
      QuotientAntitone(33554432, f, 511);
    } else {
      QuotientAntitone(33554432, 512, f);
    }
  }

  /** In bytes, work_mem drops exactly at the three steps, and there only below 512 pairs of CPUs. */
  lemma WorkMemDropsIff(memory: nat, cpus: pos)
    ensures DefaultWorkMem(memory + 1, cpus) < DefaultWorkMem(memory, cpus) <==> ConnectionStep(memory) && CpuFactor(cpus) < 512
  {
    if ConnectionStep(memory) {
      AtStep(memory, cpus);
      StepQuotients(CpuFactor(cpus));
    } else {
      BytesMonotone(memory, memory + 1, cpus, GetMaxConns(memory));
    }
    hide UnclampedWorkMem;
    hide CpuFactor;
  }

  lemma BytesMonotone(a: nat, b: nat, cpus: pos, conns: pos)
    requires a <= b
    ensures WorkMemBytes(a, cpus, conns) <= WorkMemBytes(b, cpus, conns)
  {
    DivModMonotone(a * 400, b * 400, 1024 * Shares(cpus, conns));
    hide Shares;
  }

  lemma AroundTheFloor()
    ensures Reparsed(65536) == 65536 && Reparsed(66047) == 65536 && Reparsed(66048) == 66560
  {
  }

  /** Three quarters of an amount above the floor are printed as less. */
  lemma ThreeQuartersAreLess(a: nat, b: nat)
    requires 4 * a <= 3 * b + 4 && a > 65536
    ensures Reparsed(a) < Reparsed(b)
  {
    NearestOrLess(a);
    NearestOrLess(b);
  }

  lemma NearestOrLess(x: nat)
    requires x >= KILOBYTE
    ensures Reparsed(x) <= x + 512
    ensures if x < MEGABYTE then x - 512 <= Reparsed(x) else (x - Reparsed(x)) * 1000 <= x
  {
    if x < MEGABYTE {
      NearestKilobyte(x);
    } else {
      LossAtMostAThousandth(x);
    }
  }

  /** At a step the printed value drops up to 508 pairs of CPUs; beyond, it is at its least. */
  lemma PrintedAtStep(s: nat, cpus: pos)
    requires ConnectionStep(s)
    ensures CpuFactor(cpus) <= 508 ==> PrintedWorkMem(s + 1, cpus) < PrintedWorkMem(s, cpus)
    ensures CpuFactor(cpus) > 508 ==> PrintedWorkMem(s, cpus) == WORK_MEM_MIN
  {
    var f := CpuFactor(cpus);
    AtStep(s, cpus);
    StepQuotients(f);
    AroundTheFloor();
    hide CpuFactor;
    var a: nat, b: nat := 25165825 / (f as int), 33554432 / (f as int);
    var after := UnclampedWorkMem(s + 1, cpus, GetMaxConns(s + 1));
    hide UnclampedWorkMem;
    hide GetMaxConns;
    if f <= 508 {
      ReparsedMonotone(66048, b);
      if after > 65536 {
        ReparsedMonotone(after, a);
        ThreeQuartersAreLess(a, b);
      }
    } else {
      ReparsedMonotone(65536, if b < 65536 then 65536 else b);
      ReparsedMonotone(if b < 65536 then 65536 else b, 66047);
    }
    hide Reparsed;
  }

  /** As printed, work_mem drops from one byte of memory to the next exactly at the three steps, up to 508 pairs of CPUs. */
  lemma PrintedWorkMemDropsIff(memory: nat, cpus: pos)
    ensures PrintedWorkMem(memory + 1, cpus) < PrintedWorkMem(memory, cpus) <==> ConnectionStep(memory) && CpuFactor(cpus) <= 508
  {
    if ConnectionStep(memory) {
      PrintedAtStep(memory, cpus);
      WorkMemFloor(memory + 1, cpus, GetMaxConns(memory + 1));
    } else {
      WorkMemMonotone(memory, memory + 1, cpus, GetMaxConns(memory));
    }
    hide Reparsed;
    hide WorkMemBytes;
    hide CpuFactor;
  }

  /** On a range of memory sizes the printed value never drops exactly if no step lies in it, or there are more than 508 pairs of CPUs. */
  lemma WorkMemIsMonotoneIff(a: nat, b: nat, cpus: pos)
    requires a <= b
    ensures (forall x, y :: a <= x <= y <= b ==> PrintedWorkMem(x, cpus) <= PrintedWorkMem(y, cpus)) <==>
            CpuFactor(cpus) > 508 || !exists s :: a <= s < b && ConnectionStep(s)
  {
    hide Reparsed;
    hide WorkMemBytes;
    hide CpuFactor;
    if CpuFactor(cpus) > 508 || !exists s :: a <= s < b && ConnectionStep(s) {
      forall x, y | a <= x <= y <= b ensures PrintedWorkMem(x, cpus) <= PrintedWorkMem(y, cpus) {
        NoDropBetween(x, y, cpus);
      }
    } else {
      var s :| a <= s < b && ConnectionStep(s);
      PrintedAtStep(s, cpus);
    }
  }

  lemma NoDropBetween(x: nat, y: nat, cpus: pos)
    requires x <= y
    requires CpuFactor(cpus) > 508 || forall s :: x <= s < y ==> !ConnectionStep(s)
    ensures PrintedWorkMem(x, cpus) <= PrintedWorkMem(y, cpus)
  {
    hide Reparsed;
    hide WorkMemBytes;
    hide CpuFactor;
    if GetMaxConns(x) == GetMaxConns(y) {
      WorkMemMonotone(x, y, cpus, GetMaxConns(x));
    } else {
      var s := if x <= 2 * GIGABYTE then 2 * GIGABYTE else if x <= 4 * GIGABYTE then 4 * GIGABYTE else 6 * GIGABYTE;
      assert x <= s < y && ConnectionStep(s) && GetMaxConns(x) == GetMaxConns(s);
      WorkMemMonotone(x, s, cpus, GetMaxConns(x));
      PrintedAtStep(s, cpus);
      WorkMemFloor(y, cpus, GetMaxConns(y));
    }
  }

  /** One byte above each step, for one pair of CPUs: from 32 MB to 16 MB, less than 22 MB, and 24 MB. */
  lemma WorkMemDrops(cpus: pos)
    requires cpus <= 2
    ensures forall s :: ConnectionStep(s) ==> DefaultWorkMem(s, cpus) == 32 * MEGABYTE
    ensures DefaultWorkMem(2 * GIGABYTE + 1, cpus) == 16 * MEGABYTE
    ensures 21 * MEGABYTE <= DefaultWorkMem(4 * GIGABYTE + 1, cpus) < 22 * MEGABYTE
    ensures DefaultWorkMem(6 * GIGABYTE + 1, cpus) == 24 * MEGABYTE
  {
    assert CpuFactor(cpus) == 1;
  }

  // ---------------------------------------------------------------- the source's formulas

  lemma FloorOfQuotient(n: nat, d: nat)
    requires d > 0
    ensures (n as real / d as real).Floor == n / d
  {
    var q, r := n / d, n % d;
    assert n == q * d + r;
    assert n as real == q as real * d as real + r as real;
    assert n as real / d as real == q as real + r as real / d as real;
    assert 0.0 <= r as real / d as real < 1.0;
  }

  /** Gigabytes times so many bytes for each, truncated: the amounts in whole bytes are these. */
  lemma FormulasPerGigabyte(memory: nat)
    ensures (memory as real / GIGABYTE as real * (128.0 * MEGABYTE as real)).Floor == memory / 8
    ensures (memory as real / GIGABYTE as real * (7864.0 * KILOBYTE as real)).Floor == memory * 7864 / MEGABYTE
    ensures MaintenanceBytes(memory) == if memory / 8 <= 2_146_435_072 then memory / 8 else 2_146_435_072
    ensures WalBuffersBytes(memory) == if memory < 2_147_483_648 then memory * 7864 / MEGABYTE else 16_777_216
    ensures EffectiveCacheBytes(memory) == memory * 3 % 18_446_744_073_709_551_616 / 4
  {
    FloorOfQuotient(memory, 8);
    FloorOfQuotient(memory * 7864, MEGABYTE);
  }

  /** gigs * (400 MB / conns) / cpuFactor, truncated. */
  lemma WorkMemFormula(memory: nat, cpus: pos, conns: pos)
    ensures var cpuFactor := (cpus as real / 2.0 + 0.5).Floor;
            cpuFactor >= 1 &&
            var w := (memory as real / GIGABYTE as real * (400.0 * MEGABYTE as real / conns as real) / cpuFactor as real).Floor;
            w == UnclampedWorkMem(memory, cpus, conns) && WorkMemBytes(memory, cpus, conns) == if w < 65536 then 65536 else w
  {
    HalfRoundedUp(cpus);
    AsQuotient(memory, conns, CpuFactor(cpus));
    FloorOfQuotient(memory * 400, 1024 * Shares(cpus, conns));
  }

  lemma HalfRoundedUp(cpus: pos)
    ensures (cpus as real / 2.0 + 0.5).Floor == CpuFactor(cpus)
  {
    FloorOfQuotient(cpus + 1, 2);
    assert cpus as real / 2.0 + 0.5 == (cpus + 1) as real / 2.0;
  }

  lemma ProductAsReal(a: nat, b: nat)
    ensures (a * b) as real == a as real * b as real
  {
  }

  lemma AsQuotient(memory: nat, conns: pos, k: pos)
    ensures memory as real / GIGABYTE as real * (400.0 * MEGABYTE as real / conns as real) / k as real ==
            (memory * 400) as real / (1024 * (conns * k)) as real
  {
    PositiveProduct(conns, k);
    ProductAsReal(conns, k);
    ProductAsReal(1024, conns * k);
    OverConnections(memory as real, conns as real, k as real);
  }

  lemma OverConnections(m: real, n: real, k: real)
    requires n > 0.0 && k > 0.0
    ensures m / GIGABYTE as real * (400.0 * MEGABYTE as real / n) / k == m * 400.0 / (1024.0 * n * k)
  {
    var x := m / GIGABYTE as real * (400.0 * MEGABYTE as real / n) / k;
    var y := m * 400.0 / (1024.0 * n * k);
    var d := 1024.0 * n * k;
    assert x * k == m / GIGABYTE as real * (400.0 * MEGABYTE as real / n);
    assert 400.0 * MEGABYTE as real / n * n == 400.0 * MEGABYTE as real;
    assert x * k * n == m / GIGABYTE as real * (400.0 * MEGABYTE as real);
    assert x * d == 1024.0 * (x * k * n);
    assert y * d == m * 400.0;
    assert d > 0.0;
  }

  /** The connections work_mem is shared between are the ones recommended as max_connections. */
  lemma ConnectionsAgree(c: SystemConfig, p: Profile)
    ensures var r, misc := GetRecommender(MemoryLabel, c, p), GetRecommender(MiscLabel, c, p);
            && (r.Memory? || r.PromscaleMemory?) && r.cpus == c.cpus && r.totalMemory == c.memory
            && AllDigits(Recommend(misc, MAX_CONNECTIONS)) && NumberOf(Recommend(misc, MAX_CONNECTIONS)) == r.conns
            && r.conns == if c.maxConns != 0 then c.maxConns else GetMaxConns(c.memory)
  {
    hide Decimal;
    hide NumberOf;
    ConnectionsName();
    DecimalRoundTrip(if c.maxConns != 0 then c.maxConns else GetMaxConns(c.memory));
    hide GetMaxConns;
    hide MAX_CONNECTIONS;
    hide CHECKPOINT_TARGET;
    hide STATS_TARGET;
    hide AUTOVACUUM_MAX_WORKERS;
    hide AUTOVACUUM_NAPTIME;
    hide RANDOM_PAGE_COST;
    hide EFFECTIVE_IO;
    hide TOAST_COMPRESSION;
    hide JIT;
  }

  /** The default connections, by memory: 25 up to 2 GB, 50 up to 4 GB, 75 up to 6 GB, and 100. */
  lemma DefaultConnections(memory: nat)
    ensures GetMaxConns(memory) == 25 <==> memory <= 0x8000_0000
    ensures GetMaxConns(memory) == 50 <==> 0x8000_0000 < memory <= 0x1_0000_0000
    ensures GetMaxConns(memory) == 75 <==> 0x1_0000_0000 < memory <= 0x1_8000_0000
    ensures GetMaxConns(memory) == 100 <==> 0x1_8000_0000 < memory
  {
  }

  lemma ConnectionsName()
    ensures MAX_CONNECTIONS !in [CHECKPOINT_TARGET, STATS_TARGET, AUTOVACUUM_MAX_WORKERS, AUTOVACUUM_NAPTIME, RANDOM_PAGE_COST,
                                 EFFECTIVE_IO, TOAST_COMPRESSION, JIT]
  {
    assert |MAX_CONNECTIONS| == 15 && MAX_CONNECTIONS[0] == 'm' && |CHECKPOINT_TARGET| == 28 && |STATS_TARGET| == 25;
    assert |AUTOVACUUM_MAX_WORKERS| == 22 && |AUTOVACUUM_NAPTIME| == 18 && |RANDOM_PAGE_COST| == 16;
    assert |EFFECTIVE_IO| == 24 && |TOAST_COMPRESSION| == 25 && |JIT| == 3;
  }

  /**
    As printed for one configuration: from a megabyte up, the work memory of max_connections
    connections on half the CPUs is at most 25/64 of the memory.
   */
  lemma PrintedWorkMemBudget(c: SystemConfig, p: Profile)
    requires 134 <= c.memory < EXACT_LIMIT
    ensures var r, misc := GetRecommender(MemoryLabel, c, p), GetRecommender(MiscLabel, c, p);
            && Safe(r) && AllDigits(Recommend(misc, MAX_CONNECTIONS))
            && match PGFormatToBytes(Recommend(r, WORK_MEM))
               case None => false
               case Some(w) =>
                 w >= 65536 &&
                 (UnclampedWorkMem(c.memory, c.cpus, r.conns) >= MEGABYTE ==>
                    w * (NumberOf(Recommend(misc, MAX_CONNECTIONS)) * CpuFactor(c.cpus)) * 64 <= 25 * c.memory)
  {
    ConnectionsAgree(c, p);
    var r, misc := GetRecommender(MemoryLabel, c, p), GetRecommender(MiscLabel, c, p);
    hide GetRecommender;
    MemoryAmounts(r);
    SmallWorkMem(c.memory, c.cpus, r.conns, EXACT_LIMIT);
    hide BytesFor;
    assert Guard(r, WORK_MEM);
    ReadAgain(r, WORK_MEM);
    WorkMemFloor(c.memory, c.cpus, r.conns);
    if UnclampedWorkMem(c.memory, c.cpus, r.conns) >= MEGABYTE {
      WorkMemBudget(c.memory, c.cpus, r.conns);
    }
    hide Recommend;
    hide PGFormatToBytes;
    hide Reparsed;
    hide WorkMemBytes;
    hide UnclampedWorkMem;
    hide Guard;
    hide NumberOf;
  }

  lemma QuotientBelow(a: nat, d: nat)
    requires d >= 1024
    ensures a / d * 1024 <= a
  {
    MulMonotone(1024, d, a / d);
  }

  lemma SmallWorkMem(m: nat, cpus: pos, conns: pos, limit: nat)
    requires m < limit && limit > WORK_MEM_MIN
    ensures WorkMemBytes(m, cpus, conns) < limit
  {
    QuotientBelow(m * 400, 1024 * Shares(cpus, conns));
    hide Shares;
  }

  // ---------------------------------------------------------------- worker counts

  /**
    As printed and read, the worker processes are those of the built-ins, the background jobs and the
    parallel queries together, exactly as long as the int sum does not overflow.
   */
  lemma WorkersAddUp(r: Recommender)
    requires r.Parallel? && 1 < r.cpuCount < INT64_LIMIT && MAX_BACKGROUND_WORKERS_DEFAULT <= r.maxBGWorkers < INT64_LIMIT
    ensures forall key :: key in PARALLEL_KEYS && key != MAX_WORKER_PROCESSES ==> AllDigits(Recommend(r, key))
    ensures var parallel := NumberOf(Recommend(r, MAX_PARALLEL_WORKERS));
            var gather := NumberOf(Recommend(r, MAX_PARALLEL_WORKERS_GATHER));
            var sum := 3 + NumberOf(Recommend(r, MAX_BACKGROUND_WORKERS)) + parallel;
            var processes := Recommend(r, MAX_WORKER_PROCESSES);
            && parallel == r.cpuCount && NumberOf(Recommend(r, MAX_BACKGROUND_WORKERS)) == r.maxBGWorkers
            && parallel <= 2 * gather <= parallel + 1
            && (AllDigits(processes) && NumberOf(processes) == sum <==> sum < INT64_LIMIT)
  {
    hide Decimal;
    hide NumberOf;
    WorkerNamesDiffer();
    var sum := 3 + r.maxBGWorkers + r.cpuCount;
    var wrapped := Int64(sum);
    assert sum >= INT64_LIMIT ==> wrapped < sum;
    hide Int64;
    SignedIsRead(wrapped);
    hide Signed;
    hide MAX_WORKER_PROCESSES;
    hide MAX_PARALLEL_WORKERS;
    hide MAX_PARALLEL_WORKERS_GATHER;
    hide MAX_BACKGROUND_WORKERS;
    DecimalRoundTrip(r.cpuCount);
    DecimalRoundTrip((r.cpuCount + 1) / 2);
    DecimalRoundTrip(r.maxBGWorkers);
  }

  /** What the group of a configuration prints: the CPUs for parallel workers, and the configured background workers. */
  lemma WorkersOf(c: SystemConfig, p: Profile)
    requires Accepted(c)
    ensures var r := GetRecommender(ParallelLabel, c, p);
            (IsAvailable(r) <==> c.cpus >= 2) && (Safe(r) <==> c.cpus >= 2) &&
            (c.cpus >= 2 ==>
               && (forall key :: key in PARALLEL_KEYS && key != MAX_WORKER_PROCESSES ==> AllDigits(Recommend(r, key)))
               && NumberOf(Recommend(r, MAX_PARALLEL_WORKERS)) == c.cpus
               && NumberOf(Recommend(r, MAX_BACKGROUND_WORKERS)) == c.maxBGWorkers
               && (3 + c.maxBGWorkers + c.cpus < INT64_LIMIT ==>
                     AllDigits(Recommend(r, MAX_WORKER_PROCESSES)) &&
                     NumberOf(Recommend(r, MAX_WORKER_PROCESSES)) == 3 + c.maxBGWorkers + c.cpus))
  {
    var r := GetRecommender(ParallelLabel, c, p);
    assert Guard(r, "") <==> c.cpus >= 2;
    if c.cpus >= 2 {
      WorkersAddUp(r);
      MemberNames();
    }
    hide Recommend;
    hide NumberOf;
  }

  lemma MemberNames()
    ensures MAX_PARALLEL_WORKERS in PARALLEL_KEYS && MAX_BACKGROUND_WORKERS in PARALLEL_KEYS
    ensures MAX_PARALLEL_WORKERS != MAX_WORKER_PROCESSES && MAX_BACKGROUND_WORKERS != MAX_WORKER_PROCESSES
  {
    WorkerNamesDiffer();
    assert PARALLEL_KEYS[0] == MAX_BACKGROUND_WORKERS && PARALLEL_KEYS[3] == MAX_PARALLEL_WORKERS;
  }

  /** All other groups are always available, and the parallel recommender panics on one CPU or fewer than 16 background workers. */
  lemma Availability(r: Recommender)
    ensures IsAvailable(r) <==> !r.Parallel? || r.cpuCount >= 2
    ensures r.Parallel? ==> (Safe(r) <==> r.cpuCount >= 2 && r.maxBGWorkers >= 16)
  {
    assert Safe(r) ==> Guard(r, "");
  }

  lemma SignedIsRead(n: int)
    ensures AllDigits(Signed(n)) <==> n >= 0
    ensures n >= 0 ==> NumberOf(Signed(n)) == n
  {
    if n >= 0 {
      DecimalRoundTrip(n);
    } else {
      assert Signed(n)[0] == '-';
    }
  }

  lemma WorkerNamesDiffer()
    ensures MAX_WORKER_PROCESSES != MAX_PARALLEL_WORKERS && MAX_WORKER_PROCESSES != MAX_PARALLEL_WORKERS_GATHER
    ensures MAX_WORKER_PROCESSES != MAX_BACKGROUND_WORKERS && MAX_PARALLEL_WORKERS != MAX_PARALLEL_WORKERS_GATHER
    ensures MAX_PARALLEL_WORKERS != MAX_BACKGROUND_WORKERS && MAX_PARALLEL_WORKERS_GATHER != MAX_BACKGROUND_WORKERS
  {
    assert MAX_WORKER_PROCESSES[4] == 'w' && MAX_PARALLEL_WORKERS[4] == 'p' && MAX_PARALLEL_WORKERS_GATHER[4] == 'p' && MAX_BACKGROUND_WORKERS[4] == 's';
    assert |MAX_PARALLEL_WORKERS| < |MAX_PARALLEL_WORKERS_GATHER|;
  }

  /** A configuration is refused for its connections or its background workers, and is otherwise one the theorems are about. */
  lemma NewConfigIsAccepted(memory: nat, cpus: pos, version: string, disk: nat, conns: nat, workers: nat)
    requires memory < UINT64_LIMIT && disk < UINT64_LIMIT && conns < UINT64_LIMIT && cpus < INT64_LIMIT && workers < INT64_LIMIT
    ensures match NewSystemConfig(memory, cpus, version, disk, conns, workers)
            case Some(c) => Accepted(c) && c.memory == memory && c.cpus == cpus && c.walDiskSize == disk && c.pgMajorVersion == version
            case None => 0 < conns < MIN_MAX_CONNS || workers < MAX_BACKGROUND_WORKERS_DEFAULT
  {
  }

  // ---------------------------------------------------------------- locks, and the settings that hardly depend on the machine

  /** 128 locks, doubled at 8, 16 and 32 GB. */
  lemma LocksDouble(memory: nat)
    ensures AllDigits(MaxLocksValue(memory))
    ensures NumberOf(MaxLocksValue(memory)) ==
            if memory < 0x2_0000_0000 then 128 else if memory < 0x4_0000_0000 then 256 else if memory < 0x8_0000_0000 then 512 else 1024
  {
    Lock128();
    Lock256();
    Lock512();
    Lock1024();
    hide NumberOf;
    hide AllDigits;
  }

  lemma Lock128()
    ensures AllDigits("128") && NumberOf("128") == 128
  {
    DecimalRoundTrip(128);
    assert Decimal(128) == "128";
  }

  lemma Lock256()
    ensures AllDigits("256") && NumberOf("256") == 256
  {
    DecimalRoundTrip(256);
    assert Decimal(256) == "256";
  }

  lemma Lock512()
    ensures AllDigits("512") && NumberOf("512") == 512
  {
    DecimalRoundTrip(512);
    assert Decimal(512) == "512";
  }

  lemma Lock1024()
    ensures AllDigits("1024") && NumberOf("1024") == 1024
  {
    DecimalRoundTrip(1024);
    assert Decimal(1024) == "1024";
  }

  /** The miscellaneous settings, by PostgreSQL version where it matters. */
  lemma MiscSettings(r: Recommender)
    requires r.Misc?
    ensures Recommend(r, CHECKPOINT_TARGET) == "0.9" && Recommend(r, STATS_TARGET) == "100" && Recommend(r, RANDOM_PAGE_COST) == "1.1"
    ensures Recommend(r, AUTOVACUUM_MAX_WORKERS) == "10" && Recommend(r, AUTOVACUUM_NAPTIME) == "10"
    ensures Recommend(r, MAX_LOCKS) == MaxLocksValue(r.totalMemory)
    ensures Recommend(r, EFFECTIVE_IO) == if r.pgMajorVersion in ["9.6", "10", "11", "12"] then "200" else "256"
    ensures Recommend(r, TOAST_COMPRESSION) == if r.pgMajorVersion in ["9.6", "10", "11", "12", "13"] then "" else "lz4"
    ensures Recommend(r, JIT) == if r.pgMajorVersion in ["9.6", "10", "11"] then "" else "off"
  {
    hide MaxLocksValue;
    hide Decimal;
    MiscIndex();
    hide KeyIndex;
    hide CHECKPOINT_TARGET;
    hide STATS_TARGET;
    hide RANDOM_PAGE_COST;
    hide AUTOVACUUM_MAX_WORKERS;
    hide AUTOVACUUM_NAPTIME;
    hide MAX_LOCKS;
    hide MAX_CONNECTIONS;
    hide EFFECTIVE_IO;
    hide TOAST_COMPRESSION;
    hide JIT;
  }

  lemma MiscIndex()
    ensures KeyIndex(STATS_TARGET) == 14 && KeyIndex(RANDOM_PAGE_COST) == 15 && KeyIndex(CHECKPOINT_TARGET) == 16
    ensures KeyIndex(MAX_CONNECTIONS) == 17 && KeyIndex(MAX_LOCKS) == 18 && KeyIndex(AUTOVACUUM_MAX_WORKERS) == 19
    ensures KeyIndex(AUTOVACUUM_NAPTIME) == 20 && KeyIndex(TOAST_COMPRESSION) == 21 && KeyIndex(JIT) == 22
    ensures KeyIndex(EFFECTIVE_IO) == 23
  {
    TableIndex();
    hide KeyIndex;
    assert KEY_TABLE[14..24] == MISC_KEYS;
    assert KEY_TABLE[14] == STATS_TARGET && KEY_TABLE[15] == RANDOM_PAGE_COST && KEY_TABLE[16] == CHECKPOINT_TARGET;
    assert KEY_TABLE[17] == MAX_CONNECTIONS && KEY_TABLE[18] == MAX_LOCKS && KEY_TABLE[19] == AUTOVACUUM_MAX_WORKERS;
    assert KEY_TABLE[20] == AUTOVACUUM_NAPTIME && KEY_TABLE[21] == TOAST_COMPRESSION && KEY_TABLE[22] == JIT;
    assert KEY_TABLE[23] == EFFECTIVE_IO;
  }
}
