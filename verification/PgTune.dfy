/** The recommenders and settings groups (pkg/pgtune). */
module PgTune {
  import opened Text
  import opened PgBytes
  import PgTime

  type pos = n: nat | n >= 1 witness 1

  // ---------------------------------------------------------------- parameter names

  const SHARED_BUFFERS := "shared_buffers"
  const EFFECTIVE_CACHE := "effective_cache_size"
  const MAINTENANCE_WORK_MEM := "maintenance_work_mem"
  const WORK_MEM := "work_mem"
  const MEMORY_KEYS := [SHARED_BUFFERS, EFFECTIVE_CACHE, MAINTENANCE_WORK_MEM, WORK_MEM]

  const MAX_BACKGROUND_WORKERS := "timescaledb.max_background_workers"
  const MAX_WORKER_PROCESSES := "max_worker_processes"
  const MAX_PARALLEL_WORKERS_GATHER := "max_parallel_workers_per_gather"
  const MAX_PARALLEL_WORKERS := "max_parallel_workers"
  const PARALLEL_KEYS := [MAX_BACKGROUND_WORKERS, MAX_WORKER_PROCESSES, MAX_PARALLEL_WORKERS_GATHER, MAX_PARALLEL_WORKERS]

  const WAL_BUFFERS := "wal_buffers"
  const MIN_WAL := "min_wal_size"
  const MAX_WAL := "max_wal_size"
  const CHECKPOINT_TIMEOUT := "checkpoint_timeout"
  const WAL_COMPRESSION := "wal_compression"
  const WAL_KEYS := [WAL_BUFFERS, MIN_WAL, MAX_WAL, CHECKPOINT_TIMEOUT, WAL_COMPRESSION]

  const BGWRITER_FLUSH_AFTER := "bgwriter_flush_after"
  const BGWRITER_KEYS := [BGWRITER_FLUSH_AFTER]

  const STATS_TARGET := "default_statistics_target"
  const RANDOM_PAGE_COST := "random_page_cost"
  const CHECKPOINT_TARGET := "checkpoint_completion_target"
  const MAX_CONNECTIONS := "max_connections"
  const MAX_LOCKS := "max_locks_per_transaction"
  const AUTOVACUUM_MAX_WORKERS := "autovacuum_max_workers"
  const AUTOVACUUM_NAPTIME := "autovacuum_naptime"
  const TOAST_COMPRESSION := "default_toast_compression"
  const JIT := "jit"
  const EFFECTIVE_IO := "effective_io_concurrency"
  const MISC_KEYS := [STATS_TARGET, RANDOM_PAGE_COST, CHECKPOINT_TARGET, MAX_CONNECTIONS, MAX_LOCKS,
                      AUTOVACUUM_MAX_WORKERS, AUTOVACUUM_NAPTIME, TOAST_COMPRESSION, JIT, EFFECTIVE_IO]

  const NO_RECOMMENDATION := ""

  // ---------------------------------------------------------------- system configuration

  const MIN_MAX_CONNS := 25
  const MAX_CONNECTIONS_DEFAULT := 100
  const MAX_BACKGROUND_WORKERS_DEFAULT := 16

  datatype SystemConfig =
    SystemConfig(memory: nat, cpus: pos, pgMajorVersion: string, walDiskSize: nat, maxConns: nat, maxBGWorkers: nat)

  datatype Profile = DefaultProfile | PromscaleProfile

  /** What NewSystemConfig lets through, for uint64 sizes and connections, and int counts. */
  predicate Accepted(c: SystemConfig) {
    (c.maxConns == 0 || c.maxConns >= MIN_MAX_CONNS) && c.maxBGWorkers >= MAX_BACKGROUND_WORKERS_DEFAULT &&
    c.memory < UINT64_LIMIT && c.walDiskSize < UINT64_LIMIT && c.maxConns < UINT64_LIMIT &&
    c.cpus < INT64_LIMIT && c.maxBGWorkers < INT64_LIMIT
  }

  function NewSystemConfig(memory: nat, cpus: pos, version: string, walDiskSize: nat, maxConns: nat, maxBGWorkers: nat): Option<SystemConfig> {
    if maxConns != 0 && maxConns < MIN_MAX_CONNS then None
    else if maxBGWorkers < MAX_BACKGROUND_WORKERS_DEFAULT then None
    else Some(SystemConfig(memory, cpus, version, walDiskSize, maxConns, maxBGWorkers))
  }

  /** Connections by a memory step function. */
  function GetMaxConns(totalMemory: nat): (n: pos)
    ensures n >= MIN_MAX_CONNS
  {
    if totalMemory <= 2 * GIGABYTE then MIN_MAX_CONNS
    else if totalMemory <= 4 * GIGABYTE then 50
    else if totalMemory <= 6 * GIGABYTE then 75
    else MAX_CONNECTIONS_DEFAULT
  }

  // ---------------------------------------------------------------- byte amounts

  const MAINTENANCE_LIMIT := 2047 * MEGABYTE
  const WORK_MEM_MIN := 64 * KILOBYTE
  const WAL_BUFFERS_THRESHOLD := 2 * GIGABYTE
  const WAL_BUFFERS_DEFAULT := 16 * MEGABYTE
  const WAL_SEGMENT := 16 * MEGABYTE
  const DEFAULT_MAX_WAL := GIGABYTE
  const PROMSCALE_MAX_WAL := 4 * GIGABYTE

  /** math.Round(cpus / 2.0) */
  function CpuFactor(cpus: pos): pos {
    (cpus + 1) / 2
  }

  /** The product is a uint64 and can wrap around. */
  function EffectiveCacheBytes(memory: nat): nat {
    memory * 3 % UINT64_LIMIT / 4
  }

  function MaintenanceBytes(memory: nat): nat {
    if memory / 8 > MAINTENANCE_LIMIT then MAINTENANCE_LIMIT else memory / 8
  }

  lemma PositiveProduct(a: pos, b: pos)
    ensures a * b >= 1
  {
  }

  /** The shares work_mem is for: connections times pairs of CPUs. */
  function Shares(cpus: pos, conns: pos): pos {
    PositiveProduct(conns, CpuFactor(cpus));
    conns * CpuFactor(cpus)
  }

  function Truncated(a: nat, b: pos): nat {
    a / b
  }

  /** memory / GIGABYTE * (400 * MEGABYTE / conns) / cpuFactor, truncated. */
  function UnclampedWorkMem(memory: nat, cpus: pos, conns: pos): nat {
    Truncated(memory * 400, 1024 * Shares(cpus, conns))
  }

  function WorkMemBytes(memory: nat, cpus: pos, conns: pos): nat {
    var w := UnclampedWorkMem(memory, cpus, conns);
    if w < WORK_MEM_MIN then WORK_MEM_MIN else w
  }

  function WalBuffersBytes(memory: nat): nat {
    if memory < WAL_BUFFERS_THRESHOLD then memory * 7864 / MEGABYTE else WAL_BUFFERS_DEFAULT
  }

  /** calcMaxWALBytes: 60% of the disk, the product a uint64 that can wrap around, rounded up to whole segments. */
  function CalcMaxWALBytes(walDiskSize: nat): nat {
    if walDiskSize == 0 then DEFAULT_MAX_WAL
    else
      var max := walDiskSize * 60 % UINT64_LIMIT / 100;
      if max % WAL_SEGMENT != 0 then (max / WAL_SEGMENT + 1) * WAL_SEGMENT else max
  }

  /** promscaleCalcMaxWALBytes, a copy with another default. */
  function PromscaleCalcMaxWALBytes(walDiskSize: nat): nat {
    if walDiskSize == 0 then PROMSCALE_MAX_WAL
    else
      var max := walDiskSize * 60 % UINT64_LIMIT / 100;
      if max % WAL_SEGMENT != 0 then (max / WAL_SEGMENT + 1) * WAL_SEGMENT else max
  }

  // ---------------------------------------------------------------- recommenders

  datatype Recommender =
    | Memory(totalMemory: nat, cpus: pos, conns: pos)
    | PromscaleMemory(totalMemory: nat, cpus: pos, conns: pos)
    | Wal(totalMemory: nat, walDiskSize: nat)
    | PromscaleWal(totalMemory: nat, walDiskSize: nat)
    | PromscaleBgwriter
    | Null
    | Parallel(cpuCount: nat, maxBGWorkers: nat)
    | Misc(totalMemory: nat, maxConns: nat, pgMajorVersion: string)

  predicate IsAvailable(r: Recommender) {
    r.Parallel? ==> r.cpuCount > 1
  }

  /** The amount a recommender formats for `key`, when it formats one. */
  function BytesFor(r: Recommender, key: string): Option<nat> {
    match r
    case Memory(m, cpus, conns) => MemoryBytesFor(m, cpus, conns, m / 4, key)
    case PromscaleMemory(m, cpus, conns) => MemoryBytesFor(m, cpus, conns, m / 2, key)
    case Wal(m, disk) => WalBytesFor(m, CalcMaxWALBytes(disk), key)
    case PromscaleWal(m, disk) => WalBytesFor(m, PromscaleCalcMaxWALBytes(disk), key)
    case _ => None
  }

  function MemoryBytesFor(memory: nat, cpus: pos, conns: pos, sharedBuffers: nat, key: string): Option<nat> {
    if key == SHARED_BUFFERS then Some(sharedBuffers)
    else if key == EFFECTIVE_CACHE then Some(EffectiveCacheBytes(memory))
    else if key == MAINTENANCE_WORK_MEM then Some(MaintenanceBytes(memory))
    else if key == WORK_MEM then Some(WorkMemBytes(memory, cpus, conns))
    else None
  }

  function WalBytesFor(memory: nat, maxWal: nat, key: string): Option<nat> {
    if key == WAL_BUFFERS then Some(WalBuffersBytes(memory))
    else if key == MIN_WAL then Some(maxWal / 2)
    else if key == MAX_WAL then Some(maxWal)
    else None
  }

  /** The source panics on a zero amount, on one CPU, and on too few background workers. */
  predicate Guard(r: Recommender, key: string) {
    (BytesFor(r, key).Some? ==> BytesFor(r, key).value >= 1) &&
    (r.Parallel? ==> r.cpuCount > 1 && r.maxBGWorkers >= MAX_BACKGROUND_WORKERS_DEFAULT)
  }

  ghost predicate Safe(r: Recommender) {
    forall key :: Guard(r, key)
  }

  const MAX_LOCKS_VALUES := ["128", "256", "512", "1024"]

  function MaxLocksValue(memory: nat): string {
    if memory >= 32 * GIGABYTE then "1024"
    else if memory >= 16 * GIGABYTE then "512"
    else if memory >= 8 * GIGABYTE then "256"
    else "128"
  }

  function ValueForVersion(current: string, oldVersions: seq<string>, oldValue: string, newValue: string): string {
    if current in oldVersions then oldValue else newValue
  }

  /** An int sum, which wraps around. */
  function Int64(x: int): (r: int)
    ensures -INT64_LIMIT <= r < INT64_LIMIT
    ensures -INT64_LIMIT <= x < INT64_LIMIT ==> r == x
  {
    var m := x % UINT64_LIMIT;
    if m < INT64_LIMIT then m else m - UINT64_LIMIT
  }

  function Signed(n: int): string {
    if n < 0 then "-" + Decimal(-n) else Decimal(n)
  }

  function Recommend(r: Recommender, key: string): string
    requires Guard(r, key)
  {
    if BytesFor(r, key).Some? then BytesToPGFormat(BytesFor(r, key).value)
    else match r
      case PromscaleWal(_, _) =>
        if key == CHECKPOINT_TIMEOUT then "900"
        else if key == WAL_COMPRESSION then "1"
        else NO_RECOMMENDATION
      case PromscaleBgwriter => if key == BGWRITER_FLUSH_AFTER then "0" else NO_RECOMMENDATION
      case Parallel(cpus, workers) =>
        if key == MAX_WORKER_PROCESSES then Signed(Int64(3 + workers + cpus))
        else if key == MAX_PARALLEL_WORKERS then Decimal(cpus)
        else if key == MAX_PARALLEL_WORKERS_GATHER then Decimal((cpus + 1) / 2)
        else if key == MAX_BACKGROUND_WORKERS then Decimal(workers)
        else NO_RECOMMENDATION
      case Misc(m, conns, version) => RecommendMisc(m, conns, version, key)
      case _ => NO_RECOMMENDATION
  }

  function RecommendMisc(memory: nat, maxConns: nat, version: string, key: string): string {
    if key == CHECKPOINT_TARGET then "0.9"
    else if key == STATS_TARGET then "100"
    else if key == AUTOVACUUM_MAX_WORKERS then "10"
    else if key == AUTOVACUUM_NAPTIME then "10"
    else if key == RANDOM_PAGE_COST then "1.1"
    else if key == EFFECTIVE_IO then ValueForVersion(version, ["9.6", "10", "11", "12"], "200", "256")
    else if key == TOAST_COMPRESSION then ValueForVersion(version, ["9.6", "10", "11", "12", "13"], NO_RECOMMENDATION, "lz4")
    else if key == JIT then ValueForVersion(version, ["9.6", "10", "11"], NO_RECOMMENDATION, "off")
    else if key == MAX_CONNECTIONS then Decimal(if maxConns != 0 then maxConns else GetMaxConns(memory))
    else if key == MAX_LOCKS then MaxLocksValue(memory)
    else NO_RECOMMENDATION
  }

  // ---------------------------------------------------------------- the two loops of misc.go

  method GetValueForVersion(currentVersion: string, oldVersions: seq<string>, oldVersionValue: string, newVersionValue: string)
    returns (r: string)
    ensures r == ValueForVersion(currentVersion, oldVersions, oldVersionValue, newVersionValue)
  {
    for i := 0 to |oldVersions|
      invariant currentVersion !in oldVersions[..i]
    {
      if oldVersions[i] == currentVersion {
        return oldVersionValue;
      }
    }
    return newVersionValue;
  }

  function Power2(n: nat): nat {
    if n == 0 then 1 else 2 * Power2(n - 1)
  }

  /** The search down the table: each step doubles the memory asked for, from 8 GB at index 1. */
  method MaxLocks(totalMemory: nat) returns (r: string)
    ensures r == MaxLocksValue(totalMemory)
  {
    assert Power2(2) == 4 && Power2(3) == 8 && Power2(4) == 16 && Power2(5) == 32;
    var i := |MAX_LOCKS_VALUES| - 1;
    while i >= 1
      invariant 0 <= i <= 3
      invariant i <= 2 ==> totalMemory < 32 * GIGABYTE
      invariant i <= 1 ==> totalMemory < 16 * GIGABYTE
      invariant i <= 0 ==> totalMemory < 8 * GIGABYTE
    {
      var limit := Power2(2 + i);
      if totalMemory >= limit * GIGABYTE {
        return MAX_LOCKS_VALUES[i];
      }
      i := i - 1;
    }
    return MAX_LOCKS_VALUES[0];
  }

  // ---------------------------------------------------------------- settings groups

  datatype Label = MemoryLabel | ParallelLabel | WALLabel | BgwriterLabel | MiscLabel

  /** The order in which processTunables goes through the groups. */
  const TUNABLES := [MemoryLabel, ParallelLabel, WALLabel, BgwriterLabel, MiscLabel]

  datatype SettingsGroup = SettingsGroup(name: Label, keys: seq<string>, recommender: Recommender)

  function GroupKeys(name: Label, c: SystemConfig, linux: bool): seq<string> {
    match name
    case MemoryLabel => MEMORY_KEYS
    case ParallelLabel => if c.pgMajorVersion == "9.6" then PARALLEL_KEYS[..|PARALLEL_KEYS| - 1] else PARALLEL_KEYS
    case WALLabel => WAL_KEYS
    case BgwriterLabel => BGWRITER_KEYS
    case MiscLabel => if linux then MISC_KEYS else MISC_KEYS[..|MISC_KEYS| - 1]
  }

  function GetRecommender(name: Label, c: SystemConfig, p: Profile): Recommender {
    match name
    case MemoryLabel =>
      var conns: pos := if c.maxConns == 0 then GetMaxConns(c.memory) else c.maxConns;
      if p == PromscaleProfile then PromscaleMemory(c.memory, c.cpus, conns) else Memory(c.memory, c.cpus, conns)
    case ParallelLabel => Parallel(c.cpus, c.maxBGWorkers)
    case WALLabel =>
      if p == PromscaleProfile then PromscaleWal(c.memory, c.walDiskSize) else Wal(c.memory, c.walDiskSize)
    case BgwriterLabel => if p == PromscaleProfile then PromscaleBgwriter else Null
    case MiscLabel => Misc(c.memory, c.maxConns, c.pgMajorVersion)
  }

  function GetSettingsGroup(name: Label, c: SystemConfig, p: Profile, linux: bool): SettingsGroup {
    SettingsGroup(name, GroupKeys(name, c, linux), GetRecommender(name, c, p))
  }

  // ---------------------------------------------------------------- reading values as numbers

  /** A parsed float64: a number, or an infinity or NaN, which no comparison ever finds close. */
  datatype Float = Finite(x: real) | NonFinite

  datatype FloatParser = BytesFloatParser | WALFloatParser | NumericFloatParser

  /** The Promscale memory recommender is not in the dispatch and gets the numeric parser. */
  function GetFloatParser(r: Recommender): FloatParser {
    match r
    case Memory(_, _, _) => BytesFloatParser
    case Wal(_, _) => WALFloatParser
    case PromscaleWal(_, _) => WALFloatParser
    case _ => NumericFloatParser
  }

  function ParseBytes(s: string): Option<Float> {
    match PGFormatToBytes(s)
    case None => None
    case Some(n) => Some(Finite(n as real))
  }

  function ParseBool(text: string): Option<Float> {
    var isQuote := (c: char) => c == '"' || c == '\'';
    var s := TrimRight(TrimLeft(Lower(text), isQuote), isQuote);
    if s == "on" || s == "true" || s == "yes" || s == "1" then Some(Finite(1.0))
    else if s == "off" || s == "false" || s == "no" || s == "0" then Some(Finite(0.0))
    else None
  }

  /** A checkpoint timeout in milliseconds. */
  function ParseTimeout(s: string): Option<Float> {
    match PgTime.PGFormatToTime(s, PgTime.Milliseconds, PgTime.Integer)
    case None => None
    case Some((v, u)) => Some(Finite(PgTime.Times(v, PgTime.TimeConversion(u, PgTime.Milliseconds))))
  }

  /** `numeric` stands for strconv.ParseFloat. */
  function ParseFloat(parser: FloatParser, numeric: string -> Option<Float>, key: string, s: string): Option<Float> {
    match parser
    case BytesFloatParser => ParseBytes(s)
    case NumericFloatParser => numeric(s)
    case WALFloatParser =>
      if key == WAL_COMPRESSION then ParseBool(s)
      else if key == CHECKPOINT_TIMEOUT then ParseTimeout(s)
      else ParseBytes(s)
  }
}
