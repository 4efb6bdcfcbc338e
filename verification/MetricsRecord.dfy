/**
  The exported part of the `PostgreSQLMetrics` record: which sample each field becomes, when,
  and how wide it can be.
 */
module MetricsRecord {
  import opened Wrappers
  import opened Decimals
  import opened TextFormat

  datatype Metrics = Metrics(
    totalConnections: Int32,
    activeConnections: Int32,
    idleConnections: Int32,
    idleInTransaction: Int32,
    slowQueriesCount: Int32,
    avgQueryTime: Double,
    maxQueryTime: Double,
    commitsTotal: Int64,
    rollbacksTotal: Int64,
    databaseSize: Int64,
    largestTableSize: Int64,
    activeLocks: Int32,
    waitingLocks: Int32,
    deadlocksTotal: Int32,
    isPrimary: Int32,
    replicationLagBytes: Double,
    replicationLagSeconds: Double,
    cacheHitRatio: Double,
    indexHitRatio: Double,
    databaseConnected: Int32,
    lastUpdate: Int64)

  datatype Field =
    | TotalConnections
    | ActiveConnections
    | IdleConnections
    | IdleInTransaction
    | SlowQueriesCount
    | AvgQueryTime
    | MaxQueryTime
    | CommitsTotal
    | RollbacksTotal
    | DatabaseSize
    | LargestTableSize
    | ActiveLocks
    | WaitingLocks
    | DeadlocksTotal
    | IsPrimary
    | ReplicationLagBytes
    | ReplicationLagSeconds
    | CacheHitRatio
    | IndexHitRatio
    | DatabaseConnected
    | LastUpdate

  /** The fields in the order of the exposition, section by section. */
  const CONNECTIONS: seq<Field> := [TotalConnections, ActiveConnections, IdleConnections, IdleInTransaction]
  const QUERIES: seq<Field> := [SlowQueriesCount, AvgQueryTime, MaxQueryTime]
  const TRANSACTIONS: seq<Field> := [CommitsTotal, RollbacksTotal]
  const SIZES: seq<Field> := [DatabaseSize, LargestTableSize]
  const LOCKS: seq<Field> := [ActiveLocks, WaitingLocks, DeadlocksTotal]
  const REPLICATION: seq<Field> := [IsPrimary, ReplicationLagBytes, ReplicationLagSeconds]
  const CACHE: seq<Field> := [CacheHitRatio, IndexHitRatio]
  const STATUS: seq<Field> := [DatabaseConnected, LastUpdate]

  const ORDER: seq<Field> :=
    CONNECTIONS + QUERIES + TRANSACTIONS + SIZES + LOCKS + REPLICATION + CACHE + STATUS

  const PREFIX := "pganalytics_"

  function Suffix(f: Field): string {
    match f
    case TotalConnections => "total_connections"
    case ActiveConnections => "active_connections"
    case IdleConnections => "idle_connections"
    case IdleInTransaction => "idle_in_transaction"
    case SlowQueriesCount => "slow_queries_count"
    case AvgQueryTime => "avg_query_time_ms"
    case MaxQueryTime => "max_query_time_ms"
    case CommitsTotal => "commits_total"
    case RollbacksTotal => "rollbacks_total"
    case DatabaseSize => "database_size_bytes"
    case LargestTableSize => "largest_table_size_bytes"
    case ActiveLocks => "active_locks"
    case WaitingLocks => "waiting_locks"
    case DeadlocksTotal => "deadlocks_total"
    case IsPrimary => "is_primary"
    case ReplicationLagBytes => "replication_lag_bytes"
    case ReplicationLagSeconds => "replication_lag_seconds"
    case CacheHitRatio => "cache_hit_ratio"
    case IndexHitRatio => "index_hit_ratio"
    case DatabaseConnected => "database_connected"
    case LastUpdate => "last_update"
  }

  function Name(f: Field): string { PREFIX + Suffix(f) }

  /** Whether the field is exported at all. */
  predicate Passes(m: Metrics, f: Field) {
    match f
    case TotalConnections => m.totalConnections >= 0
    case ActiveConnections => m.activeConnections >= 0
    case IdleConnections => m.idleConnections >= 0
    case IdleInTransaction => m.idleInTransaction >= 0
    case SlowQueriesCount => m.slowQueriesCount >= 0
    case AvgQueryTime => m.avgQueryTime.AtLeastZero()
    case MaxQueryTime => m.maxQueryTime.AtLeastZero()
    case CommitsTotal => m.commitsTotal >= 0
    case RollbacksTotal => m.rollbacksTotal >= 0
    case DatabaseSize => m.databaseSize >= 0
    case LargestTableSize => m.largestTableSize >= 0
    case ActiveLocks => m.activeLocks >= 0
    case WaitingLocks => m.waitingLocks >= 0
    case DeadlocksTotal => m.deadlocksTotal >= 0
    case IsPrimary => true
    case ReplicationLagBytes => m.replicationLagBytes.AtLeastZero()
    case ReplicationLagSeconds => m.replicationLagSeconds.AtLeastZero()
    case CacheHitRatio => m.cacheHitRatio.AtLeastZero() && m.cacheHitRatio.AtMostHundred()
    case IndexHitRatio => m.indexHitRatio.AtLeastZero() && m.indexHitRatio.AtMostHundred()
    case DatabaseConnected => true
    case LastUpdate => true
  }

  /** A C flag is exported as 0 or 1. */
  function Flag(x: Int32): Numeral { IntNumeral(if x != 0 then 1 else 0) }

  /** The number the field is exported as. */
  function Shown(m: Metrics, f: Field): Numeral {
    match f
    case TotalConnections => IntNumeral(m.totalConnections)
    case ActiveConnections => IntNumeral(m.activeConnections)
    case IdleConnections => IntNumeral(m.idleConnections)
    case IdleInTransaction => IntNumeral(m.idleInTransaction)
    case SlowQueriesCount => IntNumeral(m.slowQueriesCount)
    case AvgQueryTime => DoubleNumeral(m.avgQueryTime, 2)
    case MaxQueryTime => DoubleNumeral(m.maxQueryTime, 2)
    case CommitsTotal => IntNumeral(m.commitsTotal)
    case RollbacksTotal => IntNumeral(m.rollbacksTotal)
    case DatabaseSize => IntNumeral(m.databaseSize)
    case LargestTableSize => IntNumeral(m.largestTableSize)
    case ActiveLocks => IntNumeral(m.activeLocks)
    case WaitingLocks => IntNumeral(m.waitingLocks)
    case DeadlocksTotal => IntNumeral(m.deadlocksTotal)
    case IsPrimary => Flag(m.isPrimary)
    case ReplicationLagBytes => DoubleNumeral(m.replicationLagBytes, 0)
    case ReplicationLagSeconds => DoubleNumeral(m.replicationLagSeconds, 2)
    case CacheHitRatio => DoubleNumeral(m.cacheHitRatio, 2)
    case IndexHitRatio => DoubleNumeral(m.indexHitRatio, 2)
    case DatabaseConnected => Flag(m.databaseConnected)
    case LastUpdate => IntNumeral(m.lastUpdate)
  }

  function SampleOf(m: Metrics, tenant: string, f: Field): Sample {
    TenantSample(Name(f), tenant, Shown(m, f))
  }

  function Contribution(m: Metrics, tenant: string, f: Field): seq<Sample> {
    if Passes(m, f) then [SampleOf(m, tenant, f)] else []
  }

  /** The samples of those listed fields whose guards pass, in order. */
  function Samples(m: Metrics, tenant: string, fields: seq<Field>): seq<Sample> {
    if fields == [] then []
    else Contribution(m, tenant, fields[0]) + Samples(m, tenant, fields[1..])
  }

  function AllSamples(m: Metrics, tenant: string): seq<Sample> { Samples(m, tenant, ORDER) }

  lemma {:induction false} SamplesConcat(m: Metrics, tenant: string, a: seq<Field>, b: seq<Field>)
    ensures Samples(m, tenant, a + b) == Samples(m, tenant, a) + Samples(m, tenant, b)
  {
    if a == [] {
      assert a + b == b;
    } else {
      assert (a + b)[1..] == a[1..] + b;
      SamplesConcat(m, tenant, a[1..], b);
    }
  }

  // ----- tenant names

  predicate IsTenantChar(c: char) {
    'a' <= c <= 'z' || 'A' <= c <= 'Z' || '0' <= c <= '9' || c == '_' || c == '-'
  }

  ghost predicate ValidTenant(tenant: string) {
    1 <= |tenant| <= 50 && forall c <- tenant :: IsTenantChar(c)
  }

  // ----- names identify fields

  lemma ConnectionsNames(f: Field)
    requires f.TotalConnections? || f.ActiveConnections?
    ensures IsName(Suffix(f))
  {
  }

  lemma IdleNames(f: Field)
    requires f.IdleConnections? || f.IdleInTransaction?
    ensures IsName(Suffix(f))
  {
  }

  lemma QueriesNames(f: Field)
    requires f.SlowQueriesCount? || f.AvgQueryTime?
    ensures IsName(Suffix(f))
  {
  }

  lemma MaxQueryName()
    ensures IsName(Suffix(MaxQueryTime))
  {
  }

  lemma TransactionsNames(f: Field)
    requires f.CommitsTotal? || f.RollbacksTotal?
    ensures IsName(Suffix(f))
  {
  }

  lemma SizesNames(f: Field)
    requires f.DatabaseSize? || f.LargestTableSize?
    ensures IsName(Suffix(f))
  {
  }

  lemma LocksNames(f: Field)
    requires f.ActiveLocks? || f.WaitingLocks? || f.DeadlocksTotal?
    ensures IsName(Suffix(f))
  {
  }

  lemma ReplicationNames(f: Field)
    requires f.IsPrimary? || f.ReplicationLagBytes? || f.ReplicationLagSeconds?
    ensures IsName(Suffix(f))
  {
  }

  lemma CacheNames(f: Field)
    requires f.CacheHitRatio? || f.IndexHitRatio?
    ensures IsName(Suffix(f))
  {
  }

  lemma StatusNames(f: Field)
    requires f.DatabaseConnected? || f.LastUpdate?
    ensures IsName(Suffix(f))
  {
  }

  lemma NamesAreNames(f: Field)
    ensures IsName(Name(f))
  {
    hide Suffix, IsName;
    PrefixIsName(Suffix(f));
    match f
    case TotalConnections | ActiveConnections => ConnectionsNames(f);
    case IdleConnections | IdleInTransaction => IdleNames(f);
    case SlowQueriesCount | AvgQueryTime => QueriesNames(f);
    case MaxQueryTime => MaxQueryName();
    case CommitsTotal | RollbacksTotal => TransactionsNames(f);
    case DatabaseSize | LargestTableSize => SizesNames(f);
    case ActiveLocks | WaitingLocks | DeadlocksTotal => LocksNames(f);
    case IsPrimary | ReplicationLagBytes | ReplicationLagSeconds => ReplicationNames(f);
    case CacheHitRatio | IndexHitRatio => CacheNames(f);
    case DatabaseConnected | LastUpdate => StatusNames(f);
  }

  lemma PrefixIsName(suffix: string)
    ensures IsName(suffix) ==> IsName(PREFIX + suffix)
  {
  }

  /** The field is determined by the length and first letter of its suffix. */
  function FieldOf(length: nat, first: char): Field {
    match length
    case 10 => IsPrimary
    case 12 => ActiveLocks
    case 13 => if first == 'c' then CommitsTotal else WaitingLocks
    case 15 =>
      if first == 'r' then RollbacksTotal
      else if first == 'd' then DeadlocksTotal
      else if first == 'c' then CacheHitRatio
      else IndexHitRatio
    case 16 => IdleConnections
    case 17 => if first == 't' then TotalConnections else if first == 'a' then AvgQueryTime else MaxQueryTime
    case 18 => if first == 'a' then ActiveConnections else if first == 's' then SlowQueriesCount else DatabaseConnected
    case 19 => if first == 'i' then IdleInTransaction else DatabaseSize
    case 21 => ReplicationLagBytes
    case 23 => ReplicationLagSeconds
    case 24 => LargestTableSize
    case _ => LastUpdate
  }

  lemma SuffixDetermines(f: Field)
    ensures Suffix(f) != "" && FieldOf(|Suffix(f)|, Suffix(f)[0]) == f
  {
  }

  /** No two fields share a metric name. */
  lemma NamesDiffer(f: Field, g: Field)
    requires Name(f) == Name(g)
    ensures f == g
  {
    assert Name(f)[|PREFIX|..] == Suffix(f) && Name(g)[|PREFIX|..] == Suffix(g);
    SuffixDetermines(f);
    SuffixDetermines(g);
  }

  // ----- reading a record back

  /** The value the first sample of that name carries. */
  function Lookup(samples: seq<Sample>, name: string): Option<Numeral> {
    if samples == [] then None
    else if samples[0].name == name then Some(samples[0].value)
    else Lookup(samples[1..], name)
  }

  lemma {:induction false} LookupConcat(a: seq<Sample>, b: seq<Sample>, name: string)
    ensures Lookup(a + b, name) == if Lookup(a, name).Some? then Lookup(a, name) else Lookup(b, name)
  {
    if a == [] {
      assert a + b == b;
    } else {
      assert (a + b)[1..] == a[1..] + b;
      LookupConcat(a[1..], b, name);
    }
  }

  /** Every field is in the exposition. */
  lemma OrderComplete(f: Field)
    ensures f in ORDER
  {
    match f
    case TotalConnections | ActiveConnections | IdleConnections | IdleInTransaction => assert f in CONNECTIONS;
    case SlowQueriesCount | AvgQueryTime | MaxQueryTime => assert f in QUERIES;
    case CommitsTotal | RollbacksTotal => assert f in TRANSACTIONS;
    case DatabaseSize | LargestTableSize => assert f in SIZES;
    case ActiveLocks | WaitingLocks | DeadlocksTotal => assert f in LOCKS;
    case IsPrimary | ReplicationLagBytes | ReplicationLagSeconds => assert f in REPLICATION;
    case CacheHitRatio | IndexHitRatio => assert f in CACHE;
    case DatabaseConnected | LastUpdate => assert f in STATUS;
  }

  lemma LookupContribution(m: Metrics, tenant: string, g: Field, f: Field)
    ensures Lookup(Contribution(m, tenant, g), Name(f))
         == if g == f && Passes(m, f) then Some(Shown(m, f)) else None
  {
    if Name(g) == Name(f) {
      NamesDiffer(f, g);
    }
    assert [SampleOf(m, tenant, g)][1..] == [];
  }

  /** A listed field is found exactly when its guard passes. */
  lemma {:induction false} LookupSamples(m: Metrics, tenant: string, f: Field, fields: seq<Field>)
    ensures Lookup(Samples(m, tenant, fields), Name(f))
         == if f in fields && Passes(m, f) then Some(Shown(m, f)) else None
  {
    if fields != [] {
      LookupSamples(m, tenant, f, fields[1..]);
      LookupConcat(Contribution(m, tenant, fields[0]), Samples(m, tenant, fields[1..]), Name(f));
      LookupContribution(m, tenant, fields[0], f);
    }
  }

  lemma {:induction false} SamplesReadable(m: Metrics, tenant: string, fields: seq<Field>)
    requires ValidTenant(tenant)
    ensures Readable(Samples(m, tenant, fields))
    ensures forall s <- Samples(m, tenant, fields) :: s.key == TENANT && s.text == tenant
  {
    if fields != [] {
      SamplesReadable(m, tenant, fields[1..]);
      NamesAreNames(fields[0]);
    }
  }

  // ----- how wide a sample can be

  lemma PrintIntWidth(n: nat, width: nat)
    requires width >= 1
    ensures |Print(IntNumeral(n))| <= width <==> n < Pow10(width)
  {
    DigitsWidth(n, width);
    assert Sign(false) + Digits(n) == Digits(n);
  }

  lemma PrintFixedWidth(scaled: nat, decimals: nat, width: nat)
    requires width >= 1 && decimals >= 1
    ensures |Print(Decimal(false, scaled, decimals))| <= width + 1 + decimals
       <==> scaled < Pow10(width + decimals)
  {
    DigitsWidth(DropDigits(scaled, decimals), width);
    DropDigitsBelow(scaled, decimals, width);
    assert Print(Decimal(false, scaled, decimals)) == "" + PrintUnsigned(scaled, decimals);
  }

  const INT_WIDTH := 10
  const LLONG_WIDTH := 19
  const DOUBLE_WIDTH := 309

  lemma SmallPowers()
    ensures Pow10(5) == 10_0000
    ensures Pow10(INT_WIDTH - 1) <= INT_MAX < Pow10(INT_WIDTH)
    ensures Pow10(LLONG_WIDTH - 1) <= LLONG_MAX && -LLONG_MIN < Pow10(LLONG_WIDTH)
  {
    assert Pow10(9) == 10_0000_0000 && Pow10(10) == 100_0000_0000;
    Pow10Sum(9, 9);
    Pow10Sum(9, 10);
  }

  /** The widest text a passing field can have after its label. */
  function ValueWidth(f: Field): nat {
    match f
    case CommitsTotal | RollbacksTotal | DatabaseSize | LargestTableSize => LLONG_WIDTH
    case AvgQueryTime | MaxQueryTime | ReplicationLagSeconds => DOUBLE_WIDTH + 3
    case ReplicationLagBytes => DOUBLE_WIDTH
    case CacheHitRatio | IndexHitRatio => 6
    case IsPrimary | DatabaseConnected => 1
    case LastUpdate => LLONG_WIDTH + 1
    case _ => INT_WIDTH
  }

  /** A finite double, scaled, stays below the scaled power of ten. */
  lemma DoubleScaledBelow(mag: real, n: nat)
    requires 0.0 <= mag <= DBL_MAX as real && mag * 100.0 + 0.5 >= n as real
    ensures n < Pow10(DOUBLE_WIDTH + 2)
  {
    DoubleMaxDigits();
    assert n as real <= (DBL_MAX * 100) as real + 0.5;
    assert Pow10(311) == 10 * (10 * Pow10(309));
  }

  lemma HundredthsWidth(d: Double)
    requires d.AtLeastZero()
    ensures |Print(DoubleNumeral(d, 2))| <= DOUBLE_WIDTH + 3
    ensures d.AtMostHundred() ==> |Print(DoubleNumeral(d, 2))| <= 6
  {
    assert Pow10(2) == 100;
    if d.Finite? {
      var n := RoundHalfEven(d.magnitude * 100.0);
      assert DoubleNumeral(d, 2) == Decimal(d.negative, n, 2);
      if d.negative {
        assert n == 0;
        PrintFixedWidth(0, 2, 1);
        assert PrintUnsigned(0, 2) == "" + PrintUnsigned(0, 2);
      } else {
        DoubleScaledBelow(d.magnitude, n);
        PrintFixedWidth(n, 2, DOUBLE_WIDTH);
        SmallPowers();
        PrintFixedWidth(n, 2, 3);
      }
    }
  }

  lemma UnitsWidth(d: Double)
    requires d.AtLeastZero()
    ensures |Print(DoubleNumeral(d, 0))| <= DOUBLE_WIDTH
  {
    assert Pow10(0) == 1;
    if d.Finite? {
      var n := RoundHalfEven(d.magnitude);
      assert d.magnitude * 1.0 == d.magnitude;
      assert DoubleNumeral(d, 0) == Decimal(d.negative, n, 0);
      DoubleMaxDigits();
      DigitsWidth(n, DOUBLE_WIDTH);
      if d.negative {
        assert n == 0;
      }
    }
  }

  /** Without a guard there can be a sign. */
  lemma AnyDoubleWidth(d: Double)
    ensures |Print(DoubleNumeral(d, 2))| <= DOUBLE_WIDTH + 4
    ensures |Print(DoubleNumeral(d, 0))| <= DOUBLE_WIDTH + 1
  {
    if d.Finite? && d.negative {
      HundredthsWidth(Finite(false, d.magnitude));
      UnitsWidth(Finite(false, d.magnitude));
      NegatedNumeral(d.magnitude, 2);
      NegatedNumeral(d.magnitude, 0);
    } else if d.AtLeastZero() {
      HundredthsWidth(d);
      UnitsWidth(d);
    }
    hide DoubleNumeral;
  }

  lemma NegatedNumeral(magnitude: real, decimals: nat)
    requires 0.0 <= magnitude <= DBL_MAX as real
    ensures |Print(DoubleNumeral(Finite(true, magnitude), decimals))|
         == |Print(DoubleNumeral(Finite(false, magnitude), decimals))| + 1
  {
    hide PrintUnsigned, RoundHalfEven;
  }

  lemma AnyIntWidth(n: Int64)
    ensures |Print(IntNumeral(n))| <= LLONG_WIDTH + 1
    ensures n >= 0 ==> |Print(IntNumeral(n))| <= LLONG_WIDTH
  {
    SmallPowers();
    var x: int := n;
    PrintIntWidth(if x < 0 then -x else x, LLONG_WIDTH);
  }

  lemma AnyInt32Width(n: Int32)
    ensures |Print(IntNumeral(n))| <= INT_WIDTH + 1
  {
    SmallPowers();
    var x: int := n;
    PrintIntWidth(if x < 0 then -x else x, INT_WIDTH);
  }

  lemma ShownWidth(m: Metrics, f: Field)
    requires Passes(m, f)
    ensures |Print(Shown(m, f))| <= ValueWidth(f)
  {
    SmallPowers();
    match f
    case AvgQueryTime => HundredthsWidth(m.avgQueryTime);
    case MaxQueryTime => HundredthsWidth(m.maxQueryTime);
    case ReplicationLagSeconds => HundredthsWidth(m.replicationLagSeconds);
    case CacheHitRatio => HundredthsWidth(m.cacheHitRatio);
    case IndexHitRatio => HundredthsWidth(m.indexHitRatio);
    case ReplicationLagBytes => UnitsWidth(m.replicationLagBytes);
    case LastUpdate =>
      var x: int := m.lastUpdate;
      PrintIntWidth(if x < 0 then -x else x, LLONG_WIDTH);
      assert x < 0 ==> Print(Shown(m, f)) == "-" + Digits(-x);
    case CommitsTotal => PrintIntWidth(m.commitsTotal, LLONG_WIDTH);
    case RollbacksTotal => PrintIntWidth(m.rollbacksTotal, LLONG_WIDTH);
    case DatabaseSize => PrintIntWidth(m.databaseSize, LLONG_WIDTH);
    case LargestTableSize => PrintIntWidth(m.largestTableSize, LLONG_WIDTH);
    case IsPrimary => PrintIntWidth(if m.isPrimary != 0 then 1 else 0, 1);
    case DatabaseConnected => PrintIntWidth(if m.databaseConnected != 0 then 1 else 0, 1);
    case TotalConnections => PrintIntWidth(m.totalConnections, INT_WIDTH);
    case ActiveConnections => PrintIntWidth(m.activeConnections, INT_WIDTH);
    case IdleConnections => PrintIntWidth(m.idleConnections, INT_WIDTH);
    case IdleInTransaction => PrintIntWidth(m.idleInTransaction, INT_WIDTH);
    case SlowQueriesCount => PrintIntWidth(m.slowQueriesCount, INT_WIDTH);
    case ActiveLocks => PrintIntWidth(m.activeLocks, INT_WIDTH);
    case WaitingLocks => PrintIntWidth(m.waitingLocks, INT_WIDTH);
    case DeadlocksTotal => PrintIntWidth(m.deadlocksTotal, INT_WIDTH);
  }
}
