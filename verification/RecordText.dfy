/**
  What a scraper must find in the text of a record, written out field by field: name, guard and
  number of each sample, for the two exporters.
 */
module RecordText {
  import opened Wrappers
  import opened Decimals
  import opened TextFormat
  import opened MetricsRecord
  import opened Exposition

  /** One sample, if it is given at all. */
  function Given(passes: bool, name: string, tenant: string, value: Numeral): seq<Sample> {
    if passes then [Sample(name, "tenant", tenant, value)] else []
  }

  /** A double that is zero or more, infinity included. */
  predicate NotNegative(d: Double) {
    (d.Infinite? && !d.negative) || (d.Finite? && (!d.negative || d.magnitude == 0.0))
  }

  /** A double from 0 to 100. */
  predicate IsPercentage(d: Double) { d.Finite? && (d.magnitude == 0.0 || (!d.negative && d.magnitude <= 100.0)) }

  function AsFlag(x: int): int { if x != 0 then 1 else 0 }

  /** The samples of the newer exporter, which checks its fields, or of the older one, which does not. */
  function Expected(m: Metrics, tenant: string, checked: bool): seq<Sample> {
    ExpectedConnections(m, tenant, checked) + ExpectedQueries(m, tenant, checked)
    + ExpectedTransactions(m, tenant, checked) + ExpectedSizes(m, tenant, checked)
    + ExpectedLocks(m, tenant, checked) + ExpectedReplication(m, tenant, checked)
    + ExpectedCache(m, tenant, checked) + ExpectedStatus(m, tenant, checked)
  }

  function ExpectedConnections(m: Metrics, tenant: string, checked: bool): seq<Sample> {
    Given(checked ==> m.totalConnections >= 0, "pganalytics_total_connections", tenant, IntNumeral(m.totalConnections))
    + Given(checked ==> m.activeConnections >= 0, "pganalytics_active_connections", tenant,
            IntNumeral(m.activeConnections))
    + Given(checked ==> m.idleConnections >= 0, "pganalytics_idle_connections", tenant, IntNumeral(m.idleConnections))
    + Given(checked ==> m.idleInTransaction >= 0, "pganalytics_idle_in_transaction", tenant,
            IntNumeral(m.idleInTransaction))
  }

  function ExpectedQueries(m: Metrics, tenant: string, checked: bool): seq<Sample> {
    Given(checked ==> m.slowQueriesCount >= 0, "pganalytics_slow_queries_count", tenant, IntNumeral(m.slowQueriesCount))
    + Given(checked ==> NotNegative(m.avgQueryTime), "pganalytics_avg_query_time_ms", tenant,
            DoubleNumeral(m.avgQueryTime, 2))
    + Given(checked ==> NotNegative(m.maxQueryTime), "pganalytics_max_query_time_ms", tenant,
            DoubleNumeral(m.maxQueryTime, 2))
  }

  function ExpectedTransactions(m: Metrics, tenant: string, checked: bool): seq<Sample> {
    Given(checked ==> m.commitsTotal >= 0, "pganalytics_commits_total", tenant, IntNumeral(m.commitsTotal))
    + Given(checked ==> m.rollbacksTotal >= 0, "pganalytics_rollbacks_total", tenant, IntNumeral(m.rollbacksTotal))
  }

  function ExpectedSizes(m: Metrics, tenant: string, checked: bool): seq<Sample> {
    Given(checked ==> m.databaseSize >= 0, "pganalytics_database_size_bytes", tenant, IntNumeral(m.databaseSize))
    + Given(checked ==> m.largestTableSize >= 0, "pganalytics_largest_table_size_bytes", tenant,
            IntNumeral(m.largestTableSize))
  }

  function ExpectedLocks(m: Metrics, tenant: string, checked: bool): seq<Sample> {
    Given(checked ==> m.activeLocks >= 0, "pganalytics_active_locks", tenant, IntNumeral(m.activeLocks))
    + Given(checked ==> m.waitingLocks >= 0, "pganalytics_waiting_locks", tenant, IntNumeral(m.waitingLocks))
    + Given(checked ==> m.deadlocksTotal >= 0, "pganalytics_deadlocks_total", tenant, IntNumeral(m.deadlocksTotal))
  }

  function ExpectedReplication(m: Metrics, tenant: string, checked: bool): seq<Sample> {
    Given(true, "pganalytics_is_primary", tenant, IntNumeral(if checked then AsFlag(m.isPrimary) else m.isPrimary))
    + Given(checked ==> NotNegative(m.replicationLagBytes), "pganalytics_replication_lag_bytes", tenant,
            DoubleNumeral(m.replicationLagBytes, 0))
    + Given(checked ==> NotNegative(m.replicationLagSeconds), "pganalytics_replication_lag_seconds", tenant,
            DoubleNumeral(m.replicationLagSeconds, 2))
  }

  function ExpectedCache(m: Metrics, tenant: string, checked: bool): seq<Sample> {
    Given(checked ==> IsPercentage(m.cacheHitRatio), "pganalytics_cache_hit_ratio", tenant,
          DoubleNumeral(m.cacheHitRatio, 2))
    + Given(checked ==> IsPercentage(m.indexHitRatio), "pganalytics_index_hit_ratio", tenant,
            DoubleNumeral(m.indexHitRatio, 2))
  }

  function ExpectedStatus(m: Metrics, tenant: string, checked: bool): seq<Sample> {
    Given(true, "pganalytics_database_connected", tenant,
          IntNumeral(if checked then AsFlag(m.databaseConnected) else m.databaseConnected))
    + Given(true, "pganalytics_last_update", tenant, IntNumeral(m.lastUpdate))
  }

  // ----- the names

  lemma ConnectionNames()
    ensures Name(TotalConnections) == "pganalytics_total_connections"
    ensures Name(ActiveConnections) == "pganalytics_active_connections"
  {
  }

  lemma IdleNames()
    ensures Name(IdleConnections) == "pganalytics_idle_connections"
    ensures Name(IdleInTransaction) == "pganalytics_idle_in_transaction"
  {
  }

  lemma QueryNames()
    ensures Name(SlowQueriesCount) == "pganalytics_slow_queries_count"
    ensures Name(AvgQueryTime) == "pganalytics_avg_query_time_ms"
  {
  }

  lemma MaxQueryName()
    ensures Name(MaxQueryTime) == "pganalytics_max_query_time_ms"
  {
  }

  lemma TransactionNames()
    ensures Name(CommitsTotal) == "pganalytics_commits_total"
    ensures Name(RollbacksTotal) == "pganalytics_rollbacks_total"
  {
  }

  lemma SizeNames()
    ensures Name(DatabaseSize) == "pganalytics_database_size_bytes"
    ensures Name(LargestTableSize) == "pganalytics_largest_table_size_bytes"
  {
  }

  lemma LockNames()
    ensures Name(ActiveLocks) == "pganalytics_active_locks"
    ensures Name(WaitingLocks) == "pganalytics_waiting_locks"
    ensures Name(DeadlocksTotal) == "pganalytics_deadlocks_total"
  {
  }

  lemma ReplicationNames()
    ensures Name(IsPrimary) == "pganalytics_is_primary"
    ensures Name(ReplicationLagBytes) == "pganalytics_replication_lag_bytes"
    ensures Name(ReplicationLagSeconds) == "pganalytics_replication_lag_seconds"
  {
  }

  lemma CacheNames()
    ensures Name(CacheHitRatio) == "pganalytics_cache_hit_ratio"
    ensures Name(IndexHitRatio) == "pganalytics_index_hit_ratio"
  {
  }

  lemma StatusNames()
    ensures Name(DatabaseConnected) == "pganalytics_database_connected"
    ensures Name(LastUpdate) == "pganalytics_last_update"
  {
  }

  lemma TenantText()
    ensures TENANT == "tenant"
  {
  }

  // ----- one section after the other

  /** The two exporters' samples as one function. */
  function Written(m: Metrics, tenant: string, fields: seq<Field>, checked: bool): seq<Sample> {
    if checked then Samples(m, tenant, fields) else RawSamples(m, tenant, fields)
  }

  function WrittenOne(m: Metrics, tenant: string, f: Field, checked: bool): seq<Sample> {
    if checked then Contribution(m, tenant, f) else [TenantSample(Name(f), tenant, RawShown(m, f))]
  }

  lemma WrittenCons(m: Metrics, tenant: string, f: Field, rest: seq<Field>, checked: bool)
    ensures Written(m, tenant, [f] + rest, checked)
         == WrittenOne(m, tenant, f, checked) + Written(m, tenant, rest, checked)
    ensures Written(m, tenant, [], checked) == []
  {
    hide Contribution, RawShown, Name;
    assert ([f] + rest)[1..] == rest;
  }

  lemma WrittenTwo(m: Metrics, tenant: string, f: Field, g: Field, checked: bool)
    ensures Written(m, tenant, [f, g], checked) == WrittenOne(m, tenant, f, checked) + WrittenOne(m, tenant, g, checked)
  {
    hide WrittenOne, Written;
    WrittenCons(m, tenant, f, [g], checked);
    WrittenCons(m, tenant, g, [], checked);
    assert [f] + [g] == [f, g] && [g] + [] == [g];
  }

  lemma WrittenThree(m: Metrics, tenant: string, f: Field, g: Field, h: Field, checked: bool)
    ensures Written(m, tenant, [f, g, h], checked) ==
      WrittenOne(m, tenant, f, checked) + WrittenOne(m, tenant, g, checked) + WrittenOne(m, tenant, h, checked)
  {
    hide WrittenOne, Written;
    WrittenCons(m, tenant, f, [g, h], checked);
    WrittenTwo(m, tenant, g, h, checked);
    assert [f] + [g, h] == [f, g, h];
  }

  lemma WrittenFour(m: Metrics, tenant: string, f: Field, g: Field, h: Field, i: Field, checked: bool)
    ensures Written(m, tenant, [f, g, h, i], checked)
         == WrittenOne(m, tenant, f, checked) + WrittenOne(m, tenant, g, checked)
          + WrittenOne(m, tenant, h, checked) + WrittenOne(m, tenant, i, checked)
  {
    hide WrittenOne, Written;
    WrittenCons(m, tenant, f, [g, h, i], checked);
    WrittenThree(m, tenant, g, h, i, checked);
    assert [f] + [g, h, i] == [f, g, h, i];
  }

  lemma {:induction false} WrittenConcat(m: Metrics, tenant: string, a: seq<Field>, b: seq<Field>, checked: bool)
    ensures Written(m, tenant, a + b, checked) == Written(m, tenant, a, checked) + Written(m, tenant, b, checked)
  {
    hide WrittenOne, Written;
    if a == [] {
      assert a + b == b;
      WrittenCons(m, tenant, TotalConnections, [], checked);
    } else {
      assert a == [a[0]] + a[1..] && a + b == [a[0]] + (a[1..] + b);
      WrittenCons(m, tenant, a[0], a[1..], checked);
      WrittenCons(m, tenant, a[0], a[1..] + b, checked);
      WrittenConcat(m, tenant, a[1..], b, checked);
    }
  }

  lemma ConnectionsWritten(m: Metrics, tenant: string, checked: bool)
    ensures Written(m, tenant, CONNECTIONS, checked) == ExpectedConnections(m, tenant, checked)
  {
    ConnectionNames();
    IdleNames();
    TenantText();
    hide Name, Written, IntNumeral;
    WrittenFour(m, tenant, TotalConnections, ActiveConnections, IdleConnections, IdleInTransaction, checked);
  }

  lemma QueriesWritten(m: Metrics, tenant: string, checked: bool)
    ensures Written(m, tenant, QUERIES, checked) == ExpectedQueries(m, tenant, checked)
  {
    QueryNames();
    MaxQueryName();
    TenantText();
    hide Name, Written, IntNumeral, DoubleNumeral;
    WrittenThree(m, tenant, SlowQueriesCount, AvgQueryTime, MaxQueryTime, checked);
  }

  lemma TransactionsWritten(m: Metrics, tenant: string, checked: bool)
    ensures Written(m, tenant, TRANSACTIONS, checked) == ExpectedTransactions(m, tenant, checked)
  {
    TransactionNames();
    TenantText();
    hide Name, Written, IntNumeral;
    WrittenTwo(m, tenant, CommitsTotal, RollbacksTotal, checked);
  }

  lemma SizesWritten(m: Metrics, tenant: string, checked: bool)
    ensures Written(m, tenant, SIZES, checked) == ExpectedSizes(m, tenant, checked)
  {
    SizeNames();
    TenantText();
    hide Name, Written, IntNumeral;
    WrittenTwo(m, tenant, DatabaseSize, LargestTableSize, checked);
  }

  lemma LocksWritten(m: Metrics, tenant: string, checked: bool)
    ensures Written(m, tenant, LOCKS, checked) == ExpectedLocks(m, tenant, checked)
  {
    LockNames();
    TenantText();
    hide Name, Written, IntNumeral;
    WrittenThree(m, tenant, ActiveLocks, WaitingLocks, DeadlocksTotal, checked);
  }

  lemma ReplicationWritten(m: Metrics, tenant: string, checked: bool)
    ensures Written(m, tenant, REPLICATION, checked) == ExpectedReplication(m, tenant, checked)
  {
    ReplicationNames();
    TenantText();
    hide Name, Written, IntNumeral, DoubleNumeral;
    WrittenThree(m, tenant, IsPrimary, ReplicationLagBytes, ReplicationLagSeconds, checked);
  }

  lemma CacheWritten(m: Metrics, tenant: string, checked: bool)
    ensures Written(m, tenant, CACHE, checked) == ExpectedCache(m, tenant, checked)
  {
    CacheNames();
    TenantText();
    hide Name, Written, DoubleNumeral;
    WrittenTwo(m, tenant, CacheHitRatio, IndexHitRatio, checked);
  }

  lemma StatusWritten(m: Metrics, tenant: string, checked: bool)
    ensures Written(m, tenant, STATUS, checked) == ExpectedStatus(m, tenant, checked)
  {
    StatusNames();
    TenantText();
    hide Name, Written, IntNumeral;
    WrittenTwo(m, tenant, DatabaseConnected, LastUpdate, checked);
  }

  lemma AllWritten(m: Metrics, tenant: string, checked: bool)
    ensures Written(m, tenant, ORDER, checked) == Expected(m, tenant, checked)
  {
    hide Written, ExpectedConnections, ExpectedQueries, ExpectedTransactions, ExpectedSizes, ExpectedLocks,
      ExpectedReplication, ExpectedCache, ExpectedStatus;
    var a := CONNECTIONS + QUERIES;
    WrittenConcat(m, tenant, CONNECTIONS, QUERIES, checked);
    WrittenConcat(m, tenant, a, TRANSACTIONS, checked);
    WrittenConcat(m, tenant, a + TRANSACTIONS, SIZES, checked);
    WrittenConcat(m, tenant, a + TRANSACTIONS + SIZES, LOCKS, checked);
    WrittenConcat(m, tenant, a + TRANSACTIONS + SIZES + LOCKS, REPLICATION, checked);
    WrittenConcat(m, tenant, a + TRANSACTIONS + SIZES + LOCKS + REPLICATION, CACHE, checked);
    WrittenConcat(m, tenant, a + TRANSACTIONS + SIZES + LOCKS + REPLICATION + CACHE, STATUS, checked);
    ConnectionsWritten(m, tenant, checked);
    QueriesWritten(m, tenant, checked);
    TransactionsWritten(m, tenant, checked);
    SizesWritten(m, tenant, checked);
    LocksWritten(m, tenant, checked);
    ReplicationWritten(m, tenant, checked);
    CacheWritten(m, tenant, checked);
    StatusWritten(m, tenant, checked);
  }

  // ----- what a scraper reads

  lemma HelpText()
    ensures HELP_LINE == "# HELP pganalytics PostgreSQL Analytics Metrics"
  {
  }

  lemma HeaderText()
    ensures Header() == "# HELP pganalytics PostgreSQL Analytics Metrics" + "\n"
                        + "# TYPE pganalytics_total_connections gauge" + "\n"
  {
    HelpText();
    AssociateLines(HELP_LINE, TYPE_LINE);
  }

  lemma AssociateLines(a: string, b: string)
    ensures a + "\n" + (b + "\n") == a + "\n" + b + "\n"
  {
  }

  lemma FixedHeaderText()
    ensures FIXED_LINE + "\n" == "# PostgreSQL Analytics - Enhanced Metrics\n"
  {
  }

  /**
    From the text of the newer exporter a scraper reads exactly the samples written out above, in
    that order: each field that passes its check, under its name, with its own number.
   */
  lemma TextShowsRecord(m: Metrics, tenant: string)
    requires ValidTenant(tenant)
    ensures Parse(Text(m, tenant)) == Some(Expected(m, tenant, true))
    ensures "# HELP pganalytics PostgreSQL Analytics Metrics" + "\n"
            + "# TYPE pganalytics_total_connections gauge" + "\n" <= Text(m, tenant)
  {
    hide Parse, Header, Expected, ValidTenant, Samples, Render;
    HeaderText();
    RoundTrip(m, tenant);
    AllWritten(m, tenant, true);
  }

  /** From the text of the older one it reads all 21 fields, whatever they hold. */
  lemma FixedTextShowsRecord(m: Metrics, tenant: string)
    requires ValidTenant(tenant)
    ensures Parse(FixedText(m, tenant)) == Some(Expected(m, tenant, false)) && |Expected(m, tenant, false)| == 21
    ensures "# PostgreSQL Analytics - Enhanced Metrics\n" <= FixedText(m, tenant)
  {
    hide Parse, Render, RawSamples, Expected;
    FixedHeaderText();
    AllWritten(m, tenant, false);
    FixedLineShape();
    CommentIgnored(FIXED_LINE, Render(RawSamples(m, tenant, ORDER)));
    RawSamplesReadable(m, tenant, ORDER);
    RawSamplesCount(m, tenant, ORDER);
    ParseRendered(RawSamples(m, tenant, ORDER));
  }

  lemma {:induction false} RawSamplesReadable(m: Metrics, tenant: string, fields: seq<Field>)
    requires ValidTenant(tenant)
    ensures Readable(RawSamples(m, tenant, fields))
  {
    if fields != [] {
      hide RawShown, Name, IsName;
      RawSamplesReadable(m, tenant, fields[1..]);
      NamesAreNames(fields[0]);
    }
  }

  lemma {:induction false} RawSamplesCount(m: Metrics, tenant: string, fields: seq<Field>)
    ensures |RawSamples(m, tenant, fields)| == |fields|
  {
    if fields != [] {
      hide RawShown, Name;
      RawSamplesCount(m, tenant, fields[1..]);
    }
  }
}
