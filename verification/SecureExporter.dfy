/**
  The guarded printer into a scratch buffer (export_metrics_prometheus_secure.c) and the HTTP
  handler that calls it (main_optimized.c). `calloc`, `malloc` and `snprintf` may fail; which
  calls do is a parameter.
 */
module SecureExporter {
  import opened Wrappers
  import opened CStrings
  import opened Decimals
  import opened TextFormat
  import opened MetricsRecord
  import opened Exposition

  /** The C library calls that fail: the allocation, and the appends by ordinal. */
  datatype Faults = Faults(calloc: bool, snprintf: set<nat>)

  /** The scratch buffer of one export: `metrics_buffer`, `offset` and the frees done on it. */
  class Scratch {
    const data: array<char>
    const failing: set<nat>
    var offset: nat
    var appends: nat
    var frees: nat

    ghost predicate Valid()
      reads this, data
    {
      && offset < data.Length && data[offset] == NUL && frees == 0
      && forall k <- failing :: k >= appends
    }

    ghost function Contents(): string
      requires offset <= data.Length
      reads this, data
    {
      data[..offset]
    }

    /** `calloc(1, size)` */
    constructor (size: nat, failing: set<nat>)
      requires size > 0
      ensures Valid() && fresh(data) && data.Length == size
      ensures Contents() == "" && appends == 0 && this.failing == failing
    {
      data := new char[size](_ => NUL);
      this.failing := failing;
      offset, appends, frees := 0, 0, 0;
    }

    method Free()
      requires frees == 0
      modifies this`frees
      ensures frees == 1
    {
      frees := frees + 1;
    }

    /** The `SAFE_APPEND` macro; its early return is the failing outcome. */
    method Append(text: string) returns (r: Outcome)
      requires Valid()
      modifies this, data
      ensures r.Pass? <==> old(appends) !in failing && old(offset) + |text| < data.Length
      ensures r.Pass? ==> Valid() && Contents() == old(Contents()) + text && appends == old(appends) + 1
      ensures r.Fail? ==> frees == 1 && r.code == if old(appends) in failing then -5 else -6
    {
      if appends in failing {
        Free();
        return Fail(-5);
      }
      var written := Snprintf(data, offset, text);
      if offset + written >= data.Length {
        Free();
        return Fail(-6);
      }
      offset := offset + written;
      appends := appends + 1;
      return Pass;
    }
  }

  // ----- sections of the text

  /** The line of a field, when its guard passes. */
  function LineOf(m: Metrics, tenant: string, f: Field): string {
    if Passes(m, f) then RenderLine(SampleOf(m, tenant, f)) + "\n" else ""
  }

  function CountOf(m: Metrics, f: Field): nat { if Passes(m, f) then 1 else 0 }

  /** The lines of a section, and how many there are. */
  function SectionText(m: Metrics, tenant: string, fields: seq<Field>): string { Render(Samples(m, tenant, fields)) }

  function SectionCount(m: Metrics, tenant: string, fields: seq<Field>): nat { |Samples(m, tenant, fields)| }

  /** One of the next `count` appends is bound to fail. */
  ghost predicate FailsWithin(failing: set<nat>, count: nat) {
    exists k <- failing :: k < count
  }

  /** The exporter has stopped because an append failed, and has freed its buffer. */
  ghost predicate Stopped(scratch: Scratch, count: nat, r: Outcome)
    reads scratch
  {
    r == Fail(-5) && scratch.frees == 1 && FailsWithin(scratch.failing, count)
  }

  lemma SectionSnoc(m: Metrics, tenant: string, fields: seq<Field>, f: Field)
    ensures SectionText(m, tenant, fields + [f]) == SectionText(m, tenant, fields) + LineOf(m, tenant, f)
    ensures SectionCount(m, tenant, fields + [f]) == SectionCount(m, tenant, fields) + CountOf(m, f)
  {
    SamplesConcat(m, tenant, fields, [f]);
    SamplesOfOne(m, tenant, f);
    RenderConcat(Samples(m, tenant, fields), Contribution(m, tenant, f));
    RenderOne(SampleOf(m, tenant, f));
  }

  lemma SamplesOfOne(m: Metrics, tenant: string, f: Field)
    ensures Samples(m, tenant, [f]) == Contribution(m, tenant, f)
  {
    assert [f][1..] == [];
    assert Samples(m, tenant, [f]) == Contribution(m, tenant, f) + Samples(m, tenant, []);
  }

  lemma SectionOfOne(m: Metrics, tenant: string, f: Field)
    ensures SectionText(m, tenant, [f]) == LineOf(m, tenant, f) && SectionCount(m, tenant, [f]) == CountOf(m, f)
  {
    hide LineOf, CountOf;
    SectionSnoc(m, tenant, [], f);
    assert [] + [f] == [f];
    assert SectionText(m, tenant, []) == "" && SectionCount(m, tenant, []) == 0;
  }

  lemma SectionOfTwo(m: Metrics, tenant: string, f: Field, g: Field)
    ensures SectionText(m, tenant, [f, g]) == LineOf(m, tenant, f) + LineOf(m, tenant, g)
    ensures SectionCount(m, tenant, [f, g]) == CountOf(m, f) + CountOf(m, g)
  {
    hide SectionText, SectionCount, LineOf, CountOf;
    SectionOfOne(m, tenant, f);
    SectionSnoc(m, tenant, [f], g);
    assert [f] + [g] == [f, g];
  }

  lemma SectionOfThree(m: Metrics, tenant: string, f: Field, g: Field, h: Field)
    ensures SectionText(m, tenant, [f, g, h]) == LineOf(m, tenant, f) + LineOf(m, tenant, g) + LineOf(m, tenant, h)
    ensures SectionCount(m, tenant, [f, g, h]) == CountOf(m, f) + CountOf(m, g) + CountOf(m, h)
  {
    hide SectionText, SectionCount, LineOf, CountOf;
    SectionOfTwo(m, tenant, f, g);
    SectionSnoc(m, tenant, [f, g], h);
    assert [f, g] + [h] == [f, g, h];
  }

  lemma SectionOfFour(m: Metrics, tenant: string, f: Field, g: Field, h: Field, i: Field)
    ensures SectionText(m, tenant, [f, g, h, i])
         == LineOf(m, tenant, f) + LineOf(m, tenant, g) + LineOf(m, tenant, h) + LineOf(m, tenant, i)
    ensures SectionCount(m, tenant, [f, g, h, i]) == CountOf(m, f) + CountOf(m, g) + CountOf(m, h) + CountOf(m, i)
  {
    hide SectionText, SectionCount, LineOf, CountOf;
    SectionOfThree(m, tenant, f, g, h);
    SectionSnoc(m, tenant, [f, g, h], i);
    assert [f, g, h] + [i] == [f, g, h, i];
  }

  // ----- the appends

  /** A guarded `SAFE_APPEND` of the sample line of field `f`. */
  method StepSample(scratch: Scratch, ghost m: Metrics, ghost f: Field,
                    guard: bool, name: string, tenant: string, value: Numeral) returns (r: Outcome)
    requires scratch.Valid() && scratch.offset + |LineOf(m, tenant, f)| < scratch.data.Length
    requires guard == Passes(m, f)
    requires guard ==> name == Name(f) && value == Shown(m, f)
    modifies scratch, scratch.data
    ensures r.Pass? ==> scratch.Valid() && scratch.Contents() == old(scratch.Contents()) + LineOf(m, tenant, f)
    ensures r.Pass? ==> scratch.appends == old(scratch.appends) + CountOf(m, f)
    ensures r.Fail? ==> Stopped(scratch, old(scratch.appends) + CountOf(m, f), r)
  {
    if guard {
      r := scratch.Append(RenderLine(TenantSample(name, tenant, value)) + "\n");
    } else {
      r := Pass;
    }
  }

  method WriteConnections(scratch: Scratch, m: Metrics, tenant: string) returns (r: Outcome)
    requires scratch.Valid()
    requires scratch.offset + |SectionText(m, tenant, CONNECTIONS)| < scratch.data.Length
    modifies scratch, scratch.data
    ensures r.Pass? ==>
      scratch.Valid() && scratch.Contents() == old(scratch.Contents()) + SectionText(m, tenant, CONNECTIONS)
    ensures r.Pass? ==> scratch.appends == old(scratch.appends) + SectionCount(m, tenant, CONNECTIONS)
    ensures r.Fail? ==> Stopped(scratch, old(scratch.appends) + SectionCount(m, tenant, CONNECTIONS), r)
  {
    SectionOfFour(m, tenant, TotalConnections, ActiveConnections, IdleConnections, IdleInTransaction);
    hide SectionText, SectionCount, LineOf, CountOf, IntNumeral, DoubleNumeral;
    :- StepSample(scratch, m, TotalConnections, m.totalConnections >= 0,
                  PREFIX + "total_connections", tenant, IntNumeral(m.totalConnections));
    :- StepSample(scratch, m, ActiveConnections, m.activeConnections >= 0,
                  PREFIX + "active_connections", tenant, IntNumeral(m.activeConnections));
    :- StepSample(scratch, m, IdleConnections, m.idleConnections >= 0,
                  PREFIX + "idle_connections", tenant, IntNumeral(m.idleConnections));
    :- StepSample(scratch, m, IdleInTransaction, m.idleInTransaction >= 0,
                  PREFIX + "idle_in_transaction", tenant, IntNumeral(m.idleInTransaction));
    r := Pass;
  }

  method WriteQueries(scratch: Scratch, m: Metrics, tenant: string) returns (r: Outcome)
    requires scratch.Valid()
    requires scratch.offset + |SectionText(m, tenant, QUERIES)| < scratch.data.Length
    modifies scratch, scratch.data
    ensures r.Pass? ==>
      scratch.Valid() && scratch.Contents() == old(scratch.Contents()) + SectionText(m, tenant, QUERIES)
    ensures r.Pass? ==> scratch.appends == old(scratch.appends) + SectionCount(m, tenant, QUERIES)
    ensures r.Fail? ==> Stopped(scratch, old(scratch.appends) + SectionCount(m, tenant, QUERIES), r)
  {
    SectionOfThree(m, tenant, SlowQueriesCount, AvgQueryTime, MaxQueryTime);
    hide SectionText, SectionCount, LineOf, CountOf, IntNumeral, DoubleNumeral;
    :- StepSample(scratch, m, SlowQueriesCount, m.slowQueriesCount >= 0,
                  PREFIX + "slow_queries_count", tenant, IntNumeral(m.slowQueriesCount));
    :- StepSample(scratch, m, AvgQueryTime, m.avgQueryTime.AtLeastZero(),
                  PREFIX + "avg_query_time_ms", tenant, DoubleNumeral(m.avgQueryTime, 2));
    :- StepSample(scratch, m, MaxQueryTime, m.maxQueryTime.AtLeastZero(),
                  PREFIX + "max_query_time_ms", tenant, DoubleNumeral(m.maxQueryTime, 2));
    r := Pass;
  }

  method WriteTransactions(scratch: Scratch, m: Metrics, tenant: string) returns (r: Outcome)
    requires scratch.Valid()
    requires scratch.offset + |SectionText(m, tenant, TRANSACTIONS)| < scratch.data.Length
    modifies scratch, scratch.data
    ensures r.Pass? ==>
      scratch.Valid() && scratch.Contents() == old(scratch.Contents()) + SectionText(m, tenant, TRANSACTIONS)
    ensures r.Pass? ==> scratch.appends == old(scratch.appends) + SectionCount(m, tenant, TRANSACTIONS)
    ensures r.Fail? ==> Stopped(scratch, old(scratch.appends) + SectionCount(m, tenant, TRANSACTIONS), r)
  {
    SectionOfTwo(m, tenant, CommitsTotal, RollbacksTotal);
    hide SectionText, SectionCount, LineOf, CountOf, IntNumeral, DoubleNumeral;
    :- StepSample(scratch, m, CommitsTotal, m.commitsTotal >= 0,
                  PREFIX + "commits_total", tenant, IntNumeral(m.commitsTotal));
    :- StepSample(scratch, m, RollbacksTotal, m.rollbacksTotal >= 0,
                  PREFIX + "rollbacks_total", tenant, IntNumeral(m.rollbacksTotal));
    r := Pass;
  }

  method WriteSizes(scratch: Scratch, m: Metrics, tenant: string) returns (r: Outcome)
    requires scratch.Valid()
    requires scratch.offset + |SectionText(m, tenant, SIZES)| < scratch.data.Length
    modifies scratch, scratch.data
    ensures r.Pass? ==>
      scratch.Valid() && scratch.Contents() == old(scratch.Contents()) + SectionText(m, tenant, SIZES)
    ensures r.Pass? ==> scratch.appends == old(scratch.appends) + SectionCount(m, tenant, SIZES)
    ensures r.Fail? ==> Stopped(scratch, old(scratch.appends) + SectionCount(m, tenant, SIZES), r)
  {
    SectionOfTwo(m, tenant, DatabaseSize, LargestTableSize);
    hide SectionText, SectionCount, LineOf, CountOf, IntNumeral, DoubleNumeral;
    :- StepSample(scratch, m, DatabaseSize, m.databaseSize >= 0,
                  PREFIX + "database_size_bytes", tenant, IntNumeral(m.databaseSize));
    :- StepSample(scratch, m, LargestTableSize, m.largestTableSize >= 0,
                  PREFIX + "largest_table_size_bytes", tenant, IntNumeral(m.largestTableSize));
    r := Pass;
  }

  method WriteLocks(scratch: Scratch, m: Metrics, tenant: string) returns (r: Outcome)
    requires scratch.Valid()
    requires scratch.offset + |SectionText(m, tenant, LOCKS)| < scratch.data.Length
    modifies scratch, scratch.data
    ensures r.Pass? ==>
      scratch.Valid() && scratch.Contents() == old(scratch.Contents()) + SectionText(m, tenant, LOCKS)
    ensures r.Pass? ==> scratch.appends == old(scratch.appends) + SectionCount(m, tenant, LOCKS)
    ensures r.Fail? ==> Stopped(scratch, old(scratch.appends) + SectionCount(m, tenant, LOCKS), r)
  {
    SectionOfThree(m, tenant, ActiveLocks, WaitingLocks, DeadlocksTotal);
    hide SectionText, SectionCount, LineOf, CountOf, IntNumeral, DoubleNumeral;
    :- StepSample(scratch, m, ActiveLocks, m.activeLocks >= 0,
                  PREFIX + "active_locks", tenant, IntNumeral(m.activeLocks));
    :- StepSample(scratch, m, WaitingLocks, m.waitingLocks >= 0,
                  PREFIX + "waiting_locks", tenant, IntNumeral(m.waitingLocks));
    :- StepSample(scratch, m, DeadlocksTotal, m.deadlocksTotal >= 0,
                  PREFIX + "deadlocks_total", tenant, IntNumeral(m.deadlocksTotal));
    r := Pass;
  }

  method WriteReplication(scratch: Scratch, m: Metrics, tenant: string) returns (r: Outcome)
    requires scratch.Valid()
    requires scratch.offset + |SectionText(m, tenant, REPLICATION)| < scratch.data.Length
    modifies scratch, scratch.data
    ensures r.Pass? ==>
      scratch.Valid() && scratch.Contents() == old(scratch.Contents()) + SectionText(m, tenant, REPLICATION)
    ensures r.Pass? ==> scratch.appends == old(scratch.appends) + SectionCount(m, tenant, REPLICATION)
    ensures r.Fail? ==> Stopped(scratch, old(scratch.appends) + SectionCount(m, tenant, REPLICATION), r)
  {
    SectionOfThree(m, tenant, IsPrimary, ReplicationLagBytes, ReplicationLagSeconds);
    hide SectionText, SectionCount, LineOf, CountOf, IntNumeral, DoubleNumeral;
    :- StepSample(scratch, m, IsPrimary, true,
                  PREFIX + "is_primary", tenant, IntNumeral(if m.isPrimary != 0 then 1 else 0));
    :- StepSample(scratch, m, ReplicationLagBytes, m.replicationLagBytes.AtLeastZero(),
                  PREFIX + "replication_lag_bytes", tenant, DoubleNumeral(m.replicationLagBytes, 0));
    :- StepSample(scratch, m, ReplicationLagSeconds, m.replicationLagSeconds.AtLeastZero(),
                  PREFIX + "replication_lag_seconds", tenant, DoubleNumeral(m.replicationLagSeconds, 2));
    r := Pass;
  }

  method WriteCache(scratch: Scratch, m: Metrics, tenant: string) returns (r: Outcome)
    requires scratch.Valid()
    requires scratch.offset + |SectionText(m, tenant, CACHE)| < scratch.data.Length
    modifies scratch, scratch.data
    ensures r.Pass? ==>
      scratch.Valid() && scratch.Contents() == old(scratch.Contents()) + SectionText(m, tenant, CACHE)
    ensures r.Pass? ==> scratch.appends == old(scratch.appends) + SectionCount(m, tenant, CACHE)
    ensures r.Fail? ==> Stopped(scratch, old(scratch.appends) + SectionCount(m, tenant, CACHE), r)
  {
    SectionOfTwo(m, tenant, CacheHitRatio, IndexHitRatio);
    hide SectionText, SectionCount, LineOf, CountOf, IntNumeral, DoubleNumeral;
    :- StepSample(scratch, m, CacheHitRatio, m.cacheHitRatio.AtLeastZero() && m.cacheHitRatio.AtMostHundred(),
                  PREFIX + "cache_hit_ratio", tenant, DoubleNumeral(m.cacheHitRatio, 2));
    :- StepSample(scratch, m, IndexHitRatio, m.indexHitRatio.AtLeastZero() && m.indexHitRatio.AtMostHundred(),
                  PREFIX + "index_hit_ratio", tenant, DoubleNumeral(m.indexHitRatio, 2));
    r := Pass;
  }

  method WriteStatus(scratch: Scratch, m: Metrics, tenant: string) returns (r: Outcome)
    requires scratch.Valid()
    requires scratch.offset + |SectionText(m, tenant, STATUS)| < scratch.data.Length
    modifies scratch, scratch.data
    ensures r.Pass? ==>
      scratch.Valid() && scratch.Contents() == old(scratch.Contents()) + SectionText(m, tenant, STATUS)
    ensures r.Pass? ==> scratch.appends == old(scratch.appends) + SectionCount(m, tenant, STATUS)
    ensures r.Fail? ==> Stopped(scratch, old(scratch.appends) + SectionCount(m, tenant, STATUS), r)
  {
    SectionOfTwo(m, tenant, DatabaseConnected, LastUpdate);
    hide SectionText, SectionCount, LineOf, CountOf, IntNumeral, DoubleNumeral;
    :- StepSample(scratch, m, DatabaseConnected, true,
                  PREFIX + "database_connected", tenant, IntNumeral(if m.databaseConnected != 0 then 1 else 0));
    :- StepSample(scratch, m, LastUpdate, true,
                  PREFIX + "last_update", tenant, IntNumeral(m.lastUpdate));
    r := Pass;
  }

  method WriteHeader(scratch: Scratch) returns (r: Outcome)
    requires scratch.Valid() && scratch.Contents() == "" && scratch.appends == 0
    requires |Header()| < scratch.data.Length
    modifies scratch, scratch.data
    ensures r.Pass? ==> scratch.Valid() && scratch.Contents() == Header() && scratch.appends == 2
    ensures r.Fail? ==> Stopped(scratch, 2, r)
  {
    r := scratch.Append(HELP_LINE + "\n");
    if r.Pass? {
      r := scratch.Append(TYPE_LINE + "\n");
    }
  }

  /** The text, section by section. */
  lemma TextBySections(m: Metrics, tenant: string)
    ensures Text(m, tenant) == Header() + SectionText(m, tenant, CONNECTIONS) + SectionText(m, tenant, QUERIES)
      + SectionText(m, tenant, TRANSACTIONS) + SectionText(m, tenant, SIZES) + SectionText(m, tenant, LOCKS)
      + SectionText(m, tenant, REPLICATION) + SectionText(m, tenant, CACHE) + SectionText(m, tenant, STATUS)
    ensures |AllSamples(m, tenant)| == SectionCount(m, tenant, CONNECTIONS) + SectionCount(m, tenant, QUERIES)
      + SectionCount(m, tenant, TRANSACTIONS) + SectionCount(m, tenant, SIZES) + SectionCount(m, tenant, LOCKS)
      + SectionCount(m, tenant, REPLICATION) + SectionCount(m, tenant, CACHE) + SectionCount(m, tenant, STATUS)
  {
    EightSections(m, tenant, CONNECTIONS, QUERIES, TRANSACTIONS, SIZES, LOCKS, REPLICATION, CACHE, STATUS);
    assert Text(m, tenant) == Header() + SectionText(m, tenant, ORDER);
    hide SectionText, SectionCount, Header, Text;
    Regroup(Header(), SectionText(m, tenant, CONNECTIONS), SectionText(m, tenant, QUERIES),
            SectionText(m, tenant, TRANSACTIONS), SectionText(m, tenant, SIZES), SectionText(m, tenant, LOCKS),
            SectionText(m, tenant, REPLICATION), SectionText(m, tenant, CACHE), SectionText(m, tenant, STATUS));
  }

  lemma Regroup(o: string, a: string, b: string, c: string, d: string, e: string, f: string, g: string, h: string)
    ensures o + (a + b + c + d + e + f + g + h) == o + a + b + c + d + e + f + g + h
  {
    assert o + (a + b + c + d) == o + a + b + c + d;
    var x := a + b + c + d;
    assert o + (x + e + f + g + h) == o + x + e + f + g + h;
  }

  lemma EightSections(m: Metrics, tenant: string, a: seq<Field>, b: seq<Field>, c: seq<Field>, d: seq<Field>,
                      e: seq<Field>, f: seq<Field>, g: seq<Field>, h: seq<Field>)
    ensures SectionText(m, tenant, a + b + c + d + e + f + g + h)
         == SectionText(m, tenant, a) + SectionText(m, tenant, b) + SectionText(m, tenant, c)
          + SectionText(m, tenant, d) + SectionText(m, tenant, e) + SectionText(m, tenant, f)
          + SectionText(m, tenant, g) + SectionText(m, tenant, h)
    ensures SectionCount(m, tenant, a + b + c + d + e + f + g + h)
         == SectionCount(m, tenant, a) + SectionCount(m, tenant, b) + SectionCount(m, tenant, c)
          + SectionCount(m, tenant, d) + SectionCount(m, tenant, e) + SectionCount(m, tenant, f)
          + SectionCount(m, tenant, g) + SectionCount(m, tenant, h)
  {
    hide SectionText, SectionCount;
    JoinSections(m, tenant, a, b);
    JoinSections(m, tenant, a + b, c);
    JoinSections(m, tenant, a + b + c, d);
    JoinSections(m, tenant, a + b + c + d, e);
    JoinSections(m, tenant, a + b + c + d + e, f);
    JoinSections(m, tenant, a + b + c + d + e + f, g);
    JoinSections(m, tenant, a + b + c + d + e + f + g, h);
  }

  lemma JoinSections(m: Metrics, tenant: string, a: seq<Field>, b: seq<Field>)
    ensures SectionText(m, tenant, a + b) == SectionText(m, tenant, a) + SectionText(m, tenant, b)
    ensures SectionCount(m, tenant, a + b) == SectionCount(m, tenant, a) + SectionCount(m, tenant, b)
  {
    SamplesConcat(m, tenant, a, b);
    RenderConcat(Samples(m, tenant, a), Samples(m, tenant, b));
  }

  // ----- the exporter

  /** Checks every character of the tenant name, as `isalnum`, '_' or '-'. */
  method CheckTenant(tenant: string) returns (r: Outcome)
    ensures r.Pass? <==> ValidTenant(tenant)
    ensures r.Fail? ==> r.code == if |tenant| == 0 || |tenant| > 50 then -2 else -3
  {
    if |tenant| == 0 || |tenant| > 50 {
      return Fail(-2);
    }
    var i := 0;
    while i < |tenant|
      invariant i <= |tenant|
      invariant forall c <- tenant[..i] :: IsTenantChar(c)
    {
      assert tenant[i] in tenant && tenant[..i + 1] == tenant[..i] + [tenant[i]];
      if !('a' <= tenant[i] <= 'z' || 'A' <= tenant[i] <= 'Z' || '0' <= tenant[i] <= '9')
         && tenant[i] != '_' && tenant[i] != '-' {
        return Fail(-3);
      }
      i := i + 1;
    }
    assert tenant[..i] == tenant;
    return Pass;
  }

  /**
    `export_metrics_prometheus_format`. `output` is the caller's buffer, of which the first
    `outputSize` characters may be used. The scratch buffer is given back so that the caller can
    see how often it was freed.
   */
  method Export(metrics: Option<Metrics>, tenant: Option<string>, output: array?<char>, outputSize: nat,
                faults: Faults)
    returns (code: int, scratch: Scratch?)
    requires output != null ==> outputSize <= output.Length
    modifies output
    ensures code == -1 <==> metrics.None? || tenant.None? || output == null || outputSize == 0
    ensures code != -1 ==> (code == -2 <==> |tenant.value| == 0 || |tenant.value| > 50)
    ensures code !in {-1, -2} ==> (code == -3 <==> !forall c <- tenant.value :: IsTenantChar(c))
    ensures code !in {-1, -2, -3} ==> (code == -4 <==> faults.calloc)
    ensures code !in {-1, -2, -3, -4} ==>
      (code == -5 <==> exists k <- faults.snprintf :: k < 2 + |AllSamples(metrics.value, tenant.value)|)
    ensures code !in {-1, -2, -3, -4, -5} ==>
      code == if |Text(metrics.value, tenant.value)| >= outputSize then -7 else 0
    ensures code == 0 ==>
      var text := Text(metrics.value, tenant.value);
      output[..] == text + [NUL] + old(output[..])[|text| + 1..]
    ensures code != 0 && output != null ==> output[..] == old(output[..])
    ensures scratch != null ==> fresh(scratch) && scratch.frees == 1
    ensures scratch == null <==> code in {-1, -2, -3, -4}
  {
    if metrics.None? || tenant.None? || output == null || outputSize == 0 {
      return -1, null;
    }
    var check := CheckTenant(tenant.value);
    if check.Fail? {
      return check.code, null;
    }
    if faults.calloc {
      return -4, null;
    }
    ghost var text := Text(metrics.value, tenant.value);
    scratch := new Scratch(8192 + |tenant.value| * 25, faults.snprintf);
    var r := FillScratch(scratch, metrics.value, tenant.value);
    if r.Fail? {
      return r.code, scratch;
    }
    if scratch.offset >= outputSize {
      scratch.Free();
      return -7, scratch;
    }
    CopyOut(scratch, output);
    scratch.Free();
    code := 0;
  }

  /** All appends of one export, into an empty scratch buffer of the estimated size. */
  method FillScratch(scratch: Scratch, m: Metrics, tenant: string) returns (r: Outcome)
    requires scratch.Valid() && scratch.Contents() == "" && scratch.appends == 0
    requires ValidTenant(tenant) && scratch.data.Length == 8192 + |tenant| * 25
    modifies scratch, scratch.data
    ensures r.Pass? <==> forall k <- scratch.failing :: k >= 2 + |AllSamples(m, tenant)|
    ensures r.Pass? ==> scratch.Valid() && scratch.Contents() == Text(m, tenant)
    ensures r.Fail? ==> r.code == -5 && scratch.frees == 1
  {
    hide Text, Header, AllSamples, SectionText, SectionCount;
    TextBySections(m, tenant);
    EstimateSuffices(m, tenant);
    :- WriteHeader(scratch);
    :- WriteConnections(scratch, m, tenant);
    :- WriteQueries(scratch, m, tenant);
    :- WriteTransactions(scratch, m, tenant);
    :- WriteSizes(scratch, m, tenant);
    :- WriteLocks(scratch, m, tenant);
    :- WriteReplication(scratch, m, tenant);
    :- WriteCache(scratch, m, tenant);
    :- WriteStatus(scratch, m, tenant);
    r := Pass;
  }

  /** `memcpy(output, metrics_buffer, offset); output[offset] = '\0'` */
  method CopyOut(scratch: Scratch, output: array<char>)
    requires scratch.Valid() && scratch.offset < output.Length && output != scratch.data
    modifies output
    ensures output[..] == scratch.Contents() + [NUL] + old(output[..])[scratch.offset + 1..]
  {
    forall i | 0 <= i < scratch.offset {
      output[i] := scratch.data[i];
    }
    output[scratch.offset] := NUL;
  }

  lemma EstimateSuffices(m: Metrics, tenant: string)
    requires |tenant| <= 50
    ensures |Text(m, tenant)| < 8192 + |tenant| * 25
    ensures |Text(m, tenant)| < 4096 + |tenant| * 20
  {
    TextWidth(m, tenant);
  }

  // ----- the HTTP handler

  /** What the handler queues: a 200 response with this body, or nothing (`MHD_NO`). */
  type Response = Option<string>

  lemma HeaderHasNoNul()
    ensures NUL !in Header()
  {
    assert forall i :: 0 <= i < |HELP_LINE| ==> HELP_LINE[i] != NUL;
    assert forall i :: 0 <= i < |TYPE_LINE| ==> TYPE_LINE[i] != NUL;
  }

  lemma TextHasNoNul(m: Metrics, tenant: string)
    requires ValidTenant(tenant)
    ensures NUL !in Text(m, tenant)
  {
    SamplesReadable(m, tenant, ORDER);
    RenderHasNoNul(AllSamples(m, tenant));
    HeaderHasNoNul();
  }

  /**
    `handle_metrics_request` after the cache has given its record: sizes the buffer from the
    tenant alone, exports into it and serves the C string found there. The two "buffer too small"
    statuses of the exporter cannot come back.
   */
  method HandleMetricsRequest(isGet: bool, env: Option<string>, metrics: Metrics, mallocFails: bool, faults: Faults)
    returns (response: Response, code: int)
    ensures code !in {-1, -6, -7}
    ensures var tenant := if env.None? then "default" else env.value;
      response == if isGet && !mallocFails && ValidTenant(tenant) && !faults.calloc
                     && (forall k <- faults.snprintf :: k >= 2 + |AllSamples(metrics, tenant)|)
                  then Some(Text(metrics, tenant)) else None
  {
    hide Text, AllSamples;
    code := 0;
    if !isGet {
      return None, code;
    }
    var tenant := if env.None? then "default" else env.value;
    var size := 4096 + |tenant| * 20;
    if mallocFails {
      return None, code;
    }
    var buffer := new char[size];
    var scratch;
    code, scratch := Export(Some(metrics), Some(tenant), buffer, size, faults);
    if ValidTenant(tenant) {
      EstimateSuffices(metrics, tenant);
    }
    if code != 0 {
      return None, code;
    }
    TextHasNoNul(metrics, tenant);
    StrlenOf(buffer[..], Text(metrics, tenant));
    var length := Strlen(buffer[..]);
    response := Some(buffer[..length]);
  }
}
