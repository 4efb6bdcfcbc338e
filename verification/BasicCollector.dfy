/**
  The basic collector of monitoring/c-collector/main.c: a tenant's record is cleared and refilled
  only when its connection succeeds.
 */
module BasicCollector {
  import opened Wrappers
  import opened Decimals

  const MAX_TENANTS := 10

  datatype Record = Record(
    totalConnections: Int32,
    activeConnections: Int32,
    idleConnections: Int32,
    maxConnections: Int32,
    cacheHitRatio: Double,
    databaseSize: Int64,
    locksCount: Int32,
    tableSize: Int64,
    indexSize: Int64,
    walFiles: Int32,
    slowQueries: Int32,
    isConnected: bool)

  const ZERO: Double := Finite(false, 0.0)
  const CLEARED := Record(0, 0, 0, 0, ZERO, 0, 0, 0, 0, 0, 0, false)

  /** What each query of one collection brings; `None` when it fails or has no row. */
  datatype Answers = Answers(
    totalConnections: Option<Int32>,
    activeConnections: Option<Int32>,
    idleConnections: Option<Int32>,
    maxConnections: Option<Int32>,
    cacheHitRatio: Option<Double>,
    databaseSize: Option<Int64>,
    locksCount: Option<Int32>,
    tableSize: Option<Int64>,
    indexSize: Option<Int64>,
    walFiles: Option<Int32>,
    slowQueries: Option<Int32>)

  function OrElse<T>(value: Option<T>, default: T): T { if value.Some? then value.value else default }

  /** The record of a collection says nothing about earlier ones: failed queries leave zeros. */
  function Collected(a: Answers): Record {
    Record(OrElse(a.totalConnections, 0), OrElse(a.activeConnections, 0), OrElse(a.idleConnections, 0),
           OrElse(a.maxConnections, 0), OrElse(a.cacheHitRatio, ZERO), OrElse(a.databaseSize, 0),
           OrElse(a.locksCount, 0), OrElse(a.tableSize, 0), OrElse(a.indexSize, 0), OrElse(a.walFiles, 0),
           OrElse(a.slowQueries, 0), true)
  }

  class Collector {
    const metrics: array<Record>

    ghost predicate Valid() { metrics.Length == MAX_TENANTS }

    constructor ()
      ensures Valid() && fresh(metrics) && metrics[..] == seq(MAX_TENANTS, _ => CLEARED)
    {
      metrics := new Record[MAX_TENANTS](_ => CLEARED);
    }

    /** The queries for connection counts. */
    method ReadConnections(before: Record, a: Answers) returns (m: Record)
      ensures m == before.(totalConnections := OrElse(a.totalConnections, before.totalConnections),
                          activeConnections := OrElse(a.activeConnections, before.activeConnections),
                          idleConnections := OrElse(a.idleConnections, before.idleConnections),
                          maxConnections := OrElse(a.maxConnections, before.maxConnections))
    {
      m := before;
      if a.totalConnections.Some? {
        m := m.(totalConnections := a.totalConnections.value);
      }
      if a.activeConnections.Some? {
        m := m.(activeConnections := a.activeConnections.value);
      }
      if a.idleConnections.Some? {
        m := m.(idleConnections := a.idleConnections.value);
      }
      if a.maxConnections.Some? {
        m := m.(maxConnections := a.maxConnections.value);
      }
    }

    /** The queries for the hit ratio, the size and the locks. */
    method ReadDatabase(before: Record, a: Answers) returns (m: Record)
      ensures m == before.(cacheHitRatio := OrElse(a.cacheHitRatio, before.cacheHitRatio),
                          databaseSize := OrElse(a.databaseSize, before.databaseSize),
                          locksCount := OrElse(a.locksCount, before.locksCount))
    {
      m := before;
      if a.cacheHitRatio.Some? {
        m := m.(cacheHitRatio := a.cacheHitRatio.value);
      }
      if a.databaseSize.Some? {
        m := m.(databaseSize := a.databaseSize.value);
      }
      if a.locksCount.Some? {
        m := m.(locksCount := a.locksCount.value);
      }
    }

    /** The queries for sizes, WAL files and slow queries. */
    method ReadStorage(before: Record, a: Answers) returns (m: Record)
      ensures m == before.(tableSize := OrElse(a.tableSize, before.tableSize),
                          indexSize := OrElse(a.indexSize, before.indexSize),
                          walFiles := OrElse(a.walFiles, before.walFiles),
                          slowQueries := OrElse(a.slowQueries, before.slowQueries))
    {
      m := before;
      if a.tableSize.Some? {
        m := m.(tableSize := a.tableSize.value);
      }
      if a.indexSize.Some? {
        m := m.(indexSize := a.indexSize.value);
      }
      if a.walFiles.Some? {
        m := m.(walFiles := a.walFiles.value);
      }
      if a.slowQueries.Some? {
        m := m.(slowQueries := a.slowQueries.value);
      }
    }

    /**
      `collect_basic_metrics` on a connection whose status is still OK. The caller holds the lock,
      so the field updates are seen only together.
     */
    method CollectBasic(i: nat, a: Answers)
      requires Valid() && i < MAX_TENANTS
      modifies metrics
      ensures metrics[..] == old(metrics[..])[i := Collected(a)]
    {
      metrics[i] := CLEARED;
      metrics[i] := metrics[i].(isConnected := true);
      var m := ReadConnections(metrics[i], a);
      m := ReadDatabase(m, a);
      m := ReadStorage(m, a);
      metrics[i] := m;
    }

    /** One tenant's turn in the loop of `metrics_collector`. */
    method Attempt(e: Event)
      requires Valid()
      modifies metrics
      ensures metrics[..] == After(old(metrics[..]), e)
    {
      if e.answers.Some? && e.tenant < MAX_TENANTS {
        CollectBasic(e.tenant, e.answers.value);
      }
    }
  }

  // ----- runs

  /** A connection attempt for a tenant; with its answers when it succeeds. */
  datatype Event = Event(tenant: nat, answers: Option<Answers>)

  function After(records: seq<Record>, e: Event): (r: seq<Record>)
    ensures |r| == |records|
  {
    if e.answers.Some? && e.tenant < |records| then records[e.tenant := Collected(e.answers.value)] else records
  }

  function Run(events: seq<Event>): (r: seq<Record>)
    ensures |r| == MAX_TENANTS
  {
    if events == [] then seq(MAX_TENANTS, _ => CLEARED)
    else After(Run(events[..|events| - 1]), events[|events| - 1])
  }

  /** The answers of the last attempt that connected. */
  function LastAnswers(events: seq<Event>, tenant: nat): Option<Answers> {
    if events == [] then None
    else
      var e := events[|events| - 1];
      if e.tenant == tenant && e.answers.Some? then e.answers else LastAnswers(events[..|events| - 1], tenant)
  }

  /** The record holds what each query answered, and zero for a query that failed. */
  predicate Answered(r: Record, a: Answers) {
    && r.totalConnections == (if a.totalConnections.Some? then a.totalConnections.value else 0)
    && r.activeConnections == (if a.activeConnections.Some? then a.activeConnections.value else 0)
    && r.idleConnections == (if a.idleConnections.Some? then a.idleConnections.value else 0)
    && r.maxConnections == (if a.maxConnections.Some? then a.maxConnections.value else 0)
    && r.cacheHitRatio == (if a.cacheHitRatio.Some? then a.cacheHitRatio.value else Finite(false, 0.0))
    && r.databaseSize == (if a.databaseSize.Some? then a.databaseSize.value else 0)
    && r.locksCount == (if a.locksCount.Some? then a.locksCount.value else 0)
    && r.tableSize == (if a.tableSize.Some? then a.tableSize.value else 0)
    && r.indexSize == (if a.indexSize.Some? then a.indexSize.value else 0)
    && r.walFiles == (if a.walFiles.Some? then a.walFiles.value else 0)
    && r.slowQueries == (if a.slowQueries.Some? then a.slowQueries.value else 0)
  }

  const NO_ANSWERS := Answers(None, None, None, None, None, None, None, None, None, None, None)

  ghost predicate EverConnected(events: seq<Event>, tenant: nat) {
    exists k :: 0 <= k < |events| && events[k].tenant == tenant && events[k].answers.Some?
  }

  lemma {:induction false} LastAnswersIffConnected(events: seq<Event>, tenant: nat)
    ensures LastAnswers(events, tenant).Some? <==> EverConnected(events, tenant)
  {
    if events != [] {
      var n := |events| - 1;
      LastAnswersIffConnected(events[..n], tenant);
      if k :| 0 <= k < n && events[..n][k].tenant == tenant && events[..n][k].answers.Some? {
        assert events[k].tenant == tenant;
      }
      if k :| 0 <= k < |events| && events[k].tenant == tenant && events[k].answers.Some? {
        assert k < n ==> events[..n][k] == events[k];
      }
    }
  }

  /**
    In every run a tenant's record is that of its last successful attempt, whatever failed since.
    So `pg_up` shows 1 exactly when some attempt ever connected, and it never falls back to 0.
   */
  lemma {:induction false} RecordIsLastSuccess(events: seq<Event>, tenant: nat)
    requires tenant < 10
    ensures var last := LastAnswers(events, tenant);
      Answered(Run(events)[tenant], if last.Some? then last.value else NO_ANSWERS)
    ensures Run(events)[tenant].isConnected <==> EverConnected(events, tenant)
  {
    RecordIsCollected(events, tenant);
    LastAnswersIffConnected(events, tenant);
    hide EverConnected, Run, LastAnswers;
  }

  lemma {:induction false} RecordIsCollected(events: seq<Event>, tenant: nat)
    requires tenant < MAX_TENANTS
    ensures Run(events)[tenant] ==
      match LastAnswers(events, tenant) case None => CLEARED case Some(a) => Collected(a)
  {
    if events != [] {
      hide Collected;
      RecordIsCollected(events[..|events| - 1], tenant);
    }
  }
}
