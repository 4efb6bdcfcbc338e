/**
  The 10-second cache of main_optimized.c: `collect_metrics_optimized` and `get_cached_metrics`.
  The answer of the database and the clock readings are parameters of each call.
 */
module MetricsCache {
  import opened Wrappers
  import opened Decimals
  import opened MetricsRecord
  import opened ConnectionPool
  import Exposition
  import opened RecordText
  import TextFormat

  /** The single row of the statistics query, in column order. */
  datatype Row = Row(
    totalConnections: Int32,
    activeConnections: Int32,
    idleConnections: Int32,
    idleInTransaction: Int32,
    commitsTotal: Int64,
    rollbacksTotal: Int64,
    databaseSize: Int64,
    waitingLocks: Int32,
    activeLocks: Int32,
    isPrimary: Int32,
    cacheHitRatio: Double)

  /**
    What `PQexec` brings. The query has no FROM clause, so when it succeeds it brings exactly one
    row; `readAt` is the clock once that has been read.
   */
  datatype Answer = Failed | Answered(row: Row, readAt: Int64)

  function Updated(m: Metrics, row: Row, readAt: Int64): Metrics {
    m.(totalConnections := row.totalConnections,
       activeConnections := row.activeConnections,
       idleConnections := row.idleConnections,
       idleInTransaction := row.idleInTransaction,
       commitsTotal := row.commitsTotal,
       rollbacksTotal := row.rollbacksTotal,
       databaseSize := row.databaseSize,
       waitingLocks := row.waitingLocks,
       activeLocks := row.activeLocks,
       isPrimary := row.isPrimary,
       cacheHitRatio := row.cacheHitRatio,
       databaseConnected := 1,
       lastUpdate := readAt)
  }

  datatype Cache = Cache(metrics: Metrics, lastUpdate: int, valid: bool)

  datatype Call = Call(now: int, connection: bool, answer: Answer)

  datatype Kind = Hit | Refreshed | Unserved

  /** What one call does to the cache. */
  function Kinds(c: Cache, call: Call): Kind {
    if c.valid && call.now - c.lastUpdate < 10 then Hit
    else if call.connection && !call.answer.Failed? then Refreshed
    else Unserved
  }

  function Serve(c: Cache, call: Call): Cache {
    if Kinds(c, call).Refreshed? then
      Cache(Updated(c.metrics, call.answer.row, call.answer.readAt), call.now, true)
    else c
  }

  class Service {
    const pool: Pool
    var metrics: Metrics
    var lastUpdate: int
    var valid: bool

    ghost function State(): Cache
      reads this
    {
      Cache(metrics, lastUpdate, valid)
    }

    constructor (pool: Pool, zero: Metrics)
      ensures this.pool == pool && State() == Cache(zero, 0, false)
    {
      this.pool := pool;
      metrics, lastUpdate, valid := zero, 0, false;
    }

    /** `collect_metrics_optimized(&cache.metrics)`: every exit gives its connection back. */
    method Collect(answer: Answer) returns (rc: int)
      requires pool.Valid()
      modifies `metrics, pool.available
      ensures pool.Valid() && pool.Avail() == old(pool.Avail())
      ensures rc == 0 <==> true in old(pool.Avail()) && !answer.Failed?
      ensures metrics == if rc == 0 then Updated(old(metrics), answer.row, answer.readAt) else old(metrics)
    {
      ghost var before := pool.Avail();
      ghost var n := FirstAvailable(before);
      var conn := pool.Get();
      if conn == null {
        return -1;
      }
      assert before[n] && pool.Avail()[n := true] == before;
      if answer.Failed? {
        pool.Return(conn);
        return -1;
      }
      var row := answer.row;
      metrics := metrics.(totalConnections := row.totalConnections);
      metrics := metrics.(activeConnections := row.activeConnections);
      metrics := metrics.(idleConnections := row.idleConnections);
      metrics := metrics.(idleInTransaction := row.idleInTransaction);
      metrics := metrics.(commitsTotal := row.commitsTotal);
      metrics := metrics.(rollbacksTotal := row.rollbacksTotal);
      metrics := metrics.(databaseSize := row.databaseSize);
      metrics := metrics.(waitingLocks := row.waitingLocks);
      metrics := metrics.(activeLocks := row.activeLocks);
      metrics := metrics.(isPrimary := row.isPrimary);
      metrics := metrics.(cacheHitRatio := row.cacheHitRatio);
      metrics := metrics.(databaseConnected := 1);
      metrics := metrics.(lastUpdate := answer.readAt);
      pool.Return(conn);
      return 0;
    }

    /** `get_cached_metrics` */
    method GetCached(now: int, answer: Answer) returns (served: Metrics)
      requires pool.Valid()
      modifies this, pool.available
      ensures pool.Valid() && pool.Avail() == old(pool.Avail())
      ensures State() == Serve(old(State()), Call(now, true in old(pool.Avail()), answer))
      ensures served == metrics
    {
      if valid && now - lastUpdate < 10 {
        return metrics;
      }
      var rc := Collect(answer);
      if rc == 0 {
        lastUpdate := now;
        valid := true;
      }
      return metrics;
    }
  }

  // ----- runs of calls

  function Run(c: Cache, calls: seq<Call>): Cache {
    if calls == [] then c else Serve(Run(c, calls[..|calls| - 1]), calls[|calls| - 1])
  }

  function KindOfLast(c: Cache, calls: seq<Call>): Kind
    requires calls != []
  {
    Kinds(Run(c, calls[..|calls| - 1]), calls[|calls| - 1])
  }

  ghost predicate ClockNeverFalls(calls: seq<Call>) {
    forall i, j :: 0 <= i < j < |calls| ==> calls[i].now <= calls[j].now
  }

  /** A row is read after its call has looked at the clock. */
  ghost predicate ReadAfterCall(calls: seq<Call>) {
    forall call <- calls :: call.answer.Answered? ==> call.now <= call.answer.readAt
  }

  /** The calls that refreshed the cache, in order. */
  function Refreshes(c: Cache, calls: seq<Call>): seq<Call> {
    if calls == [] then []
    else
      Refreshes(c, calls[..|calls| - 1])
      + if KindOfLast(c, calls).Refreshed? then [calls[|calls| - 1]] else []
  }

  /** The cache remembers the last refresh, and its record is the one that it brought. */
  lemma {:induction false} RemembersLastRefresh(c: Cache, calls: seq<Call>)
    requires !c.valid
    ensures var r := Refreshes(c, calls); var s := Run(c, calls);
      && s.valid == (r != [])
      && (r == [] ==> s == c)
      && (r != [] ==> s.lastUpdate == r[|r| - 1].now)
      && (forall x <- r :: x in calls && x.answer.Answered?)
      && (r != [] ==> s.metrics == Updated(c.metrics, r[|r| - 1].answer.row, r[|r| - 1].answer.readAt))
  {
    if calls != [] {
      RemembersLastRefresh(c, calls[..|calls| - 1]);
    }
  }

  /**
    A call is a hit exactly when the latest refresh began less than ten seconds before it; any
    other call asks the database, and if that fails nothing at all changes.
   */
  lemma HitIffRecentRefresh(c: Cache, calls: seq<Call>)
    requires !c.valid && calls != []
    ensures var before := calls[..|calls| - 1]; var last := calls[|calls| - 1]; var r := Refreshes(c, before);
      && (KindOfLast(c, calls).Hit? <==> r != [] && last.now - r[|r| - 1].now < 10)
      && (!KindOfLast(c, calls).Refreshed? ==> Run(c, calls) == Run(c, before))
  {
    RemembersLastRefresh(c, calls[..|calls| - 1]);
  }

  /** Under a clock that never falls, `n` refreshes span at least `10 * (n - 1)` seconds. */
  lemma {:induction false} RefreshRate(c: Cache, calls: seq<Call>)
    requires !c.valid && ClockNeverFalls(calls)
    ensures var r := Refreshes(c, calls);
      r != [] ==> r[|r| - 1].now - r[0].now >= 10 * (|r| - 1)
  {
    if calls != [] {
      hide Updated, Run;
      var before := calls[..|calls| - 1];
      RefreshRate(c, before);
      RemembersLastRefresh(c, before);
    }
  }

  /** A hit or a refresh returns data read less than ten seconds before the call. */
  lemma Freshness(c: Cache, calls: seq<Call>)
    requires !c.valid && calls != [] && ClockNeverFalls(calls) && ReadAfterCall(calls)
    requires !KindOfLast(c, calls).Unserved?
    ensures var r := Refreshes(c, calls); var now := calls[|calls| - 1].now;
      && r != [] && now - 10 < r[|r| - 1].now <= now
      && now - 10 < Run(c, calls).metrics.lastUpdate
  {
    RemembersLastRefresh(c, calls);
    RemembersLastRefresh(c, calls[..|calls| - 1]);
    HitIffRecentRefresh(c, calls);
    var r := Refreshes(c, calls);
    assert r[|r| - 1] in calls;
  }

  function Counted(n: int): Option<Numeral> { if n >= 0 then Some(IntNumeral(n)) else None }

  /** The samples give the session counts of the row, each under its name. */
  ghost predicate ShowsSessions(samples: seq<TextFormat.Sample>, row: Row) {
    && Lookup(samples, "pganalytics_total_connections") == Counted(row.totalConnections)
    && Lookup(samples, "pganalytics_active_connections") == Counted(row.activeConnections)
    && Lookup(samples, "pganalytics_idle_connections") == Counted(row.idleConnections)
    && Lookup(samples, "pganalytics_idle_in_transaction") == Counted(row.idleInTransaction)
  }

  /** Its transactions, size and locks. */
  ghost predicate ShowsCounters(samples: seq<TextFormat.Sample>, row: Row) {
    && Lookup(samples, "pganalytics_commits_total") == Counted(row.commitsTotal)
    && Lookup(samples, "pganalytics_rollbacks_total") == Counted(row.rollbacksTotal)
    && Lookup(samples, "pganalytics_database_size_bytes") == Counted(row.databaseSize)
    && Lookup(samples, "pganalytics_waiting_locks") == Counted(row.waitingLocks)
    && Lookup(samples, "pganalytics_active_locks") == Counted(row.activeLocks)
  }

  /** Its role and hit ratio, and when it was read. */
  ghost predicate ShowsStatus(samples: seq<TextFormat.Sample>, row: Row, readAt: int) {
    && Lookup(samples, "pganalytics_is_primary") == Some(IntNumeral(AsFlag(row.isPrimary)))
    && Lookup(samples, "pganalytics_cache_hit_ratio")
       == (if IsPercentage(row.cacheHitRatio) then Some(DoubleNumeral(row.cacheHitRatio, 2)) else None)
    && Lookup(samples, "pganalytics_database_connected") == Some(IntNumeral(1))
    && Lookup(samples, "pganalytics_last_update") == Some(IntNumeral(readAt))
  }

  lemma LookupOf(m: Metrics, tenant: string, f: Field)
    ensures Lookup(AllSamples(m, tenant), Name(f)) == if Passes(m, f) then Some(Shown(m, f)) else None
  {
    LookupSamples(m, tenant, f, ORDER);
    OrderComplete(f);
  }

  lemma SessionsShown(m: Metrics, tenant: string, row: Row, readAt: Int64)
    ensures ShowsSessions(AllSamples(Updated(m, row, readAt), tenant), row)
  {
    hide Name, Lookup, AllSamples, IntNumeral;
    var n := Updated(m, row, readAt);
    LookupOf(n, tenant, TotalConnections);
    LookupOf(n, tenant, ActiveConnections);
    LookupOf(n, tenant, IdleConnections);
    LookupOf(n, tenant, IdleInTransaction);
    ConnectionNames();
    RecordText.IdleNames();
  }

  lemma CountersShown(m: Metrics, tenant: string, row: Row, readAt: Int64)
    ensures ShowsCounters(AllSamples(Updated(m, row, readAt), tenant), row)
  {
    hide Name, Lookup, AllSamples, IntNumeral;
    var n := Updated(m, row, readAt);
    LookupOf(n, tenant, CommitsTotal);
    LookupOf(n, tenant, RollbacksTotal);
    LookupOf(n, tenant, DatabaseSize);
    LookupOf(n, tenant, WaitingLocks);
    LookupOf(n, tenant, ActiveLocks);
    TransactionNames();
    SizeNames();
    LockNames();
  }

  lemma StatusShown(m: Metrics, tenant: string, row: Row, readAt: Int64)
    ensures ShowsStatus(AllSamples(Updated(m, row, readAt), tenant), row, readAt)
  {
    hide Name, Lookup, AllSamples, IntNumeral, DoubleNumeral;
    var n := Updated(m, row, readAt);
    LookupOf(n, tenant, IsPrimary);
    LookupOf(n, tenant, CacheHitRatio);
    LookupOf(n, tenant, DatabaseConnected);
    LookupOf(n, tenant, LastUpdate);
    RecordText.ReplicationNames();
    RecordText.CacheNames();
    RecordText.StatusNames();
  }

  /**
    After a refresh, the exported text shows the columns of its row, each under its metric: the
    counts that are not negative, a ratio that is a percentage, and the role as a flag.
   */
  lemma TextShowsLastRow(c: Cache, calls: seq<Call>, tenant: string)
    requires !c.valid && ValidTenant(tenant) && Refreshes(c, calls) != []
    ensures var parsed := TextFormat.Parse(Exposition.Text(Run(c, calls).metrics, tenant));
      var r := Refreshes(c, calls);
      var last := r[|r| - 1].answer;
      parsed.Some? && last.Answered? && ShowsSessions(parsed.value, last.row) && ShowsCounters(parsed.value, last.row)
      && ShowsStatus(parsed.value, last.row, last.readAt)
  {
    hide TextFormat.Parse, Exposition.Text, Refreshes, Run, Updated, AllSamples;
    hide ShowsSessions, ShowsCounters, ShowsStatus;
    RemembersLastRefresh(c, calls);
    Exposition.RoundTrip(Run(c, calls).metrics, tenant);
    var r := Refreshes(c, calls);
    var last := r[|r| - 1].answer;
    assert r[|r| - 1] in r;
    SessionsShown(c.metrics, tenant, last.row, last.readAt);
    CountersShown(c.metrics, tenant, last.row, last.readAt);
    StatusShown(c.metrics, tenant, last.row, last.readAt);
  }

  // ----- calls that overlap

  /**
    A call of `get_cached_metrics` in two parts, as a request thread runs it: the decision, and
    after a miss the commit of a refresh or the end of a failed one.
   */
  datatype Event = Begin(thread: nat, now: int) | Commit(thread: nat) | Abort(thread: nat)

  /** A refresh under way: when it began, and how many others had been committed by then. */
  datatype Attempt = Attempt(now: int, seen: nat)

  datatype Shared = Shared(lastUpdate: int, valid: bool, pending: map<nat, Attempt>, refreshed: seq<int>)

  function Advance(s: Shared, e: Event): Shared {
    match e
    case Begin(h, now) =>
      if s.valid && now - s.lastUpdate < 10 then s
      else s.(pending := s.pending[h := Attempt(now, |s.refreshed|)])
    case Commit(h) =>
      if h !in s.pending then s
      else Shared(s.pending[h].now, true, s.pending - {h}, s.refreshed + [s.pending[h].now])
    case Abort(h) => s.(pending := s.pending - {h})
  }

  function Overlapped(events: seq<Event>): Shared {
    if events == [] then Shared(0, false, map[], [])
    else Advance(Overlapped(events[..|events| - 1]), events[|events| - 1])
  }

  ghost predicate Spaced(times: seq<int>) {
    forall i :: 0 <= i < |times| - 1 ==> times[i + 1] - times[i] >= 10
  }

  /** Whatever was committed while this refresh was under way began at least ten seconds before it. */
  ghost predicate NotOvertaken(s: Shared, a: Attempt) {
    forall i :: a.seen <= i < |s.refreshed| ==> a.now - s.refreshed[i] >= 10
  }

  ghost predicate CommitsNotOvertaken(events: seq<Event>) {
    forall k :: 0 <= k < |events| && events[k].Commit? ==>
      var s := Overlapped(events[..k]);
      events[k].thread in s.pending ==> NotOvertaken(s, s.pending[events[k].thread])
  }

  /** What the shared variables hold, and what each decision was based on. */
  ghost predicate Consistent(s: Shared) {
    && s.valid == (s.refreshed != [])
    && (s.valid ==> s.lastUpdate == s.refreshed[|s.refreshed| - 1])
    && forall h <- s.pending ::
         var a := s.pending[h];
         a.seen <= |s.refreshed| && (a.seen > 0 ==> a.now - s.refreshed[a.seen - 1] >= 10)
  }

  lemma {:induction false} AlwaysConsistent(events: seq<Event>)
    ensures Consistent(Overlapped(events))
  {
    if events != [] {
      AlwaysConsistent(events[..|events| - 1]);
    }
  }

  lemma {:induction false} SpacedGrows(times: seq<int>, i: nat, j: nat)
    requires Spaced(times) && i <= j < |times|
    ensures times[i] <= times[j]
  {
    if i < j {
      SpacedGrows(times, i, j - 1);
      assert times[j - 1 + 1] - times[j - 1] >= 10;
    }
  }

  lemma SpacedSnoc(times: seq<int>, t: int)
    ensures Spaced(times + [t]) <==> Spaced(times) && (times != [] ==> t - times[|times| - 1] >= 10)
  {
    var all := times + [t];
    if Spaced(all) {
      forall i | 0 <= i < |times| - 1
        ensures times[i + 1] - times[i] >= 10
      {
        assert all[i + 1] - all[i] >= 10;
      }
      if times != [] {
        assert all[|times| - 1 + 1] - all[|times| - 1] >= 10;
      }
    }
  }

  /** A commit keeps the distance exactly when it was not overtaken. */
  lemma CommitSpaced(s: Shared, h: nat)
    requires Consistent(s) && h in s.pending && Spaced(s.refreshed)
    ensures Spaced(Advance(s, Commit(h)).refreshed) <==> NotOvertaken(s, s.pending[h])
  {
    var a := s.pending[h];
    SpacedSnoc(s.refreshed, a.now);
    if s.refreshed != [] && a.now - s.refreshed[|s.refreshed| - 1] >= 10 {
      forall i | a.seen <= i < |s.refreshed|
        ensures a.now - s.refreshed[i] >= 10
      {
        SpacedGrows(s.refreshed, i, |s.refreshed| - 1);
      }
    }
  }

  lemma CommitsSnoc(before: seq<Event>, e: Event)
    ensures CommitsNotOvertaken(before + [e]) <==>
      CommitsNotOvertaken(before)
      && var s := Overlapped(before);
         e.Commit? && e.thread in s.pending ==> NotOvertaken(s, s.pending[e.thread])
  {
    hide Overlapped, NotOvertaken;
    var all := before + [e];
    assert all[..|before|] == before && all[|before|] == e;
    assert forall k :: 0 <= k < |before| ==> all[..k] == before[..k] && all[k] == before[k];
  }

  /**
    The refresh rate of request threads: over every interleaving, refreshes are at least ten
    seconds apart exactly when nothing that was committed while a refresh was under way had begun
    less than ten seconds before it.
   */
  lemma {:induction false} RateIffNotOvertaken(events: seq<Event>)
    ensures Spaced(Overlapped(events).refreshed) <==> CommitsNotOvertaken(events)
  {
    if events != [] {
      hide Spaced, CommitsNotOvertaken, NotOvertaken, Consistent;
      var before, e := events[..|events| - 1], events[|events| - 1];
      assert events == before + [e];
      var s := Overlapped(before);
      RateIffNotOvertaken(before);
      CommitsSnoc(before, e);
      AlwaysConsistent(before);
      if e.Commit? && e.thread in s.pending {
        SpacedSnoc(s.refreshed, s.pending[e.thread].now);
        if Spaced(s.refreshed) {
          CommitSpaced(s, e.thread);
        }
      }
    }
  }

  /** No refresh begins while another one is under way. */
  ghost predicate OneAtATime(events: seq<Event>) {
    forall k :: 0 <= k < |events| && events[k].Begin? ==> Overlapped(events[..k]).pending == map[]
  }

  /** At most one refresh is under way, and it has seen all that were committed before. */
  ghost predicate OneUnderWay(s: Shared) {
    forall h, g :: h in s.pending && g in s.pending ==> h == g && s.pending[h].seen == |s.refreshed|
  }

  lemma {:induction false} OnlyOneUnderWay(events: seq<Event>)
    requires OneAtATime(events)
    ensures OneUnderWay(Overlapped(events))
  {
    if events != [] {
      var n := |events| - 1;
      OneAtATimePrefix(events, n);
      OnlyOneUnderWay(events[..n]);
      OneUnderWayStep(Overlapped(events[..n]), events[n]);
    }
  }

  lemma OneUnderWayStep(s: Shared, e: Event)
    requires OneUnderWay(s) && (e.Begin? ==> s.pending == map[])
    ensures OneUnderWay(Advance(s, e))
  {
    var t := Advance(s, e);
    forall h, g | h in t.pending && g in t.pending
      ensures h == g && t.pending[h].seen == |t.refreshed|
    {
      assert e.Begin? || (h in s.pending && g in s.pending);
    }
  }

  lemma OneAtATimePrefix(events: seq<Event>, n: nat)
    requires OneAtATime(events) && n <= |events|
    ensures OneAtATime(events[..n])
  {
    forall k | 0 <= k < n && events[..n][k].Begin?
      ensures Overlapped(events[..n][..k]).pending == map[]
    {
      assert events[k].Begin? && events[..n][..k] == events[..k];
    }
  }

  /** So the rate holds as long as refreshes, successful or not, do not overlap. */
  lemma RateWithoutOverlap(events: seq<Event>)
    requires OneAtATime(events)
    ensures Spaced(Overlapped(events).refreshed)
  {
    forall k | 0 <= k < |events| && events[k].Commit? && events[k].thread in Overlapped(events[..k]).pending
      ensures NotOvertaken(Overlapped(events[..k]), Overlapped(events[..k]).pending[events[k].thread])
    {
      OneAtATimePrefix(events, k);
      OnlyOneUnderWay(events[..k]);
    }
    RateIffNotOvertaken(events);
  }

  /** Calls that are not interrupted, as events of one thread. */
  function Uninterrupted(c: Cache, calls: seq<Call>): seq<Event> {
    if calls == [] then []
    else
      Uninterrupted(c, calls[..|calls| - 1])
      + match KindOfLast(c, calls)
        case Hit => [Begin(0, calls[|calls| - 1].now)]
        case Refreshed => [Begin(0, calls[|calls| - 1].now), Commit(0)]
        case Unserved => [Begin(0, calls[|calls| - 1].now), Abort(0)]
  }

  lemma TwoEvents(events: seq<Event>, e: Event, f: Event)
    ensures Overlapped(events + [e]) == Advance(Overlapped(events), e)
    ensures Overlapped(events + [e, f]) == Advance(Advance(Overlapped(events), e), f)
  {
    assert (events + [e])[..|events|] == events;
    assert (events + [e, f])[..|events| + 1] == events + [e];
  }

  /** Cut into its two parts, a run of uninterrupted calls refreshes at the same times as `Run`. */
  lemma {:induction false} UninterruptedCalls(c: Cache, calls: seq<Call>)
    requires !c.valid
    ensures var s := Overlapped(Uninterrupted(c, calls)); var r := Refreshes(c, calls);
      && s.pending == map[] && s.valid == Run(c, calls).valid
      && (s.valid ==> s.lastUpdate == Run(c, calls).lastUpdate)
      && |s.refreshed| == |r| && forall i :: 0 <= i < |r| ==> s.refreshed[i] == r[i].now
  {
    if calls != [] {
      hide Overlapped, Updated;
      var before, last := calls[..|calls| - 1], calls[|calls| - 1];
      var events := Uninterrupted(c, before);
      UninterruptedCalls(c, before);
      TwoEvents(events, Begin(0, last.now), Commit(0));
      TwoEvents(events, Begin(0, last.now), Abort(0));
    } else {
      assert Uninterrupted(c, calls) == [];
    }
  }

  /** Two threads that find the cache stale together refresh it twice in the same second. */
  lemma OverlapBreaksRate()
    ensures !Spaced(Overlapped([Begin(0, 0), Begin(1, 0), Commit(0), Commit(1)]).refreshed)
  {
    var events := [Begin(0, 0), Begin(1, 0), Commit(0), Commit(1)];
    assert events[..3][..2] == events[..2] && events[..2][..1] == events[..1] && events[..1][..0] == [];
    assert Overlapped(events[..1]) == Advance(Overlapped([]), events[0]);
    assert Overlapped(events[..2]) == Advance(Overlapped(events[..1]), events[1]);
    assert Overlapped(events[..3]) == Advance(Overlapped(events[..2]), events[2]);
    assert Overlapped(events[..3]).pending == map[1 := Attempt(0, 0)];
    var r := Overlapped(events).refreshed;
    assert r == [0, 0] && r[0 + 1] - r[0] == 0;
  }
}
