/**
  Whole runs of the OpenTelemetry client: where every recorded metric ends up, and which spans
  get a duration.
 */
module OtelRuns {
  import opened Wrappers
  import opened Decimals
  import opened OtelClient

  // ----- metrics

  datatype Event = Did(action: Action) | Exported(curlInit: bool)

  function After(c: Context, e: Event): Context {
    match e
    case Did(a) => Act(c, a)
    case Exported(curlInit) => if curlInit then c.(buffer := []) else c
  }

  const EMPTY := Context([], [])

  function Run(events: seq<Event>): Context {
    if events == [] then EMPTY else After(Run(events[..|events| - 1]), events[|events| - 1])
  }

  /** The buffers that exports turned into payloads, in order. */
  function Payloads(events: seq<Event>): seq<seq<Metric>> {
    if events == [] then []
    else
      Payloads(events[..|events| - 1])
      + if events[|events| - 1] == Exported(true) then [Run(events[..|events| - 1]).buffer] else []
  }

  function Flatten(payloads: seq<seq<Metric>>): seq<Metric> {
    if payloads == [] then [] else Flatten(payloads[..|payloads| - 1]) + payloads[|payloads| - 1]
  }

  function MetricOf(a: Action): Metric
    requires a.Record?
  {
    NewMetric(a.name, a.value, a.labels, a.now)
  }

  predicate IsRecord(e: Event) { e.Did? && e.action.Record? }

  /** Everything the program asked to record. */
  function Recorded(events: seq<Event>): seq<Metric> {
    if events == [] then []
    else
      Recorded(events[..|events| - 1])
      + if IsRecord(events[|events| - 1]) then [MetricOf(events[|events| - 1].action)] else []
  }

  /** How many records were asked for since the last reset. */
  function Pending(events: seq<Event>): nat {
    if events == [] then 0
    else
      var e := events[|events| - 1];
      if e == Exported(true) then 0
      else Pending(events[..|events| - 1]) + if IsRecord(e) then 1 else 0
  }

  /** The records that come while fewer than a hundred are pending, and the others. */
  function Kept(events: seq<Event>): seq<Metric> {
    if events == [] then []
    else
      var before := events[..|events| - 1];
      Kept(before) + if IsRecord(events[|events| - 1]) && Pending(before) < 100
                     then [MetricOf(events[|events| - 1].action)] else []
  }

  function Dropped(events: seq<Event>): seq<Metric> {
    if events == [] then []
    else
      var before := events[..|events| - 1];
      Dropped(before) + if IsRecord(events[|events| - 1]) && Pending(before) >= 100
                        then [MetricOf(events[|events| - 1].action)] else []
  }

  lemma {:induction false} BufferSize(events: seq<Event>)
    ensures |Run(events).buffer| == if Pending(events) < 100 then Pending(events) else 100
  {
    if events != [] {
      BufferSize(events[..|events| - 1]);
    }
  }

  /** Where one event leaves the buffer. */
  lemma BufferStep(events: seq<Event>)
    requires events != []
    ensures var before := events[..|events| - 1]; var e := events[|events| - 1];
      Run(events).buffer ==
        if e == Exported(true) then []
        else if IsRecord(e) && Pending(before) < 100 then Run(before).buffer + [MetricOf(e.action)]
        else Run(before).buffer
  {
    hide NewMetric, NewSpan;
    BufferSize(events[..|events| - 1]);
  }

  lemma FlattenSnoc(payloads: seq<seq<Metric>>, p: seq<Metric>)
    ensures Flatten(payloads + [p]) == Flatten(payloads) + p
  {
    assert (payloads + [p])[..|payloads|] == payloads;
  }

  lemma PayloadStep(events: seq<Event>)
    requires events != []
    ensures var before := events[..|events| - 1];
      Flatten(Payloads(events)) == Flatten(Payloads(before))
        + if events[|events| - 1] == Exported(true) then Run(before).buffer else []
  {
    hide Run, Flatten;
    var before := events[..|events| - 1];
    FlattenSnoc(Payloads(before), Run(before).buffer);
    assert events[|events| - 1] != Exported(true) ==> Payloads(events) == Payloads(before);
  }

  /**
    Conservation. In every run the payloads, one after the other, followed by the buffer are
    exactly the kept metrics in recording order.
   */
  lemma {:induction false} Conservation(events: seq<Event>)
    ensures Flatten(Payloads(events)) + Run(events).buffer == Kept(events)
  {
    if events != [] {
      Conservation(events[..|events| - 1]);
      BufferStep(events);
      PayloadStep(events);
      hide Run, MetricOf, Flatten, Pending, Payloads;
    } else {
      assert Run(events).buffer == [];
    }
  }

  /** The points that exports handed to curl, in order. */
  function PointsHanded(events: seq<Event>): seq<Point> {
    if events == [] then []
    else
      var before := events[..|events| - 1];
      PointsHanded(before) + if events[|events| - 1] == Exported(true) then Points(Run(before).buffer) else []
  }

  /** The points that the kept calls asked for: the name up to its buffer, the time in nanoseconds, the value. */
  function PointsAsked(events: seq<Event>): seq<Point> {
    if events == [] then []
    else
      var before, e := events[..|events| - 1], events[|events| - 1];
      PointsAsked(before)
      + match e
        case Did(Record(name, value, _, now)) =>
          if Pending(before) >= 100 then []
          else [Point(if |name| <= 255 then name else name[..255], now * 1_000_000_000, value)]
        case _ => []
  }

  lemma PointsConcat(a: seq<Metric>, b: seq<Metric>)
    ensures Points(a + b) == Points(a) + Points(b)
  {
    hide PointOf;
  }

  lemma PointAsked(name: string, value: Double, labels: Option<string>, now: int)
    ensures Points([NewMetric(name, value, labels, now)])
         == [Point(if |name| <= 255 then name else name[..255], now * 1_000_000_000, value)]
  {
  }

  /**
    Conservation up to the wire: in every run the points handed to curl, followed by those still
    buffered, are exactly what the kept calls asked for, in order.
   */
  lemma {:induction false} PointsConserved(events: seq<Event>)
    ensures PointsHanded(events) + Points(Run(events).buffer) == PointsAsked(events)
  {
    if events == [] {
      assert Run(events).buffer == [];
    } else {
      hide Points, Run, Pending, PointsAsked, MetricOf;
      var before, e := events[..|events| - 1], events[|events| - 1];
      PointsConserved(before);
      BufferStep(events);
      AskedStep(events);
      NoPoints();
      if e == Exported(true) {
        assert PointsHanded(events) == PointsHanded(before) + Points(Run(before).buffer);
      } else if IsRecord(e) && Pending(before) < 100 {
        PointsConcat(Run(before).buffer, [MetricOf(e.action)]);
        assert PointsHanded(events) == PointsHanded(before);
      } else {
        assert PointsHanded(events) == PointsHanded(before);
      }
    }
  }

  lemma AskedStep(events: seq<Event>)
    requires events != []
    ensures var before, e := events[..|events| - 1], events[|events| - 1];
      PointsAsked(events) == PointsAsked(before)
        + if IsRecord(e) && Pending(before) < 100 then Points([MetricOf(e.action)]) else []
  {
    hide Points, NewMetric, Pending;
    var e := events[|events| - 1];
    if IsRecord(e) {
      PointAsked(e.action.name, e.action.value, e.action.labels, e.action.now);
    }
  }

  lemma NoPoints()
    ensures Points([]) == []
  {
  }

  /** Recorded is kept plus dropped, and nothing else. */
  lemma {:induction false} RecordedIsKeptOrDropped(events: seq<Event>)
    ensures multiset(Recorded(events)) == multiset(Kept(events)) + multiset(Dropped(events))
  {
    if events != [] {
      hide MetricOf, Pending;
      RecordedIsKeptOrDropped(events[..|events| - 1]);
    }
  }

  /** The buffer is never asked to hold more than it can. */
  predicate Fits(events: seq<Event>) {
    events == [] || (Fits(events[..|events| - 1]) && Pending(events) <= 100)
  }

  lemma {:induction false} NothingDroppedIffFits(events: seq<Event>)
    ensures Dropped(events) == [] <==> Fits(events)
    ensures Dropped(events) == [] ==> Kept(events) == Recorded(events)
  {
    if events != [] {
      NothingDroppedIffFits(events[..|events| - 1]);
      PendingBounded(events[..|events| - 1]);
    }
  }

  lemma PendingBounded(events: seq<Event>)
    ensures Fits(events) ==> Pending(events) <= 100
  {
  }

  // ----- the program

  function Dids(actions: seq<Action>): seq<Event> {
    seq(|actions|, i requires 0 <= i < |actions| => Did(actions[i]))
  }

  function RecordCount(actions: seq<Action>): nat {
    if actions == [] then 0
    else RecordCount(actions[..|actions| - 1]) + if actions[|actions| - 1].Record? then 1 else 0
  }

  /** One turn of the main loop. */
  datatype Loop = Loop(answers: Answers, clock: nat -> int, curlInit: bool)

  function LoopActions(connected: bool, loop: Loop): seq<Action> {
    if connected then DatabaseActions(loop.answers, loop.clock) else SimulatedActions(loop.clock)
  }

  /** The events of `main`: one connection attempt, then a collection and an export for each loop. */
  function Program(connected: bool, clock: nat -> int, loops: seq<Loop>): seq<Event> {
    if loops == [] then Dids(ConnectActions(connected, clock))
    else
      Program(connected, clock, loops[..|loops| - 1])
      + Dids(LoopActions(connected, loops[|loops| - 1]))
      + [Exported(loops[|loops| - 1].curlInit)]
  }

  /** How many of the last loops in a row failed to initialise curl. */
  function Streak(loops: seq<Loop>): (n: nat)
    ensures n <= |loops|
  {
    if loops == [] || loops[|loops| - 1].curlInit then 0 else 1 + Streak(loops[..|loops| - 1])
  }

  lemma {:induction false} RecordCountConcat(a: seq<Action>, b: seq<Action>)
    ensures RecordCount(a + b) == RecordCount(a) + RecordCount(b)
  {
    if b == [] {
      assert a + b == a;
    } else {
      assert (a + b)[..|a + b| - 1] == a + b[..|b| - 1];
      RecordCountConcat(a, b[..|b| - 1]);
    }
  }

  /** A stretch of calls without an export. */
  lemma {:induction false} FitsDids(before: seq<Event>, actions: seq<Action>)
    ensures Pending(before + Dids(actions)) == Pending(before) + RecordCount(actions)
    ensures Fits(before + Dids(actions)) <==>
              Fits(before) && (RecordCount(actions) > 0 ==> Pending(before) + RecordCount(actions) <= 100)
  {
    if actions == [] {
      assert before + Dids(actions) == before;
    } else {
      var all := before + Dids(actions);
      assert all[..|all| - 1] == before + Dids(actions[..|actions| - 1]);
      FitsDids(before, actions[..|actions| - 1]);
      PendingBounded(before);
    }
  }

  /** Without an export in between, only the number of records matters. */
  lemma RecordCountSplit(actions: seq<Action>, n: nat)
    requires n <= |actions|
    ensures RecordCount(actions) == RecordCount(actions[..n]) + RecordCount(actions[n..])
  {
    assert actions == actions[..n] + actions[n..];
    RecordCountConcat(actions[..n], actions[n..]);
  }

  function Ones(actions: seq<Action>): (n: nat)
    requires |actions| <= 3
  {
    (if |actions| > 0 && actions[0].Record? then 1 else 0)
    + (if |actions| > 1 && actions[1].Record? then 1 else 0)
    + (if |actions| > 2 && actions[2].Record? then 1 else 0)
  }

  lemma RecordCountShort(actions: seq<Action>)
    requires |actions| <= 3
    ensures RecordCount(actions) == Ones(actions)
  {
    if actions != [] {
      RecordCountShort(actions[..|actions| - 1]);
    }
  }

  lemma ConnectRecords(connected: bool, clock: nat -> int)
    ensures RecordCount(ConnectActions(connected, clock)) == 1
  {
    RecordCountShort(ConnectActions(connected, clock));
  }

  /** What one collection records: four simulated metrics, or three and one by the answers to two queries. */
  function TurnRecords(connected: bool, answers: Answers): (n: nat)
    ensures n <= 4 && (!connected ==> n == 4)
  {
    if !connected then 4
    else (if answers.connections.Some? then 3 else 0) + (if answers.hitRatio.Some? then 1 else 0)
  }

  lemma SimulatedRecords(clock: nat -> int)
    ensures RecordCount(SimulatedActions(clock)) == 4
  {
    var a := SimulatedActions(clock);
    RecordCountSplit(a, 3);
    RecordCountShort(a[..3]);
    RecordCountShort(a[3..]);
    hide RecordCount;
  }

  lemma QueryRecords(answers: Answers, clock: nat -> int)
    ensures RecordCount(DatabaseStart(clock)) == RecordCount(DatabaseMiddle(clock)) == 0
    ensures RecordCount(DatabaseEnd(clock)) == 0
    ensures RecordCount(ConnectionActions(answers.connections, clock)) == if answers.connections.Some? then 3 else 0
    ensures RecordCount(RatioActions(answers.hitRatio, clock)) == if answers.hitRatio.Some? then 1 else 0
  {
    hide RecordCount;
    RecordCountShort(DatabaseStart(clock));
    RecordCountShort(DatabaseMiddle(clock));
    RecordCountShort(DatabaseEnd(clock));
    RecordCountShort(ConnectionActions(answers.connections, clock));
    RecordCountShort(RatioActions(answers.hitRatio, clock));
  }

  lemma LoopRecords(connected: bool, loop: Loop)
    ensures RecordCount(LoopActions(connected, loop)) == TurnRecords(connected, loop.answers)
  {
    hide RecordCount, SimulatedActions, ConnectionActions, RatioActions, DatabaseStart, DatabaseMiddle, DatabaseEnd;
    var clock := loop.clock;
    SimulatedRecords(clock);
    QueryRecords(loop.answers, clock);
    var a, b, c := DatabaseStart(clock), ConnectionActions(loop.answers.connections, clock), DatabaseMiddle(clock);
    var d, e := RatioActions(loop.answers.hitRatio, clock), DatabaseEnd(clock);
    RecordCountConcat(a, b);
    RecordCountConcat(a + b, c);
    RecordCountConcat(a + b + c, d);
    RecordCountConcat(a + b + c + d, e);
  }

  /** Whether the first `n` turns all failed to export, so that the connection metric is pending. */
  function Leftover(loops: seq<Loop>): nat { if Streak(loops) == |loops| then 1 else 0 }

  lemma FitsLoop(before: seq<Event>, actions: seq<Action>, curlInit: bool)
    ensures var all := before + Dids(actions) + [Exported(curlInit)];
      && Pending(all) == (if curlInit then 0 else Pending(before) + RecordCount(actions))
      && (Fits(all) <==> Fits(before) && Pending(before) + RecordCount(actions) <= 100)
  {
    var all := before + Dids(actions) + [Exported(curlInit)];
    assert all[..|all| - 1] == before + Dids(actions);
    FitsDids(before, actions);
    PendingBounded(before);
    PendingBounded(before + Dids(actions));
  }

  /** The connection attempt leaves one metric. */
  lemma ConnectPending(connected: bool, clock: nat -> int)
    ensures Pending(Dids(ConnectActions(connected, clock))) == 1 && Fits(Dids(ConnectActions(connected, clock)))
  {
    hide Dids, ConnectActions, RecordCount;
    FitsDids([], ConnectActions(connected, clock));
    assert [] + Dids(ConnectActions(connected, clock)) == Dids(ConnectActions(connected, clock));
    ConnectRecords(connected, clock);
  }

  /** The metrics recorded since the last export that got through, before any of them is dropped. */
  function Backlog(connected: bool, loops: seq<Loop>): nat {
    if loops == [] then 1
    else
      var last := loops[|loops| - 1];
      if last.curlInit then 0 else Backlog(connected, loops[..|loops| - 1]) + TurnRecords(connected, last.answers)
  }

  /** In every turn, what the failed turns just before it recorded still fits with its own metrics. */
  ghost predicate BacklogFits(connected: bool, loops: seq<Loop>) {
    forall k :: 0 <= k < |loops| ==>
      Backlog(connected, loops[..k]) + TurnRecords(connected, loops[k].answers) <= 100
  }

  lemma BacklogFitsSnoc(connected: bool, before: seq<Loop>, loop: Loop)
    ensures BacklogFits(connected, before + [loop]) <==>
              BacklogFits(connected, before)
              && Backlog(connected, before) + TurnRecords(connected, loop.answers) <= 100
  {
    hide Backlog, TurnRecords;
    var loops := before + [loop];
    assert forall k :: 0 <= k <= |before| ==> loops[..k] == before[..k];
    assert loops[..|before|] == before && loops[|before|] == loop;
    if BacklogFits(connected, loops) {
      forall k | 0 <= k < |before|
        ensures Backlog(connected, before[..k]) + TurnRecords(connected, before[k].answers) <= 100
      {
        assert loops[k] == before[k];
      }
    }
  }

  /** The program's pending metrics are that backlog, and they always fit exactly when it always does. */
  lemma {:induction false} ProgramFits(connected: bool, clock: nat -> int, loops: seq<Loop>)
    ensures Pending(Program(connected, clock, loops)) == Backlog(connected, loops)
    ensures Fits(Program(connected, clock, loops)) <==> BacklogFits(connected, loops)
  {
    hide LoopActions, Dids, RecordCount, Pending, Fits, ConnectActions, BacklogFits;
    if loops == [] {
      ConnectPending(connected, clock);
      NoBacklog(connected);
    } else {
      var before, loop := loops[..|loops| - 1], loops[|loops| - 1];
      assert before + [loop] == loops;
      ProgramFits(connected, clock, before);
      FitsLoop(Program(connected, clock, before), LoopActions(connected, loop), loop.curlInit);
      LoopRecords(connected, loop);
      BacklogFitsSnoc(connected, before, loop);
    }
  }

  lemma NoBacklog(connected: bool)
    ensures BacklogFits(connected, [])
  {
  }

  /** Four metrics for each failed turn in a row at most, and one more from the start. */
  lemma {:induction false} BacklogByStreak(connected: bool, loops: seq<Loop>)
    ensures Backlog(connected, loops) <= 4 * Streak(loops) + Leftover(loops)
    ensures !connected ==> Backlog(connected, loops) == 4 * Streak(loops) + Leftover(loops)
  {
    if loops != [] {
      hide TurnRecords;
      BacklogByStreak(connected, loops[..|loops| - 1]);
    }
  }

  /** What is pending between two turns: four metrics for each failed turn in a row at most. */
  lemma PendingBetweenLoops(connected: bool, clock: nat -> int, loops: seq<Loop>)
    ensures Pending(Program(connected, clock, loops)) <= 4 * Streak(loops) + Leftover(loops)
    ensures !connected ==> Pending(Program(connected, clock, loops)) == 4 * Streak(loops) + Leftover(loops)
  {
    ProgramFits(connected, clock, loops);
    BacklogByStreak(connected, loops);
  }

  /** In every turn, four metrics for each of the failed turns just before it fit with four of its own. */
  ghost predicate ShortStreaks(loops: seq<Loop>) {
    forall k :: 0 <= k < |loops| ==>
      Leftover(loops[..k]) + 4 * (Streak(loops[..k]) + 1) <= 100
  }

  lemma ShortStreaksFit(connected: bool, loops: seq<Loop>)
    ensures ShortStreaks(loops) ==> BacklogFits(connected, loops)
    ensures !connected && BacklogFits(connected, loops) ==> ShortStreaks(loops)
  {
    hide Backlog, Streak, Leftover, TurnRecords;
    forall k | 0 <= k < |loops|
      ensures Leftover(loops[..k]) + 4 * (Streak(loops[..k]) + 1) <= 100 ==>
                Backlog(connected, loops[..k]) + TurnRecords(connected, loops[k].answers) <= 100
      ensures !connected ==>
                Leftover(loops[..k]) + 4 * (Streak(loops[..k]) + 1)
                == Backlog(connected, loops[..k]) + TurnRecords(connected, loops[k].answers)
    {
      BacklogByStreak(connected, loops[..k]);
    }
  }

  /**
    The program drops nothing exactly when in every turn the metrics recorded since the last
    export that got through, as the answers give them, stay within the capacity. They do as long
    as `1 + 4 * n` stays within it, `n` being the failed turns in a row plus the current one
    (without the 1 once an export got through); in simulated mode exactly then.
   */
  lemma ProgramDropsNothing(connected: bool, clock: nat -> int, loops: seq<Loop>)
    ensures Dropped(Program(connected, clock, loops)) == [] <==> BacklogFits(connected, loops)
    ensures ShortStreaks(loops) ==> Dropped(Program(connected, clock, loops)) == []
    ensures !connected ==> (Dropped(Program(connected, clock, loops)) == [] <==> ShortStreaks(loops))
  {
    hide Dropped, Program, ShortStreaks, BacklogFits;
    ProgramFits(connected, clock, loops);
    NothingDroppedIffFits(Program(connected, clock, loops));
    ShortStreaksFit(connected, loops);
  }

  /** Twenty-four failed turns in a row lose nothing, whatever the database answers. */
  lemma FewFailuresDropNothing(connected: bool, clock: nat -> int, loops: seq<Loop>)
    requires forall k :: 0 <= k <= |loops| ==> Streak(loops[..k]) <= 24
    requires forall k :: 0 <= k < |loops| && Streak(loops[..k]) == k ==> k <= 23
    ensures Dropped(Program(connected, clock, loops)) == []
  {
    ProgramDropsNothing(connected, clock, loops);
  }

  // ----- what a collection records

  /** The buffered metric has this name, value and labels. */
  predicate IsMetric(m: Metric, name: string, value: real, labels: string) {
    && m.name == name && m.labels == labels && m.value.Finite?
    && (if m.value.negative then -m.value.magnitude else m.value.magnitude) == value
  }

  lemma RecordKept(c: Context, name: string, value: Double, labels: Option<string>, now: int)
    requires |c.buffer| < 100 && |name| <= 255 && labels.Some? && |labels.value| <= 511
    ensures Act(c, Record(name, value, labels, now)).buffer == c.buffer + [Metric(name, value, labels.value, now)]
  {
  }

  lemma SpansOnly(c: Context, actions: seq<Action>)
    requires |actions| == 2 && !actions[0].Record? && !actions[1].Record?
    ensures Perform(c, actions).buffer == c.buffer
  {
    hide NewSpan, NewMetric;
    PerformTwo(c, actions);
  }

  /** Active, idle and all connections, under their own names. */
  lemma ConnectionsRecorded(c: Context, active: Int32, idle: Int32, total: Int32, clock: nat -> int)
    requires |c.buffer| <= 97
    ensures var b, n := Perform(c, ConnectionActions(Some((active, idle, total)), clock)).buffer, |c.buffer|;
      && |b| == n + 3 && b[..n] == c.buffer
      && IsMetric(b[n], "postgresql.connections.active", active as real, "state=active,service=pganalytics")
      && IsMetric(b[n + 1], "postgresql.connections.idle", idle as real, "state=idle,service=pganalytics")
      && IsMetric(b[n + 2], "postgresql.connections.total", total as real, "service=pganalytics")
  {
    hide NewMetric;
    var a := ConnectionActions(Some((active, idle, total)), clock);
    PerformThree(c, a);
    hide Perform;
    var c1 := Act(c, a[0]);
    var c2 := Act(c1, a[1]);
    RecordKept(c, "postgresql.connections.active", FromInt(active), ACTIVE, clock(4));
    RecordKept(c1, "postgresql.connections.idle", FromInt(idle), IDLE, clock(5));
    RecordKept(c2, "postgresql.connections.total", FromInt(total), SERVICE, clock(6));
    hide Act;
  }

  lemma RatioRecorded(c: Context, ratio: Double, clock: nat -> int)
    requires |c.buffer| <= 99
    ensures Perform(c, RatioActions(Some(ratio), clock)).buffer
         == c.buffer + [Metric("postgresql.cache.hit_ratio", ratio, "service=pganalytics", clock(10))]
  {
    hide NewMetric;
    PerformOne(c, RatioActions(Some(ratio), clock));
    RecordKept(c, "postgresql.cache.hit_ratio", ratio, SERVICE, clock(10));
    hide Act, Perform;
  }

  /** A collection on a connection records what its two queries answered, in this order. */
  lemma CollectionRecorded(c: Context, answers: Answers, clock: nat -> int)
    requires |c.buffer| <= 96
    ensures var b, n := Perform(c, DatabaseActions(answers, clock)).buffer, |c.buffer|;
      var k := if answers.connections.Some? then n + 3 else n;
      && |b| == (if answers.hitRatio.Some? then k + 1 else k) && b[..n] == c.buffer
      && (answers.connections.Some? ==>
            var (active, idle, total) := answers.connections.value;
            && IsMetric(b[n], "postgresql.connections.active", active as real, "state=active,service=pganalytics")
            && IsMetric(b[n + 1], "postgresql.connections.idle", idle as real, "state=idle,service=pganalytics")
            && IsMetric(b[n + 2], "postgresql.connections.total", total as real, "service=pganalytics"))
      && (answers.hitRatio.Some? ==>
            b[k] == Metric("postgresql.cache.hit_ratio", answers.hitRatio.value, "service=pganalytics", clock(10)))
  {
    hide Perform, ConnectionActions, RatioActions, DatabaseActions, IsMetric, Act;
    var c1 := Perform(c, DatabaseStart(clock));
    var c2 := Perform(c1, ConnectionActions(answers.connections, clock));
    var c3 := Perform(c2, DatabaseMiddle(clock));
    var c4 := Perform(c3, RatioActions(answers.hitRatio, clock));
    SpansOnly(c, DatabaseStart(clock));
    SpansOnly(c2, DatabaseMiddle(clock));
    SpansOnly(c4, DatabaseEnd(clock));
    hide DatabaseStart, DatabaseMiddle, DatabaseEnd;
    PerformDatabase(c, answers, clock);
    if answers.connections.Some? {
      var (active, idle, total) := answers.connections.value;
      ConnectionsRecorded(c1, active, idle, total, clock);
    } else {
      NothingRecorded(c1, answers, clock);
    }
    if answers.hitRatio.Some? {
      RatioRecorded(c3, answers.hitRatio.value, clock);
    } else {
      NothingRecorded(c3, answers, clock);
    }
  }

  lemma NothingRecorded(c: Context, answers: Answers, clock: nat -> int)
    ensures answers.connections.None? ==> Perform(c, ConnectionActions(answers.connections, clock)) == c
    ensures answers.hitRatio.None? ==> Perform(c, RatioActions(answers.hitRatio, clock)) == c
  {
  }

  /** A connection attempt records its outcome. */
  lemma AttemptRecorded(c: Context, connected: bool, clock: nat -> int)
    requires |c.buffer| <= 99
    ensures var b, n := Perform(c, ConnectActions(connected, clock)).buffer, |c.buffer|;
      && |b| == n + 1 && b[..n] == c.buffer
      && IsMetric(b[n], if connected then "postgresql.connection.success" else "postgresql.connection.failed", 1.0,
                  "service=pganalytics")
  {
    hide NewMetric, NewSpan;
    var a := ConnectActions(connected, clock);
    PerformThree(c, a);
    hide Perform;
    var c1 := Act(c, a[0]);
    assert c1.buffer == c.buffer;
    RecordKept(c1, if connected then "postgresql.connection.success" else "postgresql.connection.failed", ONE, SERVICE,
               clock(2));
    var c2 := Act(c1, a[1]);
    assert Act(c2, a[2]).buffer == c2.buffer;
    hide Act;
  }

  /** A simulated one records four fixed numbers. */
  lemma SimulationRecorded(c: Context, clock: nat -> int)
    requires |c.buffer| <= 96
    ensures var b, n := Perform(c, SimulatedActions(clock)).buffer, |c.buffer|;
      && |b| == n + 4 && b[..n] == c.buffer
      && IsMetric(b[n], "postgresql.connections.active", 5.0, "state=active,service=pganalytics")
      && IsMetric(b[n + 1], "postgresql.connections.idle", 10.0, "state=idle,service=pganalytics")
      && IsMetric(b[n + 2], "postgresql.cache.hit_ratio", 0.95, "service=pganalytics")
      && IsMetric(b[n + 3], "postgresql.slow_queries.count", 2.0, "service=pganalytics")
  {
    hide NewMetric, NewSpan;
    var a := SimulatedActions(clock);
    PerformSimulated(c, clock);
    hide Perform;
    var c1 := Act(c, a[0]);
    assert c1.buffer == c.buffer;
    RecordKept(c1, "postgresql.connections.active", FIVE, ACTIVE, clock(2));
    var c2 := Act(c1, a[1]);
    RecordKept(c2, "postgresql.connections.idle", TEN, IDLE, clock(3));
    var c3 := Act(c2, a[2]);
    RecordKept(c3, "postgresql.cache.hit_ratio", RATIO, SERVICE, clock(4));
    var c4 := Act(c3, a[3]);
    RecordKept(c4, "postgresql.slow_queries.count", TWO, SERVICE, clock(5));
    var c5 := Act(c4, a[4]);
    assert Act(c5, a[5]).buffer == c5.buffer;
    hide Act;
  }
}
