/**
  The OpenTelemetry client of monitoring/collector-c-otel/main.c: two bounded arrays, an export
  that resets one of them, and the loop that drives both. Clock readings, database answers and
  the outcomes of curl are parameters.
 */
module OtelClient {
  import opened Wrappers
  import opened Decimals

  const METRIC_CAPACITY := 100
  const SPAN_CAPACITY := 50

  datatype Metric = Metric(name: string, value: Double, labels: string, timestamp: int)

  datatype Span = Span(traceId: string, spanId: string, operation: string, durationMs: int, startTime: int)

  /** What `strncpy(dst, s, size - 1)` leaves in a zeroed array of `size` characters. */
  function Clip(s: string, size: nat): string
    requires size > 0
  {
    if |s| < size then s else s[..size - 1]
  }

  function NewMetric(name: string, value: Double, labels: Option<string>, now: int): Metric {
    Metric(Clip(name, 256), value, Clip(if labels.Some? then labels.value else "", 512), now)
  }

  function NewSpan(operation: string, number: nat, traced: int, now: int): Span {
    Span("trace_" + Print(IntNumeral(traced)), "span_" + Print(IntNumeral(number)), Clip(operation, 256), 0, now)
  }

  /** The used parts of the two arrays. */
  datatype Context = Context(buffer: seq<Metric>, spans: seq<Span>)

  /**
    The calls of the SDK that a program makes, each with the clock it reads. A start reads it
    twice, for the trace id and for the start time.
   */
  datatype Action =
    | Record(name: string, value: Double, labels: Option<string>, now: int)
    | Start(operation: string, traced: int, now: int)
    | End(now: int)

  function Act(c: Context, a: Action): Context {
    match a
    case Record(name, value, labels, now) =>
      if |c.buffer| >= METRIC_CAPACITY then c
      else c.(buffer := c.buffer + [NewMetric(name, value, labels, now)])
    case Start(operation, traced, now) =>
      if |c.spans| >= SPAN_CAPACITY then c
      else c.(spans := c.spans + [NewSpan(operation, |c.spans| + 1, traced, now)])
    case End(now) =>
      if |c.spans| == 0 then c
      else
        var n := |c.spans| - 1;
        c.(spans := c.spans[n := c.spans[n].(durationMs := (now - c.spans[n].startTime) * 1000)])
  }

  function Perform(c: Context, actions: seq<Action>): Context {
    if actions == [] then c else Act(Perform(c, actions[..|actions| - 1]), actions[|actions| - 1])
  }

  /** A data point of the payload. */
  datatype Point = Point(name: string, timeUnixNano: int, asDouble: Double)

  function PointOf(m: Metric): Point { Point(m.name, m.timestamp * 1_000_000_000, m.value) }

  function Points(buffer: seq<Metric>): seq<Point> {
    seq(|buffer|, i requires 0 <= i < |buffer| => PointOf(buffer[i]))
  }

  /** Answers of the two queries of one collection; `None` when a query fails or has no row. */
  datatype Answers = Answers(connections: Option<(Int32, Int32, Int32)>, hitRatio: Option<Double>)

  function FromInt(n: Int32): Double { Finite(n < 0, if n < 0 then -(n as real) else n as real) }

  const ONE: Double := Finite(false, 1.0)
  const FIVE: Double := Finite(false, 5.0)
  const TEN: Double := Finite(false, 10.0)
  const RATIO: Double := Finite(false, 0.95)
  const TWO: Double := Finite(false, 2.0)

  const SERVICE := Some("service=pganalytics")
  const ACTIVE := Some("state=active,service=pganalytics")
  const IDLE := Some("state=idle,service=pganalytics")

  /** The calls of `connect_postgresql`; `clock` gives the successive readings. */
  function ConnectActions(connected: bool, clock: nat -> int): seq<Action> {
    [Start("postgresql.connect", clock(0), clock(1)),
     Record(if connected then "postgresql.connection.success" else "postgresql.connection.failed",
            ONE, SERVICE, clock(2)),
     End(clock(3))]
  }

  /** The calls of `collect_and_instrument_metrics` without a database connection. */
  function SimulatedActions(clock: nat -> int): seq<Action> {
    [Start("metrics.collection", clock(0), clock(1)),
     Record("postgresql.connections.active", FIVE, ACTIVE, clock(2)),
     Record("postgresql.connections.idle", TEN, IDLE, clock(3)),
     Record("postgresql.cache.hit_ratio", RATIO, SERVICE, clock(4)),
     Record("postgresql.slow_queries.count", TWO, SERVICE, clock(5)),
     End(clock(6))]
  }

  function ConnectionActions(answer: Option<(Int32, Int32, Int32)>, clock: nat -> int): seq<Action> {
    match answer
    case None => []
    case Some((active, idle, total)) =>
      [Record("postgresql.connections.active", FromInt(active), ACTIVE, clock(4)),
       Record("postgresql.connections.idle", FromInt(idle), IDLE, clock(5)),
       Record("postgresql.connections.total", FromInt(total), SERVICE, clock(6))]
  }

  function RatioActions(answer: Option<Double>, clock: nat -> int): seq<Action> {
    match answer
    case None => []
    case Some(ratio) => [Record("postgresql.cache.hit_ratio", ratio, SERVICE, clock(10))]
  }

  /** The calls of `collect_and_instrument_metrics` on a live connection: two spans inside one. */
  function DatabaseActions(answers: Answers, clock: nat -> int): seq<Action> {
    DatabaseStart(clock) + ConnectionActions(answers.connections, clock) + DatabaseMiddle(clock)
    + RatioActions(answers.hitRatio, clock) + DatabaseEnd(clock)
  }

  function DatabaseStart(clock: nat -> int): seq<Action> {
    [Start("metrics.collection", clock(0), clock(1)), Start("postgresql.query.connections", clock(2), clock(3))]
  }

  function DatabaseMiddle(clock: nat -> int): seq<Action> {
    [End(clock(7)), Start("postgresql.query.cache_stats", clock(8), clock(9))]
  }

  function DatabaseEnd(clock: nat -> int): seq<Action> { [End(clock(11)), End(clock(12))] }

  class Sdk {
    const metrics: array<Metric>
    const spans: array<Span>
    var metricCount: nat
    var spanCount: nat

    ghost predicate Valid()
      reads this, metrics, spans
    {
      && metrics.Length == METRIC_CAPACITY && spans.Length == SPAN_CAPACITY
      && metricCount <= METRIC_CAPACITY && spanCount <= SPAN_CAPACITY
      && forall i :: spanCount <= i < SPAN_CAPACITY ==> spans[i].durationMs == 0
    }

    ghost function State(): Context
      requires Valid()
      reads this, metrics, spans
    {
      Context(metrics[..metricCount], spans[..spanCount])
    }

    constructor ()
      ensures Valid() && fresh(metrics) && fresh(spans) && State() == Context([], [])
    {
      metrics := new Metric[METRIC_CAPACITY](_ => Metric("", NaN, "", 0));
      spans := new Span[SPAN_CAPACITY](_ => Span("", "", "", 0, 0));
      metricCount, spanCount := 0, 0;
    }

    method RecordMetric(name: string, value: Double, labels: Option<string>, now: int)
      requires Valid()
      modifies `metricCount, metrics
      ensures Valid() && State() == Act(old(State()), Record(name, value, labels, now))
    {
      if metricCount >= METRIC_CAPACITY {
        return;
      }
      metrics[metricCount] := NewMetric(name, value, labels, now);
      metricCount := metricCount + 1;
    }

    method StartSpan(operation: string, traced: int, now: int)
      requires Valid()
      modifies `spanCount, spans
      ensures Valid() && State() == Act(old(State()), Start(operation, traced, now))
    {
      hide Print, IntNumeral, Clip;
      if spanCount >= SPAN_CAPACITY {
        return;
      }
      var kept := spans[spanCount].durationMs;
      spanCount := spanCount + 1;
      spans[spanCount - 1] :=
        Span("trace_" + Print(IntNumeral(traced)), "span_" + Print(IntNumeral(spanCount)), Clip(operation, 256), kept,
             now);
    }

    method EndSpan(now: int)
      requires Valid()
      modifies spans
      ensures Valid() && State() == Act(old(State()), End(now))
    {
      if spanCount == 0 {
        return;
      }
      var span := spans[spanCount - 1];
      spans[spanCount - 1] := span.(durationMs := (now - span.startTime) * 1000);
    }

    /** `otel_export_metrics`; the payload is what curl was handed, if it got that far. */
    method ExportMetrics(curlInit: bool, sent: bool) returns (payload: Option<seq<Point>>, rc: int)
      requires Valid()
      modifies `metricCount
      ensures Valid() && State().spans == old(State().spans)
      ensures payload == if curlInit then Some(Points(old(State().buffer))) else None
      ensures State().buffer == if curlInit then [] else old(State().buffer)
      ensures rc == if curlInit && sent then 1 else 0
    {
      if !curlInit {
        return None, 0;
      }
      var points: seq<Point> := [];
      for i := 0 to metricCount
        invariant points == Points(metrics[..i])
      {
        assert metrics[..i + 1][..i] == metrics[..i];
        points := points + [PointOf(metrics[i])];
      }
      metricCount := 0;
      return Some(points), if sent then 1 else 0;
    }

    method ConnectPostgresql(connected: bool, clock: nat -> int) returns (rc: int)
      requires Valid()
      modifies this, metrics, spans
      ensures Valid() && State() == Perform(old(State()), ConnectActions(connected, clock))
      ensures rc == if connected then 1 else 0
    {
      hide Act;
      StartSpan("postgresql.connect", clock(0), clock(1));
      if !connected {
        RecordMetric("postgresql.connection.failed", ONE, SERVICE, clock(2));
        EndSpan(clock(3));
        PerformThree(old(State()), ConnectActions(connected, clock));
        return 0;
      }
      RecordMetric("postgresql.connection.success", ONE, SERVICE, clock(2));
      EndSpan(clock(3));
      PerformThree(old(State()), ConnectActions(connected, clock));
      return 1;
    }

    method CollectAndInstrument(connected: bool, answers: Answers, clock: nat -> int)
      requires Valid()
      modifies this, metrics, spans
      ensures Valid()
      ensures State() == Perform(old(State()),
                                 if connected then DatabaseActions(answers, clock) else SimulatedActions(clock))
    {
      hide Act, Valid;
      ghost var c := State();
      StartSpan("metrics.collection", clock(0), clock(1));
      if !connected {
        RecordMetric("postgresql.connections.active", FIVE, ACTIVE, clock(2));
        RecordMetric("postgresql.connections.idle", TEN, IDLE, clock(3));
        RecordMetric("postgresql.cache.hit_ratio", RATIO, SERVICE, clock(4));
        RecordMetric("postgresql.slow_queries.count", TWO, SERVICE, clock(5));
        EndSpan(clock(6));
        PerformSimulated(c, clock);
        return;
      }
      StartSpan("postgresql.query.connections", clock(2), clock(3));
      PerformTwo(c, DatabaseStart(clock));
      ghost var c1 := State();
      if answers.connections.Some? {
        var (active, idle, total) := answers.connections.value;
        RecordMetric("postgresql.connections.active", FromInt(active), ACTIVE, clock(4));
        RecordMetric("postgresql.connections.idle", FromInt(idle), IDLE, clock(5));
        RecordMetric("postgresql.connections.total", FromInt(total), SERVICE, clock(6));
        PerformThree(c1, ConnectionActions(answers.connections, clock));
      }
      assert State() == Perform(c1, ConnectionActions(answers.connections, clock));
      ghost var c2 := State();
      EndSpan(clock(7));
      StartSpan("postgresql.query.cache_stats", clock(8), clock(9));
      PerformTwo(c2, DatabaseMiddle(clock));
      ghost var c3 := State();
      if answers.hitRatio.Some? {
        RecordMetric("postgresql.cache.hit_ratio", answers.hitRatio.value, SERVICE, clock(10));
        PerformOne(c3, RatioActions(answers.hitRatio, clock));
      }
      assert State() == Perform(c3, RatioActions(answers.hitRatio, clock));
      ghost var c4 := State();
      EndSpan(clock(11));
      EndSpan(clock(12));
      PerformTwo(c4, DatabaseEnd(clock));
      PerformDatabase(c, answers, clock);
    }
  }

  // ----- performing sequences of calls

  lemma {:induction false} PerformConcat(c: Context, a: seq<Action>, b: seq<Action>)
    ensures Perform(c, a + b) == Perform(Perform(c, a), b)
  {
    if b == [] {
      assert a + b == a;
    } else {
      assert (a + b)[..|a + b| - 1] == a + b[..|b| - 1];
      PerformConcat(c, a, b[..|b| - 1]);
    }
  }

  lemma PerformOne(c: Context, actions: seq<Action>)
    requires |actions| == 1
    ensures Perform(c, actions) == Act(c, actions[0])
  {
    assert Perform(c, actions[..0]) == c;
  }

  lemma PerformTwo(c: Context, actions: seq<Action>)
    requires |actions| == 2
    ensures Perform(c, actions) == Act(Act(c, actions[0]), actions[1])
  {
    PerformOne(c, actions[..1]);
  }

  lemma PerformThree(c: Context, actions: seq<Action>)
    requires |actions| == 3
    ensures Perform(c, actions) == Act(Act(Act(c, actions[0]), actions[1]), actions[2])
  {
    PerformTwo(c, actions[..2]);
  }

  lemma PerformSimulated(c: Context, clock: nat -> int)
    ensures var a := SimulatedActions(clock);
      Perform(c, a) == Act(Act(Act(Act(Act(Act(c, a[0]), a[1]), a[2]), a[3]), a[4]), a[5])
  {
    hide Act;
    var a := SimulatedActions(clock);
    assert a == a[..3] + a[3..];
    PerformConcat(c, a[..3], a[3..]);
    PerformThree(c, a[..3]);
    PerformThree(Perform(c, a[..3]), a[3..]);
  }

  lemma PerformDatabase(c: Context, answers: Answers, clock: nat -> int)
    ensures Perform(c, DatabaseActions(answers, clock)) ==
      Perform(Perform(Perform(Perform(Perform(c,
        DatabaseStart(clock)), ConnectionActions(answers.connections, clock)), DatabaseMiddle(clock)),
        RatioActions(answers.hitRatio, clock)), DatabaseEnd(clock))
  {
    hide Perform, ConnectionActions, RatioActions, DatabaseStart, DatabaseMiddle, DatabaseEnd;
    var a, b, d := DatabaseStart(clock), ConnectionActions(answers.connections, clock), DatabaseMiddle(clock);
    var e := RatioActions(answers.hitRatio, clock);
    PerformConcat(c, a, b);
    PerformConcat(c, a + b, d);
    PerformConcat(c, a + b + d, e);
    PerformConcat(c, a + b + d + e, DatabaseEnd(clock));
  }
}
