/**
  The span discipline of the OpenTelemetry client: `otel_end_span` always ends the span that was
  started last, and the span count never falls.
 */
module OtelSpans {
  import opened Wrappers
  import opened Decimals
  import opened OtelClient
  import OtelRuns

  const EMPTY := Context([], [])

  function Starts(actions: seq<Action>): nat {
    if actions == [] then 0
    else Starts(actions[..|actions| - 1]) + if actions[|actions| - 1].Start? then 1 else 0
  }

  /** In every run the number of spans is the number of starts, up to the capacity. */
  lemma {:induction false} SpanCount(actions: seq<Action>)
    ensures |Perform(EMPTY, actions).spans|
         == if Starts(actions) < 50 then Starts(actions) else 50
  {
    if actions != [] {
      SpanCount(actions[..|actions| - 1]);
    }
  }

  // ----- the nested discipline

  /** The spans that are open under last-in-first-out bracketing, by order of their start. */
  function Open(actions: seq<Action>): seq<nat> {
    if actions == [] then []
    else
      var before := actions[..|actions| - 1];
      match actions[|actions| - 1]
      case Start(_, _, _) => Open(before) + [Starts(before)]
      case End(_) => if Open(before) == [] then [] else Open(before)[..|Open(before)| - 1]
      case Record(_, _, _, _) => Open(before)
  }

  /** The span that the next end should close. */
  function Innermost(actions: seq<Action>): Option<nat> {
    var open := Open(actions);
    if open == [] then None else Some(open[|open| - 1])
  }

  /** The span that the next end does close: the last one in the array. */
  function Ended(actions: seq<Action>): Option<nat> {
    var n := |Perform(EMPTY, actions).spans|;
    if n == 0 then None else Some(n - 1)
  }

  /** Every start gets its slot and every end closes the span it should. */
  ghost predicate Agrees(actions: seq<Action>) {
    forall k :: 0 <= k < |actions| ==> AgreesAt(actions[..k], actions[k])
  }

  ghost predicate AgreesAt(before: seq<Action>, a: Action) {
    match a
    case Start(_, _, _) => Starts(before) < 50
    case End(_) => Ended(before) == Innermost(before)
    case Record(_, _, _, _) => true
  }

  /** Every end has a span to close, and in the end all spans are closed. */
  ghost predicate Balanced(actions: seq<Action>) {
    Open(actions) == [] && forall k :: 0 <= k < |actions| && actions[k].End? ==> Open(actions[..k]) != []
  }

  /** Each span ends before the next one starts. */
  ghost predicate Flat(actions: seq<Action>) {
    forall k :: 0 <= k <= |actions| ==> |Open(actions[..k])| <= 1
  }

  lemma PrefixOf(actions: seq<Action>, k: nat, j: nat)
    requires j <= k <= |actions|
    ensures actions[..k][..j] == actions[..j]
  {
  }

  lemma FlatPrefix(actions: seq<Action>, k: nat)
    requires Flat(actions) && k <= |actions|
    ensures Flat(actions[..k])
  {
    forall j | 0 <= j <= k
      ensures |Open(actions[..k][..j])| <= 1
    {
      PrefixOf(actions, k, j);
    }
  }

  lemma {:induction false} StartsMonotone(actions: seq<Action>, k: nat)
    requires k <= |actions|
    ensures Starts(actions[..k]) <= Starts(actions)
  {
    if k < |actions| {
      StartsMonotone(actions[..|actions| - 1], k);
      PrefixOf(actions, |actions| - 1, k);
    } else {
      assert actions[..k] == actions;
    }
  }

  /** Without nesting, the open span is the one started last. */
  lemma {:induction false} FlatOpen(actions: seq<Action>)
    requires Flat(actions)
    ensures Open(actions) == [] || (Starts(actions) > 0 && Open(actions) == [Starts(actions) - 1])
  {
    if actions != [] {
      var n := |actions| - 1;
      FlatPrefix(actions, n);
      FlatOpen(actions[..n]);
      assert actions[..|actions|] == actions;
      assert |Open(actions[..|actions|])| <= 1;
    }
  }

  /** The stack holds started spans, the outer ones started first. */
  lemma {:induction false} OpenOrdered(actions: seq<Action>)
    ensures forall i :: 0 <= i < |Open(actions)| ==> Open(actions)[i] < Starts(actions)
    ensures forall i, j :: 0 <= i < j < |Open(actions)| ==> Open(actions)[i] < Open(actions)[j]
  {
    if actions != [] {
      var before := actions[..|actions| - 1];
      OpenOrdered(before);
      match actions[|actions| - 1]
      case Start(_, _, _) =>
        assert Open(actions) == Open(before) + [Starts(before)];
      case End(_) =>
        assert Open(actions) == if Open(before) == [] then [] else Open(before)[..|Open(before)| - 1];
      case Record(_, _, _, _) =>
        assert Open(actions) == Open(before);
    }
  }

  lemma StartsSnoc(actions: seq<Action>, k: nat)
    requires k < |actions|
    ensures Starts(actions[..k + 1]) == Starts(actions[..k]) + if actions[k].Start? then 1 else 0
  {
    PrefixOf(actions, k + 1, k);
  }

  lemma FlatAgreesAt(before: seq<Action>, a: Action)
    requires Flat(before) && (a.End? ==> Open(before) != [])
    requires Starts(before) + (if a.Start? then 1 else 0) <= 50
    ensures AgreesAt(before, a)
  {
    hide Open, Starts, Perform, Flat;
    FlatOpen(before);
    SpanCount(before);
  }

  lemma FlatAgrees(actions: seq<Action>)
    requires Flat(actions) && Balanced(actions) && Starts(actions) <= 50
    ensures Agrees(actions)
  {
    forall k | 0 <= k < |actions|
      ensures AgreesAt(actions[..k], actions[k])
    {
      hide Open, Starts, AgreesAt, Flat;
      FlatPrefix(actions, k);
      StartsSnoc(actions, k);
      StartsMonotone(actions, k + 1);
      assert actions[k].End? ==> Open(actions[..k]) != [];
      FlatAgreesAt(actions[..k], actions[k]);
    }
  }

  lemma OpenSnoc(before: seq<Action>, a: Action)
    ensures Open(before + [a]) ==
      match a
      case Start(_, _, _) => Open(before) + [Starts(before)]
      case End(_) => (if Open(before) == [] then [] else Open(before)[..|Open(before)| - 1])
      case Record(_, _, _, _) => Open(before)
  {
    assert (before + [a])[..|before|] == before;
  }

  /** Under agreement, an end never closes a span that another one has been started in. */
  lemma OuterKept(before: seq<Action>, a: Action)
    requires AgreesAt(before, a) && 0 < Starts(before) <= 50
    requires Open(before) != [] && Open(before)[0] < Starts(before) - 1
    ensures Open(before + [a]) != [] && Open(before + [a])[0] == Open(before)[0]
  {
    hide Open, Starts, Perform;
    OpenSnoc(before, a);
    SpanCount(before);
  }

  /** An outer span that agreement leaves at the bottom of the stack is never closed. */
  lemma {:induction false} OuterStaysOpen(actions: seq<Action>, k: nat)
    requires k <= |actions| && Agrees(actions) && |Open(actions[..k])| >= 2
    ensures Open(actions) != [] && Open(actions)[0] == Open(actions[..k])[0]
    ensures Open(actions)[0] < Starts(actions[..k]) - 1
  {
    hide Open, Agrees, Starts, AgreesAt;
    OpenOrdered(actions[..k]);
    assert Open(actions[..k])[0] < Open(actions[..k])[1] < Starts(actions[..k]);
    if k == |actions| {
      assert actions[..k] == actions;
    } else {
      var n := |actions| - 1;
      PrefixOf(actions, n, k);
      AgreesPrefix(actions, n);
      OuterStaysOpen(actions[..n], k);
      AgreesLast(actions);
      StartsWithinCapacity(actions[..n]);
      StartsMonotone(actions[..n], k);
      OuterKept(actions[..n], actions[n]);
      assert actions == actions[..n] + [actions[n]];
    }
  }

  lemma AgreesLast(actions: seq<Action>)
    requires Agrees(actions) && actions != []
    ensures AgreesAt(actions[..|actions| - 1], actions[|actions| - 1])
  {
    var n := |actions| - 1;
    assert AgreesAt(actions[..n], actions[n]);
  }

  lemma {:induction false} StartsWithinCapacity(actions: seq<Action>)
    requires Agrees(actions)
    ensures Starts(actions) <= 50
  {
    if actions != [] {
      var n := |actions| - 1;
      assert AgreesAt(actions[..n], actions[n]);
      AgreesPrefix(actions, n);
      StartsWithinCapacity(actions[..n]);
    }
  }

  /**
    For every run whose spans are properly bracketed: the span array follows the bracketing
    exactly when no span is nested in another and at most fifty are started.
   */
  lemma AgreesIffFlat(actions: seq<Action>)
    requires Balanced(actions)
    ensures Agrees(actions) <==> Flat(actions) && Starts(actions) <= 50
  {
    if Agrees(actions) {
      StartsWithinCapacity(actions);
      forall k | 0 <= k <= |actions|
        ensures |Open(actions[..k])| <= 1
      {
        if |Open(actions[..k])| >= 2 {
          OuterStaysOpen(actions, k);
        }
      }
    } else if Flat(actions) && Starts(actions) <= 50 {
      FlatAgrees(actions);
    }
  }

  /** What a tracer without a capacity and with a stack of open spans would have recorded. */
  function Reference(actions: seq<Action>): (spans: seq<Span>)
    ensures |spans| == Starts(actions)
  {
    if actions == [] then []
    else
      var before := actions[..|actions| - 1];
      var spans := Reference(before);
      match actions[|actions| - 1]
      case Start(operation, traced, now) => spans + [NewSpan(operation, |spans| + 1, traced, now)]
      case End(now) =>
        (match Innermost(before)
         case None => spans
         case Some(i) =>
           OpenOrdered(before);
           spans[i := spans[i].(durationMs := (now - spans[i].startTime) * 1000)])
      case Record(_, _, _, _) => spans
  }

  lemma ReferenceStep(before: seq<Action>, a: Action)
    requires AgreesAt(before, a) && Perform(EMPTY, before).spans == Reference(before)
    ensures Perform(EMPTY, before + [a]).spans == Reference(before + [a])
  {
    hide NewSpan, NewMetric, Open, Starts;
    var all := before + [a];
    assert all[..|before|] == before;
    assert Perform(EMPTY, all) == Act(Perform(EMPTY, before), a);
  }

  /** As long as the run agrees with the bracketing, the array is the stack tracer's record. */
  lemma {:induction false} AgreesWithReference(actions: seq<Action>)
    requires Agrees(actions)
    ensures Perform(EMPTY, actions).spans == Reference(actions)
  {
    if actions != [] {
      hide Agrees, AgreesAt, Perform, Reference;
      var n := |actions| - 1;
      AgreesPrefix(actions, n);
      AgreesWithReference(actions[..n]);
      AgreesLast(actions);
      ReferenceStep(actions[..n], actions[n]);
      assert actions == actions[..n] + [actions[n]];
    }
  }

  lemma AgreesPrefix(actions: seq<Action>, k: nat)
    requires Agrees(actions) && k <= |actions|
    ensures Agrees(actions[..k])
  {
    forall j | 0 <= j < k
      ensures AgreesAt(actions[..k][..j], actions[..k][j])
    {
      PrefixOf(actions, k, j);
      assert AgreesAt(actions[..j], actions[j]);
    }
  }

  // ----- the fields of a span

  /**
    A span that is ended next: the operation up to its buffer, an id with its number, a trace id
    with the time, and the duration in milliseconds.
   */
  lemma SpanFields(c: Context, operation: string, traced: int, now: int, later: int)
    requires |c.spans| < 50
    ensures var spans, n := Act(Act(c, Start(operation, traced, now)), End(later)).spans, |c.spans|;
      && |spans| == n + 1 && spans[..n] == c.spans
      && spans[n].operation == (if |operation| <= 255 then operation else operation[..255])
      && spans[n].startTime == now && spans[n].durationMs == 1000 * (later - now)
      && Numbered(spans[n].spanId, "span_", n + 1) && Numbered(spans[n].traceId, "trace_", traced)
  {
    NumberedText("span_", |c.spans| + 1);
    NumberedText("trace_", traced);
    hide Print, Numbered;
  }

  /** A prefix and a decimal number. */
  predicate Numbered(text: string, prefix: string, number: int) {
    && prefix <= text
    && ReadNumeral(text[|prefix|..]) == Some(Decimal(number < 0, if number < 0 then -number else number, 0))
  }

  lemma NumberedText(prefix: string, number: int)
    ensures Numbered(prefix + Print(IntNumeral(number)), prefix, number)
  {
    ReadPrinted(IntNumeral(number));
    assert (prefix + Print(IntNumeral(number)))[|prefix|..] == Print(IntNumeral(number));
    hide ReadNumeral, Print;
  }

  // ----- durations

  /** Whatever happens later, only the last span so far can still change. */
  lemma {:induction false} EarlierSpansFrozen(c: Context, actions: seq<Action>)
    ensures |c.spans| <= |Perform(c, actions).spans|
    ensures c.spans != [] ==>
      Perform(c, actions).spans[..|c.spans| - 1] == c.spans[..|c.spans| - 1]
  {
    if actions != [] {
      hide NewSpan, NewMetric;
      EarlierSpansFrozen(c, actions[..|actions| - 1]);
    }
  }

  lemma {:induction false} RecordsKeepSpans(c: Context, actions: seq<Action>)
    requires forall a <- actions :: a.Record?
    ensures Perform(c, actions).spans == c.spans
  {
    if actions != [] {
      hide NewSpan, NewMetric;
      RecordsKeepSpans(c, actions[..|actions| - 1]);
      assert actions[|actions| - 1] in actions;
    }
  }

  /**
    A span inside which another one is started keeps duration zero for the rest of the run,
    even after its own end.
   */
  lemma OuterNeverTimed(c: Context, outer: Action, middle: seq<Action>, inner: Action, rest: seq<Action>)
    requires outer.Start? && inner.Start? && forall a <- middle :: a.Record?
    requires |c.spans| + 2 <= 50
    ensures var spans := Perform(c, [outer] + middle + [inner] + rest).spans;
      |c.spans| < |spans| && spans[|c.spans|] == NewSpan(outer.operation, |c.spans| + 1, outer.traced, outer.now)
  {
    var c1 := Perform(c, [outer]);
    var c2 := Perform(c1, middle);
    var c3 := Perform(c2, [inner]);
    PerformOne(c, [outer]);
    RecordsKeepSpans(c1, middle);
    PerformOne(c2, [inner]);
    PerformConcat(c, [outer], middle);
    PerformConcat(c, [outer] + middle, [inner]);
    PerformConcat(c, [outer] + middle + [inner], rest);
    EarlierSpansFrozen(c3, rest);
    var n := |c.spans|;
    assert c3.spans[..n + 1][n] == c3.spans[n];
    assert Perform(c3, rest).spans[..n + 1][n] == Perform(c3, rest).spans[n];
  }

  /** In the program, a collection on a live connection never times its outer span. */
  lemma CollectionNeverTimed(c: Context, answers: Answers, clock: nat -> int, rest: seq<Action>)
    requires |c.spans| + 2 <= 50
    ensures var spans := Perform(c, DatabaseActions(answers, clock) + rest).spans;
      |c.spans| < |spans|
      && spans[|c.spans|] == NewSpan("metrics.collection", |c.spans| + 1, clock(0), clock(1))
  {
    var outer, inner := DatabaseStart(clock)[0], DatabaseStart(clock)[1];
    var tail := ConnectionActions(answers.connections, clock) + DatabaseMiddle(clock)
      + RatioActions(answers.hitRatio, clock) + DatabaseEnd(clock) + rest;
    assert DatabaseStart(clock) == [outer] + [] + [inner];
    assert DatabaseActions(answers, clock) + rest == [outer] + [] + [inner] + tail;
    OuterNeverTimed(c, outer, [], inner, tail);
  }

  predicate IsSpan(s: Span, operation: string, startTime: int, durationMs: int) {
    s.operation == operation && s.startTime == startTime && s.durationMs == durationMs
  }

  lemma SpanStarted(c: Context, operation: string, traced: int, now: int) returns (span: Span)
    requires |c.spans| < 50 && |operation| <= 255
    ensures Act(c, Start(operation, traced, now)).spans == c.spans + [span] && IsSpan(span, operation, now, 0)
  {
    hide Print;
    span := NewSpan(operation, |c.spans| + 1, traced, now);
  }

  lemma LastEnded(c: Context, front: seq<Span>, last: Span, now: int) returns (span: Span)
    requires c.spans == front + [last]
    ensures Act(c, End(now)).spans == front + [span]
    ensures IsSpan(span, last.operation, last.startTime, 1000 * (now - last.startTime))
  {
    span := last.(durationMs := 1000 * (now - last.startTime));
  }

  lemma BothStarted(c: Context, clock: nat -> int) returns (outer: Span, first: Span)
    requires |c.spans| + 2 <= 50
    ensures Perform(c, DatabaseStart(clock)).spans == c.spans + [outer] + [first]
    ensures IsSpan(outer, "metrics.collection", clock(1), 0)
    ensures IsSpan(first, "postgresql.query.connections", clock(3), 0)
  {
    PerformTwo(c, DatabaseStart(clock));
    hide Perform, Act;
    outer := SpanStarted(c, "metrics.collection", clock(0), clock(1));
    var d := Act(c, Start("metrics.collection", clock(0), clock(1)));
    first := SpanStarted(d, "postgresql.query.connections", clock(2), clock(3));
  }

  lemma NextStarted(c: Context, front: seq<Span>, first: Span, clock: nat -> int) returns (ended: Span, second: Span)
    requires c.spans == front + [first] && |front| + 2 <= 50
    ensures Perform(c, DatabaseMiddle(clock)).spans == front + [ended] + [second]
    ensures IsSpan(ended, first.operation, first.startTime, 1000 * (clock(7) - first.startTime))
    ensures IsSpan(second, "postgresql.query.cache_stats", clock(9), 0)
  {
    PerformTwo(c, DatabaseMiddle(clock));
    hide Perform, Act;
    ended := LastEnded(c, front, first, clock(7));
    second := SpanStarted(Act(c, End(clock(7))), "postgresql.query.cache_stats", clock(8), clock(9));
  }

  lemma EndedTwice(c: Context, front: seq<Span>, second: Span, clock: nat -> int) returns (twice: Span)
    requires c.spans == front + [second]
    ensures Perform(c, DatabaseEnd(clock)).spans == front + [twice]
    ensures IsSpan(twice, second.operation, second.startTime, 1000 * (clock(12) - second.startTime))
  {
    PerformTwo(c, DatabaseEnd(clock));
    hide Perform, Act;
    var once := LastEnded(c, front, second, clock(11));
    twice := LastEnded(Act(c, End(clock(11))), front, once, clock(12));
  }

  lemma AnswersKeepSpans(c: Context, answers: Answers, clock: nat -> int)
    ensures Perform(c, ConnectionActions(answers.connections, clock)).spans == c.spans
    ensures Perform(c, RatioActions(answers.hitRatio, clock)).spans == c.spans
  {
    assert forall a <- ConnectionActions(answers.connections, clock) :: a.Record?;
    assert forall a <- RatioActions(answers.hitRatio, clock) :: a.Record?;
    RecordsKeepSpans(c, ConnectionActions(answers.connections, clock));
    RecordsKeepSpans(c, RatioActions(answers.hitRatio, clock));
    hide Perform;
  }

  /**
    The three spans of a collection on a connection, as they stay: the outer one without a
    duration, the first query with its own, and the second one measured up to the end of all.
   */
  lemma CollectionSpans(c: Context, answers: Answers, clock: nat -> int)
    requires |c.spans| + 3 <= 50
    ensures var spans, n := Perform(c, DatabaseActions(answers, clock)).spans, |c.spans|;
      && |spans| == n + 3 && spans[..n] == c.spans
      && IsSpan(spans[n], "metrics.collection", clock(1), 0)
      && IsSpan(spans[n + 1], "postgresql.query.connections", clock(3), 1000 * (clock(7) - clock(3)))
      && IsSpan(spans[n + 2], "postgresql.query.cache_stats", clock(9), 1000 * (clock(12) - clock(9)))
  {
    hide Perform, Act, ConnectionActions, RatioActions, DatabaseStart, DatabaseMiddle, DatabaseEnd, DatabaseActions;
    var c1 := Perform(c, DatabaseStart(clock));
    var c2 := Perform(c1, ConnectionActions(answers.connections, clock));
    var c3 := Perform(c2, DatabaseMiddle(clock));
    var c4 := Perform(c3, RatioActions(answers.hitRatio, clock));
    PerformDatabase(c, answers, clock);
    var outer, first := BothStarted(c, clock);
    AnswersKeepSpans(c1, answers, clock);
    var ended, second := NextStarted(c2, c.spans + [outer], first, clock);
    AnswersKeepSpans(c3, answers, clock);
    var twice := EndedTwice(c4, c.spans + [outer] + [ended], second, clock);
    ThreeMore(c.spans, outer, ended, twice);
  }

  lemma ThreeMore<T>(s: seq<T>, a: T, b: T, c: T)
    ensures var all, n := s + [a] + [b] + [c], |s|;
      |all| == n + 3 && all[..n] == s && all[n] == a && all[n + 1] == b && all[n + 2] == c
  {
  }

  // ----- the program

  /** The calls of `main`: one connection attempt, then one collection for each turn of the loop. */
  function ProgramActions(connected: bool, clock: nat -> int, loops: seq<OtelRuns.Loop>): seq<Action> {
    if loops == [] then ConnectActions(connected, clock)
    else
      ProgramActions(connected, clock, loops[..|loops| - 1])
      + OtelRuns.LoopActions(connected, loops[|loops| - 1])
  }

  lemma {:induction false} StartsConcat(a: seq<Action>, b: seq<Action>)
    ensures Starts(a + b) == Starts(a) + Starts(b)
  {
    if b == [] {
      assert a + b == a;
    } else {
      assert (a + b)[..|a + b| - 1] == a + b[..|b| - 1];
      StartsConcat(a, b[..|b| - 1]);
    }
  }

  /** After a bracketed stretch, as many spans are open as if it had not been. */
  lemma {:induction false} DepthConcat(a: seq<Action>, b: seq<Action>)
    requires Open(a) == []
    ensures |Open(a + b)| == |Open(b)|
  {
    if b == [] {
      assert a + b == a;
    } else {
      var n := |b| - 1;
      assert a + b == (a + b[..n]) + [b[n]] && b == b[..n] + [b[n]];
      DepthConcat(a, b[..n]);
      OpenSnoc(a + b[..n], b[n]);
      OpenSnoc(b[..n], b[n]);
      hide Open;
    }
  }

  lemma {:induction false} RecordsKeepOpen(before: seq<Action>, records: seq<Action>)
    requires forall a <- records :: a.Record?
    ensures Open(before + records) == Open(before)
  {
    hide Open;
    if records == [] {
      assert before + records == before;
    } else {
      var n := |records| - 1;
      assert before + records == (before + records[..n]) + [records[n]] && records[n] in records;
      RecordsKeepOpen(before, records[..n]);
      OpenSnoc(before + records[..n], records[n]);
    }
  }

  lemma DepthSnoc(before: seq<Action>, a: Action)
    ensures |Open(before + [a])| == |Open(before)|
      + (if a.Start? then 1 else if a.End? && Open(before) != [] then -1 else 0)
  {
    OpenSnoc(before, a);
  }

  lemma FlatBalancedConcat(a: seq<Action>, b: seq<Action>)
    requires Flat(a) && Balanced(a) && Flat(b) && Balanced(b)
    ensures Flat(a + b) && Balanced(a + b)
  {
    hide Open;
    var all := a + b;
    DepthConcat(a, b);
    forall k | 0 <= k <= |all|
      ensures |Open(all[..k])| <= 1
      ensures k < |all| && all[k].End? ==> Open(all[..k]) != []
    {
      if k < |a| {
        assert all[..k] == a[..k];
      } else {
        assert all[..k] == a + b[..k - |a|];
        DepthConcat(a, b[..k - |a|]);
      }
    }
  }

  lemma NothingOpen()
    ensures Open([]) == []
  {
  }

  /** A span around records is flat and balanced. */
  lemma OneSpan(first: Action, records: seq<Action>, last: Action)
    requires first.Start? && last.End? && forall a <- records :: a.Record?
    ensures var all := [first] + records + [last];
      Flat(all) && Balanced(all) && Starts(all) == 1
  {
    var all := [first] + records + [last];
    NothingOpen();
    DepthSnoc([], first);
    hide Open;
    assert [] + [first] == [first] && all[..0] == [];
    forall k | 0 < k < |all|
      ensures |Open(all[..k])| == 1 && (all[k].End? ==> k == |all| - 1)
    {
      assert all[..k] == [first] + records[..k - 1];
      assert forall a <- records[..k - 1] :: a in records;
      assert k < |all| - 1 ==> all[k] == records[k - 1] && records[k - 1] in records;
      RecordsKeepOpen([first], records[..k - 1]);
    }
    assert all == all[..|all| - 1] + [last] && all[..|all|] == all;
    DepthSnoc(all[..|all| - 1], last);
    StartsConcat([first] + records, [last]);
    StartsConcat([first], records);
    NoStarts(records);
  }

  lemma {:induction false} NoStarts(records: seq<Action>)
    requires forall a <- records :: a.Record?
    ensures Starts(records) == 0
  {
    if records != [] {
      assert records[|records| - 1] in records;
      NoStarts(records[..|records| - 1]);
    }
  }

  lemma {:induction false} SimulatedProgram(clock: nat -> int, loops: seq<OtelRuns.Loop>)
    ensures var all := ProgramActions(false, clock, loops);
      Flat(all) && Balanced(all) && Starts(all) == 1 + |loops|
  {
    hide Flat, Balanced, Starts;
    if loops == [] {
      var a := ConnectActions(false, clock);
      assert a == [a[0]] + a[1..2] + [a[2]];
      OneSpan(a[0], a[1..2], a[2]);
    } else {
      var before := ProgramActions(false, clock, loops[..|loops| - 1]);
      var a := SimulatedActions(loops[|loops| - 1].clock);
      SimulatedProgram(clock, loops[..|loops| - 1]);
      assert a == [a[0]] + a[1..5] + [a[5]];
      OneSpan(a[0], a[1..5], a[5]);
      FlatBalancedConcat(before, a);
      StartsConcat(before, a);
    }
  }

  /** A collection on a connection opens two spans at once, and closes them all. */
  lemma DatabaseDepth(answers: Answers, clock: nat -> int)
    ensures |Open(DatabaseStart(clock))| == 2 && Open(DatabaseActions(answers, clock)) == []
  {
    hide Open;
    var a, b := DatabaseStart(clock), ConnectionActions(answers.connections, clock);
    var c, d, e := DatabaseMiddle(clock), RatioActions(answers.hitRatio, clock), DatabaseEnd(clock);
    NothingOpen();
    DepthTwo([], a[0], a[1]);
    assert [] + a == a;
    RecordsKeepOpen(a, b);
    DepthTwo(a + b, c[0], c[1]);
    RecordsKeepOpen(a + b + c, d);
    DepthTwo(a + b + c + d, e[0], e[1]);
  }

  lemma DepthTwo(before: seq<Action>, a: Action, b: Action)
    ensures a.Start? && b.Start? ==> |Open(before + [a, b])| == |Open(before)| + 2
    ensures a.End? && b.Start? && Open(before) != [] ==> |Open(before + [a, b])| == |Open(before)|
    ensures a.End? && b.End? && |Open(before)| >= 2 ==> |Open(before + [a, b])| == |Open(before)| - 2
  {
    hide Open;
    assert before + [a, b] == (before + [a]) + [b];
    DepthSnoc(before, a);
    DepthSnoc(before + [a], b);
  }

  lemma {:induction false} ConnectedProgram(clock: nat -> int, loops: seq<OtelRuns.Loop>)
    ensures Open(ProgramActions(true, clock, loops)) == []
    ensures loops == [] ==> Agrees(ProgramActions(true, clock, loops))
    ensures loops != [] ==> !Agrees(ProgramActions(true, clock, loops))
  {
    hide Open, Agrees, Flat, Balanced, Starts, DatabaseActions, DatabaseStart;
    var all := ProgramActions(true, clock, loops);
    if loops == [] {
      assert all == [all[0]] + all[1..2] + [all[2]];
      OneSpan(all[0], all[1..2], all[2]);
      AgreesIffFlat(all);
      BalancedCloses(all);
    } else {
      var loop := loops[|loops| - 1];
      var before, turn := ProgramActions(true, clock, loops[..|loops| - 1]), DatabaseActions(loop.answers, loop.clock);
      ConnectedProgram(clock, loops[..|loops| - 1]);
      DatabaseDepth(loop.answers, loop.clock);
      DepthConcat(before, turn);
      DepthConcat(before, DatabaseStart(loop.clock));
      var k := |before| + |DatabaseStart(loop.clock)|;
      StartFirst(before, loop.answers, loop.clock);
      if Agrees(all) {
        OuterStaysOpen(all, k);
      }
    }
  }

  lemma BalancedCloses(actions: seq<Action>)
    requires Balanced(actions)
    ensures Open(actions) == []
  {
  }

  lemma StartFirst(before: seq<Action>, answers: Answers, clock: nat -> int)
    ensures var all := before + DatabaseActions(answers, clock); var k := |before| + |DatabaseStart(clock)|;
      k <= |all| && all[..k] == before + DatabaseStart(clock)
  {
  }

  /**
    The program records its spans as bracketed exactly until the first turn on a connection, and
    in simulated mode for 49 turns; as long as it does, the array is the stack tracer's record.
   */
  lemma ProgramSpansAgree(connected: bool, clock: nat -> int, loops: seq<OtelRuns.Loop>)
    ensures var all := ProgramActions(connected, clock, loops);
      && (Agrees(all) <==> loops == [] || (!connected && |loops| < 50))
      && (Agrees(all) ==> Perform(EMPTY, all).spans == Reference(all))
  {
    hide Perform, Reference, Flat, Balanced, Agrees, Starts;
    var all := ProgramActions(connected, clock, loops);
    if connected {
      ConnectedProgram(clock, loops);
    } else {
      SimulatedProgram(clock, loops);
      AgreesIffFlat(all);
    }
    if Agrees(all) {
      AgreesWithReference(all);
    }
  }
}
