/**
  The text that the two exporters produce, as functions of the record and the tenant: what a
  scraper reads back from it, and how long it can get.
 */
module Exposition {
  import opened Wrappers
  import opened Decimals
  import opened TextFormat
  import opened MetricsRecord

  const HELP_LINE := "# HELP pganalytics " + "PostgreSQL Analytics Metrics"
  const TYPE_LINE := "# TYPE pganalytics_total_connections gauge"
  const FIXED_LINE := "# PostgreSQL Analytics - Enhanced Metrics"

  function Header(): string { HELP_LINE + "\n" + (TYPE_LINE + "\n") }

  /** What the secure exporter writes. */
  function Text(m: Metrics, tenant: string): string { Header() + Render(AllSamples(m, tenant)) }

  // ----- the scraper's view

  lemma CommentIgnored(line: string, rest: string)
    requires IsSkipped(line) && '\n' !in line
    ensures Parse(line + "\n" + rest) == Parse(rest)
  {
    ParseFirstLine(line, rest);
  }

  lemma HeaderIgnored(rest: string)
    ensures Parse(Header() + rest) == Parse(rest)
  {
    var second := TYPE_LINE + "\n" + rest;
    assert Header() + rest == HELP_LINE + "\n" + second;
    assert HELP_LINE[0] == '#' && TYPE_LINE[0] == '#';
    assert forall i :: 0 <= i < |HELP_LINE| ==> HELP_LINE[i] != '\n';
    assert forall i :: 0 <= i < |TYPE_LINE| ==> TYPE_LINE[i] != '\n';
    CommentIgnored(HELP_LINE, second);
    CommentIgnored(TYPE_LINE, rest);
  }

  /**
    Round trip. From the text of any record a scraper reads its samples and nothing else: under
    the tenant it was exported for, exactly the fields whose guards passed, each with the number
    its format shows.
   */
  lemma {:induction false} RoundTrip(m: Metrics, tenant: string)
    requires ValidTenant(tenant)
    ensures Parse(Text(m, tenant)) == Some(AllSamples(m, tenant))
    ensures var samples := AllSamples(m, tenant);
      && (forall s <- samples :: s.key == TENANT && s.text == tenant)
      && forall f: Field :: Lookup(samples, Name(f)) == if Passes(m, f) then Some(Shown(m, f)) else None
  {
    HeaderIgnored(Render(AllSamples(m, tenant)));
    SamplesReadable(m, tenant, ORDER);
    ParseRendered(AllSamples(m, tenant));
    forall f: Field
      ensures Lookup(AllSamples(m, tenant), Name(f)) == if Passes(m, f) then Some(Shown(m, f)) else None
    {
      LookupSamples(m, tenant, f, ORDER);
      OrderComplete(f);
    }
  }

  /**
    Two records with the same text agree, field by field, on what was exported; an exported
    integer is then the same integer.
   */
  lemma {:induction false} TextDetermines(m: Metrics, n: Metrics, tenant: string, f: Field)
    requires ValidTenant(tenant)
    ensures Text(m, tenant) == Text(n, tenant) ==>
      Passes(m, f) == Passes(n, f) && (Passes(m, f) ==> Shown(m, f) == Shown(n, f))
  {
    if Text(m, tenant) == Text(n, tenant) {
      RoundTrip(m, tenant);
      RoundTrip(n, tenant);
      var samples := AllSamples(m, tenant);
      assert samples == AllSamples(n, tenant);
      assert Lookup(samples, Name(f)) == if Passes(m, f) then Some(Shown(m, f)) else None;
      assert Lookup(samples, Name(f)) == if Passes(n, f) then Some(Shown(n, f)) else None;
    }
  }

  // ----- length

  /** The widest line of a field, for a tenant of the given length. */
  function LineWidth(f: Field, length: nat): nat {
    |Name(f)| + |Opening(TENANT)| + length + |CLOSING| + ValueWidth(f) + 1
  }

  function Width(fields: seq<Field>, length: nat): nat {
    if fields == [] then 0 else LineWidth(fields[0], length) + Width(fields[1..], length)
  }

  lemma {:induction false} SamplesWidth(m: Metrics, tenant: string, fields: seq<Field>)
    ensures |Render(Samples(m, tenant, fields))| <= Width(fields, |tenant|)
  {
    if fields != [] {
      SamplesWidth(m, tenant, fields[1..]);
      RenderConcat(Contribution(m, tenant, fields[0]), Samples(m, tenant, fields[1..]));
      ContributionWidth(m, tenant, fields[0]);
    }
  }

  lemma ContributionWidth(m: Metrics, tenant: string, f: Field)
    ensures |Render(Contribution(m, tenant, f))| <= LineWidth(f, |tenant|)
  {
    if Passes(m, f) {
      ShownWidth(m, f);
      RenderOne(SampleOf(m, tenant, f));
    }
  }

  /** `LineWidth` less the tenant. */
  function BareWidth(f: Field): nat {
    match f
    case TotalConnections => 52
    case ActiveConnections => 53
    case IdleConnections => 51
    case IdleInTransaction => 54
    case SlowQueriesCount => 53
    case AvgQueryTime => 354
    case MaxQueryTime => 354
    case CommitsTotal => 57
    case RollbacksTotal => 59
    case DatabaseSize => 63
    case LargestTableSize => 68
    case ActiveLocks => 47
    case WaitingLocks => 48
    case DeadlocksTotal => 50
    case IsPrimary => 36
    case ReplicationLagBytes => 355
    case ReplicationLagSeconds => 360
    case CacheHitRatio => 46
    case IndexHitRatio => 46
    case DatabaseConnected => 44
    case LastUpdate => 56
  }

  lemma LineWidthIsBare(f: Field, length: nat)
    ensures LineWidth(f, length) == BareWidth(f) + length
  {
    assert |PREFIX| == 12;
  }

  lemma {:induction false} WidthConcat(a: seq<Field>, b: seq<Field>, length: nat)
    ensures Width(a + b, length) == Width(a, length) + Width(b, length)
  {
    if a == [] {
      assert a + b == b;
    } else {
      assert (a + b)[1..] == a[1..] + b;
      WidthConcat(a[1..], b, length);
    }
  }

  lemma WidthOfTwo(f: Field, g: Field, length: nat)
    ensures Width([f, g], length) == BareWidth(f) + BareWidth(g) + 2 * length
  {
    LineWidthIsBare(f, length);
    LineWidthIsBare(g, length);
    assert [f, g][1..] == [g] && [g][1..] == [];
    assert Width([g], length) == LineWidth(g, length) + Width([], length);
  }

  lemma WidthOfThree(f: Field, g: Field, h: Field, length: nat)
    ensures Width([f, g, h], length) == BareWidth(f) + BareWidth(g) + BareWidth(h) + 3 * length
  {
    LineWidthIsBare(f, length);
    WidthOfTwo(g, h, length);
    assert [f, g, h][1..] == [g, h];
  }

  lemma WidthOfOrder(length: nat)
    ensures Width(ORDER, length) == Width(CONNECTIONS, length) + Width(QUERIES, length)
      + Width(TRANSACTIONS, length) + Width(SIZES, length) + Width(LOCKS, length)
      + Width(REPLICATION, length) + Width(CACHE, length) + Width(STATUS, length)
  {
    var a := CONNECTIONS + QUERIES;
    WidthConcat(CONNECTIONS, QUERIES, length);
    WidthConcat(a, TRANSACTIONS, length);
    WidthConcat(a + TRANSACTIONS, SIZES, length);
    WidthConcat(a + TRANSACTIONS + SIZES, LOCKS, length);
    WidthConcat(a + TRANSACTIONS + SIZES + LOCKS, REPLICATION, length);
    WidthConcat(a + TRANSACTIONS + SIZES + LOCKS + REPLICATION, CACHE, length);
    WidthConcat(a + TRANSACTIONS + SIZES + LOCKS + REPLICATION + CACHE, STATUS, length);
  }

  lemma FirstSections(length: nat)
    ensures Width(CONNECTIONS, length) + Width(QUERIES, length) + Width(TRANSACTIONS, length)
      + Width(SIZES, length) == 1218 + 11 * length
  {
    WidthOfTwo(TotalConnections, ActiveConnections, length);
    WidthOfTwo(IdleConnections, IdleInTransaction, length);
    assert CONNECTIONS == [TotalConnections, ActiveConnections] + [IdleConnections, IdleInTransaction];
    WidthConcat([TotalConnections, ActiveConnections], [IdleConnections, IdleInTransaction], length);
    WidthOfThree(SlowQueriesCount, AvgQueryTime, MaxQueryTime, length);
    WidthOfTwo(CommitsTotal, RollbacksTotal, length);
    WidthOfTwo(DatabaseSize, LargestTableSize, length);
  }

  lemma LastSections(length: nat)
    ensures Width(LOCKS, length) + Width(REPLICATION, length) + Width(CACHE, length)
      + Width(STATUS, length) == 1088 + 10 * length
  {
    WidthOfThree(ActiveLocks, WaitingLocks, DeadlocksTotal, length);
    WidthOfThree(IsPrimary, ReplicationLagBytes, ReplicationLagSeconds, length);
    WidthOfTwo(CacheHitRatio, IndexHitRatio, length);
    WidthOfTwo(DatabaseConnected, LastUpdate, length);
  }

  lemma TotalWidth(length: nat)
    ensures Width(ORDER, length) == 2306 + 21 * length
  {
    hide Width;
    WidthOfOrder(length);
    FirstSections(length);
    LastSections(length);
  }

  lemma HeaderWidth()
    ensures |Header()| == 91
  {
  }

  /**
    Tight size bound: no record needs more, and one record needs exactly this much for every
    tenant length.
   */
  lemma TextWidth(m: Metrics, tenant: string)
    ensures |Text(m, tenant)| <= 2397 + 21 * |tenant|
  {
    HeaderWidth();
    SamplesWidth(m, tenant, ORDER);
    TotalWidth(|tenant|);
  }

  // ----- a record that attains the bound

  const LARGEST: RawDouble := Finite(false, DBL_MAX as real)
  const FULL: RawDouble := Finite(false, 100.0)

  function Widest(): Metrics {
    Metrics(INT_MAX, INT_MAX, INT_MAX, INT_MAX, INT_MAX, LARGEST, LARGEST, LLONG_MAX, LLONG_MAX,
            LLONG_MAX, LLONG_MAX, INT_MAX, INT_MAX, INT_MAX, 1, LARGEST, LARGEST, FULL, FULL, 1, LLONG_MIN)
  }

  lemma RoundWhole(n: nat)
    ensures RoundHalfEven(n as real) == n
  {
  }

  lemma LargestNumerals()
    ensures DoubleNumeral(LARGEST, 0) == Decimal(false, DBL_MAX, 0)
    ensures DoubleNumeral(LARGEST, 2) == Decimal(false, DBL_MAX * 100, 2)
    ensures DoubleNumeral(FULL, 2) == Decimal(false, 10000, 2)
  {
    assert Pow10(0) == 1 && Pow10(2) == 100;
    RoundWhole(DBL_MAX);
    RoundWhole(DBL_MAX * 100);
    RoundWhole(10000);
  }

  lemma LargestUnits()
    ensures |Print(Decimal(false, DBL_MAX, 0))| == DOUBLE_WIDTH
  {
    DoubleMaxDigits();
    PrintIntWidth(DBL_MAX, DOUBLE_WIDTH);
    PrintIntWidth(DBL_MAX, DOUBLE_WIDTH - 1);
  }

  lemma LargestHundredths()
    ensures |Print(Decimal(false, DBL_MAX * 100, 2))| == DOUBLE_WIDTH + 3
  {
    DoubleMaxDigits();
    assert Pow10(310) == 10 * (10 * Pow10(308)) && Pow10(311) == 10 * (10 * Pow10(309));
    PrintFixedWidth(DBL_MAX * 100, 2, DOUBLE_WIDTH);
    PrintFixedWidth(DBL_MAX * 100, 2, DOUBLE_WIDTH - 1);
  }

  lemma FullRatio()
    ensures |Print(Decimal(false, 10000, 2))| == 6
  {
    assert Pow10(4) == 1_0000 && Pow10(5) == 10_0000;
    PrintFixedWidth(10000, 2, 3);
    PrintFixedWidth(10000, 2, 2);
  }

  lemma LargestWidths()
    ensures |Print(IntNumeral(INT_MAX))| == INT_WIDTH && |Print(IntNumeral(LLONG_MAX))| == LLONG_WIDTH
    ensures |Print(IntNumeral(LLONG_MIN))| == LLONG_WIDTH + 1 && |Print(IntNumeral(1))| == 1
  {
    SmallPowers();
    PrintIntWidth(INT_MAX, INT_WIDTH - 1);
    PrintIntWidth(INT_MAX, INT_WIDTH);
    PrintIntWidth(LLONG_MAX, LLONG_WIDTH - 1);
    PrintIntWidth(LLONG_MAX, LLONG_WIDTH);
    PrintIntWidth(-LLONG_MIN, LLONG_WIDTH - 1);
    PrintIntWidth(-LLONG_MIN, LLONG_WIDTH);
    assert Print(IntNumeral(LLONG_MIN)) == "-" + Digits(-LLONG_MIN);
  }

  lemma WidestField(f: Field)
    ensures Passes(Widest(), f) && |Print(Shown(Widest(), f))| == ValueWidth(f)
  {
    hide Print, DoubleNumeral, IntNumeral;
    LargestNumerals();
    LargestUnits();
    LargestHundredths();
    FullRatio();
    LargestWidths();
  }

  lemma {:induction false} WidestSamples(tenant: string, fields: seq<Field>)
    ensures |Render(Samples(Widest(), tenant, fields))| == Width(fields, |tenant|)
  {
    if fields != [] {
      var f := fields[0];
      WidestSamples(tenant, fields[1..]);
      RenderConcat(Contribution(Widest(), tenant, f), Samples(Widest(), tenant, fields[1..]));
      WidestField(f);
      RenderOne(SampleOf(Widest(), tenant, f));
    }
  }

  /** The bound of `TextWidth` is attained, for every tenant. */
  lemma {:induction false} TextWidthTight(tenant: string)
    ensures |Text(Widest(), tenant)| == 2397 + 21 * |tenant|
  {
    HeaderWidth();
    WidestSamples(tenant, ORDER);
    TotalWidth(|tenant|);
  }

  // ----- the older exporter

  /** The older exporter prints the two flags as they are. */
  function RawShown(m: Metrics, f: Field): Numeral {
    match f
    case IsPrimary => IntNumeral(m.isPrimary)
    case DatabaseConnected => IntNumeral(m.databaseConnected)
    case _ => Shown(m, f)
  }

  /** The older exporter has no guards. */
  function RawSamples(m: Metrics, tenant: string, fields: seq<Field>): seq<Sample> {
    if fields == [] then []
    else [TenantSample(Name(fields[0]), tenant, RawShown(m, fields[0]))] + RawSamples(m, tenant, fields[1..])
  }

  function FixedText(m: Metrics, tenant: string): string {
    FIXED_LINE + "\n" + Render(RawSamples(m, tenant, ORDER))
  }

  /** How much wider than in a passing record the text of a field can be. */
  function Extra(f: Field): nat {
    match f
    case CacheHitRatio | IndexHitRatio => DOUBLE_WIDTH - 2
    case IsPrimary | DatabaseConnected => INT_WIDTH
    case LastUpdate => 0
    case _ => 1
  }

  lemma RawShownWidth(m: Metrics, f: Field)
    ensures |Print(RawShown(m, f))| <= ValueWidth(f) + Extra(f)
  {
    hide Print, IntNumeral, DoubleNumeral;
    match f
    case AvgQueryTime => AnyDoubleWidth(m.avgQueryTime);
    case MaxQueryTime => AnyDoubleWidth(m.maxQueryTime);
    case ReplicationLagBytes => AnyDoubleWidth(m.replicationLagBytes);
    case ReplicationLagSeconds => AnyDoubleWidth(m.replicationLagSeconds);
    case CacheHitRatio => AnyDoubleWidth(m.cacheHitRatio);
    case IndexHitRatio => AnyDoubleWidth(m.indexHitRatio);
    case CommitsTotal => AnyIntWidth(m.commitsTotal);
    case RollbacksTotal => AnyIntWidth(m.rollbacksTotal);
    case DatabaseSize => AnyIntWidth(m.databaseSize);
    case LargestTableSize => AnyIntWidth(m.largestTableSize);
    case LastUpdate => AnyIntWidth(m.lastUpdate);
    case TotalConnections => AnyInt32Width(m.totalConnections);
    case ActiveConnections => AnyInt32Width(m.activeConnections);
    case IdleConnections => AnyInt32Width(m.idleConnections);
    case IdleInTransaction => AnyInt32Width(m.idleInTransaction);
    case SlowQueriesCount => AnyInt32Width(m.slowQueriesCount);
    case ActiveLocks => AnyInt32Width(m.activeLocks);
    case WaitingLocks => AnyInt32Width(m.waitingLocks);
    case DeadlocksTotal => AnyInt32Width(m.deadlocksTotal);
    case IsPrimary => AnyInt32Width(m.isPrimary);
    case DatabaseConnected => AnyInt32Width(m.databaseConnected);
  }

  function ExtraSum(fields: seq<Field>): nat {
    if fields == [] then 0 else Extra(fields[0]) + ExtraSum(fields[1..])
  }

  lemma {:induction false} ExtraConcat(a: seq<Field>, b: seq<Field>)
    ensures ExtraSum(a + b) == ExtraSum(a) + ExtraSum(b)
  {
    if a == [] {
      assert a + b == b;
    } else {
      assert (a + b)[1..] == a[1..] + b;
      ExtraConcat(a[1..], b);
    }
  }

  function ExtraAt(fields: seq<Field>, i: nat): nat { if i < |fields| then Extra(fields[i]) else 0 }

  lemma ExtraOfFour(fields: seq<Field>)
    requires |fields| <= 4
    ensures ExtraSum(fields) == ExtraAt(fields, 0) + ExtraAt(fields, 1) + ExtraAt(fields, 2) + ExtraAt(fields, 3)
  {
    hide Extra;
    if fields != [] {
      ExtraOfFour(fields[1..]);
    }
  }

  lemma ExtraFirst()
    ensures ExtraSum(CONNECTIONS) == 4 && ExtraSum(QUERIES) == 3
    ensures ExtraSum(TRANSACTIONS) == 2 && ExtraSum(SIZES) == 2
  {
    hide ExtraSum;
    ExtraOfFour(CONNECTIONS);
    ExtraOfFour(QUERIES);
    ExtraOfFour(TRANSACTIONS);
    ExtraOfFour(SIZES);
  }

  lemma ExtraLast()
    ensures ExtraSum(LOCKS) == 3 && ExtraSum(REPLICATION) == 12
    ensures ExtraSum(CACHE) == 614 && ExtraSum(STATUS) == 10
  {
    hide ExtraSum;
    ExtraOfFour(LOCKS);
    ExtraOfFour(REPLICATION);
    ExtraOfFour(CACHE);
    ExtraOfFour(STATUS);
  }

  lemma ExtraOfOrder()
    ensures ExtraSum(ORDER) == 650
  {
    hide ExtraSum;
    var a := CONNECTIONS + QUERIES;
    ExtraConcat(CONNECTIONS, QUERIES);
    ExtraConcat(a, TRANSACTIONS);
    ExtraConcat(a + TRANSACTIONS, SIZES);
    ExtraConcat(a + TRANSACTIONS + SIZES, LOCKS);
    ExtraConcat(a + TRANSACTIONS + SIZES + LOCKS, REPLICATION);
    ExtraConcat(a + TRANSACTIONS + SIZES + LOCKS + REPLICATION, CACHE);
    ExtraConcat(a + TRANSACTIONS + SIZES + LOCKS + REPLICATION + CACHE, STATUS);
    ExtraFirst();
    ExtraLast();
  }

  lemma {:induction false} RawSamplesWidth(m: Metrics, tenant: string, fields: seq<Field>)
    ensures |Render(RawSamples(m, tenant, fields))| <= Width(fields, |tenant|) + ExtraSum(fields)
  {
    if fields != [] {
      hide RawShown, Extra, ValueWidth, Name, Print;
      var sample := TenantSample(Name(fields[0]), tenant, RawShown(m, fields[0]));
      RawSamplesWidth(m, tenant, fields[1..]);
      RenderConcat([sample], RawSamples(m, tenant, fields[1..]));
      RenderOne(sample);
      RawShownWidth(m, fields[0]);
    }
  }

  /** Whatever the record holds, negative and non-finite numbers included. */
  lemma FixedTextWidth(m: Metrics, tenant: string)
    ensures |FixedText(m, tenant)| <= 2998 + 21 * |tenant|
  {
    hide RawSamples, Width, ExtraSum, Render;
    RawSamplesWidth(m, tenant, ORDER);
    TotalWidth(|tenant|);
    ExtraOfOrder();
    FixedLineShape();
  }

  ghost predicate AllPass(m: Metrics) {
    && m.isPrimary in {0, 1} && m.databaseConnected in {0, 1}
    && forall f: Field :: Passes(m, f)
  }

  lemma {:induction false} RawSamplesAgree(m: Metrics, tenant: string, fields: seq<Field>)
    requires AllPass(m)
    ensures RawSamples(m, tenant, fields) == Samples(m, tenant, fields)
  {
    if fields != [] {
      RawSamplesAgree(m, tenant, fields[1..]);
      assert Passes(m, fields[0]);
    }
  }

  /**
    When every guard passes and the flags are 0 or 1, both exporters emit the same sample lines
    in the same order, a scraper reads the same samples from both, and for the tenants the secure
    exporter accepts the older one fits its 4096-byte buffer.
   */
  lemma {:induction false} ExportersAgree(m: Metrics, tenant: string)
    requires AllPass(m)
    ensures Text(m, tenant)[|Header()|..] == FixedText(m, tenant)[|FIXED_LINE| + 1..]
    ensures Parse(Text(m, tenant)) == Parse(FixedText(m, tenant))
    ensures |tenant| <= 50 ==> |FixedText(m, tenant)| < 4096
  {
    RawSamplesAgree(m, tenant, ORDER);
    HeaderIgnored(Render(AllSamples(m, tenant)));
    FixedLineShape();
    CommentIgnored(FIXED_LINE, Render(AllSamples(m, tenant)));
    SamplesWidth(m, tenant, ORDER);
    TotalWidth(|tenant|);
  }

  lemma FixedLineShape()
    ensures |FIXED_LINE| == 41 && IsSkipped(FIXED_LINE) && '\n' !in FIXED_LINE
  {
    assert forall i :: 0 <= i < |FIXED_LINE| ==> FIXED_LINE[i] != '\n';
  }
}
