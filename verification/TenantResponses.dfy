/**
  The /metrics response of the multi-tenant collector: a body built by `strcat` in a buffer of
  16384 bytes, sent through a buffer of 4096 bytes that also holds the HTTP header.
 */
module TenantResponses {
  import opened Wrappers
  import opened CStrings
  import opened Decimals
  import opened TextFormat
  import opened MetricsRecord
  import opened MultiTenant

  const BUFFER_SIZE := 4096
  const BODY_SIZE := 16384
  const LINE_SIZE := 512

  const COMMENT := "# Multi-tenant " + "PostgreSQL metrics"
  const TITLE := COMMENT + "\n"
  const INFO := "pganalytics_info" + "{version=\"1.0\"} 1\n\n"

  function IntOf(r: Reading<Int64>): Int64 { if r.Initial? then 0 else r.value }

  function DoubleOf(r: Reading<Double>): Double { if r.Initial? then Finite(false, 0.0) else r.value }

  function FlagOf(r: Reading<bool>): bool { r.Queried? && r.value }

  /** The five samples of one tenant. */
  function TotalSample(t: Slot): Sample {
    TenantSample(PREFIX + "total_connections", t.tenantId, IntNumeral(IntOf(t.totalConnections)))
  }

  function ActiveSample(t: Slot): Sample {
    TenantSample(PREFIX + "active_connections", t.tenantId, IntNumeral(IntOf(t.activeConnections)))
  }

  function RatioSample(t: Slot): Sample {
    TenantSample(PREFIX + "cache_hit_ratio", t.tenantId, DoubleNumeral(DoubleOf(t.cacheHitRatio), 2))
  }

  function SizeSample(t: Slot): Sample {
    TenantSample(PREFIX + "database_size_bytes", t.tenantId, IntNumeral(IntOf(t.databaseSize)))
  }

  function ConnectedSample(t: Slot): Sample {
    TenantSample(PREFIX + "database_connected", t.tenantId, IntNumeral(if FlagOf(t.databaseConnected) then 1 else 0))
  }

  function SlotSamples(t: Slot): seq<Sample> {
    [TotalSample(t), ActiveSample(t), RatioSample(t), SizeSample(t), ConnectedSample(t)]
  }

  /** The samples of the given slots, in slot order. */
  function TenantSamples(slots: seq<Slot>): seq<Sample> {
    if slots == [] then [] else TenantSamples(slots[..|slots| - 1]) + SlotSamples(slots[|slots| - 1])
  }

  function Scraped(s: State): seq<Slot>
    requires s.count <= |s.slots|
  {
    s.slots[..s.count]
  }

  function Body(slots: seq<Slot>): string { TITLE + INFO + Render(TenantSamples(slots)) }

  function Line(s: Sample): string { RenderLine(s) + "\n" }

  const HEAD_START := "HTTP/1.1 200 OK\r\n" + "Content-Type: text/plain\r\n" + "Content-Length: "
  const HEAD_END := "\r\nConnection: close\r\n\r\n"

  function Head(length: nat): string { HEAD_START + Digits(length) + HEAD_END }

  /** What is sent for a body: header and body, cut to the response buffer. */
  function Sent(body: string): string { Cut(Head(|body|) + body, BUFFER_SIZE) }

  // ----- the code

  /** One `snprintf` into `temp` and the `strcat` after it; a failure is a write past the end of the body. */
  method AppendLine(body: array<char>, temp: array<char>, s: Sample, ghost before: string) returns (r: Wrappers.Outcome)
    requires body != temp && temp.Length == LINE_SIZE
    requires Holds(body, before) && NUL !in Line(s) && |Line(s)| < LINE_SIZE
    modifies body, temp
    ensures r.Pass? <==> |before| + |Line(s)| < body.Length
    ensures r.Pass? ==> Holds(body, before + Line(s))
  {
    hide Line;
    Format(temp, Line(s));
    var line := TextIn(temp, Line(s));
    r := Strcat(body, line, before);
  }

  /** The five lines of one tenant. */
  method AppendTenant(body: array<char>, temp: array<char>, t: Slot, ghost before: string) returns (r: Wrappers.Outcome)
    requires body != temp && temp.Length == LINE_SIZE && Holds(body, before)
    modifies body, temp
    ensures r.Pass? <==> |before| + |Render(SlotSamples(t))| < body.Length
    ensures r.Pass? ==> Holds(body, before + Render(SlotSamples(t)))
  {
    RenderFive(t);
    LinesFit(t);
    SlotHasNoNul(t);
    hide Line, Render, SlotSamples, Holds;
    ghost var a, b := before + Line(TotalSample(t)), before + Line(TotalSample(t)) + Line(ActiveSample(t));
    ghost var c := b + Line(RatioSample(t));
    ghost var d := c + Line(SizeSample(t));
    assert d + Line(ConnectedSample(t)) == before + Render(SlotSamples(t));
    :- AppendLine(body, temp, TotalSample(t), before);
    :- AppendLine(body, temp, ActiveSample(t), a);
    :- AppendLine(body, temp, RatioSample(t), b);
    :- AppendLine(body, temp, SizeSample(t), c);
    r := AppendLine(body, temp, ConnectedSample(t), d);
  }

  /** The zeroed buffer with its two header lines. */
  method StartBody() returns (buffer: array<char>)
    ensures fresh(buffer) && buffer.Length == BODY_SIZE && Holds(buffer, TITLE + INFO)
  {
    HeaderHasNoNul();
    HeaderLines();
    buffer := new char[BODY_SIZE](_ => NUL);
    assert buffer[..0] == "";
    var r := Strcat(buffer, TITLE, "");
    assert "" + TITLE == TITLE;
    r := Strcat(buffer, INFO, TITLE);
  }

  /**
    The body that `handle_metrics_request` builds under its lock; `None` when an append runs past
    the buffer, which C leaves undefined.
   */
  method BuildBody(c: Collector) returns (body: Option<string>)
    requires c.Valid()
    ensures var whole := Body(Scraped(c.Now())); body == if |whole| < 16384 then Some(whole) else None
  {
    hide Body, Render, SlotSamples, TenantSamples;
    ghost var slots := Scraped(c.Now());
    BodyOfNone(slots);
    var temp := new char[LINE_SIZE];
    var buffer := StartBody();
    for i := 0 to c.count
      invariant Holds(buffer, Body(slots[..i]))
    {
      hide Holds;
      BodyGrows(slots, i);
      if c.tenants[i].active {
        var r := AppendTenant(buffer, temp, c.tenants[i], Body(slots[..i]));
        if r.Fail? {
          return None;
        }
      }
    }
    assert slots[..c.count] == slots;
    var text := TextIn(buffer, Body(slots));
    return Some(text);
  }

  /** `send_response` */
  method SendResponse(body: string) returns (sent: string)
    requires NUL !in body
    ensures sent == Sent(body)
  {
    HeadHasNoNul(|body|);
    hide Head;
    var response := new char[BUFFER_SIZE];
    Format(response, Head(|body|) + body);
    sent := TextIn(response, Sent(body));
  }

  /** `handle_metrics_request` and `send_response` */
  method HandleMetricsRequest(c: Collector) returns (sent: Option<string>)
    requires c.Valid()
    ensures var body := Body(Scraped(c.Now())); sent == if |body| < 16384 then Some(Sent(body)) else None
  {
    BodyHasNoNul(Scraped(c.Now()));
    hide Body, Sent;
    var body := BuildBody(c);
    if body.None? {
      return None;
    }
    var text := SendResponse(body.value);
    return Some(text);
  }

  // ----- what has been appended

  lemma BodyOfNone(slots: seq<Slot>)
    ensures slots[..0] == [] && Body(slots[..0]) == TITLE + INFO
    ensures |TITLE| + |INFO| == HEADER_WIDTH <= |Body(slots)|
  {
    hide SlotSamples;
    assert slots[..0] == [];
    assert Render(TenantSamples([])) == "";
    HeaderLines();
  }

  lemma HeaderLines()
    ensures |TITLE| + |INFO| == HEADER_WIDTH
  {
  }

  lemma HeaderHasNoNul()
    ensures NUL !in TITLE && NUL !in INFO
  {
    assert forall i :: 0 <= i < |TITLE| ==> TITLE[i] != NUL;
    assert forall i :: 0 <= i < |INFO| ==> INFO[i] != NUL;
  }

  lemma HeadHasNoNul(length: nat)
    ensures NUL !in Head(length)
  {
    assert forall i :: 0 <= i < |HEAD_START| ==> HEAD_START[i] != NUL;
    assert forall i :: 0 <= i < |HEAD_END| ==> HEAD_END[i] != NUL;
    hide Digits;
  }

  lemma SlotHasNoNul(t: Slot)
    ensures NUL !in Line(TotalSample(t)) && NUL !in Line(ActiveSample(t)) && NUL !in Line(RatioSample(t))
    ensures NUL !in Line(SizeSample(t)) && NUL !in Line(ConnectedSample(t))
    ensures NUL !in Render(SlotSamples(t))
  {
    SlotNames(t);
    RenderFive(t);
    hide IsNamed, RenderLine, TotalSample, ActiveSample, RatioSample, SizeSample, ConnectedSample, Render;
    LineHasNoNul(TotalSample(t));
    LineHasNoNul(ActiveSample(t));
    LineHasNoNul(RatioSample(t));
    LineHasNoNul(SizeSample(t));
    LineHasNoNul(ConnectedSample(t));
  }

  lemma {:induction false} BodyHasNoNul(slots: seq<Slot>)
    ensures NUL !in Body(slots)
  {
    hide Render, SlotSamples;
    if slots == [] {
      BodyOfNone(slots);
      HeaderHasNoNul();
    } else {
      hide Body;
      var before, t := slots[..|slots| - 1], slots[|slots| - 1];
      assert slots == before + [t];
      BodyHasNoNul(before);
      BodySnoc(before, t);
      SlotHasNoNul(t);
    }
  }

  lemma RenderFive(t: Slot)
    ensures Render(SlotSamples(t)) == Line(TotalSample(t)) + Line(ActiveSample(t)) + Line(RatioSample(t))
      + Line(SizeSample(t)) + Line(ConnectedSample(t))
  {
    hide RenderLine, TotalSample, ActiveSample, RatioSample, SizeSample, ConnectedSample, Render;
    var a, b, c, d, e := TotalSample(t), ActiveSample(t), RatioSample(t), SizeSample(t), ConnectedSample(t);
    assert SlotSamples(t) == [a] + [b] + [c] + [d] + [e];
    RenderConcat([a], [b]);
    RenderConcat([a] + [b], [c]);
    RenderConcat([a] + [b] + [c], [d]);
    RenderConcat([a] + [b] + [c] + [d], [e]);
    RenderOne(a);
    RenderOne(b);
    RenderOne(c);
    RenderOne(d);
    RenderOne(e);
  }

  lemma BodySnoc(slots: seq<Slot>, t: Slot)
    ensures Body(slots + [t]) == Body(slots) + Render(SlotSamples(t))
  {
    hide SlotSamples, Render;
    assert (slots + [t])[..|slots|] == slots;
    RenderConcat(TenantSamples(slots), SlotSamples(t));
    assert TenantSamples(slots + [t]) == TenantSamples(slots) + SlotSamples(t);
  }

  lemma {:induction false} BodyPrefix(slots: seq<Slot>, n: nat)
    requires n <= |slots|
    ensures |Body(slots[..n])| <= |Body(slots)|
  {
    hide Body, Render, SlotSamples, TenantSamples;
    if n == |slots| {
      assert slots[..n] == slots;
    } else {
      var before := slots[..|slots| - 1];
      BodyPrefix(before, n);
      assert before[..n] == slots[..n];
      BodySnoc(before, slots[|slots| - 1]);
      assert slots == before + [slots[|slots| - 1]];
    }
  }

  lemma BodyGrows(slots: seq<Slot>, i: nat)
    requires i < |slots|
    ensures Body(slots[..i + 1]) == Body(slots[..i]) + Render(SlotSamples(slots[i]))
    ensures |Body(slots[..i + 1])| <= |Body(slots)|
  {
    hide Body, Render, SlotSamples, TenantSamples;
    BodySnoc(slots[..i], slots[i]);
    assert slots[..i + 1] == slots[..i] + [slots[i]];
    BodyPrefix(slots, i + 1);
  }

  // ----- reading the body back

  lemma SlotNames(t: Slot)
    ensures |SlotSamples(t)| == 5
    ensures forall s <- SlotSamples(t) :: IsNamed(s) && s.text == t.tenantId
    ensures IsNamed(TotalSample(t)) && IsNamed(ActiveSample(t)) && IsNamed(RatioSample(t))
    ensures IsNamed(SizeSample(t)) && IsNamed(ConnectedSample(t))
  {
    TenantIsLabel();
    FieldIsNamed(TotalConnections, t, TotalSample(t));
    FieldIsNamed(ActiveConnections, t, ActiveSample(t));
    FieldIsNamed(CacheHitRatio, t, RatioSample(t));
    FieldIsNamed(DatabaseSize, t, SizeSample(t));
    FieldIsNamed(DatabaseConnected, t, ConnectedSample(t));
    hide Name, IsNamed, IntNumeral, DoubleNumeral, TotalSample, ActiveSample, RatioSample, SizeSample, ConnectedSample;
  }

  lemma FieldIsNamed(f: Field, t: Slot, s: Sample)
    requires s.name == Name(f) && s.key == TENANT && s.text == t.tenantId
    ensures IsNamed(s)
  {
    hide Name, IsName, IsLabel;
    NamesAreNames(f);
    TenantIsLabel();
  }

  lemma TenantIsLabel()
    ensures IsLabel(TENANT)
  {
  }

  /** Five samples per tenant, in order, each under its tenant's name. */
  lemma {:induction false} SampleOwners(slots: seq<Slot>)
    ensures |TenantSamples(slots)| == 5 * |slots|
    ensures forall i :: 0 <= i < 5 * |slots| ==>
      IsNamed(TenantSamples(slots)[i]) && TenantSamples(slots)[i].text == slots[i / 5].tenantId
  {
    if slots != [] {
      hide IsNamed, SlotSamples;
      var n := |slots| - 1;
      var before, last := TenantSamples(slots[..n]), SlotSamples(slots[n]);
      SampleOwners(slots[..n]);
      SlotNames(slots[n]);
      var all: seq<Sample> := before + last;
      forall i | 0 <= i < 5 * |slots|
        ensures IsNamed(all[i]) && all[i].text == slots[i / 5].tenantId
      {
        if i >= 5 * n {
          assert last[i - 5 * n] in last && i / 5 == n;
        }
      }
    }
  }

  /** The sample of the second header line. */
  function InfoSample(): Sample { Sample("pganalytics_info", "version", "1.0", IntNumeral(1)) }

  /** A comment, a sample and a blank line. */
  lemma ReadThreeLines(comment: string, line: string, info: Sample, rest: string)
    requires '\n' !in comment && IsSkipped(comment)
    requires '\n' !in line && !IsSkipped(line) && ReadLine(line) == Some(info)
    ensures Parse((comment + "\n") + (line + "\n" + "\n") + rest) ==
      match Parse(rest) case None => None case Some(ss) => Some([info] + ss)
  {
    hide Parse, ReadLine;
    var last := "" + "\n" + rest;
    assert (comment + "\n") + (line + "\n" + "\n") + rest == comment + "\n" + (line + "\n" + last);
    ParseFirstLine("", rest);
    ParseFirstLine(line, last);
    ParseFirstLine(comment, line + "\n" + last);
  }

  lemma TitleText()
    ensures TITLE == "# Multi-tenant PostgreSQL metrics\n"
  {
  }

  lemma TitleIsComment()
    ensures TITLE == COMMENT + "\n" && '\n' !in COMMENT && IsSkipped(COMMENT)
  {
    assert forall i :: 0 <= i < |COMMENT| ==> COMMENT[i] != '\n';
  }

  lemma InfoIsNamed()
    ensures IsNamed(InfoSample()) && NeedsNoEscape(InfoSample().text)
  {
  }

  lemma InfoText()
    ensures INFO == RenderLine(InfoSample()) + "\n" + "\n"
  {
    assert Print(IntNumeral(1)) == "1";
    hide Print, IntNumeral;
    assert "1.0" + CLOSING + "1" == "1.0\"} 1";
    assert "pganalytics_info" + Opening("version") == "pganalytics_info{version=\"";
  }

  /** The first header line is a comment, the second a sample, and the blank line after it is skipped. */
  lemma HeaderReadsBack(rest: string)
    ensures Parse(TITLE + INFO + rest) ==
      match Parse(rest) case None => None case Some(ss) => Some([InfoSample()] + ss)
  {
    hide Parse, ReadLine, RenderLine, InfoSample, IsNamed, NeedsNoEscape, IsSkipped;
    TitleIsComment();
    InfoText();
    InfoIsNamed();
    SingleLine(InfoSample());
    ReadRenderedLine(InfoSample());
    ReadThreeLines(COMMENT, RenderLine(InfoSample()), InfoSample(), rest);
  }

  /** The value a scrape shows: an initial zero reads as 0. */
  function Shown64(r: Reading<Int64>): int { if r.Queried? then r.value else 0 }

  /**
    The samples of a slot, written out: each number under its own metric and the slot's name.
   */
  function ExpectedSamples(t: Slot): seq<Sample> {
    [Sample("pganalytics_total_connections", "tenant", t.tenantId, IntNumeral(Shown64(t.totalConnections))),
     Sample("pganalytics_active_connections", "tenant", t.tenantId, IntNumeral(Shown64(t.activeConnections))),
     Sample("pganalytics_cache_hit_ratio", "tenant", t.tenantId,
            DoubleNumeral(if t.cacheHitRatio.Queried? then t.cacheHitRatio.value else Finite(false, 0.0), 2)),
     Sample("pganalytics_database_size_bytes", "tenant", t.tenantId, IntNumeral(Shown64(t.databaseSize))),
     Sample("pganalytics_database_connected", "tenant", t.tenantId,
            IntNumeral(if t.databaseConnected.Queried? && t.databaseConnected.value then 1 else 0))]
  }

  lemma SlotSamplesExpected(t: Slot)
    ensures SlotSamples(t) == ExpectedSamples(t)
  {
    hide IntNumeral, DoubleNumeral;
    TotalName();
    ActiveName();
    RatioName();
    SizeName();
    ConnectedName();
    assert TENANT == "tenant";
  }

  lemma TotalName()
    ensures PREFIX + "total_connections" == "pganalytics_total_connections"
  {
  }

  lemma ActiveName()
    ensures PREFIX + "active_connections" == "pganalytics_active_connections"
  {
  }

  lemma RatioName()
    ensures PREFIX + "cache_hit_ratio" == "pganalytics_cache_hit_ratio"
  {
  }

  lemma SizeName()
    ensures PREFIX + "database_size_bytes" == "pganalytics_database_size_bytes"
  {
  }

  lemma ConnectedName()
    ensures PREFIX + "database_connected" == "pganalytics_database_connected"
  {
  }

  function ExpectedAll(slots: seq<Slot>): seq<Sample> {
    if slots == [] then [] else ExpectedAll(slots[..|slots| - 1]) + ExpectedSamples(slots[|slots| - 1])
  }

  lemma {:induction false} TenantSamplesExpected(slots: seq<Slot>)
    ensures TenantSamples(slots) == ExpectedAll(slots)
  {
    hide SlotSamples, ExpectedSamples;
    if slots != [] {
      TenantSamplesExpected(slots[..|slots| - 1]);
      SlotSamplesExpected(slots[|slots| - 1]);
    }
  }

  /** The tenants' part of it. */
  lemma SamplesReadBack(slots: seq<Slot>)
    ensures |TenantSamples(slots)| == 5 * |slots|
    ensures Parse(Render(TenantSamples(slots))) == Some(TenantSamples(slots))
       <==> forall t <- slots :: NeedsNoEscape(t.tenantId)
  {
    hide Render, Parse, TenantSamples, NeedsNoEscape, IsNamed;
    SampleOwners(slots);
    var samples := TenantSamples(slots);
    LabelsSurvive(samples);
    forall k | 0 <= k < |slots|
      ensures samples[5 * k] in samples && samples[5 * k].text == slots[k].tenantId
    {
      assert (5 * k) / 5 == k;
    }
  }

  lemma BodyTitle(slots: seq<Slot>)
    ensures "# Multi-tenant PostgreSQL metrics\n" <= Body(slots)
  {
    hide Render, TenantSamples;
    TitleText();
  }

  /**
    The whole body reads back, as the information sample and five samples per tenant, exactly when
    no tenant name needs an escape: database names are not checked and not escaped.
   */
  lemma {:induction false} BodyReadsBack(slots: seq<Slot>)
    ensures |ExpectedAll(slots)| == 5 * |slots|
    ensures Parse(Body(slots))
         == Some([Sample("pganalytics_info", "version", "1.0", IntNumeral(1))] + ExpectedAll(slots))
       <==> forall t <- slots :: NeedsNoEscape(t.tenantId)
    ensures "# Multi-tenant PostgreSQL metrics\n" <= Body(slots)
  {
    BodyTitle(slots);
    hide Render, Parse, TenantSamples, ExpectedAll, NeedsNoEscape, IntNumeral;
    TenantSamplesExpected(slots);
    SamplesReadBack(slots);
    HeaderReadsBack(Render(TenantSamples(slots)));
    if Parse(Render(TenantSamples(slots))).Some? {
      SameTail(InfoSample(), Parse(Render(TenantSamples(slots))).value, TenantSamples(slots));
    }
  }

  lemma SameTail(s: Sample, a: seq<Sample>, b: seq<Sample>)
    ensures [s] + a == [s] + b <==> a == b
  {
    assert ([s] + a)[1..] == a && ([s] + b)[1..] == b;
  }

  /** A database whose name holds a quote spoils the body. */
  lemma QuotedNameLost(t: Slot)
    requires t.tenantId == "a\"b"
    ensures Parse(Body([t])) != Some([InfoSample()] + ExpectedAll([t]))
  {
    hide Parse, Body, ExpectedAll;
    BodyReadsBack([t]);
    assert t in [t] && t.tenantId[1] in t.tenantId;
  }

  // ----- widths

  const HEADER_WIDTH := 69

  /** No line is ever cut by its 512-byte buffer, whatever the numbers are. */
  lemma LinesFit(t: Slot)
    ensures |Line(TotalSample(t))| < 512 && |Line(ActiveSample(t))| < 512
    ensures |Line(RatioSample(t))| < 512 && |Line(SizeSample(t))| < 512
    ensures |Line(ConnectedSample(t))| < 512
  {
    hide Print, DoubleNumeral, IntNumeral;
    AnyIntWidth(IntOf(t.totalConnections));
    AnyIntWidth(IntOf(t.activeConnections));
    AnyIntWidth(IntOf(t.databaseSize));
    AnyIntWidth(if FlagOf(t.databaseConnected) then 1 else 0);
    AnyDoubleWidth(DoubleOf(t.cacheHitRatio));
  }

  /** The width of a tenant's lines, from its name and its numbers. */
  lemma SlotWidth(t: Slot)
    ensures |Render(SlotSamples(t))| == 213 + 5 * |t.tenantId|
      + |Print(IntNumeral(IntOf(t.totalConnections)))| + |Print(IntNumeral(IntOf(t.activeConnections)))|
      + |Print(DoubleNumeral(DoubleOf(t.cacheHitRatio), 2))| + |Print(IntNumeral(IntOf(t.databaseSize)))|
  {
    hide Print, DoubleNumeral, IntNumeral, Render, SlotSamples;
    RenderFive(t);
    FlagWidth(FlagOf(t.databaseConnected));
  }

  lemma FlagWidth(flag: bool)
    ensures |Print(IntNumeral(if flag then 1 else 0))| == 1
  {
    PrintIntWidth(if flag then 1 else 0, 1);
  }

  lemma {:induction false} BodyWidth(slots: seq<Slot>, width: nat)
    requires forall t <- slots :: |Render(SlotSamples(t))| <= width
    ensures |Body(slots)| <= HEADER_WIDTH + width * |slots|
  {
    hide Render, SlotSamples, TenantSamples;
    if slots == [] {
      BodyOfNone(slots);
    } else {
      hide Body;
      var before, t := slots[..|slots| - 1], slots[|slots| - 1];
      assert t in slots && slots == before + [t];
      BodyWidth(before, width);
      BodySnoc(before, t);
      assert width * |slots| == width * |before| + width;
    }
  }

  /** What the types of the queries allow: counts and sizes up to the largest `long`, a percentage. */
  predicate Plausible(t: Slot) {
    && IntOf(t.totalConnections) >= 0 && IntOf(t.activeConnections) >= 0 && IntOf(t.databaseSize) >= 0
    && DoubleOf(t.cacheHitRatio).AtLeastZero() && DoubleOf(t.cacheHitRatio).AtMostHundred()
  }

  /** Less than a million sessions, and less than a petabyte. */
  predicate Ordinary(t: Slot) {
    && Plausible(t)
    && IntOf(t.totalConnections) < 1_000_000 && IntOf(t.activeConnections) < 1_000_000
    && IntOf(t.databaseSize) < 1_000_000_000_000_000
  }

  const PLAUSIBLE_WIDTH := 591
  const ORDINARY_WIDTH := 561

  lemma PlausibleWidth(t: Slot)
    requires Plausible(t)
    ensures |Render(SlotSamples(t))| <= PLAUSIBLE_WIDTH
    ensures Ordinary(t) ==> |Render(SlotSamples(t))| <= ORDINARY_WIDTH
  {
    hide Print, DoubleNumeral, IntNumeral, Render, SlotSamples;
    SlotWidth(t);
    AnyIntWidth(IntOf(t.totalConnections));
    AnyIntWidth(IntOf(t.activeConnections));
    AnyIntWidth(IntOf(t.databaseSize));
    HundredthsWidth(DoubleOf(t.cacheHitRatio));
    OrdinaryPowers();
    PrintIntWidth(IntOf(t.totalConnections), 6);
    PrintIntWidth(IntOf(t.activeConnections), 6);
    PrintIntWidth(IntOf(t.databaseSize), 15);
  }

  lemma OrdinaryPowers()
    ensures Pow10(6) == 1_000_000 && Pow10(15) == 1_000_000_000_000_000
  {
    assert Pow10(5) == 100_000;
    assert Pow10(10) == 10_000_000_000;
  }

  // ----- complete responses

  lemma HeadWidth(length: nat)
    requires length < BODY_SIZE
    ensures |Head(length)| <= 87
    ensures 1000 <= length < 10000 ==> |Head(length)| == 86
    ensures length >= 10000 ==> |Head(length)| == 87
    ensures length < 1000 ==> |Head(length)| < 86
  {
    assert Pow10(3) == 1000 && Pow10(4) == 1_0000 && Pow10(5) == 10_0000;
    DigitsWidth(length, 5);
    DigitsWidth(length, 4);
    DigitsWidth(length, 3);
  }

  // ----- what a client reads

  const STATUS_LINES := "HTTP/1.1 200 OK\r\n" + "Content-Type: text/plain\r\n"

  /** The header announces a body of this length. */
  ghost predicate Announces(sent: string, length: nat) {
    exists ds: string :: STATUS_LINES + "Content-Length: " + ds + "\r\n" <= sent && AllDigits(ds)
                         && DigitsValue(ds) == length
  }

  /** What follows the first blank line. */
  function AfterBlankLine(s: string): string {
    if |s| < 4 then ""
    else if s[..4] == "\r\n\r\n" then s[4..]
    else AfterBlankLine(s[1..])
  }

  /** No line ends here and the next one right after it. */
  ghost predicate NoBlankLine(s: string) {
    forall i :: 0 <= i < |s| && s[i] == '\r' ==> i + 2 < |s| && s[i + 2] != '\r'
  }

  lemma NoBlankLineConcat(a: string, b: string)
    requires NoBlankLine(a) && NoBlankLine(b)
    ensures NoBlankLine(a + b)
  {
    forall i | 0 <= i < |a + b| && (a + b)[i] == '\r'
      ensures i + 2 < |a + b| && (a + b)[i + 2] != '\r'
    {
      if i >= |a| {
        assert b[i - |a|] == '\r';
      }
    }
  }

  lemma {:induction false} SkipHeader(head: string, rest: string)
    requires NoBlankLine(head)
    ensures AfterBlankLine(head + "\r\n\r\n" + rest) == rest
  {
    var s := head + "\r\n\r\n" + rest;
    if head == "" {
      assert s[..4] == "\r\n\r\n" && s[4..] == rest;
    } else {
      assert s[1..] == head[1..] + "\r\n\r\n" + rest;
      assert forall i :: 0 <= i < |head[1..]| ==> head[1..][i] == head[i + 1];
      SkipHeader(head[1..], rest);
      assert s[..4][0] == head[0] && s[..4][2] == s[2] && (|head| > 2 ==> s[2] == head[2]);
    }
  }

  /** The header in front of its blank line. */
  function HeadLines(length: nat): string { HEAD_START + Digits(length) + "\r\nConnection: close" }

  lemma HeadEnds(length: nat)
    ensures Head(length) == HeadLines(length) + "\r\n\r\n"
  {
    var ds := Digits(length);
    hide Digits;
    assert HEAD_END == "\r\nConnection: close" + "\r\n\r\n";
    assert HEAD_START + ds + ("\r\nConnection: close" + "\r\n\r\n")
        == HEAD_START + ds + "\r\nConnection: close" + "\r\n\r\n";
  }

  lemma StartHasNoBlankLine()
    ensures NoBlankLine(HEAD_START)
  {
  }

  lemma EndHasNoBlankLine()
    ensures NoBlankLine("\r\nConnection: close")
  {
  }

  lemma HeadHasNoBlankLine(length: nat)
    ensures NoBlankLine(HeadLines(length))
  {
    var ds := Digits(length);
    StartHasNoBlankLine();
    EndHasNoBlankLine();
    assert NoBlankLine(ds);
    NoBlankLineConcat(HEAD_START, ds);
    hide NoBlankLine, Digits;
    NoBlankLineConcat(HEAD_START + ds, "\r\nConnection: close");
  }

  lemma HeadStart()
    ensures HEAD_START == STATUS_LINES + "Content-Length: "
  {
  }

  /** The header is whole, and announces the length of the body that was to be sent. */
  lemma SentAnnounces(body: string)
    requires |body| < 16384
    ensures Announces(Sent(body), |body|)
  {
    var ds := Digits(|body|);
    HeadWidth(|body|);
    HeadEnds(|body|);
    HeadStart();
    DigitsRoundTrip(|body|);
    var head := STATUS_LINES + "Content-Length: " + ds + "\r\n";
    hide Digits;
    AnnouncedFirst(ds);
    assert Head(|body|) <= Sent(body) by { hide Head; }
    assert head <= Head(|body|) <= Sent(body);
  }

  lemma AnnouncedFirst(ds: string)
    ensures STATUS_LINES + "Content-Length: " + ds + "\r\n" <= HEAD_START + ds + HEAD_END
  {
    HeadStart();
    assert HEAD_END == "\r\n" + HEAD_END[2..];
    assert HEAD_START + ds + HEAD_END == HEAD_START + ds + "\r\n" + HEAD_END[2..];
  }

  /** What the client takes for the body is the part of it that fits behind the header. */
  lemma SentBody(body: string)
    requires |body| < 16384
    ensures var fits := BUFFER_SIZE - 1 - |Head(|body|)|;
      fits >= 0 && AfterBlankLine(Sent(body)) == if |body| <= fits then body else body[..fits]
  {
    HeadWidth(|body|);
    HeadEnds(|body|);
    HeadHasNoBlankLine(|body|);
    hide Head, HeadLines, NoBlankLine;
    var head, fits := Head(|body|), BUFFER_SIZE - 1 - |Head(|body|)|;
    var kept := if |body| <= fits then body else body[..fits];
    assert Sent(body) == head + kept;
    SkipHeader(HeadLines(|body|), kept);
  }

  /**
    The response announces the length of its body. That is the number of characters that follow
    the blank line, and these are the body, exactly when the body has at most 4009 of them.
   */
  lemma CompleteIffFits(body: string)
    requires |body| < 16384
    ensures Announces(Sent(body), |body|)
    ensures AfterBlankLine(Sent(body)) <= body
    ensures |AfterBlankLine(Sent(body))| == |body| <==> |body| <= 4009
  {
    SentAnnounces(body);
    SentBody(body);
    HeadWidth(|body|);
    hide Head, Announces, AfterBlankLine, Sent;
  }

  /** The whole body arrives. */
  ghost predicate Complete(slots: seq<Slot>) { AfterBlankLine(Sent(Body(slots))) == Body(slots) }

  /** Up to six tenants, every response is complete, whatever the numbers are. */
  lemma SixTenantsComplete(slots: seq<Slot>)
    requires |slots| <= 6 && forall t <- slots :: Plausible(t)
    ensures Complete(slots)
  {
    hide Body, Plausible, Sent, AfterBlankLine, Announces, Render, SlotSamples;
    forall t <- slots { PlausibleWidth(t); }
    BodyWidth(slots, PLAUSIBLE_WIDTH);
    CompleteIffFits(Body(slots));
  }

  /** Up to 27 tenants, the body stays inside its buffer, whatever the numbers are. */
  lemma TwentySevenTenantsFit(slots: seq<Slot>)
    requires |slots| <= 27 && forall t <- slots :: Plausible(t)
    ensures |Body(slots)| < 16384
  {
    hide Body, Plausible, Render, SlotSamples;
    forall t <- slots { PlausibleWidth(t); }
    BodyWidth(slots, PLAUSIBLE_WIDTH);
  }

  /** With ordinary numbers, up to seven tenants get a complete response, and up to 29 fit the body. */
  lemma OrdinaryTenantsFit(slots: seq<Slot>)
    requires forall t <- slots :: Ordinary(t)
    ensures |slots| <= 7 ==> Complete(slots)
    ensures |slots| <= 29 ==> |Body(slots)| < 16384
  {
    hide Body, Plausible, Sent, AfterBlankLine, Announces, Render, SlotSamples;
    forall t <- slots { PlausibleWidth(t); }
    BodyWidth(slots, ORDINARY_WIDTH);
    if |slots| <= 7 {
      CompleteIffFits(Body(slots));
    }
  }

  // ----- the bounds are tight

  function Xs(n: nat): string { seq(n, _ => 'x') }

  /** A name of 63 characters for each slot. */
  function LongName(i: nat): (name: DbName)
    ensures |name| == 63
  {
    LongNameHasNoNul(i);
    FixedDigits(i, 2) + Xs(61)
  }

  lemma LongNameHasNoNul(i: nat)
    ensures NUL !in FixedDigits(i, 2) + Xs(61)
  {
    hide FixedDigits;
  }

  lemma LongNamesDiffer(i: nat, j: nat)
    requires i < MAX_TENANTS && j < MAX_TENANTS && LongName(i) == LongName(j)
    ensures i == j
  {
    assert Pow10(2) == 100;
    assert LongName(i)[..2] == FixedDigits(i, 2) && LongName(j)[..2] == FixedDigits(j, 2);
    FixedDigitsValue(i, 2);
    FixedDigitsValue(j, 2);
  }

  /** The numbers of one tenant. */
  datatype Numbers = Numbers(total: Int64, active: Int64, ratio: Double, size: Int64)

  function SlotOf(i: nat, v: Numbers): Slot {
    var name := LongName(i);
    Slot(name, name, true, Queried(name, v.total), Queried(name, v.active), Queried(name, v.ratio),
         Queried(name, v.size), Queried(name, true), 0)
  }

  /** Databases with different names and the same numbers. */
  function Alike(n: nat, v: Numbers): seq<Slot> { seq(n, i requires 0 <= i < n => SlotOf(i, v)) }

  /** Slots after an update: active, and queried under names that all differ. */
  ghost predicate JustUpdated(slots: seq<Slot>) {
    && |slots| <= MAX_TENANTS
    && (forall t <- slots :: t.active && Attributed(t, t.tenantId))
    && forall i, j :: 0 <= i < j < |slots| ==> slots[i].tenantId != slots[j].tenantId
  }

  lemma AlikeUpdated(n: nat, v: Numbers)
    requires n <= MAX_TENANTS
    ensures JustUpdated(Alike(n, v))
  {
    hide LongName;
    var slots := Alike(n, v);
    forall i, j | 0 <= i < j < n
      ensures slots[i].tenantId != slots[j].tenantId
    {
      if slots[i].tenantId == slots[j].tenantId {
        LongNamesDiffer(i, j);
      }
    }
  }

  lemma AlikeGrows(n: nat, v: Numbers)
    ensures Alike(n + 1, v) == Alike(n, v) + [SlotOf(n, v)]
  {
    hide SlotOf;
  }

  /** The numbers alone decide the width. */
  ghost predicate HasWidth(v: Numbers, width: nat) {
    forall i: nat :: |Render(SlotSamples(SlotOf(i, v)))| == width
  }

  lemma {:induction false} AlikeBody(n: nat, v: Numbers, width: nat)
    ensures HasWidth(v, width) ==> |Body(Alike(n, v))| == HEADER_WIDTH + width * n
  {
    hide Body, SlotOf, Render, SlotSamples, TenantSamples;
    if n == 0 {
      BodyOfNone(Alike(0, v));
      assert Alike(0, v)[..0] == Alike(0, v);
    } else if HasWidth(v, width) {
      AlikeBody(n - 1, v, width);
      AlikeGrows(n - 1, v);
      BodySnoc(Alike(n - 1, v), SlotOf(n - 1, v));
      assert |Render(SlotSamples(SlotOf(n - 1, v)))| == width;
      assert width * n == width * (n - 1) + width;
    }
  }

  /** So many databases cut the response, and so many overflow the body. */
  lemma AlikeTooMany(cut: nat, overflow: nat, v: Numbers, width: nat)
    requires cut <= MAX_TENANTS && overflow <= MAX_TENANTS
    requires 4009 < HEADER_WIDTH + width * cut < 16384 <= HEADER_WIDTH + width * overflow
    ensures HasWidth(v, width) ==> JustUpdated(Alike(cut, v)) && !Complete(Alike(cut, v))
    ensures HasWidth(v, width) ==> JustUpdated(Alike(overflow, v)) && |Body(Alike(overflow, v))| >= 16384
  {
    hide Body, Sent, AfterBlankLine, Announces, JustUpdated, HasWidth;
    AlikeBody(cut, v, width);
    AlikeBody(overflow, v, width);
    AlikeUpdated(cut, v);
    AlikeUpdated(overflow, v);
    if HasWidth(v, width) {
      CompleteIffFits(Body(Alike(cut, v)));
    }
  }

  /** The largest numbers that the types allow. */
  const LARGEST := Numbers(LLONG_MAX, LLONG_MAX, Finite(false, 100.0), LLONG_MAX)

  /** A busy hour: a hundred sessions, ten of them active, and ten gigabytes. */
  const BUSY := Numbers(100, 10, Finite(false, 99.5), 10_000_000_000)

  lemma LargestWidth(i: nat)
    ensures Plausible(SlotOf(i, LARGEST)) && |Render(SlotSamples(SlotOf(i, LARGEST)))| == PLAUSIBLE_WIDTH
  {
    hide Print, DoubleNumeral, IntNumeral, Render, SlotSamples, LongName;
    SlotWidth(SlotOf(i, LARGEST));
    SmallPowers();
    PrintIntWidth(LLONG_MAX, LLONG_WIDTH);
    PrintIntWidth(LLONG_MAX, LLONG_WIDTH - 1);
    RatioWidth(100.0, 10000);
  }

  lemma BusyWidth(i: nat)
    ensures Ordinary(SlotOf(i, BUSY)) && |Render(SlotSamples(SlotOf(i, BUSY)))| == 549
  {
    hide Print, DoubleNumeral, IntNumeral, Render, SlotSamples, LongName;
    SlotWidth(SlotOf(i, BUSY));
    BusyPowers();
    PrintIntWidth(100, 3);
    PrintIntWidth(100, 2);
    PrintIntWidth(10, 2);
    PrintIntWidth(10, 1);
    PrintIntWidth(10_000_000_000, 11);
    PrintIntWidth(10_000_000_000, 10);
    RatioWidth(99.5, 9950);
  }

  lemma BusyPowers()
    ensures Pow10(1) == 10 && Pow10(2) == 100 && Pow10(3) == 1000
    ensures Pow10(10) == 10_000_000_000 && Pow10(11) == 100_000_000_000
  {
    assert Pow10(5) == 100_000;
  }

  lemma RatioWidth(ratio: real, scaled: nat)
    requires 10.0 <= ratio <= 100.0 && ratio * 100.0 == scaled as real
    ensures |Print(DoubleNumeral(Finite(false, ratio), 2))| == if scaled < 10000 then 5 else 6
  {
    assert Pow10(2) == 100 && Pow10(3) == 1000 && Pow10(4) == 1_0000 && Pow10(5) == 10_0000;
    assert DoubleNumeral(Finite(false, ratio), 2) == Decimal(false, scaled, 2);
    PrintFixedWidth(scaled, 2, 1);
    PrintFixedWidth(scaled, 2, 2);
    PrintFixedWidth(scaled, 2, 3);
  }

  /**
    With ordinary numbers the bounds are exact: eight databases can lose the end of the body, and
    thirty can overflow it.
   */
  lemma {:induction false} OneOrdinaryTenantMore()
    ensures exists slots ::
      |slots| == 8 && JustUpdated(slots) && (forall t <- slots :: Ordinary(t)) && !Complete(slots)
    ensures exists slots ::
      |slots| == 30 && JustUpdated(slots) && (forall t <- slots :: Ordinary(t)) && |Body(slots)| >= 16384
  {
    hide Body, Complete, JustUpdated, Render, SlotSamples, SlotOf, Ordinary;
    forall i: nat { BusyWidth(i); }
    assert HasWidth(BUSY, 549);
    AlikeTooMany(8, 30, BUSY, 549);
    assert |Alike(8, BUSY)| == 8 && |Alike(30, BUSY)| == 30;
  }

  /** By the widths of their types alone, seven tenants would be cut and 28 would overflow. */
  lemma {:induction false} WidthsAreTight()
    ensures exists slots ::
      |slots| == 7 && JustUpdated(slots) && (forall t <- slots :: Plausible(t)) && !Complete(slots)
    ensures exists slots ::
      |slots| == 28 && JustUpdated(slots) && (forall t <- slots :: Plausible(t)) && |Body(slots)| >= 16384
  {
    hide Body, Complete, JustUpdated, Render, SlotSamples, SlotOf, Plausible;
    forall i: nat { LargestWidth(i); }
    assert HasWidth(LARGEST, PLAUSIBLE_WIDTH);
    AlikeTooMany(7, 28, LARGEST, PLAUSIBLE_WIDTH);
    assert |Alike(7, LARGEST)| == 7 && |Alike(28, LARGEST)| == 28;
  }
}
