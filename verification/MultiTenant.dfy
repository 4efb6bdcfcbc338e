/**
  The multi-tenant collector of pganalytics-v2/monitoring/c-collector/main.c: tenant slots that
  are relabelled by one critical section and refilled by another.
 */
module MultiTenant {
  import opened Wrappers
  import opened CStrings
  import opened Decimals

  const MAX_TENANTS := 100

  /** PostgreSQL cuts identifiers to 63 bytes, so `tenant_id[64]` holds any database name with its NUL. */
  type DbName = s: string | |s| <= 63 && NUL !in s

  /**
    A number in a slot: the initial zero, or one that an update brought from a database. The code
    keeps only the number.
   */
  datatype Reading<T> = Initial | Queried(from: DbName, value: T)

  datatype Slot = Slot(
    tenantId: DbName,
    database: DbName,
    active: bool,
    totalConnections: Reading<Int64>,
    activeConnections: Reading<Int64>,
    cacheHitRatio: Reading<Double>,
    databaseSize: Reading<Int64>,
    databaseConnected: Reading<bool>,
    lastUpdate: int)

  const BLANK := Slot("", "", false, Initial, Initial, Initial, Initial, Initial, 0)

  /** `None` when the connection or the listing query fails. */
  type Listing = Option<seq<DbName>>

  /** How one slot's update goes: the connection, the three queries, the clock at the end. */
  datatype Outcome = Outcome(
    connects: bool,
    sessions: Option<(Int64, Int64)>,
    ratio: Option<Double>,
    size: Option<Int64>,
    now: int)

  datatype State = State(slots: seq<Slot>, count: nat)

  ghost predicate WellFormed(s: State) {
    |s.slots| == MAX_TENANTS && s.count <= MAX_TENANTS && forall i :: 0 <= i < s.count ==> s.slots[i].active
  }

  function Relabelled(slot: Slot, name: DbName): Slot { slot.(tenantId := name, database := name, active := true) }

  function Listed(names: seq<DbName>): nat { if |names| < MAX_TENANTS then |names| else MAX_TENANTS }

  function Discovered(s: State, listing: Listing): State
    requires |s.slots| == MAX_TENANTS
  {
    match listing
    case None => s
    case Some(names) =>
      State(seq(MAX_TENANTS, i requires 0 <= i < MAX_TENANTS =>
              if i < Listed(names) then Relabelled(s.slots[i], names[i]) else s.slots[i]),
            Listed(names))
  }

  function Updated(slot: Slot, o: Outcome): Slot {
    if !o.connects then slot.(databaseConnected := Queried(slot.database, false))
    else
      slot.(databaseConnected := Queried(slot.database, true),
            totalConnections :=
              if o.sessions.Some? then Queried(slot.database, o.sessions.value.0) else slot.totalConnections,
            activeConnections :=
              if o.sessions.Some? then Queried(slot.database, o.sessions.value.1) else slot.activeConnections,
            cacheHitRatio := if o.ratio.Some? then Queried(slot.database, o.ratio.value) else slot.cacheHitRatio,
            databaseSize := if o.size.Some? then Queried(slot.database, o.size.value) else slot.databaseSize,
            lastUpdate := o.now)
  }

  function Passed(s: State, outcomes: nat -> Outcome): State
    requires |s.slots| == MAX_TENANTS
  {
    s.(slots := seq(MAX_TENANTS, i requires 0 <= i < MAX_TENANTS =>
                  if i < s.count && s.slots[i].active then Updated(s.slots[i], outcomes(i)) else s.slots[i]))
  }

  function Start(): (s: State)
    ensures |s.slots| == MAX_TENANTS && s.count == 0 && forall i :: 0 <= i < MAX_TENANTS ==> s.slots[i] == BLANK
  {
    State(seq(MAX_TENANTS, _ => BLANK), 0)
  }

  class Collector {
    const tenants: array<Slot>
    var count: nat

    ghost predicate Valid()
      reads this, tenants
    {
      tenants.Length == MAX_TENANTS && WellFormed(Now())
    }

    ghost function Now(): State
      reads this, tenants
    {
      State(tenants[..], count)
    }

    constructor ()
      ensures Valid() && fresh(tenants)
      ensures Now() == Start()
    {
      tenants := new Slot[MAX_TENANTS](_ => BLANK);
      count := 0;
    }

    /** `discover_tenants` */
    method Discover(listing: Listing)
      requires Valid()
      modifies `count, tenants
      ensures Valid() && Now() == Discovered(old(Now()), listing)
    {
      if listing.None? {
        return;
      }
      var names := listing.value;
      ghost var before := Now();
      count := 0;
      while count < |names| && count < MAX_TENANTS
        invariant count <= Listed(names)
        invariant forall i :: 0 <= i < count ==> tenants[i] == Relabelled(before.slots[i], names[i])
        invariant forall i :: count <= i < MAX_TENANTS ==> tenants[i] == before.slots[i]
      {
        var slot := tenants[count];
        tenants[count] := slot.(tenantId := names[count], database := names[count], active := true);
        count := count + 1;
      }
    }

    /** `update_tenant_metrics` */
    method UpdateTenant(i: nat, o: Outcome)
      requires Valid() && i < MAX_TENANTS
      modifies tenants
      ensures Valid() && tenants[..] == old(tenants[..])[i := Updated(old(tenants[i]), o)]
    {
      if !o.connects {
        tenants[i] := tenants[i].(databaseConnected := Queried(tenants[i].database, false));
        return;
      }
      tenants[i] := tenants[i].(databaseConnected := Queried(tenants[i].database, true));
      if o.sessions.Some? {
        tenants[i] := tenants[i].(totalConnections := Queried(tenants[i].database, o.sessions.value.0));
        tenants[i] := tenants[i].(activeConnections := Queried(tenants[i].database, o.sessions.value.1));
      }
      if o.ratio.Some? {
        tenants[i] := tenants[i].(cacheHitRatio := Queried(tenants[i].database, o.ratio.value));
      }
      if o.size.Some? {
        tenants[i] := tenants[i].(databaseSize := Queried(tenants[i].database, o.size.value));
      }
      tenants[i] := tenants[i].(lastUpdate := o.now);
    }

    /** The locked loop of `metrics_collector_thread`. */
    method UpdatePass(outcomes: nat -> Outcome)
      requires Valid()
      modifies tenants
      ensures Valid() && Now() == Passed(old(Now()), outcomes)
      ensures forall i :: 0 <= i < count ==>
        tenants[i].databaseConnected == Queried(tenants[i].database, outcomes(i).connects)
    {
      ghost var before := Now();
      for i := 0 to count
        invariant Valid() && count == before.count
        invariant forall k :: 0 <= k < i ==> tenants[k] == Updated(before.slots[k], outcomes(k))
        invariant forall k :: i <= k < MAX_TENANTS ==> tenants[k] == before.slots[k]
      {
        if tenants[i].active {
          UpdateTenant(i, outcomes(i));
        }
      }
    }
  }

  // ----- runs of the collector thread; a scrape can fall between any two events

  datatype Event = Discovery(listing: Listing) | Update(outcomes: nat -> Outcome)

  function After(s: State, e: Event): (t: State)
    requires |s.slots| == MAX_TENANTS
    ensures |t.slots| == MAX_TENANTS
  {
    match e
    case Discovery(listing) => Discovered(s, listing)
    case Update(outcomes) => Passed(s, outcomes)
  }

  function Run(events: seq<Event>): (s: State)
    ensures |s.slots| == MAX_TENANTS
  {
    if events == [] then Start() else After(Run(events[..|events| - 1]), events[|events| - 1])
  }

  lemma {:induction false} RunWellFormed(events: seq<Event>)
    ensures WellFormed(Run(events))
  {
    if events != [] {
      RunWellFormed(events[..|events| - 1]);
      AfterWellFormed(Run(events[..|events| - 1]), events[|events| - 1]);
    }
  }

  lemma AfterWellFormed(s: State, e: Event)
    requires WellFormed(s)
    ensures WellFormed(After(s, e))
  {
    var t := After(s, e);
    forall i | 0 <= i < t.count
      ensures t.slots[i].active
    {
      match e
      case Discovery(Some(names)) => assert t.slots[i] == Relabelled(s.slots[i], names[i]);
      case Discovery(None) => assert t.slots[i] == s.slots[i];
      case Update(outcomes) => assert t.slots[i] == Updated(s.slots[i], outcomes(i));
    }
  }

  /** The five numbers that a scrape prints for a tenant. */
  datatype Item = Total | Active | Ratio | Size | Connected

  function FromOf<T>(r: Reading<T>): Option<DbName> { if r.Initial? then None else Some(r.from) }

  /** The database that a number in a slot was queried from. */
  function SourceOf(slot: Slot, item: Item): Option<DbName> {
    match item
    case Total => FromOf(slot.totalConnections)
    case Active => FromOf(slot.activeConnections)
    case Ratio => FromOf(slot.cacheHitRatio)
    case Size => FromOf(slot.databaseSize)
    case Connected => FromOf(slot.databaseConnected)
  }

  predicate Owns(source: Option<DbName>, name: DbName) { source == None || source == Some(name) }

  /** Every number in the slot was queried from the database of that name, or is an initial zero. */
  ghost predicate Attributed(slot: Slot, name: DbName) { forall item: Item :: Owns(SourceOf(slot, item), name) }

  /** What a scrape shows under each tenant belongs to that tenant. */
  ghost predicate ScrapeAttributed(s: State)
    requires |s.slots| == MAX_TENANTS
  {
    forall i :: 0 <= i < s.count && i < MAX_TENANTS ==> Attributed(s.slots[i], s.slots[i].tenantId)
  }

  ghost predicate AlwaysAttributed(events: seq<Event>) {
    forall k :: 0 <= k <= |events| ==> ScrapeAttributed(Run(events[..k]))
  }

  /** The name a slot was last given. */
  function LabelOf(events: seq<Event>, i: nat): Option<DbName> {
    if events == [] then None
    else
      var e := events[|events| - 1];
      if e.Discovery? && e.listing.Some? && i < Listed(e.listing.value) then Some(e.listing.value[i])
      else LabelOf(events[..|events| - 1], i)
  }

  /** The listing gives no slot a second name. */
  ghost predicate KeepsLabels(events: seq<Event>, listing: Listing) {
    listing.Some? ==> forall i :: 0 <= i < Listed(listing.value) ==>
      LabelOf(events, i) == None || LabelOf(events, i) == Some(listing.value[i])
  }

  ghost predicate StableNames(events: seq<Event>) {
    forall k :: 0 <= k < |events| && events[k].Discovery? ==>
      KeepsLabels(events[..k], events[k].listing)
  }

  /** The update brings a new value for this number; the flag is written in any case. */
  predicate Brings(o: Outcome, item: Item) {
    match item
    case Total => o.connects && o.sessions.Some?
    case Active => o.connects && o.sessions.Some?
    case Ratio => o.connects && o.ratio.Some?
    case Size => o.connects && o.size.Some?
    case Connected => true
  }

  lemma UpdatedSource(slot: Slot, o: Outcome, item: Item)
    ensures SourceOf(Updated(slot, o), item) == if Brings(o, item) then Some(slot.database) else SourceOf(slot, item)
  {
  }

  /** A listing moves no number. */
  lemma RelabelledSource(s: State, listing: Listing, i: nat, item: Item)
    requires |s.slots| == MAX_TENANTS && i < MAX_TENANTS
    ensures SourceOf(Discovered(s, listing).slots[i], item) == SourceOf(s.slots[i], item)
  {
  }

  /** Every successful listing extends the ones before it at the end. */
  ghost predicate OnlyExtended(events: seq<Event>) {
    forall j, k :: 0 <= j < k < |events| && IsListing(events[j]) && IsListing(events[k]) ==>
      events[j].listing.value <= events[k].listing.value
  }

  predicate IsListing(e: Event) { e.Discovery? && e.listing.Some? }

  lemma {:induction false} LabelFromListing(events: seq<Event>, i: nat) returns (j: nat)
    requires LabelOf(events, i).Some?
    ensures j < |events| && IsListing(events[j]) && i < Listed(events[j].listing.value)
    ensures LabelOf(events, i) == Some(events[j].listing.value[i])
  {
    j := |events| - 1;
    if !(IsListing(events[j]) && i < Listed(events[j].listing.value)) {
      j := LabelFromListing(events[..j], i);
    }
  }

  lemma ExtendedIsStable(events: seq<Event>)
    requires OnlyExtended(events)
    ensures StableNames(events)
  {
    forall k | 0 <= k < |events| && events[k].Discovery?
      ensures KeepsLabels(events[..k], events[k].listing)
    {
      if events[k].listing.Some? {
        var names := events[k].listing.value;
        forall i | 0 <= i < Listed(names)
          ensures LabelOf(events[..k], i) == None || LabelOf(events[..k], i) == Some(names[i])
        {
          if LabelOf(events[..k], i).Some? {
            var j := LabelFromListing(events[..k], i);
            assert events[..k][j] == events[j];
            assert events[j].listing.value <= names;
          }
        }
      }
    }
  }

  // ----- arbitrary lists

  /** How many databases the last successful listing gave slots to. */
  function ListedCount(events: seq<Event>): nat {
    if events == [] then 0
    else
      var e := events[|events| - 1];
      if e.Discovery? && e.listing.Some? then (if |e.listing.value| < 100 then |e.listing.value| else 100)
      else ListedCount(events[..|events| - 1])
  }

  lemma {:induction false} RunCount(events: seq<Event>)
    ensures Run(events).count == ListedCount(events)
  {
    if events != [] {
      RunCount(events[..|events| - 1]);
    }
  }

  /** The name a slot had when a number in it was last brought in. */
  function QueriedFrom(events: seq<Event>, i: nat, item: Item): Option<DbName> {
    if events == [] then None
    else
      var before, e := events[..|events| - 1], events[|events| - 1];
      if e.Update? && i < ListedCount(before) && Brings(e.outcomes(i), item) then LabelOf(before, i)
      else QueriedFrom(before, i, item)
  }

  ghost predicate LabelsKept(s: State, events: seq<Event>)
    requires |s.slots| == MAX_TENANTS
  {
    && (forall i :: 0 <= i < s.count && i < MAX_TENANTS ==> LabelOf(events, i).Some?)
    && forall i :: 0 <= i < MAX_TENANTS && LabelOf(events, i).Some? ==>
         s.slots[i].tenantId == s.slots[i].database == LabelOf(events, i).value
  }

  lemma AfterLabels(s: State, before: seq<Event>, e: Event)
    requires |s.slots| == MAX_TENANTS && LabelsKept(s, before)
    ensures LabelsKept(After(s, e), before + [e])
  {
    var all := before + [e];
    assert all[..|before|] == before;
    var t := After(s, e);
    forall i | 0 <= i < MAX_TENANTS && LabelOf(all, i).Some?
      ensures t.slots[i].tenantId == t.slots[i].database == LabelOf(all, i).value
    {
      match e
      case Discovery(Some(names)) =>
        assert t.slots[i] == if i < Listed(names) then Relabelled(s.slots[i], names[i]) else s.slots[i];
        assert LabelOf(all, i) == if i < Listed(names) then Some(names[i]) else LabelOf(before, i);
      case Discovery(None) =>
        assert LabelOf(all, i) == LabelOf(before, i);
      case Update(outcomes) =>
        assert LabelOf(all, i) == LabelOf(before, i);
        assert t.slots[i] in {s.slots[i], Updated(s.slots[i], outcomes(i))};
    }
  }

  lemma {:induction false} RunLabels(events: seq<Event>)
    ensures LabelsKept(Run(events), events)
  {
    if events != [] {
      var n := |events| - 1;
      RunLabels(events[..n]);
      AfterLabels(Run(events[..n]), events[..n], events[n]);
      assert events == events[..n] + [events[n]];
    }
  }

  lemma {:induction false} RunSource(events: seq<Event>, i: nat, item: Item)
    requires i < MAX_TENANTS
    ensures SourceOf(Run(events).slots[i], item) == QueriedFrom(events, i, item)
  {
    if events != [] {
      hide SourceOf, Brings, Updated;
      var before, e := events[..|events| - 1], events[|events| - 1];
      var s := Run(before);
      RunSource(before, i, item);
      RunCount(before);
      RunLabels(before);
      RunWellFormed(before);
      match e
      case Discovery(_) => RelabelledSource(s, e.listing, i, item);
      case Update(outcomes) => UpdatedSource(s.slots[i], outcomes(i), item);
    }
  }

  /** The listing puts no name on a slot that still holds another database's numbers. */
  ghost predicate KeepsSources(events: seq<Event>, listing: Listing) {
    listing.Some? ==> forall i, item: Item :: 0 <= i < Listed(listing.value) ==>
      Owns(QueriedFrom(events, i, item), listing.value[i])
  }

  ghost predicate StableSources(events: seq<Event>) {
    forall k :: 0 <= k < |events| && events[k].Discovery? ==> KeepsSources(events[..k], events[k].listing)
  }

  lemma DiscoveryAttributed(before: seq<Event>, names: seq<DbName>)
    ensures ScrapeAttributed(Run(before + [Discovery(Some(names))])) <==> KeepsSources(before, Some(names))
  {
    var all := before + [Discovery(Some(names))];
    assert all[..|before|] == before;
    var t := Run(all);
    forall i, item: Item | 0 <= i < Listed(names)
      ensures t.slots[i].tenantId == names[i] && SourceOf(t.slots[i], item) == QueriedFrom(before, i, item)
    {
      RunSource(all, i, item);
    }
    hide SourceOf, QueriedFrom, Run, Owns;
    if KeepsSources(before, Some(names)) {
      forall i, item: Item | 0 <= i < t.count && i < MAX_TENANTS
        ensures Owns(SourceOf(t.slots[i], item), t.slots[i].tenantId)
      {
        assert Owns(QueriedFrom(before, i, item), names[i]);
      }
    }
    if ScrapeAttributed(t) {
      forall i, item: Item | 0 <= i < Listed(names)
        ensures Owns(QueriedFrom(before, i, item), names[i])
      {
        assert Attributed(t.slots[i], t.slots[i].tenantId);
      }
    }
  }

  /** An update pass never spoils attribution: what it brings in belongs to the name of the slot. */
  lemma UpdateAttributed(before: seq<Event>, outcomes: nat -> Outcome)
    requires ScrapeAttributed(Run(before))
    ensures ScrapeAttributed(Run(before + [Update(outcomes)]))
  {
    var all := before + [Update(outcomes)];
    assert all[..|before|] == before;
    RunLabels(before);
    RunWellFormed(before);
    var s, t := Run(before), Run(all);
    forall i, item: Item | 0 <= i < t.count && i < MAX_TENANTS
      ensures Owns(SourceOf(t.slots[i], item), t.slots[i].tenantId)
    {
      assert Attributed(s.slots[i], s.slots[i].tenantId) && s.slots[i].active;
      assert Owns(SourceOf(s.slots[i], item), s.slots[i].tenantId);
      UpdatedSource(s.slots[i], outcomes(i), item);
    }
  }

  lemma LastAttributed(before: seq<Event>, e: Event)
    requires ScrapeAttributed(Run(before))
    ensures ScrapeAttributed(Run(before + [e])) <==> (e.Discovery? ==> KeepsSources(before, e.listing))
  {
    match e
    case Update(outcomes) => UpdateAttributed(before, outcomes);
    case Discovery(Some(names)) => DiscoveryAttributed(before, names);
    case Discovery(None) =>
      assert (before + [e])[..|before|] == before;
      assert Run(before + [e]) == Run(before);
  }

  // ----- the values

  /** What one update brings for each number of a slot, from its connection and its queries. */
  function TotalBrought(o: Outcome): Option<Int64> {
    if o.connects && o.sessions.Some? then Some(o.sessions.value.0) else None
  }

  function ActiveBrought(o: Outcome): Option<Int64> {
    if o.connects && o.sessions.Some? then Some(o.sessions.value.1) else None
  }

  function RatioBrought(o: Outcome): Option<Double> { if o.connects then o.ratio else None }

  function SizeBrought(o: Outcome): Option<Int64> { if o.connects then o.size else None }

  function TimeBrought(o: Outcome): Option<int> { if o.connects then Some(o.now) else None }

  function FlagBrought(o: Outcome): Option<bool> { Some(o.connects) }

  /** The last value that the updates of slot `i` brought. */
  function LastBrought<T>(events: seq<Event>, i: nat, brought: Outcome -> Option<T>): Option<T> {
    if events == [] then None
    else
      var before, e := events[..|events| - 1], events[|events| - 1];
      if e.Update? && i < ListedCount(before) && brought(e.outcomes(i)).Some? then brought(e.outcomes(i))
      else LastBrought(before, i, brought)
  }

  /** A number is this value, or the initial zero when there is none. */
  predicate IsValue<T(==)>(r: Reading<T>, value: Option<T>) {
    match value
    case None => r.Initial?
    case Some(x) => r.Queried? && r.value == x
  }

  /** The numbers of a slot are the last ones that its updates brought, and so is the time of the last success. */
  ghost predicate HoldsLast(slot: Slot, events: seq<Event>, i: nat) {
    && IsValue(slot.totalConnections, LastBrought(events, i, TotalBrought))
    && IsValue(slot.activeConnections, LastBrought(events, i, ActiveBrought))
    && IsValue(slot.cacheHitRatio, LastBrought(events, i, RatioBrought))
    && IsValue(slot.databaseSize, LastBrought(events, i, SizeBrought))
    && IsValue(slot.databaseConnected, LastBrought(events, i, FlagBrought))
    && var time := LastBrought(events, i, TimeBrought); slot.lastUpdate == if time.Some? then time.value else 0
  }

  lemma UpdatedHolds(slot: Slot, before: seq<Event>, outcomes: nat -> Outcome, i: nat)
    requires HoldsLast(slot, before, i)
    ensures i < ListedCount(before) ==> HoldsLast(Updated(slot, outcomes(i)), before + [Update(outcomes)], i)
    ensures i >= ListedCount(before) ==> HoldsLast(slot, before + [Update(outcomes)], i)
  {
    assert (before + [Update(outcomes)])[..|before|] == before;
    hide ListedCount;
  }

  lemma RelabelledHolds(s: State, before: seq<Event>, listing: Listing, i: nat)
    requires |s.slots| == MAX_TENANTS && i < MAX_TENANTS && HoldsLast(s.slots[i], before, i)
    ensures HoldsLast(Discovered(s, listing).slots[i], before + [Discovery(listing)], i)
  {
    assert (before + [Discovery(listing)])[..|before|] == before;
    hide ListedCount;
  }

  /**
    In every run, each number of a slot is the last one brought to it: the count of all sessions
    and of the active ones, the ratio and the size by the queries that succeeded, and the flag by
    the last attempt. A listing changes none of them.
   */
  lemma {:induction false} SlotsHoldLast(events: seq<Event>, i: nat)
    requires i < MAX_TENANTS
    ensures HoldsLast(Run(events).slots[i], events, i)
  {
    if events != [] {
      hide HoldsLast, Updated;
      var before, e := events[..|events| - 1], events[|events| - 1];
      assert events == before + [e];
      SlotsHoldLast(before, i);
      RunCount(before);
      RunWellFormed(before);
      match e
      case Discovery(listing) => RelabelledHolds(Run(before), before, listing, i);
      case Update(outcomes) => UpdatedHolds(Run(before).slots[i], before, outcomes, i);
    }
  }

  /**
    After any run, the slots that are scraped carry the names of the last successful listing, in
    its order, up to a hundred of them.
   */
  lemma LastListingShown(before: seq<Event>, names: seq<DbName>, after: seq<Event>)
    requires forall e <- after :: e.Discovery? ==> e.listing.None?
    ensures var s := Run(before + [Discovery(Some(names))] + after);
      && s.count == (if |names| < 100 then |names| else 100)
      && forall i :: 0 <= i < s.count && i < MAX_TENANTS ==> s.slots[i].tenantId == names[i]
  {
    var all := before + [Discovery(Some(names))];
    ListingKept(all, after);
    assert all[..|before|] == before;
    RunCount(all + after);
    RunLabels(all + after);
    hide Run;
  }

  lemma {:induction false} ListingKept(all: seq<Event>, after: seq<Event>)
    requires forall e <- after :: e.Discovery? ==> e.listing.None?
    ensures ListedCount(all + after) == ListedCount(all)
    ensures forall i: nat :: LabelOf(all + after, i) == LabelOf(all, i)
  {
    if after == [] {
      assert all + after == all;
    } else {
      var n := |after| - 1;
      assert (all + after)[..|all| + n] == all + after[..n];
      assert after[n] in after;
      ListingKept(all, after[..n]);
    }
  }

  // ----- exactly when every scrape is right

  lemma AlwaysAttributedSnoc(before: seq<Event>, e: Event)
    ensures AlwaysAttributed(before + [e]) <==> AlwaysAttributed(before) && ScrapeAttributed(Run(before + [e]))
  {
    hide Run, ScrapeAttributed;
    var all := before + [e];
    assert all[..|all|] == all;
    assert forall k :: 0 <= k <= |before| ==> all[..k] == before[..k];
    if AlwaysAttributed(all) {
      assert ScrapeAttributed(Run(all[..|all|]));
      forall k | 0 <= k <= |before|
        ensures ScrapeAttributed(Run(before[..k]))
      {
        assert ScrapeAttributed(Run(all[..k]));
      }
    }
  }

  lemma StableSourcesSnoc(before: seq<Event>, e: Event)
    ensures StableSources(before + [e]) <==> StableSources(before) && (e.Discovery? ==> KeepsSources(before, e.listing))
  {
    hide KeepsSources;
    var all := before + [e];
    assert forall k :: 0 <= k <= |before| ==> all[..k] == before[..k];
    assert before[..|before|] == before;
    if StableSources(all) {
      assert all[|before|].Discovery? ==> KeepsSources(all[..|before|], all[|before|].listing);
      forall k | 0 <= k < |before| && before[k].Discovery?
        ensures KeepsSources(before[..k], before[k].listing)
      {
        assert KeepsSources(all[..k], all[k].listing);
      }
    }
  }

  /**
    For arbitrary lists, and whichever connections and queries fail: every scrape attributes
    correctly exactly when no listing puts a name on a slot that still holds a number from
    another database.
   */
  lemma {:induction false} AttributedIffStableSources(events: seq<Event>)
    ensures AlwaysAttributed(events) <==> StableSources(events)
  {
    if events == [] {
      assert Run(events[..0]) == Start();
    } else {
      hide ScrapeAttributed, KeepsSources, Run, AlwaysAttributed, StableSources;
      var before, e := events[..|events| - 1], events[|events| - 1];
      assert events == before + [e];
      AttributedIffStableSources(before);
      AlwaysAttributedSnoc(before, e);
      StableSourcesSnoc(before, e);
      if AlwaysAttributed(before) {
        AttributedNow(before);
        LastAttributed(before, e);
      }
    }
  }

  lemma AttributedNow(events: seq<Event>)
    requires AlwaysAttributed(events)
    ensures ScrapeAttributed(Run(events))
  {
    assert events[..|events|] == events;
  }

  // ----- lists that keep the names of slots

  lemma StableNamesPrefix(events: seq<Event>, k: nat)
    requires StableNames(events) && k <= |events|
    ensures StableNames(events[..k])
  {
    hide KeepsLabels;
    forall j | 0 <= j < k && events[..k][j].Discovery?
      ensures KeepsLabels(events[..k][..j], events[..k][j].listing)
    {
      assert events[..k][..j] == events[..j];
      assert KeepsLabels(events[..j], events[j].listing);
    }
  }

  /** While no slot gets a second name, its numbers were queried under its present one. */
  lemma {:induction false} QueriedUnderLabel(events: seq<Event>, i: nat, item: Item)
    requires StableNames(events) && i < MAX_TENANTS
    ensures QueriedFrom(events, i, item) == None || QueriedFrom(events, i, item) == LabelOf(events, i)
  {
    if events != [] {
      hide Run, Brings;
      var n := |events| - 1;
      StableNamesPrefix(events, n);
      QueriedUnderLabel(events[..n], i, item);
      assert events[n].Discovery? ==> KeepsLabels(events[..n], events[n].listing);
    }
  }

  /**
    As long as no slot gets a second name, a scrape at any point reports under each tenant only
    what was queried from that tenant, however connections and queries fail.
   */
  lemma StableNamesAttribute(events: seq<Event>)
    requires StableNames(events)
    ensures AlwaysAttributed(events)
  {
    forall k | 0 <= k < |events| && events[k].Discovery?
      ensures KeepsSources(events[..k], events[k].listing)
    {
      hide LabelOf, QueriedFrom;
      assert KeepsLabels(events[..k], events[k].listing);
      StableNamesPrefix(events, k);
      forall i: nat, item: Item | i < MAX_TENANTS { QueriedUnderLabel(events[..k], i, item); }
    }
    AttributedIffStableSources(events);
  }

  /** With a database list that is only ever extended, every scrape attributes correctly. */
  lemma ExtendedListsAttribute(events: seq<Event>)
    requires OnlyExtended(events)
    ensures AlwaysAttributed(events)
  {
    hide StableNames, AlwaysAttributed;
    ExtendedIsStable(events);
    StableNamesAttribute(events);
  }

  predicate Succeeds(o: Outcome) { o.connects && o.sessions.Some? && o.ratio.Some? && o.size.Some? }

  ghost predicate AllSucceed(outcomes: nat -> Outcome) { forall i: nat :: Succeeds(outcomes(i)) }

  /** Whatever happened before, an update pass in which everything succeeds restores attribution. */
  lemma SuccessfulPassAttributes(events: seq<Event>, outcomes: nat -> Outcome)
    requires AllSucceed(outcomes)
    ensures ScrapeAttributed(Run(events + [Update(outcomes)]))
  {
    var all := events + [Update(outcomes)];
    assert all[..|events|] == events;
    RunLabels(events);
    RunWellFormed(events);
    var s, t := Run(events), Run(all);
    forall i, item: Item | 0 <= i < t.count
      ensures Owns(SourceOf(t.slots[i], item), t.slots[i].tenantId)
    {
      assert Succeeds(outcomes(i)) && s.slots[i].active;
      UpdatedSource(s.slots[i], outcomes(i), item);
    }
  }

  /**
    A database that disappears from the list shifts the others down: until the next update pass a
    scrape shows the numbers of the missing database under the name of its successor.
   */
  lemma ShiftedListMisattributes(o: Outcome)
    requires Succeeds(o)
    ensures var events := [Discovery(Some(["a", "b"])), Update(_ => o), Discovery(Some(["b"]))];
      && Run(events).slots[0].tenantId == "b"
      && Run(events).slots[0].databaseSize == Queried("a", o.size.value)
  {
    var events: seq<Event> := [Discovery(Some(["a", "b"])), Update(_ => o), Discovery(Some(["b"]))];
    assert events[..2][..1] == events[..1] && events[..1][..0] == [];
    assert Run(events[..1]) == After(Start(), events[0]);
    assert Run(events[..1]).slots[0] == Relabelled(BLANK, "a");
    assert Run(events[..2]) == After(Run(events[..1]), events[1]);
    assert Run(events[..2]).slots[0] == Updated(Relabelled(BLANK, "a"), o);
    assert Run(events) == After(Run(events[..2]), events[2]);
    assert Run(events).slots[0] == Relabelled(Updated(Relabelled(BLANK, "a"), o), "b");
  }
}
