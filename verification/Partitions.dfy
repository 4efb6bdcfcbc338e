/**
  The monthly partition scheduler: `create_table_stats_partitions`, `create_index_stats_partitions`
  and the first block of `system_maintenance`.
 */
module Partitions {
  import opened Wrappers
  import opened Calendar

  /** The two partitioned parents. */
  datatype Family = TableStats | IndexStats

  function ParentName(parent: Family): string {
    match parent
    case TableStats => "sn_stat_user_tables_modern"
    case IndexStats => "sn_stat_user_indexes_modern"
  }

  /** A table of the catalog: a range partition of a parent, or anything else. */
  datatype Table = Partition(parent: Family, from: Date, to: Date) | Plain

  type Tables = map<string, Table>

  function PartitionName(parent: Family, month: nat): string { ParentName(parent) + "_" + MonthText(month) }

  function MonthPartition(parent: Family, month: nat): Table {
    Partition(parent, FirstOf(month), FirstOf(month + 1))
  }

  /** The partition takes a row of that instant: from midnight of one bound up to midnight of the other. */
  predicate Contains(t: Table, parent: Family, at: Instant) {
    && t.Partition? && t.parent == parent && IsDate(t.from) && IsDate(t.to)
    && !Before(at, Midnight(t.from)) && Before(at, Midnight(t.to))
  }

  /** PostgreSQL refuses a partition whose range overlaps another one of the same parent. */
  predicate Overlaps(tables: Tables, parent: Family, from: Date, to: Date) {
    exists name <- tables.Keys ::
      && tables[name].Partition? && tables[name].parent == parent
      && DayStamp(tables[name].from) < DayStamp(to) && DayStamp(from) < DayStamp(tables[name].to)
  }

  function WithMonth(tables: Tables, parent: Family, month: nat): Tables {
    if PartitionName(parent, month) in tables then tables
    else tables[PartitionName(parent, month) := MonthPartition(parent, month)]
  }

  /** `count` months from the given one on. */
  function WithMonths(tables: Tables, parent: Family, month: nat, count: nat): Tables {
    if count == 0 then tables
    else WithMonth(WithMonths(tables, parent, month, count - 1), parent, month + count - 1)
  }

  /** The month of the run and the two after it. */
  function Ensured(tables: Tables, parent: Family, month: nat): Tables { WithMonths(tables, parent, month, 3) }

  /** Both families, as one maintenance run creates them. */
  function Maintained(tables: Tables, month: nat): Tables {
    Ensured(Ensured(tables, TableStats, month), IndexStats, month)
  }

  /** A whole calendar month of its parent, under the parent's name and the text of that month. */
  ghost predicate WellNamed(name: string, t: Table) {
    && t.Partition? && IsDate(t.from) && IsDate(t.to) && t.from.day == 1 && t.to.day == 1
    && 12 * t.to.year + t.to.month == 12 * t.from.year + t.from.month + 1
    && exists text: string ::
         name == (if t.parent.TableStats? then "sn_stat_user_tables_modern_" else "sn_stat_user_indexes_modern_") + text
         && NamesMonthOf(text, t.from)
  }

  class Catalog {
    var tables: Tables

    constructor (tables: Tables)
      ensures this.tables == tables
    {
      this.tables := tables;
    }

    /** `CREATE TABLE name PARTITION OF parent FOR VALUES FROM (from) TO (to)` */
    method CreatePartition(name: string, parent: Family, from: Date, to: Date) returns (r: Outcome)
      modifies this
      ensures r.Pass? <==> name !in old(tables) && !Overlaps(old(tables), parent, from, to)
      ensures tables == if r.Pass? then old(tables)[name := Partition(parent, from, to)] else old(tables)
    {
      if name in tables || Overlaps(tables, parent, from, to) {
        return Fail(-1);
      }
      tables := tables[name := Partition(parent, from, to)];
      return Pass;
    }

    /** One turn of the loop of `create_*_stats_partitions`. */
    method CreateMonth(parent: Family, today: Date, i: nat) returns (r: Outcome)
      requires IsDate(today)
      modifies this
      ensures r.Pass? ==> tables == WithMonth(old(tables), parent, Month(today) + i)
      ensures forall name <- tables :: name !in old(tables) ==>
        && WellNamed(name, tables[name]) && tables[name].parent == parent
        && 12 * tables[name].from.year + tables[name].from.month == 12 * today.year + today.month + i
      ensures Scheduled(old(tables), parent) ==> r.Pass?
    {
      hide AddMonths, TruncMonth, FirstOf, PartitionName, Scheduled, Overlaps;
      ghost var month: nat := Month(today) + i;
      AddToFirst(today, i);
      FirstOfMonth(month);
      FirstOfNext(month);
      PartitionNameOf(parent, month);
      MonthWellNamed(parent, month);
      var startDate := AddMonths(TruncMonth(today), i);
      var endDate := AddMonths(startDate, 1);
      var name := ParentName(parent) + "_" + MonthText(Month(startDate));
      if name in tables {
        return Pass;
      }
      if Scheduled(tables, parent) {
        AbsentMonthFits(tables, parent, month);
      }
      r := CreatePartition(name, parent, startDate, endDate);
    }

    /** `create_*_stats_partitions` on a given day; an error undoes the whole call. */
    method CreatePartitions(parent: Family, today: Date) returns (r: Outcome)
      requires IsDate(today)
      modifies this
      ensures r.Pass? ==> tables == Ensured(old(tables), parent, Month(today))
      ensures r.Fail? ==> tables == old(tables)
      ensures Scheduled(old(tables), parent) ==> r.Pass?
    {
      hide Scheduled, WithMonth, AddMonths;
      var saved := tables;
      for i := 0 to 3
        invariant tables == WithMonths(saved, parent, Month(today), i)
        invariant Scheduled(saved, parent) ==> Scheduled(tables, parent)
      {
        if Scheduled(tables, parent) {
          WithMonthScheduled(tables, parent, Month(today) + i);
        }
        r := CreateMonth(parent, today, i);
        if r.Fail? {
          tables := saved;
          return r;
        }
      }
      r := Pass;
    }

    /**
      The first block of `system_maintenance`: snapshot partitions (whose function is not part of
      this model), then both families here. Any error undoes the block and is only reported.
     */
    method SystemMaintenance(snapshotsCreated: bool, today: Date) returns (success: bool)
      requires IsDate(today)
      modifies this
      ensures tables == if success then Maintained(old(tables), Month(today)) else old(tables)
      ensures success ==> snapshotsCreated
      ensures WellScheduled(old(tables)) ==> success == snapshotsCreated && WellScheduled(tables)
    {
      var saved := tables;
      if WellScheduled(saved) {
        MaintenanceScheduled(saved, Month(today));
      }
      if !snapshotsCreated {
        return false;
      }
      var r := CreatePartitions(TableStats, today);
      if r.Fail? {
        tables := saved;
        return false;
      }
      r := CreatePartitions(IndexStats, today);
      if r.Fail? {
        tables := saved;
        return false;
      }
      return true;
    }
  }

  // ----- catalogs that only the scheduler has partitioned

  /** Every partition of the parent is a whole calendar month under the name of that month. */
  ghost predicate Scheduled(tables: Tables, parent: Family) {
    forall name <- tables :: tables[name].Partition? && tables[name].parent == parent ==>
      exists month: nat :: IsMonthOf(tables, name, parent, month)
  }

  predicate IsMonthOf(tables: Tables, name: string, parent: Family, month: nat) {
    month >= FIRST_MONTH && name == PartitionName(parent, month) && name in tables
    && tables[name] == MonthPartition(parent, month)
  }

  ghost predicate WellScheduled(tables: Tables) { forall parent :: Scheduled(tables, parent) }

  lemma PartitionNameDetermines(parent: Family, a: nat, b: nat)
    requires PartitionName(parent, a) == PartitionName(parent, b)
    ensures a == b
  {
    var n := |ParentName(parent)| + 1;
    assert PartitionName(parent, a)[n..] == MonthText(a) && PartitionName(parent, b)[n..] == MonthText(b);
    MonthTextDetermines(a, b);
  }

  /** The name that one turn of the loop builds. */
  lemma PartitionNameOf(parent: Family, month: nat)
    ensures PartitionName(parent, month) == ParentName(parent) + "_" + MonthText(month)
  {
  }

  lemma ParentNames(parent: Family)
    ensures ParentName(parent) + "_"
         == if parent.TableStats? then "sn_stat_user_tables_modern_" else "sn_stat_user_indexes_modern_"
  {
  }

  /** The partition of a month is well named. */
  lemma MonthWellNamed(parent: Family, month: nat)
    requires month >= FIRST_MONTH
    ensures WellNamed(PartitionName(parent, month), MonthPartition(parent, month))
  {
    FirstOfMonth(month);
    FirstOfMonth(month + 1);
    ParentNames(parent);
    PartitionNameOf(parent, month);
    MonthTextReads(FirstOf(month));
    hide NamesMonthOf, MonthText, PartitionName, ParentName, FirstOf;
    assert PartitionName(parent, month)
        == (if parent.TableStats? then "sn_stat_user_tables_modern_" else "sn_stat_user_indexes_modern_")
           + MonthText(month);
  }

  lemma WithMonthScheduled(tables: Tables, parent: Family, month: nat)
    requires Scheduled(tables, parent) && month >= FIRST_MONTH
    ensures Scheduled(WithMonth(tables, parent, month), parent)
  {
    hide PartitionName;
    var after := WithMonth(tables, parent, month);
    var added := PartitionName(parent, month);
    forall name <- after | after[name].Partition? && after[name].parent == parent
      ensures exists m: nat :: IsMonthOf(after, name, parent, m)
    {
      if name in tables {
        var m: nat :| IsMonthOf(tables, name, parent, m);
        assert IsMonthOf(after, name, parent, m);
      } else {
        assert IsMonthOf(after, name, parent, month);
      }
    }
  }

  /** The ranges of two different months do not overlap. */
  lemma MonthsApart(a: nat, b: nat)
    requires a >= FIRST_MONTH && b >= FIRST_MONTH && a != b
    ensures !(DayStamp(FirstOf(a)) < DayStamp(FirstOf(b + 1)) && DayStamp(FirstOf(b)) < DayStamp(FirstOf(a + 1)))
  {
    FirstOfMonth(a);
    FirstOfMonth(a + 1);
    FirstOfMonth(b);
    FirstOfMonth(b + 1);
  }

  /** Two ranges overlap exactly when some instant would fall into both. */
  lemma OverlapsIffShared(tables: Tables, parent: Family, from: Date, to: Date)
    requires IsDate(from) && IsDate(to) && DayStamp(from) < DayStamp(to)
    requires forall name <- tables :: tables[name].Partition? ==>
      IsDate(tables[name].from) && IsDate(tables[name].to) && DayStamp(tables[name].from) < DayStamp(tables[name].to)
    ensures Overlaps(tables, parent, from, to) <==>
      exists name <- tables, at: Instant ::
        Contains(tables[name], parent, at) && Contains(Partition(parent, from, to), parent, at)
  {
    hide DayStamp;
    if Overlaps(tables, parent, from, to) {
      var name :| name in tables.Keys && tables[name].Partition? && tables[name].parent == parent
        && DayStamp(tables[name].from) < DayStamp(to) && DayStamp(from) < DayStamp(tables[name].to);
      var t := tables[name];
      var at := Midnight(if DayStamp(t.from) < DayStamp(from) then from else t.from);
      assert Contains(t, parent, at) && Contains(Partition(parent, from, to), parent, at);
    }
  }

  /** A month whose name is free can always be created. */
  lemma {:induction false} AbsentMonthFits(tables: Tables, parent: Family, month: nat)
    requires Scheduled(tables, parent) && month >= FIRST_MONTH && PartitionName(parent, month) !in tables
    ensures !Overlaps(tables, parent, FirstOf(month), FirstOf(month + 1))
  {
    hide PartitionName, FirstOf, DayStamp;
    forall name <- tables.Keys | tables[name].Partition? && tables[name].parent == parent
      ensures !(DayStamp(tables[name].from) < DayStamp(FirstOf(month + 1))
             && DayStamp(FirstOf(month)) < DayStamp(tables[name].to))
    {
      var m: nat :| IsMonthOf(tables, name, parent, m);
      MonthsApart(m, month);
    }
  }

  lemma OtherParentScheduled(tables: Tables, parent: Family, other: Family, month: nat)
    requires Scheduled(tables, other) && parent != other
    ensures Scheduled(WithMonth(tables, parent, month), other)
  {
    hide PartitionName;
    var after := WithMonth(tables, parent, month);
    forall name <- after | after[name].Partition? && after[name].parent == other
      ensures exists m: nat :: IsMonthOf(after, name, other, m)
    {
      var m: nat :| IsMonthOf(tables, name, other, m);
      assert IsMonthOf(after, name, other, m);
    }
  }

  lemma {:induction false} WithMonthsScheduled(tables: Tables, parent: Family, other: Family, month: nat, count: nat)
    requires Scheduled(tables, parent) && Scheduled(tables, other) && month >= FIRST_MONTH
    ensures Scheduled(WithMonths(tables, parent, month, count), parent)
    ensures Scheduled(WithMonths(tables, parent, month, count), other)
  {
    hide Scheduled, WithMonth;
    if count > 0 {
      var before := WithMonths(tables, parent, month, count - 1);
      WithMonthsScheduled(tables, parent, other, month, count - 1);
      WithMonthScheduled(before, parent, month + count - 1);
      if parent != other {
        OtherParentScheduled(before, parent, other, month + count - 1);
      }
    }
  }

  lemma EnsuredWellScheduled(tables: Tables, parent: Family, month: nat)
    requires WellScheduled(tables) && month >= FIRST_MONTH
    ensures WellScheduled(Ensured(tables, parent, month))
  {
    hide Scheduled;
    forall other
      ensures Scheduled(Ensured(tables, parent, month), other)
    {
      WithMonthsScheduled(tables, parent, other, month, 3);
    }
  }

  lemma MaintenanceScheduled(tables: Tables, month: nat)
    requires WellScheduled(tables) && month >= FIRST_MONTH
    ensures WellScheduled(Ensured(tables, TableStats, month))
    ensures WellScheduled(Maintained(tables, month))
  {
    hide WellScheduled, Ensured;
    EnsuredWellScheduled(tables, TableStats, month);
    EnsuredWellScheduled(Ensured(tables, TableStats, month), IndexStats, month);
  }

  // ----- coverage

  predicate Covers(tables: Tables, parent: Family, month: nat) {
    PartitionName(parent, month) in tables && tables[PartitionName(parent, month)] == MonthPartition(parent, month)
  }

  /** The names of the partitions that would take a row of that instant. */
  function Takers(tables: Tables, parent: Family, at: Instant): set<string> {
    set name | name in tables && Contains(tables[name], parent, at)
  }

  /** The partition of a month takes exactly the rows of that month. */
  lemma MonthContains(parent: Family, month: nat, at: Instant)
    requires month >= FIRST_MONTH
    ensures Contains(MonthPartition(parent, month), parent, at) <==> Month(at.date) == month
  {
    FirstOfMonth(month);
    FirstOfMonth(month + 1);
    MidnightOrder(at, FirstOf(month));
    MidnightOrder(at, FirstOf(month + 1));
    MonthRange(at.date, month);
  }

  /**
    In a scheduled catalog an instant falls into at most one partition, and into one exactly when
    the partition of its month exists.
   */
  lemma {:induction false} ExactlyOneTaker(tables: Tables, parent: Family, at: Instant)
    requires Scheduled(tables, parent)
    ensures Takers(tables, parent, at)
         == if Covers(tables, parent, Month(at.date)) then {PartitionName(parent, Month(at.date))} else {}
  {
    hide PartitionName, MonthPartition, Before, Midnight;
    var month: nat := Month(at.date);
    MonthContains(parent, month, at);
    forall name <- Takers(tables, parent, at)
      ensures name == PartitionName(parent, month) && Covers(tables, parent, month)
    {
      var m: nat :| IsMonthOf(tables, name, parent, m);
      MonthContains(parent, m, at);
    }
  }

  /** A month can be covered unless its name is taken by something else. */
  predicate Blocked(tables: Tables, parent: Family, month: nat) {
    PartitionName(parent, month) in tables && !Covers(tables, parent, month)
  }

  lemma WithMonthCovers(tables: Tables, parent: Family, month: nat, m: nat)
    ensures Covers(WithMonth(tables, parent, month), parent, m)
       <==> Covers(tables, parent, m) || (m == month && !Blocked(tables, parent, m))
    ensures Blocked(WithMonth(tables, parent, month), parent, m) <==> Blocked(tables, parent, m)
  {
    hide PartitionName, MonthPartition;
    if PartitionName(parent, m) == PartitionName(parent, month) {
      PartitionNameDetermines(parent, m, month);
    }
  }

  /** Which months a run leaves covered: those before, and the three of the run that are not blocked. */
  lemma {:induction false} WithMonthsCovers(tables: Tables, parent: Family, month: nat, count: nat, m: nat)
    ensures Covers(WithMonths(tables, parent, month, count), parent, m)
       <==> Covers(tables, parent, m) || (month <= m < month + count && !Blocked(tables, parent, m))
    ensures Blocked(WithMonths(tables, parent, month, count), parent, m) <==> Blocked(tables, parent, m)
  {
    hide Covers, Blocked, WithMonth;
    if count > 0 {
      WithMonthsCovers(tables, parent, month, count - 1, m);
      WithMonthCovers(WithMonths(tables, parent, month, count - 1), parent, month + count - 1, m);
    }
  }

  lemma {:induction false} EnsuredCovers(tables: Tables, parent: Family, month: nat, m: nat)
    ensures Covers(Ensured(tables, parent, month), parent, m)
       <==> Covers(tables, parent, m) || (month <= m <= month + 2 && !Blocked(tables, parent, m))
    ensures Blocked(Ensured(tables, parent, month), parent, m) <==> Blocked(tables, parent, m)
  {
    WithMonthsCovers(tables, parent, month, 3, m);
  }

  lemma {:induction false} WithMonthsKeeps(tables: Tables, parent: Family, month: nat, count: nat, name: string)
    requires name in tables
    ensures name in WithMonths(tables, parent, month, count)
    ensures WithMonths(tables, parent, month, count)[name] == tables[name]
  {
    hide PartitionName, MonthPartition;
    if count > 0 {
      WithMonthsKeeps(tables, parent, month, count - 1, name);
    }
  }

  lemma {:induction false} WithMonthsPresent(tables: Tables, parent: Family, month: nat, count: nat)
    ensures forall m :: month <= m < month + count ==>
      PartitionName(parent, m) in WithMonths(tables, parent, month, count)
  {
    hide PartitionName;
    if count > 0 {
      WithMonthsPresent(tables, parent, month, count - 1);
    }
  }

  lemma {:induction false} NothingToAdd(tables: Tables, parent: Family, month: nat, count: nat)
    requires forall m :: month <= m < month + count ==> PartitionName(parent, m) in tables
    ensures WithMonths(tables, parent, month, count) == tables
  {
    hide PartitionName;
    if count > 0 {
      NothingToAdd(tables, parent, month, count - 1);
    }
  }

  /** A second maintenance run in the same month changes nothing. */
  lemma {:induction false} SecondMaintenanceIdle(tables: Tables, month: nat)
    ensures Maintained(Maintained(tables, month), month) == Maintained(tables, month)
  {
    hide WithMonths, PartitionName;
    var first := Ensured(tables, TableStats, month);
    var both := Maintained(tables, month);
    WithMonthsPresent(tables, TableStats, month, 3);
    forall m | month <= m < month + 3
      ensures PartitionName(TableStats, m) in both
    {
      WithMonthsKeeps(first, IndexStats, month, 3, PartitionName(TableStats, m));
    }
    NothingToAdd(both, TableStats, month, 3);
    WithMonthsPresent(first, IndexStats, month, 3);
    NothingToAdd(both, IndexStats, month, 3);
  }

  // ----- runs over time

  /** The catalog after the maintenance runs at these instants. */
  function AfterRuns(initial: Tables, runs: seq<Instant>): Tables {
    if runs == [] then initial
    else Maintained(AfterRuns(initial, runs[..|runs| - 1]), Month(runs[|runs| - 1].date))
  }

  /** A maintenance run, which an error can undo. */
  datatype Attempt = Attempt(at: Instant, success: bool)

  /** The catalog after these calls of `system_maintenance`, some of which are undone. */
  function AfterAttempts(initial: Tables, history: seq<Attempt>): Tables {
    if history == [] then initial
    else
      var before, last := AfterAttempts(initial, history[..|history| - 1]), history[|history| - 1];
      if last.success then Maintained(before, Month(last.at.date)) else before
  }

  function Succeeded(history: seq<Attempt>): seq<Instant> {
    if history == [] then []
    else
      Succeeded(history[..|history| - 1])
      + if history[|history| - 1].success then [history[|history| - 1].at] else []
  }

  lemma AfterRunsSnoc(initial: Tables, runs: seq<Instant>, at: Instant)
    ensures AfterRuns(initial, runs + [at]) == Maintained(AfterRuns(initial, runs), Month(at.date))
  {
    hide Maintained, Month;
    assert (runs + [at])[..|runs|] == runs;
  }

  /** Runs that were undone leave no trace, so the coverage is that of the runs that succeeded. */
  lemma {:induction false} UndoneRunsLeaveNoTrace(initial: Tables, history: seq<Attempt>)
    ensures AfterAttempts(initial, history) == AfterRuns(initial, Succeeded(history))
  {
    if history != [] {
      hide Maintained, AfterRuns, Month;
      var before, last := history[..|history| - 1], history[|history| - 1];
      UndoneRunsLeaveNoTrace(initial, before);
      if last.success {
        AfterRunsSnoc(initial, Succeeded(before), last.at);
        assert Succeeded(history) == Succeeded(before) + [last.at];
      } else {
        assert Succeeded(history) == Succeeded(before);
      }
    }
  }

  /** A catalog to start from: nothing partitioned yet, and no name in the way. */
  ghost predicate Clean(tables: Tables) {
    WellScheduled(tables) && forall parent, month: nat :: PartitionName(parent, month) !in tables
  }

  /** The two families never use the same name. */
  lemma FamiliesApart(parent: Family, a: nat, other: Family, b: nat)
    requires parent != other
    ensures PartitionName(parent, a) != PartitionName(other, b)
  {
    assert PartitionName(parent, a)[13] == ParentName(parent)[13];
    assert PartitionName(other, b)[13] == ParentName(other)[13];
    assert ParentName(TableStats)[13] == 't' && ParentName(IndexStats)[13] == 'i';
  }

  /** A month of one family neither covers nor blocks one of the other. */
  lemma OtherMonthUntouched(tables: Tables, parent: Family, other: Family, month: nat, m: nat)
    requires parent != other
    ensures Covers(WithMonth(tables, other, month), parent, m) <==> Covers(tables, parent, m)
    ensures Blocked(WithMonth(tables, other, month), parent, m) <==> Blocked(tables, parent, m)
  {
    hide PartitionName, MonthPartition;
    FamiliesApart(parent, m, other, month);
  }

  lemma {:induction false} OtherFamilyUntouched(tables: Tables, parent: Family, other: Family, month: nat, count: nat,
                                               m: nat)
    requires parent != other
    ensures Covers(WithMonths(tables, other, month, count), parent, m) <==> Covers(tables, parent, m)
    ensures Blocked(WithMonths(tables, other, month, count), parent, m) <==> Blocked(tables, parent, m)
  {
    hide Covers, Blocked, WithMonth;
    if count > 0 {
      OtherFamilyUntouched(tables, parent, other, month, count - 1, m);
      OtherMonthUntouched(WithMonths(tables, other, month, count - 1), parent, other, month + count - 1, m);
    }
  }

  /** What one maintenance run does to the coverage of either family. */
  lemma {:induction false} MaintainedCovers(tables: Tables, parent: Family, month: nat, m: nat)
    ensures Covers(Maintained(tables, month), parent, m)
       <==> Covers(tables, parent, m) || (month <= m <= month + 2 && !Blocked(tables, parent, m))
    ensures Blocked(Maintained(tables, month), parent, m) <==> Blocked(tables, parent, m)
  {
    var middle := Ensured(tables, TableStats, month);
    if parent == TableStats {
      EnsuredCovers(tables, TableStats, month, m);
      OtherFamilyUntouched(middle, TableStats, IndexStats, month, 3, m);
    } else {
      OtherFamilyUntouched(tables, IndexStats, TableStats, month, 3, m);
      EnsuredCovers(middle, IndexStats, month, m);
    }
    hide Covers, Blocked, WithMonths;
  }

  /** Some run was in the month or in one of the two before it. */
  ghost predicate Provided(runs: seq<Instant>, m: nat) {
    exists k :: 0 <= k < |runs| && Month(runs[k].date) <= m <= Month(runs[k].date) + 2
  }

  lemma ProvidedSnoc(runs: seq<Instant>, m: nat)
    requires runs != []
    ensures Provided(runs, m) <==>
      Provided(runs[..|runs| - 1], m) || Month(runs[|runs| - 1].date) <= m <= Month(runs[|runs| - 1].date) + 2
  {
    var n := |runs| - 1;
    if k :| 0 <= k < n && Month(runs[..n][k].date) <= m <= Month(runs[..n][k].date) + 2 {
      assert Month(runs[k].date) <= m <= Month(runs[k].date) + 2;
    }
    if k :| 0 <= k < |runs| && Month(runs[k].date) <= m <= Month(runs[k].date) + 2 {
      assert k < n ==> runs[..n][k] == runs[k];
    }
  }

  /** After any runs, in any order, the partitions are whole months under their own names. */
  lemma {:induction false} RunsScheduled(initial: Tables, runs: seq<Instant>)
    requires WellScheduled(initial)
    ensures WellScheduled(AfterRuns(initial, runs))
  {
    if runs != [] {
      hide WellScheduled, Maintained;
      RunsScheduled(initial, runs[..|runs| - 1]);
      MaintenanceScheduled(AfterRuns(initial, runs[..|runs| - 1]), Month(runs[|runs| - 1].date));
    }
  }

  /** So every partition that the scheduler may have made is well named. */
  lemma RunsWellNamed(initial: Tables, runs: seq<Instant>, name: string)
    requires WellScheduled(initial)
    ensures var after := AfterRuns(initial, runs);
      name in after && after[name].Partition? ==> WellNamed(name, after[name])
  {
    RunsScheduled(initial, runs);
    var after := AfterRuns(initial, runs);
    if name in after && after[name].Partition? {
      assert Scheduled(after, after[name].parent);
      hide AfterRuns, PartitionName, MonthPartition, WellNamed;
      var month: nat :| IsMonthOf(after, name, after[name].parent, month);
      MonthWellNamed(after[name].parent, month);
    }
  }

  /** After any runs, a month is covered exactly when some run was in it or in one of the two before. */
  lemma {:induction false} RunsCover(initial: Tables, parent: Family, runs: seq<Instant>, m: nat)
    requires Clean(initial)
    ensures !Blocked(AfterRuns(initial, runs), parent, m)
    ensures Covers(AfterRuns(initial, runs), parent, m) <==> Provided(runs, m)
  {
    if runs == [] {
      assert PartitionName(parent, m) !in initial;
    } else {
      hide Covers, Blocked, Maintained, Provided, Clean;
      RunsCover(initial, parent, runs[..|runs| - 1], m);
      ProvidedSnoc(runs, m);
      MaintainedCovers(AfterRuns(initial, runs[..|runs| - 1]), parent, Month(runs[|runs| - 1].date), m);
    }
  }

  ghost predicate InOrder(runs: seq<Instant>) {
    forall i, j :: 0 <= i < j < |runs| ==> !Before(runs[j], runs[i])
  }

  /** A row arriving at `t` finds exactly one partition, given the runs up to then. */
  ghost predicate Accepted(initial: Tables, parent: Family, runs: seq<Instant>, t: Instant) {
    |Takers(AfterRuns(initial, runs), parent, t)| == 1
  }

  /** Every row that arrives between one run and the next is accepted. */
  ghost predicate NoGap(initial: Tables, parent: Family, runs: seq<Instant>) {
    forall k, t: Instant | 0 < k < |runs| && !Before(t, runs[k - 1]) && Before(t, runs[k]) ::
      Accepted(initial, parent, runs[..k], t)
  }

  /** The first instant that a run does not provide for. */
  function Horizon(run: Instant): Instant {
    FirstOfMonth(Month(run.date) + 3);
    Midnight(FirstOf(Month(run.date) + 3))
  }

  ghost predicate RunsInTime(runs: seq<Instant>) {
    forall k :: 0 < k < |runs| ==> !Before(Horizon(runs[k - 1]), runs[k])
  }

  lemma MonthOrder(a: Instant, b: Instant)
    requires !Before(b, a)
    ensures Month(a.date) <= Month(b.date)
  {
  }

  lemma BeforeHorizon(run: Instant, t: Instant)
    ensures Before(t, Horizon(run)) <==> Month(t.date) <= Month(run.date) + 2
  {
    FirstOfMonth(Month(run.date) + 3);
  }

  /** With runs in order, the last run decides what is provided for from its month on. */
  lemma ProvidedByLast(runs: seq<Instant>, m: nat)
    requires InOrder(runs) && runs != [] && Month(runs[|runs| - 1].date) <= m
    ensures Provided(runs, m) <==> m <= Month(runs[|runs| - 1].date) + 2
  {
    var n := |runs| - 1;
    if k :| 0 <= k < |runs| && Month(runs[k].date) <= m <= Month(runs[k].date) + 2 {
      if k < n {
        MonthOrder(runs[k], runs[n]);
      }
    }
  }

  lemma InOrderPrefix(runs: seq<Instant>, k: nat)
    requires InOrder(runs) && k <= |runs|
    ensures InOrder(runs[..k])
  {
    hide Before;
  }

  /** Between two runs, a row is accepted exactly when it comes before the earlier run's horizon. */
  lemma {:induction false} AcceptedBeforeHorizon(initial: Tables, parent: Family, runs: seq<Instant>, k: nat,
                                                t: Instant)
    requires InOrder(runs) && Clean(initial) && 0 < k <= |runs|
    requires !Before(t, runs[k - 1])
    ensures Accepted(initial, parent, runs[..k], t) <==> Before(t, Horizon(runs[k - 1]))
  {
    var so := runs[..k];
    var m: nat := Month(t.date);
    MonthOrder(runs[k - 1], t);
    InOrderPrefix(runs, k);
    assert so[k - 1] == runs[k - 1];
    hide Takers, Covers, AfterRuns, Before, Horizon, InOrder, Provided, Clean, WellScheduled, PartitionName, Blocked;
    ProvidedByLast(so, m);
    RunsCover(initial, parent, so, m);
    CleanRunsScheduled(initial, parent, so);
    ExactlyOneTaker(AfterRuns(initial, so), parent, t);
    BeforeHorizon(runs[k - 1], t);
  }

  lemma CleanRunsScheduled(initial: Tables, parent: Family, runs: seq<Instant>)
    requires Clean(initial)
    ensures Scheduled(AfterRuns(initial, runs), parent)
  {
    hide Scheduled, AfterRuns;
    RunsScheduled(initial, runs);
  }

  /**
    Coverage over runs. From the first run on, every instant up to the last run falls in exactly
    one partition when it comes, exactly when each run starts no later than the first instant
    that the run before it did not provide for.
   */
  lemma {:induction false} NoGapIffInTime(initial: Tables, parent: Family, runs: seq<Instant>)
    requires InOrder(runs) && Clean(initial)
    ensures NoGap(initial, parent, runs) <==> RunsInTime(runs)
  {
    if RunsInTime(runs) {
      forall k, t: Instant | 0 < k < |runs| && !Before(t, runs[k - 1]) && Before(t, runs[k])
        ensures Accepted(initial, parent, runs[..k], t)
      {
        AcceptedBeforeHorizon(initial, parent, runs, k, t);
      }
    } else {
      var k :| 0 < k < |runs| && Before(Horizon(runs[k - 1]), runs[k]);
      var t := Horizon(runs[k - 1]);
      FirstOfMonth(Month(runs[k - 1].date) + 3);
      BeforeHorizon(runs[k - 1], runs[k - 1]);
      AcceptedBeforeHorizon(initial, parent, runs, k, t);
      assert !Accepted(initial, parent, runs[..k], t);
    }
  }

  /** Runs at most two calendar months apart leave no gap. */
  lemma {:induction false} TwoMonthsApartSuffices(initial: Tables, parent: Family, runs: seq<Instant>)
    requires InOrder(runs) && Clean(initial)
    requires forall k :: 0 < k < |runs| ==> Month(runs[k].date) <= Month(runs[k - 1].date) + 2
    ensures NoGap(initial, parent, runs)
  {
    forall k | 0 < k < |runs|
      ensures !Before(Horizon(runs[k - 1]), runs[k])
    {
      BeforeHorizon(runs[k - 1], runs[k]);
    }
    NoGapIffInTime(initial, parent, runs);
  }

  lemma EmptyIsClean()
    ensures Clean(map[])
  {
  }

  lemma SpringInstants(a: Instant, t: Instant, b: Instant)
    requires a == Midnight(Date(2024, 1, 1)) && t == Midnight(Date(2024, 4, 1)) && b == Midnight(Date(2024, 6, 1))
    ensures Horizon(a) == t && InOrder([a]) && InOrder([a, b]) && !Before(t, a) && Before(t, b) && !Before(t, t)
  {
  }

  /** A run in January and the next one in June leave the rows of April and May without a partition. */
  lemma {:induction false} FiveMonthsLeaveAGap()
    ensures var a, b: Instant := Midnight(Date(2024, 1, 1)), Midnight(Date(2024, 6, 1));
      !NoGap(map[], TableStats, [a, b]) && !Accepted(map[], TableStats, [a], Midnight(Date(2024, 4, 1)))
  {
    var a, b: Instant := Midnight(Date(2024, 1, 1)), Midnight(Date(2024, 6, 1));
    var t: Instant := Midnight(Date(2024, 4, 1));
    EmptyIsClean();
    SpringInstants(a, t, b);
    hide Before, Horizon, InOrder, Clean, NoGap, Accepted, Midnight;
    NoGapIffInTime(map[], TableStats, [a, b]);
    assert [a, b][1 - 1] == a && [a, b][1] == b && [a][1 - 1] == a && [a][..1] == [a];
    AcceptedBeforeHorizon(map[], TableStats, [a], 1, t);
  }
}
