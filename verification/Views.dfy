/**
  The views `v_current_table_stats` and `v_organization_summary`, evaluated join by join, and
  their meaning as direct counts over the base tables.
 */
module Views {
  import opened Wrappers
  import opened Relations

  const HOUR := 3600

  // ----- v_current_table_stats

  /** A row of the CTE `latest_snapshots`. */
  datatype Latest = Latest(cluster: Uuid, database: Option<string>, id: int)

  predicate IsRecent(s: Snapshot, now: int) { s.ofTables && s.collectedAt >= now - HOUR }

  /** `FIRST_VALUE(id) OVER (PARTITION BY cluster, database ORDER BY collected_at DESC)`; ties go by row order. */
  function Newest(snapshots: seq<Snapshot>, now: int, cluster: Uuid, database: Option<string>): Option<Snapshot> {
    if snapshots == [] then None
    else
      var s, rest := snapshots[0], Newest(snapshots[1..], now, cluster, database);
      if IsRecent(s, now) && s.cluster == cluster && s.database == database
         && (rest.None? || s.collectedAt >= rest.value.collectedAt) then Some(s)
      else rest
  }

  function LatestOf(all: seq<Snapshot>, snapshots: seq<Snapshot>, now: int): seq<Latest> {
    if snapshots == [] then []
    else
      var s, rest := snapshots[0], LatestOf(all, snapshots[1..], now);
      if IsRecent(s, now) then
        var newest := Newest(all, now, s.cluster, s.database);
        [Latest(s.cluster, s.database, if newest.Some? then newest.value.id else s.id)] + rest
      else rest
  }

  function LatestSnapshots(s: State, now: int): seq<Latest> { Distinct(LatestOf(s.snapshots, s.snapshots, now)) }

  /** A row of the view. */
  datatype Row = Row(organization: Uuid, cluster: Uuid, stat: Stat)

  function JoinOrganization(organizations: seq<Organization>, c: Cluster, t: Stat): seq<Row> {
    if organizations == [] then []
    else
      var o := organizations[0];
      (if o.id == c.organization && o.active && c.active then [Row(o.id, c.id, t)] else [])
      + JoinOrganization(organizations[1..], c, t)
  }

  function JoinCluster(s: State, clusters: seq<Cluster>, t: Stat): seq<Row> {
    if clusters == [] then []
    else
      (if clusters[0].id == t.cluster then JoinOrganization(s.organizations, clusters[0], t) else [])
      + JoinCluster(s, clusters[1..], t)
  }

  function JoinStats(s: State, stats: seq<Stat>, id: int): seq<Row> {
    if stats == [] then []
    else
      (if stats[0].snapshot == id then JoinCluster(s, s.clusters, stats[0]) else [])
      + JoinStats(s, stats[1..], id)
  }

  function JoinLatest(s: State, latest: seq<Latest>): seq<Row> {
    if latest == [] then [] else JoinStats(s, s.stats, latest[0].id) + JoinLatest(s, latest[1..])
  }

  function CurrentStats(s: State, now: int): seq<Row> { JoinLatest(s, LatestSnapshots(s, now)) }

  // ----- exactly one latest snapshot per cluster and database

  predicate Candidate(x: Snapshot, now: int, cluster: Uuid, database: Option<string>) {
    IsRecent(x, now) && x.cluster == cluster && x.database == database
  }

  /** `n` is a newest candidate, or there is none. */
  ghost predicate IsNewest(n: Option<Snapshot>, snapshots: seq<Snapshot>, now: int, cluster: Uuid,
                           database: Option<string>) {
    match n
    case None => forall x <- snapshots :: !Candidate(x, now, cluster, database)
    case Some(s) =>
      && s in snapshots && Candidate(s, now, cluster, database)
      && forall x <- snapshots :: Candidate(x, now, cluster, database) ==> x.collectedAt <= s.collectedAt
  }

  lemma {:induction false} NewestIsNewest(snapshots: seq<Snapshot>, now: int, cluster: Uuid, database: Option<string>)
    ensures IsNewest(Newest(snapshots, now, cluster, database), snapshots, now, cluster, database)
  {
    if snapshots != [] {
      NewestIsNewest(snapshots[1..], now, cluster, database);
      assert forall x <- snapshots :: x == snapshots[0] || x in snapshots[1..];
    }
  }

  /**
    Written out on the columns: the snapshot at this position is of tables and at most an hour
    old, none of the same cluster and database is younger, and none as young comes before it.
   */
  ghost predicate IsLatestRow(snapshots: seq<Snapshot>, now: int, i: nat)
    requires i < |snapshots|
  {
    var x := snapshots[i];
    && x.ofTables && now - 3600 <= x.collectedAt
    && forall j | 0 <= j < |snapshots| && snapshots[j].ofTables
                  && snapshots[j].cluster == x.cluster && snapshots[j].database == x.database ::
         snapshots[j].collectedAt < x.collectedAt || (snapshots[j].collectedAt == x.collectedAt && i <= j)
  }

  lemma {:induction false} NewestIsLatestRow(snapshots: seq<Snapshot>, now: int, i: nat)
    requires i < |snapshots| && IsLatestRow(snapshots, now, i)
    ensures Newest(snapshots, now, snapshots[i].cluster, snapshots[i].database) == Some(snapshots[i])
  {
    var x, rest := snapshots[i], snapshots[1..];
    NewestIsNewest(rest, now, x.cluster, x.database);
    if i > 0 {
      assert forall j :: 0 <= j < |rest| ==> rest[j] == snapshots[j + 1];
      NewestIsLatestRow(rest, now, i - 1);
      assert snapshots[0].ofTables && snapshots[0].cluster == x.cluster && snapshots[0].database == x.database ==>
        snapshots[0].collectedAt < x.collectedAt;
    } else {
      var n := Newest(rest, now, x.cluster, x.database);
      if n.Some? {
        var j :| 0 <= j < |rest| && rest[j] == n.value;
        assert snapshots[j + 1] == n.value;
      }
    }
  }

  /** An older or unrelated row in front changes nothing. */
  lemma LatestRowLater(snapshots: seq<Snapshot>, now: int, k: nat)
    requires k + 1 < |snapshots| && IsLatestRow(snapshots[1..], now, k)
    requires var first, x := snapshots[0], snapshots[k + 1];
      first.ofTables && first.cluster == x.cluster && first.database == x.database ==> first.collectedAt < x.collectedAt
    ensures IsLatestRow(snapshots, now, k + 1)
  {
    assert forall j :: 0 < j < |snapshots| ==> snapshots[j] == snapshots[1..][j - 1];
  }

  lemma FirstIsLatestRow(snapshots: seq<Snapshot>, now: int)
    requires snapshots != []
    requires var x := snapshots[0];
      IsRecent(x, now) && Newest(snapshots, now, x.cluster, x.database) == Some(x)
    ensures IsLatestRow(snapshots, now, 0)
  {
    var x := snapshots[0];
    NewestIsNewest(snapshots, now, x.cluster, x.database);
    hide Newest;
    assert forall j :: 0 <= j < |snapshots| ==> snapshots[j] in snapshots;
  }

  lemma {:induction false} NewestAt(snapshots: seq<Snapshot>, now: int, cluster: Uuid, database: Option<string>)
    returns (i: nat)
    requires Newest(snapshots, now, cluster, database).Some?
    ensures i < |snapshots| && snapshots[i] == Newest(snapshots, now, cluster, database).value
    ensures snapshots[i].cluster == cluster && snapshots[i].database == database && IsLatestRow(snapshots, now, i)
  {
    hide IsLatestRow;
    var x, rest := snapshots[0], Newest(snapshots[1..], now, cluster, database);
    if Candidate(x, now, cluster, database) && (rest.None? || x.collectedAt >= rest.value.collectedAt) {
      i := 0;
      FirstIsLatestRow(snapshots, now);
    } else {
      var k := NewestAt(snapshots[1..], now, cluster, database);
      i := k + 1;
      assert snapshots[i] == rest.value;
      RowIsRecent(snapshots[1..], now, k);
      LatestRowLater(snapshots, now, k);
    }
  }

  lemma RowIsRecent(snapshots: seq<Snapshot>, now: int, k: nat)
    requires k < |snapshots| && IsLatestRow(snapshots, now, k)
    ensures IsRecent(snapshots[k], now)
  {
  }

  /** The rows of `latest_snapshots`: one for each cluster and database with a recent snapshot. */
  predicate IsLatest(s: State, now: int, l: Latest) {
    var n := Newest(s.snapshots, now, l.cluster, l.database);
    n.Some? && l.id == n.value.id
  }

  lemma {:induction false} LatestOfContents(s: State, snapshots: seq<Snapshot>, now: int, l: Latest)
    requires forall x <- snapshots :: x in s.snapshots
    ensures l in LatestOf(s.snapshots, snapshots, now)
       <==> IsLatest(s, now, l) && exists x <- snapshots :: Candidate(x, now, l.cluster, l.database)
  {
    if snapshots != [] {
      var x := snapshots[0];
      LatestOfContents(s, snapshots[1..], now, l);
      NewestIsNewest(s.snapshots, now, x.cluster, x.database);
      assert x in s.snapshots && x in snapshots;
      assert forall y <- snapshots :: y == x || y in snapshots[1..];
      assert forall y <- snapshots[1..] :: y in snapshots;
    }
  }

  /**
    Exactly one row per cluster and database, and the rows are the latest snapshots: those of
    tables, at most an hour old, that no other one of the same cluster and database comes before.
   */
  lemma OneLatestPerDatabase(s: State, now: int)
    ensures forall l: Latest :: l in LatestSnapshots(s, now) <==>
      exists i :: 0 <= i < |s.snapshots| && IsLatestRow(s.snapshots, now, i)
        && l == Latest(s.snapshots[i].cluster, s.snapshots[i].database, s.snapshots[i].id)
    ensures var r := LatestSnapshots(s, now);
      forall i, j :: 0 <= i < j < |r| ==> r[i].cluster != r[j].cluster || r[i].database != r[j].database
    ensures forall x <- s.snapshots :: x.ofTables && now - 3600 <= x.collectedAt ==>
      exists l <- LatestSnapshots(s, now) :: l.cluster == x.cluster && l.database == x.database
  {
    LatestRows(s, now);
    forall l: Latest
      ensures IsLatest(s, now, l) <==>
        exists i :: 0 <= i < |s.snapshots| && IsLatestRow(s.snapshots, now, i)
          && l == Latest(s.snapshots[i].cluster, s.snapshots[i].database, s.snapshots[i].id)
    {
      LatestIffRow(s, now, l);
    }
    forall x <- s.snapshots | x.ofTables && now - 3600 <= x.collectedAt
      ensures exists l <- LatestSnapshots(s, now) :: l.cluster == x.cluster && l.database == x.database
    {
      NewestIsNewest(s.snapshots, now, x.cluster, x.database);
      assert Candidate(x, now, x.cluster, x.database);
      var n := Newest(s.snapshots, now, x.cluster, x.database).value;
      assert IsLatest(s, now, Latest(x.cluster, x.database, n.id));
    }
    hide IsLatestRow, IsLatest, Newest;
  }

  lemma LatestIffRow(s: State, now: int, l: Latest)
    ensures IsLatest(s, now, l) <==>
      exists i :: 0 <= i < |s.snapshots| && IsLatestRow(s.snapshots, now, i)
        && l == Latest(s.snapshots[i].cluster, s.snapshots[i].database, s.snapshots[i].id)
  {
    hide IsLatestRow, Newest;
    if IsLatest(s, now, l) {
      var i := NewestAt(s.snapshots, now, l.cluster, l.database);
      assert l == Latest(s.snapshots[i].cluster, s.snapshots[i].database, s.snapshots[i].id);
    }
    forall i | 0 <= i < |s.snapshots| && IsLatestRow(s.snapshots, now, i) {
      NewestIsLatestRow(s.snapshots, now, i);
    }
  }

  /** The rows by what the window function computes. */
  lemma LatestRows(s: State, now: int)
    ensures forall l :: l in LatestSnapshots(s, now) <==> IsLatest(s, now, l)
    ensures var r := LatestSnapshots(s, now);
      forall i, j :: 0 <= i < j < |r| ==> r[i].cluster != r[j].cluster || r[i].database != r[j].database
  {
    forall l: Latest
      ensures l in LatestSnapshots(s, now) <==> IsLatest(s, now, l)
    {
      LatestOfContents(s, s.snapshots, now, l);
      NewestIsNewest(s.snapshots, now, l.cluster, l.database);
    }
    var r := LatestSnapshots(s, now);
    forall i, j | 0 <= i < j < |r|
      ensures r[i].cluster != r[j].cluster || r[i].database != r[j].database
    {
      assert r[i] in r && r[j] in r;
    }
  }

  /** With unique snapshot ids, the rows also differ in their ids. */
  lemma LatestIdsDiffer(s: State, now: int)
    requires KeysHold(s)
    ensures var r := LatestSnapshots(s, now); forall i, j :: 0 <= i < j < |r| ==> r[i].id != r[j].id
  {
    LatestRows(s, now);
    var r := LatestSnapshots(s, now);
    forall i, j | 0 <= i < j < |r|
      ensures r[i].id != r[j].id
    {
      assert r[i] in r && r[j] in r;
      NewestIsNewest(s.snapshots, now, r[i].cluster, r[i].database);
      NewestIsNewest(s.snapshots, now, r[j].cluster, r[j].database);
      if r[i].id == r[j].id {
        SameIdSameSnapshot(s, Newest(s.snapshots, now, r[i].cluster, r[i].database).value,
                           Newest(s.snapshots, now, r[j].cluster, r[j].database).value);
      }
    }
  }

  lemma SameIdSameSnapshot(s: State, x: Snapshot, y: Snapshot)
    requires KeysHold(s) && x in s.snapshots && y in s.snapshots && x.id == y.id
    ensures x == y
  {
    var i :| 0 <= i < |s.snapshots| && s.snapshots[i] == x;
    var j :| 0 <= j < |s.snapshots| && s.snapshots[j] == y;
    assert !(i < j) && !(j < i);
  }

  // ----- what the current rows add up to

  /** The two sums of the summary: the number of tables and their bytes. */
  datatype Measure = Tables | Bytes

  /** What one statistics row adds: one table, or its bytes if they are known. */
  function Weight(t: Stat, m: Measure): int { if m.Tables? then 1 else if t.bytes.Some? then t.bytes.value else 0 }

  /** The rows of one cluster and database. */
  function RowsSum(rows: seq<Row>, cluster: Uuid, database: string, m: Measure): int {
    if rows == [] then 0
    else
      (if rows[0].cluster == cluster && rows[0].stat.database == database then Weight(rows[0].stat, m) else 0)
      + RowsSum(rows[1..], cluster, database, m)
  }

  /** The statistics row belongs to the latest snapshot of a cluster and database. */
  ghost predicate IsCurrent(s: State, now: int, t: Stat) {
    exists i :: 0 <= i < |s.snapshots| && s.snapshots[i].id == t.snapshot && IsLatestRow(s.snapshots, now, i)
  }

  ghost predicate OrganizationActive(organizations: seq<Organization>, id: Uuid) {
    exists o <- organizations :: o.id == id && o.active
  }

  ghost predicate Visible(s: State, clusters: seq<Cluster>, id: Uuid) {
    exists c <- clusters :: c.id == id && c.active && OrganizationActive(s.organizations, c.organization)
  }

  /** What one statistics row adds to the sum of a cluster and database, when `current` says it counts. */
  ghost function Term(s: State, t: Stat, current: bool, cluster: Uuid, database: string, m: Measure): int {
    if current && t.cluster == cluster && t.database == database && Visible(s, s.clusters, cluster)
    then Weight(t, m) else 0
  }

  /** The direct sum over the statistics table. */
  ghost function StatsSum(s: State, stats: seq<Stat>, now: int, cluster: Uuid, database: string, m: Measure): int {
    if stats == [] then 0
    else
      Term(s, stats[0], IsCurrent(s, now, stats[0]), cluster, database, m)
      + StatsSum(s, stats[1..], now, cluster, database, m)
  }

  lemma {:induction false} RowsSumConcat(a: seq<Row>, b: seq<Row>, cluster: Uuid, database: string, m: Measure)
    ensures RowsSum(a + b, cluster, database, m) == RowsSum(a, cluster, database, m) + RowsSum(b, cluster, database, m)
  {
    if a == [] {
      assert a + b == b;
    } else {
      assert (a + b)[1..] == a[1..] + b;
      RowsSumConcat(a[1..], b, cluster, database, m);
    }
  }

  ghost predicate DistinctOrganizations(organizations: seq<Organization>) {
    forall i, j :: 0 <= i < j < |organizations| ==> organizations[i].id != organizations[j].id
  }

  ghost predicate DistinctClusters(clusters: seq<Cluster>) {
    forall i, j :: 0 <= i < j < |clusters| ==> clusters[i].id != clusters[j].id
  }

  /** The organization join yields one row or none. */
  lemma {:induction false} JoinOrganizationOnce(organizations: seq<Organization>, c: Cluster, t: Stat)
    requires DistinctOrganizations(organizations)
    ensures JoinOrganization(organizations, c, t)
         == if c.active && OrganizationActive(organizations, c.organization)
            then [Row(c.organization, c.id, t)] else []
  {
    if organizations != [] {
      var o, rest := organizations[0], organizations[1..];
      JoinOrganizationOnce(rest, c, t);
      assert forall x <- organizations :: x == o || x in rest;
      assert forall x <- rest :: x in organizations && x.id != o.id;
    }
  }

  /** So does the cluster join. */
  lemma {:induction false} JoinClusterSum(s: State, clusters: seq<Cluster>, t: Stat, cluster: Uuid, database: string,
                                         m: Measure)
    requires DistinctOrganizations(s.organizations) && DistinctClusters(clusters)
    ensures RowsSum(JoinCluster(s, clusters, t), cluster, database, m)
         == if t.cluster == cluster && t.database == database && Visible(s, clusters, cluster) then Weight(t, m) else 0
  {
    if clusters != [] {
      var c, rest := clusters[0], clusters[1..];
      JoinClusterSum(s, rest, t, cluster, database, m);
      assert forall x <- clusters :: x == c || x in rest;
      assert forall x <- rest :: x in clusters && x.id != c.id;
      JoinOrganizationOnce(s.organizations, c, t);
      var first := if c.id == t.cluster then JoinOrganization(s.organizations, c, t) else [];
      RowsSumConcat(first, JoinCluster(s, rest, t), cluster, database, m);
      SingleRowSum(c.organization, c.id, t, cluster, database, m);
    }
  }

  lemma SingleRowSum(o: Uuid, c: Uuid, t: Stat, cluster: Uuid, database: string, m: Measure)
    ensures RowsSum([Row(o, c, t)], cluster, database, m)
         == if c == cluster && t.database == database then Weight(t, m) else 0
  {
    assert [Row(o, c, t)][1..] == [];
  }

  /** The rows that one snapshot id brings. */
  ghost function IdSum(s: State, stats: seq<Stat>, ids: set<int>, cluster: Uuid, database: string, m: Measure): int {
    if stats == [] then 0
    else
      Term(s, stats[0], stats[0].snapshot in ids, cluster, database, m)
      + IdSum(s, stats[1..], ids, cluster, database, m)
  }

  lemma {:induction false} JoinStatsSum(s: State, stats: seq<Stat>, id: int, cluster: Uuid, database: string,
                                       m: Measure)
    requires KeysHold(s)
    ensures RowsSum(JoinStats(s, stats, id), cluster, database, m) == IdSum(s, stats, {id}, cluster, database, m)
  {
    if stats != [] {
      JoinStatsSum(s, stats[1..], id, cluster, database, m);
      JoinClusterSum(s, s.clusters, stats[0], cluster, database, m);
      var first := if stats[0].snapshot == id then JoinCluster(s, s.clusters, stats[0]) else [];
      RowsSumConcat(first, JoinStats(s, stats[1..], id), cluster, database, m);
    }
  }

  lemma {:induction false} IdSumDisjoint(s: State, stats: seq<Stat>, a: set<int>, b: set<int>, cluster: Uuid,
                                        database: string, m: Measure)
    requires a !! b
    ensures IdSum(s, stats, a + b, cluster, database, m)
         == IdSum(s, stats, a, cluster, database, m) + IdSum(s, stats, b, cluster, database, m)
  {
    if stats != [] {
      IdSumDisjoint(s, stats[1..], a, b, cluster, database, m);
    }
  }

  lemma {:induction false} IdSumEmpty(s: State, stats: seq<Stat>, cluster: Uuid, database: string, m: Measure)
    ensures IdSum(s, stats, {}, cluster, database, m) == 0
  {
    if stats != [] {
      IdSumEmpty(s, stats[1..], cluster, database, m);
    }
  }

  function Ids(latest: seq<Latest>): set<int> { set l <- latest :: l.id }

  /** Different ids cannot bring the same statistics row twice. */
  lemma {:induction false} JoinLatestSum(s: State, latest: seq<Latest>, cluster: Uuid, database: string, m: Measure)
    requires KeysHold(s) && forall i, j :: 0 <= i < j < |latest| ==> latest[i].id != latest[j].id
    ensures RowsSum(JoinLatest(s, latest), cluster, database, m)
         == IdSum(s, s.stats, Ids(latest), cluster, database, m)
  {
    if latest == [] {
      assert Ids(latest) == {};
      IdSumEmpty(s, s.stats, cluster, database, m);
    } else {
      var l, rest := latest[0], latest[1..];
      JoinLatestSum(s, rest, cluster, database, m);
      JoinStatsSum(s, s.stats, l.id, cluster, database, m);
      RowsSumConcat(JoinStats(s, s.stats, l.id), JoinLatest(s, rest), cluster, database, m);
      assert forall x <- latest :: x == l || x in rest;
      assert forall x <- rest :: x in latest;
      assert Ids(latest) == {l.id} + Ids(rest);
      IdSumDisjoint(s, s.stats, {l.id}, Ids(rest), cluster, database, m);
    }
  }

  lemma CurrentIffLatestId(s: State, now: int, t: Stat)
    ensures IsCurrent(s, now, t) <==> t.snapshot in Ids(LatestSnapshots(s, now))
  {
    OneLatestPerDatabase(s, now);
    hide IsLatestRow, LatestSnapshots;
    if i :| 0 <= i < |s.snapshots| && s.snapshots[i].id == t.snapshot && IsLatestRow(s.snapshots, now, i) {
      assert Latest(s.snapshots[i].cluster, s.snapshots[i].database, s.snapshots[i].id) in LatestSnapshots(s, now);
    }
    if t.snapshot in Ids(LatestSnapshots(s, now)) {
      var l :| l in LatestSnapshots(s, now) && l.id == t.snapshot;
    }
  }

  lemma {:induction false} IdSumIsStatsSum(s: State, stats: seq<Stat>, now: int, cluster: Uuid, database: string,
                                          m: Measure)
    requires KeysHold(s)
    ensures IdSum(s, stats, Ids(LatestSnapshots(s, now)), cluster, database, m)
         == StatsSum(s, stats, now, cluster, database, m)
  {
    if stats != [] {
      IdSumIsStatsSum(s, stats[1..], now, cluster, database, m);
      CurrentIffLatestId(s, now, stats[0]);
    }
  }

  /**
    No fan-out: per cluster and database, the view adds up to the current statistics rows of
    visible clusters, each counted once.
   */
  lemma CurrentStatsSum(s: State, now: int, cluster: Uuid, database: string, m: Measure)
    requires KeysHold(s)
    ensures RowsSum(CurrentStats(s, now), cluster, database, m)
         == StatsSum(s, s.stats, now, cluster, database, m)
  {
    LatestIdsDiffer(s, now);
    JoinLatestSum(s, LatestSnapshots(s, now), cluster, database, m);
    IdSumIsStatsSum(s, s.stats, now, cluster, database, m);
  }
}
