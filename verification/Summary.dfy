/**
  `v_organization_summary`: the left joins of one organization's group, their sums, and the count
  of distinct database labels.
 */
module Summary {
  import opened Wrappers
  import opened Relations
  import opened Views

  /** A row of the `stats` subquery, grouped by cluster and database. */
  datatype Group = Group(cluster: Uuid, database: string, tables: int, bytes: Option<int>)

  function KeysOf(rows: seq<Row>): seq<(Uuid, string)> {
    seq(|rows|, i requires 0 <= i < |rows| => (rows[i].cluster, rows[i].stat.database))
  }

  function BytesOf(rows: seq<Row>, cluster: Uuid, database: string): seq<Option<int>> {
    if rows == [] then []
    else
      (if rows[0].cluster == cluster && rows[0].stat.database == database then [rows[0].stat.bytes] else [])
      + BytesOf(rows[1..], cluster, database)
  }

  function GroupOf(rows: seq<Row>, key: (Uuid, string)): Group {
    var bytes := BytesOf(rows, key.0, key.1);
    Group(key.0, key.1, |bytes|, SqlSum(bytes))
  }

  /** The groups of the given keys. */
  function GroupsOf(rows: seq<Row>, keys: seq<(Uuid, string)>): (groups: seq<Group>)
    ensures |groups| == |keys|
  {
    seq(|keys|, i requires 0 <= i < |keys| => GroupOf(rows, keys[i]))
  }

  function GroupBy(rows: seq<Row>): seq<Group> { GroupsOf(rows, Distinct(KeysOf(rows))) }

  // ----- the left joins

  datatype Joined = Joined(cluster: Option<Cluster>, database: Option<Database>, group: Option<Group>)

  function MatchGroups(groups: seq<Group>, c: Cluster, d: Database): seq<Joined> {
    if groups == [] then []
    else
      (if groups[0].cluster == c.id && groups[0].database == d.name
       then [Joined(Some(c), Some(d), Some(groups[0]))] else [])
      + MatchGroups(groups[1..], c, d)
  }

  function LeftJoinGroups(groups: seq<Group>, c: Cluster, d: Database): seq<Joined> {
    var matches := MatchGroups(groups, c, d);
    if matches == [] then [Joined(Some(c), Some(d), None)] else matches
  }

  function MatchDatabases(groups: seq<Group>, databases: seq<Database>, c: Cluster): seq<Joined> {
    if databases == [] then []
    else
      (if databases[0].cluster == c.id && databases[0].monitored then LeftJoinGroups(groups, c, databases[0]) else [])
      + MatchDatabases(groups, databases[1..], c)
  }

  function LeftJoinDatabases(groups: seq<Group>, databases: seq<Database>, c: Cluster): seq<Joined> {
    var matches := MatchDatabases(groups, databases, c);
    if matches == [] then [Joined(Some(c), None, None)] else matches
  }

  function MatchClusters(groups: seq<Group>, databases: seq<Database>, clusters: seq<Cluster>, o: Organization)
    : seq<Joined>
  {
    if clusters == [] then []
    else
      (if clusters[0].organization == o.id then LeftJoinDatabases(groups, databases, clusters[0]) else [])
      + MatchClusters(groups, databases, clusters[1..], o)
  }

  /** The rows of the group of one organization. */
  function GroupRows(s: State, now: int, o: Organization): seq<Joined> {
    var matches := MatchClusters(GroupBy(CurrentStats(s, now)), s.databases, s.clusters, o);
    if matches == [] then [Joined(None, None, None)] else matches
  }

  // ----- the sums

  function ValueOf(j: Joined, m: Measure): Option<int> {
    if j.group.None? then None else if m.Tables? then Some(j.group.value.tables) else j.group.value.bytes
  }

  function Values(rows: seq<Joined>, m: Measure): seq<Option<int>> {
    if rows == [] then [] else [ValueOf(rows[0], m)] + Values(rows[1..], m)
  }

  /** `COALESCE(SUM(stats.table_count), 0)` and `COALESCE(SUM(stats.total_size), 0)` */
  function SummaryTotal(s: State, now: int, o: Organization, m: Measure): int {
    Coalesce(SqlSum(Values(GroupRows(s, now, o), m)), 0)
  }

  /** A monitored database, in an active cluster of the organization, owns this current statistics row. */
  ghost predicate Belongs(s: State, now: int, o: Organization, t: Stat) {
    && IsCurrent(s, now, t) && o.active
    && (exists c <- s.clusters :: c.id == t.cluster && c.organization == o.id && c.active)
    && exists d <- s.databases :: d.cluster == t.cluster && d.name == t.database && d.monitored
  }

  /** The direct sum: each statistics row that belongs to the organization, once. */
  ghost function DirectTotal(s: State, now: int, o: Organization, stats: seq<Stat>, m: Measure): int {
    if stats == [] then 0
    else
      (if Belongs(s, now, o, stats[0]) then Weight(stats[0], m) else 0)
      + DirectTotal(s, now, o, stats[1..], m)
  }

  lemma {:induction false} ValuesConcat(a: seq<Joined>, b: seq<Joined>, m: Measure)
    ensures Values(a + b, m) == Values(a, m) + Values(b, m)
  {
    if a == [] {
      assert a + b == b;
    } else {
      assert (a + b)[1..] == a[1..] + b;
      ValuesConcat(a[1..], b, m);
    }
  }

  lemma {:induction false} TotalOfConcat(a: seq<Joined>, b: seq<Joined>, m: Measure)
    ensures Total(Values(a + b, m)) == Total(Values(a, m)) + Total(Values(b, m))
  {
    ValuesConcat(a, b, m);
    TotalConcat(Values(a, m), Values(b, m));
  }

  lemma {:induction false} GroupTotals(rows: seq<Row>, cluster: Uuid, database: string)
    ensures |BytesOf(rows, cluster, database)| == RowsSum(rows, cluster, database, Tables)
    ensures Total(BytesOf(rows, cluster, database)) == RowsSum(rows, cluster, database, Bytes)
    ensures (cluster, database) !in KeysOf(rows) ==> BytesOf(rows, cluster, database) == []
  {
    if rows != [] {
      var first := if rows[0].cluster == cluster && rows[0].stat.database == database then [rows[0].stat.bytes] else [];
      GroupTotals(rows[1..], cluster, database);
      TotalConcat(first, BytesOf(rows[1..], cluster, database));
      KeysTail(rows);
      assert Total([rows[0].stat.bytes]) == Coalesce(rows[0].stat.bytes, 0) + Total([rows[0].stat.bytes][1..]);
    }
  }

  lemma KeysTail(rows: seq<Row>)
    requires rows != []
    ensures KeysOf(rows) == [(rows[0].cluster, rows[0].stat.database)] + KeysOf(rows[1..])
  {
  }

  lemma GroupsTail(rows: seq<Row>, keys: seq<(Uuid, string)>)
    requires keys != []
    ensures GroupsOf(rows, keys)[0] == GroupOf(rows, keys[0]) && GroupsOf(rows, keys)[1..] == GroupsOf(rows, keys[1..])
  {
    hide GroupOf;
  }

  /** A cluster and database match at most one group, and it carries their sums. */
  lemma {:induction false} MatchOneGroup(rows: seq<Row>, keys: seq<(Uuid, string)>, c: Cluster, d: Database)
    requires forall i, j :: 0 <= i < j < |keys| ==> keys[i] != keys[j]
    ensures MatchGroups(GroupsOf(rows, keys), c, d)
         == if (c.id, d.name) in keys then [Joined(Some(c), Some(d), Some(GroupOf(rows, (c.id, d.name))))] else []
  {
    if keys != [] {
      hide GroupsOf, BytesOf;
      GroupsTail(rows, keys);
      assert forall k :: k in keys <==> k == keys[0] || k in keys[1..];
      MatchOneGroup(rows, keys[1..], c, d);
      assert keys[0] !in keys[1..];
    }
  }

  lemma JoinedGroupTotal(rows: seq<Row>, c: Cluster, d: Database, m: Measure)
    ensures Total(Values(LeftJoinGroups(GroupBy(rows), c, d), m)) == RowsSum(rows, c.id, d.name, m)
    ensures LeftJoinGroups(GroupBy(rows), c, d) != []
  {
    var keys := Distinct(KeysOf(rows));
    MatchOneGroup(rows, keys, c, d);
    GroupTotals(rows, c.id, d.name);
    CoalescedSum(BytesOf(rows, c.id, d.name));
    var j := LeftJoinGroups(GroupBy(rows), c, d);
    assert |j| == 1 && j[1..] == [];
    assert Values(j, m) == [ValueOf(j[0], m)];
    assert Total(Values(j, m)) == Coalesce(ValueOf(j[0], m), 0) + Total(Values(j, m)[1..]);
  }

  // ----- summing over clusters and databases, or over statistics rows

  ghost function DatabaseSum(s: State, now: int, databases: seq<Database>, c: Cluster, stats: seq<Stat>, m: Measure)
    : int
  {
    if databases == [] then 0
    else
      (if databases[0].cluster == c.id && databases[0].monitored
       then StatsSum(s, stats, now, c.id, databases[0].name, m) else 0)
      + DatabaseSum(s, now, databases[1..], c, stats, m)
  }

  ghost function ClusterSum(s: State, now: int, clusters: seq<Cluster>, o: Organization, stats: seq<Stat>, m: Measure)
    : int
  {
    if clusters == [] then 0
    else
      (if clusters[0].organization == o.id then DatabaseSum(s, now, s.databases, clusters[0], stats, m) else 0)
      + ClusterSum(s, now, clusters[1..], o, stats, m)
  }

  lemma {:induction false} MatchDatabasesTotal(s: State, now: int, databases: seq<Database>, c: Cluster, m: Measure)
    requires KeysHold(s)
    ensures Total(Values(MatchDatabases(GroupBy(CurrentStats(s, now)), databases, c), m))
         == DatabaseSum(s, now, databases, c, s.stats, m)
  {
    if databases != [] {
      hide GroupBy, CurrentStats, LeftJoinGroups, StatsSum, Values, Total, KeysHold;
      var rows := CurrentStats(s, now);
      var d, rest := databases[0], databases[1..];
      MatchDatabasesTotal(s, now, rest, c, m);
      JoinedGroupTotal(rows, c, d, m);
      CurrentStatsSum(s, now, c.id, d.name, m);
      EmptyTotal(m);
      var first := if d.cluster == c.id && d.monitored then LeftJoinGroups(GroupBy(rows), c, d) else [];
      assert MatchDatabases(GroupBy(rows), databases, c) == first + MatchDatabases(GroupBy(rows), rest, c);
      TotalOfConcat(first, MatchDatabases(GroupBy(rows), rest, c), m);
    }
  }

  lemma NullRowTotal(j: Joined, m: Measure)
    requires j.group.None?
    ensures Total(Values([j], m)) == 0
  {
    assert [j][1..] == [] && Values([j], m) == [None];
    assert Total([None]) == 0 + Total([None][1..]);
  }

  lemma {:induction false} MatchClustersTotal(s: State, now: int, clusters: seq<Cluster>, o: Organization, m: Measure)
    requires KeysHold(s)
    ensures Total(Values(MatchClusters(GroupBy(CurrentStats(s, now)), s.databases, clusters, o), m))
         == ClusterSum(s, now, clusters, o, s.stats, m)
  {
    if clusters != [] {
      hide GroupBy, CurrentStats, MatchDatabases, DatabaseSum, Values, Total, KeysHold;
      var groups := GroupBy(CurrentStats(s, now));
      var c, rest := clusters[0], clusters[1..];
      MatchClustersTotal(s, now, rest, o, m);
      MatchDatabasesTotal(s, now, s.databases, c, m);
      EmptyTotal(m);
      NullRowTotal(Joined(Some(c), None, None), m);
      var first := if c.organization == o.id then LeftJoinDatabases(groups, s.databases, c) else [];
      assert MatchClusters(groups, s.databases, clusters, o) == first + MatchClusters(groups, s.databases, rest, o);
      TotalOfConcat(first, MatchClusters(groups, s.databases, rest, o), m);
    }
  }

  lemma EmptyTotal(m: Measure)
    ensures Total(Values([], m)) == 0
  {
  }

  lemma {:induction false} DatabaseSumSplit(s: State, now: int, databases: seq<Database>, c: Cluster, stats: seq<Stat>,
                                           m: Measure)
    requires stats != []
    ensures DatabaseSum(s, now, databases, c, stats, m)
         == DatabaseSum(s, now, databases, c, [stats[0]], m) + DatabaseSum(s, now, databases, c, stats[1..], m)
  {
    if databases != [] {
      DatabaseSumSplit(s, now, databases[1..], c, stats, m);
      OneStat(s, now, stats[0], c.id, databases[0].name, m);
      hide Term, IsCurrent;
    }
  }

  lemma OneStat(s: State, now: int, t: Stat, cluster: Uuid, database: string, m: Measure)
    ensures StatsSum(s, [t], now, cluster, database, m) == Term(s, t, IsCurrent(s, now, t), cluster, database, m)
  {
    hide Term, IsCurrent;
    assert [t][1..] == [];
    assert StatsSum(s, [t][1..], now, cluster, database, m) == 0;
  }

  lemma {:induction false} ClusterSumSplit(s: State, now: int, clusters: seq<Cluster>, o: Organization,
                                          stats: seq<Stat>, m: Measure)
    requires stats != []
    ensures ClusterSum(s, now, clusters, o, stats, m)
         == ClusterSum(s, now, clusters, o, [stats[0]], m) + ClusterSum(s, now, clusters, o, stats[1..], m)
  {
    if clusters != [] {
      hide DatabaseSum;
      ClusterSumSplit(s, now, clusters[1..], o, stats, m);
      DatabaseSumSplit(s, now, s.databases, clusters[0], stats, m);
    }
  }

  lemma {:induction false} ClusterSumNoStats(s: State, now: int, clusters: seq<Cluster>, o: Organization, m: Measure)
    ensures ClusterSum(s, now, clusters, o, [], m) == 0
  {
    if clusters != [] {
      ClusterSumNoStats(s, now, clusters[1..], o, m);
      DatabaseSumNoStats(s, now, s.databases, clusters[0], m);
    }
  }

  lemma {:induction false} DatabaseSumNoStats(s: State, now: int, databases: seq<Database>, c: Cluster, m: Measure)
    ensures DatabaseSum(s, now, databases, c, [], m) == 0
  {
    if databases != [] {
      DatabaseSumNoStats(s, now, databases[1..], c, m);
    }
  }

  ghost predicate DistinctDatabases(databases: seq<Database>) {
    forall i, j :: 0 <= i < j < |databases| ==>
      databases[i].cluster != databases[j].cluster || databases[i].name != databases[j].name
  }

  ghost predicate Monitors(databases: seq<Database>, cluster: Uuid, name: string) {
    exists d <- databases :: d.cluster == cluster && d.name == name && d.monitored
  }

  lemma MonitorsTail(databases: seq<Database>, cluster: Uuid, name: string)
    requires databases != [] && DistinctDatabases(databases)
    ensures var d := databases[0];
      && DistinctDatabases(databases[1..])
      && (Monitors(databases, cluster, name) <==>
            (d.cluster == cluster && d.name == name && d.monitored) || Monitors(databases[1..], cluster, name))
      && (d.cluster == cluster && d.name == name ==> !Monitors(databases[1..], cluster, name))
  {
    var d, rest := databases[0], databases[1..];
    assert forall x <- databases :: x == d || x in rest;
    assert forall x <- rest :: x in databases && (x.cluster != d.cluster || x.name != d.name);
  }

  /** A statistics row meets at most one database of a cluster. */
  lemma {:induction false} DatabaseSumOne(s: State, now: int, databases: seq<Database>, c: Cluster, t: Stat, m: Measure)
    requires DistinctDatabases(databases)
    ensures DatabaseSum(s, now, databases, c, [t], m)
         == if Monitors(databases, c.id, t.database) then Term(s, t, IsCurrent(s, now, t), c.id, t.database, m) else 0
  {
    if databases != [] {
      hide IsCurrent, Monitors, DistinctDatabases, Visible;
      MonitorsTail(databases, c.id, t.database);
      DatabaseSumOne(s, now, databases[1..], c, t, m);
      OneStat(s, now, t, c.id, databases[0].name, m);
    } else {
      assert !Monitors(databases, c.id, t.database);
    }
  }

  ghost predicate OwnsCluster(clusters: seq<Cluster>, o: Organization, id: Uuid) {
    exists c <- clusters :: c.id == id && c.organization == o.id
  }

  lemma OwnsTail(clusters: seq<Cluster>, o: Organization, id: Uuid)
    requires clusters != [] && DistinctClusters(clusters)
    ensures var c := clusters[0];
      && DistinctClusters(clusters[1..])
      && (OwnsCluster(clusters, o, id) <==> (c.id == id && c.organization == o.id) || OwnsCluster(clusters[1..], o, id))
      && (c.id == id ==> !OwnsCluster(clusters[1..], o, id))
  {
    var c, rest := clusters[0], clusters[1..];
    assert forall x <- clusters :: x == c || x in rest;
    assert forall x <- rest :: x in clusters && x.id != c.id;
  }

  /** And at most one cluster of the organization. */
  lemma {:induction false} ClusterSumOne(s: State, now: int, clusters: seq<Cluster>, o: Organization, t: Stat,
                                        m: Measure)
    requires DistinctDatabases(s.databases) && DistinctClusters(clusters)
    ensures ClusterSum(s, now, clusters, o, [t], m)
         == if OwnsCluster(clusters, o, t.cluster) && Monitors(s.databases, t.cluster, t.database)
            then Term(s, t, IsCurrent(s, now, t), t.cluster, t.database, m) else 0
  {
    if clusters != [] {
      hide IsCurrent, Monitors, OwnsCluster, DistinctClusters, DistinctDatabases, DatabaseSum, Visible;
      OwnsTail(clusters, o, t.cluster);
      ClusterSumOne(s, now, clusters[1..], o, t, m);
      DatabaseSumOne(s, now, s.databases, clusters[0], t, m);
    } else {
      assert !OwnsCluster(clusters, o, t.cluster);
    }
  }

  /** Visibility, for a cluster of an active organization, is its own status. */
  lemma VisibleIffActive(s: State, o: Organization, id: Uuid)
    requires KeysHold(s) && o in s.organizations && OwnsCluster(s.clusters, o, id)
    ensures Visible(s, s.clusters, id) <==>
      o.active && exists c <- s.clusters :: c.id == id && c.organization == o.id && c.active
  {
    var c :| c in s.clusters && c.id == id && c.organization == o.id;
    forall x <- s.clusters | x.id == id
      ensures x == c
    {
      SameClusterId(s, x, c);
    }
    forall x <- s.organizations | x.id == o.id
      ensures x == o
    {
      SameOrganizationId(s, x, o);
    }
  }

  lemma SameClusterId(s: State, x: Cluster, y: Cluster)
    requires KeysHold(s) && x in s.clusters && y in s.clusters && x.id == y.id
    ensures x == y
  {
    var i :| 0 <= i < |s.clusters| && s.clusters[i] == x;
    var j :| 0 <= j < |s.clusters| && s.clusters[j] == y;
    assert !(i < j) && !(j < i);
  }

  lemma SameOrganizationId(s: State, x: Organization, y: Organization)
    requires KeysHold(s) && x in s.organizations && y in s.organizations && x.id == y.id
    ensures x == y
  {
    var i :| 0 <= i < |s.organizations| && s.organizations[i] == x;
    var j :| 0 <= j < |s.organizations| && s.organizations[j] == y;
    assert !(i < j) && !(j < i);
  }

  lemma BelongsTerm(s: State, now: int, o: Organization, t: Stat, m: Measure)
    requires KeysHold(s) && o in s.organizations
    ensures (if OwnsCluster(s.clusters, o, t.cluster) && Monitors(s.databases, t.cluster, t.database)
             then Term(s, t, IsCurrent(s, now, t), t.cluster, t.database, m) else 0)
         == if Belongs(s, now, o, t) then Weight(t, m) else 0
  {
    hide IsCurrent, Weight;
    if OwnsCluster(s.clusters, o, t.cluster) {
      VisibleIffActive(s, o, t.cluster);
      hide Visible;
    }
  }

  lemma {:induction false} ClusterSumIsDirect(s: State, now: int, o: Organization, stats: seq<Stat>, m: Measure)
    requires KeysHold(s) && o in s.organizations
    ensures ClusterSum(s, now, s.clusters, o, stats, m) == DirectTotal(s, now, o, stats, m)
  {
    if stats == [] {
      ClusterSumNoStats(s, now, s.clusters, o, m);
    } else {
      hide ClusterSum, Belongs, Term, OwnsCluster, Monitors;
      ClusterSumSplit(s, now, s.clusters, o, stats, m);
      ClusterSumOne(s, now, s.clusters, o, stats[0], m);
      BelongsTerm(s, now, o, stats[0], m);
      ClusterSumIsDirect(s, now, o, stats[1..], m);
    }
  }

  /**
    Aggregation without fan-out. In every database state that respects the keys, `total_tables` and
    `total_size_bytes` of an organization are the count and the byte sum of the current statistics
    rows of its monitored databases in its active clusters, each row counted once.
   */
  lemma SummaryIsDirectTotal(s: State, now: int, o: Organization, m: Measure)
    requires KeysHold(s) && o in s.organizations
    ensures SummaryTotal(s, now, o, m) == DirectTotal(s, now, o, s.stats, m)
  {
    hide ClusterSum, MatchClusters, DirectTotal, GroupBy, CurrentStats;
    CoalescedSum(Values(GroupRows(s, now, o), m));
    MatchClustersTotal(s, now, s.clusters, o, m);
    ClusterSumIsDirect(s, now, o, s.stats, m);
    EmptyTotal(m);
    NullRowTotal(Joined(None, None, None), m);
  }
}
