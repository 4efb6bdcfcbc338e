/**
  `total_databases` of `v_organization_summary`: the number of distinct texts
  `CONCAT(c.id, ':', d.name)`, where CONCAT takes nulls for empty text.
 */
module DatabaseCount {
  import opened Wrappers
  import opened Relations
  import opened Views
  import opened Summary

  function Label(j: Joined): string {
    (if j.cluster.Some? then j.cluster.value.id else "") + ":"
    + (if j.database.Some? then j.database.value.name else "")
  }

  function Labels(rows: seq<Joined>): set<string> {
    if rows == [] then {} else {Label(rows[0])} + Labels(rows[1..])
  }

  /** `COUNT(DISTINCT CONCAT(c.id, ':', d.name))` */
  function TotalDatabases(s: State, now: int, o: Organization): nat { |Labels(GroupRows(s, now, o))| }

  function MonitoredOf(databases: seq<Database>, c: Cluster): nat {
    if databases == [] then 0
    else (if databases[0].cluster == c.id && databases[0].monitored then 1 else 0) + MonitoredOf(databases[1..], c)
  }

  /** The monitored databases of an organization. */
  function MonitoredDatabases(s: State, clusters: seq<Cluster>, o: Organization): nat {
    if clusters == [] then 0
    else
      (if clusters[0].organization == o.id then MonitoredOf(s.databases, clusters[0]) else 0)
      + MonitoredDatabases(s, clusters[1..], o)
  }

  /** The clusters of an organization that have no monitored database. */
  function BareClusters(s: State, clusters: seq<Cluster>, o: Organization): nat {
    if clusters == [] then 0
    else
      (if clusters[0].organization == o.id && MonitoredOf(s.databases, clusters[0]) == 0 then 1 else 0)
      + BareClusters(s, clusters[1..], o)
  }

  ghost predicate HasCluster(clusters: seq<Cluster>, o: Organization) {
    exists c <- clusters :: c.organization == o.id
  }

  lemma {:induction false} LabelsConcat(a: seq<Joined>, b: seq<Joined>)
    ensures Labels(a + b) == Labels(a) + Labels(b)
  {
    if a == [] {
      assert a + b == b;
    } else {
      assert (a + b)[1..] == a[1..] + b;
      LabelsConcat(a[1..], b);
    }
  }

  function LabelText(c: Cluster, name: string): string { c.id + ":" + name }

  lemma {:induction false} MatchGroupsLabels(groups: seq<Group>, c: Cluster, d: Database)
    ensures Labels(MatchGroups(groups, c, d)) <= {LabelText(c, d.name)}
    ensures MatchGroups(groups, c, d) != [] ==> Labels(MatchGroups(groups, c, d)) == {LabelText(c, d.name)}
  {
    if groups != [] {
      var first := if groups[0].cluster == c.id && groups[0].database == d.name
                   then [Joined(Some(c), Some(d), Some(groups[0]))] else [];
      MatchGroupsLabels(groups[1..], c, d);
      LabelsConcat(first, MatchGroups(groups[1..], c, d));
      OneLabel(Joined(Some(c), Some(d), Some(groups[0])));
    }
  }

  lemma OneLabel(j: Joined)
    ensures Labels([j]) == {Label(j)}
  {
    assert [j][1..] == [];
  }

  lemma LeftJoinGroupsLabels(groups: seq<Group>, c: Cluster, d: Database)
    ensures Labels(LeftJoinGroups(groups, c, d)) == {LabelText(c, d.name)}
    ensures LeftJoinGroups(groups, c, d) != []
  {
    MatchGroupsLabels(groups, c, d);
    OneLabel(Joined(Some(c), Some(d), None));
  }

  /** A text starts with its cluster's id, and then tells the database. */
  lemma LabelTextParts(c: Cluster, name: string)
    ensures |LabelText(c, name)| >= 37
    ensures LabelText(c, name)[..36] == c.id && LabelText(c, name)[37..] == name
  {
  }

  lemma LabelTextInjective(c: Cluster, name: string, other: string)
    requires LabelText(c, name) == LabelText(c, other)
    ensures name == other
  {
    LabelTextParts(c, name);
    LabelTextParts(c, other);
  }

  // ----- the labels of one cluster

  function DatabaseLabels(databases: seq<Database>, c: Cluster): set<string> {
    set d <- databases | d.cluster == c.id && d.monitored :: LabelText(c, d.name)
  }

  lemma DatabaseLabelsStep(databases: seq<Database>, c: Cluster)
    requires databases != []
    ensures var d := databases[0];
      DatabaseLabels(databases, c)
      == (if d.cluster == c.id && d.monitored then {LabelText(c, d.name)} else {}) + DatabaseLabels(databases[1..], c)
  {
    hide LabelText;
    assert forall x <- databases :: x == databases[0] || x in databases[1..];
    assert databases[0] in databases && forall x <- databases[1..] :: x in databases;
  }

  lemma {:induction false} MatchDatabasesLabels(groups: seq<Group>, databases: seq<Database>, c: Cluster)
    ensures Labels(MatchDatabases(groups, databases, c)) == DatabaseLabels(databases, c)
    ensures MatchDatabases(groups, databases, c) == [] <==> MonitoredOf(databases, c) == 0
  {
    if databases != [] {
      hide LabelText, LeftJoinGroups, Labels, DatabaseLabels;
      var d, rest := databases[0], databases[1..];
      MatchDatabasesLabels(groups, rest, c);
      DatabaseLabelsStep(databases, c);
      if d.cluster == c.id && d.monitored {
        LeftJoinGroupsLabels(groups, c, d);
        LabelsConcat(LeftJoinGroups(groups, c, d), MatchDatabases(groups, rest, c));
      } else {
        assert MatchDatabases(groups, databases, c) == MatchDatabases(groups, rest, c);
      }
    }
  }

  lemma FirstLabelNew(databases: seq<Database>, c: Cluster)
    requires DistinctDatabases(databases) && databases != [] && databases[0].cluster == c.id
    ensures LabelText(c, databases[0].name) !in DatabaseLabels(databases[1..], c)
  {
    hide LabelText;
    var d, rest := databases[0], databases[1..];
    forall e <- rest | e.cluster == c.id
      ensures LabelText(c, e.name) != LabelText(c, d.name)
    {
      assert e in databases && e.name != d.name;
      if LabelText(c, e.name) == LabelText(c, d.name) {
        LabelTextInjective(c, e.name, d.name);
      }
    }
  }

  /** One label for each monitored database. */
  lemma {:induction false} DatabaseLabelsCount(databases: seq<Database>, c: Cluster)
    requires DistinctDatabases(databases)
    ensures |DatabaseLabels(databases, c)| == MonitoredOf(databases, c)
  {
    if databases == [] {
      assert DatabaseLabels(databases, c) == {};
    } else {
      var d, rest := databases[0], databases[1..];
      assert DistinctDatabases(rest);
      DatabaseLabelsCount(rest, c);
      DatabaseLabelsStep(databases, c);
      if d.cluster == c.id && d.monitored {
        FirstLabelNew(databases, c);
      } else {
        assert {} + DatabaseLabels(rest, c) == DatabaseLabels(rest, c);
      }
      hide DatabaseLabels, LabelText, DistinctDatabases;
    }
  }

  /** A cluster without a monitored database still gets one label. */
  function OwnLabels(databases: seq<Database>, c: Cluster): set<string> {
    if MonitoredOf(databases, c) == 0 then {LabelText(c, "")} else DatabaseLabels(databases, c)
  }

  lemma LeftJoinDatabasesLabels(groups: seq<Group>, databases: seq<Database>, c: Cluster)
    ensures Labels(LeftJoinDatabases(groups, databases, c)) == OwnLabels(databases, c)
    ensures LeftJoinDatabases(groups, databases, c) != []
  {
    MatchDatabasesLabels(groups, databases, c);
    OneLabel(Joined(Some(c), None, None));
    assert Label(Joined(Some(c), None, None)) == LabelText(c, "");
  }

  lemma OwnLabelsPrefix(databases: seq<Database>, c: Cluster)
    ensures forall x <- OwnLabels(databases, c) :: |x| >= 37 && x[..36] == c.id
  {
    hide LabelText;
    LabelTextParts(c, "");
    forall d <- databases
      ensures |LabelText(c, d.name)| >= 37 && LabelText(c, d.name)[..36] == c.id
    {
      LabelTextParts(c, d.name);
    }
  }

  // ----- the labels of an organization

  function ClusterLabels(databases: seq<Database>, clusters: seq<Cluster>, o: Organization): set<string> {
    if clusters == [] then {}
    else
      (if clusters[0].organization == o.id then OwnLabels(databases, clusters[0]) else {})
      + ClusterLabels(databases, clusters[1..], o)
  }

  lemma {:induction false} MatchClustersLabels(groups: seq<Group>, databases: seq<Database>, clusters: seq<Cluster>,
                                              o: Organization)
    ensures Labels(MatchClusters(groups, databases, clusters, o)) == ClusterLabels(databases, clusters, o)
    ensures MatchClusters(groups, databases, clusters, o) == [] <==> !HasCluster(clusters, o)
  {
    if clusters != [] {
      hide LeftJoinDatabases, Labels, OwnLabels;
      var c, rest := clusters[0], clusters[1..];
      assert forall x <- clusters :: x == c || x in rest;
      assert c in clusters && forall x <- rest :: x in clusters;
      MatchClustersLabels(groups, databases, rest, o);
      if c.organization == o.id {
        LeftJoinDatabasesLabels(groups, databases, c);
        LabelsConcat(LeftJoinDatabases(groups, databases, c), MatchClusters(groups, databases, rest, o));
      } else {
        assert MatchClusters(groups, databases, clusters, o) == MatchClusters(groups, databases, rest, o);
      }
    }
  }

  function ClusterIds(clusters: seq<Cluster>): set<string> { set c <- clusters :: c.id }

  lemma ClusterIdsStep(clusters: seq<Cluster>)
    requires clusters != [] && DistinctClusters(clusters)
    ensures ClusterIds(clusters) == {clusters[0].id} + ClusterIds(clusters[1..])
    ensures clusters[0].id !in ClusterIds(clusters[1..]) && DistinctClusters(clusters[1..])
  {
    assert forall x <- clusters :: x == clusters[0] || x in clusters[1..];
    assert clusters[0] in clusters && forall x <- clusters[1..] :: x in clusters && x.id != clusters[0].id;
  }

  lemma PrefixesApart(own: set<string>, others: set<string>, id: Uuid, ids: set<Uuid>)
    requires forall x <- own :: |x| >= 37 && x[..36] == id
    requires forall x <- others :: |x| >= 37 && x[..36] in ids
    requires id !in ids
    ensures own !! others && |own + others| == |own| + |others|
    ensures forall x <- own + others :: |x| >= 37 && x[..36] in {id} + ids
  {
  }

  /** The labels of different clusters differ, so their counts add up. */
  lemma {:induction false} ClusterLabelsCount(s: State, clusters: seq<Cluster>, o: Organization)
    requires DistinctDatabases(s.databases) && DistinctClusters(clusters)
    ensures |ClusterLabels(s.databases, clusters, o)|
         == MonitoredDatabases(s, clusters, o) + BareClusters(s, clusters, o)
    ensures forall x <- ClusterLabels(s.databases, clusters, o) :: |x| >= 37 && x[..36] in ClusterIds(clusters)
  {
    if clusters != [] {
      hide OwnLabels, DistinctDatabases, DistinctClusters, ClusterIds;
      var c, rest := clusters[0], clusters[1..];
      ClusterIdsStep(clusters);
      ClusterLabelsCount(s, rest, o);
      if c.organization == o.id {
        OwnLabelsCount(s.databases, c);
        OwnLabelsPrefix(s.databases, c);
        PrefixesApart(OwnLabels(s.databases, c), ClusterLabels(s.databases, rest, o), c.id, ClusterIds(rest));
      } else {
        assert {} + ClusterLabels(s.databases, rest, o) == ClusterLabels(s.databases, rest, o);
      }
    }
  }

  lemma OwnLabelsCount(databases: seq<Database>, c: Cluster)
    requires DistinctDatabases(databases)
    ensures |OwnLabels(databases, c)|
         == MonitoredOf(databases, c) + if MonitoredOf(databases, c) == 0 then 1 else 0
  {
    DatabaseLabelsCount(databases, c);
  }

  /**
    `total_databases` counts every monitored database, and one more for each cluster that has none,
    or for an organization without clusters.
   */
  lemma DatabaseCountFormula(s: State, now: int, o: Organization)
    requires KeysHold(s)
    ensures TotalDatabases(s, now, o)
         == if HasCluster(s.clusters, o) then MonitoredDatabases(s, s.clusters, o) + BareClusters(s, s.clusters, o)
            else 1
  {
    hide GroupBy, CurrentStats, MatchClusters, HasCluster, ClusterLabels;
    MatchClustersLabels(GroupBy(CurrentStats(s, now)), s.databases, s.clusters, o);
    ClusterLabelsCount(s, s.clusters, o);
    OneLabel(Joined(None, None, None));
  }

  lemma {:induction false} NoClusterNoDatabase(s: State, clusters: seq<Cluster>, o: Organization)
    requires !HasCluster(clusters, o)
    ensures MonitoredDatabases(s, clusters, o) == 0
  {
    if clusters != [] {
      assert clusters[0] in clusters;
      assert forall c <- clusters[1..] :: c in clusters;
      NoClusterNoDatabase(s, clusters[1..], o);
    }
  }

  lemma {:induction false} BareClustersNone(s: State, clusters: seq<Cluster>, o: Organization)
    ensures BareClusters(s, clusters, o) == 0
       <==> forall c <- clusters :: c.organization == o.id ==> MonitoredOf(s.databases, c) > 0
  {
    if clusters != [] {
      BareClustersNone(s, clusters[1..], o);
      assert forall c <- clusters :: c == clusters[0] || c in clusters[1..];
      assert clusters[0] in clusters && forall c <- clusters[1..] :: c in clusters;
    }
  }

  /**
    The view shows the true number of monitored databases exactly when the organization has a
    cluster and each of its clusters has a monitored database.
   */
  lemma DatabaseCountTrueIff(s: State, now: int, o: Organization)
    requires KeysHold(s)
    ensures TotalDatabases(s, now, o) == MonitoredDatabases(s, s.clusters, o)
       <==> HasCluster(s.clusters, o)
            && forall c <- s.clusters :: c.organization == o.id ==> MonitoredOf(s.databases, c) > 0
  {
    DatabaseCountFormula(s, now, o);
    BareClustersNone(s, s.clusters, o);
    if !HasCluster(s.clusters, o) {
      NoClusterNoDatabase(s, s.clusters, o);
    }
    hide TotalDatabases, MonitoredDatabases, BareClusters, HasCluster;
  }

  /** An organization without clusters is shown with one database. */
  lemma {:induction false} NoClusterCountsOne(o: Organization, now: int)
    ensures var s := State([o], [], [], [], []);
      TotalDatabases(s, now, o) == 1 && MonitoredDatabases(s, s.clusters, o) == 0
  {
    hide TotalDatabases;
    DatabaseCountFormula(State([o], [], [], [], []), now, o);
  }

  /** So is one whose only cluster has no monitored database. */
  lemma {:induction false} BareClusterCountsOne(o: Organization, c: Cluster, now: int)
    requires c.organization == o.id
    ensures var s := State([o], [c], [], [], []);
      TotalDatabases(s, now, o) == 1 && MonitoredDatabases(s, s.clusters, o) == 0
  {
    hide TotalDatabases;
    var s := State([o], [c], [], [], []);
    DatabaseCountFormula(s, now, o);
    assert c in s.clusters && s.clusters[1..] == [];
    assert BareClusters(s, [c], o) == 1 + BareClusters(s, [c][1..], o);
    assert MonitoredDatabases(s, [c], o) == 0 + MonitoredDatabases(s, [c][1..], o);
  }
}
