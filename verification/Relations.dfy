/**
  The relations behind the reporting views, as rows in physical order, and the SQL operators the
  views use: `SUM`, `COUNT(*)`, `DISTINCT` and `FIRST_VALUE`.
 */
module Relations {
  import opened Wrappers

  /** A UUID as text: 36 characters, none of them a colon. */
  type Uuid = s: string | |s| == 36 && forall i :: 0 <= i < 36 ==> s[i] != ':'
    witness seq(36, _ => '0')

  datatype Organization = Organization(id: Uuid, active: bool)
  datatype Cluster = Cluster(id: Uuid, organization: Uuid, active: bool)
  datatype Database = Database(cluster: Uuid, name: string, monitored: bool)
  datatype Snapshot = Snapshot(id: int, cluster: Uuid, database: Option<string>, ofTables: bool, collectedAt: int)

  /** A row of `sn_stat_user_tables_modern`: the statistics of one table in one snapshot. */
  datatype Stat = Stat(snapshot: int, cluster: Uuid, database: string, table: string, bytes: Option<int>)

  datatype State = State(
    organizations: seq<Organization>,
    clusters: seq<Cluster>,
    databases: seq<Database>,
    snapshots: seq<Snapshot>,
    stats: seq<Stat>)

  /** The keys of the schema: primary keys, and UNIQUE(cluster_id, name) on databases. */
  ghost predicate KeysHold(s: State) {
    && (forall i, j :: 0 <= i < j < |s.organizations| ==> s.organizations[i].id != s.organizations[j].id)
    && (forall i, j :: 0 <= i < j < |s.clusters| ==> s.clusters[i].id != s.clusters[j].id)
    && (forall i, j :: 0 <= i < j < |s.databases| ==>
          s.databases[i].cluster != s.databases[j].cluster || s.databases[i].name != s.databases[j].name)
    && (forall i, j :: 0 <= i < j < |s.snapshots| ==> s.snapshots[i].id != s.snapshots[j].id)
  }

  // ----- aggregates

  /** `SUM`: the nulls are skipped, and over no values it is null. */
  function SqlSum(values: seq<Option<int>>): Option<int> {
    if values == [] then None
    else
      match (values[0], SqlSum(values[1..]))
      case (None, rest) => rest
      case (Some(x), None) => Some(x)
      case (Some(x), Some(rest)) => Some(x + rest)
  }

  function Coalesce(value: Option<int>, default: int): int { if value.None? then default else value.value }

  function Total(values: seq<Option<int>>): int {
    if values == [] then 0 else Coalesce(values[0], 0) + Total(values[1..])
  }

  lemma {:induction false} CoalescedSum(values: seq<Option<int>>)
    ensures Coalesce(SqlSum(values), 0) == Total(values)
  {
    if values != [] {
      CoalescedSum(values[1..]);
    }
  }

  lemma {:induction false} TotalConcat(a: seq<Option<int>>, b: seq<Option<int>>)
    ensures Total(a + b) == Total(a) + Total(b)
  {
    if a == [] {
      assert a + b == b;
    } else {
      assert (a + b)[1..] == a[1..] + b;
      TotalConcat(a[1..], b);
    }
  }

  /** `SELECT DISTINCT`: one row of each kind. */
  function Distinct<T(==,!new)>(rows: seq<T>): (r: seq<T>)
    ensures forall x :: x in r <==> x in rows
    ensures forall i, j :: 0 <= i < j < |r| ==> r[i] != r[j]
  {
    if rows == [] then []
    else if rows[0] in rows[1..] then Distinct(rows[1..])
    else [rows[0]] + Distinct(rows[1..])
  }
}
