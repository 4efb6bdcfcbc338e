/**
  The session counts of pganalytics-v2/monitoring/c-collector/main_enhanced.c: a loop over the
  result of `SELECT state, COUNT(*) ... GROUP BY state`.
 */
module GroupedSessions {
  import opened Wrappers

  /** A session's state, which can be null. */
  type SessionState = Option<string>

  datatype Row = Row(state: SessionState, count: nat)

  /** The rows, in any order, are the groups of the sessions. */
  ghost predicate IsGroupBy(rows: seq<Row>, sessions: multiset<SessionState>) {
    && (forall i, j :: 0 <= i < j < |rows| ==> rows[i].state != rows[j].state)
    && (forall r <- rows :: r.count == sessions[r.state])
    && forall x <- sessions :: exists r <- rows :: r.state == x
  }

  function CountSum(rows: seq<Row>): nat {
    if rows == [] then 0 else CountSum(rows[..|rows| - 1]) + rows[|rows| - 1].count
  }

  /** The count of the row of a state, or zero. */
  function CountOf(rows: seq<Row>, state: string): nat {
    if rows == [] then 0
    else if rows[|rows| - 1].state == Some(state) then rows[|rows| - 1].count
    else CountOf(rows[..|rows| - 1], state)
  }

  /** `PQgetvalue`: a null reads as the empty text. */
  function Text(state: SessionState): string { if state.Some? then state.value else "" }

  class Metrics {
    var total: nat
    var active: nat
    var idle: nat
    var idleInTransaction: nat

    /** The first block of `collect_all_metrics`; `None` when the query fails. */
    method CollectSessions(result: Option<seq<Row>>, ghost sessions: multiset<SessionState>)
      requires result.Some? ==> IsGroupBy(result.value, sessions)
      modifies this
      ensures result.Some? ==>
        && total == |sessions|
        && active == sessions[Some("active")]
        && idle == sessions[Some("idle")]
        && idleInTransaction == sessions[Some("idle in transaction")]
        && active + idle + idleInTransaction <= total
      ensures result.None? ==>
        total == old(total) && active == old(active) && idle == old(idle)
        && idleInTransaction == old(idleInTransaction)
    {
      if result.None? {
        return;
      }
      var rows := result.value;
      total, active, idle, idleInTransaction := 0, 0, 0, 0;
      for i := 0 to |rows|
        invariant total == CountSum(rows[..i])
        invariant active == CountOf(rows[..i], "active")
        invariant idle == CountOf(rows[..i], "idle")
        invariant idleInTransaction == CountOf(rows[..i], "idle in transaction")
      {
        hide IsGroupBy;
        assert rows[..i + 1][..i] == rows[..i];
        LiteralsDiffer();
        var state, count := Text(rows[i].state), rows[i].count;
        total := total + count;
        if state == "active" {
          active := count;
        } else if state == "idle" {
          idle := count;
        } else if state == "idle in transaction" {
          idleInTransaction := count;
        }
      }
      assert rows[..|rows|] == rows;
      GroupsCoverSessions(rows, sessions);
      GroupCount(rows, sessions, "active");
      GroupCount(rows, sessions, "idle");
      GroupCount(rows, sessions, "idle in transaction");
      ThreeStatesWithinTotal(sessions, Some("active"), Some("idle"), Some("idle in transaction"));
    }
  }

  lemma LiteralsDiffer()
    ensures |"active"| == 6 && |"idle"| == 4 && |"idle in transaction"| == 19
  {
  }

  /** Without the last row, the others are the groups of the other sessions. */
  lemma OtherGroups(rows: seq<Row>, sessions: multiset<SessionState>)
    requires rows != [] && IsGroupBy(rows, sessions)
    ensures IsGroupBy(rows[..|rows| - 1], sessions[rows[|rows| - 1].state := 0])
    ensures rows[|rows| - 1].count == sessions[rows[|rows| - 1].state]
  {
    var n := |rows| - 1;
    var last, front := rows[n], rows[..n];
    var others := sessions[last.state := 0];
    assert last in rows;
    forall r <- front
      ensures r.count == others[r.state]
    {
      var i :| 0 <= i < n && front[i] == r;
      assert rows[i] in rows && rows[i].state != rows[n].state;
    }
    forall x <- others
      ensures exists r <- front :: r.state == x
    {
      assert x in sessions;
      var r :| r in rows && r.state == x;
      assert r in front;
    }
  }

  /** The group counts add up to the number of sessions. */
  lemma {:induction false} GroupsCoverSessions(rows: seq<Row>, sessions: multiset<SessionState>)
    requires IsGroupBy(rows, sessions)
    ensures CountSum(rows) == |sessions|
  {
    if rows == [] {
      assert forall x :: x !in sessions;
    } else {
      OtherGroups(rows, sessions);
      hide IsGroupBy;
      GroupsCoverSessions(rows[..|rows| - 1], sessions[rows[|rows| - 1].state := 0]);
    }
  }

  /** The row of a state carries the number of sessions in it. */
  lemma {:induction false} GroupCount(rows: seq<Row>, sessions: multiset<SessionState>, state: string)
    requires IsGroupBy(rows, sessions)
    ensures CountOf(rows, state) == sessions[Some(state)]
  {
    if k :| 0 <= k < |rows| && rows[k].state == Some(state) {
      CountOfRow(rows, state, k);
      assert rows[k] in rows;
    } else {
      CountOfNone(rows, state);
    }
  }

  lemma {:induction false} CountOfRow(rows: seq<Row>, state: string, k: nat)
    requires k < |rows| && rows[k].state == Some(state)
    requires forall i, j :: 0 <= i < j < |rows| ==> rows[i].state != rows[j].state
    ensures CountOf(rows, state) == rows[k].count
  {
    if k < |rows| - 1 {
      CountOfRow(rows[..|rows| - 1], state, k);
    }
  }

  lemma {:induction false} CountOfNone(rows: seq<Row>, state: string)
    requires forall k :: 0 <= k < |rows| ==> rows[k].state != Some(state)
    ensures CountOf(rows, state) == 0
  {
    if rows != [] {
      CountOfNone(rows[..|rows| - 1], state);
    }
  }

  /** Sessions in three different states are different sessions. */
  lemma ThreeStatesWithinTotal(sessions: multiset<SessionState>, a: SessionState, b: SessionState, c: SessionState)
    requires a != b && b != c && a != c
    ensures sessions[a] + sessions[b] + sessions[c] <= |sessions|
  {
    var rest := sessions[a := 0][b := 0][c := 0];
    assert |sessions| == |sessions[a := 0]| + sessions[a];
    assert |sessions[a := 0]| == |sessions[a := 0][b := 0]| + sessions[b];
    assert |sessions[a := 0][b := 0]| == |rest| + sessions[c];
  }
}
