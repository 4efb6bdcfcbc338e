/**
  The record behind `get_cached_metrics` in main_optimized.c when refreshes overlap: each of them
  assigns the fields of the one shared record in turn, and the handlers serve that record.
 */
module SharedRecord {
  import opened Wrappers

  /** The assignments of `collect_metrics_optimized`: eleven columns, the connection flag and the time. */
  const FIELDS := 13

  /** How many fields a refresh has assigned; a schedule says which refresh makes the next assignment. */
  function Progress(schedule: seq<nat>, h: nat): nat {
    if schedule == [] then 0
    else Progress(schedule[..|schedule| - 1], h) + if schedule[|schedule| - 1] == h then 1 else 0
  }

  /** The refresh whose value a field holds. */
  function WriterOf(schedule: seq<nat>, i: nat): Option<nat> {
    if schedule == [] then None
    else
      var before, h := schedule[..|schedule| - 1], schedule[|schedule| - 1];
      if Progress(before, h) == i then Some(h) else WriterOf(before, i)
  }

  /** The record is the row of one refresh. */
  ghost predicate Whole(schedule: seq<nat>, h: nat) { forall i :: 0 <= i < FIELDS ==> WriterOf(schedule, i) == Some(h) }

  /** No other refresh assigns a field that `h` has assigned already. */
  ghost predicate NotOverwritten(schedule: seq<nat>, h: nat) {
    forall k :: 0 <= k < |schedule| ==> Spares(schedule[..k], schedule[k], h)
  }

  /** The next assignment of `g` leaves the fields of `h` alone. */
  predicate Spares(before: seq<nat>, g: nat, h: nat) {
    g == h || Progress(before, g) >= FIELDS || Progress(before, h) <= Progress(before, g)
  }

  /** The same for one field. */
  ghost predicate FieldNotOverwritten(schedule: seq<nat>, h: nat, i: nat) {
    forall k :: 0 <= k < |schedule| ==> SparesField(schedule[..k], schedule[k], h, i)
  }

  predicate SparesField(before: seq<nat>, g: nat, h: nat, i: nat) {
    g == h || Progress(before, g) != i || Progress(before, h) <= i
  }

  lemma FieldNotOverwrittenSnoc(before: seq<nat>, g: nat, h: nat, i: nat)
    ensures FieldNotOverwritten(before + [g], h, i)
       <==> FieldNotOverwritten(before, h, i) && SparesField(before, g, h, i)
  {
    hide SparesField;
    var all := before + [g];
    assert all[..|before|] == before && all[|before|] == g;
    assert forall k :: 0 <= k < |before| ==> all[..k] == before[..k] && all[k] == before[k];
  }

  /** A field holds the value of `h` exactly when `h` has assigned it and nobody else has since. */
  lemma {:induction false} FieldHolds(schedule: seq<nat>, h: nat, i: nat)
    ensures WriterOf(schedule, i) == Some(h) <==> Progress(schedule, h) > i && FieldNotOverwritten(schedule, h, i)
  {
    if schedule != [] {
      var before, g := schedule[..|schedule| - 1], schedule[|schedule| - 1];
      assert schedule == before + [g];
      FieldHolds(before, h, i);
      FieldNotOverwrittenSnoc(before, g, h, i);
      hide FieldNotOverwritten;
      if g == h && Progress(before, h) == i {
        NothingToOverwrite(before, h, i);
      }
    }
  }

  lemma {:induction false} NothingToOverwrite(schedule: seq<nat>, h: nat, i: nat)
    requires Progress(schedule, h) <= i
    ensures FieldNotOverwritten(schedule, h, i)
  {
    if schedule != [] {
      var before, g := schedule[..|schedule| - 1], schedule[|schedule| - 1];
      NothingToOverwrite(before, h, i);
      FieldNotOverwrittenSnoc(before, g, h, i);
      assert schedule == before + [g];
    }
  }

  /**
    Over every interleaving: the record is the row of one refresh exactly when that refresh has
    assigned all its fields, and no other one has assigned a field after it.
   */
  lemma {:induction false} WholeIffNotOverwritten(schedule: seq<nat>, h: nat)
    ensures Whole(schedule, h) <==> Progress(schedule, h) >= FIELDS && NotOverwritten(schedule, h)
  {
    hide Progress, WriterOf, FieldNotOverwritten;
    forall i: nat { FieldHolds(schedule, h, i); }
    if Whole(schedule, h) {
      assert WriterOf(schedule, FIELDS - 1) == Some(h);
      forall k | 0 <= k < |schedule|
        ensures Spares(schedule[..k], schedule[k], h)
      {
        var i := Progress(schedule[..k], schedule[k]);
        if i < FIELDS {
          assert WriterOf(schedule, i) == Some(h);
          FieldAt(schedule, h, i, k);
        }
      }
    }
    if Progress(schedule, h) >= FIELDS && NotOverwritten(schedule, h) {
      forall i | 0 <= i < FIELDS
        ensures WriterOf(schedule, i) == Some(h)
      {
        FieldSpared(schedule, h, i);
      }
    }
  }

  lemma FieldAt(schedule: seq<nat>, h: nat, i: nat, k: nat)
    requires FieldNotOverwritten(schedule, h, i) && k < |schedule|
    ensures SparesField(schedule[..k], schedule[k], h, i)
  {
  }

  lemma FieldSpared(schedule: seq<nat>, h: nat, i: nat)
    requires NotOverwritten(schedule, h) && i < FIELDS
    ensures FieldNotOverwritten(schedule, h, i)
  {
    hide Progress;
    forall k | 0 <= k < |schedule|
      ensures SparesField(schedule[..k], schedule[k], h, i)
    {
      assert Spares(schedule[..k], schedule[k], h);
    }
  }

  /** So a refresh that has the record to itself from its first assignment on leaves its own row. */
  lemma AloneIsWhole(schedule: seq<nat>, h: nat)
    requires Progress(schedule, h) >= FIELDS
    requires forall k :: 0 <= k < |schedule| && schedule[k] != h ==> Progress(schedule[..k], h) == 0
    ensures Whole(schedule, h)
  {
    hide Progress, Whole;
    WholeIffNotOverwritten(schedule, h);
  }

  // ----- a record of two rows

  function Times(h: nat, count: nat): seq<nat> { seq(count, _ => h) }

  lemma {:induction false} ProgressTimes(before: seq<nat>, g: nat, count: nat, h: nat)
    ensures Progress(before + Times(g, count), h) == Progress(before, h) + if g == h then count else 0
  {
    if count == 0 {
      assert before + Times(g, 0) == before;
    } else {
      var all := before + Times(g, count);
      assert all[..|all| - 1] == before + Times(g, count - 1);
      ProgressTimes(before, g, count - 1, h);
    }
  }

  /** One refresh is overtaken after its first assignment: what stays in the record is no refresh's row. */
  lemma {:induction false} MixedRecord(h: nat)
    ensures !Whole(Times(0, 1) + Times(1, FIELDS) + Times(0, FIELDS - 1), h)
  {
    hide Progress, Whole;
    var first, second := Times(0, 1), Times(0, 1) + Times(1, FIELDS);
    var all := second + Times(0, FIELDS - 1);
    WholeIffNotOverwritten(all, h);
    assert [] + first == first && all[..1] == first && all[..FIELDS + 1] == second;
    NoProgress(h);
    ProgressTimes([], 0, 1, h);
    ProgressTimes(first, 1, FIELDS, h);
    ProgressTimes(second, 0, FIELDS - 1, h);
    NoProgress(1);
    ProgressTimes([], 0, 1, 1);
    NoProgress(0);
    ProgressTimes([], 0, 1, 0);
    ProgressTimes(first, 1, FIELDS, 0);
    if NotOverwritten(all, h) {
      assert all[1] == 1 && Spares(all[..1], all[1], h);
      assert all[FIELDS + 1] == 0 && Spares(all[..FIELDS + 1], all[FIELDS + 1], h);
    }
  }

  lemma NoProgress(h: nat)
    ensures Progress([], h) == 0
  {
  }
}
