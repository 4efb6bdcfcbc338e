/**
  The connection pool of main_optimized.c. The class is the code; `Step` is the same code cut at
  its memory accesses, so that the handlers of several request threads can be interleaved.
 */
module ConnectionPool {

  const POOL_SIZE := 5

  /** A `PGconn`, with the status `PQconnectdb` left it in. */
  class PGconn {
    const connected: bool

    constructor (connected: bool)
      ensures this.connected == connected
    {
      this.connected := connected;
    }
  }

  /** Index of the first available slot, or the length when there is none. */
  function FirstAvailable(avail: seq<bool>): (n: nat)
    ensures n <= |avail| && (forall i :: 0 <= i < n ==> !avail[i]) && (n < |avail| ==> avail[n])
  {
    if avail == [] || avail[0] then 0 else 1 + FirstAvailable(avail[1..])
  }

  class Pool {
    const connections: array<PGconn>
    const available: array<bool>

    ghost predicate Valid()
      reads this, connections, available
    {
      && connections.Length == available.Length == POOL_SIZE
      && (forall i, j :: 0 <= i < j < POOL_SIZE ==> connections[i] != connections[j])
      && forall i :: 0 <= i < POOL_SIZE && available[i] ==> connections[i].connected
    }

    ghost function Avail(): (a: seq<bool>)
      reads available
    {
      available[..]
    }

    /** `create_connection_pool`; `outcomes` tells which connection attempts succeed. */
    constructor (outcomes: seq<bool>)
      requires |outcomes| == 5
      ensures Valid() && fresh(connections) && fresh(available)
      ensures Avail() == outcomes
      ensures forall i :: 0 <= i < 5 ==> connections[i].connected == outcomes[i]
    {
      var filler := new PGconn(false);
      var conns := new PGconn[POOL_SIZE](_ => filler);
      var flags := new bool[POOL_SIZE](_ => false);
      connections, available := conns, flags;
      new;
      for i := 0 to POOL_SIZE
        invariant forall k :: 0 <= k < i ==> available[k] == outcomes[k] == connections[k].connected
        invariant forall k :: 0 <= k < i ==> fresh(connections[k])
        invariant forall j, k :: 0 <= j < k < i ==> connections[j] != connections[k]
      {
        var conn := new PGconn(outcomes[i]);
        connections[i] := conn;
        available[i] := conn.connected;
      }
    }

    method Get() returns (conn: PGconn?)
      requires Valid()
      modifies available
      ensures Valid()
      ensures var n := FirstAvailable(old(Avail()));
        if n < POOL_SIZE then conn == connections[n] && conn.connected && Avail() == old(Avail())[n := false]
        else conn == null && Avail() == old(Avail())
    {
      for i := 0 to available.Length
        invariant Avail() == old(Avail())
        invariant forall k :: 0 <= k < i ==> !available[k]
      {
        if available[i] {
          available[i] := false;
          return connections[i];
        }
      }
      return null;
    }

    method Return(conn: PGconn)
      requires Valid() && conn.connected
      modifies available
      ensures Valid()
      ensures forall i :: 0 <= i < POOL_SIZE && connections[i] == conn ==> Avail() == old(Avail())[i := true]
      ensures conn !in connections[..] ==> Avail() == old(Avail())
    {
      for i := 0 to connections.Length
        invariant Avail() == old(Avail())
        invariant forall k :: 0 <= k < i ==> connections[k] != conn
      {
        if connections[i] == conn {
          available[i] := true;
          return;
        }
      }
    }
  }

  // ----- interleaved handlers

  /** Where a handler stands: `Chosen` is between the test of a flag and its clearing. */
  datatype Pc = Idle | Scanning(slot: nat) | Chosen(slot: nat) | Holding(slot: nat)

  datatype State = State(avail: seq<bool>, pcs: map<nat, Pc>)

  /** The next memory access of handler `h`, in `get_connection` or `return_connection`. */
  function Step(s: State, h: nat): State {
    if h !in s.pcs then s
    else match s.pcs[h]
      case Idle => s.(pcs := s.pcs[h := Scanning(0)])
      case Scanning(i) =>
        if i >= |s.avail| then s.(pcs := s.pcs[h := Idle])
        else if s.avail[i] then s.(pcs := s.pcs[h := Chosen(i)])
        else s.(pcs := s.pcs[h := Scanning(i + 1)])
      case Chosen(i) =>
        if i >= |s.avail| then s else State(s.avail[i := false], s.pcs[h := Holding(i)])
      case Holding(i) =>
        if i >= |s.avail| then s else State(s.avail[i := true], s.pcs[h := Idle])
  }

  /** Every interleaving is a schedule: which handler moves next. */
  function Run(s: State, schedule: seq<nat>): State {
    if schedule == [] then s else Step(Run(s, schedule[..|schedule| - 1]), schedule[|schedule| - 1])
  }

  ghost predicate Initial(s: State, connected: seq<bool>) {
    s.avail == connected && forall h <- s.pcs :: s.pcs[h] == Idle
  }

  function Count(flags: seq<bool>): nat {
    if flags == [] then 0 else (if flags[0] then 1 else 0) + Count(flags[1..])
  }

  function Holders(s: State): set<nat> { set h | h in s.pcs && s.pcs[h].Holding? }

  /** No connection has two holders. */
  ghost predicate Exclusive(s: State) {
    forall h <- Holders(s), g <- Holders(s) :: h != g ==> s.pcs[h].slot != s.pcs[g].slot
  }

  /** What every interleaving keeps: only slots that connected are ever chosen or held. */
  ghost predicate OnlyConnected(s: State, connected: seq<bool>) {
    && |s.avail| == |connected|
    && (forall i :: 0 <= i < |connected| && s.avail[i] ==> connected[i])
    && forall h <- s.pcs :: s.pcs[h].Chosen? || s.pcs[h].Holding? ==>
         s.pcs[h].slot < |connected| && connected[s.pcs[h].slot]
  }

  /** Each connected slot is either available or held by exactly one handler. */
  ghost predicate Accounted(s: State, connected: seq<bool>) {
    && OnlyConnected(s, connected) && Exclusive(s)
    && (forall h <- Holders(s) :: !s.avail[s.pcs[h].slot])
    && (forall i :: 0 <= i < |connected| && connected[i] && !s.avail[i] ==>
          exists h <- Holders(s) :: s.pcs[h].slot == i)
    && Count(s.avail) + |Holders(s)| == Count(connected)
  }

  /** Handler `h` is about to clear a flag that another handler has cleared since it was tested. */
  predicate LateClear(s: State, h: nat) {
    h in s.pcs && s.pcs[h].Chosen? && s.pcs[h].slot < |s.avail| && !s.avail[s.pcs[h].slot]
  }

  lemma {:induction false} CountUpdate(flags: seq<bool>, i: nat, b: bool)
    requires i < |flags|
    ensures Count(flags[i := b]) + (if flags[i] then 1 else 0) == Count(flags) + if b then 1 else 0
  {
    if i == 0 {
      assert flags[i := b][1..] == flags[1..];
    } else {
      assert flags[i := b][1..] == flags[1..][i - 1 := b];
      CountUpdate(flags[1..], i - 1, b);
    }
  }

  lemma OnlyConnectedStep(s: State, h: nat, connected: seq<bool>)
    requires OnlyConnected(s, connected)
    ensures OnlyConnected(Step(s, h), connected)
  {
  }

  lemma HoldersStep(s: State, h: nat, connected: seq<bool>)
    requires OnlyConnected(s, connected) && h in s.pcs
    ensures Holders(Step(s, h)) == if s.pcs[h].Chosen? then Holders(s) + {h} else Holders(s) - {h}
  {
  }

  /** After a clear, its slot has one holder, and the other slots keep theirs. */
  lemma ClearExclusive(s: State, h: nat, connected: seq<bool>)
    requires Accounted(s, connected) && h in s.pcs && s.pcs[h].Chosen? && !LateClear(s, h)
    ensures var t := Step(s, h);
      Exclusive(t) && h !in Holders(s) && Holders(t) == Holders(s) + {h}
      && forall g <- Holders(t) :: t.pcs[g].slot < |t.avail| && !t.avail[t.pcs[g].slot]
  {
    OnlyConnectedStep(s, h, connected);
    HoldersStep(s, h, connected);
    hide Count;
  }

  lemma ClearKeepsHolders(s: State, h: nat, connected: seq<bool>)
    requires Accounted(s, connected) && h in s.pcs && s.pcs[h].Chosen? && !LateClear(s, h)
    ensures var t := Step(s, h);
      forall j :: 0 <= j < |connected| && connected[j] && j < |t.avail| && !t.avail[j] ==>
        exists g <- Holders(t) :: t.pcs[g].slot == j
  {
    hide Count, Exclusive;
    var t := Step(s, h);
    HoldersStep(s, h, connected);
    forall j | 0 <= j < |connected| && connected[j] && !t.avail[j]
      ensures exists g <- Holders(t) :: t.pcs[g].slot == j
    {
      if j == s.pcs[h].slot {
        assert h in Holders(t);
      } else {
        var g :| g in Holders(s) && s.pcs[g].slot == j;
        assert g in Holders(t);
      }
    }
  }

  lemma ClearCount(s: State, h: nat, connected: seq<bool>)
    requires Accounted(s, connected) && h in s.pcs && s.pcs[h].Chosen? && !LateClear(s, h)
    ensures Count(Step(s, h).avail) + |Holders(Step(s, h))| == Count(connected)
  {
    ClearExclusive(s, h, connected);
    CountUpdate(s.avail, s.pcs[h].slot, false);
    hide Holders, Count, Exclusive;
  }

  lemma ClearAccounted(s: State, h: nat, connected: seq<bool>)
    requires Accounted(s, connected) && h in s.pcs && s.pcs[h].Chosen? && !LateClear(s, h)
    ensures Accounted(Step(s, h), connected)
  {
    hide Step, Holders, Exclusive, Count;
    OnlyConnectedStep(s, h, connected);
    ClearExclusive(s, h, connected);
    ClearKeepsHolders(s, h, connected);
    ClearCount(s, h, connected);
  }

  lemma ReturnAccounted(s: State, h: nat, connected: seq<bool>)
    requires Accounted(s, connected) && h in s.pcs && s.pcs[h].Holding?
    ensures Accounted(Step(s, h), connected)
  {
    var i := s.pcs[h].slot;
    var t := Step(s, h);
    OnlyConnectedStep(s, h, connected);
    HoldersStep(s, h, connected);
    CountUpdate(s.avail, i, true);
    assert h in Holders(s);
    forall j | 0 <= j < |connected| && connected[j] && !t.avail[j]
      ensures exists g <- Holders(t) :: t.pcs[g].slot == j
    {
      var g :| g in Holders(s) && s.pcs[g].slot == j;
      assert g in Holders(t);
    }
  }

  /** Accounting depends only on the flags and on who holds what. */
  lemma SameHoldings(s: State, t: State, connected: seq<bool>)
    requires Accounted(s, connected) && OnlyConnected(t, connected)
    requires t.avail == s.avail && Holders(t) == Holders(s)
    requires forall g <- Holders(s) :: g in t.pcs && t.pcs[g] == s.pcs[g]
    ensures Accounted(t, connected)
  {
    forall j | 0 <= j < |connected| && connected[j] && !t.avail[j]
      ensures exists g <- Holders(t) :: t.pcs[g].slot == j
    {
      var g :| g in Holders(s) && s.pcs[g].slot == j;
      assert g in Holders(t) && t.pcs[g].slot == j;
    }
  }

  lemma ScanAccounted(s: State, h: nat, connected: seq<bool>)
    requires Accounted(s, connected) && h in s.pcs && (s.pcs[h].Idle? || s.pcs[h].Scanning?)
    ensures Accounted(Step(s, h), connected)
  {
    OnlyConnectedStep(s, h, connected);
    HoldersStep(s, h, connected);
    assert h !in Holders(s);
    ScanKeepsOthers(s, h);
    hide Step, Accounted, OnlyConnected;
    SameHoldings(s, Step(s, h), connected);
  }

  lemma ScanKeepsOthers(s: State, h: nat)
    requires h in s.pcs && (s.pcs[h].Idle? || s.pcs[h].Scanning?)
    ensures Step(s, h).avail == s.avail
    ensures forall g <- Holders(s) :: g in Step(s, h).pcs && Step(s, h).pcs[g] == s.pcs[g]
  {
  }

  /** Only a late clear breaks the accounting, and it always breaks exclusive ownership. */
  lemma StepAccounted(s: State, h: nat, connected: seq<bool>)
    requires Accounted(s, connected)
    ensures !LateClear(s, h) ==> Accounted(Step(s, h), connected)
    ensures LateClear(s, h) ==> !Exclusive(Step(s, h))
  {
    if h in s.pcs {
      if LateClear(s, h) {
        HoldersStep(s, h, connected);
        var g :| g in Holders(s) && s.pcs[g].slot == s.pcs[h].slot;
        assert h in Holders(Step(s, h)) && g in Holders(Step(s, h));
      } else if s.pcs[h].Chosen? {
        ClearAccounted(s, h, connected);
      } else if s.pcs[h].Holding? {
        ReturnAccounted(s, h, connected);
      } else {
        ScanAccounted(s, h, connected);
      }
    }
  }

  ghost predicate NoLateClear(s: State, schedule: seq<nat>) {
    forall k :: 0 <= k < |schedule| ==> !LateClear(Run(s, schedule[..k]), schedule[k])
  }

  ghost predicate AlwaysExclusive(s: State, schedule: seq<nat>) {
    forall k :: 0 <= k <= |schedule| ==> Exclusive(Run(s, schedule[..k]))
  }

  /** Without a late clear, each connected slot stays accounted for. */
  lemma {:induction false} RunAccounted(s: State, schedule: seq<nat>, connected: seq<bool>)
    requires Initial(s, connected) && NoLateClear(s, schedule)
    ensures Accounted(Run(s, schedule), connected)
  {
    if schedule == [] {
      assert Holders(s) == {};
    } else {
      var n := |schedule| - 1;
      var before := schedule[..n];
      assert forall k :: 0 <= k <= n ==> before[..k] == schedule[..k];
      assert !LateClear(Run(s, schedule[..n]), schedule[n]);
      assert NoLateClear(s, before) by {
        forall k | 0 <= k < |before|
          ensures !LateClear(Run(s, before[..k]), before[k])
        {
          assert !LateClear(Run(s, schedule[..k]), schedule[k]);
        }
      }
      RunAccounted(s, before, connected);
      StepAccounted(Run(s, before), schedule[n], connected);
    }
  }

  /**
    Over every interleaving of every number of handlers: no connection ever has two holders
    exactly when every clear still finds the flag that its test saw.
   */
  lemma {:induction false} ExclusiveIffNoLateClear(s: State, schedule: seq<nat>, connected: seq<bool>)
    requires Initial(s, connected)
    ensures AlwaysExclusive(s, schedule) <==> NoLateClear(s, schedule)
  {
    if NoLateClear(s, schedule) {
      forall k | 0 <= k <= |schedule|
        ensures Exclusive(Run(s, schedule[..k]))
      {
        PrefixNoLateClear(s, schedule, k);
        RunAccounted(s, schedule[..k], connected);
      }
    } else {
      var k := FirstLateClear(s, schedule);
      RunAccounted(s, schedule[..k], connected);
      StepAccounted(Run(s, schedule[..k]), schedule[k], connected);
      assert schedule[..k + 1][..k] == schedule[..k];
      assert !Exclusive(Run(s, schedule[..k + 1]));
    }
  }

  lemma PrefixNoLateClear(s: State, schedule: seq<nat>, k: nat)
    requires k <= |schedule| && NoLateClear(s, schedule)
    ensures NoLateClear(s, schedule[..k])
  {
    forall j | 0 <= j < k
      ensures !LateClear(Run(s, schedule[..k][..j]), schedule[..k][j])
    {
      assert schedule[..k][..j] == schedule[..j];
      assert !LateClear(Run(s, schedule[..j]), schedule[j]);
    }
  }

  lemma {:induction false} FirstLateClear(s: State, schedule: seq<nat>) returns (k: nat)
    requires !NoLateClear(s, schedule)
    ensures k < |schedule| && LateClear(Run(s, schedule[..k]), schedule[k]) && NoLateClear(s, schedule[..k])
  {
    hide Run, LateClear;
    k := 0;
    while k < |schedule| && !LateClear(Run(s, schedule[..k]), schedule[k])
      invariant k <= |schedule|
      invariant forall j :: 0 <= j < k ==> !LateClear(Run(s, schedule[..j]), schedule[j])
    {
      k := k + 1;
    }
    assert forall j :: 0 <= j < k ==> schedule[..k][..j] == schedule[..j];
  }

  /** At most one handler is between its test and its clearing. */
  ghost predicate OneChooser(s: State) {
    forall h <- s.pcs, g <- s.pcs :: s.pcs[h].Chosen? && s.pcs[g].Chosen? ==> h == g
  }

  ghost predicate OneChooserAtATime(s: State, schedule: seq<nat>) {
    forall k :: 0 <= k <= |schedule| ==> OneChooser(Run(s, schedule[..k]))
  }

  /** Whoever has chosen a slot still finds its flag set. */
  ghost predicate ChoicesStand(s: State) { forall h <- s.pcs :: !LateClear(s, h) }

  lemma ChoicesStandStep(s: State, h: nat)
    requires OneChooser(s) && ChoicesStand(s)
    ensures ChoicesStand(Step(s, h))
  {
    var t := Step(s, h);
    forall g <- t.pcs
      ensures !LateClear(t, g)
    {
      assert g in s.pcs && !LateClear(s, g) && h in s.pcs ==> !LateClear(s, h);
    }
  }

  lemma {:induction false} RunChoicesStand(s: State, schedule: seq<nat>, connected: seq<bool>)
    requires Initial(s, connected) && OneChooserAtATime(s, schedule)
    ensures ChoicesStand(Run(s, schedule))
  {
    if schedule != [] {
      hide Step, LateClear;
      var n := |schedule| - 1;
      assert forall k :: 0 <= k <= n ==> schedule[..n][..k] == schedule[..k];
      assert OneChooser(Run(s, schedule[..n]));
      OneChooserPrefix(s, schedule, n);
      RunChoicesStand(s, schedule[..n], connected);
      ChoicesStandStep(Run(s, schedule[..n]), schedule[n]);
    }
  }

  lemma OneChooserPrefix(s: State, schedule: seq<nat>, n: nat)
    requires OneChooserAtATime(s, schedule) && n <= |schedule|
    ensures OneChooserAtATime(s, schedule[..n])
  {
    forall k | 0 <= k <= n
      ensures OneChooser(Run(s, schedule[..n][..k]))
    {
      assert schedule[..n][..k] == schedule[..k];
      assert OneChooser(Run(s, schedule[..k]));
    }
  }

  /** So a lock around test and clear, and nothing else, is enough for exclusive ownership. */
  lemma OneChooserSuffices(s: State, schedule: seq<nat>, connected: seq<bool>)
    requires Initial(s, connected) && OneChooserAtATime(s, schedule)
    ensures AlwaysExclusive(s, schedule)
  {
    forall k | 0 <= k < |schedule|
      ensures !LateClear(Run(s, schedule[..k]), schedule[k])
    {
      OneChooserPrefix(s, schedule, k);
      RunChoicesStand(s, schedule[..k], connected);
      assert schedule[k] in Run(s, schedule[..k]).pcs ==> !LateClear(Run(s, schedule[..k]), schedule[k]);
    }
    ExclusiveIffNoLateClear(s, schedule, connected);
  }

  /** Two handlers that both test before either clears end up with the same connection. */
  lemma TwoHolders()
    ensures var s := State([true, true, true, true, true], map[0 := Idle, 1 := Idle]);
      !Exclusive(Run(s, [0, 1, 0, 1, 0, 1]))
  {
    hide Run;
    var s := State([true, true, true, true, true], map[0 := Idle, 1 := Idle]);
    RunNothing(s);
    assert [] + [0] == [0] && [0] + [1] == [0, 1] && [0, 1] + [0] == [0, 1, 0];
    var s1 := RunSnoc(s, [], 0);
    var s2 := RunSnoc(s, [0], 1);
    assert s2 == s.(pcs := map[0 := Scanning(0), 1 := Scanning(0)]);
    var s3 := RunSnoc(s, [0, 1], 0);
    var s4 := RunSnoc(s, [0, 1, 0], 1);
    assert s4 == s.(pcs := map[0 := Chosen(0), 1 := Chosen(0)]);
    var s5 := RunSnoc(s, [0, 1, 0, 1], 0);
    assert [0, 1, 0] + [1] == [0, 1, 0, 1] && [0, 1, 0, 1] + [0] == [0, 1, 0, 1, 0];
    assert s5.pcs == map[0 := Holding(0), 1 := Chosen(0)];
    var s6 := RunSnoc(s, [0, 1, 0, 1, 0], 1);
    assert [0, 1, 0, 1, 0] + [1] == [0, 1, 0, 1, 0, 1];
    assert s6.pcs == map[0 := Holding(0), 1 := Holding(0)];
    assert 0 in Holders(s6) && 1 in Holders(s6);
  }

  lemma RunNothing(s: State)
    ensures Run(s, []) == s
  {
  }

  lemma RunSnoc(s: State, before: seq<nat>, h: nat) returns (t: State)
    ensures t == Run(s, before + [h]) == Step(Run(s, before), h)
  {
    t := Run(s, before + [h]);
    assert (before + [h])[..|before|] == before;
  }

  // ----- undisturbed calls

  /** `get_connection` as one step: what `Pool.Get` does to the flags. */
  function AtomicGet(s: State, h: nat): State
    requires h in s.pcs
  {
    var n := FirstAvailable(s.avail);
    if n < |s.avail| then State(s.avail[n := false], s.pcs[h := Holding(n)]) else s
  }

  /** `count` moves of the same handler. */
  function Alone(h: nat, count: nat): seq<nat> { seq(count, _ => h) }

  lemma AloneSnoc(h: nat, count: nat)
    ensures Alone(h, count + 1) == Alone(h, count) + [h]
  {
  }

  lemma {:induction false} ScanAlone(s: State, h: nat, i: nat)
    requires h in s.pcs && s.pcs[h] == Idle && i <= FirstAvailable(s.avail)
    ensures Run(s, Alone(h, 1 + i)) == s.(pcs := s.pcs[h := Scanning(i)])
  {
    hide Run, FirstAvailable;
    AloneSnoc(h, i);
    var t := RunSnoc(s, Alone(h, i), h);
    if i == 0 {
      assert Alone(h, 0) == [];
      RunNothing(s);
    } else {
      ScanAlone(s, h, i - 1);
    }
  }

  /** A call that no other handler interrupts takes the first available slot, as `Pool.Get` does. */
  lemma UndisturbedGet(s: State, h: nat)
    requires h in s.pcs && s.pcs[h] == Idle
    ensures var n := FirstAvailable(s.avail);
      Run(s, Alone(h, if n < |s.avail| then n + 3 else n + 2)) == AtomicGet(s, h)
  {
    hide Run, FirstAvailable, Alone;
    var n := FirstAvailable(s.avail);
    ScanAlone(s, h, n);
    AloneSnoc(h, n + 1);
    var t := RunSnoc(s, Alone(h, n + 1), h);
    if n < |s.avail| {
      AloneSnoc(h, n + 2);
      var u := RunSnoc(s, Alone(h, n + 2), h);
      assert u == AtomicGet(s, h);
    } else {
      assert t == s;
    }
  }

  /** One handler at a time: an idle one gets a connection, a holder gives it back. */
  function AtomicStep(s: State, h: nat): State {
    if h !in s.pcs then s
    else if s.pcs[h].Idle? then AtomicGet(s, h)
    else Step(s, h)
  }

  function AtomicRun(s: State, schedule: seq<nat>): State {
    if schedule == [] then s else AtomicStep(AtomicRun(s, schedule[..|schedule| - 1]), schedule[|schedule| - 1])
  }

  ghost predicate AtRest(s: State) { forall h <- s.pcs :: s.pcs[h].Idle? || s.pcs[h].Holding? }

  /** Finding a slot changes no holding. */
  lemma ChooseAccounted(s: State, h: nat, n: nat, connected: seq<bool>)
    requires Accounted(s, connected) && h in s.pcs && s.pcs[h].Idle? && n < |s.avail| && s.avail[n]
    ensures Accounted(s.(pcs := s.pcs[h := Chosen(n)]), connected)
  {
    var c := s.(pcs := s.pcs[h := Chosen(n)]);
    assert h !in Holders(s);
    assert Holders(c) == Holders(s);
    SameHoldings(s, c, connected);
  }

  lemma AtomicGetAccounted(s: State, h: nat, connected: seq<bool>)
    requires Accounted(s, connected) && h in s.pcs && s.pcs[h].Idle?
    ensures Accounted(AtomicGet(s, h), connected)
  {
    hide Accounted, FirstAvailable;
    var n := FirstAvailable(s.avail);
    if n < |s.avail| {
      ChooseAccounted(s, h, n, connected);
      var c := s.(pcs := s.pcs[h := Chosen(n)]);
      ClearAccounted(c, h, connected);
      assert Step(c, h) == State(s.avail[n := false], c.pcs[h := Holding(n)]);
      assert c.pcs[h := Holding(n)] == s.pcs[h := Holding(n)];
    }
  }

  lemma AtomicStepAccounted(s: State, h: nat, connected: seq<bool>)
    requires Accounted(s, connected) && AtRest(s)
    ensures Accounted(AtomicStep(s, h), connected) && AtRest(AtomicStep(s, h))
  {
    if h in s.pcs {
      if s.pcs[h].Idle? {
        AtomicGetAccounted(s, h, connected);
      } else {
        ReturnAccounted(s, h, connected);
      }
    }
    hide Accounted, FirstAvailable;
  }

  /**
    With calls that are not interrupted, in every run of any number of handlers: every connection
    has at most one holder, slots that failed to connect are never handed out, and available plus
    held is the number that connected at creation.
   */
  lemma {:induction false} AtomicRunAccounted(s: State, schedule: seq<nat>, connected: seq<bool>)
    requires Initial(s, connected)
    ensures Accounted(AtomicRun(s, schedule), connected) && AtRest(AtomicRun(s, schedule))
  {
    hide AtomicStep;
    if schedule == [] {
      assert Holders(s) == {};
    } else {
      hide Accounted, AtRest;
      var before, h := schedule[..|schedule| - 1], schedule[|schedule| - 1];
      AtomicRunAccounted(s, before, connected);
      AtomicStepAccounted(AtomicRun(s, before), h, connected);
    }
  }
}
