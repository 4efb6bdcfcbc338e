/**
  The TTL cache of pkg/metrics/cache.go. All three operations run under the cache's lock and read
  the monotonic clock inside it; the readings are parameters. Times are in nanoseconds.
 */
module TtlCache {
  import opened Wrappers

  /** A cached value and the last instant at which it may be returned. */
  datatype Item<V> = Item(value: V, expiresAt: int)

  function Lookup<V>(data: map<string, Item<V>>, key: string, now: int): Option<V> {
    if key !in data || now > data[key].expiresAt then None else Some(data[key].value)
  }

  /** The entries that a cleanup at `now` leaves. */
  function Remaining<V>(data: map<string, Item<V>>, now: int): map<string, Item<V>> {
    map k | k in data && now <= data[k].expiresAt :: data[k]
  }

  class Cache<V(==)> {
    var data: map<string, Item<V>>
    const ttl: int

    constructor (ttl: int)
      ensures data == map[] && this.ttl == ttl
    {
      data := map[];
      this.ttl := ttl;
    }

    method Set(key: string, value: V, now: int)
      modifies this`data
      ensures data == old(data)[key := Item(value, now + ttl)]
    {
      data := data[key := Item(value, now + ttl)];
    }

    method Get(key: string, now: int) returns (result: Option<V>)
      ensures result == Lookup(data, key, now)
    {
      if key !in data || now > data[key].expiresAt {
        return None;
      }
      return Some(data[key].value);
    }

    /** Visits the keys in whatever order the map iteration gives, deleting as it goes. */
    method RemoveExpired(now: int)
      modifies this`data
      ensures data == Remaining(old(data), now)
    {
      var unvisited := data.Keys;
      while unvisited != {}
        invariant unvisited <= data.Keys <= old(data).Keys
        invariant forall k <- data :: data[k] == old(data)[k]
        invariant forall k <- old(data).Keys - unvisited :: k in data <==> now <= old(data)[k].expiresAt
        decreases |unvisited|
      {
        var key :| key in unvisited;
        if now > data[key].expiresAt {
          data := data - {key};
        }
        unvisited := unvisited - {key};
      }
    }
  }

  // ----- runs

  datatype Event<V> =
    | DoSet(at: int, key: string, value: V)
    | DoGet(at: int, key: string)
    | DoCleanup(at: int)

  function Apply<V>(data: map<string, Item<V>>, ttl: int, e: Event<V>): map<string, Item<V>> {
    match e
    case DoSet(at, key, value) => data[key := Item(value, at + ttl)]
    case DoGet(_, _) => data
    case DoCleanup(at) => Remaining(data, at)
  }

  /** The contents after a history that starts with the empty cache. */
  function Contents<V>(ttl: int, history: seq<Event<V>>): map<string, Item<V>> {
    if history == [] then map[]
    else Apply(Contents(ttl, history[..|history| - 1]), ttl, history[|history| - 1])
  }

  ghost predicate ClockNeverFalls<V>(history: seq<Event<V>>) {
    forall i, j :: 0 <= i < j < |history| ==> history[i].at <= history[j].at
  }

  /** The specification: the last `Set` of a key, whatever was read or cleaned up since. */
  function LastSet<V>(history: seq<Event<V>>, key: string): Option<(V, int)> {
    if history == [] then None
    else
      var e := history[|history| - 1];
      if e.DoSet? && e.key == key then Some((e.value, e.at)) else LastSet(history[..|history| - 1], key)
  }

  /** What a reader may expect at `now`: the last `Set`, if it is no older than the TTL. */
  function Expected<V>(ttl: int, history: seq<Event<V>>, key: string, now: int): Option<V> {
    match LastSet(history, key)
    case None => None
    case Some((v, at)) => if now <= at + ttl then Some(v) else None
  }

  /** An entry is the last `Set` of its key; a missing key was never set or has expired. */
  lemma {:induction false} EntryIsLastSet<V>(ttl: int, history: seq<Event<V>>, key: string)
    requires ClockNeverFalls(history)
    ensures var data := Contents(ttl, history);
      && (key in data ==> LastSet(history, key) == Some((data[key].value, data[key].expiresAt - ttl)))
      && (key !in data && LastSet(history, key).Some? ==>
            history != [] && LastSet(history, key).value.1 + ttl < history[|history| - 1].at)
  {
    if history != [] {
      EntryIsLastSet(ttl, history[..|history| - 1], key);
    }
  }

  /**
    Refinement. For every interleaving of sets, gets and cleanups under a clock that never falls,
    a get returns exactly the last set of its key within the TTL.
   */
  lemma {:induction false} GetReturnsLastSetWithinTtl<V>(ttl: int, history: seq<Event<V>>, key: string, now: int)
    requires ClockNeverFalls(history) && forall e <- history :: e.at <= now
    ensures Lookup(Contents(ttl, history), key, now) == Expected(ttl, history, key, now)
  {
    EntryIsLastSet(ttl, history, key);
    if history != [] {
      assert history[|history| - 1] in history;
    }
  }

  function WithoutCleanups<V>(history: seq<Event<V>>): seq<Event<V>> {
    if history == [] then []
    else
      WithoutCleanups(history[..|history| - 1])
      + if history[|history| - 1].DoCleanup? then [] else [history[|history| - 1]]
  }

  lemma {:induction false} LastSetIgnoresCleanups<V>(history: seq<Event<V>>, key: string)
    ensures LastSet(WithoutCleanups(history), key) == LastSet(history, key)
    ensures forall e <- WithoutCleanups(history) :: e in history
  {
    if history != [] {
      var before := history[..|history| - 1];
      LastSetIgnoresCleanups(before, key);
      var w := WithoutCleanups(history);
      if !history[|history| - 1].DoCleanup? {
        assert w[..|w| - 1] == WithoutCleanups(before);
      } else {
        assert w == WithoutCleanups(before);
      }
    }
  }

  lemma {:induction false} CleanupsKeepOrder<V>(history: seq<Event<V>>)
    requires ClockNeverFalls(history)
    ensures ClockNeverFalls(WithoutCleanups(history))
    ensures forall e <- WithoutCleanups(history) :: e in history
  {
    if history != [] {
      var before := history[..|history| - 1];
      CleanupsKeepOrder(before);
      assert forall e <- before :: e.at <= history[|history| - 1].at;
    }
  }

  /** No reader can tell whether the cleanup goroutine has run, nor when, nor how often. */
  lemma {:induction false} CleanupUnobservable<V>(ttl: int, history: seq<Event<V>>, key: string, now: int)
    requires ClockNeverFalls(history) && forall e <- history :: e.at <= now
    ensures Lookup(Contents(ttl, history), key, now) == Lookup(Contents(ttl, WithoutCleanups(history)), key, now)
  {
    CleanupsKeepOrder(history);
    LastSetIgnoresCleanups(history, key);
    GetReturnsLastSetWithinTtl(ttl, history, key, now);
    GetReturnsLastSetWithinTtl(ttl, WithoutCleanups(history), key, now);
  }

  /** Right after a cleanup, the cache holds exactly the keys last set within the TTL. */
  lemma {:induction false} CleanupLeavesLiveKeys<V>(ttl: int, history: seq<Event<V>>, key: string, now: int)
    requires ClockNeverFalls(history + [DoCleanup(now)])
    ensures key in Contents(ttl, history + [DoCleanup(now)])
       <==> LastSet(history, key).Some? && now <= LastSet(history, key).value.1 + ttl
  {
    var all := history + [DoCleanup(now)];
    assert all[..|history|] == history;
    forall i, j | 0 <= i < j < |history|
      ensures history[i].at <= history[j].at
    {
      assert all[i].at <= all[j].at;
    }
    forall e <- history
      ensures e.at <= now
    {
      var i :| 0 <= i < |history| && history[i] == e;
      assert all[i].at <= all[|history|].at;
    }
    EntryIsLastSet(ttl, history, key);
  }

  /** With a clock that falls, a cleanup can take away a value that a reader should still get. */
  lemma {:induction false} FallingClockExposesCleanup()
    ensures var history: seq<Event<int>> := [DoSet(0, "k", 7), DoCleanup(11)];
      Lookup(Contents(10, history), "k", 5) != Expected(10, history, "k", 5)
  {
    var history: seq<Event<int>> := [DoSet(0, "k", 7), DoCleanup(11)];
    assert history[..1][..0] == [];
    assert Contents(10, history[..1]) == Apply(map[], 10, history[0]);
  }
}
