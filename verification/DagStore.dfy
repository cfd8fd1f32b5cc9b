/** Loading graphs into the store while earlier fetches are still under way. */
module DagStore {
  import opened GrantTypes

  // The four fields of the store, and the world around it: the fetches under way with
  // their keys, the number of the next fetch, and everything fetches have returned.
  datatype State<G> = State(
    cache: map<string, G>,
    shown: Option<G>,
    loading: bool,
    current: Option<string>,
    flying: map<nat, string>,
    next: nat,
    delivered: seq<(string, G)>)

  datatype Event<G> =
    | Load(key: string)
    | Settle(id: nat, data: G)
    | Fail(id: nat)
    | Clear

  predicate Enabled<G>(s: State<G>, e: Event<G>) {
    e.Settle? || e.Fail? ==> e.id in s.flying
  }

  function Apply<G>(s: State<G>, e: Event<G>): State<G>
    requires Enabled(s, e)
  {
    match e
    case Load(key) =>
      if key in s.cache then s.(current := Some(key), shown := Some(s.cache[key]), loading := false)
      else
        s.(current := Some(key), shown := None, loading := true, flying := s.flying[s.next := key], next := s.next + 1)
    case Settle(id, data) =>
      var key := s.flying[id];
      var landed := s.(flying := s.flying - {id}, delivered := s.delivered + [(key, data)]);
      // a stale settle is dropped
      if s.current != Some(key) then landed
      else landed.(cache := s.cache[key := data], shown := Some(data), loading := false)
    case Fail(id) =>
      s.(flying := s.flying - {id}, loading := s.loading && s.current != Some(s.flying[id]))
    case Clear =>
      s.(cache := map[], shown := None, loading := false, current := None)
  }

  // ---------------------------------------------------------------------------
  // Every run

  function Initial<G>(): State<G> {
    State(map[], None, false, None, map[], 0, [])
  }

  predicate Possible<G>(s: State<G>, es: seq<Event<G>>)
    decreases |es|, 0
  {
    es == [] || (Possible(s, es[..|es| - 1]) && Enabled(After(s, es[..|es| - 1]), es[|es| - 1]))
  }

  function After<G>(s: State<G>, es: seq<Event<G>>): State<G>
    requires Possible(s, es)
    decreases |es|, 1
  {
    if es == [] then s else Apply(After(s, es[..|es| - 1]), es[|es| - 1])
  }

  // The graph shown is none or the cached one of the current key; a cached graph was
  // returned by a fetch started for its key; while loading, nothing is shown and a fetch
  // for the current key is under way.
  ghost predicate Safe<G(!new)>(s: State<G>) {
    && (s.shown.Some? ==> s.current.Some? && s.current.value in s.cache && s.cache[s.current.value] == s.shown.value)
    && (forall k :: k in s.cache ==> (k, s.cache[k]) in s.delivered)
    && (s.loading ==> s.shown.None? && s.current.Some? && exists id :: Under(s, id, s.current.value))
    && (forall id :: id in s.flying ==> id < s.next)
  }

  predicate Under<G>(s: State<G>, id: nat, key: string) {
    id in s.flying && s.flying[id] == key
  }

  lemma StepSafe<G(!new)>(s: State<G>, e: Event<G>)
    requires Safe(s) && Enabled(s, e)
    ensures Safe(Apply(s, e))
  {
    var t := Apply(s, e);
    match e
    case Load(key) =>
      if key !in s.cache {
        assert Under(t, s.next, key);
      }
    case Settle(id, data) =>
      if t.loading {
        var other :| Under(s, other, s.current.value);
        assert Under(t, other, s.current.value);
      }
    case Fail(id) =>
      if t.loading {
        var other :| Under(s, other, s.current.value);
        assert Under(t, other, s.current.value);
      }
    case Clear =>
  }

  // However loads, settles, failures and clears interleave.
  lemma {:induction false} RunSafe<G(!new)>(es: seq<Event<G>>)
    requires Possible(Initial<G>(), es)
    ensures Safe(After(Initial<G>(), es))
    decreases |es|
  {
    if es != [] {
      var n := |es| - 1;
      RunSafe(es[..n]);
      StepSafe(After(Initial<G>(), es[..n]), es[n]);
    }
  }

  // Once every fetch has ended, nothing is loading.
  lemma NothingLeftLoading<G(!new)>(es: seq<Event<G>>)
    requires Possible(Initial<G>(), es) && After(Initial<G>(), es).flying == map[]
    ensures !After(Initial<G>(), es).loading
  {
    RunSafe(es);
  }

  // ---------------------------------------------------------------------------
  // The last load decides

  predicate OnlyEndings<G>(es: seq<Event<G>>) {
    forall i :: 0 <= i < |es| ==> es[i].Settle? || es[i].Fail?
  }

  // Did a fetch for the key end among these?
  predicate Ended<G>(flying: map<nat, string>, es: seq<Event<G>>, key: string)
    requires OnlyEndings(es)
  {
    exists i :: 0 <= i < |es| && es[i].id in flying && flying[es[i].id] == key
  }

  // The last graph returned for the key among these.
  function LastGraph<G>(flying: map<nat, string>, es: seq<Event<G>>, key: string): Option<G>
    requires OnlyEndings(es)
  {
    if es == [] then None
    else
      var e := es[|es| - 1];
      if e.Settle? && e.id in flying && flying[e.id] == key then Some(e.data)
      else LastGraph(flying, es[..|es| - 1], key)
  }

  // The fetches that end are no longer under way, all others are.
  lemma {:induction false} StillFlying<G(!new)>(s: State<G>, es: seq<Event<G>>)
    requires Possible(s, es) && OnlyEndings(es)
    ensures var t := After(s, es);
            && (forall id :: id in t.flying <==> id in s.flying && forall i :: 0 <= i < |es| ==> es[i].id != id)
            && (forall id :: id in t.flying ==> t.flying[id] == s.flying[id])
    decreases |es|
  {
    if es != [] {
      var n := |es| - 1;
      StillFlying(s, es[..n]);
      assert forall i :: 0 <= i < n ==> es[..n][i] == es[i];
    }
  }

  lemma EndedNext<G>(flying: map<nat, string>, es: seq<Event<G>>, key: string)
    requires OnlyEndings(es) && es != []
    ensures var n := |es| - 1;
            Ended(flying, es, key) <==>
            Ended(flying, es[..n], key) || (es[n].id in flying && flying[es[n].id] == key)
  {
    var n := |es| - 1;
    assert forall i :: 0 <= i < n ==> es[..n][i] == es[i];
  }

  // What the cache held for the key before.
  function Cached<G>(s: State<G>, key: string): Option<G> {
    if key in s.cache then Some(s.cache[key]) else None
  }

  // After a load, until the next load or clear: the key stays current; what is shown is the
  // last graph returned for it, or else what the cache held, or nothing; the cache holds
  // that graph and is otherwise unchanged; and the store is loading until the first fetch
  // for the key ends. Fetches for other keys change nothing of this.
  lemma {:induction false} LastLoadDecides<G(!new)>(s: State<G>, key: string, es: seq<Event<G>>)
    requires Possible(Apply(s, Load(key)), es) && OnlyEndings(es)
    ensures var first := Apply(s, Load(key));
            var t := After(first, es);
            var last := LastGraph(first.flying, es, key);
            && t.current == Some(key)
            && t.shown == (if last.Some? then last else Cached(s, key))
            && t.cache == (if last.Some? then s.cache[key := last.value] else s.cache)
            && (t.loading <==> key !in s.cache && !Ended(first.flying, es, key))
    decreases |es|
  {
    var first := Apply(s, Load(key));
    if es != [] {
      var n := |es| - 1;
      LastLoadDecides(s, key, es[..n]);
      StillFlying(first, es[..n]);
      EndedNext(first.flying, es, key);
      EndingOf(After(first, es[..n]), es[n], key);
    }
  }

  // One fetch ends while this key is current.
  lemma EndingOf<G(!new)>(s: State<G>, e: Event<G>, key: string)
    requires Enabled(s, e) && (e.Settle? || e.Fail?) && s.current == Some(key)
    ensures var t := Apply(s, e);
            var own := s.flying[e.id] == key;
            && t.current == s.current
            && t.shown == (if own && e.Settle? then Some(e.data) else s.shown)
            && t.cache == (if own && e.Settle? then s.cache[key := e.data] else s.cache)
            && t.loading == (s.loading && !own)
  {
  }

  // A key that the cache does not hold is fetched under a new number, a cached one is not.
  lemma LoadFetches<G(!new)>(s: State<G>, key: string)
    requires Safe(s)
    ensures var t := Apply(s, Load(key));
            if key in s.cache then t.flying == s.flying
            else exists id: nat :: id !in s.flying && t.flying == s.flying[id := key]
  {
    assert s.next !in s.flying;
  }

  // After a clear, until the next load, the store is as empty as at first, whatever the
  // fetches still under way return.
  lemma {:induction false} ClearedStays<G(!new)>(s: State<G>, es: seq<Event<G>>)
    requires Possible(Apply(s, Clear), es) && OnlyEndings(es)
    ensures var t := After(Apply(s, Clear), es);
            t.cache == map[] && t.shown == None && !t.loading && t.current == None
    decreases |es|
  {
    if es != [] {
      ClearedStays(s, es[..|es| - 1]);
    }
  }

  // ---------------------------------------------------------------------------

  class Store<G(!new)> {
    var dagCache: map<string, G>
    var dagData: Option<G>
    var dagLoading: bool
    var currentKey: Option<string>
    ghost var flying: map<nat, string>
    ghost var next: nat
    ghost var delivered: seq<(string, G)>

    ghost function Now(): State<G>
      reads this
    {
      State(dagCache, dagData, dagLoading, currentKey, flying, next, delivered)
    }

    constructor ()
      ensures Now() == Initial() && Safe(Now())
    {
      dagCache, dagData, dagLoading, currentKey := map[], None, false, None;
      flying, next, delivered := map[], 0, [];
    }

    // Up to the await.
    method LoadDag(key: string) returns (fetching: bool)
      requires Safe(Now())
      modifies this
      ensures Now() == Apply(old(Now()), Load(key)) && Safe(Now())
      ensures fetching <==> key !in old(dagCache)
    {
      StepSafe(Now(), Load(key));
      fetching := key !in dagCache;
      if !fetching {
        currentKey, dagData, dagLoading := Some(key), Some(dagCache[key]), false;
        return;
      }
      currentKey, dagData, dagLoading := Some(key), None, true;
      flying, next := flying[next := key], next + 1;
    }

    // Behind the await, when the fetch returned.
    method Settled(key: string, data: G, ghost id: nat)
      requires Safe(Now()) && id in flying && flying[id] == key
      modifies this
      ensures Now() == Apply(old(Now()), Settle(id, data)) && Safe(Now())
    {
      StepSafe(Now(), Settle(id, data));
      flying, delivered := flying - {id}, delivered + [(key, data)];
      if currentKey != Some(key) {
        return;
      }
      dagCache, dagData, dagLoading := dagCache[key := data], Some(data), false;
    }

    // Behind the await, when the fetch failed.
    method Failed(key: string, ghost id: nat)
      requires Safe(Now()) && id in flying && flying[id] == key
      modifies this
      ensures Now() == Apply(old(Now()), Fail(id)) && Safe(Now())
    {
      StepSafe(Now(), Fail(id));
      flying := flying - {id};
      if currentKey != Some(key) {
        return;
      }
      dagLoading := false;
    }

    method ClearDagCache()
      requires Safe(Now())
      modifies this
      ensures Now() == Apply(old(Now()), Clear) && Safe(Now())
    {
      StepSafe(Now(), Clear);
      dagCache, dagData, dagLoading, currentKey := map[], None, false, None;
    }
  }
}
