/** The in-process cache: entries with an expiry, a bound on their number, and one load in flight
    per key however many callers ask for it.

    `log` remembers every settled load. The clock is a parameter of the steps that read it. */
module TtlCache {
  import opened Prelude

  datatype Entry<V> = Entry(value: V, expires: int)

  datatype Settled<V> = Settled(id: nat, key: string, value: V, at: int)

  /** `order` is the insertion order of `entries`, as a JavaScript Map keeps it; `flights` are the
      loads whose promise has not run its `finally` yet. */
  datatype Cache<V> = Cache(
    order: seq<string>, entries: map<string, Entry<V>>, loading: map<string, nat>,
    flights: map<nat, string>, nextLoad: nat, log: seq<Settled<V>>)

  function Empty<V>(): Cache<V> { Cache([], map[], map[], map[], 0, []) }

  datatype Lookup<V> = Hit(value: V) | Join(id: nat) | Load(id: nat)

  datatype Action<V> =
    | Get(key: string, now: int)
    | Settle(id: nat, value: V, now: int)
    | Finally(id: nat)
    | Delete(key: string)
    | Clear

  /** What `get` answers: a live entry, the load already in flight, or a new load. */
  function LookupOf<V>(c: Cache<V>, key: string, now: int): Lookup<V> {
    if key in c.entries && c.entries[key].expires > now then Hit(c.entries[key].value)
    else if key in c.loading then Join(c.loading[key])
    else Load(c.nextLoad)
  }

  /** The keys of `order` whose entries have not expired. */
  function Live<V>(order: seq<string>, entries: map<string, Entry<V>>, now: int): seq<string> {
    if order == [] then []
    else if order[0] in entries && entries[order[0]].expires > now then [order[0]] + Live(order[1..], entries, now)
    else Live(order[1..], entries, now)
  }

  function Without(order: seq<string>, key: string): seq<string> {
    if order == [] then [] else if order[0] == key then Without(order[1..], key) else [order[0]] + Without(order[1..], key)
  }

  /** `set`: make room when full, first the expired entries and then the oldest, and store. */
  function Put<V>(order: seq<string>, entries: map<string, Entry<V>>, key: string, entry: Entry<V>, now: int, maxEntries: nat): (seq<string>, map<string, Entry<V>>)
  {
    var room := MakeRoom(order, entries, now, maxEntries);
    (if key in room.1 then room.0 else room.0 + [key], room.1[key := entry])
  }

  function MakeRoom<V>(order: seq<string>, entries: map<string, Entry<V>>, now: int, maxEntries: nat): (seq<string>, map<string, Entry<V>>)
  {
    if |entries| < maxEntries then (order, entries)
    else
      var live := Live(order, entries, now);
      var kept := Kept(entries, now);
      if |kept| < maxEntries || live == [] then (live, kept) else (live[1..], kept - {live[0]})
  }

  ghost predicate NoRepeats(s: seq<string>) { s == [] || (s[0] !in s[1..] && NoRepeats(s[1..])) }

  ghost predicate OrderOk<V>(order: seq<string>, entries: map<string, Entry<V>>) {
    NoRepeats(order) && forall k :: k in order <==> k in entries
  }

  predicate Enabled<V>(c: Cache<V>, a: Action<V>) {
    match a
    case Settle(id, _, _) => id in c.flights && !Logged(c.log, id)
    case Finally(id) => id in c.flights
    case _ => true
  }

  predicate Logged<V>(log: seq<Settled<V>>, id: nat) { exists i :: 0 <= i < |log| && log[i].id == id }

  function Step<V>(c: Cache<V>, a: Action<V>, ttl: int, maxEntries: nat): Cache<V>
  {
    if !Enabled(c, a) then c else
    match a
    case Get(key, now) =>
      var l := LookupOf(c, key, now);
      if l.Load? then c.(loading := c.loading[key := l.id], flights := c.flights[l.id := key], nextLoad := l.id + 1) else c
    case Settle(id, value, now) =>
      var put := Put(c.order, c.entries, c.flights[id], Entry(value, now + ttl), now, maxEntries);
      c.(order := put.0, entries := put.1, log := c.log + [Settled(id, c.flights[id], value, now)])
    case Finally(id) => c.(loading := c.loading - {c.flights[id]}, flights := c.flights - {id})
    case Delete(key) => c.(order := Without(c.order, key), entries := c.entries - {key})
    case Clear => c.(order := [], entries := map[])
  }

  // ------------------------------------------------------------ the invariant

  /** The pending promise of a key is the one load in flight for it. */
  ghost predicate SingleFlight<V>(c: Cache<V>) {
    && (forall k :: k in c.loading ==> c.loading[k] in c.flights && c.flights[c.loading[k]] == k)
    && (forall id :: id in c.flights ==> id < c.nextLoad && c.flights[id] in c.loading && c.loading[c.flights[id]] == id)
  }

  /** Every entry is the value of a settled load and expires `ttl` after that load settled. */
  ghost predicate Sourced<V(!new)>(c: Cache<V>, ttl: int) {
    forall k :: k in c.entries ==> exists s :: s in c.log && s.key == k && s.value == c.entries[k].value && c.entries[k].expires == s.at + ttl
  }

  ghost predicate Valid<V(!new)>(c: Cache<V>, ttl: int, maxEntries: nat) {
    EntriesOk(c.order, c.entries, maxEntries) && SingleFlight(c) && Sourced(c, ttl)
  }

  lemma {:induction false} LiveHolds<V>(order: seq<string>, entries: map<string, Entry<V>>, now: int)
    ensures forall k :: k in Live(order, entries, now) <==> k in order && k in entries && entries[k].expires > now
    ensures NoRepeats(order) ==> NoRepeats(Live(order, entries, now))
    decreases |order|
  {
    if order != [] {
      var rest := Live(order[1..], entries, now);
      LiveHolds(order[1..], entries, now);
      assert order == [order[0]] + order[1..];
      assert ([order[0]] + rest)[1..] == rest;
    }
  }

  lemma {:induction false} WithoutHolds(order: seq<string>, key: string)
    ensures forall k :: k in Without(order, key) <==> k in order && k != key
    ensures NoRepeats(order) ==> NoRepeats(Without(order, key))
    decreases |order|
  {
    if order != [] {
      var rest := Without(order[1..], key);
      WithoutHolds(order[1..], key);
      assert order == [order[0]] + order[1..];
      assert ([order[0]] + rest)[1..] == rest;
    }
  }

  lemma {:induction false} AppendNoRepeats(order: seq<string>, key: string)
    requires NoRepeats(order) && key !in order
    ensures NoRepeats(order + [key])
    decreases |order|
  {
    if order != [] {
      AppendNoRepeats(order[1..], key);
      assert (order + [key])[1..] == order[1..] + [key];
    }
  }

  function Kept<V>(entries: map<string, Entry<V>>, now: int): map<string, Entry<V>> {
    map k | k in entries && entries[k].expires > now :: entries[k]
  }

  lemma KeptOrder<V>(order: seq<string>, entries: map<string, Entry<V>>, now: int)
    requires OrderOk(order, entries)
    ensures OrderOk(Live(order, entries, now), Kept(entries, now))
  {
    LiveHolds(order, entries, now);
  }

  lemma DropFirstOrder<V>(order: seq<string>, entries: map<string, Entry<V>>)
    requires OrderOk(order, entries) && order != []
    ensures OrderOk(order[1..], entries - {order[0]})
  {
    assert order == [order[0]] + order[1..];
  }

  lemma MakeRoomKeepsOrder<V>(order: seq<string>, entries: map<string, Entry<V>>, now: int, maxEntries: nat)
    requires OrderOk(order, entries)
    ensures var (o, e) := MakeRoom(order, entries, now, maxEntries);
      && OrderOk(o, e) && e.Keys <= entries.Keys && (forall k :: k in e ==> e[k] == entries[k])
  {
    assert forall k :: k in order ==> k in entries;
    hide OrderOk, Live;
    KeptOrder(order, entries, now);
    var live := Live(order, entries, now);
    if live != [] { DropFirstOrder(live, Kept(entries, now)); }
  }

  lemma PutKeepsOrder<V>(order: seq<string>, entries: map<string, Entry<V>>, key: string, entry: Entry<V>, now: int, maxEntries: nat)
    requires OrderOk(order, entries)
    ensures var (o, e) := Put(order, entries, key, entry, now, maxEntries); OrderOk(o, e)
    ensures maxEntries >= 1 && |entries| <= maxEntries ==> |Put(order, entries, key, entry, now, maxEntries).1| <= maxEntries
  {
    var (o, e) := MakeRoom(order, entries, now, maxEntries);
    MakeRoomKeepsOrder(order, entries, now, maxEntries);
    if key !in e { AppendNoRepeats(o, key); }
    if maxEntries >= 1 && |entries| <= maxEntries {
      MakeRoomFrees(order, entries, now, maxEntries);
      assert e[key := entry].Keys == e.Keys + {key};
    }
  }

  /** Making room leaves a place free, and drops a live entry only when every entry is live: the
      oldest one. */
  lemma {:induction false} MakeRoomFrees<V>(order: seq<string>, entries: map<string, Entry<V>>, now: int, maxEntries: nat)
    requires OrderOk(order, entries) && maxEntries >= 1 && |entries| <= maxEntries
    ensures var (o, e) := MakeRoom(order, entries, now, maxEntries);
      && |e| < maxEntries
      && (forall k :: k in entries && entries[k].expires > now && k !in e ==>
            |entries| == maxEntries && order[0] == k && forall j :: j in entries ==> entries[j].expires > now)
  {
    var live := Live(order, entries, now);
    var kept := Kept(entries, now);
    assert kept.Keys <= entries.Keys;
    SubsetSize(kept.Keys, entries.Keys);
    if |entries| == maxEntries && |kept| == maxEntries {
      assert kept.Keys == entries.Keys;
      AllLive(order, entries, now);
      assert entries.Keys != {};
      var k :| k in entries;
      assert k in order;
    }
  }

  lemma SubsetSize(a: set<string>, b: set<string>)
    requires a <= b
    ensures |a| <= |b| && (|a| == |b| ==> a == b)
  {
    assert b == a + (b - a);
  }

  lemma {:induction false} AllLive<V>(order: seq<string>, entries: map<string, Entry<V>>, now: int)
    requires forall k :: k in order ==> k in entries && entries[k].expires > now
    ensures Live(order, entries, now) == order
    decreases |order|
  {
    if order != [] { AllLive(order[1..], entries, now); }
  }

  ghost predicate EntriesOk<V>(order: seq<string>, entries: map<string, Entry<V>>, maxEntries: nat) {
    OrderOk(order, entries) && (maxEntries >= 1 ==> |entries| <= maxEntries)
  }

  lemma DeleteKeepsEntriesOk<V>(order: seq<string>, entries: map<string, Entry<V>>, key: string, maxEntries: nat)
    requires EntriesOk(order, entries, maxEntries)
    ensures EntriesOk(Without(order, key), entries - {key}, maxEntries)
  {
    WithoutHolds(order, key);
    SubsetSize((entries - {key}).Keys, entries.Keys);
  }

  lemma StepKeepsEntriesOk<V(!new)>(c: Cache<V>, a: Action<V>, ttl: int, maxEntries: nat)
    requires EntriesOk(c.order, c.entries, maxEntries)
    ensures var c' := Step(c, a, ttl, maxEntries); EntriesOk(c'.order, c'.entries, maxEntries)
  {
    if Enabled(c, a) {
      match a
      case Settle(id, value, now) => PutKeepsOrder(c.order, c.entries, c.flights[id], Entry(value, now + ttl), now, maxEntries);
      case Delete(key) => DeleteKeepsEntriesOk(c.order, c.entries, key, maxEntries);
      case _ =>
    }
  }

  lemma StepKeepsSourced<V(!new)>(c: Cache<V>, a: Action<V>, ttl: int, maxEntries: nat)
    requires Valid(c, ttl, maxEntries)
    ensures Sourced(Step(c, a, ttl, maxEntries), ttl)
  {
    var c' := Step(c, a, ttl, maxEntries);
    if Enabled(c, a) && a.Settle? {
      MakeRoomKeepsOrder(c.order, c.entries, a.now, maxEntries);
      assert c'.log[|c.log|] == Settled(a.id, c.flights[a.id], a.value, a.now);
    }
    forall k | k in c'.entries
      ensures exists s :: s in c'.log && s.key == k && s.value == c'.entries[k].value && c'.entries[k].expires == s.at + ttl
    {
      if k in c.entries && c'.entries[k] == c.entries[k] {
        var s :| s in c.log && s.key == k && s.value == c.entries[k].value && c.entries[k].expires == s.at + ttl;
        assert s in c'.log;
      } else {
        assert Settled(a.id, c.flights[a.id], a.value, a.now) in c'.log;
      }
    }
  }

  lemma StepKeepsSingleFlight<V>(c: Cache<V>, a: Action<V>, ttl: int, maxEntries: nat)
    requires OrderOk(c.order, c.entries) && SingleFlight(c)
    ensures SingleFlight(Step(c, a, ttl, maxEntries))
  {
  }

  lemma StepKeepsValid<V(!new)>(c: Cache<V>, a: Action<V>, ttl: int, maxEntries: nat)
    requires Valid(c, ttl, maxEntries)
    ensures Valid(Step(c, a, ttl, maxEntries), ttl, maxEntries)
  {
    StepKeepsEntriesOk(c, a, ttl, maxEntries);
    StepKeepsSourced(c, a, ttl, maxEntries);
    StepKeepsSingleFlight(c, a, ttl, maxEntries);
  }

  /** What these steps make of an empty cache. */
  function RunAll<V>(actions: seq<Action<V>>, ttl: int, maxEntries: nat): Cache<V>
    decreases |actions|
  {
    if actions == [] then Empty()
    else Step(RunAll(actions[..|actions| - 1], ttl, maxEntries), actions[|actions| - 1], ttl, maxEntries)
  }

  lemma {:induction false} ReachableIsValid<V(!new)>(actions: seq<Action<V>>, ttl: int, maxEntries: nat)
    ensures Valid(RunAll(actions, ttl, maxEntries), ttl, maxEntries)
    decreases |actions|
  {
    if actions != [] {
      var init := actions[..|actions| - 1];
      ReachableIsValid(init, ttl, maxEntries);
      StepKeepsValid(RunAll(init, ttl, maxEntries), actions[|actions| - 1], ttl, maxEntries);
    }
  }

  // ------------------------------------------------------------ theorems about every run

  /** In every reachable state a key has at most one load in flight, and a cache with room for at
      least one entry never holds more than its bound. */
  lemma {:induction false} OneLoadPerKeyAndBounded<V(!new)>(actions: seq<Action<V>>, ttl: int, maxEntries: nat)
    ensures var c := RunAll(actions, ttl, maxEntries);
      && (forall i, j :: i in c.flights && j in c.flights && c.flights[i] == c.flights[j] ==> i == j)
      && (maxEntries >= 1 ==> |c.entries| <= maxEntries)
  {
    var c := RunAll(actions, ttl, maxEntries);
    ReachableIsValid(actions, ttl, maxEntries);
    forall i, j | i in c.flights && j in c.flights && c.flights[i] == c.flights[j] ensures i == j {
      assert c.loading[c.flights[i]] == i;
    }
  }

  /** With a bound of 0 the first settled load already exceeds it. */
  lemma {:induction false} NoRoomOverflows<V(!new)>(c: Cache<V>, id: nat, value: V, now: int, ttl: int)
    requires Valid(c, ttl, 0) && Enabled(c, Settle(id, value, now))
    ensures |Step(c, Settle(id, value, now), ttl, 0).entries| > 0
  {
    assert c.flights[id] in Step(c, Settle(id, value, now), ttl, 0).entries;
  }

  /** A hit is the value of a load of that key which settled less than `ttl` ago. */
  lemma {:induction false} HitIsFresh<V(!new)>(actions: seq<Action<V>>, ttl: int, maxEntries: nat, key: string, now: int)
    requires LookupOf(RunAll(actions, ttl, maxEntries), key, now).Hit?
    ensures var c := RunAll(actions, ttl, maxEntries);
      exists s :: s in c.log && s.key == key && s.value == LookupOf(c, key, now).value && now < s.at + ttl
  {
    ReachableIsValid(actions, ttl, maxEntries);
  }

  /** A load that fails runs only its `finally`: the entries stay, and the next caller loads again. */
  lemma {:induction false} FailedLoadLeavesEntries<V(!new)>(c: Cache<V>, id: nat, now: int, ttl: int, maxEntries: nat)
    requires Valid(c, ttl, maxEntries) && id in c.flights
    ensures var c', key := Step(c, Action<V>.Finally(id), ttl, maxEntries), c.flights[id];
      && c'.order == c.order && c'.entries == c.entries && c'.log == c.log
      && (LookupOf(c, key, now).Join? ==> LookupOf(c, key, now) == Join(id) && LookupOf(c', key, now).Load?)
  {
  }

  /** Storing the value and logging the load is the whole of the settling step. */
  lemma SettleStores<V(!new)>(c: Cache<V>, c': Cache<V>, id: nat, value: V, now: int, ttl: int, maxEntries: nat)
    requires Valid(c, ttl, maxEntries) && Enabled(c, Settle(id, value, now))
    requires (c'.order, c'.entries) == Put(c.order, c.entries, c.flights[id], Entry(value, now + ttl), now, maxEntries)
    requires c' == Cache(c'.order, c'.entries, c.loading, c.flights, c.nextLoad, c.log + [Settled(id, c.flights[id], value, now)])
    ensures c' == Step(c, Settle(id, value, now), ttl, maxEntries) && Valid(c', ttl, maxEntries)
  {
    StepKeepsValid(c, Settle(id, value, now), ttl, maxEntries);
  }

  /** What is left of the entries when the loop that deletes the expired ones still has `rest` to visit. */
  ghost predicate Sweeping<V>(entries: map<string, Entry<V>>, before: map<string, Entry<V>>, rest: seq<string>, now: int) {
    && NoRepeats(rest) && (forall k :: k in rest ==> k in before)
    && (forall k :: k in entries <==> k in before && (before[k].expires > now || k in rest))
    && (forall k :: k in entries ==> entries[k] == before[k])
  }

  lemma SweepOne<V>(entries: map<string, Entry<V>>, before: map<string, Entry<V>>, key: string, rest: seq<string>, now: int)
    requires Sweeping(entries, before, [key] + rest, now)
    ensures key in entries && entries[key] == before[key] && key !in rest
    ensures Sweeping(if entries[key].expires <= now then entries - {key} else entries, before, rest, now)
    ensures Live([key] + rest, before, now) == (if entries[key].expires > now then [key] else []) + Live(rest, before, now)
  {
    assert ([key] + rest)[1..] == rest;
  }

  lemma KeptHolds<V>(entries: map<string, Entry<V>>, now: int)
    ensures var kept := Kept(entries, now);
      && (forall k :: k in kept <==> k in entries && entries[k].expires > now)
      && forall k :: k in kept ==> kept[k] == entries[k]
  {
  }

  lemma SweepEnds<V>(order: seq<string>, entries: map<string, Entry<V>>, before: map<string, Entry<V>>, now: int)
    requires OrderOk(order, before)
    ensures Sweeping(before, before, order, now)
    ensures Sweeping(entries, before, [], now) ==> entries == Kept(before, now)
    ensures Live([], before, now) == []
  {
  }

  /** What storing a value leaves: the value, fresh, and of the others all that were there when there was
      room, those still alive when something had expired, and all but the oldest insertion when nothing
      had. A key that stays keeps its place in the order, a new one goes last. */
  ghost predicate StoredIn<V>(order: seq<string>, entries: map<string, Entry<V>>, order': seq<string>, entries': map<string, Entry<V>>,
                              key: string, value: V, now: int, ttl: int, maxEntries: nat) {
    && key in entries' && entries'[key] == Entry(value, now + ttl)
    && (forall k :: k in entries' && k != key ==> k in entries && entries'[k] == entries[k])
    && (if |entries| < maxEntries then
          && (forall k :: k in entries ==> k in entries')
          && order' == (if key in entries then order else order + [key])
        else if exists k :: k in entries && entries[k].expires <= now then
          forall k :: k in entries && k != key ==> (k in entries' <==> entries[k].expires > now)
        else
          && order != [] && (forall k :: k in entries && k != key ==> (k in entries' <==> k != order[0]))
          && order' == (if key in order[1..] then order[1..] else order[1..] + [key]))
  }

  lemma {:induction false} PutStores<V>(order: seq<string>, entries: map<string, Entry<V>>, key: string, value: V, now: int, ttl: int, maxEntries: nat)
    requires EntriesOk(order, entries, maxEntries) && maxEntries >= 1
    ensures var (o, e) := Put(order, entries, key, Entry(value, now + ttl), now, maxEntries);
      StoredIn(order, entries, o, e, key, value, now, ttl, maxEntries)
  {
    MakeRoomKeepsOrder(order, entries, now, maxEntries);
    if |entries| >= maxEntries {
      var kept := Kept(entries, now);
      SubsetSize(kept.Keys, entries.Keys);
      if k :| k in entries && entries[k].expires <= now {
        assert k !in kept.Keys;
      } else {
        assert kept == entries;
        AllLive(order, entries, now);
        assert entries.Keys != {};
        var k :| k in entries;
        assert k in order;
        assert order == [order[0]] + order[1..];
      }
    }
  }

  // ------------------------------------------------------------ the class

  class TtlCache<V(!new)> {
    const ttlMs: int
    const maxEntries: nat
    var order: seq<string>
    var entries: map<string, Entry<V>>
    var loading: map<string, nat>
    var flights: map<nat, string>
    var nextLoad: nat
    ghost var log: seq<Settled<V>>

    ghost function Model(): Cache<V>
      reads this
    {
      Cache(order, entries, loading, flights, nextLoad, log)
    }

    ghost predicate Ok()
      reads this
    {
      Valid(Model(), ttlMs, maxEntries)
    }

    constructor (ttlMs: int, maxEntries: nat)
      ensures Ok() && Model() == Empty() && this.ttlMs == ttlMs && this.maxEntries == maxEntries
    {
      this.ttlMs, this.maxEntries := ttlMs, maxEntries;
      order, entries, loading, flights, nextLoad, log := [], map[], map[], map[], 0, [];
    }

    /** The part of `get` that runs before it waits. */
    method BeginGet(key: string, now: int) returns (l: Lookup<V>)
      requires Ok()
      modifies this
      ensures Ok() && Model() == Step(old(Model()), Get(key, now), ttlMs, maxEntries)
      ensures l == LookupOf(old(Model()), key, now)
      ensures entries == old(entries) && order == old(order) && log == old(log)
      ensures l.Hit? <==> key in entries && entries[key].expires > now
      ensures l.Hit? ==> l.value == entries[key].value
      ensures l.Join? <==> !l.Hit? && key in old(loading)
      ensures !l.Hit? ==> key in loading && loading[key] == l.id && l.id in flights && flights[l.id] == key
      ensures !l.Load? ==> loading == old(loading) && flights == old(flights)
      ensures l.Load? ==> l.id !in old(flights) && flights == old(flights)[l.id := key] && loading == old(loading)[key := l.id]
    {
      StepKeepsValid(Model(), Get(key, now), ttlMs, maxEntries);
      if key in entries && entries[key].expires > now { return Hit(entries[key].value); }
      if key in loading { return Join(loading[key]); }
      var id := nextLoad;
      nextLoad := nextLoad + 1;
      flights := flights[id := key];
      loading := loading[key := id];
      l := Load(id);
    }

    /** The `then` of a load: store its value. */
    method LoadSettles(id: nat, value: V, now: int)
      requires Ok() && id in flights && !Logged(log, id)
      modifies this
      ensures Ok() && Model() == Step(old(Model()), Settle(id, value, now), ttlMs, maxEntries)
      ensures maxEntries >= 1 ==> StoredIn(old(order), old(entries), order, entries, flights[id], value, now, ttlMs, maxEntries)
      ensures flights == old(flights) && loading == old(loading) && log == old(log) + [Settled(id, flights[id], value, now)]
    {
      if maxEntries >= 1 { PutStores(order, entries, flights[id], value, now, ttlMs, maxEntries); }
      hide StoredIn;
      ghost var before := Model();
      assert OrderOk(order, entries) && Enabled(before, Settle(id, value, now));
      hide Step, Put, Valid, OrderOk, Enabled, Logged;
      Set(flights[id], value, now);
      log := log + [Settled(id, flights[id], value, now)];
      SettleStores(before, Model(), id, value, now, ttlMs, maxEntries);
    }

    /** The `finally` of a load, whether it settled or failed. */
    method LoadEnds(id: nat)
      requires Ok() && id in flights
      modifies this
      ensures Ok() && Model() == Step(old(Model()), Finally(id), ttlMs, maxEntries)
      ensures entries == old(entries) && order == old(order) && flights == old(flights) - {id}
      ensures old(flights)[id] !in loading && forall k :: k != old(flights)[id] ==> (k in loading <==> k in old(loading))
    {
      StepKeepsValid(Model(), Finally(id), ttlMs, maxEntries);
      loading := loading - {flights[id]};
      flights := flights - {id};
    }

    method Remove(key: string)
      requires Ok()
      modifies this
      ensures Ok() && Model() == Step(old(Model()), Delete(key), ttlMs, maxEntries)
      ensures entries == old(entries) - {key} && flights == old(flights) && loading == old(loading) && log == old(log)
    {
      StepKeepsValid(Model(), Delete(key), ttlMs, maxEntries);
      order := Without(order, key);
      entries := entries - {key};
    }

    method Clear()
      requires Ok()
      modifies this
      ensures Ok() && Model() == Step(old(Model()), Action<V>.Clear, ttlMs, maxEntries)
      ensures entries == map[] && flights == old(flights) && loading == old(loading) && log == old(log)
    {
      StepKeepsValid(Model(), Action<V>.Clear, ttlMs, maxEntries);
      order, entries := [], map[];
    }

    /** `set`: when full, first the expired entries go, then the oldest one. */
    method Set(key: string, value: V, now: int)
      requires OrderOk(order, entries)
      modifies this`order, this`entries
      ensures var put := Put(old(order), old(entries), key, Entry(value, now + ttlMs), now, maxEntries);
        order == put.0 && entries == put.1
      ensures maxEntries >= 1 && |old(entries)| <= maxEntries ==>
        StoredIn(old(order), old(entries), order, entries, key, value, now, ttlMs, maxEntries)
    {
      if maxEntries >= 1 && |entries| <= maxEntries { PutStores(order, entries, key, value, now, ttlMs, maxEntries); }
      hide StoredIn;
      ghost var order0, entries0 := order, entries;
      if |entries| >= maxEntries {
        DropExpired(now);
        if |entries| >= maxEntries && order != [] {
          entries := entries - {order[0]};
          order := order[1..];
        }
      }
      assert order == MakeRoom(order0, entries0, now, maxEntries).0 && entries == MakeRoom(order0, entries0, now, maxEntries).1;
      if key !in entries { order := order + [key]; }
      entries := entries[key := Entry(value, now + ttlMs)];
    }

    /** The loop over the entries that deletes the expired ones. */
    method DropExpired(now: int)
      requires OrderOk(order, entries)
      modifies this`order, this`entries
      ensures order == Live(old(order), old(entries), now)
      ensures entries == Kept(old(entries), now)
      ensures forall k :: k in entries <==> k in old(entries) && old(entries)[k].expires > now
      ensures forall k :: k in entries ==> entries[k] == old(entries)[k]
    {
      KeptHolds(entries, now);
      var all := order;
      ghost var entries0 := entries;
      assert forall k :: k in all ==> k in entries0;
      SweepEnds(all, entries, entries0, now);
      hide Sweeping, Live, OrderOk, Kept;
      order := [];
      assert all[0..] == all;
      for i := 0 to |all|
        invariant forall k :: k in all[i..] ==> k in entries0
        invariant Sweeping(entries, entries0, all[i..], now)
        invariant order + Live(all[i..], entries0, now) == Live(all, entries0, now)
      {
        var k := all[i];
        ghost var rest := all[i + 1..];
        assert all[i..] == [k] + rest;
        SweepOne(entries, entries0, k, rest, now);
        ghost var live := Live(rest, entries0, now);
        if entries[k].expires <= now {
          entries := entries - {k};
          assert order + ([] + live) == order + live;
        } else {
          assert order + ([k] + live) == (order + [k]) + live;
          order := order + [k];
        }
      }
      assert all[|all|..] == [];
      SweepEnds(all, entries, entries0, now);
    }
  }
}
