/**
 The bounded, TTL-expiring cache of `internal/tracer/spans/linker.go`: a map for lookup
 plus a FIFO ring of keys. `Cache` is the abstract value, `VxidCache` the object that
 updates it in place, and lookups are specified against the log of every `set` made so far.
 */
module VxidCaches {
  import opened Wrappers

  datatype Entry<V> = Entry(value: V, insertedAt: Time)

  datatype Cache<V> = Cache(capacity: int, ttl: Duration, items: map<Vxid, Entry<V>>, order: seq<Vxid>)

  /** One call of `set`. */
  datatype Write<V> = Write(vxid: Vxid, value: V, at: Time)

  function Empty<V>(capacity: int, ttl: Duration): Cache<V> {
    Cache(capacity, ttl, map[], [])
  }

  /** Ring and map hold the same keys, without repetition, within the capacity. */
  ghost predicate Valid<V>(c: Cache<V>) {
    && Distinct(c.order)
    && (forall k :: k in c.order <==> k in c.items)
    && |c.order| <= Max(c.capacity, 0)
  }

  function Max(a: int, b: int): int { if a < b then b else a }

  /** The entry for `k` is present and not older than the ttl. */
  predicate Live<V>(c: Cache<V>, k: Vxid, now: Time) {
    k in c.items && now - c.items[k].insertedAt <= c.ttl
  }

  function Lookup<V>(c: Cache<V>, k: Vxid, now: Time): (r: Option<V>)
  {
    if Live(c, k, now) then Some(c.items[k].value) else None
  }

  function DropOldest<V>(c: Cache<V>): Cache<V>
    requires c.order != []
  {
    c.(items := c.items - {c.order[0]}, order := c.order[1..])
  }

  /** Removal of expired entries from the front of the ring, up to the first survivor. */
  function DropExpired<V>(c: Cache<V>, now: Time): Cache<V>
    decreases |c.order|
  {
    if c.order == [] || Live(c, c.order[0], now) then c else DropExpired(DropOldest(c), now)
  }

  function Insert<V>(c: Cache<V>, w: Write<V>): Cache<V> {
    c.(order := if w.vxid in c.items then c.order else c.order + [w.vxid],
       items := c.items[w.vxid := Entry(w.value, w.at)])
  }

  function Trim<V>(c: Cache<V>): Cache<V> {
    if |c.order| > c.capacity && c.order != [] then DropOldest(c) else c
  }

  function Put<V>(c: Cache<V>, w: Write<V>): Cache<V> {
    Trim(Insert(DropExpired(c, w.at), w))
  }

  /** The cache after a log of writes, oldest first. */
  function PutAll<V>(c: Cache<V>, log: seq<Write<V>>): Cache<V> {
    if log == [] then c else Put(PutAll(c, log[..|log| - 1]), log[|log| - 1])
  }

  // ----- the object -----

  class VxidCache<V> {
    const capacity: int
    const ttl: Duration
    var items: map<Vxid, Entry<V>>
    var order: seq<Vxid>

    ghost function Model(): Cache<V>
      reads this
    {
      Cache(capacity, ttl, items, order)
    }

    constructor (capacity: int, ttl: Duration)
      ensures Model() == Empty(capacity, ttl)
    {
      this.capacity := capacity;
      this.ttl := ttl;
      items := map[];
      order := [];
    }

    method Set(vxid: Vxid, value: V, now: Time)
      requires Valid(Model())
      modifies this
      ensures Model() == Put(old(Model()), Write(vxid, value, now))
      ensures Valid(Model())
    {
      while |order| > 0
        invariant DropExpired(Model(), now) == DropExpired(old(Model()), now)
        invariant Valid(Model())
        decreases |order|
      {
        var oldest := order[0];
        if oldest in items && now - items[oldest].insertedAt <= ttl {
          break;
        }
        DropOldestValid(Model());
        items := items - {oldest};
        order := order[1..];
      }
      assert Model() == DropExpired(old(Model()), now);
      PutValid(old(Model()), Write(vxid, value, now));
      if vxid !in items {
        order := order + [vxid];
      }
      items := items[vxid := Entry(value, now)];
      if |order| > capacity {
        assert order != [];
        var evict := order[0];
        order := order[1..];
        items := items - {evict};
      }
    }

    method Get(vxid: Vxid, now: Time) returns (r: Option<V>)
      ensures r == Lookup(Model(), vxid, now)
    {
      if vxid !in items || now - items[vxid].insertedAt > ttl {
        r := None;
      } else {
        r := Some(items[vxid].value);
      }
    }
  }

  // ----- the ring invariant -----

  lemma DropOldestValid<V>(c: Cache<V>)
    requires Valid(c) && c.order != []
    ensures Valid(DropOldest(c))
  {
    var d := DropOldest(c);
    forall k ensures k in d.order <==> k in d.items {
      if k in c.order {
        var i :| 0 <= i < |c.order| && c.order[i] == k;
        if i > 0 { assert d.order[i - 1] == k; }
      }
    }
  }

  lemma {:induction false} DropExpiredValid<V>(c: Cache<V>, now: Time)
    requires Valid(c)
    ensures Valid(DropExpired(c, now))
    ensures DropExpired(c, now).capacity == c.capacity && DropExpired(c, now).ttl == c.ttl
    decreases |c.order|
  {
    if c.order == [] || Live(c, c.order[0], now) {
    } else {
      DropOldestValid(c);
      DropExpiredValid(DropOldest(c), now);
    }
  }

  /** Ring and map stay the same duplicate-free set of keys, never above capacity. */
  lemma PutValid<V>(c: Cache<V>, w: Write<V>)
    requires Valid(c)
    ensures Valid(Put(c, w))
    ensures Put(c, w).capacity == c.capacity && Put(c, w).ttl == c.ttl
  {
    DropExpiredValid(c, w.at);
    var d := DropExpired(c, w.at);
    var e := Insert(d, w);
    assert Distinct(e.order);
    forall k ensures k in e.order <==> k in e.items {
      if k == w.vxid && w.vxid !in d.items { assert e.order[|d.order|] == k; }
    }
    if |e.order| > e.capacity && e.order != [] {
      var wide := e.(capacity := |e.order|);
      DropOldestValid(wide);
      assert DropOldest(e) == DropOldest(wide).(capacity := e.capacity);
    }
  }

  lemma LiveAfterDrop<V>(c: Cache<V>, k: Vxid, now: Time)
    requires c.order != [] && k != c.order[0]
    ensures Live(DropOldest(c), k, now) == Live(c, k, now)
  {
  }

  lemma {:induction false} DropExpiredItems<V>(c: Cache<V>, now: Time)
    ensures var d := DropExpired(c, now);
      forall k :: k in d.items ==> k in c.items && d.items[k] == c.items[k]
    decreases |c.order|
  {
    if c.order == [] || Live(c, c.order[0], now) {
    } else {
      DropExpiredItems(DropOldest(c), now);
    }
  }

  /** What front removal does: a prefix of the ring goes, each of its keys expired. */
  lemma {:induction false} DropExpiredSuffix<V>(c: Cache<V>, now: Time)
    requires Distinct(c.order)
    ensures var d := DropExpired(c, now);
      var n := |c.order| - |d.order|;
      && 0 <= n <= |c.order| && d.order == c.order[n..]
      && (forall i :: 0 <= i < n ==> !Live(c, c.order[i], now))
    decreases |c.order|
  {
    if c.order == [] || Live(c, c.order[0], now) {
    } else {
      var r := DropOldest(c);
      DropExpiredSuffix(r, now);
      var n := |r.order| - |DropExpired(r, now).order|;
      forall i | 0 <= i < n + 1 ensures !Live(c, c.order[i], now) {
        if i > 0 {
          assert r.order[i - 1] == c.order[i];
          LiveAfterDrop(c, c.order[i], now);
        }
      }
      assert DropExpired(c, now).order == c.order[n + 1..];
    }
  }

  // ----- lookups against the log of writes -----

  /** The most recent write of `k`. */
  function Latest<V>(log: seq<Write<V>>, k: Vxid): (r: Option<Write<V>>)
    ensures r.None? <==> forall i :: 0 <= i < |log| ==> log[i].vxid != k
    ensures r.Some? ==> r.value in log && r.value.vxid == k
  {
    if log == [] then None
    else if log[|log| - 1].vxid == k then Some(log[|log| - 1])
    else Latest(log[..|log| - 1], k)
  }

  /** Every cached entry is the latest write of its key. */
  ghost predicate Faithful<V>(c: Cache<V>, log: seq<Write<V>>) {
    forall k :: k in c.items ==>
      Latest(log, k).Some? && c.items[k] == Entry(Latest(log, k).value.value, Latest(log, k).value.at)
  }

  lemma PutFaithful<V>(c: Cache<V>, log: seq<Write<V>>, w: Write<V>)
    requires Valid(c) && Faithful(c, log)
    ensures Faithful(Put(c, w), log + [w])
  {
    DropExpiredItems(c, w.at);
    var d := DropExpired(c, w.at);
    assert (log + [w])[..|log|] == log;
    forall k | k in Put(c, w).items
      ensures Latest(log + [w], k).Some?
           && Put(c, w).items[k] == Entry(Latest(log + [w], k).value.value, Latest(log + [w], k).value.at)
    {
      assert k in Insert(d, w).items;
      if k != w.vxid { assert k in d.items; }
    }
  }

  lemma EmptyFaithful<V>(capacity: int, ttl: Duration)
    ensures Valid(Empty<V>(capacity, ttl)) && Faithful(Empty<V>(capacity, ttl), [])
  {
  }

  lemma {:induction false} PutAllFaithful<V>(capacity: int, ttl: Duration, log: seq<Write<V>>)
    ensures var c := PutAll(Empty<V>(capacity, ttl), log);
      Valid(c) && Faithful(c, log) && c.capacity == capacity && c.ttl == ttl
  {
    hide Valid, Faithful, Put;
    EmptyFaithful<V>(capacity, ttl);
    if log != [] {
      var init, w := log[..|log| - 1], log[|log| - 1];
      PutAllFaithful(capacity, ttl, init);
      var c := PutAll(Empty<V>(capacity, ttl), init);
      PutValid(c, w);
      PutFaithful(c, init, w);
      assert init + [w] == log;
    }
  }

  /**
   Whatever the log (keys written again, clock going backwards), a lookup that succeeds
   returns the value of the latest write of its key, and that write is within the ttl.
   */
  lemma LookupIsLatestWrite<V>(capacity: int, ttl: Duration, log: seq<Write<V>>, k: Vxid, now: Time)
    ensures var r := Lookup(PutAll(Empty<V>(capacity, ttl), log), k, now);
      r.Some? ==>
        Latest(log, k).Some? && r.value == Latest(log, k).value.value && now - Latest(log, k).value.at <= ttl
  {
    PutAllFaithful(capacity, ttl, log);
  }

  ghost predicate OnceSet<V>(log: seq<Write<V>>) {
    forall i, j :: 0 <= i < j < |log| ==> log[i].vxid != log[j].vxid
  }

  ghost predicate Monotone<V>(log: seq<Write<V>>) {
    forall i, j :: 0 <= i < j < |log| ==> log[i].at <= log[j].at
  }

  lemma {:induction false} LatestOnce<V>(log: seq<Write<V>>, i: nat)
    requires OnceSet(log) && i < |log|
    ensures Latest(log, log[i].vxid) == Some(log[i])
  {
    if i < |log| - 1 {
      LatestOnce(log[..|log| - 1], i);
      assert log[..|log| - 1][i] == log[i];
      assert log[i].vxid != log[|log| - 1].vxid;
    }
  }

  /**
   The ring lists, in order, the keys of the last writes; every write it no longer lists
   was either pushed out by `capacity` later ones or had expired at some later write.
   */
  ghost predicate Windowed<V>(c: Cache<V>, log: seq<Write<V>>) {
    ListsLast(c, log) && ForgetsRightly(c, log, |log| - |c.order|)
  }

  ghost predicate ListsLast<V>(c: Cache<V>, log: seq<Write<V>>) {
    && |c.order| <= |log|
    && forall i :: |log| - |c.order| <= i < |log| ==> c.order[i - (|log| - |c.order|)] == log[i].vxid
  }

  ghost predicate ForgetsRightly<V>(c: Cache<V>, log: seq<Write<V>>, j: int) {
    forall i :: 0 <= i < j && i < |log| ==> i < |log| - c.capacity || log[|log| - 1].at - log[i].at > c.ttl
  }

  lemma ListedEntry<V>(c: Cache<V>, log: seq<Write<V>>, i: nat)
    requires Valid(c) && Faithful(c, log) && Windowed(c, log) && OnceSet(log)
    requires |log| - |c.order| <= i < |log|
    ensures log[i].vxid in c.items && c.items[log[i].vxid] == Entry(log[i].value, log[i].at)
  {
    assert c.order[i - (|log| - |c.order|)] == log[i].vxid;
    LatestOnce(log, i);
  }

  lemma DroppedAreExpired<V>(c: Cache<V>, log: seq<Write<V>>, w: Write<V>, i: nat)
    requires Valid(c) && Faithful(c, log) && Windowed(c, log) && OnceSet(log) && Monotone(log + [w])
    requires i < |log| - |DropExpired(c, w.at).order|
    ensures i < |log| + 1 - c.capacity || w.at - log[i].at > c.ttl
  {
    var j := |log| - |c.order|;
    DropExpiredSuffix(c, w.at);
    if i < j {
      assert (log + [w])[|log| - 1].at <= (log + [w])[|log|].at;
    } else {
      ListedEntry(c, log, i);
      assert c.order[i - j] == log[i].vxid;
    }
  }

  lemma TrimWindowed<V>(e: Cache<V>, log: seq<Write<V>>)
    requires ListsLast(e, log) && ForgetsRightly(e, log, |log| - |e.order|)
    requires |e.order| <= Max(e.capacity, 0) + 1
    ensures Windowed(Trim(e), log)
  {
  }

  lemma InsertListsLast<V>(c: Cache<V>, log: seq<Write<V>>, d: Cache<V>, w: Write<V>)
    requires ListsLast(c, log)
    requires |d.order| <= |c.order| && d.order == c.order[|c.order| - |d.order|..]
    requires w.vxid !in d.items
    ensures ListsLast(Insert(d, w), log + [w])
  {
    var e, all := Insert(d, w), log + [w];
    forall i | |all| - |e.order| <= i < |log|
      ensures e.order[i - (|all| - |e.order|)] == all[i].vxid
    {
      assert c.order[i - (|log| - |c.order|)] == log[i].vxid;
    }
  }

  lemma PutForgetsRightly<V>(c: Cache<V>, log: seq<Write<V>>, w: Write<V>)
    requires Valid(c) && Faithful(c, log) && Windowed(c, log) && OnceSet(log) && Monotone(log + [w])
    ensures ForgetsRightly(c, log + [w], |log| - |DropExpired(c, w.at).order|)
  {
    forall i | 0 <= i < |log| - |DropExpired(c, w.at).order|
      ensures i < |log| + 1 - c.capacity || w.at - log[i].at > c.ttl
    {
      DroppedAreExpired(c, log, w, i);
    }
  }

  lemma PutWindowed<V>(c: Cache<V>, log: seq<Write<V>>, w: Write<V>)
    requires Valid(c) && Faithful(c, log) && Windowed(c, log)
    requires OnceSet(log) && Latest(log, w.vxid).None? && Monotone(log + [w])
    ensures Windowed(Put(c, w), log + [w])
  {
    DropExpiredSuffix(c, w.at);
    DropExpiredItems(c, w.at);
    var d := DropExpired(c, w.at);
    assert w.vxid !in d.items;
    PutForgetsRightly(c, log, w);
    InsertListsLast(c, log, d, w);
    DropExpiredValid(c, w.at);
    TrimWindowed(Insert(d, w), log + [w]);
  }

  lemma {:induction false} PutAllWindowed<V>(capacity: int, ttl: Duration, log: seq<Write<V>>)
    requires OnceSet(log) && Monotone(log)
    ensures Windowed(PutAll(Empty<V>(capacity, ttl), log), log)
  {
    hide Valid, Faithful, Put;
    if log != [] {
      var init, w := log[..|log| - 1], log[|log| - 1];
      PutAllWindowed(capacity, ttl, init);
      PutAllFaithful(capacity, ttl, init);
      assert init + [w] == log;
      assert Latest(init, w.vxid).None? by {
        forall i | 0 <= i < |init| ensures init[i].vxid != w.vxid { assert log[i].vxid != log[|init|].vxid; }
      }
      PutWindowed(PutAll(Empty<V>(capacity, ttl), init), init, w);
    }
  }

  /** Position `i` of the log is one of its last `capacity` writes, of key `k`, not older than the ttl. */
  ghost predicate Remembered<V>(log: seq<Write<V>>, capacity: int, ttl: Duration, k: Vxid, now: Time, i: int) {
    0 <= i < |log| && |log| - capacity <= i && log[i].vxid == k && now - log[i].at <= ttl
  }

  /**
   With keys written once and a clock that does not go back, map and ring together answer
   exactly the plain question: is `k` among the last `capacity` writes and within the ttl?
   */
  lemma CacheRefinesLog<V>(capacity: int, ttl: Duration, log: seq<Write<V>>, k: Vxid, now: Time)
    requires OnceSet(log) && Monotone(log)
    requires log != [] ==> log[|log| - 1].at <= now
    ensures var r := Lookup(PutAll(Empty<V>(capacity, ttl), log), k, now);
      && (r.Some? <==> exists i :: Remembered(log, capacity, ttl, k, now, i))
      && (forall i :: Remembered(log, capacity, ttl, k, now, i) ==> r == Some(log[i].value))
  {
    var c := PutAll(Empty<V>(capacity, ttl), log);
    PutAllFaithful(capacity, ttl, log);
    PutAllWindowed(capacity, ttl, log);
    forall i | Remembered(log, capacity, ttl, k, now, i) ensures Lookup(c, k, now) == Some(log[i].value) {
      ListedEntry(c, log, i);
    }
    if Lookup(c, k, now).Some? {
      var a := ListedAt(c, log, k);
      ListedEntry(c, log, a);
      assert Remembered(log, capacity, ttl, k, now, a);
    }
  }

  lemma ListedAt<V>(c: Cache<V>, log: seq<Write<V>>, k: Vxid) returns (a: nat)
    requires Valid(c) && Windowed(c, log) && k in c.items
    ensures |log| - |c.order| <= a < |log| && log[a].vxid == k && |log| - c.capacity <= a
  {
    var i :| 0 <= i < |c.order| && c.order[i] == k;
    a := |log| - |c.order| + i;
  }
}
