/** A cache with room keeps what is live and what was just written. */
module CacheRoom {
  import opened Wrappers
  import opened VxidCaches
  import opened Linking

  lemma LiveSurvives<V>(c: Cache<V>, k: Vxid, now: Time)
    requires VxidCaches.Valid(c) && Live(c, k, now)
    ensures k in DropExpired(c, now).items && DropExpired(c, now).items[k] == c.items[k]
  {
    hide DropExpired, Distinct;
    DropExpiredSuffix(c, now);
    DropExpiredItems(c, now);
    DropExpiredValid(c, now);
    var i :| 0 <= i < |c.order| && c.order[i] == k;
    var n := |c.order| - |DropExpired(c, now).order|;
    assert i >= n;
    assert DropExpired(c, now).order[i - n] == k;
  }

  lemma PutRoom<V>(c: Cache<V>, w: Write<V>, k: Vxid)
    requires VxidCaches.Valid(c) && |c.order| < c.capacity
    ensures |Put(c, w).order| <= |c.order| + 1
    ensures k == w.vxid ==> k in Put(c, w).items && Put(c, w).items[k] == Entry(w.value, w.at)
    ensures k != w.vxid && Live(c, k, w.at) ==> k in Put(c, w).items && Put(c, w).items[k] == c.items[k]
  {
    hide DropExpired, VxidCaches.Valid;
    DropExpiredShrinks(c, w.at);
    if k != w.vxid && Live(c, k, w.at) { LiveSurvives(c, k, w.at); }
  }

  lemma DropExpiredShrinks<V>(c: Cache<V>, now: Time)
    requires VxidCaches.Valid(c)
    ensures |DropExpired(c, now).order| <= |c.order| && DropExpired(c, now).capacity == c.capacity
  {
    DropExpiredSuffix(c, now);
    DropExpiredValid(c, now);
  }

  /** All writes of one call bear the same time. */
  ghost predicate AllAt<V>(log: seq<Write<V>>, t: Time) { forall i :: 0 <= i < |log| ==> log[i].at == t }

  lemma {:induction false} OrderGrows<V>(c: Cache<V>, log: seq<Write<V>>)
    requires VxidCaches.Valid(c) && |c.order| + |log| <= c.capacity
    ensures |PutAll(c, log).order| <= |c.order| + |log|
  {
    hide Put, VxidCaches.Valid;
    if log != [] {
      var init, w := log[..|log| - 1], log[|log| - 1];
      OrderGrows(c, init);
      PutAllValid(c, init);
      PutRoom(PutAll(c, init), w, w.vxid);
    }
  }

  lemma {:induction false} WrittenEntry<V>(c: Cache<V>, log: seq<Write<V>>, t: Time, k: Vxid)
    requires VxidCaches.Valid(c) && 0 <= c.ttl && AllAt(log, t) && |c.order| + |log| <= c.capacity
    ensures Latest(log, k).Some? ==>
      k in PutAll(c, log).items && PutAll(c, log).items[k] == Entry(Latest(log, k).value.value, t)
  {
    hide Put, VxidCaches.Valid;
    if log != [] {
      var init, w := log[..|log| - 1], log[|log| - 1];
      WrittenEntry(c, init, t, k);
      OrderGrows(c, init);
      PutAllValid(c, init);
      PutRoom(PutAll(c, init), w, k);
    }
  }

  lemma {:induction false} OtherEntry<V>(c: Cache<V>, log: seq<Write<V>>, k: Vxid)
    requires Latest(log, k).None?
    ensures k in PutAll(c, log).items ==> k in c.items && PutAll(c, log).items[k] == c.items[k]
  {
    hide DropExpired;
    if log != [] {
      var init, w := log[..|log| - 1], log[|log| - 1];
      assert Latest(init, k).None? && w.vxid != k;
      OtherEntry(c, init, k);
      DropExpiredItems(PutAll(c, init), w.at);
    }
  }

  /** With room in the cache, a lookup soon after one call's writes sees the last of them. */
  lemma LookupWritten<V>(c: Cache<V>, log: seq<Write<V>>, t: Time, k: Vxid, now: Time)
    requires VxidCaches.Valid(c) && AllAt(log, t) && |c.order| + |log| <= c.capacity
    requires t <= now <= t + c.ttl && Latest(log, k).Some?
    ensures Lookup(PutAll(c, log), k, now) == Some(Latest(log, k).value.value)
  {
    WrittenEntry(c, log, t, k);
    PutAllValid(c, log);
  }

  lemma LookupOther<V>(c: Cache<V>, log: seq<Write<V>>, k: Vxid, now: Time)
    requires VxidCaches.Valid(c) && Latest(log, k).None?
    ensures Lookup(PutAll(c, log), k, now).Some? ==> Lookup(PutAll(c, log), k, now) == Lookup(c, k, now)
  {
    OtherEntry(c, log, k);
    PutAllValid(c, log);
  }

  /** With room, a live entry that is not written again stays as it is. */
  lemma {:induction false} KeptEntry<V>(c: Cache<V>, log: seq<Write<V>>, t: Time, k: Vxid)
    requires VxidCaches.Valid(c) && AllAt(log, t) && |c.order| + |log| <= c.capacity
    requires Latest(log, k).None? && Live(c, k, t)
    ensures k in PutAll(c, log).items && PutAll(c, log).items[k] == c.items[k]
  {
    hide Put, VxidCaches.Valid;
    if log != [] {
      var init, w := log[..|log| - 1], log[|log| - 1];
      assert Latest(init, k).None?;
      KeptEntry(c, init, t, k);
      OrderGrows(c, init);
      PutAllValid(c, init);
      PutRoom(PutAll(c, init), w, k);
    }
  }

  /** With room, what a lookup sees after one call's writes: the last of them, else what was there. */
  lemma LookupAfter<V>(c: Cache<V>, log: seq<Write<V>>, t: Time, k: Vxid, now: Time)
    requires VxidCaches.Valid(c) && AllAt(log, t) && |c.order| + |log| <= c.capacity
    requires t <= now <= t + c.ttl
    ensures Lookup(PutAll(c, log), k, now)
         == match Latest(log, k) case Some(w) => Some(w.value) case None => Lookup(c, k, now)
    ensures |PutAll(c, log).order| <= |c.order| + |log|
  {
    hide PutAll, VxidCaches.Valid, AllAt;
    OrderGrows(c, log);
    PutAllValid(c, log);
    if Latest(log, k).Some? {
      LookupWritten(c, log, t, k, now);
    } else if Live(c, k, now) {
      KeptEntry(c, log, t, k);
    } else {
      LookupOther(c, log, k, now);
    }
  }
}
