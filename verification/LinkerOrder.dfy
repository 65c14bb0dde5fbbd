/**
 The order of two calls does not show: a group that fetched and a group that waited for it may
 be processed either way round, and the same groups leave, settled the same way.
 */
module LinkerOrder {
  import opened Wrappers
  import opened Spans
  import opened VxidCaches
  import opened CacheRoom
  import opened Linking
  import opened LinkerLot
  import opened LinkerLinks
  import opened LinkerRestarts

  // ----- the fetches of a group -----

  /** The last fetch of `k` in a group. */
  function FetchOf(spans: seq<Span>, k: Vxid): Option<FetchInfo> {
    if spans == [] then None
    else
      var s := spans[|spans| - 1];
      if s.kind.Fetch? && s.vxid == k then Some(InfoOf(s)) else FetchOf(spans[..|spans| - 1], k)
  }

  ghost predicate Fetched(spans: seq<Span>, k: Vxid) {
    exists i :: 0 <= i < |spans| && spans[i].kind.Fetch? && spans[i].vxid == k
  }

  lemma {:induction false} FetchedHasFetch(spans: seq<Span>, k: Vxid)
    ensures FetchOf(spans, k).Some? <==> Fetched(spans, k)
  {
    if spans != [] {
      var init, s := spans[..|spans| - 1], spans[|spans| - 1];
      FetchedHasFetch(init, k);
      if i :| 0 <= i < |init| && init[i].kind.Fetch? && init[i].vxid == k { assert spans[i] == init[i]; }
      if i :| 0 <= i < |spans| && spans[i].kind.Fetch? && spans[i].vxid == k && i != |init| {
        assert init[i] == spans[i];
      }
    }
  }

  /** What a call at time `t` writes for `k`: its last fetch of it, stamped. */
  lemma {:induction false} WritesOf(spans: seq<Span>, t: Time, k: Vxid)
    ensures AllAt(FetchWrites(spans, t), t) && |FetchWrites(spans, t)| == |Fetches(spans)|
    ensures Latest(FetchWrites(spans, t), k)
         == match FetchOf(spans, k) case None => None case Some(f) => Some(Write(k, f, t))
  {
    if spans != [] {
      var init, s := spans[..|spans| - 1], spans[|spans| - 1];
      WritesOf(init, t, k);
      if s.kind.Fetch? {
        assert FetchWrites(spans, t)[..|FetchWrites(init, t)|] == FetchWrites(init, t);
      }
    }
  }

  ghost predicate SameNodes(a: seq<Span>, b: seq<Span>) {
    |a| == |b| && forall i :: 0 <= i < |a| ==> a[i].kind == b[i].kind && a[i].vxid == b[i].vxid
  }

  lemma {:induction false} SameNodesFetch(a: seq<Span>, b: seq<Span>)
    requires SameNodes(a, b)
    ensures |Fetches(a)| == |Fetches(b)| && forall k :: Fetched(a, k) <==> Fetched(b, k)
  {
    if a != [] {
      var n := |a| - 1;
      SameNodesFetch(a[..n], b[..n]);
    }
  }

  /** Stitching a group onto its original does not change what it fetches. */
  lemma GroupFetches(st: State, e: Event)
    ensures |Fetches(Group(st, e))| == |Fetches(e.built)|
    ensures forall k :: FetchOf(Group(st, e), k).Some? <==> Fetched(e.built, k)
  {
    hide Lookup, Fetches;
    var g := Group(st, e);
    assert SameNodes(g, e.built);
    SameNodesFetch(g, e.built);
    forall k ensures FetchOf(g, k).Some? <==> Fetched(g, k) { FetchedHasFetch(g, k); }
  }

  // ----- two calls -----

  /** The same call at another time. */
  function At(e: Event, t: Time): Event { e.(now := t) }

  /** The call's group waits for a fetch that neither it nor the cache holds. */
  ghost predicate MustWait(st: State, e: Event, t: Time) {
    && e.facts.waiter && e.facts.hit.Some?
    && !Fetched(e.built, e.facts.hit.value) && Lookup(st.fetches, e.facts.hit.value, t).None?
  }

  /**
   Two calls at `t1` and `t2`, in either order: they fetch different numbers, cache and lot have
   room for both, and neither the lot nor the caches reach an age limit between the two.
   */
  ghost predicate Race(st: State, a: Event, b: Event, t0: Time, t1: Time, t2: Time) {
    && a.built != [] && b.built != []
    && Sound(st) && LotInvariant(st, t0) && t0 <= t1 <= t2
    && t2 - t1 <= st.ageLimit && t2 - t1 <= st.fetches.ttl
    && (forall p :: p in st.parked && !Overstayed(st, t1, p) ==> !Overstayed(st, t2, p))
    && |st.fetches.order| + |Fetches(a.built)| + |Fetches(b.built)| <= st.fetches.capacity
    && |st.parked| + (if MustWait(st, a, t1) then 1 else 0) + (if MustWait(st, b, t1) then 1 else 0) <= st.maxParked
    && (forall k :: !(Fetched(a.built, k) && Fetched(b.built, k)))
  }

  /** The entry is no longer live, or stays live and is not pushed out by `n` writes. */
  ghost predicate Steady<V>(c: Cache<V>, k: Vxid, n: nat, t1: Time, t2: Time) {
    !Live(c, k, t1) || (Live(c, k, t2) && |c.order| + n <= c.capacity)
  }

  /** A continuation's original is not announced by the other call, and is known or unknown throughout. */
  ghost predicate SteadyOriginal(st: State, e: Event, other: Event, t1: Time, t2: Time) {
    e.facts.continuation ==>
      !Announces(other, e.facts.vxid) && Steady(st.restarts, e.facts.vxid, |other.facts.restarts|, t1, t2)
  }

  /** A hit on the other call's fetch is that of a waiter; a hit on neither's is cached or not throughout. */
  ghost predicate SteadyHit(st: State, e: Event, other: Event, t1: Time, t2: Time) {
    match e.facts.hit
    case None => true
    case Some(u) =>
      if Fetched(e.built, u) then true
      else if Fetched(other.built, u) then e.facts.waiter && !Live(st.fetches, u, t1)
      else Live(st.fetches, u, t2) || !Live(st.fetches, u, t1)
  }

  ghost predicate Independent(st: State, a: Event, b: Event, t0: Time, t1: Time, t2: Time) {
    && Race(st, a, b, t0, t1, t2)
    && SteadyOriginal(st, a, b, t1, t2) && SteadyOriginal(st, b, a, t1, t2)
    && SteadyHit(st, a, b, t1, t2) && SteadyHit(st, b, a, t1, t2)
  }

  // ----- what each call finds -----

  /** A call builds the same group before the other call as after it. */
  lemma GroupUnaffected(st: State, e: Event, other: Event, t1: Time, t2: Time)
    requires Sound(st) && SteadyOriginal(st, e, other, t1, t2) && t1 <= t2
    ensures Group(StepState(st, At(other, t1)), At(e, t2)) == Group(st, At(e, t1))
  {
    hide StepState, PutAll, StepRestarts, VxidCaches.Valid, Announces, Stitch;
    if e.facts.continuation {
      var x, o := e.facts.vxid, At(other, t1);
      StepRestartCache(st, o);
      LatestOfStep(st, o, x);
      assert !Announces(o, x) by { AnnouncesAt(other, t1, x); }
      var log := StepRestarts(st, o);
      RestartsStamped(st, o);
      if Live(st.restarts, x, t1) {
        KeptEntry(st.restarts, log, t1, x);
        PutAllValid(st.restarts, log);
      } else {
        LookupOther(st.restarts, log, x, t2);
      }
    }
  }

  lemma AnnouncesAt(e: Event, t: Time, x: Vxid)
    ensures Announces(At(e, t), x) == Announces(e, x)
  {
  }

  lemma RestartsStamped(st: State, e: Event)
    ensures AllAt(StepRestarts(st, e), e.now) && |StepRestarts(st, e)| <= |e.facts.restarts|
  {
    hide Group;
  }

  /** What each number leads to once both calls have been made. */
  type Finder = Vxid -> Option<FetchInfo>

  ghost predicate Finds(found: Finder, c: Cache<FetchInfo>, ga: seq<Span>, gb: seq<Span>, t: Time) {
    forall k :: found(k) ==
      if FetchOf(ga, k).Some? then FetchOf(ga, k) else if FetchOf(gb, k).Some? then FetchOf(gb, k) else Lookup(c, k, t)
  }

  function Filled(c: Cache<FetchInfo>, g: seq<Span>, t: Time): Cache<FetchInfo> { PutAll(c, FetchWrites(g, t)) }

  /** A lookup during the first call, and during the second. */
  lemma TwoLookups(c: Cache<FetchInfo>, gx: seq<Span>, gy: seq<Span>, t1: Time, t2: Time, k: Vxid)
    requires VxidCaches.Valid(c) && t1 <= t2 <= t1 + c.ttl
    requires |c.order| + |Fetches(gx)| + |Fetches(gy)| <= c.capacity
    ensures var c1 := Filled(c, gx, t1);
      && Lookup(c1, k, t1) == (if FetchOf(gx, k).Some? then FetchOf(gx, k) else Lookup(c, k, t1))
      && Lookup(Filled(c1, gy, t2), k, t2)
           == if FetchOf(gy, k).Some? then FetchOf(gy, k)
              else if FetchOf(gx, k).Some? then FetchOf(gx, k)
              else Lookup(c, k, t2)
  {
    hide PutAll, FetchWrites, VxidCaches.Valid, AllAt, Lookup, Fetches, Latest, FetchOf;
    var c1 := Filled(c, gx, t1);
    WritesOf(gx, t1, k);
    WritesOf(gy, t2, k);
    PutAllValid(c, FetchWrites(gx, t1));
    LookupAfter(c, FetchWrites(gx, t1), t1, k, t1);
    LookupAfter(c, FetchWrites(gx, t1), t1, k, t2);
    LookupAfter(c1, FetchWrites(gy, t2), t2, k, t2);
  }

  /** One call, when the lot has room for its group should it be parked. */
  lemma OneCall(st: State, e: Event, g: seq<Span>)
    requires e.built != [] && g == Group(st, e)
    requires var c := Filled(st.fetches, g, e.now);
      FateOf(st.(fetches := c), e).Parks? ==>
        |Select(ResolvableAt(c, e.now), AfterAging(st, e.now).parked, false)| < st.maxParked
    ensures var c, lot := Filled(st.fetches, g, e.now), AfterAging(st, e.now).parked;
      var fate := FateOf(st.(fetches := c), e);
      && StepReleases(st, e) == AgedReleases(st, e.now)
           + Map(LinkedFromLotAt(c, e.now), Select(ResolvableAt(c, e.now), lot, true)) + LeavesNow(fate, e, g)
      && StepState(st, e).parked == Select(ResolvableAt(c, e.now), lot, false) + ParksNow(fate, e, g)
      && StepState(st, e).fetches == c
      && StepState(st, e).ageLimit == st.ageLimit && StepState(st, e).maxParked == st.maxParked
  {
    hide PutAll, FetchWrites, Select, AgedReleases, RestartWrites, Group, Lookup;
    var c, lot := Filled(st.fetches, g, e.now), AfterAging(st, e.now).parked;
    var kept := Select(ResolvableAt(c, e.now), lot, false);
    assert kept[0..] == kept && kept + [] == kept;
  }

  function LeavesNow(fate: Fate, e: Event, g: seq<Span>): seq<Release> {
    match fate
    case Leaves(how) => [Release(Job(e.facts.hit, g, e.now), how, false)]
    case Parks => []
  }

  function ParksNow(fate: Fate, e: Event, g: seq<Span>): seq<ParkedSet> {
    if fate.Parks? then [ParkedSet(if e.facts.hit.Some? then e.facts.hit.value else 0, g, e.now)] else []
  }

  // ----- settled, whenever that was -----

  /** A release without its arrival and without whether it had been parked. */
  function Timeless(r: Release): Release { r.(job := r.job.(at := 0), fromLot := false) }

  function TimelessSet(p: ParkedSet): ParkedSet { p.(arrivedAt := 0) }

  function FateIn(found: Finder, e: Event): Fate {
    match e.facts.hit
    case None => Leaves(AsIs)
    case Some(v) =>
      match found(v)
      case Some(fetch) => Leaves(Linked(fetch))
      case None => if e.facts.waiter then Parks else Leaves(Degraded)
  }

  function Leaving(found: Finder, e: Event, g: seq<Span>): seq<Release> { LeavesNow(FateIn(found, e), At(e, 0), g) }

  function Staying(found: Finder, e: Event, g: seq<Span>): seq<ParkedSet> { ParksNow(FateIn(found, e), At(e, 0), g) }

  function FoundIn(found: Finder): ParkedSet -> bool { (p: ParkedSet) => found(p.vxid).Some? }

  function LinkedIn(found: Finder): ParkedSet -> Release {
    (p: ParkedSet) =>
      Release(Job(Some(p.vxid), p.spans, 0), match found(p.vxid) case Some(f) => Linked(f) case None => AsIs, false)
  }

  // ----- the lot -----

  lemma {:induction false} SelectAppend<T>(f: T -> bool, a: seq<T>, b: seq<T>, keep: bool)
    ensures Select(f, a + b, keep) == Select(f, a, keep) + Select(f, b, keep)
    decreases |b|
  {
    if b == [] {
      assert a + b == a;
    } else {
      var init := b[..|b| - 1];
      assert (a + b)[..|a + b| - 1] == a + init;
      SelectAppend(f, a, init, keep);
    }
  }

  /** Whom a call with cache `c` at time `t` lets go, without the time, and whom it keeps. */
  function LetGo(c: Cache<FetchInfo>, t: Time, lot: seq<ParkedSet>): seq<Release> {
    Map(Timeless, Map(LinkedFromLotAt(c, t), Select(ResolvableAt(c, t), lot, true)))
  }

  function KeptBack(c: Cache<FetchInfo>, t: Time, lot: seq<ParkedSet>): seq<ParkedSet> {
    Select(ResolvableAt(c, t), lot, false)
  }

  lemma LetGoAppend(c: Cache<FetchInfo>, t: Time, a: seq<ParkedSet>, b: seq<ParkedSet>)
    ensures LetGo(c, t, a + b) == LetGo(c, t, a) + LetGo(c, t, b)
    ensures KeptBack(c, t, a + b) == KeptBack(c, t, a) + KeptBack(c, t, b)
  {
    hide Select;
    SelectAppend(ResolvableAt(c, t), a, b, true);
    SelectAppend(ResolvableAt(c, t), a, b, false);
  }

  lemma LetGoOne(c: Cache<FetchInfo>, t: Time, p: ParkedSet)
    ensures LetGo(c, t, [p]) == if Resolvable(c, t, p) then [Timeless(LinkedFromLot(c, t, p))] else []
    ensures KeptBack(c, t, [p]) == if Resolvable(c, t, p) then [] else [p]
  {
    hide Resolvable, LinkedFromLot;
    SelectOne(ResolvableAt(c, t), p);
  }

  lemma SelectOne<T>(f: T -> bool, x: T)
    ensures Select(f, [x], true) == (if f(x) then [x] else []) && Select(f, [x], false) == if f(x) then [] else [x]
  {
    assert [x][..0] == [];
  }

  /** Those of the lot whose fetch is found, linked to it, and the others. */
  function FoundReleases(found: Finder, lot: seq<ParkedSet>): seq<Release> {
    Map(LinkedIn(found), Select(FoundIn(found), lot, true))
  }

  function NotFound(found: Finder, lot: seq<ParkedSet>): seq<ParkedSet> { Select(FoundIn(found), lot, false) }

  lemma FoundSnoc(found: Finder, lot: seq<ParkedSet>, p: ParkedSet)
    ensures FoundReleases(found, lot + [p])
         == FoundReleases(found, lot) + if found(p.vxid).Some? then [LinkedIn(found)(p)] else []
    ensures NotFound(found, lot + [p]) == NotFound(found, lot) + if found(p.vxid).Some? then [] else [p]
  {
    hide Select;
    SelectAppend(FoundIn(found), lot, [p], true);
    SelectAppend(FoundIn(found), lot, [p], false);
    SelectOne(FoundIn(found), p);
    MapAppend(LinkedIn(found), Select(FoundIn(found), lot, true), Select(FoundIn(found), [p], true));
    assert Map(LinkedIn(found), [p]) == [LinkedIn(found)(p)];
    assert Map(LinkedIn(found), []) == [];
  }

  /** The lot over two calls, of which the first may not see everything yet: together they let go what is found. */
  lemma {:induction false} LotInTwo(found: Finder, c1: Cache<FetchInfo>, t1: Time, c2: Cache<FetchInfo>, t2: Time,
                                    lot: seq<ParkedSet>)
    requires forall p :: p in lot ==> Lookup(c1, p.vxid, t1).None? || Lookup(c1, p.vxid, t1) == found(p.vxid)
    requires forall k :: Lookup(c2, k, t2) == found(k)
    ensures multiset(LetGo(c1, t1, lot)) + multiset(LetGo(c2, t2, KeptBack(c1, t1, lot)))
         == multiset(FoundReleases(found, lot))
    ensures KeptBack(c2, t2, KeptBack(c1, t1, lot)) == NotFound(found, lot)
  {
    hide Lookup, LetGo, KeptBack, FoundReleases, NotFound;
    if lot == [] {
      EmptyLot(found, c1, t1);
      EmptyLot(found, c2, t2);
    } else {
      var init, p := lot[..|lot| - 1], lot[|lot| - 1];
      assert lot == init + [p];
      LotInTwo(found, c1, t1, c2, t2, init);
      LetGoAppend(c1, t1, init, [p]);
      LetGoOne(c1, t1, p);
      FoundSnoc(found, init, p);
      if Resolvable(c1, t1, p) {
        assert KeptBack(c1, t1, lot) == KeptBack(c1, t1, init);
      } else {
        LetGoAppend(c2, t2, KeptBack(c1, t1, init), [p]);
        LetGoOne(c2, t2, p);
      }
    }
  }

  lemma EmptyLot(found: Finder, c: Cache<FetchInfo>, t: Time)
    ensures LetGo(c, t, []) == [] && KeptBack(c, t, []) == []
    ensures FoundReleases(found, []) == [] && NotFound(found, []) == []
  {
  }

  // ----- one order -----

  /** What the first call finds is what is found in the end, or nothing yet. */
  lemma FirstSees(st: State, x: Event, y: Event, gx: seq<Span>, gy: seq<Span>, found: Finder, t0: Time, t1: Time,
                  t2: Time)
    requires Race(st, x, y, t0, t1, t2) && SteadyHit(st, x, y, t1, t2)
    requires gx == Group(st, At(x, t1)) && gy == Group(st, At(y, t1)) && Finds(found, st.fetches, gx, gy, t2)
    ensures var c1 := Filled(st.fetches, gx, t1);
      && (forall k :: Lookup(Filled(c1, gy, t2), k, t2) == found(k))
      && (forall p :: p in st.parked ==> Lookup(c1, p.vxid, t1).None? || Lookup(c1, p.vxid, t1) == found(p.vxid))
      && (x.facts.hit.Some? ==>
            var u := x.facts.hit.value;
            Lookup(c1, u, t1) == found(u) || (Lookup(c1, u, t1).None? && x.facts.waiter))
  {
    hide Lookup, Fetched, FetchOf, Filled, Overstayed, Group, Sound, Fetches;
    var c1 := Filled(st.fetches, gx, t1);
    GroupFetches(st, At(x, t1));
    GroupFetches(st, At(y, t1));
    CachesValid(st);
    forall k ensures Lookup(Filled(c1, gy, t2), k, t2) == found(k) {
      TwoLookups(st.fetches, gx, gy, t1, t2, k);
      assert !(Fetched(x.built, k) && Fetched(y.built, k));
    }
    forall p | p in st.parked ensures Lookup(c1, p.vxid, t1).None? || Lookup(c1, p.vxid, t1) == found(p.vxid) {
      TwoLookups(st.fetches, gx, gy, t1, t2, p.vxid);
      UnresolvableAt(st, t0, t1, p);
    }
    if x.facts.hit.Some? {
      var u := x.facts.hit.value;
      TwoLookups(st.fetches, gx, gy, t1, t2, u);
      LiveLookup(st.fetches, u, t1, t2);
    }
  }

  lemma LiveLookup<V>(c: Cache<V>, k: Vxid, t1: Time, t2: Time)
    requires t1 <= t2
    ensures Live(c, k, t2) ==> Lookup(c, k, t1) == Lookup(c, k, t2)
    ensures !Live(c, k, t1) ==> Lookup(c, k, t1).None? && Lookup(c, k, t2).None?
  {
  }

  lemma UnresolvableAt(st: State, t0: Time, t1: Time, p: ParkedSet)
    requires LotInvariant(st, t0) && t0 <= t1 && p in st.parked
    ensures Lookup(st.fetches, p.vxid, t1).None?
  {
    hide ArrivalOrder;
    StaysUnresolvable(st.fetches, p, t0, t1);
  }

  /** The first call's own group over both calls: it leaves with one of them, or stays, as its hit is found. */
  lemma OwnInTwo(found: Finder, st: State, x: Event, gx: seq<Span>,
                 c1: Cache<FetchInfo>, t1: Time, c2: Cache<FetchInfo>, t2: Time)
    requires forall k :: Lookup(c2, k, t2) == found(k)
    requires x.facts.hit.Some? ==>
      var u := x.facts.hit.value;
      Lookup(c1, u, t1) == found(u) || (Lookup(c1, u, t1).None? && x.facts.waiter)
    ensures var fate, e := FateOf(st.(fetches := c1), At(x, t1)), At(x, t1);
      && Map(Timeless, LeavesNow(fate, e, gx)) + LetGo(c2, t2, ParksNow(fate, e, gx)) == Leaving(found, x, gx)
      && Map(TimelessSet, KeptBack(c2, t2, ParksNow(fate, e, gx))) == Staying(found, x, gx)
      && (fate.Parks? ==> x.facts.waiter && x.facts.hit.Some? && Lookup(c1, x.facts.hit.value, t1).None?)
  {
    hide Lookup, LetGo, KeptBack;
    var fate, e := FateOf(st.(fetches := c1), At(x, t1)), At(x, t1);
    if fate.Parks? {
      var p := ParkedSet(x.facts.hit.value, gx, t1);
      assert ParksNow(fate, e, gx) == [p];
      LetGoOne(c2, t2, p);
    } else {
      EmptyLot(found, c2, t2);
    }
  }

  /** The second call finds everything. */
  lemma LaterFate(found: Finder, st: State, y: Event, gy: seq<Span>, c2: Cache<FetchInfo>, t2: Time)
    requires forall k :: Lookup(c2, k, t2) == found(k)
    ensures var fate, e := FateOf(st.(fetches := c2), At(y, t2)), At(y, t2);
      && Map(Timeless, LeavesNow(fate, e, gy)) == Leaving(found, y, gy)
      && Map(TimelessSet, ParksNow(fate, e, gy)) == Staying(found, y, gy)
      && (fate.Parks? ==> y.facts.waiter && y.facts.hit.Some? && found(y.facts.hit.value).None?)
  {
    hide Lookup;
  }

  /** A group that is parked is one the lot was required to have room for. */
  lemma ParkedMustWait(st: State, x: Event, y: Event, gx: seq<Span>, gy: seq<Span>, found: Finder, t0: Time, t1: Time,
                       t2: Time)
    requires Independent(st, x, y, t0, t1, t2)
    requires gx == Group(st, At(x, t1)) && gy == Group(st, At(y, t1)) && Finds(found, st.fetches, gx, gy, t2)
    ensures x.facts.waiter && x.facts.hit.Some? && Lookup(Filled(st.fetches, gx, t1), x.facts.hit.value, t1).None? ==>
      MustWait(st, x, t1)
    ensures y.facts.waiter && y.facts.hit.Some? && found(y.facts.hit.value).None? ==> MustWait(st, y, t1)
  {
    hide Lookup, Fetched, FetchOf, Filled, Overstayed, Group, Sound, LotInvariant, Fetches;
    GroupFetches(st, At(x, t1));
    GroupFetches(st, At(y, t1));
    CachesValid(st);
    if x.facts.hit.Some? { TwoLookups(st.fetches, gx, gy, t1, t2, x.facts.hit.value); }
    if y.facts.hit.Some? { LiveLookup(st.fetches, y.facts.hit.value, t1, t2); }
  }

  /** Nobody ages out between the two calls. */
  lemma MidDoesNotAge(st: State, x: Event, y: Event, g: seq<Span>, t0: Time, t1: Time, t2: Time, mid: State,
                      c1: Cache<FetchInfo>, fate: Fate)
    requires Race(st, x, y, t0, t1, t2) && mid.ageLimit == st.ageLimit
    requires mid.parked == KeptBack(c1, t1, AfterAging(st, t1).parked) + ParksNow(fate, At(x, t1), g)
    ensures AgedReleases(mid, t2) == [] && AfterAging(mid, t2) == mid
  {
    hide Select, Fetched, Fetches, Sound, LotInvariant, AgedReleases, AfterAging;
    forall p | p in mid.parked ensures !Overstayed(mid, t2, p) {
      var lot := AfterAging(st, t1).parked;
      if p in KeptBack(c1, t1, lot) {
        SelectMember(ResolvableAt(c1, t1), lot, false, p);
        AgedSurvivors(st, t1, p);
      }
    }
    NoneAge(mid, t2);
  }

  lemma NoneAge(st: State, now: Time)
    requires forall p :: p in st.parked ==> !Overstayed(st, now, p)
    ensures AgedReleases(st, now) == [] && AfterAging(st, now) == st
  {
    hide Overstayed;
    SelectAll(OverstayedAt(st, now), st.parked, false);
  }

  lemma AgedSurvivors(st: State, now: Time, p: ParkedSet)
    requires p in AfterAging(st, now).parked
    ensures p in st.parked && !Overstayed(st, now, p)
  {
    SelectMember(OverstayedAt(st, now), st.parked, false, p);
  }

  lemma LotSizes(st: State, t: Time, c: Cache<FetchInfo>, u: Time, lot: seq<ParkedSet>)
    ensures |AfterAging(st, t).parked| <= |st.parked| && |KeptBack(c, u, lot)| <= |lot|
  {
    SelectKeeps(OverstayedAt(st, t), st.parked, false);
    SelectKeeps(ResolvableAt(c, u), lot, false);
  }

  /** Everything released by two calls, and the lot they leave. */
  function BothReleases(st: State, x: Event, y: Event): seq<Release> {
    StepReleases(st, x) + StepReleases(StepState(st, x), y)
  }

  function BothParked(st: State, x: Event, y: Event): seq<ParkedSet> { StepState(StepState(st, x), y).parked }

  /** The two calls one by one. */
  lemma CallByCall(st: State, x: Event, y: Event, gx: seq<Span>, gy: seq<Span>, found: Finder, t0: Time, t1: Time,
                   t2: Time)
    requires Independent(st, x, y, t0, t1, t2)
    requires gx == Group(st, At(x, t1)) && gy == Group(st, At(y, t1)) && Finds(found, st.fetches, gx, gy, t2)
    ensures var c1, lot := Filled(st.fetches, gx, t1), AfterAging(st, t1).parked;
      var c2, first := Filled(c1, gy, t2), FateOf(st.(fetches := c1), At(x, t1));
      var mid := StepState(st, At(x, t1));
      var second := FateOf(mid.(fetches := c2), At(y, t2));
      var midLot := KeptBack(c1, t1, lot) + ParksNow(first, At(x, t1), gx);
      && Map(Timeless, StepReleases(st, At(x, t1)))
           == Map(Timeless, AgedReleases(st, t1)) + LetGo(c1, t1, lot) + Map(Timeless, LeavesNow(first, At(x, t1), gx))
      && Map(Timeless, StepReleases(mid, At(y, t2)))
           == LetGo(c2, t2, midLot) + Map(Timeless, LeavesNow(second, At(y, t2), gy))
      && BothParked(st, At(x, t1), At(y, t2)) == KeptBack(c2, t2, midLot) + ParksNow(second, At(y, t2), gy)
  {
    hide Lookup, Fetched, FetchOf, Filled, Overstayed, Group, Sound, LotInvariant, Fetches, StepState, StepReleases,
         AfterAging, AgedReleases, SteadyHit, SteadyOriginal, Finds, MustWait, LeavesNow, ParksNow, FateOf, Select,
         FateIn, Leaving, Staying, Live;
    var c1, lot, ex, ey := Filled(st.fetches, gx, t1), AfterAging(st, t1).parked, At(x, t1), At(y, t2);
    var c2, first, mid := Filled(c1, gy, t2), FateOf(st.(fetches := c1), ex), StepState(st, ex);
    var second := FateOf(mid.(fetches := c2), ey);
    FirstSees(st, x, y, gx, gy, found, t0, t1, t2);
    ParkedMustWait(st, x, y, gx, gy, found, t0, t1, t2);
    OwnInTwo(found, st, x, gx, c1, t1, c2, t2);
    LaterFate(found, mid, y, gy, c2, t2);
    LotSizes(st, t1, c1, t1, lot);
    OneCall(st, ex, gx);
    GroupUnaffected(st, y, x, t1, t2);
    MidDoesNotAge(st, x, y, gx, t0, t1, t2, mid, c1, first);
    ParksAtMostOne(first, ex, gx);
    LotSizes(mid, t2, c2, t2, mid.parked);
    OneCall(mid, ey, gy);
    var go1 := Map(LinkedFromLotAt(c1, t1), Select(ResolvableAt(c1, t1), lot, true));
    MapAppend(Timeless, AgedReleases(st, t1) + go1, LeavesNow(first, ex, gx));
    MapAppend(Timeless, AgedReleases(st, t1), go1);
    var go2 := Map(LinkedFromLotAt(c2, t2), Select(ResolvableAt(c2, t2), mid.parked, true));
    assert StepReleases(mid, ey) == go2 + LeavesNow(second, ey, gy);
    MapAppend(Timeless, go2, LeavesNow(second, ey, gy));
  }

  lemma ParksAtMostOne(fate: Fate, e: Event, g: seq<Span>)
    ensures |ParksNow(fate, e, g)| == if fate.Parks? then 1 else 0
  {
  }

  /** One order: what leaves and what stays, told by what is found in the end. */
  lemma OneOrder(st: State, x: Event, y: Event, gx: seq<Span>, gy: seq<Span>, found: Finder, t0: Time, t1: Time,
                 t2: Time)
    requires Independent(st, x, y, t0, t1, t2)
    requires gx == Group(st, At(x, t1)) && gy == Group(st, At(y, t1)) && Finds(found, st.fetches, gx, gy, t2)
    ensures var lot := AfterAging(st, t1).parked;
      && multiset(Map(Timeless, BothReleases(st, At(x, t1), At(y, t2))))
           == multiset(Map(Timeless, AgedReleases(st, t1))) + multiset(FoundReleases(found, lot))
              + multiset(Leaving(found, x, gx)) + multiset(Leaving(found, y, gy))
      && Map(TimelessSet, BothParked(st, At(x, t1), At(y, t2)))
           == Map(TimelessSet, NotFound(found, lot)) + Staying(found, x, gx) + Staying(found, y, gy)
      && (Staying(found, x, gx) == [] && Staying(found, y, gy) == [] ==>
            BothParked(st, At(x, t1), At(y, t2)) == NotFound(found, lot))
  {
    hide Lookup, Filled, Independent, StepState, StepReleases, AfterAging, AgedReleases, Finds, LeavesNow, ParksNow,
         FateOf, LetGo, KeptBack, FoundReleases, NotFound, Leaving, Staying, Group, BothParked;
    var c1, lot, ex, ey := Filled(st.fetches, gx, t1), AfterAging(st, t1).parked, At(x, t1), At(y, t2);
    var c2, first, mid := Filled(c1, gy, t2), FateOf(st.(fetches := c1), ex), StepState(st, ex);
    var kept, own := KeptBack(c1, t1, lot), ParksNow(first, ex, gx);
    CallByCall(st, x, y, gx, gy, found, t0, t1, t2);
    MapAppend(Timeless, StepReleases(st, ex), StepReleases(mid, ey));
    RaceOf(st, x, y, t0, t1, t2);
    FirstSees(st, x, y, gx, gy, found, t0, t1, t2);
    LetGoAppend(c2, t2, kept, own);
    forall p | p in lot ensures Lookup(c1, p.vxid, t1).None? || Lookup(c1, p.vxid, t1) == found(p.vxid) {
      AgedSurvivors(st, t1, p);
    }
    LotInTwo(found, c1, t1, c2, t2, lot);
    OwnInTwo(found, st, x, gx, c1, t1, c2, t2);
    LaterFate(found, mid, y, gy, c2, t2);
    var stays := ParksNow(FateOf(mid.(fetches := c2), ey), ey, gy);
    MapAppend(TimelessSet, KeptBack(c2, t2, kept) + KeptBack(c2, t2, own), stays);
    MapAppend(TimelessSet, KeptBack(c2, t2, kept), KeptBack(c2, t2, own));
  }

  lemma RaceOf(st: State, x: Event, y: Event, t0: Time, t1: Time, t2: Time)
    requires Independent(st, x, y, t0, t1, t2)
    ensures Race(st, x, y, t0, t1, t2) && SteadyHit(st, x, y, t1, t2)
    ensures Independent(st, y, x, t0, t1, t2)
  {
    hide Live, Fetched, Fetches, Sound, LotInvariant, Overstayed, MustWait, SteadyHit, SteadyOriginal;
    assert forall k :: !(Fetched(y.built, k) && Fetched(x.built, k));
  }

  // ----- both orders -----

  /** The call's group waits for a fetch that neither call brings. */
  ghost predicate StillWaits(st: State, e: Event, other: Event, t1: Time) {
    MustWait(st, e, t1) && !Fetched(other.built, e.facts.hit.value)
  }

  /** Only such a group is left in the lot. */
  lemma StayingWaits(st: State, a: Event, b: Event, ga: seq<Span>, gb: seq<Span>, found: Finder, t0: Time, t1: Time,
                     t2: Time)
    requires Independent(st, a, b, t0, t1, t2)
    requires ga == Group(st, At(a, t1)) && gb == Group(st, At(b, t1)) && Finds(found, st.fetches, ga, gb, t2)
    ensures Staying(found, b, gb) != [] ==> StillWaits(st, b, a, t1)
  {
    hide Lookup, Fetched, FetchOf, Group, Independent, MustWait;
    ParkedMustWait(st, a, b, ga, gb, found, t0, t1, t2);
    GroupFetches(st, At(a, t1));
  }

  lemma EitherFinds(st: State, a: Event, b: Event, ga: seq<Span>, gb: seq<Span>, found: Finder, t0: Time, t1: Time,
                    t2: Time)
    requires Race(st, a, b, t0, t1, t2) && ga == Group(st, At(a, t1)) && gb == Group(st, At(b, t1))
    requires Finds(found, st.fetches, ga, gb, t2)
    ensures Finds(found, st.fetches, gb, ga, t2)
  {
    hide Lookup, Fetched, FetchOf, Group, Sound, LotInvariant, Fetches, MustWait, Overstayed;
    GroupFetches(st, At(a, t1));
    GroupFetches(st, At(b, t1));
    assert forall k :: !(Fetched(a.built, k) && Fetched(b.built, k));
  }

  /**
   Whichever of two independent calls comes first, the same groups leave, each settled the same
   way, and the same groups stay parked; only arrival times tell the orders apart.
   */
  lemma SameSettlement(st: State, a: Event, b: Event, t0: Time, t1: Time, t2: Time)
    requires Independent(st, a, b, t0, t1, t2)
    ensures multiset(Map(Timeless, BothReleases(st, At(a, t1), At(b, t2))))
         == multiset(Map(Timeless, BothReleases(st, At(b, t1), At(a, t2))))
    ensures multiset(Map(TimelessSet, BothParked(st, At(a, t1), At(b, t2))))
         == multiset(Map(TimelessSet, BothParked(st, At(b, t1), At(a, t2))))
    ensures !StillWaits(st, a, b, t1) && !StillWaits(st, b, a, t1) ==>
      BothParked(st, At(a, t1), At(b, t2)) == BothParked(st, At(b, t1), At(a, t2))
  {
    hide Lookup, FetchOf, Group, Independent, Race, AfterAging, AgedReleases, BothReleases, BothParked,
         FoundReleases, NotFound, Leaving, Staying, SteadyHit, StillWaits;
    var ga, gb, c := Group(st, At(a, t1)), Group(st, At(b, t1)), st.fetches;
    var found: Finder := (k: Vxid) =>
      if FetchOf(ga, k).Some? then FetchOf(ga, k)
      else if FetchOf(gb, k).Some? then FetchOf(gb, k)
      else Lookup(c, k, t2);
    RaceOf(st, a, b, t0, t1, t2);
    EitherFinds(st, a, b, ga, gb, found, t0, t1, t2);
    OneOrder(st, a, b, ga, gb, found, t0, t1, t2);
    OneOrder(st, b, a, gb, ga, found, t0, t1, t2);
    StayingWaits(st, a, b, ga, gb, found, t0, t1, t2);
    StayingWaits(st, b, a, gb, ga, found, t0, t1, t2);
  }

  /** The spans that leave are told by the settlements alone. */
  lemma EmittedTimeless(rs: seq<Release>)
    ensures EmittedAll(rs) == Flatten(Map(Emitted, Map(Timeless, rs)))
  {
    hide Flatten;
    assert Map(Emitted, rs) == Map(Emitted, Map(Timeless, rs));
  }

  /** Whichever of two independent calls comes first, the same spans are exported, with the same links and flags. */
  lemma OrderingIndependence(st: State, a: Event, b: Event, t0: Time, t1: Time, t2: Time)
    requires Independent(st, a, b, t0, t1, t2)
    ensures multiset(EmittedAll(BothReleases(st, At(a, t1), At(b, t2))))
         == multiset(EmittedAll(BothReleases(st, At(b, t1), At(a, t2))))
    ensures multiset(Map(TimelessSet, BothParked(st, At(a, t1), At(b, t2))))
         == multiset(Map(TimelessSet, BothParked(st, At(b, t1), At(a, t2))))
    ensures !StillWaits(st, a, b, t1) && !StillWaits(st, b, a, t1) ==>
      BothParked(st, At(a, t1), At(b, t2)) == BothParked(st, At(b, t1), At(a, t2))
  {
    hide Independent, BothReleases, BothParked, EmittedAll, Flatten, Emitted, StillWaits;
    SameSettlement(st, a, b, t0, t1, t2);
    var r1, r2 := BothReleases(st, At(a, t1), At(b, t2)), BothReleases(st, At(b, t1), At(a, t2));
    EmittedTimeless(r1);
    EmittedTimeless(r2);
    MapPermuted(Emitted, Map(Timeless, r1), Map(Timeless, r2));
    FlattenPermuted(Map(Emitted, Map(Timeless, r1)), Map(Emitted, Map(Timeless, r2)));
  }

  // ----- the coalescing race -----

  /** `b` waits for a fetch of `a`, and the two are otherwise independent. */
  ghost predicate Coalesces(st: State, a: Event, b: Event, v: Vxid, t0: Time, t1: Time, t2: Time) {
    Independent(st, a, b, t0, t1, t2) && Fetched(a.built, v) && b.facts.hit == Some(v)
  }

  lemma OwnRelease(st: State, e: Event, how: Disposition)
    requires e.built != [] && FateOf(st.(fetches := Filled(st.fetches, Group(st, e), e.now)), e) == Leaves(how)
    ensures Release(Job(e.facts.hit, Group(st, e), e.now), how, false) in StepReleases(st, e)
  {
    hide PutAll, FetchWrites, Select, AgedReleases, RestartWrites, Group, Lookup, ResolvedReleases;
  }

  /** What the two calls of a race find for a number fetched by the initiator only. */
  lemma RaceLookups(st: State, a: Event, b: Event, v: Vxid, t0: Time, t1: Time, t2: Time)
    requires Race(st, a, b, t0, t1, t2) && Fetched(a.built, v) && !Live(st.fetches, v, t1)
    ensures var ga, gb, c := Group(st, At(a, t1)), Group(st, At(b, t1)), st.fetches;
      && FetchOf(ga, v).Some?
      && Lookup(Filled(c, gb, t1), v, t1).None?
      && Lookup(Filled(Filled(c, ga, t1), gb, t2), v, t2) == FetchOf(ga, v)
      && Lookup(Filled(Filled(c, gb, t1), ga, t2), v, t2) == FetchOf(ga, v)
  {
    hide Fetched, FetchOf, Filled, Overstayed, Group, Sound, LotInvariant, Fetches, MustWait, Lookup;
    var ga, gb, c := Group(st, At(a, t1)), Group(st, At(b, t1)), st.fetches;
    GroupFetches(st, At(a, t1));
    GroupFetches(st, At(b, t1));
    CachesValid(st);
    assert !(Fetched(a.built, v) && Fetched(b.built, v));
    TwoLookups(c, ga, gb, t1, t2, v);
    TwoLookups(c, gb, ga, t1, t2, v);
    LiveLookup(c, v, t1, t2);
  }

  lemma CoalescesParts(st: State, a: Event, b: Event, v: Vxid, t0: Time, t1: Time, t2: Time)
    requires Coalesces(st, a, b, v, t0, t1, t2)
    ensures Race(st, a, b, t0, t1, t2) && SteadyOriginal(st, a, b, t1, t2) && SteadyOriginal(st, b, a, t1, t2)
    ensures b.facts.waiter && b.facts.hit == Some(v) && !Live(st.fetches, v, t1) && Fetched(a.built, v)
  {
    hide Live, Fetched, Fetches, Sound, LotInvariant, Overstayed, MustWait, SteadyOriginal;
    assert !(Fetched(a.built, v) && Fetched(b.built, v));
  }

  /** Initiator first: the waiter leaves with its own call, linked to the initiator's fetch. */
  lemma InitiatorFirst(st: State, a: Event, b: Event, v: Vxid, t0: Time, t1: Time, t2: Time)
    requires Coalesces(st, a, b, v, t0, t1, t2)
    ensures var ga, gb := Group(st, At(a, t1)), Group(st, At(b, t1));
      && FetchOf(ga, v).Some?
      && Release(Job(Some(v), gb, t2), Linked(FetchOf(ga, v).value), false)
           in StepReleases(StepState(st, At(a, t1)), At(b, t2))
  {
    hide Coalesces, Race, SteadyOriginal, Live, Fetched, FetchOf, Group, StepState, StepReleases, Lookup, PutAll,
         FetchWrites;
    CoalescesParts(st, a, b, v, t0, t1, t2);
    RaceLookups(st, a, b, v, t0, t1, t2);
    RaceSound(st, a, b, t0, t1, t2);
    GroupUnaffected(st, b, a, t1, t2);
    StepFetches(st, At(a, t1));
    OwnRelease(StepState(st, At(a, t1)), At(b, t2), Linked(FetchOf(Group(st, At(a, t1)), v).value));
  }

  lemma RaceSound(st: State, a: Event, b: Event, t0: Time, t1: Time, t2: Time)
    requires Race(st, a, b, t0, t1, t2)
    ensures Sound(st) && a.built != [] && b.built != [] && t1 <= t2 && t2 - t1 <= st.ageLimit
  {
  }

  /** Waiter first: it is parked by its own call and leaves with the initiator's, linked to its fetch. */
  lemma WaiterFirst(st: State, a: Event, b: Event, v: Vxid, t0: Time, t1: Time, t2: Time)
    requires Coalesces(st, a, b, v, t0, t1, t2)
    ensures var ga, gb, mid := Group(st, At(a, t1)), Group(st, At(b, t1)), StepState(st, At(b, t1));
      && FetchOf(ga, v).Some?
      && ParkedSet(v, gb, t1) in mid.parked
      && Release(Job(Some(v), gb, t1), Linked(FetchOf(ga, v).value), true) in StepReleases(mid, At(a, t2))
  {
    hide Coalesces, Race, SteadyOriginal, Live, Fetched, FetchOf, Group, StepState, StepReleases, Lookup, PutAll,
         FetchWrites, AgedReleases, AfterAging;
    var ga, gb, mid := Group(st, At(a, t1)), Group(st, At(b, t1)), StepState(st, At(b, t1));
    CoalescesParts(st, a, b, v, t0, t1, t2);
    RaceLookups(st, a, b, v, t0, t1, t2);
    RaceSound(st, a, b, t0, t1, t2);
    ParksWhenUnknown(st, At(b, t1), gb, v);
    GroupUnaffected(st, a, b, t1, t2);
    StepFetches(st, At(b, t1));
    StepFetches(mid, At(a, t2));
    StepKeepsBounds(st, At(b, t1));
    WaiterReleased(mid, At(a, t2), ParkedSet(v, gb, t1));
  }

  lemma ParksWhenUnknown(st: State, e: Event, g: seq<Span>, v: Vxid)
    requires e.built != [] && g == Group(st, e) && e.facts.waiter && e.facts.hit == Some(v)
    requires Lookup(Filled(st.fetches, g, e.now), v, e.now).None?
    ensures ParkedSet(v, g, e.now) in StepState(st, e).parked
  {
    hide PutAll, FetchWrites, Select, RestartWrites, Group, Lookup;
  }

  /** Two ordinary requests, the first without a hit, are independent whenever they race. */
  lemma OrdinaryRace(st: State, a: Event, b: Event, v: Vxid, t0: Time, t1: Time, t2: Time)
    requires Race(st, a, b, t0, t1, t2) && !a.facts.continuation && !b.facts.continuation && a.facts.hit.None?
    requires Fetched(a.built, v) && b.facts.hit == Some(v) && b.facts.waiter && !Live(st.fetches, v, t1)
    ensures Coalesces(st, a, b, v, t0, t1, t2)
  {
    hide Race, Live, Fetched;
  }

  /** Whatever a call releases was parked before or is its own group, settled by its own fate. */
  lemma ReleaseOrigin(st: State, e: Event, r: Release)
    requires r in StepReleases(st, e)
    ensures (exists p :: p in st.parked && r.job == JobOf(p))
      || (e.built != [] && r.job == Job(e.facts.hit, Group(st, e), e.now)
          && FateOf(st.(fetches := Filled(st.fetches, Group(st, e), e.now)), e) == Leaves(r.how))
  {
    hide PutAll, FetchWrites, Select, RestartWrites, Group, Lookup;
    var lot := AfterAging(st, e.now).parked;
    SelectKeeps(OverstayedAt(st, e.now), st.parked, true);
    SelectKeeps(OverstayedAt(st, e.now), st.parked, false);
    if r in AgedReleases(st, e.now) {
      var p :| p in st.parked && r == DegradedFromLot(p);
    } else if e.built != [] {
      var c := Filled(st.fetches, Group(st, e), e.now);
      SelectKeeps(ResolvableAt(c, e.now), lot, true);
      SelectKeeps(ResolvableAt(c, e.now), lot, false);
      var st2 := Recorded(AfterAging(st, e.now), e, Group(st, e));
      if r in ResolvedReleases(st2, e.now) {
        var p :| p in lot && r == LinkedFromLot(c, e.now, p);
      } else {
        var st3 := AfterResolving(st2, e.now);
        assert r in OwnReleases(st3, e, Group(st, e));
        if FateOf(st3, e).Parks? { assert st3.parked[0] in lot && r == DegradedFromLot(st3.parked[0]); }
      }
    }
  }

  /** Whoever is parked after a call was so before, or is its own group. */
  lemma ParkedOrigin(st: State, e: Event, p: ParkedSet)
    requires p in StepState(st, e).parked
    ensures p in st.parked || p.spans == Group(st, e)
  {
    hide PutAll, FetchWrites, Select, RestartWrites, Group, Lookup;
    SelectKeeps(OverstayedAt(st, e.now), st.parked, false);
    var c := Filled(st.fetches, Group(st, e), e.now);
    SelectKeeps(ResolvableAt(c, e.now), AfterAging(st, e.now).parked, false);
  }

  /** No parked group, nor `other`, has the same spans. */
  ghost predicate Singular(st: State, g: seq<Span>, other: seq<Span>) {
    g != other && forall p :: p in st.parked ==> p.spans != g
  }

  /** The group a plain hit leaves as, unlinked. */
  function Unlinked(v: Vxid, g: seq<Span>): Release { Release(Job(Some(v), g, 0), Degraded, false) }

  /**
   Only waiters are parked: for an ordinary hit on the other call's fetch the order shows. Coming
   first it leaves unlinked, coming second linked, and so the two outputs differ whenever no other
   group has the same spans.
   */
  lemma PlainHitShowsOrder(st: State, a: Event, b: Event, v: Vxid, t0: Time, t1: Time, t2: Time)
    requires Race(st, a, b, t0, t1, t2) && SteadyOriginal(st, a, b, t1, t2) && SteadyOriginal(st, b, a, t1, t2)
    requires Fetched(a.built, v) && !Live(st.fetches, v, t1) && b.facts.hit == Some(v) && !b.facts.waiter
    ensures var ga, gb := Group(st, At(a, t1)), Group(st, At(b, t1));
      && FetchOf(ga, v).Some?
      && Release(Job(Some(v), gb, t1), Degraded, false) in StepReleases(st, At(b, t1))
      && Release(Job(Some(v), gb, t2), Linked(FetchOf(ga, v).value), false)
           in StepReleases(StepState(st, At(a, t1)), At(b, t2))
    ensures Singular(st, Group(st, At(b, t1)), Group(st, At(a, t1))) ==>
      multiset(Map(Timeless, BothReleases(st, At(a, t1), At(b, t2))))
        != multiset(Map(Timeless, BothReleases(st, At(b, t1), At(a, t2))))
  {
    hide Race, SteadyOriginal, Live, Fetched, FetchOf, Group, StepState, StepReleases, Lookup, PutAll, FetchWrites;
    RaceLookups(st, a, b, v, t0, t1, t2);
    RaceSound(st, a, b, t0, t1, t2);
    OwnRelease(st, At(b, t1), Degraded);
    GroupUnaffected(st, b, a, t1, t2);
    StepFetches(st, At(a, t1));
    var ga, gb, mid := Group(st, At(a, t1)), Group(st, At(b, t1)), StepState(st, At(a, t1));
    OwnRelease(mid, At(b, t2), Linked(FetchOf(ga, v).value));
    if Singular(st, gb, ga) {
      var ab, ba := BothReleases(st, At(a, t1), At(b, t2)), BothReleases(st, At(b, t1), At(a, t2));
      TimelessMember(ba, Release(Job(Some(v), gb, t1), Degraded, false));
      forall r | r in ab ensures Timeless(r) != Unlinked(v, gb) {
        if r in StepReleases(st, At(a, t1)) {
          ReleaseOrigin(st, At(a, t1), r);
        } else {
          ReleaseOrigin(mid, At(b, t2), r);
          forall p | p in mid.parked ensures p.spans != gb { ParkedOrigin(st, At(a, t1), p); }
        }
      }
      NotTimeless(ab, Unlinked(v, gb));
    }
  }

  lemma TimelessMember(rs: seq<Release>, r: Release)
    requires r in rs
    ensures Timeless(r) in multiset(Map(Timeless, rs))
  {
    var i :| 0 <= i < |rs| && rs[i] == r;
    assert Map(Timeless, rs)[i] == Timeless(r);
  }

  lemma NotTimeless(rs: seq<Release>, x: Release)
    requires forall r :: r in rs ==> Timeless(r) != x
    ensures x !in multiset(Map(Timeless, rs))
  {
    assert forall i :: 0 <= i < |rs| ==> Map(Timeless, rs)[i] != x;
  }
}
