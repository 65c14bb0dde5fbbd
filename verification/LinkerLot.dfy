/** Invariants of the parking lot under a clock that does not go back. */
module LinkerLot {
  import opened Wrappers
  import opened Spans
  import opened VxidCaches
  import opened Linking
  import opened LinkerRuns

  ghost predicate ArrivalOrder(ps: seq<ParkedSet>) {
    forall i, j :: 0 <= i < j < |ps| ==> ps[i].arrivedAt <= ps[j].arrivedAt
  }

  /** As of `now`: in arrival order, nobody overstayed, nobody resolvable. */
  ghost predicate LotInvariant(st: State, now: Time) {
    && 0 <= st.ageLimit
    && ArrivalOrder(st.parked)
    && (forall p :: p in st.parked ==>
          p.arrivedAt <= now <= p.arrivedAt + st.ageLimit && Lookup(st.fetches, p.vxid, now).None?)
  }

  ghost predicate ClockOk(es: seq<Event>, start: Time) {
    && (forall i :: 0 <= i < |es| ==> start <= es[i].now)
    && (forall i, j :: 0 <= i < j < |es| ==> es[i].now <= es[j].now)
  }

  lemma {:induction false} SelectInOrder(f: ParkedSet -> bool, ps: seq<ParkedSet>, keep: bool)
    requires ArrivalOrder(ps)
    ensures ArrivalOrder(Select(f, ps, keep))
  {
    if ps != [] {
      var init, x := ps[..|ps| - 1], ps[|ps| - 1];
      SelectInOrder(f, init, keep);
      var s := Select(f, init, keep);
      forall i | 0 <= i < |s| ensures s[i].arrivedAt <= x.arrivedAt {
        SelectMember(f, init, keep, s[i]);
        assert s[i] in init;
      }
    }
  }

  /** Time alone never makes an entry resolvable again. */
  lemma StaysUnresolvable(c: Cache<FetchInfo>, p: ParkedSet, t: Time, now: Time)
    requires t <= now && !Resolvable(c, t, p)
    ensures !Resolvable(c, now, p)
  {
  }

  lemma LotAfterAging(st: State, t: Time, now: Time)
    requires LotInvariant(st, t) && t <= now
    ensures LotInvariant(AfterAging(st, now), now)
  {
    hide Select, Lookup;
    var f := OverstayedAt(st, now);
    var st1 := AfterAging(st, now);
    SelectInOrder(f, st.parked, false);
    forall p | p in st1.parked
      ensures p.arrivedAt <= now && !Overstayed(st1, now, p) && !Resolvable(st1.fetches, now, p)
    {
      SelectMember(f, st.parked, false, p);
      StaysUnresolvable(st.fetches, p, t, now);
    }
  }

  /** Before resolving, only resolvability may fail. */
  ghost predicate LotPending(st: State, now: Time) {
    && 0 <= st.ageLimit
    && ArrivalOrder(st.parked)
    && (forall p :: p in st.parked ==> p.arrivedAt <= now && !Overstayed(st, now, p))
  }

  lemma LotAfterResolving(st: State, now: Time)
    requires LotPending(st, now)
    ensures LotInvariant(AfterResolving(st, now), now)
  {
    hide Select, Lookup;
    var f := ResolvableAt(st.fetches, now);
    SelectInOrder(f, st.parked, false);
    forall p | p in AfterResolving(st, now).parked
      ensures p.arrivedAt <= now && !Overstayed(st, now, p) && !Resolvable(st.fetches, now, p)
    {
      SelectMember(f, st.parked, false, p);
    }
  }

  lemma LotAfterSettling(st: State, e: Event, spans: seq<Span>)
    requires LotInvariant(st, e.now)
    ensures LotInvariant(Settled(st, e, spans), e.now)
  {
    hide Lookup;
    if FateOf(st, e).Parks? {
      var rest := st.parked[|Overflow(st)|..];
      forall p | p in rest ensures p in st.parked {}
      assert Settled(st, e, spans).parked == rest + [ParkedSet(e.facts.hit.value, spans, e.now)];
    }
  }

  lemma StepKeepsLot(st: State, t: Time, e: Event)
    requires LotInvariant(st, t) && t <= e.now
    ensures LotInvariant(StepState(st, e), e.now)
  {
    hide AfterAging, AfterResolving, Settled, Group, PutAll, Resolvable, ArrivalOrder;
    LotAfterAging(st, t, e.now);
    if e.built != [] {
      var st2 := Recorded(AfterAging(st, e.now), e, Group(st, e));
      assert LotPending(st2, e.now);
      LotAfterResolving(st2, e.now);
      LotAfterSettling(AfterResolving(st2, e.now), e, Group(st, e));
    }
  }

  /**
   In every run on a new linker: the lot never holds more than 256 groups, is in arrival order, and
   after each call holds nobody who waited longer than ten seconds or whose fetch is cached.
   */
  lemma {:induction false} LotInvariantHolds(capacity: int, ttl: Duration, es: seq<Event>, start: Time)
    requires ClockOk(es, start)
    ensures var st := After(NewState(capacity, ttl), es);
      && LotInvariant(st, if es == [] then start else es[|es| - 1].now)
      && |st.parked| <= 256 && st.maxParked == 256 && st.ageLimit == 10_000_000_000
  {
    hide StepState, LotInvariant, Sound;
    var st0 := NewState(capacity, ttl);
    NewStateSound(capacity, ttl);
    AfterSound(st0, es);
    if es == [] {
      NewLot(capacity, ttl, start);
    } else {
      var init, e := es[..|es| - 1], es[|es| - 1];
      LotInvariantHolds(capacity, ttl, init, start);
      StepKeepsLot(After(st0, init), if init == [] then start else init[|init| - 1].now, e);
      StepKeepsBounds(After(st0, init), e);
    }
    LotBound(After(st0, es));
  }

  lemma NewLot(capacity: int, ttl: Duration, start: Time)
    ensures LotInvariant(NewState(capacity, ttl), start)
  {
  }

  lemma LotBound(st: State)
    requires Sound(st)
    ensures |st.parked| <= st.maxParked
  {
  }

  lemma StepKeepsBounds(st: State, e: Event)
    ensures StepState(st, e).maxParked == st.maxParked && StepState(st, e).ageLimit == st.ageLimit
  {
    hide Select, PutAll, Group, Lookup;
  }

  /** A waiter still within its age limit leaves, linked, with the first call that leaves its fetch cached. */
  lemma WaiterReleased(st: State, e: Event, p: ParkedSet)
    requires p in st.parked && !Overstayed(st, e.now, p) && e.built != []
    requires Lookup(StepState(st, e).fetches, p.vxid, e.now).Some?
    ensures Release(JobOf(p), Linked(Lookup(StepState(st, e).fetches, p.vxid, e.now).value), true)
         in StepReleases(st, e)
  {
    hide Group, PutAll, Lookup, Settled, OwnReleases;
    var st1 := AfterAging(st, e.now);
    var st2 := Recorded(st1, e, Group(st, e));
    SettlingKeepsFetches(AfterResolving(st2, e.now), e, Group(st, e));
    SelectMember(OverstayedAt(st, e.now), st.parked, false, p);
    SelectMember(ResolvableAt(st2.fetches, e.now), st1.parked, true, p);
    var ps := Select(ResolvableAt(st2.fetches, e.now), st1.parked, true);
    var i :| 0 <= i < |ps| && ps[i] == p;
    assert ResolvedReleases(st2, e.now)[i] == LinkedFromLot(st2.fetches, e.now, p);
    assert ResolvedReleases(st2, e.now)[i] in ResolvedReleases(st2, e.now);
  }

  lemma SettlingKeepsFetches(st: State, e: Event, spans: seq<Span>)
    ensures Settled(st, e, spans).fetches == st.fetches && Settled(st, e, spans).restarts == st.restarts
  {
  }
}
