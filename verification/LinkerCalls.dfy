/**
 One `Build` call, told by its conditions alone: which parked groups leave for being late, which
 for a fetch that is now known, what becomes of the caller's own group, and what is counted.
 */
module LinkerCalls {
  import opened Wrappers
  import opened VxidCaches
  import opened Linking
  import opened LinkerLot

  // ----- the lot -----

  ghost function TooOld(st: State, now: Time): ParkedSet -> bool { (p: ParkedSet) => now - p.arrivedAt > st.ageLimit }

  ghost function IsKnown(c: Cache<FetchInfo>, now: Time): ParkedSet -> bool {
    (p: ParkedSet) => Lookup(c, p.vxid, now).Some?
  }

  /** The parked groups that have waited too long, and the others. */
  ghost function Late(st: State, now: Time): seq<ParkedSet> { Select(TooOld(st, now), st.parked, true) }

  ghost function InTime(st: State, now: Time): seq<ParkedSet> { Select(TooOld(st, now), st.parked, false) }

  /** Among those in time: the ones whose fetch is cached once the call's own fetches are, and the others. */
  ghost function Known(st: State, e: Event): seq<ParkedSet> {
    Select(IsKnown(StepState(st, e).fetches, e.now), InTime(st, e.now), true)
  }

  ghost function Waiting(st: State, e: Event): seq<ParkedSet> {
    Select(IsKnown(StepState(st, e).fetches, e.now), InTime(st, e.now), false)
  }

  ghost predicate GivenUp(r: Release, p: ParkedSet) {
    r == Release(Job(Some(p.vxid), p.spans, p.arrivedAt), Degraded, true)
  }

  ghost predicate Served(r: Release, p: ParkedSet, c: Cache<FetchInfo>, now: Time) {
    r.how.Linked? && Lookup(c, p.vxid, now) == Some(r.how.fetch)
    && r == Release(Job(Some(p.vxid), p.spans, p.arrivedAt), r.how, true)
  }

  /** Late groups are given up first, then known ones are linked, each in the order of the lot. */
  ghost predicate LeaveFirst(st: State, e: Event, rs: seq<Release>) {
    var late, known := Late(st, e.now), Known(st, e);
    && |rs| == |late| + |known|
    && (forall i :: 0 <= i < |late| ==> GivenUp(rs[i], late[i]))
    && (forall i :: 0 <= i < |known| ==> Served(rs[|late| + i], known[i], StepState(st, e).fetches, e.now))
  }

  /** A call that builds nothing gives up what is late and keeps everything else. */
  lemma IdleCall(st: State, e: Event)
    requires e.built == []
    ensures var late, rs, st1 := Late(st, e.now), StepReleases(st, e), StepState(st, e);
      && |rs| == |late| && (forall i :: 0 <= i < |late| ==> GivenUp(rs[i], late[i]))
      && st1 == st.(parked := InTime(st, e.now), misses := st.misses + |late|)
  {
    hide Select;
    SameAge(st, e.now);
  }

  lemma SameAge(st: State, now: Time)
    ensures Select(OverstayedAt(st, now), st.parked, true) == Late(st, now)
    ensures Select(OverstayedAt(st, now), st.parked, false) == InTime(st, now)
  {
    hide Select;
    SelectSame(OverstayedAt(st, now), TooOld(st, now), st.parked, true);
    SelectSame(OverstayedAt(st, now), TooOld(st, now), st.parked, false);
  }

  lemma {:induction false} SelectSame<T>(f: T -> bool, g: T -> bool, s: seq<T>, keep: bool)
    requires forall i :: 0 <= i < |s| ==> f(s[i]) == g(s[i])
    ensures Select(f, s, keep) == Select(g, s, keep)
  {
    if s != [] { SelectSame(f, g, s[..|s| - 1], keep); }
  }

  // ----- the caller's own group -----

  /** The fetch the call's own hit finds once the call's own fetches are cached. */
  ghost function FoundNow(st: State, e: Event): Option<FetchInfo>
    requires e.facts.hit.Some?
  {
    Lookup(StepState(st, e).fetches, e.facts.hit.value, e.now)
  }

  /** A continuation whose original is not known counts as a miss of its own. */
  ghost function Orphan(st: State, e: Event): nat {
    if e.facts.continuation && Lookup(st.restarts, e.facts.vxid, e.now).None? then 1 else 0
  }

  /** The misses counted: each late group, an orphaned continuation, and `own` for the hit. */
  ghost predicate CountsMisses(st: State, e: Event, own: nat) {
    StepState(st, e).misses == st.misses + |Late(st, e.now)| + Orphan(st, e) + own
  }

  /** The group leaves last, with `how` settled, and the lot keeps what waits. */
  ghost predicate LeavesLast(st: State, e: Event, how: Disposition) {
    var rs := StepReleases(st, e);
    && rs != [] && LeaveFirst(st, e, rs[..|rs| - 1])
    && rs[|rs| - 1] == Release(Job(e.facts.hit, Group(st, e), e.now), how, false)
    && StepState(st, e).parked == Waiting(st, e) && StepState(st, e).parks == st.parks
    && CountsMisses(st, e, if how.Degraded? then 1 else 0)
  }

  /** The group is the last entry of the lot; a full lot gives up its oldest waiting entry for it. */
  ghost predicate IsWithheld(st: State, e: Event, v: Vxid) {
    var rs, lot := StepReleases(st, e), Waiting(st, e);
    && StepState(st, e).parks == st.parks + 1
    && if |lot| < st.maxParked || lot == [] then
         && LeaveFirst(st, e, rs) && CountsMisses(st, e, 0)
         && StepState(st, e).parked == lot + [ParkedSet(v, Group(st, e), e.now)]
       else
         && rs != [] && LeaveFirst(st, e, rs[..|rs| - 1]) && GivenUp(rs[|rs| - 1], lot[0]) && CountsMisses(st, e, 1)
         && StepState(st, e).parked == lot[1..] + [ParkedSet(v, Group(st, e), e.now)]
  }

  /** What every building call does with its own group: four cases, told by the hit and the cache alone. */
  lemma BuildingCall(st: State, e: Event)
    requires e.built != []
    ensures e.facts.hit.None? ==> LeavesLast(st, e, AsIs)
    ensures e.facts.hit.Some? && FoundNow(st, e).Some? ==> LeavesLast(st, e, Linked(FoundNow(st, e).value))
    ensures e.facts.hit.Some? && FoundNow(st, e).None? && !e.facts.waiter ==> LeavesLast(st, e, Degraded)
    ensures e.facts.hit.Some? && FoundNow(st, e).None? && e.facts.waiter ==> IsWithheld(st, e, e.facts.hit.value)
  {
    hide Select, Group, PutAll, Lookup, Recorded, LeaveFirst, Map;
    var g := Group(st, e);
    var st2 := Recorded(AfterAging(st, e.now), e, g);
    var first := AgedReleases(st, e.now) + ResolvedReleases(st2, e.now);
    FirstToLeave(st, e);
    var lot := Waiting(st, e);
    assert AfterResolving(st2, e.now).parked == lot;
    assert forall xs: seq<Release> :: |xs| == 1 ==> (first + xs)[..|first + xs| - 1] == first;
    assert first + [] == first && lot[0..] == lot;
  }

  lemma FirstToLeave(st: State, e: Event)
    requires e.built != []
    ensures var st2 := Recorded(AfterAging(st, e.now), e, Group(st, e));
      && LeaveFirst(st, e, AgedReleases(st, e.now) + ResolvedReleases(st2, e.now))
      && AfterResolving(st2, e.now).parked == Waiting(st, e) && StepState(st, e).fetches == st2.fetches
      && st2.maxParked == st.maxParked && st2.parks == st.parks
      && st2.misses == st.misses + |Late(st, e.now)| + Orphan(st, e)
  {
    hide Select, Group, PutAll, Lookup;
    var st2 := Recorded(AfterAging(st, e.now), e, Group(st, e));
    SettlingKeepsFetches(AfterResolving(st2, e.now), e, Group(st, e));
    SameAge(st, e.now);
    var lot := InTime(st, e.now);
    var f, g := ResolvableAt(st2.fetches, e.now), IsKnown(st2.fetches, e.now);
    SelectSame(f, g, lot, true);
    SelectSame(f, g, lot, false);
    forall i | 0 <= i < |Known(st, e)| ensures Lookup(st2.fetches, Known(st, e)[i].vxid, e.now).Some? {
      SelectMember(g, lot, true, Known(st, e)[i]);
    }
  }
}
