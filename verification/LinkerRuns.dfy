/** Whole runs of `Build` calls: nothing is lost, every hit is settled once, counters add up. */
module LinkerRuns {
  import opened Wrappers
  import opened Spans
  import opened VxidCaches
  import opened Linking

  function After(st: State, es: seq<Event>): State {
    if es == [] then st else StepState(After(st, es[..|es| - 1]), es[|es| - 1])
  }

  /** Everything released by a run, in order. */
  function Output(st: State, es: seq<Event>): seq<Release> {
    if es == [] then [] else Output(st, es[..|es| - 1]) + StepReleases(After(st, es[..|es| - 1]), es[|es| - 1])
  }

  function OwnJob(st: State, e: Event): seq<Job> {
    if e.built == [] then [] else [Job(e.facts.hit, Group(st, e), e.now)]
  }

  /** Every group built in a run, in order. */
  function Jobs(st: State, es: seq<Event>): seq<Job> {
    if es == [] then [] else Jobs(st, es[..|es| - 1]) + OwnJob(After(st, es[..|es| - 1]), es[|es| - 1])
  }

  /** A run followed by `Flush`. */
  function FinalOutput(st: State, es: seq<Event>): seq<Release> {
    Output(st, es) + FlushReleases(After(st, es))
  }

  lemma {:induction false} AfterSound(st: State, es: seq<Event>)
    requires Sound(st)
    ensures Sound(After(st, es))
  {
    hide Sound, StepState;
    if es != [] {
      AfterSound(st, es[..|es| - 1]);
      StepSound(After(st, es[..|es| - 1]), es[|es| - 1]);
    }
  }

  lemma NewStateSound(capacity: int, ttl: Duration)
    ensures Sound(NewState(capacity, ttl))
  {
  }

  // ----- exactly once -----

  ghost function InLot(ps: seq<ParkedSet>): multiset<Job> { multiset(Map(JobOf, ps)) }

  ghost function Left(rs: seq<Release>): multiset<Job> { multiset(Map(Released, rs)) }

  lemma LeftAppend(a: seq<Release>, b: seq<Release>)
    ensures Left(a + b) == Left(a) + Left(b)
  {
    MapAppend(Released, a, b);
  }

  lemma LeftOfLot(g: ParkedSet -> Release, ps: seq<ParkedSet>)
    requires forall p :: g(p).job == JobOf(p)
    ensures Left(Map(g, ps)) == InLot(ps)
  {
    assert Map(Released, Map(g, ps)) == Map(JobOf, ps);
  }

  lemma AgingConserves(st: State, now: Time)
    ensures Left(AgedReleases(st, now)) + InLot(AfterAging(st, now).parked) == InLot(st.parked)
  {
    SelectSplits(OverstayedAt(st, now), JobOf, st.parked);
    LeftOfLot(DegradedFromLot, Select(OverstayedAt(st, now), st.parked, true));
  }

  lemma ResolvingConserves(st: State, now: Time)
    ensures Left(ResolvedReleases(st, now)) + InLot(AfterResolving(st, now).parked) == InLot(st.parked)
  {
    SelectSplits(ResolvableAt(st.fetches, now), JobOf, st.parked);
    LeftOfLot(LinkedFromLotAt(st.fetches, now), Select(ResolvableAt(st.fetches, now), st.parked, true));
  }

  lemma SettlingConserves(st: State, e: Event, spans: seq<Span>)
    ensures Left(OwnReleases(st, e, spans)) + InLot(Settled(st, e, spans).parked)
         == InLot(st.parked) + multiset{Job(e.facts.hit, spans, e.now)}
  {
    hide Lookup, Overflow;
    var own := Job(e.facts.hit, spans, e.now);
    match FateOf(st, e) {
      case Leaves(how) =>
        assert Map(Released, OwnReleases(st, e, spans)) == [own];
      case Parks =>
        ParkingConserves(st, ParkedSet(e.facts.hit.value, spans, e.now));
    }
  }

  /** Parking pushes out at most the oldest group. */
  lemma ParkingConserves(st: State, p: ParkedSet)
    ensures |Overflow(st)| <= |st.parked|
    ensures Left(Overflow(st)) + InLot(st.parked[|Overflow(st)|..] + [p]) == InLot(st.parked) + multiset{JobOf(p)}
  {
    var n := |Overflow(st)|;
    MapAppend(JobOf, st.parked[..n], st.parked[n..]);
    assert st.parked[..n] + st.parked[n..] == st.parked;
    MapAppend(JobOf, st.parked[n..], [p]);
    assert Map(JobOf, [p]) == [JobOf(p)];
    assert Map(Released, Overflow(st)) == Map(JobOf, st.parked[..n]);
  }

  lemma StepConserves(st: State, e: Event)
    ensures Left(StepReleases(st, e)) + InLot(StepState(st, e).parked) == InLot(st.parked) + multiset(OwnJob(st, e))
  {
    hide Left, InLot, AfterAging, AgedReleases, ResolvedReleases, OwnReleases, AfterResolving, Settled, Group;
    AgingConserves(st, e.now);
    if e.built != [] {
      var spans := Group(st, e);
      var st2 := Recorded(AfterAging(st, e.now), e, spans);
      ResolvingConserves(st2, e.now);
      var st3 := AfterResolving(st2, e.now);
      SettlingConserves(st3, e, spans);
      LeftAppend(AgedReleases(st, e.now), ResolvedReleases(st2, e.now));
      LeftAppend(AgedReleases(st, e.now) + ResolvedReleases(st2, e.now), OwnReleases(st3, e, spans));
      assert multiset(OwnJob(st, e)) == multiset{Job(e.facts.hit, spans, e.now)};
      Chain(Left(AgedReleases(st, e.now)), Left(ResolvedReleases(st2, e.now)), Left(OwnReleases(st3, e, spans)),
            InLot(st.parked), InLot(st2.parked), InLot(st3.parked), InLot(Settled(st3, e, spans).parked),
            multiset(OwnJob(st, e)));
    }
  }

  lemma Chain<T>(a: multiset<T>, r: multiset<T>, o: multiset<T>,
                 i0: multiset<T>, i1: multiset<T>, i3: multiset<T>, i4: multiset<T>, own: multiset<T>)
    requires a + i1 == i0 && r + i3 == i1 && o + i4 == i3 + own
    ensures a + r + o + i4 == i0 + own
  {
    assert a + r + o + i4 == a + r + (o + i4) == a + (r + i3) + own;
  }

  lemma Extend<T>(out: multiset<T>, step: multiset<T>, lot0: multiset<T>, lot1: multiset<T>, start: multiset<T>,
                  jobs: multiset<T>, own: multiset<T>)
    requires out + lot0 == start + jobs && step + lot1 == lot0 + own
    ensures out + step + lot1 == start + (jobs + own)
  {
    assert out + step + lot1 == out + (step + lot1) == (out + lot0) + own;
  }

  /**
   Over every run, the groups released so far together with those still parked are exactly
   the groups built (and those parked at the start), each as often as it was built.
   */
  lemma {:induction false} ExactlyOnce(st: State, es: seq<Event>)
    ensures Left(Output(st, es)) + InLot(After(st, es).parked) == InLot(st.parked) + multiset(Jobs(st, es))
  {
    hide Left, InLot, StepState, StepReleases, OwnJob;
    if es == [] {
      NothingLeft();
    } else {
      var init, e := es[..|es| - 1], es[|es| - 1];
      ExactlyOnce(st, init);
      StepConserves(After(st, init), e);
      LeftAppend(Output(st, init), StepReleases(After(st, init), e));
      Extend(Left(Output(st, init)), Left(StepReleases(After(st, init), e)), InLot(After(st, init).parked),
             InLot(After(st, es).parked), InLot(st.parked), multiset(Jobs(st, init)),
             multiset(OwnJob(After(st, init), e)));
    }
  }

  lemma NothingLeft()
    ensures Left([]) == multiset{}
  {
  }

  /** After `Flush` every group built has left the linker exactly once, and none is parked. */
  lemma ExactlyOnceAfterFlush(capacity: int, ttl: Duration, es: seq<Event>)
    ensures Left(FinalOutput(NewState(capacity, ttl), es)) == multiset(Jobs(NewState(capacity, ttl), es))
    ensures FlushState(After(NewState(capacity, ttl), es)).parked == []
  {
    var st := NewState(capacity, ttl);
    ExactlyOnce(st, es);
    LeftAppend(Output(st, es), FlushReleases(After(st, es)));
    LeftOfLot(DegradedFromLot, After(st, es).parked);
    assert InLot(st.parked) == multiset{};
  }

  /** A released group keeps its length, order and every span but the top; the top keeps its identity. */
  lemma ReleasedIntact(r: Release)
    requires r.job.spans != []
    ensures var out, was := Emitted(r), r.job.spans;
      && |out| == |was| && out[1..] == was[1..]
      && out[0].(attrs := was[0].attrs, links := was[0].links) == was[0]
      && was[0].attrs <= out[0].attrs && was[0].links <= out[0].links
  {
  }

  // ----- every hit is settled, and nothing else -----

  /** How a release was settled agrees with whether its group had a hit to settle. */
  predicate Settles(r: Release) { r.how.AsIs? <==> r.job.hit.None? }

  lemma StepSettles(st: State, e: Event, r: Release)
    requires r in StepReleases(st, e)
    ensures Settles(r)
  {
    hide Lookup, AfterAging, Recorded, Group, Select;
    if r in AgedReleases(st, e.now) {
    } else if e.built != [] {
      var st2 := Recorded(AfterAging(st, e.now), e, Group(st, e));
      if r in ResolvedReleases(st2, e.now) {
        ResolvedSettle(st2, e.now, r);
      } else {
        assert r in OwnReleases(AfterResolving(st2, e.now), e, Group(st, e));
      }
    }
  }

  lemma ResolvedSettle(st: State, now: Time, r: Release)
    requires r in ResolvedReleases(st, now)
    ensures r.how.Linked? && r.job.hit.Some? && Lookup(st.fetches, r.job.hit.value, now) == Some(r.how.fetch)
  {
    hide Lookup, Select;
    var f, g := ResolvableAt(st.fetches, now), LinkedFromLotAt(st.fetches, now);
    var ps := Select(f, st.parked, true);
    var i :| 0 <= i < |ps| && r == Map(g, ps)[i];
    SelectMember(f, st.parked, true, ps[i]);
  }

  lemma {:induction false} OutputSettles(st: State, es: seq<Event>, r: Release)
    requires r in Output(st, es)
    ensures Settles(r)
  {
    hide StepReleases, Settles;
    var init, e := es[..|es| - 1], es[|es| - 1];
    if r in Output(st, init) {
      OutputSettles(st, init, r);
    } else {
      StepSettles(After(st, init), e, r);
    }
  }

  /** No span of the group has a hit settled yet. */
  ghost predicate Plain(spans: seq<Span>) {
    forall i :: 0 <= i < |spans| ==>
      spans[i].links == [] && Coalesced !in spans[i].attrs && CoalescedUnlinked !in spans[i].attrs
  }

  /** The hit marks of a span: an origin-fetch link, or the unlinked flag. */
  predicate IsLinked(s: Span) { s.links != [] }
  predicate IsDegraded(s: Span) { CoalescedUnlinked in s.attrs }

  /**
   A released group with a hit carries exactly one of link and unlinked flag, on its top span
   only; a group without one carries neither. The coalesced flag marks exactly the linked hits
   that started before their fetch ended.
   */
  lemma HitOutcome(r: Release)
    requires r.job.spans != [] && Plain(r.job.spans) && Settles(r)
    ensures var out := Emitted(r);
      && |out| == |r.job.spans|
      && (r.job.hit.Some? ==> IsLinked(out[0]) != IsDegraded(out[0]))
      && (r.job.hit.None? ==> !IsLinked(out[0]) && !IsDegraded(out[0]))
      && (IsLinked(out[0]) <==> r.how.Linked?)
      && (IsLinked(out[0]) ==> out[0].links == [Link(r.how.fetch.traceId, r.how.fetch.spanId)])
      && (Coalesced in out[0].attrs <==> r.how.Linked? && out[0].start < r.how.fetch.end)
      && (forall i :: 0 < i < |out| ==> !IsLinked(out[i]) && !IsDegraded(out[i]) && Coalesced !in out[i].attrs)
  {
    var out := Emitted(r);
    forall i | 0 < i < |out| ensures out[i] == r.job.spans[i] { assert out[1..][i - 1] == r.job.spans[1..][i - 1]; }
  }

  // ----- counters -----

  function CountDegraded(rs: seq<Release>): nat {
    if rs == [] then 0 else CountDegraded(rs[..|rs| - 1]) + if rs[|rs| - 1].how.Degraded? then 1 else 0
  }

  function CountFromLot(rs: seq<Release>): nat {
    if rs == [] then 0 else CountFromLot(rs[..|rs| - 1]) + if rs[|rs| - 1].fromLot then 1 else 0
  }

  lemma {:induction false} CountsAppend(a: seq<Release>, b: seq<Release>)
    ensures CountDegraded(a + b) == CountDegraded(a) + CountDegraded(b)
    ensures CountFromLot(a + b) == CountFromLot(a) + CountFromLot(b)
    decreases |b|
  {
    if b == [] {
      assert a + b == a;
    } else {
      assert (a + b)[..|a + b| - 1] == a + b[..|b| - 1];
      CountsAppend(a, b[..|b| - 1]);
    }
  }

  lemma {:induction false} CountUniform(rs: seq<Release>, degraded: bool)
    requires forall i :: 0 <= i < |rs| ==> rs[i].fromLot && rs[i].how.Degraded? == degraded
    ensures CountFromLot(rs) == |rs| && CountDegraded(rs) == if degraded then |rs| else 0
  {
    if rs != [] { CountUniform(rs[..|rs| - 1], degraded); }
  }

  /** Continuations built while their original was unknown. */
  predicate Unstitched(st: State, e: Event) { e.built != [] && e.facts.continuation && Original(st, e).None? }

  function CountUnstitched(st: State, es: seq<Event>): nat {
    if es == [] then 0
    else CountUnstitched(st, es[..|es| - 1]) + if Unstitched(After(st, es[..|es| - 1]), es[|es| - 1]) then 1 else 0
  }

  lemma AgingCounts(st: State, now: Time)
    ensures var rs, st1 := AgedReleases(st, now), AfterAging(st, now);
      && CountDegraded(rs) == st1.misses - st.misses && st1.parks == st.parks
      && CountFromLot(rs) + |st1.parked| == |st.parked|
  {
    var f := OverstayedAt(st, now);
    SelectSplits(f, JobOf, st.parked);
    CountUniform(AgedReleases(st, now), true);
  }

  lemma ResolvingCounts(st: State, now: Time)
    ensures var rs, st1 := ResolvedReleases(st, now), AfterResolving(st, now);
      && CountDegraded(rs) == 0 && st1.misses == st.misses && st1.parks == st.parks
      && CountFromLot(rs) + |st1.parked| == |st.parked|
  {
    hide Lookup;
    var f := ResolvableAt(st.fetches, now);
    SelectSplits(f, JobOf, st.parked);
    var rs := ResolvedReleases(st, now);
    forall i | 0 <= i < |rs| ensures rs[i].fromLot && !rs[i].how.Degraded? {}
    CountUniform(rs, false);
  }

  lemma SettlingCounts(st: State, e: Event, spans: seq<Span>)
    ensures var rs, st1 := OwnReleases(st, e, spans), Settled(st, e, spans);
      && CountDegraded(rs) == st1.misses - st.misses
      && CountFromLot(rs) + |st1.parked| == |st.parked| + st1.parks - st.parks
  {
    hide Lookup;
    var rs := OwnReleases(st, e, spans);
    if rs != [] {
      assert rs == [rs[0]] && rs[..0] == [];
      assert CountDegraded(rs) == CountDegraded([]) + if rs[0].how.Degraded? then 1 else 0;
      assert CountFromLot(rs) == CountFromLot([]) + if rs[0].fromLot then 1 else 0;
    }
  }

  lemma StepCounts(st: State, e: Event)
    ensures var rs, st1 := StepReleases(st, e), StepState(st, e);
      && st1.misses == st.misses + CountDegraded(rs) + (if Unstitched(st, e) then 1 else 0)
      && CountFromLot(rs) + |st1.parked| == |st.parked| + st1.parks - st.parks
  {
    hide CountDegraded, CountFromLot, AfterAging, AgedReleases, ResolvedReleases, OwnReleases, AfterResolving,
         Settled, Group, PutAll;
    AgingCounts(st, e.now);
    if e.built != [] {
      var st1, spans := AfterAging(st, e.now), Group(st, e);
      AgingKeeps(st, e.now);
      var st2 := Recorded(st1, e, spans);
      var st3 := AfterResolving(st2, e.now);
      ResolvingCounts(st2, e.now);
      SettlingCounts(st3, e, spans);
      CountsAppend(AgedReleases(st, e.now), ResolvedReleases(st2, e.now));
      CountsAppend(AgedReleases(st, e.now) + ResolvedReleases(st2, e.now), OwnReleases(st3, e, spans));
    }
  }

  lemma AgingKeeps(st: State, now: Time)
    ensures AfterAging(st, now).restarts == st.restarts && AfterAging(st, now).fetches == st.fetches
  {
  }

  /**
   Counter accounting over every run: cache misses are the degraded releases plus the
   continuations that found no original; parkings are the releases out of the lot plus the
   groups still in it.
   */
  lemma {:induction false} CountersAddUp(capacity: int, ttl: Duration, es: seq<Event>)
    ensures var st := NewState(capacity, ttl);
      && After(st, es).misses == CountDegraded(Output(st, es)) + CountUnstitched(st, es)
      && After(st, es).parks == CountFromLot(Output(st, es)) + |After(st, es).parked|
  {
    hide StepState, StepReleases, Unstitched;
    var st := NewState(capacity, ttl);
    if es != [] {
      var init, e := es[..|es| - 1], es[|es| - 1];
      CountersAddUp(capacity, ttl, init);
      StepCounts(After(st, init), e);
      CountsAppend(Output(st, init), StepReleases(After(st, init), e));
    }
  }

  /** After `Flush`: every parked group counts as a miss, and the lot is accounted for. */
  lemma CountersAfterFlush(capacity: int, ttl: Duration, es: seq<Event>)
    ensures var st := NewState(capacity, ttl);
      var end, all := FlushState(After(st, es)), FinalOutput(st, es);
      && end.misses == CountDegraded(all) + CountUnstitched(st, es)
      && end.parks == CountFromLot(all)
  {
    hide CountDegraded, CountFromLot;
    var st := NewState(capacity, ttl);
    CountersAddUp(capacity, ttl, es);
    CountsAppend(Output(st, es), FlushReleases(After(st, es)));
    CountUniform(FlushReleases(After(st, es)), true);
  }
}
