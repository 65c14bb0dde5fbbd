/** Where links lead: every origin-fetch link names the latest fetch span of its hit, and that span is exported. */
module LinkerLinks {
  import opened Wrappers
  import opened Spans
  import opened VxidCaches
  import opened Linking
  import opened LinkerRuns

  /** Every fetch span built in a run, in its final form, oldest first. */
  function FetchSpans(st: State, es: seq<Event>): seq<Span> {
    if es == [] then []
    else FetchSpans(st, es[..|es| - 1]) + Fetches(Group(After(st, es[..|es| - 1]), es[|es| - 1]))
  }

  function IsFetch(s: Span): bool { s.kind.Fetch? }

  function Fetches(spans: seq<Span>): seq<Span> { Select(IsFetch, spans, true) }

  /** The writes those spans made to the fetch cache, each stamped with its call's clock. */
  function FetchLog(st: State, es: seq<Event>): seq<Write<FetchInfo>> {
    if es == [] then []
    else
      var init, e := es[..|es| - 1], es[|es| - 1];
      FetchLog(st, init) + FetchWrites(Group(After(st, init), e), e.now)
  }

  lemma {:induction false} PutAllAppend<V>(c: Cache<V>, a: seq<Write<V>>, b: seq<Write<V>>)
    ensures PutAll(c, a + b) == PutAll(PutAll(c, a), b)
    decreases |b|
  {
    hide Put;
    if b == [] {
      assert a + b == a;
    } else {
      assert (a + b)[..|a + b| - 1] == a + b[..|b| - 1];
      PutAllAppend(c, a, b[..|b| - 1]);
    }
  }

  lemma StepFetches(st: State, e: Event)
    ensures StepState(st, e).fetches == PutAll(st.fetches, FetchWrites(Group(st, e), e.now))
  {
    hide PutAll, Group, Select, Lookup, FetchWrites;
    if e.built == [] {
      assert Group(st, e) == [];
      NoWrites(st.fetches);
      NoFetches(e.now);
    }
  }

  lemma NoFetches(now: Time)
    ensures FetchWrites([], now) == []
  {
  }

  /** The fetch cache is always the replay of every fetch span built so far. */
  lemma {:induction false} FetchCacheIsLog(capacity: int, ttl: Duration, es: seq<Event>)
    ensures var st := NewState(capacity, ttl);
      After(st, es).fetches == PutAll(Empty<FetchInfo>(capacity, ttl), FetchLog(st, es))
  {
    hide StepState, PutAll, FetchWrites, Group;
    var st := NewState(capacity, ttl);
    var c := Empty<FetchInfo>(capacity, ttl);
    if es == [] {
      NoWrites(c);
    } else {
      var init, e := es[..|es| - 1], es[|es| - 1];
      FetchCacheIsLog(capacity, ttl, init);
      StepFetches(After(st, init), e);
      PutAllAppend(c, FetchLog(st, init), FetchWrites(Group(After(st, init), e), e.now));
    }
  }

  /** The log lists the fetch spans, in the same order. */
  ghost predicate SameFetches(log: seq<Write<FetchInfo>>, spans: seq<Span>) {
    |log| == |spans| && forall i :: 0 <= i < |log| ==> log[i].vxid == spans[i].vxid && log[i].value == InfoOf(spans[i])
  }

  lemma {:induction false} WritesAreFetches(spans: seq<Span>, now: Time)
    ensures SameFetches(FetchWrites(spans, now), Fetches(spans))
  {
    if spans != [] { WritesAreFetches(spans[..|spans| - 1], now); }
  }

  lemma SameFetchesAppend(l1: seq<Write<FetchInfo>>, s1: seq<Span>, l2: seq<Write<FetchInfo>>, s2: seq<Span>)
    requires SameFetches(l1, s1) && SameFetches(l2, s2)
    ensures SameFetches(l1 + l2, s1 + s2)
  {
  }

  lemma {:induction false} LogIsSpans(st: State, es: seq<Event>)
    ensures SameFetches(FetchLog(st, es), FetchSpans(st, es))
  {
    hide SameFetches, FetchWrites, Fetches, Group;
    if es == [] {
      SameFetchesEmpty();
    } else {
      var init, e := es[..|es| - 1], es[|es| - 1];
      LogIsSpans(st, init);
      WritesAreFetches(Group(After(st, init), e), e.now);
      SameFetchesAppend(FetchLog(st, init), FetchSpans(st, init),
                        FetchWrites(Group(After(st, init), e), e.now), Fetches(Group(After(st, init), e)));
    }
  }

  lemma SameFetchesEmpty()
    ensures SameFetches([], [])
  {
  }

  /** Position `i` holds the last fetch span numbered `v`. */
  ghost predicate LastFetch(spans: seq<Span>, v: Vxid, i: int) {
    0 <= i < |spans| && spans[i].vxid == v && forall j :: i < j < |spans| ==> spans[j].vxid != v
  }

  lemma {:induction false} LatestIsLast(log: seq<Write<FetchInfo>>, spans: seq<Span>, v: Vxid) returns (i: int)
    requires SameFetches(log, spans) && Latest(log, v).Some?
    ensures LastFetch(spans, v, i) && Latest(log, v).value.value == InfoOf(spans[i])
  {
    var n := |log| - 1;
    if log[n].vxid == v {
      i := n;
    } else {
      i := LatestIsLast(log[..n], spans[..n], v);
      assert spans[..n][i] == spans[i];
      forall j | i < j < |spans| ensures spans[j].vxid != v {
        if j < n { assert spans[..n][j] == spans[j]; }
      }
    }
  }

  /** A linked release was resolved against the cache as it is after the call. */
  lemma LinkedByLookup(st: State, e: Event, r: Release)
    requires r in StepReleases(st, e) && r.how.Linked?
    ensures r.job.hit.Some? && Lookup(StepState(st, e).fetches, r.job.hit.value, e.now) == Some(r.how.fetch)
  {
    hide Lookup, AfterAging, Recorded, Group, Select;
    if e.built != [] {
      var st2 := Recorded(AfterAging(st, e.now), e, Group(st, e));
      if r in ResolvedReleases(st2, e.now) { ResolvedSettle(st2, e.now, r); }
    }
  }

  /** The span `top`, emitted for `was`, points at the fetch `target`; coalesced if it began before that ended. */
  ghost predicate PointsAt(top: Span, was: Span, target: Span) {
    && target.kind.Fetch?
    && top.links == was.links + [Link(target.traceId, target.spanId)]
    && top.attrs == was.attrs + if top.start < target.end then [Coalesced] else []
  }

  lemma ReleasedSpans(st: State, e: Event, r: Release)
    requires Sound(st) && r in StepReleases(st, e)
    ensures r.job.spans != []
  {
    hide Lookup, VxidCaches.Valid, Select, PutAll, FateOf;
    var st1 := AfterAging(st, e.now);
    forall p: ParkedSet ensures p in st1.parked ==> p in st.parked {
      SelectMember(OverstayedAt(st, e.now), st.parked, false, p);
    }
    if r in AgedReleases(st, e.now) {
      var ps := Select(OverstayedAt(st, e.now), st.parked, true);
      var i :| 0 <= i < |ps| && r == Map(DegradedFromLot, ps)[i];
      SelectMember(OverstayedAt(st, e.now), st.parked, true, ps[i]);
    } else {
      var st2 := Recorded(st1, e, Group(st, e));
      LaterSpans(st2, e, Group(st, e), r);
    }
  }

  lemma LaterSpans(st: State, e: Event, g: seq<Span>, r: Release)
    requires (forall p :: p in st.parked ==> p.spans != []) && g != []
    requires r in ResolvedReleases(st, e.now) || r in OwnReleases(AfterResolving(st, e.now), e, g)
    ensures r.job.spans != []
  {
    hide Lookup, Select, FateOf;
    var f := ResolvableAt(st.fetches, e.now);
    forall p: ParkedSet, keep ensures p in Select(f, st.parked, keep) ==> p in st.parked {
      SelectMember(f, st.parked, keep, p);
    }
    if r in ResolvedReleases(st, e.now) {
      var ps := Select(f, st.parked, true);
      var i :| 0 <= i < |ps| && r == Map(LinkedFromLotAt(st.fetches, e.now), ps)[i];
      assert ps[i] in ps;
    }
  }

  lemma LinkedPoints(r: Release, target: Span)
    requires r.how.Linked? && r.job.spans != [] && target.kind.Fetch? && r.how.fetch == InfoOf(target)
    ensures Emitted(r) != [] && PointsAt(Emitted(r)[0], r.job.spans[0], target)
  {
  }

  lemma {:induction false} FetchSpansFetch(st: State, es: seq<Event>, s: Span)
    requires s in FetchSpans(st, es)
    ensures s.kind.Fetch?
  {
    hide Group;
    var init, e := es[..|es| - 1], es[|es| - 1];
    if s in FetchSpans(st, init) {
      FetchSpansFetch(st, init, s);
    } else {
      SelectMember(IsFetch, Group(After(st, init), e), true, s);
    }
  }

  /**
   Every link attached in a run carries the trace and span id of the latest fetch span, in its
   final form, that was built with the hit's number up to and including that call; the hit is
   flagged coalesced exactly if it began before that fetch ended.
   */
  lemma LinkClosure(capacity: int, ttl: Duration, es: seq<Event>, k: nat, r: Release) returns (i: int)
    requires k < |es|
    requires r in StepReleases(After(NewState(capacity, ttl), es[..k]), es[k]) && r.how.Linked?
    ensures var st := NewState(capacity, ttl);
      && r.job.hit.Some?
      && LastFetch(FetchSpans(st, es[..k + 1]), r.job.hit.value, i)
      && Emitted(r) != [] && r.job.spans != []
      && PointsAt(Emitted(r)[0], r.job.spans[0], FetchSpans(st, es[..k + 1])[i])
  {
    hide StepState, StepReleases, Lookup, PutAll, SameFetches, Group, FetchSpans, Emitted, PointsAt, InfoOf, Sound;
    var st, upto := NewState(capacity, ttl), es[..k + 1];
    assert upto[..k] == es[..k];
    LinkedByLookup(After(st, es[..k]), es[k], r);
    FetchCacheIsLog(capacity, ttl, upto);
    LookupIsLatestWrite(capacity, ttl, FetchLog(st, upto), r.job.hit.value, es[k].now);
    LogIsSpans(st, upto);
    i := LatestIsLast(FetchLog(st, upto), FetchSpans(st, upto), r.job.hit.value);
    var target := FetchSpans(st, upto)[i];
    assert target in FetchSpans(st, upto);
    FetchSpansFetch(st, upto, target);
    NewStateSound(capacity, ttl);
    AfterSound(st, es[..k]);
    ReleasedSpans(After(st, es[..k]), es[k], r);
    LinkedPoints(r, target);
  }

  // ----- linked fetches are exported -----

  /** Groups start with a request span. */
  ghost predicate RequestFirst(es: seq<Event>) {
    forall i :: 0 <= i < |es| && es[i].built != [] ==> es[i].built[0].kind.Request?
  }

  lemma GroupKinds(st: State, e: Event, i: nat)
    requires i < |e.built|
    ensures Group(st, e)[i].kind == e.built[i].kind
  {
    hide Lookup;
  }

  lemma {:induction false} FetchInJob(st: State, es: seq<Event>, s: Span) returns (job: Job, at: nat)
    requires RequestFirst(es) && s in FetchSpans(st, es)
    ensures job in Jobs(st, es) && 0 < at < |job.spans| && job.spans[at] == s
  {
    hide Group, After, Select;
    var init, e := es[..|es| - 1], es[|es| - 1];
    assert RequestFirst(init) by {
      forall i | 0 <= i < |init| && init[i].built != [] ensures init[i].built[0].kind.Request? {
        assert es[i].built != [];
      }
    }
    var g := Group(After(st, init), e);
    if s in FetchSpans(st, init) {
      job, at := FetchInJob(st, init, s);
    } else {
      assert s in Fetches(g);
      SelectMember(IsFetch, g, true, s);
      at :| 0 <= at < |g| && g[at] == s;
      GroupKinds(After(st, init), e, at);
      assert es[|es| - 1].built != [];
      job := Job(e.facts.hit, g, e.now);
      assert job in OwnJob(After(st, init), e);
    }
  }

  lemma {:induction false} EmittedMember(rs: seq<Release>, r: Release, s: Span)
    requires r in rs && s in Emitted(r)
    ensures s in EmittedAll(rs)
  {
    hide Emitted;
    var n := |rs| - 1;
    assert rs == rs[..n] + [rs[n]];
    EmittedAllSnoc(rs[..n], rs[n]);
    if r != rs[n] {
      assert r in rs[..n];
      EmittedMember(rs[..n], r, s);
    }
  }

  lemma LeftMember(rs: seq<Release>, job: Job) returns (r: Release)
    requires job in Left(rs)
    ensures r in rs && r.job == job
  {
    assert job in Map(Released, rs);
    var i :| 0 <= i < |rs| && Map(Released, rs)[i] == job;
    r := rs[i];
  }

  /** Once flushed, every fetch span of the run has been exported unchanged. */
  lemma FetchesAreExported(capacity: int, ttl: Duration, es: seq<Event>, s: Span)
    requires RequestFirst(es) && s in FetchSpans(NewState(capacity, ttl), es)
    ensures s in EmittedAll(FinalOutput(NewState(capacity, ttl), es))
  {
    hide EmittedAll, Left;
    var st := NewState(capacity, ttl);
    var job, at := FetchInJob(st, es, s);
    ExactlyOnceAfterFlush(capacity, ttl, es);
    var r := LeftMember(FinalOutput(st, es), job);
    ReleasedIntact(r);
    assert Emitted(r)[1..][at - 1] == job.spans[1..][at - 1] == s;
    assert Emitted(r)[at] == s;
    EmittedMember(FinalOutput(st, es), r, s);
  }

  lemma {:induction false} FetchSpansGrow(st: State, es: seq<Event>, k: nat, s: Span)
    requires k <= |es| && s in FetchSpans(st, es[..k])
    ensures s in FetchSpans(st, es)
    decreases |es| - k
  {
    hide Fetches, Group;
    if k == |es| {
      assert es[..k] == es;
    } else {
      assert es[..k + 1][..k] == es[..k];
      FetchSpansGrow(st, es, k + 1, s);
    }
  }

  /** The target of every link is in the output of the flushed run. */
  lemma LinkTargetExported(capacity: int, ttl: Duration, es: seq<Event>, k: nat, r: Release) returns (target: Span)
    requires RequestFirst(es) && k < |es|
    requires r in StepReleases(After(NewState(capacity, ttl), es[..k]), es[k]) && r.how.Linked?
    ensures target in EmittedAll(FinalOutput(NewState(capacity, ttl), es))
    ensures r.job.hit == Some(target.vxid)
    ensures Emitted(r) != [] && r.job.spans != [] && PointsAt(Emitted(r)[0], r.job.spans[0], target)
  {
    hide StepReleases, EmittedAll, FinalOutput, Emitted, PointsAt;
    var st := NewState(capacity, ttl);
    var i := LinkClosure(capacity, ttl, es, k, r);
    target := FetchSpans(st, es[..k + 1])[i];
    FetchSpansGrow(st, es, k + 1, target);
    FetchesAreExported(capacity, ttl, es, target);
  }
}
