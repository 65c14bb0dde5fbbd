/** Restart chains: each continuation joins the trace of the request it restarts, however long the chain. */
module LinkerRestarts {
  import opened Wrappers
  import opened Traceparents
  import opened Spans
  import opened VxidCaches
  import opened Linking
  import opened LinkerRuns
  import opened LinkerLinks

  /** What one call writes to the restart cache. */
  function StepRestarts(st: State, e: Event): seq<Write<RestartInfo>> {
    if e.built == [] then [] else RestartWrites(e.facts.restarts, Group(st, e)[0], e.now)
  }

  function RestartLog(st: State, es: seq<Event>): seq<Write<RestartInfo>> {
    if es == [] then []
    else RestartLog(st, es[..|es| - 1]) + StepRestarts(After(st, es[..|es| - 1]), es[|es| - 1])
  }

  lemma StepRestartCache(st: State, e: Event)
    ensures StepState(st, e).restarts == PutAll(st.restarts, StepRestarts(st, e))
  {
    hide PutAll, Group, Select, Lookup, RestartWrites, FetchWrites;
    if e.built == [] { NoWrites(st.restarts); }
  }

  /** The restart cache is always the replay of every restart announced so far. */
  lemma {:induction false} RestartCacheIsLog(capacity: int, ttl: Duration, es: seq<Event>)
    ensures var st := NewState(capacity, ttl);
      After(st, es).restarts == PutAll(Empty<RestartInfo>(capacity, ttl), RestartLog(st, es))
  {
    hide StepState, PutAll, StepRestarts;
    var st := NewState(capacity, ttl);
    var c := Empty<RestartInfo>(capacity, ttl);
    if es == [] {
      NoWrites(c);
    } else {
      var init, e := es[..|es| - 1], es[|es| - 1];
      RestartCacheIsLog(capacity, ttl, init);
      StepRestartCache(After(st, init), e);
      PutAllAppend(c, RestartLog(st, init), StepRestarts(After(st, init), e));
    }
  }

  lemma {:induction false} LatestAppend<V>(a: seq<Write<V>>, b: seq<Write<V>>, k: Vxid)
    ensures Latest(a + b, k) == if Latest(b, k).Some? then Latest(b, k) else Latest(a, k)
    decreases |b|
  {
    if b == [] {
      assert a + b == a;
    } else {
      assert (a + b)[..|a + b| - 1] == a + b[..|b| - 1];
      LatestAppend(a, b[..|b| - 1], k);
    }
  }

  /** Call `j` announces continuation `x`. */
  predicate Announces(e: Event, x: Vxid) { e.built != [] && x in e.facts.restarts }

  lemma LatestOfStep(st: State, e: Event, x: Vxid)
    ensures Latest(StepRestarts(st, e), x).Some? <==> Announces(e, x)
    ensures Announces(e, x) ==>
      Latest(StepRestarts(st, e), x).value.value == RestartInfo(Group(st, e)[0].traceId, Group(st, e)[0].spanId)
  {
    hide Group;
    var ws := StepRestarts(st, e);
    if Announces(e, x) {
      var i :| 0 <= i < |e.facts.restarts| && e.facts.restarts[i] == x;
      assert ws[i].vxid == x;
      assert Latest(ws, x).value in ws;
    }
  }

  /** The last announcement of `x` decides what the log remembers about it. */
  lemma {:induction false} LatestAnnouncement(st: State, es: seq<Event>, j: nat, x: Vxid)
    requires j < |es| && Announces(es[j], x)
    requires forall k :: j < k < |es| ==> !Announces(es[k], x)
    ensures var top := Group(After(st, es[..j]), es[j])[0];
      && Latest(RestartLog(st, es), x).Some?
      && Latest(RestartLog(st, es), x).value.value == RestartInfo(top.traceId, top.spanId)
    decreases |es|
  {
    hide Group, StepRestarts, Announces, StepState;
    var init, e := es[..|es| - 1], es[|es| - 1];
    LatestAppend(RestartLog(st, init), StepRestarts(After(st, init), e), x);
    LatestOfStep(After(st, init), e, x);
    if j == |es| - 1 {
    } else {
      assert init[j] == es[j] && init[..j] == es[..j];
      forall k | j < k < |init| ensures !Announces(init[k], x) { assert init[k] == es[k]; }
      LatestAnnouncement(st, init, j, x);
    }
  }

  // ----- chains -----

  /** The group built by call `i` of the run. */
  function GroupAt(st: State, es: seq<Event>, i: nat): seq<Span>
    requires i < |es|
  {
    Group(After(st, es[..i]), es[i])
  }

  /**
   Call `i` builds a continuation that call `j` was the last to announce, while the entry is
   still live. Whatever else happens between the two calls is left open.
   */
  ghost predicate Continues(st: State, es: seq<Event>, j: nat, i: nat) {
    && j < i < |es|
    && es[i].built != [] && es[i].facts.continuation
    && Announces(es[j], es[i].facts.vxid)
    && (forall k :: j < k < i ==> !Announces(es[k], es[i].facts.vxid))
    && Lookup(After(st, es[..i]).restarts, es[i].facts.vxid, es[i].now).Some?
  }

  ghost predicate OneTrace(spans: seq<Span>) {
    forall i :: 0 <= i < |spans| ==> spans[i].traceId == spans[0].traceId
  }

  /** The spans of `built` moved under the span `top`: hung on it, marked, and in its trace. */
  ghost predicate MovedUnder(g: seq<Span>, built: seq<Span>, trace: TraceId, span: SpanId) {
    && |g| == |built| > 0
    && g[0] == built[0].(parentId := span, traceId := trace, attrs := built[0].attrs + [RestartContinuation])
    && forall i :: 0 < i < |g| ==>
         g[i] == if built[i].traceId == built[0].traceId then built[i].(traceId := trace) else built[i]
  }

  /** A group is moved exactly if it continues an original that is known; any other stays as it was built. */
  lemma GroupExactly(st: State, e: Event)
    requires e.built != []
    ensures var found := Lookup(st.restarts, e.facts.vxid, e.now);
      if e.facts.continuation && found.Some?
      then MovedUnder(Group(st, e), e.built, found.value.traceId, found.value.spanId)
      else Group(st, e) == e.built
  {
    hide Lookup;
  }

  /** One restart: the continuation hangs on the top span of its original and shares its trace. */
  lemma ContinuationJoins(capacity: int, ttl: Duration, es: seq<Event>, j: nat, i: nat)
    requires Continues(NewState(capacity, ttl), es, j, i)
    ensures var st := NewState(capacity, ttl);
      var g, was := GroupAt(st, es, i), GroupAt(st, es, j);
      was != [] && MovedUnder(g, es[i].built, was[0].traceId, was[0].spanId)
  {
    hide Group, PutAll, Announces, Lookup, StepState, MovedUnder;
    var st, upto, x := NewState(capacity, ttl), es[..i], es[i].facts.vxid;
    RestartCacheIsLog(capacity, ttl, upto);
    LookupIsLatestWrite(capacity, ttl, RestartLog(st, upto), x, es[i].now);
    assert upto[..j] == es[..j] && upto[j] == es[j];
    forall k | j < k < |upto| ensures !Announces(upto[k], x) { assert upto[k] == es[k]; }
    LatestAnnouncement(st, upto, j, x);
    AnnouncedIsBuilt(es[j], x);
    GroupExactly(After(st, upto), es[i]);
  }

  lemma AnnouncedIsBuilt(e: Event, x: Vxid)
    requires Announces(e, x)
    ensures e.built != []
  {
  }

  /** Calls `chain[0], chain[1], ...`, each continuing the one before. */
  ghost predicate Chain(st: State, es: seq<Event>, chain: seq<nat>) {
    && chain != [] && chain[0] < |es| && es[chain[0]].built != []
    && forall k :: 0 < k < |chain| ==> Continues(st, es, chain[k - 1], chain[k])
  }

  /**
   Chains of any length: every span of every link carries the trace id of the first request,
   and each top span after the first is parented on the top span before it.
   */
  lemma {:induction false} RestartChain(capacity: int, ttl: Duration, es: seq<Event>, chain: seq<nat>, n: nat)
    requires Chain(NewState(capacity, ttl), es, chain) && 0 < n < |chain|
    requires forall i :: 0 <= i < |es| ==> OneTrace(es[i].built)
    ensures chain[0] < |es| && chain[n] < |es| && chain[n - 1] < |es|
    ensures var st := NewState(capacity, ttl);
      var first, before, g := GroupAt(st, es, chain[0]), GroupAt(st, es, chain[n - 1]), GroupAt(st, es, chain[n]);
      && first != [] && before != [] && g != []
      && g[0].parentId == before[0].spanId && RestartContinuation in g[0].attrs
      && (forall k :: 0 <= k < |g| ==> g[k].traceId == first[0].traceId && g[k].spanId == es[chain[n]].built[k].spanId)
      && (forall k :: 0 < k < |g| ==> g[k].parentId == es[chain[n]].built[k].parentId)
  {
    hide Group, Continues, After;
    var st := NewState(capacity, ttl);
    ContinuesBuilt(st, es, chain[n - 1], chain[n]);
    ContinuationJoins(capacity, ttl, es, chain[n - 1], chain[n]);
    if n > 1 {
      RestartChain(capacity, ttl, es, chain, n - 1);
    }
  }

  lemma ContinuesBuilt(st: State, es: seq<Event>, j: nat, i: nat)
    requires Continues(st, es, j, i)
    ensures j < i < |es| && es[i].built != [] && es[j].built != []
  {
    hide Lookup, After;
  }
}
