/**
 From transactions to exported spans: the linker fed by the span builder, and the export queue
 behind it (`cmd/tracer/main.go`).
 */
module Pipeline {
  import opened Wrappers
  import opened Vsl
  import opened Spans
  import opened SpanShape
  import opened VxidCaches
  import opened Linking
  import opened LinkerRuns
  import opened LinkerLinks
  import opened LinkerRestarts
  import Batching

  /** One transaction group handed to the linker, and the clock at that moment. */
  datatype Call = Call(tx: Tx, now: Time)

  function DrawnBy(read: EpochReader, ids: IdStream, calls: seq<Call>): Drawn {
    if calls == [] then Drawn(0, 0)
    else DrawnAfter(read, ids, calls[|calls| - 1].tx, DrawnBy(read, ids, calls[..|calls| - 1]))
  }

  function EventOf(read: EpochReader, ids: IdStream, c: Call, drawn: Drawn): Event {
    Event(FactsOf(read, c.tx), BuildSpans(read, ids, c.tx, drawn), c.now)
  }

  /** The linker's view of a sequence of transactions. */
  function Events(read: EpochReader, ids: IdStream, calls: seq<Call>): (r: seq<Event>)
    ensures |r| == |calls|
  {
    if calls == [] then []
    else
      var init := calls[..|calls| - 1];
      Events(read, ids, init) + [EventOf(read, ids, calls[|calls| - 1], DrawnBy(read, ids, init))]
  }

  // ----- what every built group looks like -----

  /** One trace, a request on top, no hit settled. */
  ghost predicate FreshGroup(spans: seq<Span>) {
    OneTrace(spans) && Plain(spans) && (spans != [] ==> spans[0].kind.Request?)
  }

  lemma BuiltIsFresh(read: EpochReader, ids: IdStream, tx: Tx, drawn: Drawn)
    ensures FreshGroup(BuildSpans(read, ids, tx, drawn))
  {
    hide BuildSpans, NodePaths, IdAt, WalkOf, TraceOf, RetryOrdinal, NodeAt, SpanShape.Valid;
    var spans := BuildSpans(read, ids, tx, drawn);
    if Builds(read, tx) {
      SpanTreeShape(read, ids, tx, drawn);
      forall i | 0 <= i < |spans|
        ensures spans[i].traceId == TraceOf(tx, ids, drawn) && spans[i].links == []
        ensures Coalesced !in spans[i].attrs && CoalescedUnlinked !in spans[i].attrs
      {
        SpanContents(read, ids, tx, drawn, i);
      }
      TopContents(read, ids, tx, drawn);
    } else {
      NotBuilt(read, ids, tx, drawn);
    }
  }

  lemma NotBuilt(read: EpochReader, ids: IdStream, tx: Tx, drawn: Drawn)
    requires !Builds(read, tx)
    ensures BuildSpans(read, ids, tx, drawn) == []
  {
  }

  lemma {:induction false} EventsAreFresh(read: EpochReader, ids: IdStream, calls: seq<Call>, i: nat)
    requires i < |calls|
    ensures FreshGroup(Events(read, ids, calls)[i].built)
  {
    hide FreshGroup, BuildSpans, FactsOf;
    var init := calls[..|calls| - 1];
    if i < |init| {
      EventsAreFresh(read, ids, init, i);
    } else {
      BuiltIsFresh(read, ids, calls[i].tx, DrawnBy(read, ids, init));
    }
  }

  /** The hypotheses of the run theorems hold of every sequence of transactions. */
  lemma EventsWellFormed(read: EpochReader, ids: IdStream, calls: seq<Call>)
    ensures RequestFirst(Events(read, ids, calls))
    ensures forall i :: 0 <= i < |calls| ==> FreshGroup(Events(read, ids, calls)[i].built)
  {
    hide Events, OneTrace, Plain;
    forall i | 0 <= i < |calls| ensures FreshGroup(Events(read, ids, calls)[i].built) {
      EventsAreFresh(read, ids, calls, i);
    }
  }

  lemma GroupIsPlain(st: State, e: Event)
    requires FreshGroup(e.built)
    ensures Plain(Group(st, e))
  {
    hide Original, OneTrace;
  }

  lemma {:induction false} JobsArePlain(st: State, es: seq<Event>, job: Job)
    requires forall i :: 0 <= i < |es| ==> FreshGroup(es[i].built)
    requires job in Jobs(st, es)
    ensures job.spans != [] && Plain(job.spans)
  {
    hide FreshGroup, Plain, Group, StepState;
    var init, e := es[..|es| - 1], es[|es| - 1];
    if job in Jobs(st, init) {
      assert forall i :: 0 <= i < |init| ==> init[i] == es[i];
      JobsArePlain(st, init, job);
    } else {
      GroupIsPlain(After(st, init), e);
    }
  }

  lemma FinalSettles(st: State, es: seq<Event>, r: Release)
    requires r in FinalOutput(st, es)
    ensures Settles(r)
  {
    hide Output;
    if r in Output(st, es) { OutputSettles(st, es, r); }
  }

  lemma ReleasedWasBuilt(capacity: int, ttl: Duration, es: seq<Event>, r: Release)
    requires r in FinalOutput(NewState(capacity, ttl), es)
    ensures r.job in Jobs(NewState(capacity, ttl), es)
  {
    hide FinalOutput, Jobs;
    var st := NewState(capacity, ttl);
    ExactlyOnceAfterFlush(capacity, ttl, es);
    var i :| 0 <= i < |FinalOutput(st, es)| && FinalOutput(st, es)[i] == r;
    assert Map(Released, FinalOutput(st, es))[i] == r.job;
    assert r.job in Left(FinalOutput(st, es));
  }

  /**
   Every group released in a flushed run of transactions: with a hit it carries exactly one of
   link and unlinked flag, without one neither, and never anywhere but on its top span.
   */
  lemma EveryHitSettledOnce(read: EpochReader, ids: IdStream, capacity: int, ttl: Duration, calls: seq<Call>,
                            r: Release)
    requires r in FinalOutput(NewState(capacity, ttl), Events(read, ids, calls))
    ensures r.job in Jobs(NewState(capacity, ttl), Events(read, ids, calls))
    ensures var out := Emitted(r);
      && |out| == |r.job.spans| > 0
      && (r.job.hit.Some? ==> IsLinked(out[0]) != IsDegraded(out[0]))
      && (r.job.hit.None? ==> !IsLinked(out[0]) && !IsDegraded(out[0]))
      && (forall i :: 0 < i < |out| ==> !IsLinked(out[i]) && !IsDegraded(out[i]))
  {
    hide FinalOutput, Jobs, Plain, FreshGroup, Settles, Events;
    var st, es := NewState(capacity, ttl), Events(read, ids, calls);
    EventsWellFormed(read, ids, calls);
    ReleasedWasBuilt(capacity, ttl, es, r);
    JobsArePlain(st, es, r.job);
    FinalSettles(st, es, r);
    HitOutcome(r);
  }

  /** The call of the run that released a group. */
  lemma {:induction false} ReleasedAt(st: State, es: seq<Event>, r: Release) returns (k: nat)
    requires r in Output(st, es)
    ensures k < |es| && r in StepReleases(After(st, es[..k]), es[k])
  {
    hide StepReleases, After;
    var init := es[..|es| - 1];
    if r in Output(st, init) {
      k := ReleasedAt(st, init, r);
      assert es[..k] == init[..k];
    } else {
      k := |es| - 1;
    }
  }

  /** `s` points at the fetch `t` alone, and is coalesced exactly if it began before `t` ended. */
  ghost predicate ServedFrom(s: Span, t: Span) {
    && t.kind.Fetch? && s.links == [Link(t.traceId, t.spanId)]
    && (Coalesced in s.attrs <==> s.start < t.end)
  }

  lemma {:induction false} EmittedOf(rs: seq<Release>, s: Span) returns (r: Release)
    requires s in EmittedAll(rs)
    ensures r in rs && s in Emitted(r)
  {
    hide Emitted;
    var n := |rs| - 1;
    assert rs != [];
    assert rs == rs[..n] + [rs[n]];
    EmittedAllSnoc(rs[..n], rs[n]);
    if s in Emitted(rs[n]) {
      r := rs[n];
    } else {
      r := EmittedOf(rs[..n], s);
    }
  }

  /** In the output of every flushed run of transactions, each link leads to a fetch span of that output. */
  lemma EveryLinkLeadsToAFetch(read: EpochReader, ids: IdStream, capacity: int, ttl: Duration, calls: seq<Call>,
                               s: Span) returns (target: Span)
    requires s in EmittedAll(FinalOutput(NewState(capacity, ttl), Events(read, ids, calls))) && s.links != []
    ensures target in EmittedAll(FinalOutput(NewState(capacity, ttl), Events(read, ids, calls)))
    ensures ServedFrom(s, target)
  {
    hide Jobs, FreshGroup, Settles, Events, Output, EmittedAll, Emitted, StepReleases, RequestFirst;
    var st, es := NewState(capacity, ttl), Events(read, ids, calls);
    var r := EmittedOf(FinalOutput(st, es), s);
    EventsWellFormed(read, ids, calls);
    ReleasedWasBuilt(capacity, ttl, es, r);
    JobsArePlain(st, es, r.job);
    FinalSettles(st, es, r);
    HitOutcome(r);
    assert s == Emitted(r)[0] && r.how.Linked?;
    var k := ReleasedAt(st, es, r);
    target := LinkTargetExported(capacity, ttl, es, k, r);
    assert Plain(r.job.spans);
  }

  // ----- end to end -----

  /** A span without what the linker adds when its group leaves. */
  function Bare(s: Span): Span { s.(attrs := [], links := []) }

  /** A span without what stitching changes either: its number, span id, kind and times. */
  function Core(s: Span): Span { Bare(s).(traceId := 0, parentId := 0) }

  function SpansOf(job: Job): seq<Span> { job.spans }

  function BuiltBy(e: Event): seq<Span> { e.built }

  function BareSpans(job: Job): seq<Span> { Map(Bare, job.spans) }

  lemma {:induction false} MapFlatten<A, B, C>(f: B -> C, g: A -> seq<B>, h: A -> seq<C>, xs: seq<A>)
    requires forall x :: x in xs ==> Map(f, g(x)) == h(x)
    ensures Map(f, Flatten(Map(g, xs))) == Flatten(Map(h, xs))
  {
    if xs != [] {
      MapFlatten(f, g, h, xs[1..]);
      assert Map(g, xs)[1..] == Map(g, xs[1..]) && Map(h, xs)[1..] == Map(h, xs[1..]);
      MapAppend(f, g(xs[0]), Flatten(Map(g, xs[1..])));
    }
  }

  /** What leaves is, bare, what was built, whatever was linked, flagged, parked or reordered. */
  lemma ReleasedBare(rs: seq<Release>, jobs: seq<Job>)
    requires Left(rs) == multiset(jobs)
    ensures multiset(Map(Bare, EmittedAll(rs))) == multiset(Map(Bare, Flatten(Map(SpansOf, jobs))))
  {
    hide Flatten;
    var left, out := Map(Released, rs), (r: Release) => BareSpans(r.job);
    forall r: Release ensures Map(Bare, Emitted(r)) == BareSpans(r.job) { EmittedBare(r); }
    MapFlatten(Bare, Emitted, out, rs);
    MapFlatten(Bare, SpansOf, BareSpans, jobs);
    assert Map(out, rs) == Map(BareSpans, left);
    MapPermuted(BareSpans, left, jobs);
    FlattenPermuted(Map(BareSpans, left), Map(BareSpans, jobs));
  }

  lemma EmittedBare(r: Release)
    ensures Map(Bare, Emitted(r)) == BareSpans(r.job)
  {
    var s := r.job.spans;
    if s != [] {
      assert s == [s[0]] + s[1..];
    }
  }

  /** Stitching keeps the core of every span. */
  lemma {:induction false} JobsCore(st: State, es: seq<Event>)
    ensures Map(Core, Flatten(Map(SpansOf, Jobs(st, es)))) == Map(Core, Flatten(Map(BuiltBy, es)))
  {
    hide Group, After, Flatten;
    if es == [] {
      assert Map(SpansOf, Jobs(st, es)) == Map(BuiltBy, es);
    } else {
      var init, e := es[..|es| - 1], es[|es| - 1];
      JobsCore(st, init);
      var now := After(st, init);
      assert es == init + [e];
      MapAppend(BuiltBy, init, [e]);
      assert Map(BuiltBy, [e]) == [e.built];
      FlattenSnoc(Map(BuiltBy, init), e.built);
      if e.built != [] {
        var own := Job(e.facts.hit, Group(now, e), e.now);
        assert Jobs(st, es) == Jobs(st, init) + [own];
        MapAppend(SpansOf, Jobs(st, init), [own]);
        assert Map(SpansOf, [own]) == [Group(now, e)];
        FlattenSnoc(Map(SpansOf, Jobs(st, init)), Group(now, e));
        GroupCore(now, e);
        MapAppend(Core, Flatten(Map(SpansOf, Jobs(st, init))), Group(now, e));
      } else {
        assert Jobs(st, es) == Jobs(st, init);
      }
      MapAppend(Core, Flatten(Map(BuiltBy, init)), e.built);
    }
  }

  lemma GroupCore(st: State, e: Event)
    ensures Map(Core, Group(st, e)) == Map(Core, e.built)
  {
    hide Lookup;
  }

  lemma CoreOfBare(xs: seq<Span>, ys: seq<Span>)
    requires multiset(Map(Bare, xs)) == multiset(Map(Bare, ys))
    ensures multiset(Map(Core, xs)) == multiset(Map(Core, ys))
  {
    MapPermuted(Core, Map(Bare, xs), Map(Bare, ys));
    assert Map(Core, Map(Bare, xs)) == Map(Core, xs) && Map(Core, Map(Bare, ys)) == Map(Core, ys);
  }

  /**
   The whole tracer: for every sequence of transactions and every interleaving of the export
   queue that is fed their spans and then the flushed ones, cancelled only afterwards, the spans
   exported, in batches counted as failed, or counted as dropped are together exactly the spans
   of all groups, up to the attributes and links added on the way; and exactly the spans built
   from the transactions, up to what stitching changes.
   */
  lemma EveryBuiltSpanAccountedFor(read: EpochReader, ids: IdStream, capacity: int, ttl: Duration, calls: seq<Call>,
                                   queueLen: nat, steps: seq<Batching.Step<Span>>)
    requires queueLen > 0 && Batching.IsRun(Batching.Initial<Span>(queueLen), steps) && Batching.CancelLast(steps)
    requires Batching.Exec(Batching.Initial<Span>(queueLen), steps).phase.Done?
    requires Batching.Attempts(steps) == EmittedAll(FinalOutput(NewState(capacity, ttl), Events(read, ids, calls)))
    ensures var end := Batching.Exec(Batching.Initial<Span>(queueLen), steps);
      var st, es := NewState(capacity, ttl), Events(read, ids, calls);
      var out := Batching.SentWith(end.batches, true) + Batching.SentWith(end.batches, false) + end.dropped;
      && end.queue == [] && end.buf == []
      && Left(FinalOutput(st, es)) == multiset(Jobs(st, es))
      && multiset(EmittedAll(FinalOutput(st, es))) == multiset(out)
      && multiset(Map(Bare, out)) == multiset(Map(Bare, Flatten(Map(SpansOf, Jobs(st, es)))))
      && multiset(Map(Core, out)) == multiset(Map(Core, Flatten(Map(BuiltBy, es))))
  {
    hide Batching.Exec, Batching.Attempts, FinalOutput, Jobs, Left, EmittedAll, Events, Batching.SentWith, Flatten;
    Batching.ShutdownLosesNothing(queueLen, steps);
    var end := Batching.Exec(Batching.Initial<Span>(queueLen), steps);
    var st, es := NewState(capacity, ttl), Events(read, ids, calls);
    var out := Batching.SentWith(end.batches, true) + Batching.SentWith(end.batches, false) + end.dropped;
    ExactlyOnceAfterFlush(capacity, ttl, es);
    ReleasedBare(FinalOutput(st, es), Jobs(st, es));
    MapPermuted(Bare, EmittedAll(FinalOutput(st, es)), out);
    CoreOfBare(out, Flatten(Map(SpansOf, Jobs(st, es))));
    JobsCore(st, es);
  }

  // ----- the order of shutdown -----

  /** Everything offered to the queue so far, wherever it is now. */
  ghost function Offered(b: Batching.State<Span>): multiset<Span> { multiset(Batching.Held(b)) + multiset(b.dropped) }

  lemma OfferedGrows(b: Batching.State<Span>, s: Span)
    ensures Offered(Batching.Next(b, Batching.Step.Enqueue(s))) == Offered(b) + multiset{s}
  {
    hide Batching.Held;
    Batching.NextHeld(b, Batching.Step.Enqueue(s));
  }

  /** One turn of the export loop: it receives a span, or its ticker fires; `ok` is the exporter's answer. */
  datatype Turn = Receives(ok: bool) | Ticks(ok: bool)

  lemma TurnKeeps(b: Batching.State<Span>, step: Batching.Step<Span>)
    requires Batching.Enabled(b, step) && !step.Enqueue?
    ensures Offered(Batching.Next(b, step)) == Offered(b)
  {
    hide Batching.Held, Batching.Next, Batching.Enabled;
    Batching.NextHeld(b, step);
  }

  /** The loop's own turns, each taken if it is possible then, change nothing about what was offered. */
  method RunLoop(batcher: Batching.Batcher<Span>, turns: seq<Turn>)
    modifies batcher
    ensures Offered(batcher.Model()) == old(Offered(batcher.Model()))
    ensures batcher.phase == old(batcher.phase) && batcher.cancelled == old(batcher.cancelled)
  {
    hide Offered;
    for i := 0 to |turns|
      invariant Offered(batcher.Model()) == old(Offered(batcher.Model()))
      invariant batcher.phase == old(batcher.phase) && batcher.cancelled == old(batcher.cancelled)
    {
      if batcher.phase.Running? {
        var ok := turns[i].ok;
        if turns[i].Receives? && |batcher.queue| > 0 {
          TurnKeeps(batcher.Model(), Batching.Step<Span>.Receive(ok));
          batcher.Receive(ok);
        } else if turns[i].Ticks? {
          TurnKeeps(batcher.Model(), Batching.Step<Span>.Tick(ok));
          batcher.FlushBuffer(ok);
        }
      }
    }
  }

  /** Spans are offered one by one while the loop takes its turns in between, `schedule(i)` after the `i`-th. */
  method EnqueueAll(batcher: Batching.Batcher<Span>, spans: seq<Span>, schedule: nat -> seq<Turn>)
    modifies batcher
    ensures Offered(batcher.Model()) == old(Offered(batcher.Model())) + multiset(spans)
    ensures batcher.phase == old(batcher.phase) && batcher.cancelled == old(batcher.cancelled)
  {
    hide Offered;
    for i := 0 to |spans|
      invariant Offered(batcher.Model()) == old(Offered(batcher.Model())) + multiset(spans[..i])
      invariant batcher.phase == old(batcher.phase) && batcher.cancelled == old(batcher.cancelled)
    {
      OfferedGrows(batcher.Model(), spans[i]);
      batcher.Enqueue(spans[i]);
      RunLoop(batcher, schedule(i));
      assert spans[..i + 1] == spans[..i] + [spans[i]];
    }
    assert spans[..|spans|] == spans;
  }

  /** One transaction group: built, linked, and everything released handed to the queue. */
  method Handle(linker: Linker, batcher: Batching.Batcher<Span>, tx: Tx, now: Time, schedule: nat -> seq<Turn>)
    returns (outcome: Outcome)
    requires linker.Valid()
    modifies linker, linker.fetches, linker.restarts, linker.ids, batcher
    ensures linker.Valid() && outcome == OutcomeOf(linker.read, tx)
    ensures var drawn := Drawn(old(linker.ids.traces), old(linker.ids.spans));
      var e := EventOf(linker.read, linker.ids.stream, Call(tx, now), drawn);
      && linker.Model() == StepState(old(linker.Model()), e)
      && Offered(batcher.Model())
           == old(Offered(batcher.Model())) + multiset(EmittedAll(StepReleases(old(linker.Model()), e)))
  {
    hide Sound, StepState, StepReleases, EmittedAll, Offered, BuildSpans, FactsOf, DrawnAfter, OutcomeOf;
    var built;
    built, outcome := linker.Build(tx, now);
    EnqueueAll(batcher, built, schedule);
  }

  /**
   After the supervisor has returned: flush the lot, enqueue what it held, only then cancel and
   drain, whatever turns the loop takes after each span and before it sees the cancellation.
   Nothing is left in the lot, the queue or the buffer, and nothing offered is forgotten.
   */
  method Shutdown(linker: Linker, batcher: Batching.Batcher<Span>, schedule: nat -> seq<Turn>, last: seq<Turn>,
                  ok: bool)
    requires linker.Valid() && batcher.phase.Running?
    modifies linker, batcher
    ensures linker.Valid() && linker.parked == []
    ensures batcher.phase.Done? && batcher.queue == [] && batcher.buf == []
    ensures Offered(batcher.Model())
         == old(Offered(batcher.Model())) + multiset(EmittedAll(FlushReleases(old(linker.Model()))))
  {
    hide Sound, EmittedAll, FlushReleases, Offered;
    var spans := linker.Flush();
    EnqueueAll(batcher, spans, schedule);
    batcher.cancelled := true;
    CancelKeeps(batcher.Model());
    RunLoop(batcher, last);
    ghost var before := batcher.Model();
    batcher.Drain(ok);
    DrainKeeps(before, ok);
  }

  lemma CancelKeeps(b: Batching.State<Span>)
    ensures Offered(b) == Offered(b.(cancelled := false))
  {
  }

  lemma DrainKeeps(b: Batching.State<Span>, ok: bool)
    ensures Offered(Batching.Drained(b, ok)) == Offered(b)
    ensures Batching.Drained(b, ok).queue == [] && Batching.Drained(b, ok).buf == []
  {
    var all := b.(buf := b.buf + b.queue, queue := [], phase := Batching.Done);
    assert Batching.Held(all) == Batching.Held(b);
    Batching.FlushHeld(all, ok);
  }
}
