/**
 Cross-transaction correlation (`internal/tracer/spans/linker.go`): hits are linked to the
 fetch they were served from, restarted requests join the trace of the original, and groups
 whose fetch has not been seen yet wait in a bounded parking lot.

 `Step` is one `Build` call on values; the class `Linker` performs it in place.
 */
module Linking {
  import opened Wrappers
  import opened Text
  import opened Traceparents
  import opened Vsl
  import opened VxidCaches
  import opened Spans
  import opened SpanBuilder

  datatype FetchInfo = FetchInfo(traceId: TraceId, spanId: SpanId, end: Time)
  datatype RestartInfo = RestartInfo(traceId: TraceId, spanId: SpanId)

  /** A group withheld until the fetch `vxid` shows up. */
  datatype ParkedSet = ParkedSet(vxid: Vxid, spans: seq<Span>, arrivedAt: Time)

  const DEFAULT_MAX_PARKED: nat := 256
  const DEFAULT_PARK_AGE_LIMIT: Duration := 10_000_000_000

  // ----- what a transaction says about others -----

  predicate IsRestartContinuation(tx: Tx) {
    tx.kind == "Request" &&
    match First(tx, "Begin")
    case None => false
    case Some(b) => |Fields(b)| >= 3 && Fields(b)[2] == "restart"
  }

  function RestartKey(r: Record): Option<Vxid> {
    if IsRestartLink(r) then ParseUint64(Fields(r.payload)[1]) else None
  }

  /** The continuations named by the transaction's own records. */
  function RestartKeys(rs: seq<Record>): seq<Vxid> {
    if rs == [] then []
    else match RestartKey(rs[|rs| - 1])
      case None => RestartKeys(rs[..|rs| - 1])
      case Some(k) => RestartKeys(rs[..|rs| - 1]) + [k]
  }

  /** The fetch named by the transaction's own Hit record. */
  function HitOf(tx: Tx): Option<Vxid> {
    match First(tx, "Hit")
    case None => None
    case Some(raw) => if Fields(raw) == [] then None else ParseUint64(Fields(raw)[0])
  }

  datatype Facts = Facts(vxid: Vxid, continuation: bool, restarts: seq<Vxid>, hit: Option<Vxid>, waiter: bool)

  function FactsOf(read: EpochReader, tx: Tx): Facts {
    Facts(tx.vxid, IsRestartContinuation(tx), RestartKeys(tx.records), HitOf(tx),
          Timestamp(read, tx, "Waitinglist").Some?)
  }

  // ----- state and results -----

  /** One `Build` call: what the transaction says, the spans built from it, the clock. */
  datatype Event = Event(facts: Facts, built: seq<Span>, now: Time)

  datatype State = State(
    fetches: Cache<FetchInfo>, restarts: Cache<RestartInfo>,
    parked: seq<ParkedSet>, maxParked: nat, ageLimit: Duration,
    misses: nat, parks: nat)

  /** A built group: the hit it still has to settle, its spans, its arrival. */
  datatype Job = Job(hit: Option<Vxid>, spans: seq<Span>, at: Time)

  datatype Disposition = AsIs | Linked(fetch: FetchInfo) | Degraded

  /** A group leaving the linker, how its hit was settled, and whether it had been parked. */
  datatype Release = Release(job: Job, how: Disposition, fromLot: bool)

  function JobOf(p: ParkedSet): Job { Job(Some(p.vxid), p.spans, p.arrivedAt) }

  function Released(r: Release): Job { r.job }

  function LinkHit(req: Span, fetch: FetchInfo): Span {
    req.(links := req.links + [Link(fetch.traceId, fetch.spanId)],
         attrs := if req.start < fetch.end then req.attrs + [Coalesced] else req.attrs)
  }

  function Degrade(req: Span): Span { req.(attrs := req.attrs + [CoalescedUnlinked]) }

  /** The spans handed to the caller for a release: only the top one may differ from what was built. */
  function Emitted(r: Release): seq<Span> {
    if r.job.spans == [] then []
    else match r.how
      case AsIs => r.job.spans
      case Linked(fetch) => [LinkHit(r.job.spans[0], fetch)] + r.job.spans[1..]
      case Degraded => [Degrade(r.job.spans[0])] + r.job.spans[1..]
  }

  function EmittedAll(rs: seq<Release>): seq<Span> { Flatten(Map(Emitted, rs)) }

  // ----- one call -----

  predicate Overstayed(st: State, now: Time, p: ParkedSet) { now - p.arrivedAt > st.ageLimit }

  function OverstayedAt(st: State, now: Time): ParkedSet -> bool { p => Overstayed(st, now, p) }

  function DegradedFromLot(p: ParkedSet): Release { Release(JobOf(p), Degraded, true) }

  function AgedReleases(st: State, now: Time): seq<Release> {
    Map(DegradedFromLot, Select(OverstayedAt(st, now), st.parked, true))
  }

  function AfterAging(st: State, now: Time): State {
    st.(parked := Select(OverstayedAt(st, now), st.parked, false),
        misses := st.misses + |Select(OverstayedAt(st, now), st.parked, true)|)
  }

  /** A continuation's spans moved under the original request and into its trace. */
  function Stitch(built: seq<Span>, orig: RestartInfo): (r: seq<Span>)
    ensures |r| == |built|
  {
    seq(|built|, i requires 0 <= i < |built| => StitchOne(built[i], i == 0, built[0].traceId, orig))
  }

  function StitchTop(s: Span, orig: RestartInfo): Span {
    s.(parentId := orig.spanId, traceId := orig.traceId, attrs := s.attrs + [RestartContinuation])
  }

  function StitchOne(s: Span, top: bool, oldTrace: TraceId, orig: RestartInfo): Span {
    if top then StitchTop(s, orig)
    else if s.traceId == oldTrace then s.(traceId := orig.traceId)
    else s
  }

  function Original(st: State, e: Event): Option<RestartInfo> {
    if e.facts.continuation then Lookup(st.restarts, e.facts.vxid, e.now) else None
  }

  /** The group as it is from here on: stitched onto its original when that is known. */
  function Group(st: State, e: Event): (r: seq<Span>)
    ensures |r| == |e.built|
  {
    match Original(st, e)
    case None => e.built
    case Some(orig) => Stitch(e.built, orig)
  }

  function InfoOf(s: Span): FetchInfo { FetchInfo(s.traceId, s.spanId, s.end) }

  function FetchWrites(spans: seq<Span>, now: Time): seq<Write<FetchInfo>> {
    if spans == [] then []
    else
      var init, s := spans[..|spans| - 1], spans[|spans| - 1];
      if s.kind.Fetch? then FetchWrites(init, now) + [Write(s.vxid, InfoOf(s), now)] else FetchWrites(init, now)
  }

  function RestartWrites(keys: seq<Vxid>, top: Span, now: Time): (r: seq<Write<RestartInfo>>)
    ensures |r| == |keys|
  {
    seq(|keys|, i requires 0 <= i < |keys| => Write(keys[i], RestartInfo(top.traceId, top.spanId), now))
  }

  function Recorded(st: State, e: Event, spans: seq<Span>): State
    requires spans != []
  {
    st.(misses := st.misses + (if e.facts.continuation && Original(st, e).None? then 1 else 0),
        fetches := PutAll(st.fetches, FetchWrites(spans, e.now)),
        restarts := PutAll(st.restarts, RestartWrites(e.facts.restarts, spans[0], e.now)))
  }

  predicate Resolvable(fetches: Cache<FetchInfo>, now: Time, p: ParkedSet) { Lookup(fetches, p.vxid, now).Some? }

  function ResolvableAt(fetches: Cache<FetchInfo>, now: Time): ParkedSet -> bool { p => Resolvable(fetches, now, p) }

  function LinkedFromLot(fetches: Cache<FetchInfo>, now: Time, p: ParkedSet): Release {
    Release(JobOf(p), match Lookup(fetches, p.vxid, now) case Some(f) => Linked(f) case None => AsIs, true)
  }

  function LinkedFromLotAt(fetches: Cache<FetchInfo>, now: Time): ParkedSet -> Release {
    p => LinkedFromLot(fetches, now, p)
  }

  function ResolvedReleases(st: State, now: Time): seq<Release> {
    Map(LinkedFromLotAt(st.fetches, now), Select(ResolvableAt(st.fetches, now), st.parked, true))
  }

  function AfterResolving(st: State, now: Time): State {
    st.(parked := Select(ResolvableAt(st.fetches, now), st.parked, false))
  }

  /** What happens to the caller's own group. */
  datatype Fate = Leaves(how: Disposition) | Parks

  function FateOf(st: State, e: Event): Fate {
    match e.facts.hit
    case None => Leaves(AsIs)
    case Some(v) =>
      match Lookup(st.fetches, v, e.now)
      case Some(fetch) => Leaves(Linked(fetch))
      case None => if e.facts.waiter then Parks else Leaves(Degraded)
  }

  function Overflow(st: State): seq<Release> {
    if |st.parked| >= st.maxParked && st.parked != [] then [DegradedFromLot(st.parked[0])] else []
  }

  function OwnReleases(st: State, e: Event, spans: seq<Span>): seq<Release> {
    match FateOf(st, e)
    case Leaves(how) => [Release(Job(e.facts.hit, spans, e.now), how, false)]
    case Parks => Overflow(st)
  }

  function Settled(st: State, e: Event, spans: seq<Span>): State {
    match FateOf(st, e)
    case Leaves(how) => if how.Degraded? then st.(misses := st.misses + 1) else st
    case Parks =>
      st.(parked := st.parked[|Overflow(st)|..] + [ParkedSet(e.facts.hit.value, spans, e.now)],
          misses := st.misses + |Overflow(st)|, parks := st.parks + 1)
  }

  function StepState(st: State, e: Event): State {
    var st1 := AfterAging(st, e.now);
    if e.built == [] then st1
    else Settled(AfterResolving(Recorded(st1, e, Group(st, e)), e.now), e, Group(st, e))
  }

  function StepReleases(st: State, e: Event): seq<Release> {
    var st1 := AfterAging(st, e.now);
    if e.built == [] then AgedReleases(st, e.now)
    else
      var st2 := Recorded(st1, e, Group(st, e));
      AgedReleases(st, e.now) + ResolvedReleases(st2, e.now) + OwnReleases(AfterResolving(st2, e.now), e, Group(st, e))
  }

  function FlushState(st: State): State { st.(parked := [], misses := st.misses + |st.parked|) }

  function FlushReleases(st: State): seq<Release> { Map(DegradedFromLot, st.parked) }

  function NewState(capacity: int, ttl: Duration): State {
    State(Empty(capacity, ttl), Empty(capacity, ttl), [], DEFAULT_MAX_PARKED, DEFAULT_PARK_AGE_LIMIT, 0, 0)
  }

  /** What every reachable state satisfies. */
  ghost predicate Sound(st: State) {
    && VxidCaches.Valid(st.fetches) && VxidCaches.Valid(st.restarts)
    && st.maxParked > 0 && |st.parked| <= st.maxParked
    && forall p :: p in st.parked ==> p.spans != []
  }

  // ----- the object -----

  lemma {:induction false} EmittedAllSnoc(rs: seq<Release>, r: Release)
    ensures EmittedAll(rs + [r]) == EmittedAll(rs) + Emitted(r)
  {
    MapAppend(Emitted, rs, [r]);
    assert Map(Emitted, [r]) == [Emitted(r)];
    FlattenSnoc(Map(Emitted, rs), Emitted(r));
  }

  lemma EmittedMapSnoc<T>(g: T -> Release, xs: seq<T>, x: T)
    ensures EmittedAll(Map(g, xs + [x])) == EmittedAll(Map(g, xs)) + Emitted(g(x))
  {
    hide EmittedAll, Emitted;
    MapAppend(g, xs, [x]);
    assert Map(g, [x]) == [g(x)];
    EmittedAllSnoc(Map(g, xs), g(x));
  }

  lemma EmittedAllAppend(a: seq<Release>, b: seq<Release>)
    ensures EmittedAll(a + b) == EmittedAll(a) + EmittedAll(b)
  {
    MapAppend(Emitted, a, b);
    FlattenAppend(Map(Emitted, a), Map(Emitted, b));
  }

  lemma SelectSnoc<T>(f: T -> bool, s: seq<T>, keep: bool, i: nat)
    requires i < |s|
    ensures Select(f, s[..i + 1], keep)
         == if f(s[i]) == keep then Select(f, s[..i], keep) + [s[i]] else Select(f, s[..i], keep)
  {
    assert s[..i + 1][..i] == s[..i];
  }

  /** Appending to a log performs one more write. */
  lemma PutAllSnoc<V>(c: Cache<V>, log: seq<Write<V>>, w: Write<V>)
    ensures PutAll(c, log + [w]) == Put(PutAll(c, log), w)
  {
    assert (log + [w])[..|log|] == log;
  }

  method ReparentRestart(built: seq<Span>, orig: RestartInfo) returns (r: seq<Span>)
    requires built != []
    ensures r == Stitch(built, orig)
  {
    hide StitchOne, StitchTop;
    var oldTrace := built[0].traceId;
    r := built[0 := StitchTop(built[0], orig)];
    StitchCases(built[0], oldTrace, orig);
    for i := 1 to |built|
      invariant |r| == |built|
      invariant forall j :: 0 <= j < i ==> r[j] == StitchOne(built[j], j == 0, oldTrace, orig)
      invariant forall j :: i <= j < |built| ==> r[j] == built[j]
    {
      StitchCases(r[i], oldTrace, orig);
      if r[i].traceId == oldTrace {
        r := r[i := r[i].(traceId := orig.traceId)];
      }
    }
  }

  lemma StitchCases(s: Span, oldTrace: TraceId, orig: RestartInfo)
    ensures StitchOne(s, true, oldTrace, orig) == StitchTop(s, orig)
    ensures StitchOne(s, false, oldTrace, orig) == if s.traceId == oldTrace then s.(traceId := orig.traceId) else s
  {
  }

  class Linker {
    const read: EpochReader
    const ids: IdSource
    const fetches: VxidCache<FetchInfo>
    const restarts: VxidCache<RestartInfo>
    const maxParked: nat
    const ageLimit: Duration
    var parked: seq<ParkedSet>
    /** Calls of OnCacheMiss and of OnHitParked. */
    var misses: nat
    var parks: nat

    ghost predicate Valid()
      reads this, fetches, restarts
    {
      fetches as object != restarts && Sound(Model())
    }

    ghost function Model(): State
      reads this, fetches, restarts
    {
      State(fetches.Model(), restarts.Model(), parked, maxParked, ageLimit, misses, parks)
    }

    constructor (read: EpochReader, capacity: int, ttl: Duration, ids: IdSource)
      ensures Valid() && Model() == NewState(capacity, ttl)
      ensures this.ids == ids && this.read == read && fresh(fetches) && fresh(restarts)
    {
      this.read, this.ids := read, ids;
      fetches := new VxidCache<FetchInfo>(capacity, ttl);
      restarts := new VxidCache<RestartInfo>(capacity, ttl);
      maxParked, ageLimit := DEFAULT_MAX_PARKED, DEFAULT_PARK_AGE_LIMIT;
      parked, misses, parks := [], 0, 0;
    }

    method DegradeRelease(p: ParkedSet) returns (out: seq<Span>)
      requires p.spans != []
      modifies this`misses
      ensures out == Emitted(DegradedFromLot(p)) && misses == old(misses) + 1
    {
      misses := misses + 1;
      out := p.spans[0 := Degrade(p.spans[0])];
    }

    method ReleaseAgedParked(now: Time) returns (out: seq<Span>)
      requires Valid()
      modifies this`parked, this`misses
      ensures Model() == AfterAging(old(Model()), now)
      ensures out == EmittedAll(AgedReleases(old(Model()), now))
    {
      hide Sound, EmittedAll, Emitted, Select, Map;
      assert forall i :: 0 <= i < |parked| ==> parked[i].spans != [] by { LotSpans(Model()); }
      out := [];
      var kept := [];
      ghost var f := OverstayedAt(Model(), now);
      NothingSelected(DegradedFromLot, f);
      assert parked[..0] == [];
      for i := 0 to |parked|
        invariant parked == old(parked)
        invariant kept == Select(f, parked[..i], false)
        invariant misses == old(misses) + |Select(f, parked[..i], true)|
        invariant out == EmittedAll(Map(DegradedFromLot, Select(f, parked[..i], true)))
      {
        var p := parked[i];
        SelectSnoc(f, parked, true, i);
        SelectSnoc(f, parked, false, i);
        if now - p.arrivedAt > ageLimit {
          var spans := DegradeRelease(p);
          EmittedMapSnoc(DegradedFromLot, Select(f, parked[..i], true), p);
          out := out + spans;
        } else {
          kept := kept + [p];
        }
      }
      assert parked[..|parked|] == parked;
      parked := kept;
    }

    method ResolveParked(now: Time) returns (out: seq<Span>)
      requires Valid()
      modifies this`parked
      ensures Model() == AfterResolving(old(Model()), now)
      ensures out == EmittedAll(ResolvedReleases(old(Model()), now))
    {
      hide Sound, EmittedAll, Emitted, Select, Map;
      assert forall i :: 0 <= i < |parked| ==> parked[i].spans != [] by { LotSpans(Model()); }
      out := [];
      var kept := [];
      ghost var cache := fetches.Model();
      ghost var f, g := ResolvableAt(cache, now), LinkedFromLotAt(cache, now);
      NothingSelected(g, f);
      assert parked[..0] == [];
      for i := 0 to |parked|
        invariant parked == old(parked)
        invariant kept == Select(f, parked[..i], false)
        invariant out == EmittedAll(Map(g, Select(f, parked[..i], true)))
      {
        var p := parked[i];
        SelectSnoc(f, parked, true, i);
        SelectSnoc(f, parked, false, i);
        var found := fetches.Get(p.vxid, now);
        if found.Some? {
          var spans := p.spans[0 := LinkHit(p.spans[0], found.value)];
          LinkedSpans(p, found.value, spans, cache, now);
          EmittedMapSnoc(g, Select(f, parked[..i], true), p);
          out := out + spans;
        } else {
          kept := kept + [p];
        }
      }
      assert parked[..|parked|] == parked;
      parked := kept;
    }

    method RecordFetches(spans: seq<Span>, now: Time)
      requires Valid()
      modifies fetches
      ensures Model() == old(Model()).(fetches := PutAll(old(fetches.Model()), FetchWrites(spans, now)))
      ensures Valid()
    {
      hide Sound, Put, PutAll, VxidCaches.Valid;
      ghost var c := fetches.Model();
      CachesValid(Model());
      assert spans[..0] == [];
      NoWrites(c);
      for i := 0 to |spans|
        invariant fetches.Model() == PutAll(c, FetchWrites(spans[..i], now))
        invariant VxidCaches.Valid(fetches.Model()) && restarts.Model() == old(restarts.Model())
      {
        var sp := spans[i];
        assert spans[..i + 1][..i] == spans[..i];
        if sp.kind.Fetch? {
          PutAllSnoc(c, FetchWrites(spans[..i], now), Write(sp.vxid, InfoOf(sp), now));
          fetches.Set(sp.vxid, FetchInfo(sp.traceId, sp.spanId, sp.end), now);
        }
      }
      assert spans[..|spans|] == spans;
      SoundWith(old(Model()), Model());
    }

    method RecordRestartLinks(tx: Tx, top: Span, now: Time)
      requires Valid()
      modifies restarts
      ensures Model() == old(Model()).(
        restarts := PutAll(old(restarts.Model()), RestartWrites(RestartKeys(tx.records), top, now)))
      ensures Valid()
    {
      hide Sound, Put, PutAll, VxidCaches.Valid, RestartKey, RestartWrites;
      ghost var c := restarts.Model();
      CachesValid(Model());
      assert tx.records[..0] == [];
      NoWrites(c);
      for i := 0 to |tx.records|
        invariant restarts.Model() == PutAll(c, RestartWrites(RestartKeys(tx.records[..i]), top, now))
        invariant VxidCaches.Valid(restarts.Model()) && fetches.Model() == old(fetches.Model())
      {
        var key := RestartKey(tx.records[i]);
        assert tx.records[..i + 1][..i] == tx.records[..i];
        if key.Some? {
          ghost var keys := RestartKeys(tx.records[..i]);
          RestartWritesSnoc(keys, key.value, top, now);
          PutAllSnoc(c, RestartWrites(keys, top, now), Write(key.value, RestartInfo(top.traceId, top.spanId), now));
          restarts.Set(key.value, RestartInfo(top.traceId, top.spanId), now);
        }
      }
      assert tx.records[..|tx.records|] == tx.records;
      SoundWith(old(Model()), Model());
    }

    method Park(vxid: Vxid, built: seq<Span>, now: Time) returns (overflow: seq<Span>)
      requires Valid() && built != []
      modifies this`parked, this`misses, this`parks
      ensures overflow == EmittedAll(Overflow(old(Model())))
      ensures Model() == old(Model()).(
        parked := old(parked)[|Overflow(old(Model()))|..] + [ParkedSet(vxid, built, now)],
        misses := old(misses) + |Overflow(old(Model()))|, parks := old(parks) + 1)
    {
      hide Emitted;
      overflow := [];
      if |parked| >= maxParked {
        var oldest := parked[0];
        parked := parked[1..];
        overflow := DegradeRelease(oldest);
        EmittedAllSnoc([], DegradedFromLot(oldest));
        assert [] + [DegradedFromLot(oldest)] == [DegradedFromLot(oldest)];
      }
      parked := parked + [ParkedSet(vxid, built, now)];
      parks := parks + 1;
    }

    /** Settles the group's own hit; a parked group is withheld from the caller. */
    method ResolveHit(tx: Tx, built: seq<Span>, now: Time, ghost e: Event)
      returns (overflow: seq<Span>, isParked: bool, own: seq<Span>)
      requires Valid() && built != [] && e.facts == FactsOf(read, tx) && e.now == now
      modifies this`parked, this`misses, this`parks
      ensures Model() == Settled(old(Model()), e, built)
      ensures overflow + (if isParked then [] else own) == EmittedAll(OwnReleases(old(Model()), e, built))
    {
      hide Sound, Fields, ParseUint64, First, Timestamp, Lookup, EmittedAll, Emitted;
      overflow, isParked, own := [], false, built;
      OneRelease(Job(e.facts.hit, built, now));
      var raw, ok := ScanFirst(tx, "Hit");
      if !ok {
        return;
      }
      var f := Fields(raw);
      if f == [] {
        return;
      }
      var vxid := ParseUint64(f[0]);
      if vxid.None? {
        return;
      }
      var fetch := fetches.Get(vxid.value, now);
      if fetch.Some? {
        own := built[0 := LinkHit(built[0], fetch.value)];
        return;
      }
      if Timestamp(read, tx, "Waitinglist").None? {
        own := built[0 := Degrade(built[0])];
        misses := misses + 1;
        return;
      }
      overflow := Park(vxid.value, built, now);
      isParked := true;
    }

    method Build(tx: Tx, now: Time) returns (result: seq<Span>, outcome: Outcome)
      requires Valid()
      modifies this, fetches, restarts, ids
      ensures var drawn := Drawn(old(ids.traces), old(ids.spans));
        var e := Event(FactsOf(read, tx), BuildSpans(read, ids.stream, tx, drawn), now);
        && Model() == StepState(old(Model()), e)
        && result == EmittedAll(StepReleases(old(Model()), e))
        && Drawn(ids.traces, ids.spans) == DrawnAfter(read, ids.stream, tx, drawn)
      ensures outcome == OutcomeOf(read, tx)
      ensures Valid()
    {
      hide Sound, EmittedAll, Group, Recorded, AfterAging, AfterResolving, Settled, AgedReleases, ResolvedReleases,
           OwnReleases, BuildSpans, FactsOf, OutcomeOf, DrawnAfter, IsRestartContinuation, PutAll;
      ghost var st := Model();
      ghost var drawn := Drawn(ids.traces, ids.spans);
      ghost var e := Event(FactsOf(read, tx), BuildSpans(read, ids.stream, tx, drawn), now);
      StepSound(st, e);
      result := ReleaseAgedParked(now);
      var built;
      built, outcome := BuildWithOutcome(read, tx, ids);
      if |built| == 0 {
        // A restart miss can only be counted here for a built group that is a continuation.
        assert !(outcome == Built && IsRestartContinuation(tx)) by { EmptyGroup(read, ids.stream, tx, drawn); }
        return;
      }
      ghost var st1 := Model();
      AgingSound(st, now);
      built := Restitch(tx, built, now, st, e);
      RecordFetches(built, now);
      RecordRestartLinks(tx, built[0], now);
      ghost var st2 := Model();
      assert st2 == Recorded(st1, e, built) by { RecordedIs(st1, e, built, read, tx); }
      var resolved := ResolveParked(now);
      result := result + resolved;
      ghost var st3 := Model();
      ResolvingSound(st2, now);
      var overflow, isParked, own := ResolveHit(tx, built, now, e);
      EmittedAllAppend(AgedReleases(st, now), ResolvedReleases(st2, now));
      EmittedAllAppend(AgedReleases(st, now) + ResolvedReleases(st2, now), OwnReleases(st3, e, built));
      result := result + overflow;
      if isParked {
        return;
      }
      result := result + own;
    }

    /** The restart step: the group joins its original's trace, or the miss is counted. */
    method Restitch(tx: Tx, built0: seq<Span>, now: Time, ghost st: State, ghost e: Event) returns (built: seq<Span>)
      requires Valid() && built0 != [] && e == Event(FactsOf(read, tx), built0, now)
      requires st.restarts == restarts.Model()
      modifies this`misses
      ensures built == Group(st, e)
      ensures Model() == old(Model()).(
        misses := old(misses) + if e.facts.continuation && Original(st, e).None? then 1 else 0)
      ensures Valid()
    {
      hide Sound, Lookup, Stitch, IsRestartContinuation, VxidCaches.Valid;
      CachesValid(Model());
      built := built0;
      if IsRestartContinuation(tx) {
        var orig := restarts.Get(tx.vxid, now);
        if orig.Some? {
          built := ReparentRestart(built, orig.value);
        } else {
          misses := misses + 1;
          SoundWith(old(Model()), Model());
        }
      }
    }

    method Flush() returns (out: seq<Span>)
      requires Valid()
      modifies this`parked, this`misses
      ensures Model() == FlushState(old(Model())) && Valid()
      ensures out == EmittedAll(FlushReleases(old(Model())))
    {
      hide EmittedAll, Emitted, Map;
      out := [];
      LotSpans(Model());
      NothingSelected(DegradedFromLot, p => true);
      assert parked[..0] == [];
      for i := 0 to |parked|
        invariant parked == old(parked)
        invariant misses == old(misses) + i
        invariant out == EmittedAll(Map(DegradedFromLot, parked[..i]))
      {
        var spans := DegradeRelease(parked[i]);
        assert parked[..i + 1] == parked[..i] + [parked[i]];
        EmittedMapSnoc(DegradedFromLot, parked[..i], parked[i]);
        out := out + spans;
      }
      assert parked[..|parked|] == parked;
      parked := [];
    }
  }

  // ----- what one call keeps -----

  lemma OneRelease(job: Job)
    requires job.spans != []
    ensures EmittedAll([Release(job, AsIs, false)]) == job.spans
    ensures forall f :: EmittedAll([Release(job, Linked(f), false)]) == job.spans[0 := LinkHit(job.spans[0], f)]
    ensures EmittedAll([Release(job, Degraded, false)]) == job.spans[0 := Degrade(job.spans[0])]
  {
    EmitOne(Release(job, AsIs, false));
    forall f ensures EmittedAll([Release(job, Linked(f), false)]) == job.spans[0 := LinkHit(job.spans[0], f)] {
      EmitOne(Release(job, Linked(f), false));
    }
    EmitOne(Release(job, Degraded, false));
  }

  lemma EmitOne(r: Release)
    ensures EmittedAll([r]) == Emitted(r)
  {
    EmittedAllSnoc([], r);
    assert [] + [r] == [r];
  }

  /** A group that yields no spans although nothing was wrong with it is not a request, so never a continuation. */
  lemma EmptyGroup(read: EpochReader, ids: IdStream, tx: Tx, drawn: Drawn)
    ensures BuildSpans(read, ids, tx, drawn) == [] && OutcomeOf(read, tx) == Built ==> !IsRestartContinuation(tx)
  {
    hide Complete, Incoming, ListSpans, First;
  }

  lemma RecordedIs(st: State, e: Event, spans: seq<Span>, read: EpochReader, tx: Tx)
    requires spans != [] && e.facts == FactsOf(read, tx)
    ensures Recorded(st, e, spans)
         == st.(misses := st.misses + (if e.facts.continuation && Original(st, e).None? then 1 else 0),
                fetches := PutAll(st.fetches, FetchWrites(spans, e.now)),
                restarts := PutAll(st.restarts, RestartWrites(RestartKeys(tx.records), spans[0], e.now)))
  {
    hide PutAll, FetchWrites, RestartWrites, RestartKeys, Original;
  }

  lemma {:induction false} PutAllValid<V>(c: Cache<V>, log: seq<Write<V>>)
    requires VxidCaches.Valid(c)
    ensures VxidCaches.Valid(PutAll(c, log))
    ensures PutAll(c, log).capacity == c.capacity && PutAll(c, log).ttl == c.ttl
  {
    hide VxidCaches.Valid, Put;
    if log != [] {
      PutAllValid(c, log[..|log| - 1]);
      PutValid(PutAll(c, log[..|log| - 1]), log[|log| - 1]);
    }
  }

  lemma SelectKeeps<T>(f: T -> bool, s: seq<T>, keep: bool)
    ensures |Select(f, s, keep)| <= |s|
    ensures forall x :: x in Select(f, s, keep) ==> x in s
  {
    forall x ensures x in Select(f, s, keep) ==> x in s { SelectMember(f, s, keep, x); }
  }

  lemma AgingSound(st: State, now: Time)
    requires Sound(st)
    ensures Sound(AfterAging(st, now))
  {
    hide Select;
    SelectKeeps(OverstayedAt(st, now), st.parked, false);
  }

  lemma ResolvingSound(st: State, now: Time)
    requires Sound(st)
    ensures Sound(AfterResolving(st, now))
  {
    hide Select;
    SelectKeeps(ResolvableAt(st.fetches, now), st.parked, false);
  }

  lemma RecordingSound(st: State, e: Event, spans: seq<Span>)
    requires Sound(st) && spans != []
    ensures Sound(Recorded(st, e, spans))
  {
    hide PutAll, FetchWrites, RestartWrites, VxidCaches.Valid;
    PutAllValid(st.fetches, FetchWrites(spans, e.now));
    PutAllValid(st.restarts, RestartWrites(e.facts.restarts, spans[0], e.now));
  }

  lemma SettlingSound(st: State, e: Event, spans: seq<Span>)
    requires Sound(st) && spans != []
    ensures Sound(Settled(st, e, spans))
  {
    hide FateOf, VxidCaches.Valid;
  }

  /** Every `Build` call keeps the caches well formed and the lot within its bound. */
  lemma StepSound(st: State, e: Event)
    requires Sound(st)
    ensures Sound(StepState(st, e))
  {
    hide Sound, AfterAging, Recorded, AfterResolving, Settled, Group;
    AgingSound(st, e.now);
    if e.built != [] {
      var st1 := AfterAging(st, e.now);
      RecordingSound(st1, e, Group(st, e));
      var st2 := Recorded(st1, e, Group(st, e));
      ResolvingSound(st2, e.now);
      SettlingSound(AfterResolving(st2, e.now), e, Group(st, e));
    }
  }

  lemma NoWrites<V>(c: Cache<V>)
    ensures PutAll(c, []) == c
  {
  }

  lemma RestartWritesSnoc(keys: seq<Vxid>, k: Vxid, top: Span, now: Time)
    ensures RestartWrites(keys + [k], top, now)
         == RestartWrites(keys, top, now) + [Write(k, RestartInfo(top.traceId, top.spanId), now)]
  {
  }

  lemma LotSpans(st: State)
    requires Sound(st)
    ensures forall i :: 0 <= i < |st.parked| ==> st.parked[i].spans != []
  {
    forall i | 0 <= i < |st.parked| ensures st.parked[i].spans != [] { assert st.parked[i] in st.parked; }
  }

  lemma CachesValid(st: State)
    requires Sound(st)
    ensures VxidCaches.Valid(st.fetches) && VxidCaches.Valid(st.restarts)
  {
  }

  lemma SoundWith(a: State, b: State)
    requires Sound(a) && VxidCaches.Valid(b.fetches) && VxidCaches.Valid(b.restarts)
    requires b.parked == a.parked && b.maxParked == a.maxParked
    ensures Sound(b)
  {
  }

  lemma NothingSelected<T>(g: T -> Release, f: T -> bool)
    ensures Select(f, [], true) == [] && Select(f, [], false) == [] && EmittedAll(Map(g, [])) == []
  {
  }

  lemma LinkedSpans(p: ParkedSet, fetch: FetchInfo, spans: seq<Span>, cache: Cache<FetchInfo>, now: Time)
    requires p.spans != [] && Lookup(cache, p.vxid, now) == Some(fetch)
    requires spans == p.spans[0 := LinkHit(p.spans[0], fetch)]
    ensures spans == Emitted(LinkedFromLot(cache, now, p))
  {
    hide Lookup, LinkHit;
  }
}
