/**
 Status conditions and phase (`internal/controller/status.go`): a list used as a map from
 condition type to condition, whose transition times have to agree with the history of calls.
 */
module Statuses {
  import opened Wrappers

  datatype CondStatus = True | False | Unknown

  datatype Condition = Condition(kind: string, status: CondStatus, reason: string, since: Time)

  const READY := "Ready"
  const VCL_SYNCED := "VCLSynced"
  const BACKENDS_AVAILABLE := "BackendsAvailable"
  const PROGRESSING := "Progressing"
  const RUNTIME_RESOLVED := "RuntimeResolved"
  const SCALED_TO_ZERO := "ScaledToZero"

  datatype Phase = Pending | Ready | Degraded | Error | Stopped

  /** One call of `setCondition`. */
  datatype Call = Call(kind: string, status: CondStatus, reason: string, at: Time)

  // ----- the list -----

  /** Position of the first condition of the given type. */
  function IndexOf(cs: seq<Condition>, kind: string): (r: Option<nat>)
    ensures r.Some? ==> r.value < |cs| && cs[r.value].kind == kind
    ensures r.Some? ==> forall j :: 0 <= j < r.value ==> cs[j].kind != kind
    ensures r.None? ==> forall j :: 0 <= j < |cs| ==> cs[j].kind != kind
  {
    if cs == [] then None
    else if cs[0].kind == kind then Some(0)
    else match IndexOf(cs[1..], kind) case None => None case Some(i) => Some(i + 1)
  }

  function Find(cs: seq<Condition>, kind: string): Option<Condition> {
    match IndexOf(cs, kind) case None => None case Some(i) => Some(cs[i])
  }

  /** Only a change of status is a transition; the reason is always refreshed. */
  function Updated(before: Condition, c: Call): Condition {
    Condition(c.kind, c.status, c.reason, if before.status == c.status then before.since else c.at)
  }

  /** What a call makes of the condition of its own type. */
  function AfterCall(before: Option<Condition>, c: Call): Condition {
    match before
    case None => Condition(c.kind, c.status, c.reason, c.at)
    case Some(o) => Updated(o, c)
  }

  function Set(cs: seq<Condition>, c: Call): seq<Condition> {
    match IndexOf(cs, c.kind)
    case None => cs + [AfterCall(None, c)]
    case Some(i) => cs[i := Updated(cs[i], c)]
  }

  function SetAll(cs: seq<Condition>, calls: seq<Call>): seq<Condition> {
    if calls == [] then cs else Set(SetAll(cs, calls[..|calls| - 1]), calls[|calls| - 1])
  }

  /** What a call does to the condition of one type. */
  lemma FindAfterSet(cs: seq<Condition>, c: Call, kind: string)
    ensures Find(Set(cs, c), kind) ==
      if kind != c.kind then Find(cs, kind)
      else Some(AfterCall(Find(cs, kind), c))
  {
    var a, b := IndexOf(cs, kind), IndexOf(Set(cs, c), kind);
    if IndexOf(cs, c.kind).None? {
      assert Set(cs, c)[..|cs|] == cs;
      if kind == c.kind { assert Set(cs, c)[|cs|].kind == kind; }
    }
    if a.Some? { assert Set(cs, c)[a.value].kind == kind; }
    if a.Some? && b.Some? { assert a.value == b.value; }
  }

  ghost predicate UniqueKinds(cs: seq<Condition>) { forall i, j :: 0 <= i < j < |cs| ==> cs[i].kind != cs[j].kind }

  /** No call ever makes a type appear twice. */
  lemma SetUnique(cs: seq<Condition>, c: Call)
    requires UniqueKinds(cs)
    ensures UniqueKinds(Set(cs, c))
  {
  }

  // ----- transition times against the history -----

  /** The calls for one type. */
  function CallsFor(calls: seq<Call>, kind: string): seq<Call> { Select((c: Call) => c.kind == kind, calls, true) }

  /**
   Call `k` opens the streak the history ends in: from it on every call has the final status,
   and the call before it, if any, did not.
   */
  ghost predicate StreakStart(own: seq<Call>, k: int) {
    && 0 <= k < |own|
    && (forall j :: k <= j < |own| ==> own[j].status == own[|own| - 1].status)
    && (k > 0 ==> own[k - 1].status != own[|own| - 1].status)
  }

  /** The condition is what the calls for its type, starting from `init`, amount to. */
  ghost predicate Reflects(c: Option<Condition>, init: Option<Condition>, own: seq<Call>) {
    if own == [] then c == init
    else
      var last := own[|own| - 1];
      && c.Some? && c.value.kind == last.kind && c.value.status == last.status && c.value.reason == last.reason
      && if init.Some? && (forall j :: 0 <= j < |own| ==> own[j].status == init.value.status)
         then c.value.since == init.value.since
         else exists k :: StreakStart(own, k) && c.value.since == own[k].at
  }

  lemma ReflectsStep(c: Option<Condition>, init: Option<Condition>, own: seq<Call>, call: Call)
    requires Reflects(c, init, own)
    ensures Reflects(Some(AfterCall(c, call)), init, own + [call])
  {
    var all := own + [call];
    if own == [] {
      assert all == [call] && all[0] == call;
      assert StreakStart(all, 0);
    } else {
      var last := own[|own| - 1];
      assert all[|own| - 1] == last;
      if last.status != call.status {
        assert StreakStart(all, |own|);
        assert all[|own| - 1].status != all[|own|].status;
      } else if k :| StreakStart(own, k) && c.value.since == own[k].at {
        assert StreakStart(all, k);
      }
      if init.Some? {
        if forall j :: 0 <= j < |all| ==> all[j].status == init.value.status {
          forall j | 0 <= j < |own| ensures own[j].status == init.value.status { assert all[j] == own[j]; }
        }
      }
    }
  }

  lemma CallsForSnoc(calls: seq<Call>, c: Call, kind: string)
    ensures CallsFor(calls + [c], kind) == if c.kind == kind then CallsFor(calls, kind) + [c] else CallsFor(calls, kind)
  {
    assert (calls + [c])[..|calls|] == calls;
  }

  /** Over any run of calls each condition reflects exactly the calls for its own type, and types stay unique. */
  lemma {:induction false} HistoryReflected(cs: seq<Condition>, calls: seq<Call>, kind: string)
    requires UniqueKinds(cs)
    ensures UniqueKinds(SetAll(cs, calls))
    ensures Reflects(Find(SetAll(cs, calls), kind), Find(cs, kind), CallsFor(calls, kind))
  {
    hide Reflects, Find, Set, CallsFor, UniqueKinds, AfterCall;
    if calls == [] {
      NoCalls(Find(cs, kind), kind);
    } else {
      var init, c := calls[..|calls| - 1], calls[|calls| - 1];
      HistoryReflected(cs, init, kind);
      SetUnique(SetAll(cs, init), c);
      FindAfterSet(SetAll(cs, init), c, kind);
      assert init + [c] == calls;
      CallsForSnoc(init, c, kind);
      ReflectsStep(Find(SetAll(cs, init), kind), Find(cs, kind), CallsFor(init, kind), c);
    }
  }

  lemma NoCalls(c: Option<Condition>, kind: string)
    ensures CallsFor([], kind) == [] && Reflects(c, c, CallsFor([], kind))
  {
  }

  // ----- the operations on a status -----

  /** What one reconcile learned: desired and ready replicas, and whether a backend has no endpoints. */
  datatype Observation = Observation(replicas: int, ready: int, missing: bool)

  /** The clock readings of the four condition updates. */
  datatype Clock = Clock(t0: Time, t1: Time, t2: Time, t3: Time)

  datatype Op =
    | Update(obs: Observation, clock: Clock)
    | Fail(t0: Time, t1: Time)
    | Resolve(found: bool, t0: Time)

  function SyncedCall(o: Observation, at: Time): Call {
    Call(VCL_SYNCED, True, if o.replicas == 0 then SCALED_TO_ZERO else "VCLPushed", at)
  }

  function BackendsCall(o: Observation, at: Time): Call {
    if o.missing then Call(BACKENDS_AVAILABLE, False, "BackendWithoutEndpoints", at)
    else Call(BACKENDS_AVAILABLE, True, "BackendsConfigured", at)
  }

  function ProgressCall(o: Observation, heldBack: bool, at: Time): Call {
    if heldBack then Call(PROGRESSING, True, "RuntimeNotInCatalog", at)
    else if o.replicas == 0 then Call(PROGRESSING, False, SCALED_TO_ZERO, at)
    else if o.ready >= o.replicas then Call(PROGRESSING, False, "ReconcileComplete", at)
    else Call(PROGRESSING, True, "WaitingForReplicas", at)
  }

  function ReadyCall(o: Observation, at: Time): Call {
    if o.replicas == 0 then Call(READY, True, SCALED_TO_ZERO, at)
    else if o.ready >= o.replicas then Call(READY, True, "AllReady", at)
    else Call(READY, False, "NotAllReady", at)
  }

  predicate HeldBack(cs: seq<Condition>) {
    Find(cs, RUNTIME_RESOLVED).Some? && Find(cs, RUNTIME_RESOLVED).value.status == False
  }

  /** The condition updates an operation makes, given the conditions it finds. */
  function CallsOf(cs: seq<Condition>, op: Op): seq<Call> {
    match op
    case Update(o, clock) =>
      [SyncedCall(o, clock.t0), BackendsCall(o, clock.t1), ProgressCall(o, HeldBack(cs), clock.t2),
       ReadyCall(o, clock.t3)]
    case Fail(t0, t1) => [Call(READY, False, "ReconcileError", t0), Call(VCL_SYNCED, False, "VCLPushFailed", t1)]
    case Resolve(found, t0) =>
      [if found then Call(RUNTIME_RESOLVED, True, "Resolved", t0)
       else Call(RUNTIME_RESOLVED, False, "NotInCatalog", t0)]
  }

  predicate Has(c: Option<Condition>, status: CondStatus) { c.Some? && c.value.status == status }

  /** The phase as derived from the conditions and the peer counts. */
  function CalculatedPhase(cs: seq<Condition>, ready: int, total: int): Phase {
    var synced, backends, top := Find(cs, VCL_SYNCED), Find(cs, BACKENDS_AVAILABLE), Find(cs, READY);
    if top.Some? && top.value.status == True && top.value.reason == SCALED_TO_ZERO then Stopped
    else if Has(synced, True) && Has(backends, True) && ready >= total then Phase.Ready
    else if Has(synced, False) || Has(backends, False) then Degraded
    else Pending
  }

  lemma SetAllAppend(cs: seq<Condition>, a: seq<Call>, c: Call)
    ensures SetAll(cs, a + [c]) == Set(SetAll(cs, a), c)
  {
    assert (a + [c])[..|a|] == a;
  }

  // ----- what each operation leaves -----

  /** The first condition of a type. */
  ghost predicate FirstOf(cs: seq<Condition>, kind: string, c: Condition) {
    exists i :: 0 <= i < |cs| && cs[i] == c && c.kind == kind && forall j :: 0 <= j < i ==> cs[j].kind != kind
  }

  lemma FindExactlyWhen(cs: seq<Condition>, kind: string, c: Condition)
    ensures Find(cs, kind) == Some(c) <==> FirstOf(cs, kind, c)
  {
    hide IndexOf;
    var at := IndexOf(cs, kind);
    if i :| 0 <= i < |cs| && cs[i] == c && c.kind == kind && forall j :: 0 <= j < i ==> cs[j].kind != kind {
      assert at == Some(i);
    }
  }

  /** The condition now has this status and reason, since `t` unless it had that status already. */
  ghost predicate Turned(before: seq<Condition>, after: seq<Condition>, kind: string, status: CondStatus,
                         reason: string, t: Time)
  {
    var was := Find(before, kind);
    Find(after, kind) ==
      Some(Condition(kind, status, reason, if was.Some? && was.value.status == status then was.value.since else t))
  }

  ghost predicate Kept(before: seq<Condition>, after: seq<Condition>, kinds: set<string>) {
    forall kind :: kind !in kinds ==> Find(after, kind) == Find(before, kind)
  }

  /** The runtime is known not to be in the catalog. */
  ghost predicate Unresolved(cs: seq<Condition>) { exists c :: FirstOf(cs, "RuntimeResolved", c) && c.status == False }

  ghost predicate AllUp(o: Observation) { o.replicas == 0 || o.ready >= o.replicas }

  function Truth(b: bool): CondStatus { if b then True else False }

  /** The conditions after an observation, type by type. */
  ghost predicate Reports(before: seq<Condition>, after: seq<Condition>, o: Observation, clock: Clock) {
    && Turned(before, after, "VCLSynced", True, if o.replicas == 0 then "ScaledToZero" else "VCLPushed", clock.t0)
    && Turned(before, after, "BackendsAvailable", Truth(!o.missing),
              if o.missing then "BackendWithoutEndpoints" else "BackendsConfigured", clock.t1)
    && Turned(before, after, "Progressing", Truth(Unresolved(before) || !AllUp(o)),
              if Unresolved(before) then "RuntimeNotInCatalog" else if o.replicas == 0 then "ScaledToZero"
              else if o.ready < o.replicas then "WaitingForReplicas" else "ReconcileComplete", clock.t2)
    && Turned(before, after, "Ready", Truth(AllUp(o)),
              if o.replicas == 0 then "ScaledToZero" else if o.ready < o.replicas then "NotAllReady" else "AllReady",
              clock.t3)
    && Kept(before, after, {"VCLSynced", "BackendsAvailable", "Progressing", "Ready"})
  }

  ghost predicate ReportsFailure(before: seq<Condition>, after: seq<Condition>, t0: Time, t1: Time) {
    && Turned(before, after, "Ready", False, "ReconcileError", t0)
    && Turned(before, after, "VCLSynced", False, "VCLPushFailed", t1)
    && Kept(before, after, {"Ready", "VCLSynced"})
  }

  lemma SetTurns(cs: seq<Condition>, c: Call)
    ensures Turned(cs, Set(cs, c), c.kind, c.status, c.reason, c.at)
    ensures Kept(cs, Set(cs, c), {c.kind})
  {
    hide Find, Set;
    forall kind ensures Find(Set(cs, c), kind) ==
      if kind != c.kind then Find(cs, kind) else Some(AfterCall(Find(cs, kind), c))
    {
      FindAfterSet(cs, c, kind);
    }
  }

  lemma UnresolvedIsHeldBack(cs: seq<Condition>)
    ensures Unresolved(cs) <==> HeldBack(cs)
  {
    hide Find, FirstOf;
    forall c ensures Find(cs, "RuntimeResolved") == Some(c) <==> FirstOf(cs, "RuntimeResolved", c) {
      FindExactlyWhen(cs, "RuntimeResolved", c);
    }
    if HeldBack(cs) { assert FirstOf(cs, "RuntimeResolved", Find(cs, "RuntimeResolved").value); }
  }

  lemma FourTurns(cs: seq<Condition>, a: Call, b: Call, p: Call, r: Call)
    requires a.kind != b.kind && a.kind != p.kind && a.kind != r.kind
    requires b.kind != p.kind && b.kind != r.kind && p.kind != r.kind
    ensures var after := SetAll(cs, [a, b, p, r]);
      && Turned(cs, after, a.kind, a.status, a.reason, a.at) && Turned(cs, after, b.kind, b.status, b.reason, b.at)
      && Turned(cs, after, p.kind, p.status, p.reason, p.at) && Turned(cs, after, r.kind, r.status, r.reason, r.at)
      && Kept(cs, after, {a.kind, b.kind, p.kind, r.kind})
  {
    hide Find, Set, SetAll;
    FourCalls(cs, a, b, p, r);
    var s0, s1 := Set(cs, a), Set(Set(cs, a), b);
    SetTurns(cs, a);
    SetTurns(s0, b);
    SetTurns(s1, p);
    SetTurns(Set(s1, p), r);
  }

  /** An update reports the observation, whatever the conditions were. */
  lemma UpdateReports(cs: seq<Condition>, o: Observation, clock: Clock)
    ensures Reports(cs, SetAll(cs, CallsOf(cs, Update(o, clock))), o, clock)
  {
    hide SetAll, Unresolved, HeldBack, Turned, Kept;
    UnresolvedIsHeldBack(cs);
    FourTurns(cs, SyncedCall(o, clock.t0), BackendsCall(o, clock.t1), ProgressCall(o, HeldBack(cs), clock.t2),
              ReadyCall(o, clock.t3));
  }

  lemma FailureReports(cs: seq<Condition>, t0: Time, t1: Time)
    ensures ReportsFailure(cs, SetAll(cs, CallsOf(cs, Fail(t0, t1))), t0, t1)
  {
    hide Find, Set;
    var a, b := Call(READY, False, "ReconcileError", t0), Call(VCL_SYNCED, False, "VCLPushFailed", t1);
    TwoCalls(cs, a, b);
    SetTurns(cs, a);
    SetTurns(Set(cs, a), b);
  }

  lemma ResolutionReports(cs: seq<Condition>, found: bool, t0: Time)
    ensures var after := SetAll(cs, CallsOf(cs, Resolve(found, t0)));
      && Turned(cs, after, "RuntimeResolved", Truth(found), if found then "Resolved" else "NotInCatalog", t0)
      && Kept(cs, after, {"RuntimeResolved"})
      && (Unresolved(after) <==> !found)
  {
    hide Find, Set, Unresolved;
    var c := CallsOf(cs, Resolve(found, t0))[0];
    SetAllAppend(cs, [], c);
    assert [] + [c] == [c];
    SetTurns(cs, c);
    UnresolvedIsHeldBack(SetAll(cs, [c]));
  }

  // ----- the phase -----

  ghost predicate Stands(cs: seq<Condition>, kind: string, status: CondStatus) {
    exists c :: FirstOf(cs, kind, c) && c.status == status
  }

  /** The derived phase, by the first condition of each type. */
  lemma PhaseExactlyWhen(cs: seq<Condition>, ready: int, total: int)
    ensures var p := CalculatedPhase(cs, ready, total);
      var stopped := exists c :: FirstOf(cs, "Ready", c) && c.status == True && c.reason == "ScaledToZero";
      var fine := Stands(cs, "VCLSynced", True) && Stands(cs, "BackendsAvailable", True) && ready >= total;
      var broken := Stands(cs, "VCLSynced", False) || Stands(cs, "BackendsAvailable", False);
      && (p == Stopped <==> stopped) && (p == Phase.Ready <==> !stopped && fine)
      && (p == Degraded <==> !stopped && broken) && (p == Pending <==> !stopped && !fine && !broken)
  {
    hide Find, FirstOf;
    forall kind, c ensures Find(cs, kind) == Some(c) <==> FirstOf(cs, kind, c) { FindExactlyWhen(cs, kind, c); }
  }

  /** What the phase says of one observation. */
  ghost predicate PhaseSays(phase: Phase, o: Observation) {
    && (phase == Stopped <==> o.replicas == 0)
    && (phase == Degraded <==> o.replicas != 0 && o.missing)
    && (phase == Phase.Ready <==> o.replicas != 0 && !o.missing && o.ready >= o.replicas)
    && (phase == Pending <==> o.replicas != 0 && !o.missing && o.ready < o.replicas)
  }

  /** After an update the derived phase is the one this observation amounts to, whatever came before. */
  lemma PhaseAfterUpdate(cs: seq<Condition>, o: Observation, clock: Clock)
    ensures PhaseSays(CalculatedPhase(SetAll(cs, CallsOf(cs, Update(o, clock))), o.ready, o.replicas), o)
  {
    hide Find, SetAll, CallsOf, Kept;
    UpdateReports(cs, o, clock);
  }

  // ----- the object -----

  class CacheStatus {
    var conditions: seq<Condition>
    var phase: Phase
    var readyPeers: int
    var totalPeers: int

    constructor (conditions: seq<Condition>)
      ensures this.conditions == conditions && phase == Pending
    {
      this.conditions := conditions;
      phase, readyPeers, totalPeers := Pending, 0, 0;
    }

    method SetCondition(kind: string, status: CondStatus, reason: string, now: Time)
      modifies this`conditions
      ensures conditions == Set(old(conditions), Call(kind, status, reason, now))
    {
      for i := 0 to |conditions|
        invariant conditions == old(conditions)
        invariant forall j :: 0 <= j < i ==> conditions[j].kind != kind
      {
        var c := conditions[i];
        if c.kind == kind {
          var transitioned := now;
          if c.status == status {
            transitioned := c.since;
          }
          assert IndexOf(conditions, kind) == Some(i);
          conditions := conditions[i := Condition(kind, status, reason, transitioned)];
          return;
        }
      }
      conditions := conditions + [Condition(kind, status, reason, now)];
    }

    method FindCondition(kind: string) returns (r: Option<Condition>)
      ensures r == Find(conditions, kind)
    {
      for i := 0 to |conditions|
        invariant forall j :: 0 <= j < i ==> conditions[j].kind != kind
      {
        if conditions[i].kind == kind {
          assert IndexOf(conditions, kind) == Some(i);
          return Some(conditions[i]);
        }
      }
      return None;
    }

    method CalculatePhase() returns (p: Phase)
      ensures p == CalculatedPhase(conditions, readyPeers, totalPeers)
    {
      hide Find;
      var top := FindCondition(READY);
      if top.Some? && top.value.status == True && top.value.reason == SCALED_TO_ZERO {
        return Stopped;
      }
      var synced := FindCondition(VCL_SYNCED);
      var backends := FindCondition(BACKENDS_AVAILABLE);
      var isSynced := synced.Some? && synced.value.status == True;
      var isAvailable := backends.Some? && backends.value.status == True;
      if isSynced && isAvailable && readyPeers >= totalPeers {
        return Phase.Ready;
      }
      if (synced.Some? && synced.value.status == False) || (backends.Some? && backends.value.status == False) {
        return Degraded;
      }
      return Pending;
    }

    method UpdateStatus(o: Observation, clock: Clock)
      modifies this
      ensures conditions == SetAll(old(conditions), CallsOf(old(conditions), Update(o, clock)))
      ensures Reports(old(conditions), conditions, o, clock)
      ensures PhaseSays(phase, o)
    {
      hide Set, Find, CalculatedPhase, Reports, PhaseSays;
      ghost var cs := conditions;
      readyPeers, totalPeers := o.ready, o.replicas;
      ghost var calls := CallsOf(cs, Update(o, clock));
      var a, b := SyncedCall(o, clock.t0), BackendsCall(o, clock.t1);
      SetCondition(a.kind, a.status, a.reason, clock.t0);
      SetCondition(b.kind, b.status, b.reason, clock.t1);
      var runtime := FindCondition(RUNTIME_RESOLVED);
      FindAfterSet(cs, a, RUNTIME_RESOLVED);
      FindAfterSet(Set(cs, a), b, RUNTIME_RESOLVED);
      var p := ProgressCall(o, runtime.Some? && runtime.value.status == False, clock.t2);
      var r := ReadyCall(o, clock.t3);
      SetCondition(p.kind, p.status, p.reason, clock.t2);
      SetCondition(r.kind, r.status, r.reason, clock.t3);
      FourCalls(cs, a, b, p, r);
      PhaseAfterUpdate(cs, o, clock);
      UpdateReports(cs, o, clock);
      phase := CalculatePhase();
    }

    method SetErrorStatus(t0: Time, t1: Time)
      modifies this
      ensures conditions == SetAll(old(conditions), CallsOf(old(conditions), Fail(t0, t1)))
      ensures ReportsFailure(old(conditions), conditions, t0, t1)
      ensures phase == Error
    {
      hide Set, ReportsFailure;
      phase := Error;
      ghost var cs := conditions;
      SetCondition(READY, False, "ReconcileError", t0);
      SetCondition(VCL_SYNCED, False, "VCLPushFailed", t1);
      TwoCalls(cs, Call(READY, False, "ReconcileError", t0), Call(VCL_SYNCED, False, "VCLPushFailed", t1));
      FailureReports(cs, t0, t1);
    }
  }

  lemma TwoCalls(cs: seq<Condition>, a: Call, b: Call)
    ensures SetAll(cs, [a, b]) == Set(Set(cs, a), b)
  {
    SetAllAppend(cs, [], a);
    SetAllAppend(cs, [a], b);
    assert [] + [a] == [a] && [a] + [b] == [a, b];
  }

  lemma FourCalls(cs: seq<Condition>, a: Call, b: Call, p: Call, r: Call)
    ensures SetAll(cs, [a, b, p, r]) == Set(Set(Set(Set(cs, a), b), p), r)
  {
    hide Set;
    TwoCalls(cs, a, b);
    SetAllAppend(cs, [a, b], p);
    SetAllAppend(cs, [a, b, p], r);
    assert [a, b] + [p] == [a, b, p] && [a, b, p] + [r] == [a, b, p, r];
  }

  // ----- runs of operations -----

  function RunCalls(cs: seq<Condition>, ops: seq<Op>): seq<Call> {
    if ops == [] then []
    else RunCalls(cs, ops[..|ops| - 1]) + CallsOf(After(cs, ops[..|ops| - 1]), ops[|ops| - 1])
  }

  function After(cs: seq<Condition>, ops: seq<Op>): seq<Condition> {
    if ops == [] then cs
    else
      var before := After(cs, ops[..|ops| - 1]);
      SetAll(before, CallsOf(before, ops[|ops| - 1]))
  }

  lemma {:induction false} SetAllJoin(cs: seq<Condition>, a: seq<Call>, b: seq<Call>)
    ensures SetAll(cs, a + b) == SetAll(SetAll(cs, a), b)
    decreases |b|
  {
    hide Set;
    if b == [] {
      assert a + b == a;
    } else {
      assert (a + b)[..|a + b| - 1] == a + b[..|b| - 1];
      SetAllJoin(cs, a, b[..|b| - 1]);
    }
  }

  lemma {:induction false} RunIsCalls(cs: seq<Condition>, ops: seq<Op>)
    ensures After(cs, ops) == SetAll(cs, RunCalls(cs, ops))
  {
    hide SetAll, CallsOf;
    if ops == [] {
      NothingSet(cs);
    } else {
      var init := ops[..|ops| - 1];
      RunIsCalls(cs, init);
      SetAllJoin(cs, RunCalls(cs, init), CallsOf(After(cs, init), ops[|ops| - 1]));
    }
  }

  lemma NothingSet(cs: seq<Condition>)
    ensures SetAll(cs, []) == cs
  {
  }

  /**
   Over every run of updates, failures and runtime resolutions from a list with unique types:
   types stay unique, and each condition bears the time of the first call of the streak its
   status has lasted since.
   */
  lemma StatusHistory(cs: seq<Condition>, ops: seq<Op>, kind: string)
    requires UniqueKinds(cs)
    ensures UniqueKinds(After(cs, ops))
    ensures Reflects(Find(After(cs, ops), kind), Find(cs, kind), CallsFor(RunCalls(cs, ops), kind))
  {
    hide Reflects, UniqueKinds, After, RunCalls, Find, SetAll;
    RunIsCalls(cs, ops);
    HistoryReflected(cs, RunCalls(cs, ops), kind);
  }
}
