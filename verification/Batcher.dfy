/**
 The export queue (`internal/tracer/export/batcher.go`) as a state machine: producers enqueue
 at any time, the run loop receives, flushes on size or tick, and drains after cancellation.
 Every interleaving of those steps is a run.
 */
module Batching {
  import opened Wrappers

  const MAX_BATCH: nat := 512

  /** One call of the exporter and whether it succeeded. */
  datatype Batch<T> = Batch(spans: seq<T>, ok: bool)

  datatype Phase = Running | Draining | Done

  datatype State<T> = State(
    capacity: nat, queue: seq<T>, buf: seq<T>, batches: seq<Batch<T>>, dropped: seq<T>, cancelled: bool, phase: Phase)

  datatype Step<T> =
    | Enqueue(span: T)
    | Receive(ok: bool)
    | Tick(ok: bool)
    | Cancel
    | SeeCancel
    | DrainReceive
    | Finish(ok: bool)

  function Initial<T>(capacity: nat): State<T> { State(capacity, [], [], [], [], false, Running) }

  predicate Enabled<T>(st: State<T>, step: Step<T>) {
    match step
    case Enqueue(_) => true
    case Cancel => true
    case Receive(_) => st.phase.Running? && st.queue != []
    case Tick(_) => st.phase.Running?
    case SeeCancel => st.phase.Running? && st.cancelled
    case DrainReceive => st.phase.Draining? && st.queue != []
    case Finish(_) => st.phase.Draining? && st.queue == []
  }

  /** `flush`: the exporter is only called with something to export. */
  function Flush<T>(st: State<T>, ok: bool): State<T> {
    if st.buf == [] then st else st.(batches := st.batches + [Batch(st.buf, ok)], buf := [])
  }

  function Take<T>(st: State<T>): State<T>
    requires st.queue != []
  {
    st.(buf := st.buf + [st.queue[0]], queue := st.queue[1..])
  }

  function Next<T>(st: State<T>, step: Step<T>): State<T>
    requires Enabled(st, step)
  {
    match step
    case Enqueue(s) =>
      if |st.queue| < st.capacity then st.(queue := st.queue + [s]) else st.(dropped := st.dropped + [s])
    case Cancel => st.(cancelled := true)
    case Receive(ok) => if |Take(st).buf| >= MAX_BATCH then Flush(Take(st), ok) else Take(st)
    case Tick(ok) => Flush(st, ok)
    case SeeCancel => st.(phase := Draining)
    case DrainReceive => Take(st)
    case Finish(ok) => Flush(st, ok).(phase := Done)
  }

  // ----- the object -----

  class Batcher<T> {
    const capacity: nat
    var queue: seq<T>
    var buf: seq<T>
    var batches: seq<Batch<T>>
    var dropped: seq<T>
    var cancelled: bool
    var phase: Phase

    ghost function Model(): State<T>
      reads this
    {
      State(capacity, queue, buf, batches, dropped, cancelled, phase)
    }

    constructor (capacity: nat)
      ensures Model() == Initial(capacity)
    {
      this.capacity := capacity;
      queue, buf, batches, dropped := [], [], [], [];
      cancelled, phase := false, Running;
    }

    /** Never blocks: what does not fit is dropped and counted. */
    method Enqueue(s: T)
      modifies this
      ensures Model() == Next(old(Model()), Step.Enqueue(s))
    {
      if |queue| < capacity {
        queue := queue + [s];
      } else {
        dropped := dropped + [s];
      }
    }

    method FlushBuffer(ok: bool)
      modifies this`buf, this`batches
      ensures Model() == Flush(old(Model()), ok)
    {
      if |buf| == 0 {
        return;
      }
      batches := batches + [Batch(buf, ok)];
      buf := [];
    }

    method Receive(ok: bool)
      requires Enabled(Model(), Step<T>.Receive(ok))
      modifies this
      ensures Model() == Next(old(Model()), Step<T>.Receive(ok))
    {
      buf := buf + [queue[0]];
      queue := queue[1..];
      if |buf| >= MAX_BATCH {
        FlushBuffer(ok);
      }
    }

    /** The cancellation branch of the run loop: everything queued joins the buffer, then one last flush. */
    method Drain(ok: bool)
      requires Enabled(Model(), Step<T>.SeeCancel)
      modifies this
      ensures Model() == Drained(old(Model()), ok)
    {
      phase := Draining;
      while |queue| > 0
        invariant buf + queue == old(buf + queue)
        invariant batches == old(batches) && dropped == old(dropped) && cancelled == old(cancelled) && phase == Draining
        decreases |queue|
      {
        buf := buf + [queue[0]];
        queue := queue[1..];
      }
      assert buf == buf + queue == old(buf) + old(queue);
      FlushBuffer(ok);
      phase := Done;
    }
  }

  /** What a drain that nobody disturbs ends in. */
  function Drained<T>(st: State<T>, ok: bool): State<T> {
    Flush(st.(buf := st.buf + st.queue, queue := [], phase := Done), ok)
  }

  // ----- runs -----

  predicate IsRun<T>(st: State<T>, steps: seq<Step<T>>)
    decreases |steps|, 0
  {
    steps == [] ||
    (IsRun(st, steps[..|steps| - 1]) && Enabled(Exec(st, steps[..|steps| - 1]), steps[|steps| - 1]))
  }

  function Exec<T>(st: State<T>, steps: seq<Step<T>>): State<T>
    requires IsRun(st, steps)
    decreases |steps|, 1
  {
    if steps == [] then st else Next(Exec(st, steps[..|steps| - 1]), steps[|steps| - 1])
  }

  /** The spans producers tried to enqueue, in order. */
  function Attempts<T>(steps: seq<Step<T>>): seq<T> {
    if steps == [] then []
    else
      match steps[|steps| - 1]
      case Enqueue(s) => Attempts(steps[..|steps| - 1]) + [s]
      case _ => Attempts(steps[..|steps| - 1])
  }

  /** The attempts that found room, in order. */
  function Accepted<T>(st: State<T>, steps: seq<Step<T>>): seq<T>
    requires IsRun(st, steps)
  {
    if steps == [] then []
    else
      var init := steps[..|steps| - 1];
      match steps[|steps| - 1]
      case Enqueue(s) => if |Exec(st, init).queue| < st.capacity then Accepted(st, init) + [s] else Accepted(st, init)
      case _ => Accepted(st, init)
  }

  function Sent<T>(bs: seq<Batch<T>>): seq<T> {
    if bs == [] then [] else Sent(bs[..|bs| - 1]) + bs[|bs| - 1].spans
  }

  /** The spans of the batches with the given result. */
  function SentWith<T>(bs: seq<Batch<T>>, ok: bool): seq<T> {
    if bs == [] then []
    else if bs[|bs| - 1].ok == ok then SentWith(bs[..|bs| - 1], ok) + bs[|bs| - 1].spans
    else SentWith(bs[..|bs| - 1], ok)
  }

  /** Everything accepted and not yet exported sits in buffer and queue, in arrival order. */
  function Held<T>(st: State<T>): seq<T> { Sent(st.batches) + st.buf + st.queue }

  lemma FlushHeld<T>(st: State<T>, ok: bool)
    ensures Held(Flush(st, ok)) == Held(st)
    ensures Flush(st, ok).queue == st.queue && Flush(st, ok).dropped == st.dropped && Flush(st, ok).buf == []
  {
    if st.buf != [] {
      assert (st.batches + [Batch(st.buf, ok)])[..|st.batches|] == st.batches;
    }
  }

  lemma TakeHeld<T>(st: State<T>)
    requires st.queue != []
    ensures Held(Take(st)) == Held(st)
  {
    assert st.queue == [st.queue[0]] + st.queue[1..];
  }

  lemma NextHeld<T>(st: State<T>, step: Step<T>)
    requires Enabled(st, step)
    ensures Held(Next(st, step))
         == if step.Enqueue? && |st.queue| < st.capacity then Held(st) + [step.span] else Held(st)
    ensures Next(st, step).dropped
         == if step.Enqueue? && |st.queue| >= st.capacity then st.dropped + [step.span] else st.dropped
    ensures Next(st, step).capacity == st.capacity
    ensures |st.queue| <= st.capacity ==> |Next(st, step).queue| <= st.capacity
  {
    match step {
      case Receive(ok) => TakeHeld(st); FlushHeld(Take(st), ok);
      case Tick(ok) => FlushHeld(st, ok);
      case DrainReceive => TakeHeld(st);
      case Finish(ok) => FlushHeld(st, ok);
      case _ =>
    }
  }

  /**
   In every interleaving: what was accepted is, in arrival order, what has been exported, then
   the buffer, then the queue; and every attempt was either accepted or counted as dropped.
   */
  lemma {:induction false} Conservation<T>(capacity: nat, steps: seq<Step<T>>)
    requires IsRun(Initial<T>(capacity), steps)
    ensures var st := Exec(Initial<T>(capacity), steps);
      && Accepted(Initial<T>(capacity), steps) == Held(st)
      && multiset(Attempts(steps)) == multiset(Held(st)) + multiset(st.dropped)
      && |st.queue| <= capacity == st.capacity
  {
    hide Next, Enabled, Held;
    var st0 := Initial<T>(capacity);
    if steps == [] {
      NothingHeld(st0);
    } else {
      var init := steps[..|steps| - 1];
      Conservation(capacity, init);
      NextHeld(Exec(st0, init), steps[|steps| - 1]);
    }
  }

  lemma NothingHeld<T>(st: State<T>)
    requires st.batches == [] && st.buf == [] && st.queue == []
    ensures Held(st) == []
  {
  }

  lemma {:induction false} SentByResult<T>(bs: seq<Batch<T>>)
    ensures multiset(Sent(bs)) == multiset(SentWith(bs, true)) + multiset(SentWith(bs, false))
  {
    if bs != [] { SentByResult(bs[..|bs| - 1]); }
  }

  lemma {:induction false} SentWithMember<T>(bs: seq<Batch<T>>, ok: bool, s: T)
    ensures s in SentWith(bs, ok) <==> exists i :: 0 <= i < |bs| && bs[i].ok == ok && s in bs[i].spans
  {
    if bs != [] {
      var n := |bs| - 1;
      SentWithMember(bs[..n], ok, s);
      assert forall i :: 0 <= i < n ==> bs[..n][i] == bs[i];
    }
  }

  /** No batch is empty; only the last one, after a drain, may exceed the threshold; a running buffer stays below it. */
  ghost predicate Bounded<T>(st: State<T>) {
    && (st.phase.Running? ==> |st.buf| < 512)
    && (forall i :: 0 <= i < |st.batches| ==> st.batches[i].spans != [])
    && (forall i :: 0 <= i < |st.batches| && (st.phase.Done? ==> i < |st.batches| - 1) ==>
          |st.batches[i].spans| <= 512)
  }

  lemma {:induction false} BatchesBounded<T>(capacity: nat, steps: seq<Step<T>>)
    requires IsRun(Initial<T>(capacity), steps)
    ensures Bounded(Exec(Initial<T>(capacity), steps))
  {
    hide Next, Enabled;
    if steps != [] {
      var init := steps[..|steps| - 1];
      BatchesBounded(capacity, init);
      NextBounded(Exec(Initial<T>(capacity), init), steps[|steps| - 1]);
    }
  }

  lemma NextBounded<T>(st: State<T>, step: Step<T>)
    requires Enabled(st, step) && Bounded(st)
    ensures Bounded(Next(st, step))
  {
  }

  /** One batch more, of these spans with this result, and nothing left in the buffer. */
  ghost predicate Sends<T>(st: State<T>, end: State<T>, spans: seq<T>, ok: bool) {
    end.batches == st.batches + [Batch(spans, ok)] && end.buf == []
  }

  /**
   What each turn sends: a tick and the end of a drain the whole buffer, if there is anything in
   it, and a receipt the buffer it makes 512 spans long; nothing else sends anything.
   */
  lemma TurnSends<T>(st: State<T>, step: Step<T>)
    requires Enabled(st, step)
    ensures var end := Next(st, step);
      match step
      case Tick(ok) => if st.buf == [] then end == st else Sends(st, end, st.buf, ok)
      case Finish(ok) =>
        end.phase.Done? && if st.buf == [] then end.batches == st.batches else Sends(st, end, st.buf, ok)
      case Receive(ok) =>
        var buf := st.buf + [st.queue[0]];
        if |buf| < 512 then end.batches == st.batches && end.buf == buf else Sends(st, end, buf, ok)
      case _ => end.batches == st.batches
  {
  }

  /** So after every tick of every run, all spans accepted are in a batch or still queued, in arrival order. */
  lemma TickLeavesNothing<T>(capacity: nat, steps: seq<Step<T>>, ok: bool)
    requires IsRun(Initial<T>(capacity), steps + [Tick(ok)])
    ensures var st, all := Initial<T>(capacity), steps + [Tick(ok)];
      var end := Exec(st, all);
      end.buf == [] && Accepted(st, all) == Sent(end.batches) + end.queue
  {
    hide Next, Enabled, Accepted, Sent;
    var st, all := Initial<T>(capacity), steps + [Tick(ok)];
    assert all[..|steps|] == steps;
    Conservation(capacity, all);
    TurnSends(Exec(st, steps), Tick(ok));
    assert Sent(Exec(st, all).batches) + [] == Sent(Exec(st, all).batches);
  }

  // ----- the end of a run -----

  /** A span enqueued after the loop has returned is accepted and stays in the queue. */
  lemma LateSpanStranded<T>(capacity: nat, s: T, ok: bool)
    requires capacity > 0
    ensures var steps := [Cancel, SeeCancel, Finish(ok), Enqueue(s)];
      && IsRun(Initial<T>(capacity), steps)
      && Exec(Initial<T>(capacity), steps).phase.Done?
      && Exec(Initial<T>(capacity), steps).queue == [s]
      && Exec(Initial<T>(capacity), steps).batches == [] && Exec(Initial<T>(capacity), steps).dropped == []
  {
    var init := Initial<T>(capacity);
    var s1 := [Cancel];
    var s2 := [Cancel, SeeCancel];
    var s3 := [Cancel, SeeCancel, Finish(ok)];
    var s4 := [Cancel, SeeCancel, Finish(ok), Enqueue(s)];
    assert s1[..0] == [] && s2[..1] == s1 && s3[..2] == s2 && s4[..3] == s3;
    assert IsRun(init, s1) && Exec(init, s1) == init.(cancelled := true);
    assert IsRun(init, s2) && Exec(init, s2) == init.(cancelled := true, phase := Draining);
    assert IsRun(init, s3) && Exec(init, s3) == init.(cancelled := true, phase := Done);
  }

  /** Steps after the run loop has returned. */
  function AfterFinish<T>(steps: seq<Step<T>>): Option<seq<Step<T>>> {
    if steps == [] then None
    else match AfterFinish(steps[..|steps| - 1])
      case Some(rest) => Some(rest + [steps[|steps| - 1]])
      case None => if steps[|steps| - 1].Finish? then Some([]) else None
  }

  predicate HasEnqueue<T>(steps: seq<Step<T>>) { exists i :: 0 <= i < |steps| && steps[i].Enqueue? }

  /** No attempt after the first cancellation: the order in which main shuts down. */
  ghost predicate CancelLast<T>(steps: seq<Step<T>>) {
    forall i, j :: 0 <= i < j < |steps| && steps[i].Cancel? ==> !steps[j].Enqueue?
  }

  ghost predicate Returned<T>(st: State<T>, steps: seq<Step<T>>)
    requires IsRun(st, steps)
  {
    var end := Exec(st, steps);
    && (end.phase.Done? <==> AfterFinish(steps).Some?)
    && (end.phase.Done? ==> end.buf == [] && (end.queue == [] <==> !HasEnqueue(AfterFinish(steps).value)))
  }

  lemma NextPhases<T>(st: State<T>, step: Step<T>)
    requires Enabled(st, step)
    ensures var end := Next(st, step);
      && (end.phase.Done? <==> st.phase.Done? || step.Finish?)
      && (st.phase.Done? ==> end.buf == st.buf && !step.Finish?)
      && (step.Finish? ==> end.buf == [] && end.queue == [])
      && (st.phase.Done? && !step.Enqueue? ==> end.queue == st.queue)
      && (st.phase.Done? && step.Enqueue? && st.capacity > 0 ==> end.queue != [])
      && end.capacity == st.capacity
  {
  }

  lemma HasEnqueueSnoc<T>(steps: seq<Step<T>>, s: Step<T>)
    ensures HasEnqueue(steps + [s]) <==> HasEnqueue(steps) || s.Enqueue?
  {
    var all := steps + [s];
    if HasEnqueue(steps) {
      var i :| 0 <= i < |steps| && steps[i].Enqueue?;
      assert all[i].Enqueue?;
    }
    if s.Enqueue? { assert all[|steps|].Enqueue?; }
  }

  lemma NoEnqueueInNothing<T>()
    ensures !HasEnqueue<T>([])
  {
  }

  /**
   When the loop has returned its buffer is empty, and a span is stranded in the queue exactly
   when someone enqueued after that.
   */
  lemma {:induction false} StrandedExactlyWhenLate<T>(capacity: nat, steps: seq<Step<T>>)
    requires capacity > 0 && IsRun(Initial<T>(capacity), steps)
    ensures Returned(Initial<T>(capacity), steps)
    ensures Exec(Initial<T>(capacity), steps).capacity == capacity
  {
    hide Next, Enabled, HasEnqueue;
    var st0 := Initial<T>(capacity);
    if steps != [] {
      var init, s := steps[..|steps| - 1], steps[|steps| - 1];
      StrandedExactlyWhenLate(capacity, init);
      NextPhases(Exec(st0, init), s);
      if AfterFinish(init).Some? {
        HasEnqueueSnoc(AfterFinish(init).value, s);
      } else {
        NoEnqueueInNothing<T>();
      }
    }
  }

  /** The loop only returns after a cancellation. */
  lemma {:induction false} FinishFollowsCancel<T>(capacity: nat, steps: seq<Step<T>>) returns (i: nat)
    requires IsRun(Initial<T>(capacity), steps)
    requires Exec(Initial<T>(capacity), steps).cancelled || !Exec(Initial<T>(capacity), steps).phase.Running?
    ensures i < |steps| && steps[i].Cancel?
  {
    var st0, init, s := Initial<T>(capacity), steps[..|steps| - 1], steps[|steps| - 1];
    if s.Cancel? {
      i := |steps| - 1;
    } else {
      i := FinishFollowsCancel(capacity, init);
    }
  }

  lemma {:induction false} LateStepsFollowCancel<T>(capacity: nat, steps: seq<Step<T>>)
    requires capacity > 0 && IsRun(Initial<T>(capacity), steps) && CancelLast(steps) && AfterFinish(steps).Some?
    ensures !HasEnqueue(AfterFinish(steps).value)
  {
    hide Next, Enabled, Exec;
    var init, s := steps[..|steps| - 1], steps[|steps| - 1];
    StrandedExactlyWhenLate(capacity, steps);
    if AfterFinish(init).Some? {
      assert CancelLast(init) by {
        forall i, j | 0 <= i < j < |init| && init[i].Cancel? ensures !init[j].Enqueue? {
          assert steps[i].Cancel? && steps[j] == init[j];
        }
      }
      LateStepsFollowCancel(capacity, init);
      StrandedExactlyWhenLate(capacity, init);
      var i := FinishFollowsCancel(capacity, init);
      assert steps[i].Cancel?;
      HasEnqueueSnoc(AfterFinish(init).value, s);
    }
  }

  /**
   Shutdown in main's order: once the loop has returned, queue and buffer are empty and every
   span ever offered was exported, is in a failed batch, or was counted as dropped.
   */
  lemma ShutdownLosesNothing<T>(capacity: nat, steps: seq<Step<T>>)
    requires capacity > 0 && IsRun(Initial<T>(capacity), steps) && CancelLast(steps)
    requires Exec(Initial<T>(capacity), steps).phase.Done?
    ensures var end := Exec(Initial<T>(capacity), steps);
      && end.queue == [] && end.buf == []
      && multiset(Attempts(steps))
           == multiset(SentWith(end.batches, true)) + multiset(SentWith(end.batches, false)) + multiset(end.dropped)
  {
    hide Exec, AfterFinish, HasEnqueue;
    StrandedExactlyWhenLate(capacity, steps);
    LateStepsFollowCancel(capacity, steps);
    Conservation(capacity, steps);
    var end := Exec(Initial<T>(capacity), steps);
    SentByResult(end.batches);
    assert Held(end) == Sent(end.batches) + [] + [];
    assert Held(end) == Sent(end.batches);
  }

  /** A drain that nobody disturbs, after some of its steps. */
  function PartlyDrained<T>(st: State<T>, n: nat): State<T>
    requires n <= |st.queue|
  {
    st.(buf := st.buf + st.queue[..n], queue := st.queue[n..])
  }

  predicate DrainStep<T>(step: Step<T>) { step.DrainReceive? || step.Finish? }

  /** Every undisturbed drain goes one way: one step per queued span, then the last flush, and there it ends. */
  lemma {:induction false} EveryDrainEnds<T>(st: State<T>, steps: seq<Step<T>>)
    requires st.phase.Draining? && IsRun(st, steps) && forall i :: 0 <= i < |steps| ==> DrainStep(steps[i])
    ensures |steps| <= |st.queue| + 1
    ensures |steps| <= |st.queue| ==> Exec(st, steps) == PartlyDrained(st, |steps|)
    ensures |steps| == |st.queue| + 1 ==>
      steps[|st.queue|].Finish? && Exec(st, steps) == Drained(st, steps[|st.queue|].ok)
  {
    if steps == [] {
      assert PartlyDrained(st, 0) == st;
    } else {
      hide Next, Enabled, Drained, PartlyDrained, DrainStep;
      var n := |steps| - 1;
      EveryDrainEnds(st, steps[..n]);
      NoStepAfterDrain(st, steps[n]);
      if n <= |st.queue| { DrainStepFrom(st, n, steps[n]); }
    }
  }

  lemma DrainStepFrom<T>(st: State<T>, n: nat, step: Step<T>)
    requires st.phase.Draining? && n <= |st.queue| && DrainStep(step) && Enabled(PartlyDrained(st, n), step)
    ensures n < |st.queue| ==> Next(PartlyDrained(st, n), step) == PartlyDrained(st, n + 1)
    ensures n == |st.queue| ==> step.Finish? && Next(PartlyDrained(st, n), step) == Drained(st, step.ok)
  {
    if n == |st.queue| {
      assert st.queue[..n] == st.queue && st.queue[n..] == [];
    }
  }

  lemma NoStepAfterDrain<T>(st: State<T>, step: Step<T>)
    ensures DrainStep(step) ==> forall ok :: !Enabled(Drained(st, ok), step)
  {
  }

  /** Such a drain exists with either result of the last export, so draining is never stuck. */
  lemma {:induction false} DrainTerminates<T>(st: State<T>, ok: bool) returns (steps: seq<Step<T>>)
    requires st.phase.Draining?
    ensures IsRun(st, steps) && |steps| == |st.queue| + 1 && Exec(st, steps) == Drained(st, ok)
    ensures forall i :: 0 <= i < |steps| ==> DrainStep(steps[i])
    decreases |st.queue|
  {
    if st.queue == [] {
      steps := [Finish(ok)];
      assert steps[..0] == [] && st.buf + st.queue == st.buf;
    } else {
      var rest := DrainTerminates(Take(st), ok);
      steps := [DrainReceive] + rest;
      RunFrom(st, DrainReceive, rest);
      assert st.queue == [st.queue[0]] + st.queue[1..];
      assert Take(st).buf + Take(st).queue == st.buf + st.queue;
    }
  }

  lemma {:induction false} RunFrom<T>(st: State<T>, first: Step<T>, rest: seq<Step<T>>)
    requires Enabled(st, first) && IsRun(Next(st, first), rest)
    ensures IsRun(st, [first] + rest) && Exec(st, [first] + rest) == Exec(Next(st, first), rest)
    decreases |rest|
  {
    hide Next, Enabled;
    var all := [first] + rest;
    if rest == [] {
      assert all[..0] == [] && all == [first];
      assert IsRun(st, all[..0]) && Exec(st, all[..0]) == st;
    } else {
      assert all[..|all| - 1] == [first] + rest[..|rest| - 1];
      RunFrom(st, first, rest[..|rest| - 1]);
    }
  }
}
