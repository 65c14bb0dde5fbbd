/**
 Histories of one agent and its varnishd: pushes, validations and discards whose commands may
 fail, and restarts of either process. What is left behind, and what a reported push means.
 */
module AgentHistories {
  import opened Agents

  // ----- histories -----

  datatype Incident = Regular(step: Step) | VarnishdRestart | AgentRestart

  predicate MayHappen(a: Agent, s: Incident) { s.Regular? ==> Allowed(a, s.step) }

  function Happen(a: Agent, s: Incident): Agent
    requires MayHappen(a, s)
  {
    match s
    case Regular(step) => Apply(a, step)
    case VarnishdRestart => Restart(a)
    case AgentRestart => Forget(a)
  }

  ghost predicate IsHistory(a: Agent, steps: seq<Incident>)
    decreases |steps|
  {
    steps == [] || (MayHappen(a, steps[0]) && IsHistory(Happen(a, steps[0]), steps[1..]))
  }

  function Live(a: Agent, steps: seq<Incident>): Agent
    requires IsHistory(a, steps)
    decreases |steps|
  {
    if steps == [] then a else Live(Happen(a, steps[0]), steps[1..])
  }

  /** The active VCL is loaded, and every VCL has a name. */
  predicate Sane(a: Agent) { a.varnishd.active in a.varnishd.loaded && "" !in a.varnishd.loaded }

  lemma HappenSane(a: Agent, s: Incident)
    requires Sane(a) && MayHappen(a, s)
    ensures Sane(Happen(a, s))
  {
  }

  // ----- what is left behind -----

  /** Nothing is loaded but the active VCL and what is scheduled for discard. */
  ghost predicate NoLeak(a: Agent) {
    Sane(a) && forall x :: x in a.varnishd.loaded ==> x == a.varnishd.active || x in a.pending
  }

  /** The steps that leave `x` behind: a command that fails, or an agent that forgets its discards. */
  predicate Leaks(a: Agent, s: Incident, x: string)
    requires MayHappen(a, s)
  {
    match s
    case VarnishdRestart => false
    case AgentRestart => x in a.varnishd.loaded && x != a.varnishd.active
    case Regular(step) =>
      match step
      case DoPush(name, compiles, cli) =>
        && CanInline(a.varnishd, name, compiles) && x !in a.pending
        && ((!cli.useOk && x == name) || (cli.useOk && !cli.listOk && x == a.varnishd.active))
      case DoValidate(_, _) => false
      case DoFire(i, ok) =>
        && !ok && x == a.pending[i] && x in a.varnishd.loaded && x != a.varnishd.active
        && x !in a.pending[..i] + a.pending[i + 1..]
  }

  lemma StuckStep(a: Agent, s: Incident, x: string)
    requires Sane(a) && MayHappen(a, s)
    ensures Stuck(Happen(a, s), x) <==> s != VarnishdRestart && (Stuck(a, x) || Leaks(a, s, x))
    ensures s == VarnishdRestart ==> !Leaks(a, s, x)
  {
    if s.Regular? {
      match s.step {
        case DoPush(name, compiles, cli) =>
          var b := Push(a, name, compiles, cli);
          assert forall y :: y in a.pending ==> y in b.pending;
          if b.pending != a.pending { assert b.pending[|a.pending|] == a.varnishd.active; }
        case DoValidate(temp, compiles) =>
          var b := Validate(a, temp, compiles);
          if b != a { assert b.pending[|a.pending|] == temp; }
        case DoFire(i, ok) => if x != a.pending[i] { RestKeeps(a, i, x); }
      }
    }
  }

  ghost predicate NoVarnishdRestart(steps: seq<Incident>) {
    forall k :: 0 <= k < |steps| ==> !steps[k].VarnishdRestart?
  }

  /** Some step leaves `x` behind, and varnishd does not restart after it. */
  ghost predicate LeftBehind(a: Agent, steps: seq<Incident>, x: string)
    requires IsHistory(a, steps)
    decreases |steps|
  {
    && steps != []
    && ((Leaks(a, steps[0], x) && NoVarnishdRestart(steps[1..])) || LeftBehind(Happen(a, steps[0]), steps[1..], x))
  }

  ghost predicate NothingLeftBehind(a: Agent, steps: seq<Incident>)
    requires IsHistory(a, steps)
  {
    forall x :: !LeftBehind(a, steps, x)
  }

  /**
   A name is stuck after a history exactly when it was before, or was left behind, with no restart
   of varnishd since.
   */
  lemma {:induction false} StuckExactlyWhen(a: Agent, x: string, steps: seq<Incident>)
    requires Sane(a) && IsHistory(a, steps)
    ensures Sane(Live(a, steps))
    ensures Stuck(Live(a, steps), x) <==> (Stuck(a, x) && NoVarnishdRestart(steps)) || LeftBehind(a, steps, x)
    decreases |steps|
  {
    hide Stuck, Happen, Leaks, Sane;
    if steps != [] {
      HappenSane(a, steps[0]);
      StuckStep(a, steps[0], x);
      StuckExactlyWhen(Happen(a, steps[0]), x, steps[1..]);
      assert forall k :: 0 < k < |steps| ==> steps[k] == steps[1..][k - 1];
      assert forall k :: 0 <= k < |steps| - 1 ==> steps[1..][k] == steps[k + 1];
    }
  }

  lemma NoLeakIsNothingStuck(a: Agent)
    requires Sane(a)
    ensures NoLeak(a) <==> forall x :: !Stuck(a, x)
  {
    if forall x :: !Stuck(a, x) {
      forall x | x in a.varnishd.loaded ensures x == a.varnishd.active || x in a.pending { assert !Stuck(a, x); }
    }
  }

  /** No VCL is left behind, whatever restarts, exactly when no step left one behind since varnishd last restarted. */
  lemma NoLeakExactlyWhen(a: Agent, steps: seq<Incident>)
    requires NoLeak(a) && IsHistory(a, steps)
    ensures NoLeak(Live(a, steps)) <==> NothingLeftBehind(a, steps)
  {
    hide Stuck, Live, NoVarnishdRestart, Leaks, Happen;
    NoLeakIsNothingStuck(a);
    var b := Live(a, steps);
    forall x ensures Stuck(b, x) <==> LeftBehind(a, steps, x) { StuckExactlyWhen(a, x, steps); }
    StuckExactlyWhen(a, "", steps);
    NoLeakIsNothingStuck(b);
    if NothingLeftBehind(a, steps) {
      forall x ensures !Stuck(b, x) { assert !LeftBehind(a, steps, x); }
    }
    if NoLeak(b) {
      forall x ensures !LeftBehind(a, steps, x) { assert !Stuck(b, x); }
    }
  }

  /** Every command goes through and the agent process stays. */
  ghost predicate Untroubled(a: Agent, steps: seq<Incident>)
    requires IsHistory(a, steps)
    decreases |steps|
  {
    steps == [] || (!steps[0].AgentRestart? && (steps[0].Regular? ==> Smooth(a, steps[0].step))
                    && Untroubled(Happen(a, steps[0]), steps[1..]))
  }

  lemma {:induction false} UntroubledLeavesNothing(a: Agent, x: string, steps: seq<Incident>)
    requires IsHistory(a, steps) && Untroubled(a, steps)
    ensures !LeftBehind(a, steps, x)
    decreases |steps|
  {
    hide Happen;
    if steps != [] { UntroubledLeavesNothing(Happen(a, steps[0]), x, steps[1..]); }
  }

  /** In particular restarts of varnishd alone leave nothing behind. */
  lemma RestartsDoNotLeak(a: Agent, steps: seq<Incident>)
    requires NoLeak(a) && IsHistory(a, steps) && Untroubled(a, steps)
    ensures NoLeak(Live(a, steps))
  {
    hide NoLeak, Live, Untroubled;
    NoLeakExactlyWhen(a, steps);
    forall x ensures !LeftBehind(a, steps, x) { UntroubledLeavesNothing(a, x, steps); }
  }

  /** An agent that restarts leaves every VCL stuck that it was going to discard. */
  lemma ForgottenDiscardsStick(a: Agent, x: string)
    requires Tidy(a)
    ensures Stuck(Forget(a), x) <==> x in a.pending
  {
    assert x in Scheduled(a) <==> x in a.pending;
  }

  lemma FailedUseLeavesItLoaded(a: Agent, name: string, listOk: bool)
    requires Tidy(a) && CanInline(a.varnishd, name, true)
    ensures Stuck(Push(a, name, true, Cli(listOk, false)), name)
  {
    assert name !in Scheduled(a);
  }

  // ----- premature claims -----

  /** A reported push means loaded; where it is not active, it is scheduled for discard or stuck already. */
  lemma ReportedMeansLoaded(a: Agent, name: string, compiles: bool, cli: Cli)
    requires Reported(PushResultOf(a, name, compiles, cli))
    ensures var b := Push(a, name, compiles, cli);
      && name in b.varnishd.loaded
      && (b.varnishd.active != name ==> b == a && (name in b.pending || Stuck(b, name)))
      && (b.varnishd.active != name && NoLeak(a) ==> name in b.pending)
  {
  }

  /**
   A reported push is active exactly when its name is not due for discard. After a restart the
   agent may still list names that are gone, and only loaded ones count.
   */
  lemma ReportedActiveExactlyWhen(a: Agent, name: string, compiles: bool, cli: Cli)
    requires NoLeak(a) && Reported(PushResultOf(a, name, compiles, cli))
    ensures Push(a, name, compiles, cli).varnishd.active == name
         <==> name == a.varnishd.active || !(name in a.pending && name in a.varnishd.loaded)
    ensures Tidy(a) ==> (Push(a, name, compiles, cli).varnishd.active == name <==> name !in a.pending)
  {
    assert name in Scheduled(a) <==> name in a.pending;
  }

  datatype Standing = Stale | Gone | Current | Wedged

  /** Where `name` stands: loaded and due for discard, not loaded, active, or loaded for good. */
  ghost predicate Stands(a: Agent, name: string, s: Standing) {
    match s
    case Stale => a.varnishd.active != name && name in a.pending && name in a.varnishd.loaded
    case Gone => a.varnishd.active != name && name !in a.varnishd.loaded
    case Current => a.varnishd.active == name
    case Wedged => Stuck(a, name)
  }

  function Advance(s: Standing, step: Step, a: Agent, name: string): Standing {
    match s
    case Stale =>
      if !(step.DoFire? && step.i < |a.pending| && a.pending[step.i] == name) then Stale
      else if step.ok then Gone
      else if name in a.pending[..step.i] + a.pending[step.i + 1..] then Stale
      else Wedged
    case Gone =>
      if step.DoPush? && step.compiles && step.cli.useOk then Current
      else if step.DoPush? && step.compiles then (if name in a.pending then Stale else Wedged)
      else if step.DoValidate? && step.temp == name && step.compiles then Stale
      else Gone
    case Current => Current
    case Wedged => Wedged
  }

  /**
   While nothing but `name` is pushed: a stale copy stays until its discard fires, and the next
   push then activates it for good; a discard or activation that fails wedges it.
   */
  lemma ClaimAdvances(a: Agent, name: string, s: Standing, step: Step)
    requires Sane(a) && Stands(a, name, s) && Allowed(a, step) && (step.DoPush? ==> step.name == name)
    ensures Stands(Apply(a, step), name, Advance(s, step, a, name))
  {
    if step.DoFire? && name != a.pending[step.i] { RestKeeps(a, step.i, name); }
  }

  function StandingAfter(s: Standing, a: Agent, steps: seq<Step>, name: string): Standing
    requires IsRun(a, steps)
    decreases |steps|
  {
    if steps == [] then s else StandingAfter(Advance(s, steps[0], a, name), Apply(a, steps[0]), steps[1..], name)
  }

  /** The same along a whole run: where the name stands follows from the discards and pushes and how they went. */
  lemma {:induction false} ClaimOverRun(a: Agent, name: string, s: Standing, steps: seq<Step>)
    requires Sane(a) && Stands(a, name, s) && IsRun(a, steps)
    requires forall k :: 0 <= k < |steps| && steps[k].DoPush? ==> steps[k].name == name
    ensures Stands(Run(a, steps), name, StandingAfter(s, a, steps, name))
    decreases |steps|
  {
    hide Sane, Stands, Advance, Apply;
    if steps != [] {
      ClaimAdvances(a, name, s, steps[0]);
      HappenSane(a, Regular(steps[0]));
      assert forall k :: 0 <= k < |steps| - 1 ==> steps[1..][k] == steps[k + 1];
      ClaimOverRun(Apply(a, steps[0]), name, Advance(s, steps[0], a, name), steps[1..]);
    }
  }

  /** The first push after the discard has gone through activates the desired VCL. */
  lemma ClaimResolves(a: Agent, name: string, i: nat)
    requires Tidy(a) && i < |a.pending| && a.pending[i] == name && name != ""
    ensures a.varnishd.active != name
    ensures PushResultOf(a, name, true, CLI_OK) == AlreadyLoaded
    ensures PushResultOf(Fire(a, i, true), name, true, CLI_OK) == Pushed
    ensures Push(Fire(a, i, true), name, true, CLI_OK).varnishd.active == name
  {
    assert name in Scheduled(a);
  }
}
