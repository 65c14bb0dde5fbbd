/**
 The agent's side of a VCL push (`internal/agent/admin.go`): varnishd holds a set of loaded
 VCLs, one of them active; the agent loads and activates under a new name and discards the
 previous VCL later.
 */
module Agents {
  import opened Wrappers
  import opened Text

  const BOOT := "boot"

  /** The state `vcl.inline`, `vcl.use` and `vcl.discard` work on. */
  datatype Varnishd = Varnishd(loaded: set<string>, active: string)

  /** An agent with its varnishd and the discards it has scheduled, oldest first. */
  datatype Agent = Agent(varnishd: Varnishd, pending: seq<string>)

  function Started(): Agent { Agent(Varnishd({BOOT}, BOOT), []) }

  /** `vcl.inline` is refused for a name that is loaded and for a VCL that does not compile. */
  predicate CanInline(v: Varnishd, name: string, compiles: bool) { name !in v.loaded && compiles }

  function Inline(v: Varnishd, name: string): Varnishd { v.(loaded := v.loaded + {name}) }

  function Use(v: Varnishd, name: string): Varnishd { v.(active := name) }

  /** `vcl.discard` is refused for the active VCL and for an unknown name. */
  function Discard(v: Varnishd, name: string): Varnishd {
    if name == v.active then v else v.(loaded := v.loaded - {name})
  }

  datatype PushResult = Pushed | AlreadyLoaded | Rejected | ListOrUseFailed

  /** Which of the CLI calls around a successful `vcl.inline` went through. */
  datatype Cli = Cli(listOk: bool, useOk: bool)

  const CLI_OK := Cli(true, true)

  function PushResultOf(a: Agent, name: string, compiles: bool, cli: Cli): PushResult {
    if name in a.varnishd.loaded then AlreadyLoaded
    else if !compiles then Rejected
    else if !cli.useOk then ListOrUseFailed
    else Pushed
  }

  /** The operator counts a load refused because the name is taken as a success. */
  predicate Reported(r: PushResult) { r.Pushed? || r.AlreadyLoaded? }

  function Push(a: Agent, name: string, compiles: bool, cli: Cli): Agent {
    if !CanInline(a.varnishd, name, compiles) then a
    else
      var v := Inline(a.varnishd, name);
      if !cli.useOk then a.(varnishd := v)
      else
        var previous := if cli.listOk then a.varnishd.active else "";
        Agent(Use(v, name), if previous != "" && previous != name then a.pending + [previous] else a.pending)
  }

  /** A syntax check under a temporary name, discarded as soon as it has loaded. */
  function Validate(a: Agent, temp: string, compiles: bool): Agent {
    if !CanInline(a.varnishd, temp, compiles) then a
    else Agent(Inline(a.varnishd, temp), a.pending + [temp])
  }

  /** The `i`-th scheduled discard runs. It is not repeated, and whether the command went through is ignored. */
  function Fire(a: Agent, i: nat, ok: bool): Agent
    requires i < |a.pending|
  {
    Agent(if ok then Discard(a.varnishd, a.pending[i]) else a.varnishd, a.pending[..i] + a.pending[i + 1..])
  }

  /** varnishd comes back with the bootstrap VCL only; scheduled discards stay scheduled. */
  function Restart(a: Agent): Agent { a.(varnishd := Started().varnishd) }

  /** The agent process comes back: the discards that were waiting are forgotten, varnishd is as it was. */
  function Forget(a: Agent): Agent { a.(pending := []) }

  // ----- what each operation comes to -----

  /**
   A push is counted exactly if the name was loaded before, or it compiles and is activated; it
   loads the name at most, and only what it replaces is scheduled for discard.
   */
  lemma PushOutcome(a: Agent, name: string, compiles: bool, cli: Cli)
    ensures var b, r := Push(a, name, compiles, cli), PushResultOf(a, name, compiles, cli);
      var was, loads := a.varnishd, name !in a.varnishd.loaded && compiles;
      && (Reported(r) <==> name in was.loaded || (compiles && cli.useOk))
      && (r.AlreadyLoaded? <==> name in was.loaded) && (r.Rejected? <==> name !in was.loaded && !compiles)
      && (forall x :: x in b.varnishd.loaded <==> x in was.loaded || (x == name && loads))
      && b.varnishd.active == (if loads && cli.useOk then name else was.active)
      && b.pending == a.pending +
           if loads && cli.useOk && cli.listOk && was.active != "" && was.active != name then [was.active] else []
  {
  }

  /** A validation activates nothing, and schedules exactly what it loaded. */
  lemma ValidationOutcome(a: Agent, temp: string, compiles: bool)
    ensures var b, loads := Validate(a, temp, compiles), temp !in a.varnishd.loaded && compiles;
      && (forall x :: x in b.varnishd.loaded <==> x in a.varnishd.loaded || (x == temp && loads))
      && b.varnishd.active == a.varnishd.active && b.pending == a.pending + if loads then [temp] else []
  {
  }

  /** A discard takes out at most its own VCL, and that only if it is not active and the command goes through. */
  lemma DiscardOutcome(a: Agent, i: nat, ok: bool)
    requires i < |a.pending|
    ensures var b, name := Fire(a, i, ok), a.pending[i];
      && (forall x :: x in b.varnishd.loaded <==>
            x in a.varnishd.loaded && !(x == name && ok && x != a.varnishd.active))
      && b.varnishd.active == a.varnishd.active && a.pending == b.pending[..i] + [name] + b.pending[i..]
  {
    var rest := a.pending[..i] + a.pending[i + 1..];
    assert rest[..i] == a.pending[..i] && rest[i..] == a.pending[i + 1..];
  }

  // ----- the object -----

  class AdminClient {
    var loaded: set<string>
    var active: string
    /** Discards waiting for their grace period. */
    var pending: seq<string>

    ghost function Model(): Agent
      reads this
    {
      Agent(Varnishd(loaded, active), pending)
    }

    constructor ()
      ensures Model() == Started() && Tidy(Model())
    {
      loaded, active, pending := {BOOT}, BOOT, [];
      new;
      StartedTidy();
    }

    method PushVCL(name: string, compiles: bool, cli: Cli) returns (r: PushResult)
      modifies this
      ensures Model() == Push(old(Model()), name, compiles, cli)
      ensures r == PushResultOf(old(Model()), name, compiles, cli)
      ensures old(Tidy(Model())) && name != "" ==>
        (Tidy(Model()) <==> (r.Pushed? || r.ListOrUseFailed? ==> cli == CLI_OK))
    {
      ghost var before := Model();
      if Tidy(before) && name != "" { PushTidyExactlyWhen(before, name, compiles, cli); }
      var oldName := if cli.listOk then active else "";
      if name in loaded {
        return AlreadyLoaded;
      }
      if !compiles {
        return Rejected;
      }
      loaded := loaded + {name};
      if !cli.useOk {
        return ListOrUseFailed;
      }
      active := name;
      if oldName != "" && oldName != name {
        pending := pending + [oldName];
      }
      return Pushed;
    }

    method ValidateVCL(temp: string, compiles: bool) returns (valid: bool)
      modifies this
      ensures Model() == Validate(old(Model()), temp, compiles)
      ensures valid == CanInline(old(Model()).varnishd, temp, compiles)
      ensures old(Tidy(Model())) && temp != "" ==> Tidy(Model())
    {
      ghost var before := Model();
      if Tidy(before) && temp != "" { ValidateTidy(before, temp, compiles); }
      valid := temp !in loaded && compiles;
      if valid {
        loaded := loaded + {temp};
        pending := pending + [temp];
      }
    }

    method DiscardVCL(i: nat, ok: bool)
      requires i < |pending|
      modifies this
      ensures Model() == Fire(old(Model()), i, ok)
      ensures old(Tidy(Model())) ==> (Tidy(Model()) <==> ok)
    {
      ghost var before := Model();
      if Tidy(before) { FireTidyExactlyWhen(before, i, ok); }
      var name := pending[i];
      pending := pending[..i] + pending[i + 1..];
      if ok && name != active {
        loaded := loaded - {name};
      }
    }
  }

  // ----- the lifecycle invariant -----

  function Scheduled(a: Agent): set<string> { set x | x in a.pending }

  /** Loaded is the active VCL plus the scheduled discards, which are distinct and never the active one. */
  ghost predicate Tidy(a: Agent) {
    && Distinct(a.pending) && a.varnishd.active !in a.pending
    && a.varnishd.loaded == {a.varnishd.active} + Scheduled(a)
    && "" !in a.varnishd.loaded
  }

  /** Loaded, but neither active nor scheduled for discard. */
  predicate Stuck(a: Agent, name: string) {
    name in a.varnishd.loaded && a.varnishd.active != name && name !in a.pending
  }

  lemma TidyHoldsNothingStuck(a: Agent, x: string)
    requires Tidy(a)
    ensures !Stuck(a, x)
  {
    assert x in Scheduled(a) <==> x in a.pending;
  }

  datatype Step =
    | DoPush(name: string, compiles: bool, cli: Cli)
    | DoValidate(temp: string, compiles: bool)
    | DoFire(i: nat, ok: bool)

  /** A push or validation of the unnamed VCL is refused by the agent's handler. */
  predicate Allowed(a: Agent, s: Step) {
    match s
    case DoPush(name, _, _) => name != ""
    case DoValidate(temp, _) => temp != ""
    case DoFire(i, _) => i < |a.pending|
  }

  function Apply(a: Agent, s: Step): Agent
    requires Allowed(a, s)
  {
    match s
    case DoPush(name, compiles, cli) => Push(a, name, compiles, cli)
    case DoValidate(temp, compiles) => Validate(a, temp, compiles)
    case DoFire(i, ok) => Fire(a, i, ok)
  }

  /** Every command the step sends after a successful `vcl.inline`, and every discard, goes through. */
  predicate Smooth(a: Agent, s: Step) {
    match s
    case DoPush(name, compiles, cli) => CanInline(a.varnishd, name, compiles) ==> cli == CLI_OK
    case DoValidate(_, _) => true
    case DoFire(_, ok) => ok
  }

  lemma StartedTidy()
    ensures Tidy(Started()) && Started() == Agent(Varnishd({"boot"}, "boot"), [])
  {
  }

  lemma ScheduledAppend(a: Agent, x: string)
    ensures Scheduled(a.(pending := a.pending + [x])) == Scheduled(a) + {x}
  {
  }

  lemma PushTidy(a: Agent, name: string, compiles: bool)
    requires Tidy(a) && name != ""
    ensures Tidy(Push(a, name, compiles, CLI_OK))
  {
    if CanInline(a.varnishd, name, compiles) {
      ScheduledAppend(a, a.varnishd.active);
      assert a.varnishd.active in a.varnishd.loaded;
      forall x | x in a.pending ensures x in a.varnishd.loaded { assert x in Scheduled(a); }
    }
  }

  lemma ValidateTidy(a: Agent, temp: string, compiles: bool)
    requires Tidy(a) && temp != ""
    ensures Tidy(Validate(a, temp, compiles))
  {
    if CanInline(a.varnishd, temp, compiles) {
      ScheduledAppend(a, temp);
      forall x | x in a.pending ensures x in a.varnishd.loaded { assert x in Scheduled(a); }
    }
  }

  /** Where a scheduled entry stands once another one has been taken out. */
  lemma RestKeeps(a: Agent, i: nat, x: string)
    requires i < |a.pending| && x != a.pending[i]
    ensures x in a.pending[..i] + a.pending[i + 1..] <==> x in a.pending
  {
    var rest := a.pending[..i] + a.pending[i + 1..];
    if x in a.pending {
      var j :| 0 <= j < |a.pending| && a.pending[j] == x;
      assert rest[if j < i then j else j - 1] == x;
    }
  }

  lemma FireTidy(a: Agent, i: nat)
    requires Tidy(a) && i < |a.pending|
    ensures Tidy(Fire(a, i, true))
  {
    var rest := a.pending[..i] + a.pending[i + 1..];
    assert Distinct(rest);
    forall x ensures x in rest <==> x in a.pending && x != a.pending[i] {
      if x != a.pending[i] { RestKeeps(a, i, x); }
    }
    assert Scheduled(Fire(a, i, true)) == Scheduled(a) - {a.pending[i]};
  }

  /** A discard keeps the invariant exactly when the command goes through. */
  lemma FireTidyExactlyWhen(a: Agent, i: nat, ok: bool)
    requires Tidy(a) && i < |a.pending|
    ensures Tidy(Fire(a, i, ok)) <==> ok
    ensures !ok ==> Stuck(Fire(a, i, ok), a.pending[i])
  {
    if ok {
      FireTidy(a, i);
    } else {
      assert a.pending[i] in Scheduled(a);
      if Tidy(Fire(a, i, ok)) { TidyHoldsNothingStuck(Fire(a, i, ok), a.pending[i]); }
    }
  }

  ghost predicate IsRun(a: Agent, steps: seq<Step>)
    decreases |steps|
  {
    steps == [] || (Allowed(a, steps[0]) && IsRun(Apply(a, steps[0]), steps[1..]))
  }

  function Run(a: Agent, steps: seq<Step>): Agent
    requires IsRun(a, steps)
    decreases |steps|
  {
    if steps == [] then a else Run(Apply(a, steps[0]), steps[1..])
  }

  ghost predicate AllSmooth(a: Agent, steps: seq<Step>)
    requires IsRun(a, steps)
    decreases |steps|
  {
    steps == [] || (Smooth(a, steps[0]) && AllSmooth(Apply(a, steps[0]), steps[1..]))
  }

  lemma StepTidy(a: Agent, s: Step)
    requires Tidy(a) && Allowed(a, s) && Smooth(a, s)
    ensures Tidy(Apply(a, s))
  {
    hide Tidy, Validate;
    match s {
      case DoPush(name, compiles, cli) => PushTidyExactlyWhen(a, name, compiles, cli);
      case DoValidate(temp, compiles) => ValidateTidy(a, temp, compiles);
      case DoFire(i, ok) => FireTidy(a, i);
    }
  }

  /** A step that is not smooth leaves something stuck. */
  lemma RoughStepSticks(a: Agent, s: Step) returns (x: string)
    requires Tidy(a) && Allowed(a, s) && !Smooth(a, s)
    ensures Stuck(Apply(a, s), x)
  {
    assert forall x :: x in a.pending ==> x in Scheduled(a);
    match s {
      case DoPush(name, _, cli) => x := if cli.useOk then a.varnishd.active else name;
      case DoFire(i, ok) =>
        x := a.pending[i];
        FireTidyExactlyWhen(a, i, ok);
    }
  }

  lemma StuckStays(a: Agent, s: Step, x: string)
    requires Allowed(a, s) && Stuck(a, x)
    ensures Stuck(Apply(a, s), x)
  {
  }

  /**
   After a `vcl.use` or `vcl.discard` that failed the name is stuck, whatever is pushed, validated
   or discarded: pushing it again is reported as a success and never activates it.
   */
  lemma {:induction false} StuckForGood(a: Agent, x: string, steps: seq<Step>)
    requires IsRun(a, steps) && Stuck(a, x)
    ensures var b := Run(a, steps);
      && Stuck(b, x)
      && forall compiles, cli ::
           PushResultOf(b, x, compiles, cli) == AlreadyLoaded && Push(b, x, compiles, cli) == b
    decreases |steps|
  {
    if steps != [] {
      StuckStays(a, steps[0], x);
      StuckForGood(Apply(a, steps[0]), x, steps[1..]);
    }
  }

  /**
   Over any sequence of pushes, validations, refused loads and discards: no scheduled discard names
   the active VCL, none is scheduled twice and nothing else is loaded, exactly when every command
   on the way went through.
   */
  lemma {:induction false} LifecycleInvariant(a: Agent, steps: seq<Step>)
    requires Tidy(a) && IsRun(a, steps)
    ensures Tidy(Run(a, steps)) <==> AllSmooth(a, steps)
    decreases |steps|
  {
    hide Tidy, Apply, Smooth, Stuck;
    if steps != [] {
      if Smooth(a, steps[0]) {
        StepTidy(a, steps[0]);
        LifecycleInvariant(Apply(a, steps[0]), steps[1..]);
      } else {
        var x := RoughStepSticks(a, steps[0]);
        StuckForGood(Apply(a, steps[0]), x, steps[1..]);
        if Tidy(Run(a, steps)) { TidyHoldsNothingStuck(Run(a, steps), x); }
      }
    }
  }

  /** Once every scheduled discard has run, the active VCL is the only one loaded. */
  lemma OnlyActiveRemains(a: Agent)
    requires Tidy(a) && a.pending == []
    ensures a.varnishd.loaded == {a.varnishd.active}
  {
  }

  /** From a started varnishd: with smooth commands only the active VCL is left once all discards have fired. */
  lemma LifecycleFromStart(steps: seq<Step>)
    requires IsRun(Started(), steps)
    ensures var a := Run(Started(), steps);
      && (Tidy(a) <==> AllSmooth(Started(), steps))
      && (Tidy(a) && a.pending == [] ==> a.varnishd.loaded == {a.varnishd.active})
  {
    hide Tidy, Run, AllSmooth;
    StartedTidy();
    LifecycleInvariant(Started(), steps);
    var a := Run(Started(), steps);
    if Tidy(a) && a.pending == [] { OnlyActiveRemains(a); }
  }

  /**
   What the invariant needs from the CLI: a push keeps it exactly when, after a successful
   `vcl.inline`, both `vcl.list` and `vcl.use` went through.
   */
  lemma PushTidyExactlyWhen(a: Agent, name: string, compiles: bool, cli: Cli)
    requires Tidy(a) && name != ""
    ensures Tidy(Push(a, name, compiles, cli)) <==> (CanInline(a.varnishd, name, compiles) ==> cli.listOk && cli.useOk)
  {
    var b := Push(a, name, compiles, cli);
    if CanInline(a.varnishd, name, compiles) {
      if cli.listOk && cli.useOk {
        assert cli == CLI_OK;
        PushTidy(a, name, compiles);
      } else if !cli.useOk {
        assert name in b.varnishd.loaded && name != b.varnishd.active;
        assert name !in Scheduled(b) by { assert name !in Scheduled(a); }
      } else {
        assert a.varnishd.active in b.varnishd.loaded && b.varnishd.active == name;
        assert a.varnishd.active !in Scheduled(b);
      }
    }
  }

  // ----- reading vcl.list -----

  predicate IsActiveRow(row: string) { |Fields(row)| >= 5 && Fields(row)[0] == "active" }

  /** The name column of the first active row; None is the agent's error. */
  function ActiveIn(rows: seq<string>): Option<string> {
    if rows == [] then None
    else if IsActiveRow(rows[0]) then Some(Fields(rows[0])[4])
    else ActiveIn(rows[1..])
  }

  method ActiveVCL(rows: seq<string>) returns (r: Option<string>)
    ensures r == ActiveIn(rows)
  {
    hide Fields;
    for i := 0 to |rows|
      invariant ActiveIn(rows) == ActiveIn(rows[i..])
    {
      assert rows[i..][0] == rows[i] && rows[i..][1..] == rows[i + 1..];
      var parts := Fields(rows[i]);
      if |parts| >= 5 && parts[0] == "active" {
        return Some(parts[4]);
      }
    }
    return None;
  }

  /** One row of the listing: five columns, then whatever label columns follow. */
  datatype Row = Row(status: string, state: string, temperature: string, busy: string, name: string, more: seq<string>)

  function Columns(r: Row): seq<string> { [r.status, r.state, r.temperature, r.busy, r.name] + r.more }

  ghost predicate Printable(columns: seq<string>) { forall i :: 0 <= i < |columns| ==> IsWord(columns[i]) }

  function Listing(rows: seq<Row>, gap: string): (r: seq<string>)
    ensures |r| == |rows| && forall i :: 0 <= i < |rows| ==> r[i] == Spaced(Columns(rows[i]), gap)
  {
    seq(|rows|, i requires 0 <= i < |rows| => Spaced(Columns(rows[i]), gap))
  }

  /**
   For every listing with one active row the agent reports exactly that row's name, whatever
   names, labels and blanks the other columns hold.
   */
  lemma {:induction false} ActiveOfListing(rows: seq<Row>, gap: string, k: nat)
    requires k < |rows| && rows[k].status == "active"
    requires forall i :: 0 <= i < k ==> rows[i].status != "active"
    requires forall i :: 0 <= i < |rows| ==> Printable(Columns(rows[i]))
    requires gap != [] && All(IsSpace, gap)
    ensures ActiveIn(Listing(rows, gap)) == Some(rows[k].name)
    decreases k
  {
    hide Fields, IsWord, Spaced;
    var text := Listing(rows, gap);
    FieldsOfSpaced(Columns(rows[0]), gap);
    assert text[0] == Spaced(Columns(rows[0]), gap);
    if k > 0 {
      assert text[1..] == Listing(rows[1..], gap);
      ActiveOfListing(rows[1..], gap, k - 1);
    }
  }

  /** A row in the older form, with one column less. */
  datatype OldRow = OldRow(status: string, state: string, busy: string, name: string, more: seq<string>)

  function OldColumns(r: OldRow): seq<string> { [r.status, r.state, r.busy, r.name] + r.more }

  function OldListing(rows: seq<OldRow>, gap: string): (r: seq<string>)
    ensures |r| == |rows| && forall i :: 0 <= i < |rows| ==> r[i] == Spaced(OldColumns(rows[i]), gap)
  {
    seq(|rows|, i requires 0 <= i < |rows| => Spaced(OldColumns(rows[i]), gap))
  }

  /**
   A listing in the older form is turned away, so the pod is not taken for ready, exactly when
   no label columns follow the active name; with labels the fifth word is taken for the name.
   */
  lemma {:induction false} FourColumnListing(rows: seq<OldRow>, gap: string)
    requires forall i, j :: 0 <= i < j < |rows| ==> rows[i].status != "active" || rows[j].status != "active"
    requires forall i :: 0 <= i < |rows| ==> Printable(OldColumns(rows[i]))
    requires gap != [] && All(IsSpace, gap)
    ensures ActiveIn(OldListing(rows, gap)).None?
       <==> forall i :: 0 <= i < |rows| && rows[i].status == "active" ==> rows[i].more == []
    ensures forall i :: 0 <= i < |rows| && rows[i].status == "active" && rows[i].more != [] ==>
      ActiveIn(OldListing(rows, gap)) == Some(rows[i].more[0])
  {
    hide Fields, IsWord, Spaced;
    if rows != [] {
      var text := OldListing(rows, gap);
      FieldsOfSpaced(OldColumns(rows[0]), gap);
      assert text[0] == Spaced(OldColumns(rows[0]), gap);
      assert text[1..] == OldListing(rows[1..], gap);
      FourColumnListing(rows[1..], gap);
      assert forall k :: 0 < k < |rows| ==> rows[k] == rows[1..][k - 1];
      assert forall k :: 0 <= k < |rows| - 1 ==> rows[1..][k] == rows[k + 1];
    }
  }
}
