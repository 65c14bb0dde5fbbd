/**
 Rounds of the operator against the agents, with readiness probes, discards, failing commands and
 restarts in between: what the operator claims is bounded by what is loaded, over every run.
 */
module Clusters {
  import opened Wrappers
  import opened Agents
  import opened AgentHistories
  import opened Operators

  /** All pods, their agents, and those whose readiness condition is set. */
  datatype Cluster = Cluster(agents: Fleet, ready: set<string>)

  /** The VCL name generated for a set of ready peers; everything else it depends on is fixed. */
  type Generator = set<string> -> string

  /**
   In a round `asked` are the agents that answer the query, `up` those that can be pushed to, and
   `cli` tells where `vcl.list` or `vcl.use` fail. `Restarted` is varnishd, `AgentLost` its agent.
   `Unready` takes a pod out of the ready set for any other reason: its agent container has not
   started, its health check goes unanswered, or it is no longer running.
   */
  datatype Event =
    | Round(asked: set<string>, up: set<string>, compiles: bool, cli: map<string, Cli>)
    | Probe(ip: string)
    | Discarded(ip: string, i: nat, ok: bool)
    | Restarted(ip: string)
    | AgentLost(ip: string)
    | Unready(ip: string)

  predicate Possible(c: Cluster, e: Event) {
    match e
    case Round(_, _, _, _) => true
    case Probe(ip) => ip in c.agents
    case Discarded(ip, i, _) => ip in c.agents && i < |c.agents[ip].pending|
    case Restarted(ip) => ip in c.agents
    case AgentLost(ip) => ip in c.agents
    case Unready(ip) => ip in c.agents
  }

  /** The health check the readiness probe asks: anything but the bootstrap VCL is active. */
  predicate Healthy(a: Agent) { a.varnishd.active != BOOT }

  function CliOf(e: Event, ip: string): Cli
    requires e.Round?
  {
    if ip in e.cli then e.cli[ip] else CLI_OK
  }

  /** One agent's part in a round. */
  function Visited(agents: Fleet, ip: string, desired: string, e: Event): Agent
    requires ip in agents && e.Round?
  {
    if IsTarget(agents, e.asked, desired, ip) && ip in e.up then Push(agents[ip], desired, e.compiles, CliOf(e, ip))
    else agents[ip]
  }

  function RoundFleet(agents: Fleet, desired: string, e: Event): Fleet
    requires e.Round?
  {
    map ip | ip in agents :: Visited(agents, ip, desired, e)
  }

  function Next(c: Cluster, gen: Generator, e: Event): (r: Cluster)
    requires Possible(c, e)
    ensures r.agents.Keys == c.agents.Keys
  {
    match e
    case Round(_, _, _, _) => c.(agents := RoundFleet(c.agents, gen(c.ready), e))
    case Probe(ip) => c.(ready := if Healthy(c.agents[ip]) then c.ready + {ip} else c.ready - {ip})
    case Discarded(ip, i, ok) => c.(agents := c.agents[ip := Fire(c.agents[ip], i, ok)])
    case Restarted(ip) => c.(agents := c.agents[ip := Restart(c.agents[ip])])
    case AgentLost(ip) => c.(agents := c.agents[ip := Forget(c.agents[ip])])
    case Unready(ip) => c.(ready := c.ready - {ip})
  }

  /** The operator ends the round recording the desired VCL for the pod. */
  predicate Claims(c: Cluster, gen: Generator, e: Event, ip: string)
    requires e.Round? && ip in c.agents
  {
    || !IsTarget(c.agents, e.asked, gen(c.ready), ip)
    || (ip in e.up && Reported(PushResultOf(c.agents[ip], gen(c.ready), e.compiles, CliOf(e, ip))))
  }

  function Net(e: Event): Network
    requires e.Round?
  {
    Network(e.compiles, e.up, ip => CliOf(e, ip))
  }

  /** The method `Reconcile` leaves exactly this fleet, and records exactly these claims. */
  lemma RoundIsReconcile(c: Cluster, gen: Generator, e: Event, reachable: seq<Peer>, after: Fleet,
                         names: map<string, string>, failed: bool)
    requires e.Round? && AllPresent(c.agents, reachable) && forall ip :: ip in c.agents ==> HasIp(reachable, ip)
    requires after.Keys == c.agents.Keys
    requires forall i :: 0 <= i < |reachable| ==>
      RoundAt(c.agents, reachable[i], gen(c.ready), Net(e), e.asked, after, names, failed)
    ensures after == Next(c, gen, e).agents
    ensures !failed ==> forall ip :: ip in c.agents ==>
      ip in names && (names[ip] == gen(c.ready) <==> Claims(c, gen, e, ip))
  {
    hide Push, PushResultOf;
    forall ip | ip in c.agents
      ensures after[ip] == Visited(c.agents, ip, gen(c.ready), e)
      ensures !failed ==> ip in names && (names[ip] == gen(c.ready) <==> Claims(c, gen, e, ip))
    {
      var i :| 0 <= i < |reachable| && reachable[i].ip == ip;
      assert RoundAt(c.agents, reachable[i], gen(c.ready), Net(e), e.asked, after, names, failed);
    }
  }

  /** What an event is to one pod's agent, if anything. */
  function IncidentAt(c: Cluster, gen: Generator, e: Event, ip: string): Option<Incident>
    requires ip in c.agents
  {
    match e
    case Round(asked, up, compiles, _) =>
      if IsTarget(c.agents, asked, gen(c.ready), ip) && ip in up
      then Some(Regular(DoPush(gen(c.ready), compiles, CliOf(e, ip))))
      else None
    case Probe(_) => None
    case Discarded(x, i, ok) => if x == ip then Some(Regular(DoFire(i, ok))) else None
    case Restarted(x) => if x == ip then Some(VarnishdRestart) else None
    case AgentLost(x) => if x == ip then Some(AgentRestart) else None
    case Unready(_) => None
  }

  lemma NextAt(c: Cluster, gen: Generator, e: Event, ip: string)
    requires Possible(c, e) && ip in c.agents && gen(c.ready) != ""
    ensures match IncidentAt(c, gen, e, ip)
      case None => Next(c, gen, e).agents[ip] == c.agents[ip]
      case Some(s) => MayHappen(c.agents[ip], s) && Next(c, gen, e).agents[ip] == Happen(c.agents[ip], s)
  {
    hide Push, Fire;
  }

  // ----- runs -----

  ghost predicate Runs(c: Cluster, gen: Generator, es: seq<Event>)
    decreases |es|, 0
  {
    es == [] || (Runs(c, gen, es[..|es| - 1]) && Possible(After(c, gen, es[..|es| - 1]), es[|es| - 1]))
  }

  ghost function After(c: Cluster, gen: Generator, es: seq<Event>): (r: Cluster)
    requires Runs(c, gen, es)
    ensures r.agents.Keys == c.agents.Keys
    decreases |es|, 1
  {
    if es == [] then c else Next(After(c, gen, es[..|es| - 1]), gen, es[|es| - 1])
  }

  lemma RunSnoc(c: Cluster, gen: Generator, es: seq<Event>, e: Event)
    requires Runs(c, gen, es) && Possible(After(c, gen, es), e)
    ensures Runs(c, gen, es + [e]) && After(c, gen, es + [e]) == Next(After(c, gen, es), gen, e)
  {
    assert (es + [e])[..|es + [e]| - 1] == es;
  }

  /** All pods fresh, nobody ready. */
  function Fresh(ips: set<string>): Cluster { Cluster(map ip | ip in ips :: Started(), {}) }

  /** Generated names are real names. */
  ghost predicate Named(gen: Generator, ips: set<string>) {
    forall r :: r <= ips ==> gen(r) != BOOT && gen(r) != ""
  }

  /** Only pods are ready, and each has its active VCL loaded. */
  ghost predicate Sound(c: Cluster) {
    c.ready <= c.agents.Keys && forall ip :: ip in c.agents ==> Sane(c.agents[ip])
  }

  lemma NextSound(c: Cluster, gen: Generator, e: Event)
    requires Sound(c) && Possible(c, e) && gen(c.ready) != ""
    ensures Sound(Next(c, gen, e))
  {
    hide Sane, Next;
    forall ip | ip in c.agents ensures Sane(Next(c, gen, e).agents[ip]) {
      NextAt(c, gen, e, ip);
      var s := IncidentAt(c, gen, e, ip);
      if s.Some? { HappenSane(c.agents[ip], s.value); }
    }
    ReadyArePods(c, gen, e);
  }

  lemma ReadyArePods(c: Cluster, gen: Generator, e: Event)
    requires Possible(c, e) && c.ready <= c.agents.Keys
    ensures Next(c, gen, e).ready <= c.agents.Keys
  {
  }

  lemma {:induction false} RunSound(ips: set<string>, gen: Generator, es: seq<Event>)
    requires Named(gen, ips) && Runs(Fresh(ips), gen, es)
    ensures Sound(After(Fresh(ips), gen, es))
  {
    hide Next, Possible;
    if es != [] {
      RunSound(ips, gen, es[..|es| - 1]);
      NextSound(After(Fresh(ips), gen, es[..|es| - 1]), gen, es[|es| - 1]);
    }
  }

  // ----- claims -----

  /** The event leaves `x` behind on the pod: a command fails there, or its agent forgets its discards. */
  ghost predicate LeaksAt(c: Cluster, gen: Generator, e: Event, ip: string, x: string) {
    && ip in c.agents && IncidentAt(c, gen, e, ip).Some?
    && MayHappen(c.agents[ip], IncidentAt(c, gen, e, ip).value)
    && Leaks(c.agents[ip], IncidentAt(c, gen, e, ip).value, x)
  }

  /** Some event left `x` behind on the pod, and its varnishd has not restarted since. */
  ghost predicate Abandoned(c: Cluster, gen: Generator, es: seq<Event>, ip: string, x: string)
    requires Runs(c, gen, es)
  {
    && es != [] && es[|es| - 1] != Restarted(ip)
    && (Abandoned(c, gen, es[..|es| - 1], ip, x) || LeaksAt(After(c, gen, es[..|es| - 1]), gen, es[|es| - 1], ip, x))
  }

  lemma NextStuck(c: Cluster, gen: Generator, e: Event, ip: string, x: string)
    requires Sound(c) && Possible(c, e) && ip in c.agents && gen(c.ready) != ""
    ensures Stuck(Next(c, gen, e).agents[ip], x)
       <==> e != Restarted(ip) && (Stuck(c.agents[ip], x) || LeaksAt(c, gen, e, ip, x))
  {
    hide Stuck, Leaks, Next, Happen, Sane;
    NextAt(c, gen, e, ip);
    var s := IncidentAt(c, gen, e, ip);
    if s.Some? { StuckStep(c.agents[ip], s.value, x); }
  }

  /**
   In every run, with commands failing and either process restarting: a VCL is loaded on a pod
   without being active or scheduled for discard exactly when it was left behind there.
   */
  lemma {:induction false} StuckExactlyWhenAbandoned(ips: set<string>, gen: Generator, es: seq<Event>, ip: string,
                                                     x: string)
    requires Named(gen, ips) && Runs(Fresh(ips), gen, es) && ip in ips
    ensures Stuck(After(Fresh(ips), gen, es).agents[ip], x) <==> Abandoned(Fresh(ips), gen, es, ip, x)
  {
    hide Next, Possible, LeaksAt, Stuck;
    if es == [] {
      NothingStuckYet(x);
    } else {
      var init, e := es[..|es| - 1], es[|es| - 1];
      StuckExactlyWhenAbandoned(ips, gen, init, ip, x);
      RunSound(ips, gen, init);
      NextStuck(After(Fresh(ips), gen, init), gen, e, ip, x);
    }
  }

  lemma NothingStuckYet(x: string)
    ensures !Stuck(Started(), x)
  {
  }

  ghost predicate NeverAbandoned(c: Cluster, gen: Generator, es: seq<Event>)
    requires Runs(c, gen, es)
  {
    forall ip, x :: ip in c.agents ==> !Abandoned(c, gen, es, ip, x)
  }

  ghost predicate Leakless(c: Cluster) { forall ip :: ip in c.agents ==> NoLeak(c.agents[ip]) }

  /** So a loaded VCL is active or scheduled on every pod exactly when no event left one behind. */
  lemma RunsDoNotLeak(ips: set<string>, gen: Generator, es: seq<Event>)
    requires Named(gen, ips) && Runs(Fresh(ips), gen, es)
    ensures Leakless(After(Fresh(ips), gen, es)) <==> NeverAbandoned(Fresh(ips), gen, es)
  {
    hide NoLeak, Stuck, Sane;
    RunSound(ips, gen, es);
    var c := After(Fresh(ips), gen, es);
    forall ip | ip in ips ensures NoLeak(c.agents[ip]) <==> forall x :: !Stuck(c.agents[ip], x) {
      NoLeakIsNothingStuck(c.agents[ip]);
    }
    forall ip, x | ip in ips
      ensures Stuck(c.agents[ip], x) <==> Abandoned(Fresh(ips), gen, es, ip, x)
    {
      StuckExactlyWhenAbandoned(ips, gen, es, ip, x);
    }
    if NeverAbandoned(Fresh(ips), gen, es) {
      forall ip, x | ip in ips ensures !Stuck(c.agents[ip], x) { assert !Abandoned(Fresh(ips), gen, es, ip, x); }
    }
    if Leakless(c) {
      forall ip, x | ip in ips ensures !Abandoned(Fresh(ips), gen, es, ip, x) { assert !Stuck(c.agents[ip], x); }
    }
  }

  /**
   In every run, whatever fails, restarts or does not answer: a pod claimed at the end of a round
   has the VCL loaded, and active, scheduled for discard or left behind; where it is not active,
   every later round that wants the same finds the pod diverging.
   */
  lemma ClaimedPodsCarryIt(ips: set<string>, gen: Generator, es: seq<Event>, e: Event, ip: string)
    requires Named(gen, ips) && Runs(Fresh(ips), gen, es) && e.Round? && ip in ips
    requires Claims(After(Fresh(ips), gen, es), gen, e, ip)
    ensures var c := After(Fresh(ips), gen, es);
      var d, after := gen(c.ready), Next(c, gen, e).agents;
      && d in after[ip].varnishd.loaded
      && (after[ip].varnishd.active != d ==> d in after[ip].pending || Abandoned(Fresh(ips), gen, es, ip, d))
      && (after[ip].varnishd.active != d ==> forall asked :: IsTarget(after, asked, d, ip))
  {
    hide Push, PushResultOf, Runs, After, Stuck, Abandoned, Sane;
    RunSound(ips, gen, es);
    var c := After(Fresh(ips), gen, es);
    var a, d := c.agents[ip], gen(c.ready);
    StuckExactlyWhenAbandoned(ips, gen, es, ip, d);
    if IsTarget(c.agents, e.asked, d, ip) {
      ReportedMeansLoaded(a, d, e.compiles, CliOf(e, ip));
    } else {
      ActiveIsLoaded(a);
    }
  }

  lemma ActiveIsLoaded(a: Agent)
    requires Sane(a)
    ensures a.varnishd.active in a.varnishd.loaded
  {
  }
}
