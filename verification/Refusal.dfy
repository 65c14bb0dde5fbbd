/**
 When a push counted by the operator can be refused: exactly when generated names come back, by
 themselves, because varnishd restarts, or because pods leave the ready set.
 */
module Refusals {
  import opened Agents
  import opened AgentHistories
  import opened Clusters
  import opened Recovery
  import opened Convergence

  // ----- names that come back -----

  /** The pod diverges, and the push it gets is refused because the name is loaded: reported, but not active. */
  ghost predicate Refused(c: Cluster, gen: Generator, ip: string) {
    && ip in c.agents && c.agents[ip].varnishd.active != gen(c.ready)
    && PushResultOf(c.agents[ip], gen(c.ready), true, CLI_OK) == AlreadyLoaded
  }

  /** No stable run in which what is loaded can be used comes to a refused push. */
  ghost predicate NeverRefused(ips: set<string>, gen: Generator) {
    forall es, ip :: Runs(Fresh(ips), gen, es) && Stable(es) && UseWorks(es) ==>
      !Refused(After(Fresh(ips), gen, es), gen, ip)
  }

  /** An activation that fails is enough: the very next push to that pod is refused, whatever the generator. */
  lemma FailedUseIsRefused(ips: set<string>, gen: Generator, ip: string)
    requires Named(gen, ips) && ip in ips
    ensures var es := [Round(ips, ips, true, map[ip := Cli(true, false)])];
      Runs(Fresh(ips), gen, es) && Stable(es) && Refused(After(Fresh(ips), gen, es), gen, ip)
  {
    var e := Round(ips, ips, true, map[ip := Cli(true, false)]);
    assert [e][..0] == [];
    assert {} <= ips;
    assert Next(Fresh(ips), gen, e).agents[ip] == Push(Started(), gen({}), true, Cli(true, false));
  }

  /** A cluster whose agents are all alike. */
  function Alike(ips: set<string>, a: Agent, ready: set<string>): Cluster { Cluster(map ip | ip in ips :: a, ready) }

  function Full(ips: set<string>): Event { Round(ips, ips, true, map[]) }

  /** A calm run from fresh pods that ends with all agents alike. */
  ghost predicate Leads(ips: set<string>, gen: Generator, es: seq<Event>, a: Agent, ready: set<string>) {
    Runs(Fresh(ips), gen, es) && Calm(ips, es) && After(Fresh(ips), gen, es) == Alike(ips, a, ready)
  }

  lemma CalmSnoc(ips: set<string>, es: seq<Event>, e: Event)
    requires Calm(ips, es) && (e == Full(ips) || e.Probe?)
    ensures Calm(ips, es + [e])
  {
  }

  lemma ThenRound(ips: set<string>, gen: Generator, es: seq<Event>, a: Agent, r: set<string>)
    requires Leads(ips, gen, es, a, r) && gen(r) != a.varnishd.active
    ensures Leads(ips, gen, es + [Full(ips)], Push(a, gen(r), true, CLI_OK), r)
  {
    hide Push, Calm;
    var c := Alike(ips, a, r);
    RunSnoc(Fresh(ips), gen, es, Full(ips));
    CalmSnoc(ips, es, Full(ips));
    assert Next(c, gen, Full(ips)) == Alike(ips, Push(a, gen(r), true, CLI_OK), r);
  }

  lemma Missing<T>(r: set<T>, s: set<T>) returns (x: T)
    requires r <= s && r != s
    ensures x in s && x !in r
  {
    assert s == r + (s - r);
    x :| x in s - r;
  }

  /** Probing a set of pods that are healthy makes them ready. */
  lemma {:induction false} ThenProbes(ips: set<string>, gen: Generator, es: seq<Event>, a: Agent, r: set<string>,
                                      s: set<string>)
    returns (more: seq<Event>)
    requires Leads(ips, gen, es, a, r) && Healthy(a) && r <= s <= ips
    ensures Leads(ips, gen, more, a, s)
    decreases s - r
  {
    hide Calm;
    if r == s {
      more := es;
    } else {
      var x := Missing(r, s);
      RunSnoc(Fresh(ips), gen, es, Probe(x));
      CalmSnoc(ips, es, Probe(x));
      more := ThenProbes(ips, gen, es + [Probe(x)], a, r + {x}, s);
    }
  }

  /** The run up to the first set: its VCL is active on all pods, and at most one other was before. */
  lemma ReachFirst(ips: set<string>, gen: Generator, a: set<string>) returns (es: seq<Event>, agent: Agent)
    requires Named(gen, ips) && a <= ips
    ensures Leads(ips, gen, es, agent, a) && agent.varnishd.active == gen(a)
    ensures gen(a) in agent.varnishd.loaded
  {
    var start := Started();
    assert Leads(ips, gen, [], start, {});
    assert {} <= ips;
    ThenRound(ips, gen, [], start, {});
    agent := Push(start, gen({}), true, CLI_OK);
    es := ThenProbes(ips, gen, [] + [Full(ips)], agent, {}, a);
    if gen(a) != agent.varnishd.active {
      ThenRound(ips, gen, es, agent, a);
      es := es + [Full(ips)];
      assert gen(a) !in agent.varnishd.loaded;
      agent := Push(agent, gen(a), true, CLI_OK);
    }
  }

  /** If a name comes back along a growing ready set, some run of these pods comes to a refused push. */
  lemma ReturnIsRefused(ips: set<string>, gen: Generator, a: set<string>, b: set<string>, c: set<string>)
    returns (es: seq<Event>, ip: string)
    requires Named(gen, ips) && a <= b <= c <= ips && gen(a) == gen(c) != gen(b)
    ensures Runs(Fresh(ips), gen, es) && Calm(ips, es) && Refused(After(Fresh(ips), gen, es), gen, ip)
  {
    hide Runs, After, Calm;
    ip := Missing(a, b);
    var agent;
    es, agent := ReachFirst(ips, gen, a);
    es := ThenProbes(ips, gen, es, agent, a, b);
    if gen(b) !in agent.varnishd.loaded {
      ThenRound(ips, gen, es, agent, b);
      es, agent := es + [Full(ips)], Push(agent, gen(b), true, CLI_OK);
      es := ThenProbes(ips, gen, es, agent, b, c);
    }
  }

  /**
   No push is ever refused, so that every pod recorded as pushed is on its VCL, exactly when names
   do not come back.
   */
  lemma NeverRefusedExactlyWhen(ips: set<string>, gen: Generator)
    requires Named(gen, ips)
    ensures NeverRefused(ips, gen) <==> NoReturn(gen, ips)
  {
    hide Runs, After, Stable, Calm, Named;
    if NoReturn(gen, ips) {
      forall es, ip | Runs(Fresh(ips), gen, es) && Stable(es) && UseWorks(es)
        ensures !Refused(After(Fresh(ips), gen, es), gen, ip)
      {
        if ip in ips { PushesAreNeverRefused(ips, gen, es, ip); }
      }
    }
    if a: set<string>, b: set<string>, c: set<string> :| a <= b <= c <= ips && gen(a) == gen(c) && gen(b) != gen(a) {
      var es, ip := ReturnIsRefused(ips, gen, a, b, c);
      CalmParts(ips, es);
      assert Refused(After(Fresh(ips), gen, es), gen, ip);
    }
  }

  // ----- restarts bring names back -----

  ghost predicate LossFree(es: seq<Event>) { forall k :: 0 <= k < |es| ==> !es[k].Unready? }

  ghost predicate RestartFree(es: seq<Event>) { forall k :: 0 <= k < |es| ==> !es[k].Restarted? }

  /** No run in which pods are only taken out of the ready set by failing probes comes to a refused push. */
  ghost predicate NeverRefusedByRestarts(ips: set<string>, gen: Generator) {
    forall es, ip :: Runs(Fresh(ips), gen, es) && UseWorks(es) && LossFree(es) ==>
      !Refused(After(Fresh(ips), gen, es), gen, ip)
  }

  /** No run without restarts of varnishd does, whichever pods leave the ready set. */
  ghost predicate NeverRefusedByLosses(ips: set<string>, gen: Generator) {
    forall es, ip :: Runs(Fresh(ips), gen, es) && UseWorks(es) && RestartFree(es) ==>
      !Refused(After(Fresh(ips), gen, es), gen, ip)
  }

  /** No run at all in which what is loaded can be used does. */
  ghost predicate NeverRefusedAtAll(ips: set<string>, gen: Generator) {
    forall es, ip :: Runs(Fresh(ips), gen, es) && UseWorks(es) ==> !Refused(After(Fresh(ips), gen, es), gen, ip)
  }

  /** The VCL does not depend on which of these pods are ready. */
  ghost predicate Constant(gen: Generator, ips: set<string>) { forall r :: r <= ips ==> gen(r) == gen({}) }

  lemma StableIsBoth(es: seq<Event>)
    requires Stable(es)
    ensures LossFree(es) && RestartFree(es)
  {
    assert forall k :: 0 <= k < |es| ==> !Unsettles(es[k]);
  }

  lemma LossFreeSnoc(es: seq<Event>, e: Event)
    requires LossFree(es) && !e.Unready?
    ensures LossFree(es + [e])
  {
  }

  lemma RestartFreeSnoc(es: seq<Event>, e: Event)
    requires RestartFree(es) && !e.Restarted?
    ensures RestartFree(es + [e])
  {
  }

  lemma UseWorksSnoc(es: seq<Event>, e: Event)
    requires UseWorks(es) && CanUse(e)
    ensures UseWorks(es + [e])
  {
  }

  /** A calm run to pods that have left the VCL of `r` for that of `r + {x}`, or refuse the latter already. */
  lemma ReachSecond(ips: set<string>, gen: Generator, r: set<string>, x: string)
    returns (es: seq<Event>, agent: Agent)
    requires Named(gen, ips) && r + {x} <= ips && gen(r) != gen(r + {x})
    ensures Leads(ips, gen, es, agent, r + {x}) && gen(r) in agent.varnishd.loaded
    ensures agent.varnishd.active == gen(r + {x})
      || (agent.varnishd.active == gen(r) && gen(r + {x}) in agent.varnishd.loaded)
  {
    hide Leads;
    assert r <= ips;
    es, agent := ReachFirst(ips, gen, r);
    es := ThenProbes(ips, gen, es, agent, r, r + {x});
    if gen(r + {x}) !in agent.varnishd.loaded {
      ThenRound(ips, gen, es, agent, r + {x});
      es, agent := es + [Full(ips)], Push(agent, gen(r + {x}), true, CLI_OK);
    }
  }

  /** One pod becomes ready, restarts and is not ready again: another pod is asked for the VCL it has just left. */
  lemma RestartBringsBack(ips: set<string>, gen: Generator, r: set<string>, x: string, y: string)
    returns (es: seq<Event>)
    requires Named(gen, ips) && r <= ips && x in ips && x !in r && y in ips && y != x && gen(r) != gen(r + {x})
    ensures Runs(Fresh(ips), gen, es) && UseWorks(es) && LossFree(es)
    ensures Refused(After(Fresh(ips), gen, es), gen, y)
  {
    hide Runs, After, Calm, UseWorks, Stable, LossFree, RestartFree;
    var agent;
    es, agent := ReachSecond(ips, gen, r, x);
    CalmParts(ips, es);
    StableIsBoth(es);
    if agent.varnishd.active == gen(r + {x}) {
      var c := Alike(ips, agent, r + {x});
      var down := Next(c, gen, Restarted(x));
      RunSnoc(Fresh(ips), gen, es, Restarted(x));
      UseWorksSnoc(es, Restarted(x));
      LossFreeSnoc(es, Restarted(x));
      es := es + [Restarted(x)];
      RunSnoc(Fresh(ips), gen, es, Probe(x));
      UseWorksSnoc(es, Probe(x));
      LossFreeSnoc(es, Probe(x));
      es := es + [Probe(x)];
      assert r + {x} - {x} == r;
      assert Next(down, gen, Probe(x)).ready == r;
    }
  }

  /** One pod becomes ready and is lost again without a restart: every pod is asked for the VCL it has just left. */
  lemma LossBringsBack(ips: set<string>, gen: Generator, r: set<string>, x: string, y: string)
    returns (es: seq<Event>)
    requires Named(gen, ips) && r <= ips && x in ips && x !in r && y in ips && gen(r) != gen(r + {x})
    ensures Runs(Fresh(ips), gen, es) && UseWorks(es) && RestartFree(es)
    ensures Refused(After(Fresh(ips), gen, es), gen, y)
  {
    hide Runs, After, Calm, UseWorks, Stable, LossFree, RestartFree;
    var agent;
    es, agent := ReachSecond(ips, gen, r, x);
    CalmParts(ips, es);
    StableIsBoth(es);
    if agent.varnishd.active == gen(r + {x}) {
      RunSnoc(Fresh(ips), gen, es, Unready(x));
      UseWorksSnoc(es, Unready(x));
      RestartFreeSnoc(es, Unready(x));
      es := es + [Unready(x)];
      assert r + {x} - {x} == r;
    }
  }

  /** A generator that is not constant changes at some single pod. */
  lemma {:induction false} ChangesAtOnePod(gen: Generator, s: set<string>) returns (r: set<string>, x: string)
    requires gen(s) != gen({})
    ensures x in s && x !in r && r + {x} <= s && gen(r) != gen(r + {x})
    decreases s
  {
    x := Missing({}, s);
    r := s - {x};
    assert r + {x} == s;
    if gen(r) == gen(s) {
      r, x := ChangesAtOnePod(gen, r);
    }
  }

  lemma {:induction false} ConstantWants(ips: set<string>, gen: Generator, es: seq<Event>)
    requires Named(gen, ips) && Constant(gen, ips) && Runs(Fresh(ips), gen, es)
    ensures Wants(Fresh(ips), gen, es, gen({}))
    ensures After(Fresh(ips), gen, es).ready <= ips
  {
    hide Named, Constant, Sane;
    RunSound(ips, gen, es);
    if es != [] {
      var init := es[..|es| - 1];
      ConstantWants(ips, gen, init);
      ConstantAt(gen, ips, After(Fresh(ips), gen, init).ready);
    }
  }

  lemma ConstantAt(gen: Generator, ips: set<string>, r: set<string>)
    requires Constant(gen, ips) && r <= ips
    ensures gen(r) == gen({})
  {
  }

  lemma {:induction false} UseWorksUnjams(es: seq<Event>, ip: string)
    requires UseWorks(es)
    ensures Unjammed(es, ip)
  {
    if es != [] {
      UseWorksUnjams(es[..|es| - 1], ip);
      assert CanUse(es[|es| - 1]);
    }
  }

  lemma ConstantIsNeverRefused(ips: set<string>, gen: Generator, es: seq<Event>, ip: string)
    requires Named(gen, ips) && Constant(gen, ips) && Runs(Fresh(ips), gen, es) && UseWorks(es)
    ensures !Refused(After(Fresh(ips), gen, es), gen, ip)
  {
    hide Runs, After, UseWorks, Wants, Unjammed;
    ConstantWants(ips, gen, es);
    ConstantAt(gen, ips, After(Fresh(ips), gen, es).ready);
    assert {} <= ips;
    UseWorksUnjams(es, ip);
    if ip in ips { ClearPodConverges(Fresh(ips), gen, es, ip, gen({})); }
  }

  // ----- one pod -----

  /** What a pod on its own holds: once it is off the bootstrap VCL, only restarts bring it back there. */
  ghost predicate Alone(c: Cluster, gen: Generator, p: string) {
    && c.agents.Keys == {p} && c.ready <= {p} && Sane(c.agents[p])
    && (c.agents[p].varnishd.active == BOOT ==> c.agents[p].varnishd.loaded == {BOOT})
    && Clear(c.agents[p], gen(c.ready))
    && (c.ready == {} ==> forall x :: x in c.agents[p].varnishd.loaded ==> x == BOOT || x == gen({}))
  }

  lemma NextAlone(c: Cluster, gen: Generator, e: Event, p: string)
    requires Named(gen, {p}) && Alone(c, gen, p) && Possible(c, e) && CanUse(e) && !e.Unready?
    ensures Alone(Next(c, gen, e), gen, p)
  {
    assert c.ready == {} || c.ready == {p};
    assert {} <= {p};
    if e.Probe? {
      assert {} + {p} == {p} + {p} == {p} && {p} - {p} == {} - {p} == {};
    }
  }

  lemma {:induction false} StaysAlone(p: string, gen: Generator, es: seq<Event>)
    requires Named(gen, {p}) && Runs(Fresh({p}), gen, es) && UseWorks(es) && LossFree(es)
    ensures Alone(After(Fresh({p}), gen, es), gen, p)
  {
    hide Next, Possible, Alone, CanUse;
    if es == [] {
      FreshAlone(p, gen);
    } else {
      StaysAlone(p, gen, es[..|es| - 1]);
      NextAlone(After(Fresh({p}), gen, es[..|es| - 1]), gen, es[|es| - 1], p);
    }
  }

  /** A single pod only ever unready by failing probes never refuses: then its varnishd has just restarted. */
  lemma OnePodIsNeverRefused(p: string, gen: Generator, es: seq<Event>, ip: string)
    requires Named(gen, {p}) && Runs(Fresh({p}), gen, es) && UseWorks(es) && LossFree(es)
    ensures !Refused(After(Fresh({p}), gen, es), gen, ip)
  {
    hide Runs, After, Sane;
    StaysAlone(p, gen, es);
  }

  lemma FreshAlone(p: string, gen: Generator)
    requires Named(gen, {p})
    ensures Alone(Fresh({p}), gen, p)
  {
    assert {} <= {p};
  }

  lemma FewPods(ips: set<string>)
    requires |ips| <= 1
    ensures ips == {} || exists p :: ips == {p}
  {
    if ips != {} {
      var p :| p in ips;
      assert |ips - {p}| == 0;
      assert ips == {p};
    }
  }

  lemma TwoPods(ips: set<string>) returns (p: string, q: string)
    requires |ips| > 1
    ensures p in ips && q in ips && p != q
  {
    p :| p in ips;
    assert |ips - {p}| > 0;
    q :| q in ips - {p};
  }

  /** With restarts but no other losses: no push is ever refused exactly with at most one pod, or a constant VCL. */
  lemma NeverRefusedByRestartsExactlyWhen(ips: set<string>, gen: Generator)
    requires Named(gen, ips)
    ensures NeverRefusedByRestarts(ips, gen) <==> |ips| <= 1 || Constant(gen, ips)
  {
    hide Runs, After, UseWorks, LossFree;
    if |ips| <= 1 {
      FewPods(ips);
      forall es, ip | Runs(Fresh(ips), gen, es) && UseWorks(es) && LossFree(es)
        ensures !Refused(After(Fresh(ips), gen, es), gen, ip)
      {
        if p :| ips == {p} { OnePodIsNeverRefused(p, gen, es, ip); }
      }
    } else if Constant(gen, ips) {
      forall es, ip | Runs(Fresh(ips), gen, es) && UseWorks(es) && LossFree(es)
        ensures !Refused(After(Fresh(ips), gen, es), gen, ip)
      {
        ConstantIsNeverRefused(ips, gen, es, ip);
      }
    } else {
      var p, q := TwoPods(ips);
      var s: set<string> :| s <= ips && gen(s) != gen({});
      var r, x := ChangesAtOnePod(gen, s);
      var y := if x == p then q else p;
      var es := RestartBringsBack(ips, gen, r, x, y);
      assert Refused(After(Fresh(ips), gen, es), gen, y);
    }
  }

  /**
   Once pods can leave the ready set for other reasons, with or without restarts and for any number
   of pods: no push is ever refused exactly when the VCL is the same for every ready set.
   */
  lemma NeverRefusedAtAllExactlyWhen(ips: set<string>, gen: Generator)
    requires Named(gen, ips)
    ensures NeverRefusedAtAll(ips, gen) <==> Constant(gen, ips)
    ensures NeverRefusedByLosses(ips, gen) <==> Constant(gen, ips)
  {
    hide Runs, After, UseWorks, RestartFree;
    if Constant(gen, ips) {
      forall es, ip | Runs(Fresh(ips), gen, es) && UseWorks(es)
        ensures !Refused(After(Fresh(ips), gen, es), gen, ip)
      {
        ConstantIsNeverRefused(ips, gen, es, ip);
      }
    } else {
      var s: set<string> :| s <= ips && gen(s) != gen({});
      var r, x := ChangesAtOnePod(gen, s);
      var es := LossBringsBack(ips, gen, r, x, x);
      assert Refused(After(Fresh(ips), gen, es), gen, x);
    }
  }
}
