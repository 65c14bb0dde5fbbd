/**
 Convergence of the cluster while no varnishd restarts and no pod leaves the ready set: each pod
 takes a bounded number of VCLs, no push is refused when generated names do not come back, and
 rounds that reach every pod settle.
 */
module Convergence {
  import opened Wrappers
  import opened Agents
  import opened Operators
  import opened Clusters
  import opened Recovery

  /** Along a growing set of ready peers a name does not come back after another one was in use. */
  ghost predicate NoReturn(gen: Generator, ips: set<string>) {
    forall a, b, c :: a <= b <= c <= ips && gen(a) == gen(c) ==> gen(b) == gen(a)
  }

  /**
   What is asked of the generator. It holds when distinct sets of these pods get distinct names,
   and when the name does not depend on the peers at all.
   */
  ghost predicate Proper(gen: Generator, ips: set<string>) { Named(gen, ips) && NoReturn(gen, ips) }

  /** Names as the operator builds them are proper when the hashes differ in their first eight characters. */
  lemma HashedNamesAreProper(namespace: string, cache: string, hash: set<string> -> string, ips: set<string>)
    requires forall a, b :: a <= ips && b <= ips && SameBeginning(hash(a), hash(b)) ==> a == b
    ensures Proper(r => VclName(namespace, cache, hash(r)), ips)
  {
    hide VclName, SameBeginning;
    var gen: Generator := r => VclName(namespace, cache, hash(r));
    forall r ensures gen(r) != BOOT && gen(r) != "" { NeverBoot(namespace, cache, hash(r)); }
    forall a: set<string>, b: set<string>, c: set<string> | a <= b <= c <= ips && gen(a) == gen(c)
      ensures gen(b) == gen(a)
    {
      NameIsHash(namespace, cache, hash(a), hash(c));
      assert a == c;
      assert b == a;
    }
  }

  /** The events that can cost readiness: a restart of varnishd, or the loss itself. */
  predicate Unsettles(e: Event) { e.Restarted? || e.Unready? }

  /** No varnishd restarts and no pod is taken out of the ready set; agents may restart. */
  ghost predicate Stable(es: seq<Event>) { forall k :: 0 <= k < |es| ==> !Unsettles(es[k]) }

  /** Whatever is loaded in a round can be activated. */
  predicate CanUse(e: Event) { e.Round? ==> forall ip :: ip in e.cli ==> e.cli[ip].useOk }

  ghost predicate UseWorks(es: seq<Event>) { forall k :: 0 <= k < |es| ==> CanUse(es[k]) }

  // ----- what one pod takes -----

  /** The ready sets of the rounds in which the pod took a VCL, in order. */
  ghost function Taken(c: Cluster, gen: Generator, es: seq<Event>, ip: string): seq<set<string>>
    requires Runs(c, gen, es) && ip in c.agents
  {
    if es == [] then []
    else
      var init, e := es[..|es| - 1], es[|es| - 1];
      var before := After(c, gen, init);
      if Moves(before, gen, e, ip) then Taken(c, gen, init, ip) + [before.ready] else Taken(c, gen, init, ip)
  }

  /** The round changes the VCL the pod is on. */
  predicate Moves(c: Cluster, gen: Generator, e: Event, ip: string)
    requires ip in c.agents
  {
    e.Round? && Visited(c.agents, ip, gen(c.ready), e).varnishd.active != c.agents[ip].varnishd.active
  }

  ghost predicate Ascending(taken: seq<set<string>>, ready: set<string>) {
    && (forall i, j :: 0 <= i < j < |taken| ==> taken[i] < taken[j])
    && (forall i :: 0 <= i < |taken| ==> taken[i] <= ready)
  }

  /** A name the pod may hold: the bootstrap VCL or one it took. */
  ghost predicate Known(taken: seq<set<string>>, gen: Generator, name: string) {
    name == BOOT || exists i :: 0 <= i < |taken| && gen(taken[i]) == name
  }

  /** What holds of one pod: it took VCLs for ever larger ready sets and is on the last. */
  ghost predicate PodOk(a: Agent, taken: seq<set<string>>, gen: Generator, ready: set<string>) {
    && Ascending(taken, ready)
    && a.varnishd.active in a.varnishd.loaded
    && a.varnishd.active == if taken == [] then BOOT else gen(taken[|taken| - 1])
  }

  /** It holds no VCL it was never on. */
  ghost predicate HoldsOnly(a: Agent, taken: seq<set<string>>, gen: Generator) {
    forall x :: x in a.varnishd.loaded ==> Known(taken, gen, x)
  }

  /** A desired name that is not active is not loaded either, so the push cannot be refused. */
  lemma NotLoadedYet(a: Agent, taken: seq<set<string>>, gen: Generator, ready: set<string>, ips: set<string>)
    requires Proper(gen, ips) && ready <= ips && PodOk(a, taken, gen, ready) && HoldsOnly(a, taken, gen)
    requires a.varnishd.active != gen(ready)
    ensures gen(ready) !in a.varnishd.loaded
  {
    forall i | 0 <= i < |taken| ensures gen(taken[i]) != gen(ready) {
      var last := taken[|taken| - 1];
      assert taken[i] <= last <= ready <= ips;
    }
    assert !Known(taken, gen, gen(ready));
  }

  lemma KnownGrows(taken: seq<set<string>>, r: set<string>, gen: Generator, name: string)
    ensures Known(taken, gen, name) || gen(r) == name ==> Known(taken + [r], gen, name)
  {
    var all := taken + [r];
    if i :| 0 <= i < |taken| && gen(taken[i]) == name { assert gen(all[i]) == name; }
    if gen(r) == name { assert gen(all[|taken|]) == name; }
  }

  lemma PodTakes(a: Agent, taken: seq<set<string>>, gen: Generator, ready: set<string>, compiles: bool, cli: Cli)
    requires PodOk(a, taken, gen, ready)
    ensures var b := Push(a, gen(ready), compiles, cli);
      PodOk(b, if b.varnishd.active != a.varnishd.active then taken + [ready] else taken, gen, ready)
  {
    if taken != [] && gen(ready) != a.varnishd.active { assert taken[|taken| - 1] != ready; }
  }

  lemma PodHolds(a: Agent, taken: seq<set<string>>, gen: Generator, ready: set<string>, compiles: bool, cli: Cli)
    requires PodOk(a, taken, gen, ready) && HoldsOnly(a, taken, gen) && cli.useOk
    ensures var b := Push(a, gen(ready), compiles, cli);
      HoldsOnly(b, if b.varnishd.active != a.varnishd.active then taken + [ready] else taken, gen)
  {
    hide Known;
    var b := Push(a, gen(ready), compiles, cli);
    if b.varnishd.active != a.varnishd.active {
      forall x | x in b.varnishd.loaded ensures Known(taken + [ready], gen, x) { KnownGrows(taken, ready, gen, x); }
    }
  }

  /** Every pod has such a history, and whoever is ready is healthy. */
  ghost predicate Ok(c: Cluster, gen: Generator, es: seq<Event>)
    requires Runs(c, gen, es)
  {
    var now := After(c, gen, es);
    && now.ready <= now.agents.Keys
    && (forall ip :: ip in now.agents ==> PodOk(now.agents[ip], Taken(c, gen, es, ip), gen, now.ready))
    && (forall ip :: ip in now.ready ==> Healthy(now.agents[ip]))
  }

  /** In a stable run nobody loses readiness or health. */
  lemma NextReady(c: Cluster, gen: Generator, e: Event)
    requires Possible(c, e) && !Unsettles(e) && c.ready <= c.agents.Keys && gen(c.ready) != BOOT
    requires forall ip :: ip in c.ready ==> Healthy(c.agents[ip])
    ensures var next := Next(c, gen, e);
      && c.ready <= next.ready <= next.agents.Keys
      && forall ip :: ip in next.ready ==> Healthy(next.agents[ip])
  {
    hide Next, Healthy;
    forall ip | ip in c.agents ensures Healthy(c.agents[ip]) ==> Healthy(Next(c, gen, e).agents[ip]) {
      StaysHealthy(c, gen, e, ip);
    }
    ReadyAfter(c, gen, e);
  }

  lemma StaysHealthy(c: Cluster, gen: Generator, e: Event, ip: string)
    requires Possible(c, e) && e != Restarted(ip) && ip in c.agents && gen(c.ready) != BOOT
    ensures Healthy(c.agents[ip]) ==> Healthy(Next(c, gen, e).agents[ip])
  {
  }

  lemma ReadyAfter(c: Cluster, gen: Generator, e: Event)
    requires Possible(c, e)
    ensures Next(c, gen, e).ready
         == if e.Unready? then c.ready - {e.ip}
            else if !e.Probe? then c.ready
            else if Healthy(c.agents[e.ip]) then c.ready + {e.ip}
            else c.ready - {e.ip}
    ensures e.Probe? || e.Unready? ==> Next(c, gen, e).agents == c.agents
  {
  }

  /** One step of one pod. */
  lemma NextPod(c: Cluster, gen: Generator, e: Event, ip: string, taken: seq<set<string>>)
    requires Possible(c, e) && e != Restarted(ip) && ip in c.agents && PodOk(c.agents[ip], taken, gen, c.ready)
    requires c.ready <= Next(c, gen, e).ready
    ensures var now := if Moves(c, gen, e, ip) then taken + [c.ready] else taken;
      && PodOk(Next(c, gen, e).agents[ip], now, gen, Next(c, gen, e).ready)
      && (HoldsOnly(c.agents[ip], taken, gen) && CanUse(e) ==> HoldsOnly(Next(c, gen, e).agents[ip], now, gen))
  {
    hide Push, Known;
    if e.Round? {
      PodTakes(c.agents[ip], taken, gen, c.ready, e.compiles, CliOf(e, ip));
      if HoldsOnly(c.agents[ip], taken, gen) && CanUse(e) {
        PodHolds(c.agents[ip], taken, gen, c.ready, e.compiles, CliOf(e, ip));
      }
    } else {
      PodAtProbe(c.agents[ip], taken, gen, c.ready, Next(c, gen, e).ready);
    }
  }

  lemma StepOk(c: Cluster, gen: Generator, es: seq<Event>)
    requires Runs(c, gen, es) && es != [] && !Unsettles(es[|es| - 1])
    requires Ok(c, gen, es[..|es| - 1]) && Named(gen, c.agents.Keys)
    ensures Ok(c, gen, es) && After(c, gen, es[..|es| - 1]).ready <= After(c, gen, es).ready
    ensures AllHoldOnly(c, gen, es[..|es| - 1]) && CanUse(es[|es| - 1]) ==> AllHoldOnly(c, gen, es)
  {
    hide PodOk, HoldsOnly, Next, Healthy, Moves, Possible, CanUse;
    var init, e := es[..|es| - 1], es[|es| - 1];
    var before, now := After(c, gen, init), After(c, gen, es);
    NextReady(before, gen, e);
    forall ip | ip in now.agents
      ensures PodOk(now.agents[ip], Taken(c, gen, es, ip), gen, now.ready)
      ensures HoldsOnly(before.agents[ip], Taken(c, gen, init, ip), gen) && CanUse(e) ==>
        HoldsOnly(now.agents[ip], Taken(c, gen, es, ip), gen)
    {
      NextPod(before, gen, e, ip, Taken(c, gen, init, ip));
    }
  }

  ghost predicate AllHoldOnly(c: Cluster, gen: Generator, es: seq<Event>)
    requires Runs(c, gen, es)
  {
    forall ip :: ip in c.agents ==> HoldsOnly(After(c, gen, es).agents[ip], Taken(c, gen, es, ip), gen)
  }

  lemma PodAtProbe(a: Agent, taken: seq<set<string>>, gen: Generator, r: set<string>, s: set<string>)
    requires PodOk(a, taken, gen, r) && r <= s
    ensures PodOk(a, taken, gen, s)
  {
  }

  /** The history of every pod in every stable run, whoever answers and whatever fails. */
  lemma {:induction false} RunOk(ips: set<string>, gen: Generator, es: seq<Event>)
    requires Named(gen, ips) && Runs(Fresh(ips), gen, es) && Stable(es)
    ensures Ok(Fresh(ips), gen, es)
    ensures UseWorks(es) ==> AllHoldOnly(Fresh(ips), gen, es)
  {
    hide Ok, AllHoldOnly, CanUse;
    if es == [] {
      FreshOk(ips, gen);
    } else {
      RunOk(ips, gen, es[..|es| - 1]);
      StepOk(Fresh(ips), gen, es);
    }
  }

  lemma FreshOk(ips: set<string>, gen: Generator)
    ensures Ok(Fresh(ips), gen, []) && AllHoldOnly(Fresh(ips), gen, [])
  {
  }

  /** Readiness never regresses along such a run. */
  lemma ReadyNeverRegresses(ips: set<string>, gen: Generator, es: seq<Event>)
    requires Named(gen, ips) && Runs(Fresh(ips), gen, es) && Stable(es) && es != []
    ensures After(Fresh(ips), gen, es[..|es| - 1]).ready <= After(Fresh(ips), gen, es).ready
  {
    hide Ok, After;
    RunOk(ips, gen, es[..|es| - 1]);
    StepOk(Fresh(ips), gen, es);
  }

  lemma {:induction false} ChainBound(taken: seq<set<string>>, ready: set<string>)
    requires Ascending(taken, ready)
    ensures |taken| <= 1 + |ready|
    ensures taken != [] ==> |taken| <= 1 + |taken[|taken| - 1]|
  {
    if taken != [] {
      var n := |taken| - 1;
      var last := taken[n];
      Smaller(last, ready);
      if n > 0 {
        ChainBound(taken[..n], last);
        Smaller(taken[n - 1], last);
      }
    }
  }

  lemma Smaller<T>(a: set<T>, b: set<T>)
    requires a <= b
    ensures |a| <= |b| && (a != b ==> |a| < |b|)
  {
    assert b == a + (b - a);
    if a != b {
      var x :| x in b - a;
      assert |b - a| > 0;
    }
  }

  /**
   In every stable run a pod takes at most one VCL more than there are pods ready by then, whoever
   answered, was reached or probed, and whichever commands and agents failed.
   */
  lemma PodPushesBounded(ips: set<string>, gen: Generator, es: seq<Event>, ip: string)
    requires Named(gen, ips) && Runs(Fresh(ips), gen, es) && Stable(es) && ip in ips
    ensures |Taken(Fresh(ips), gen, es, ip)| <= 1 + |After(Fresh(ips), gen, es).ready| <= 1 + |ips|
  {
    hide Taken, After;
    RunOk(ips, gen, es);
    var now := After(Fresh(ips), gen, es);
    assert PodOk(now.agents[ip], Taken(Fresh(ips), gen, es, ip), gen, now.ready);
    ChainBound(Taken(Fresh(ips), gen, es, ip), now.ready);
    Smaller(now.ready, ips);
  }

  /** With proper names no push of such a run is refused: whoever diverges takes the desired VCL at once. */
  lemma PushesAreNeverRefused(ips: set<string>, gen: Generator, es: seq<Event>, ip: string)
    requires Proper(gen, ips) && Runs(Fresh(ips), gen, es) && Stable(es) && UseWorks(es) && ip in ips
    ensures var c := After(Fresh(ips), gen, es);
      c.agents[ip].varnishd.active != gen(c.ready) ==>
        PushResultOf(c.agents[ip], gen(c.ready), true, CLI_OK) == PushResult.Pushed
  {
    hide PodOk, Taken, After, NoReturn, CanUse;
    RunOk(ips, gen, es);
    var c := After(Fresh(ips), gen, es);
    if c.agents[ip].varnishd.active != gen(c.ready) {
      NotLoadedYet(c.agents[ip], Taken(Fresh(ips), gen, es, ip), gen, c.ready, ips);
    }
  }

  /** After a round that reaches it, a pod is on the VCL generated for the peers ready at that round. */
  lemma RoundReachesPod(ips: set<string>, gen: Generator, es: seq<Event>, ip: string)
    requires Proper(gen, ips) && Runs(Fresh(ips), gen, es) && Stable(es) && UseWorks(es) && ip in ips
    requires es != [] && Reaches(es[|es| - 1], ip)
    ensures After(Fresh(ips), gen, es).agents[ip].varnishd.active == gen(After(Fresh(ips), gen, es).ready)
  {
    hide PodOk, Taken, NoReturn, Ok;
    var init := es[..|es| - 1];
    PushesAreNeverRefused(ips, gen, init, ip);
  }

  // ----- rounds that reach everybody -----

  /** A stable run in which what is loaded can be used and every round is answered by and reaches all pods. */
  ghost predicate Calm(ips: set<string>, es: seq<Event>) {
    && Stable(es) && UseWorks(es)
    && (forall k :: 0 <= k < |es| && es[k].Round? ==> ips <= es[k].asked && ips <= es[k].up && es[k].compiles)
  }

  /** The round pushes to somebody. */
  ghost predicate Pushes(c: Cluster, gen: Generator, e: Event) {
    e.Round? && exists ip :: ip in c.agents && IsTarget(c.agents, e.asked, gen(c.ready), ip)
  }

  ghost function PushRounds(c: Cluster, gen: Generator, es: seq<Event>): nat
    requires Runs(c, gen, es)
  {
    if es == [] then 0
    else
      var init := es[..|es| - 1];
      PushRounds(c, gen, init) + if Pushes(After(c, gen, init), gen, es[|es| - 1]) then 1 else 0
  }

  /** The ready set the last round was generated for. */
  ghost function LastRound(c: Cluster, gen: Generator, es: seq<Event>): Option<set<string>>
    requires Runs(c, gen, es)
  {
    if es == [] then None
    else
      var init := es[..|es| - 1];
      if es[|es| - 1].Round? then Some(After(c, gen, init).ready) else LastRound(c, gen, init)
  }

  /** All pods are on the VCL of the last round, and those ready then are ready still. */
  ghost predicate Settled(c: Cluster, gen: Generator, last: Option<set<string>>) {
    && (last.Some? ==> last.value <= c.ready)
    && forall ip :: ip in c.agents ==> c.agents[ip].varnishd.active == if last.None? then BOOT else gen(last.value)
  }

  lemma CalmPrefix(ips: set<string>, es: seq<Event>)
    requires Calm(ips, es) && es != []
    ensures Calm(ips, es[..|es| - 1])
  {
  }

  lemma {:induction false} CalmSettles(ips: set<string>, gen: Generator, es: seq<Event>)
    requires Proper(gen, ips) && Runs(Fresh(ips), gen, es) && Calm(ips, es)
    ensures Settled(After(Fresh(ips), gen, es), gen, LastRound(Fresh(ips), gen, es))
  {
    hide Proper, Push;
    if es != [] {
      var init, e := es[..|es| - 1], es[|es| - 1];
      CalmPrefix(ips, es);
      CalmSettles(ips, gen, init);
      NamedOf(gen, ips);
      ReadyNeverRegresses(ips, gen, es);
      var before, now := After(Fresh(ips), gen, init), After(Fresh(ips), gen, es);
      forall ip | ip in now.agents
        ensures now.agents[ip].varnishd.active
             == (if e.Round? then gen(before.ready) else before.agents[ip].varnishd.active)
      {
        if e.Round? { RoundReachesPod(ips, gen, es, ip); }
      }
    }
  }

  lemma NamedOf(gen: Generator, ips: set<string>)
    requires Proper(gen, ips)
    ensures Named(gen, ips)
  {
  }

  /** A round pushes only if it is the first or the ready set has grown since the last one. */
  lemma PushNeedsChange(ips: set<string>, gen: Generator, es: seq<Event>, e: Event)
    requires Proper(gen, ips) && Runs(Fresh(ips), gen, es) && Calm(ips, es) && Calm(ips, [e])
    requires Pushes(After(Fresh(ips), gen, es), gen, e)
    ensures var last := LastRound(Fresh(ips), gen, es);
      last.None? || last.value < After(Fresh(ips), gen, es).ready
  {
    hide Proper, LastRound, After, Stable;
    CalmSettles(ips, gen, es);
    var c, last := After(Fresh(ips), gen, es), LastRound(Fresh(ips), gen, es);
    assert [e][0] == e;
    var ip :| ip in c.agents && IsTarget(c.agents, e.asked, gen(c.ready), ip);
    assert c.agents[ip].varnishd.active != gen(c.ready);
    if last.Some? { assert last.value != c.ready; }
  }

  /** In such a run a round that pushes to somebody pushes to everybody, and everybody takes it. */
  lemma {:induction false} PushRoundsTaken(ips: set<string>, gen: Generator, es: seq<Event>, ip: string)
    requires Proper(gen, ips) && Runs(Fresh(ips), gen, es) && Calm(ips, es) && ip in ips
    ensures PushRounds(Fresh(ips), gen, es) <= |Taken(Fresh(ips), gen, es, ip)|
  {
    hide Proper, After, Push, LastRound, Stable;
    if es != [] {
      var init, e := es[..|es| - 1], es[|es| - 1];
      CalmPrefix(ips, es);
      PushRoundsTaken(ips, gen, init, ip);
      var c := After(Fresh(ips), gen, init);
      if Pushes(c, gen, e) {
        CalmSettles(ips, gen, init);
        var x :| x in c.agents && IsTarget(c.agents, e.asked, gen(c.ready), x);
        assert c.agents[ip].varnishd.active == c.agents[x].varnishd.active != gen(c.ready);
        CalmParts(ips, init);
        PushesAreNeverRefused(ips, gen, init, ip);
        TakesNew(c.agents[ip], gen(c.ready), CliOf(e, ip));
      }
    }
  }

  lemma CalmParts(ips: set<string>, es: seq<Event>)
    requires Calm(ips, es)
    ensures Stable(es) && UseWorks(es)
  {
  }

  lemma TakesNew(a: Agent, d: string, cli: Cli)
    requires d !in a.varnishd.loaded && cli.useOk
    ensures Push(a, d, true, cli).varnishd.active == d
  {
  }

  /**
   In every calm run from fresh pods the rounds that push number at most one plus the pods ready
   by then, so at most one plus the number of pods, whatever probes and discards come in between.
   */
  lemma PushRoundsBounded(ips: set<string>, gen: Generator, es: seq<Event>)
    requires Proper(gen, ips) && Runs(Fresh(ips), gen, es) && Calm(ips, es)
    ensures PushRounds(Fresh(ips), gen, es) <= 1 + |After(Fresh(ips), gen, es).ready| <= 1 + |ips|
  {
    hide Taken, After, Proper, PushRounds, Stable;
    CalmParts(ips, es);
    NamedOf(gen, ips);
    if ips == {} {
      NobodyPushes(gen, es);
      RunOk(ips, gen, es);
    } else {
      var ip :| ip in ips;
      PushRoundsTaken(ips, gen, es, ip);
      PodPushesBounded(ips, gen, es, ip);
    }
  }

  lemma {:induction false} NobodyPushes(gen: Generator, es: seq<Event>)
    requires Runs(Fresh({}), gen, es)
    ensures PushRounds(Fresh({}), gen, es) == 0
  {
    hide After;
    if es != [] { NobodyPushes(gen, es[..|es| - 1]); }
  }
}
