/** In any run at all: how often a pod changes its VCL, and what it takes to lose readiness. */
module RestartBounds {
  import opened Wrappers
  import opened Agents
  import opened Clusters
  import opened Convergence

  ghost function Restarts(es: seq<Event>): nat {
    if es == [] then 0 else Restarts(es[..|es| - 1]) + if es[|es| - 1].Restarted? then 1 else 0
  }

  ghost function RestartsOf(es: seq<Event>, ip: string): nat {
    if es == [] then 0 else RestartsOf(es[..|es| - 1], ip) + if es[|es| - 1] == Restarted(ip) then 1 else 0
  }

  ghost function Losses(es: seq<Event>): nat {
    if es == [] then 0 else Losses(es[..|es| - 1]) + if es[|es| - 1].Unready? then 1 else 0
  }

  /** A failing probe, or another reason, takes a pod out of the ready set. */
  predicate Shrinks(c: Cluster, e: Event) {
    || (e.Probe? && e.ip in c.agents && e.ip in c.ready && !Healthy(c.agents[e.ip]))
    || (e.Unready? && e.ip in c.ready)
  }

  /** Nothing else does. */
  lemma ShrinksExactlyWhen(c: Cluster, gen: Generator, e: Event)
    requires Possible(c, e)
    ensures c.ready <= Next(c, gen, e).ready <==> !Shrinks(c, e)
  {
    hide Next;
    ReadyAfter(c, gen, e);
  }

  ghost function ShrinkCount(c: Cluster, gen: Generator, es: seq<Event>): nat
    requires Runs(c, gen, es)
  {
    if es == [] then 0
    else ShrinkCount(c, gen, es[..|es| - 1]) + if Shrinks(After(c, gen, es[..|es| - 1]), es[|es| - 1]) then 1 else 0
  }

  /** Ready pods that would fail their next probe. */
  ghost function Failing(c: Cluster): set<string>
    requires c.ready <= c.agents.Keys
  {
    set ip | ip in c.ready && !Healthy(c.agents[ip])
  }

  lemma NextFailing(c: Cluster, gen: Generator, e: Event)
    requires Possible(c, e) && c.ready <= c.agents.Keys && gen(c.ready) != BOOT
    ensures Next(c, gen, e).ready <= Next(c, gen, e).agents.Keys
    ensures Failing(Next(c, gen, e)) <= Failing(c) + if e.Restarted? then {e.ip} else {}
    ensures Shrinks(c, e) && e.Probe? ==> e.ip in Failing(c) && e.ip !in Failing(Next(c, gen, e))
  {
    hide Next, Healthy;
    var next := Next(c, gen, e);
    ReadyArePods(c, gen, e);
    ReadyAfter(c, gen, e);
    forall ip | ip in Failing(next) ensures ip in Failing(c) || e == Restarted(ip) {
      if e != Restarted(ip) { StaysHealthy(c, gen, e, ip); }
    }
  }

  lemma Bounded<T>(a: set<T>, b: set<T>, x: T)
    ensures a <= b + {x} ==> |a| <= |b| + 1
    ensures a <= b ==> |a| <= |b|
    ensures a <= b && x in b && x !in a ==> |a| < |b|
  {
    if a <= b + {x} { Smaller(a, b + {x}); }
    if a <= b { Smaller(a, b); }
  }

  /** Whenever a pod leaves the ready set, its varnishd had restarted or it was lost for another reason. */
  lemma {:induction false} ShrinksArePaidFor(ips: set<string>, gen: Generator, es: seq<Event>)
    requires Named(gen, ips) && Runs(Fresh(ips), gen, es)
    ensures After(Fresh(ips), gen, es).ready <= ips
    ensures ShrinkCount(Fresh(ips), gen, es) + |Failing(After(Fresh(ips), gen, es))| <= Restarts(es) + Losses(es)
  {
    hide Next, Possible, Shrinks, Failing;
    if es == [] {
      NobodyFails(ips);
    } else {
      var init, e := es[..|es| - 1], es[|es| - 1];
      ShrinksArePaidFor(ips, gen, init);
      var c := After(Fresh(ips), gen, init);
      NextFailing(c, gen, e);
      Bounded(Failing(Next(c, gen, e)), Failing(c), if e.Restarted? || e.Probe? then e.ip else "");
      ShrinkIsProbe(c, e);
    }
  }

  lemma ShrinkIsProbe(c: Cluster, e: Event)
    ensures Shrinks(c, e) ==> e.Probe? || e.Unready?
  {
  }

  lemma NobodyFails(ips: set<string>)
    ensures Failing(Fresh(ips)) == {}
  {
  }

  // ----- VCLs taken -----

  /** The ready set of the pod's last VCL, unless its varnishd restarted or somebody lost readiness since. */
  ghost function Current(c: Cluster, gen: Generator, es: seq<Event>, ip: string): Option<set<string>>
    requires Runs(c, gen, es) && ip in c.agents
  {
    if es == [] then None
    else
      var init, e := es[..|es| - 1], es[|es| - 1];
      var before := After(c, gen, init);
      if e == Restarted(ip) || Shrinks(before, e) then None
      else if Moves(before, gen, e, ip) then Some(before.ready)
      else Current(c, gen, init, ip)
  }

  ghost predicate OnCurrent(c: Cluster, gen: Generator, ip: string, cur: Option<set<string>>)
    requires ip in c.agents
  {
    cur.Some? ==> cur.value <= c.ready && c.agents[ip].varnishd.active == gen(cur.value)
  }

  lemma NextCurrent(c: Cluster, gen: Generator, e: Event, ip: string, cur: Option<set<string>>)
    requires Possible(c, e) && ip in c.agents && OnCurrent(c, gen, ip, cur) && e != Restarted(ip) && !Shrinks(c, e)
    ensures OnCurrent(Next(c, gen, e), gen, ip, if Moves(c, gen, e, ip) then Some(c.ready) else cur)
    ensures Moves(c, gen, e, ip) && cur.Some? ==> cur.value < c.ready
  {
    if Moves(c, gen, e, ip) && cur.Some? { assert c.ready != cur.value; }
  }

  /** Breaks so far, each worth a whole chain of ready sets, plus the chain of the current one. */
  ghost function Budget(n: nat, breaks: nat, cur: Option<set<string>>): nat {
    n * breaks + if cur.None? then 0 else 1 + |cur.value|
  }

  lemma BudgetGrows(n: nat, breaks: nat, cur: Option<set<string>>, next: set<string>)
    requires cur.Some? ==> cur.value < next
    ensures Budget(n, breaks, cur) + 1 <= Budget(n, breaks, Some(next))
  {
    if cur.Some? { Smaller(cur.value, next); }
  }

  lemma BudgetBreaks(n: nat, breaks: nat, more: nat, cur: Option<set<string>>)
    requires breaks < more && (cur.Some? ==> |cur.value| < n)
    ensures Budget(n, breaks, cur) <= Budget(n, more, None)
  {
    OneMore(n, breaks, more);
  }

  lemma OneMore(n: nat, a: nat, b: nat)
    requires a < b
    ensures n * a + n <= n * b
  {
    var d := b - a - 1;
    assert b == a + 1 + d;
    assert n * (a + 1 + d) == n * a + n + n * d;
    assert n * d >= 0;
  }

  lemma {:induction false} TakenWithinBudget(ips: set<string>, gen: Generator, es: seq<Event>, ip: string)
    requires Named(gen, ips) && Runs(Fresh(ips), gen, es) && ip in ips
    ensures var cur := Current(Fresh(ips), gen, es, ip);
      && OnCurrent(After(Fresh(ips), gen, es), gen, ip, cur)
      && |Taken(Fresh(ips), gen, es, ip)|
           <= Budget(1 + |ips|, RestartsOf(es, ip) + ShrinkCount(Fresh(ips), gen, es), cur)
  {
    hide Next, Possible, Shrinks, Moves, Budget, OnCurrent;
    if es == [] {
      NothingTaken(ips, gen, ip);
    } else {
      var init, e := es[..|es| - 1], es[|es| - 1];
      TakenWithinBudget(ips, gen, init, ip);
      ShrinksArePaidFor(ips, gen, init);
      var c, cur := After(Fresh(ips), gen, init), Current(Fresh(ips), gen, init, ip);
      var breaks := RestartsOf(init, ip) + ShrinkCount(Fresh(ips), gen, init);
      OnlyRoundsMove(c, gen, e, ip);
      if e == Restarted(ip) || Shrinks(c, e) {
        ShrinkIsProbe(c, e);
        CurrentFits(c, gen, ip, cur, ips);
        BudgetBreaks(1 + |ips|, breaks, breaks + 1, cur);
        NoCurrent(After(Fresh(ips), gen, es), gen, ip);
      } else {
        NextCurrent(c, gen, e, ip, cur);
        if Moves(c, gen, e, ip) { BudgetGrows(1 + |ips|, breaks, cur, c.ready); }
      }
    }
  }

  lemma NothingTaken(ips: set<string>, gen: Generator, ip: string)
    requires ip in ips
    ensures OnCurrent(Fresh(ips), gen, ip, None)
  {
  }

  lemma NoCurrent(c: Cluster, gen: Generator, ip: string)
    requires ip in c.agents
    ensures OnCurrent(c, gen, ip, None)
  {
  }

  lemma OnlyRoundsMove(c: Cluster, gen: Generator, e: Event, ip: string)
    requires ip in c.agents
    ensures Moves(c, gen, e, ip) ==> e.Round?
  {
  }

  lemma CurrentFits(c: Cluster, gen: Generator, ip: string, cur: Option<set<string>>, ips: set<string>)
    requires ip in c.agents && OnCurrent(c, gen, ip, cur) && c.ready <= ips
    ensures cur.Some? ==> |cur.value| < 1 + |ips|
  {
    if cur.Some? { Smaller(cur.value, ips); }
  }

  /**
   In every run at all: a pod changes its VCL at most once more than there are pods, and that often
   again for each restart of its own varnishd and each time any pod can leave the ready set.
   */
  lemma PodPushesBoundedInAnyRun(ips: set<string>, gen: Generator, es: seq<Event>, ip: string)
    requires Named(gen, ips) && Runs(Fresh(ips), gen, es) && ip in ips
    ensures |Taken(Fresh(ips), gen, es, ip)| <= (1 + |ips|) * (1 + RestartsOf(es, ip) + Restarts(es) + Losses(es))
  {
    hide Taken, After, Current, Restarts, RestartsOf, Losses, OnCurrent, Failing, ShrinkCount;
    TakenWithinBudget(ips, gen, es, ip);
    ShrinksArePaidFor(ips, gen, es);
    var n, cur := 1 + |ips|, Current(Fresh(ips), gen, es, ip);
    var breaks := RestartsOf(es, ip) + ShrinkCount(Fresh(ips), gen, es);
    CurrentFits(After(Fresh(ips), gen, es), gen, ip, cur, ips);
    BudgetBreaks(n, breaks, 1 + RestartsOf(es, ip) + Restarts(es) + Losses(es), cur);
  }

  ghost predicate HasRestarted(es: seq<Event>, ip: string) { exists k :: 0 <= k < |es| && es[k] == Restarted(ip) }

  /** In every run at all a ready pod is healthy unless its varnishd has restarted. */
  lemma {:induction false} ReadyUnlessRestarted(ips: set<string>, gen: Generator, es: seq<Event>, ip: string)
    requires Named(gen, ips) && Runs(Fresh(ips), gen, es) && ip in ips
    ensures ip in After(Fresh(ips), gen, es).ready && !HasRestarted(es, ip) ==>
      Healthy(After(Fresh(ips), gen, es).agents[ip])
  {
    hide Next, Possible, Healthy;
    if es != [] {
      var init, e := es[..|es| - 1], es[|es| - 1];
      ReadyUnlessRestarted(ips, gen, init, ip);
      ShrinksArePaidFor(ips, gen, init);
      var c := After(Fresh(ips), gen, init);
      ReadyAfter(c, gen, e);
      assert forall k :: 0 <= k < |init| ==> init[k] == es[k];
      if !HasRestarted(es, ip) {
        assert e != Restarted(ip);
        StaysHealthy(c, gen, e, ip);
      }
    }
  }
}
