/**
 How a pod comes to the VCL the operator wants: exactly what clears the way for it, and that it is
 on it from the first round that then reaches the pod, whatever happens to other pods.
 */
module Recovery {
  import opened Agents
  import opened AgentHistories
  import opened Clusters

  /** Not loaded, or active: nothing stands in the way of the name. */
  predicate Clear(a: Agent, d: string) { d in a.varnishd.loaded ==> a.varnishd.active == d }

  /** Every round of the run wants `d`. */
  ghost predicate Wants(c: Cluster, gen: Generator, es: seq<Event>, d: string)
    requires Runs(c, gen, es)
  {
    es == [] || (Wants(c, gen, es[..|es| - 1], d)
                 && (es[|es| - 1].Round? ==> gen(After(c, gen, es[..|es| - 1]).ready) == d))
  }

  /** The round pushes a VCL that compiles to the pod. */
  predicate Arrives(e: Event, ip: string) { e.Round? && ip in e.up && e.compiles }

  /** It arrives and can be activated. */
  predicate Reaches(e: Event, ip: string) { Arrives(e, ip) && CliOf(e, ip).useOk }

  /** It arrives and cannot. */
  predicate Jams(e: Event, ip: string) { Arrives(e, ip) && !CliOf(e, ip).useOk }

  /** The pod's varnishd restarts, or a scheduled discard of `d` goes through there. */
  predicate Clears(c: Cluster, e: Event, ip: string, d: string) {
    || e == Restarted(ip)
    || (e.Discarded? && e.ip == ip && e.ok && ip in c.agents && e.i < |c.agents[ip].pending|
        && c.agents[ip].pending[e.i] == d)
  }

  lemma NextClear(c: Cluster, gen: Generator, e: Event, ip: string, d: string)
    requires ip in c.agents && Possible(c, e) && Sane(c.agents[ip]) && d != BOOT
    requires e.Round? ==> gen(c.ready) == d
    ensures Clear(Next(c, gen, e).agents[ip], d) <==>
      (Clear(c.agents[ip], d) && (Jams(e, ip) ==> c.agents[ip].varnishd.active == d)) || Clears(c, e, ip, d)
    ensures Reaches(e, ip) && Clear(c.agents[ip], d) ==> Next(c, gen, e).agents[ip].varnishd.active == d
    ensures c.agents[ip].varnishd.active == d && e != Restarted(ip) ==> Next(c, gen, e).agents[ip].varnishd.active == d
    ensures Sane(c.agents[ip]) && d != "" ==> Sane(Next(c, gen, e).agents[ip])
  {
  }

  /** Cleared at some point, or clear from the start, and not jammed since while another VCL was active. */
  ghost predicate ClearBy(c: Cluster, gen: Generator, es: seq<Event>, ip: string, d: string)
    requires Runs(c, gen, es) && ip in c.agents
  {
    if es == [] then Clear(c.agents[ip], d)
    else
      var init, e := es[..|es| - 1], es[|es| - 1];
      || Clears(After(c, gen, init), e, ip, d)
      || (ClearBy(c, gen, init, ip, d)
          && (Jams(e, ip) ==> After(c, gen, init).agents[ip].varnishd.active == d))
  }

  /**
   While the rounds want one VCL, a pod where it is loaded but not active becomes clear exactly by a
   discard of that name that goes through or a restart of varnishd, and clear pods stop being so
   exactly by an activation that fails; a pod that is not clear refuses every round that reaches it.
   */
  lemma {:induction false} ClearExactlyWhen(c: Cluster, gen: Generator, es: seq<Event>, ip: string, d: string)
    requires Runs(c, gen, es) && Wants(c, gen, es, d) && ip in c.agents && d != BOOT && d != ""
    requires Sane(c.agents[ip])
    ensures Sane(After(c, gen, es).agents[ip])
    ensures Clear(After(c, gen, es).agents[ip], d) <==> ClearBy(c, gen, es, ip, d)
    ensures !Clear(After(c, gen, es).agents[ip], d) ==>
      PushResultOf(After(c, gen, es).agents[ip], d, true, CLI_OK) == AlreadyLoaded
  {
    hide Next, Possible, Clears, Sane, Jams, Arrives;
    if es != [] {
      var init, e := es[..|es| - 1], es[|es| - 1];
      ClearExactlyWhen(c, gen, init, ip, d);
      NextClear(After(c, gen, init), gen, e, ip, d);
    }
  }

  /** No activation on the pod has failed since its varnishd last restarted. */
  ghost predicate Unjammed(es: seq<Event>, ip: string) {
    es == [] || es[|es| - 1] == Restarted(ip) || (Unjammed(es[..|es| - 1], ip) && !Jams(es[|es| - 1], ip))
  }

  /** Some round reached the unjammed pod, and its varnishd has not restarted since. */
  ghost predicate Served(es: seq<Event>, ip: string) {
    && es != []
    && ((Reaches(es[|es| - 1], ip) && Unjammed(es[..|es| - 1], ip))
        || (Served(es[..|es| - 1], ip) && es[|es| - 1] != Restarted(ip)))
  }

  /**
   While the rounds want one VCL, a pod on which nothing stands in its way stays so unless an
   activation fails, and is on it from the first round that reaches it, whatever happens to other
   pods, to its discards and to its agent.
   */
  lemma {:induction false} ClearPodConverges(c: Cluster, gen: Generator, es: seq<Event>, ip: string, d: string)
    requires Runs(c, gen, es) && Wants(c, gen, es, d) && ip in c.agents && d != BOOT && d != ""
    requires Sane(c.agents[ip]) && Clear(c.agents[ip], d)
    ensures Sane(After(c, gen, es).agents[ip])
    ensures Unjammed(es, ip) ==> Clear(After(c, gen, es).agents[ip], d)
    ensures Served(es, ip) ==> After(c, gen, es).agents[ip].varnishd.active == d
  {
    hide Next, Clear, Possible, Reaches, Jams, Sane;
    if es != [] {
      var init, e := es[..|es| - 1], es[|es| - 1];
      ClearPodConverges(c, gen, init, ip, d);
      NextClear(After(c, gen, init), gen, e, ip, d);
    }
  }

  /** Once a scheduled discard of the wanted VCL has gone through, the first round that reaches the pod activates it. */
  lemma PrematureClaimEnds(c: Cluster, gen: Generator, ip: string, i: nat, d: string, es: seq<Event>)
    requires Possible(c, Discarded(ip, i, true)) && c.agents[ip].pending[i] == d && d != BOOT && d != ""
    requires Sane(c.agents[ip])
    requires var fired := Next(c, gen, Discarded(ip, i, true)); Runs(fired, gen, es) && Wants(fired, gen, es, d)
    ensures var fired := Next(c, gen, Discarded(ip, i, true));
      Served(es, ip) ==> After(fired, gen, es).agents[ip].varnishd.active == d
  {
    hide Runs, After, Wants, Served;
    var fired := Next(c, gen, Discarded(ip, i, true));
    assert Sane(fired.agents[ip]) && Clear(fired.agents[ip], d);
    ClearPodConverges(fired, gen, es, ip, d);
  }

  /** After a restart of varnishd the first round that reaches the pod brings it back, whatever its discards do. */
  lemma RestartedPodHeals(c: Cluster, gen: Generator, ip: string, d: string, es: seq<Event>)
    requires ip in c.agents && d != BOOT && d != ""
    requires var down := Next(c, gen, Restarted(ip)); Runs(down, gen, es) && Wants(down, gen, es, d)
    ensures var down := Next(c, gen, Restarted(ip));
      Served(es, ip) ==> After(down, gen, es).agents[ip].varnishd.active == d
  {
    hide Runs, After, Wants, Served;
    var down := Next(c, gen, Restarted(ip));
    assert Sane(down.agents[ip]) && Clear(down.agents[ip], d);
    ClearPodConverges(down, gen, es, ip, d);
  }
}
