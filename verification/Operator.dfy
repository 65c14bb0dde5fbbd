/**
 The operator's side: which pods it can push to, what they carry, who needs the VCL, and what
 it records afterwards (`internal/controller/vcl_push.go`, `vcl_observe.go` and the push part
 of `Reconcile`).
 */
module Operators {
  import opened Wrappers
  import opened Agents

  // ----- names -----

  function ShortHash(hash: string): string { if |hash| > 8 then hash[..8] else hash }

  /** The name a generated VCL is pushed under. */
  function VclName(namespace: string, cache: string, hash: string): string {
    namespace + "-" + cache + "-" + ShortHash(hash)
  }

  /** A pushed VCL is never called like the bootstrap one, so a pod that carries it passes the health check. */
  lemma NeverBoot(namespace: string, cache: string, hash: string)
    ensures VclName(namespace, cache, hash) != "boot" && VclName(namespace, cache, hash) != ""
  {
    assert VclName(namespace, cache, hash)[|namespace|] == '-';
    assert '-' !in "boot";
  }

  /** Equal, or with the same first eight characters. */
  predicate SameBeginning(h1: string, h2: string) { h1 == h2 || (|h1| >= 8 && |h2| >= 8 && h1[..8] == h2[..8]) }

  /** Within one cache, two VCLs get the same name exactly when their hashes agree in the first eight characters. */
  lemma NameIsHash(namespace: string, cache: string, h1: string, h2: string)
    ensures VclName(namespace, cache, h1) == VclName(namespace, cache, h2) <==> SameBeginning(h1, h2)
    ensures |h1| >= 8 ==> VclName(namespace, cache, h1) == namespace + "-" + cache + "-" + h1[..8]
  {
    var p := namespace + "-" + cache + "-";
    assert (p + ShortHash(h1))[|p|..] == ShortHash(h1) && (p + ShortHash(h2))[|p|..] == ShortHash(h2);
  }

  // ----- pods -----

  datatype Container = Container(name: string, started: Option<bool>)
  datatype PodCondition = PodCondition(kind: string, status: string)
  datatype Pod = Pod(name: string, phase: string, ip: string, containers: seq<Container>, conditions: seq<PodCondition>)
  datatype Peer = Peer(name: string, ip: string)

  const AGENT_CONTAINER := "vinyl-agent"

  /** The agent container passed its startup probe; a pod without a status for it counts as started. */
  function AgentStarted(cs: seq<Container>): bool {
    if cs == [] then true
    else if cs[0].name == AGENT_CONTAINER then cs[0].started == Some(true)
    else AgentStarted(cs[1..])
  }

  predicate IsReady(p: Pod) {
    exists i :: 0 <= i < |p.conditions| && p.conditions[i] == PodCondition("Ready", "True")
  }

  /** Readiness is deliberately not required: a pod becomes ready only by being pushed to. */
  predicate CanPush(p: Pod) { p.phase == "Running" && p.ip != "" && AgentStarted(p.containers) }

  predicate CanServe(p: Pod) { CanPush(p) && IsReady(p) }

  function Underscored(s: string): string { seq(|s|, i requires 0 <= i < |s| => if s[i] == '-' then '_' else s[i]) }

  function PeerOf(p: Pod): Peer { Peer(Underscored(p.name), p.ip) }

  /** The two views the operator takes of its pods, each in list order. */
  function ReachablePeers(pods: seq<Pod>): seq<Peer> { Map(PeerOf, Select(CanPush, pods, true)) }

  function ReadyPeers(pods: seq<Pod>): seq<Peer> { Map(PeerOf, Select(CanServe, pods, true)) }

  method CheckAgentStarted(p: Pod) returns (started: bool)
    ensures started == AgentStarted(p.containers)
  {
    for i := 0 to |p.containers|
      invariant AgentStarted(p.containers) == AgentStarted(p.containers[i..])
    {
      assert p.containers[i..][0] == p.containers[i] && p.containers[i..][1..] == p.containers[i + 1..];
      if p.containers[i].name == AGENT_CONTAINER {
        return p.containers[i].started == Some(true);
      }
    }
    return true;
  }

  method CheckReady(p: Pod) returns (ready: bool)
    ensures ready == IsReady(p)
  {
    for i := 0 to |p.conditions|
      invariant forall j :: 0 <= j < i ==> p.conditions[j] != PodCondition("Ready", "True")
    {
      if p.conditions[i].kind == "Ready" && p.conditions[i].status == "True" {
        return true;
      }
    }
    return false;
  }

  /** One pass over the pods collects both views. */
  method CollectPeers(pods: seq<Pod>) returns (reachable: seq<Peer>, ready: seq<Peer>)
    ensures reachable == ReachablePeers(pods) && ready == ReadyPeers(pods)
  {
    hide Map, IsReady;
    reachable, ready := [], [];
    MapEmpty();
    for i := 0 to |pods|
      invariant reachable == Map(PeerOf, Select(CanPush, pods[..i], true))
      invariant ready == Map(PeerOf, Select(CanServe, pods[..i], true))
    {
      var pod := pods[i];
      assert pods[..i + 1][..i] == pods[..i];
      if pod.phase != "Running" || pod.ip == "" {
        continue;
      }
      var started := CheckAgentStarted(pod);
      if !started {
        continue;
      }
      var peer := PeerOf(pod);
      MapSnoc(Select(CanPush, pods[..i], true), pod);
      reachable := reachable + [peer];
      var isReady := CheckReady(pod);
      if isReady {
        MapSnoc(Select(CanServe, pods[..i], true), pod);
        ready := ready + [peer];
      }
    }
    assert pods[..|pods|] == pods;
  }

  lemma MapSnoc(ps: seq<Pod>, p: Pod)
    ensures Map(PeerOf, ps + [p]) == Map(PeerOf, ps) + [PeerOf(p)]
  {
  }

  lemma MapEmpty()
    ensures Map(PeerOf, []) == []
  {
  }

  /** Every pod that may serve is also one the operator may push to. */
  lemma ReadyAreReachable(pods: seq<Pod>, p: Peer)
    requires p in ReadyPeers(pods)
    ensures p in ReachablePeers(pods)
  {
    hide Select;
    var s, t := Select(CanServe, pods, true), Select(CanPush, pods, true);
    var i :| 0 <= i < |s| && PeerOf(s[i]) == p;
    SelectMember(CanServe, pods, true, s[i]);
    SelectMember(CanPush, pods, true, s[i]);
    var j :| 0 <= j < |t| && t[j] == s[i];
    assert Map(PeerOf, t)[j] == p;
  }

  // ----- observation -----

  /** What each pod's agent answers when asked; None is an unanswered query. */
  type Answers = map<string, Option<string>>

  function AnswerOf(answers: Answers, ip: string): string {
    if ip in answers && answers[ip].Some? then answers[ip].value else ""
  }

  method ObserveVCLNames(pods: seq<Peer>, answers: Answers) returns (observed: map<string, string>)
    ensures forall ip :: ip in observed <==> exists i :: 0 <= i < |pods| && pods[i].ip == ip
    ensures forall ip :: ip in observed ==> observed[ip] == AnswerOf(answers, ip)
  {
    observed := map[];
    for i := 0 to |pods|
      invariant forall ip :: ip in observed <==> exists j :: 0 <= j < i && pods[j].ip == ip
      invariant forall ip :: ip in observed ==> observed[ip] == AnswerOf(answers, ip)
    {
      var ip := pods[i].ip;
      if ip !in answers || answers[ip].None? {
        observed := observed[ip := ""];
      } else {
        observed := observed[ip := answers[ip].value];
      }
    }
  }

  predicate Diverges(observed: map<string, string>, desired: string, p: Peer) {
    (if p.ip in observed then observed[p.ip] else "") != desired
  }

  function DivergesFrom(observed: map<string, string>, desired: string): Peer -> bool {
    p => Diverges(observed, desired, p)
  }

  method PodsNeedingVCL(reachable: seq<Peer>, observed: map<string, string>, desired: string)
    returns (targets: seq<Peer>)
    ensures targets == Select(DivergesFrom(observed, desired), reachable, true)
  {
    targets := [];
    for i := 0 to |reachable|
      invariant targets == Select(DivergesFrom(observed, desired), reachable[..i], true)
    {
      var p := reachable[i];
      assert reachable[..i + 1][..i] == reachable[..i];
      if (if p.ip in observed then observed[p.ip] else "") != desired {
        targets := targets + [p];
      }
    }
    assert reachable[..|reachable|] == reachable;
  }

  // ----- push results -----

  /** What a single push came to, as seen by the operator; None is an agent that could not be reached. */
  type Outcome = Option<PushResult>

  predicate Took(r: Outcome) { r.Some? && Reported(r.value) }

  function Takers(peers: seq<Peer>, results: seq<Outcome>): seq<Peer>
    requires |peers| == |results|
  {
    if peers == [] then []
    else
      var n := |peers| - 1;
      if Took(results[n]) then Takers(peers[..n], results[..n]) + [peers[n]] else Takers(peers[..n], results[..n])
  }

  /** The tally: an error only when every pod failed, otherwise exactly the pods that took the VCL. */
  method TallyPush(peers: seq<Peer>, results: seq<Outcome>) returns (pushed: seq<Peer>, failed: bool)
    requires |peers| == |results|
    ensures failed <==> peers != [] && forall i :: 0 <= i < |peers| ==> !Took(results[i])
    ensures pushed == if failed then [] else Takers(peers, results)
  {
    pushed, failed := [], false;
    if |peers| == 0 {
      return;
    }
    var failCount := 0;
    for i := 0 to |peers|
      invariant pushed == Takers(peers[..i], results[..i])
      invariant 0 <= failCount <= i
      invariant failCount == i <==> forall j :: 0 <= j < i ==> !Took(results[j])
    {
      assert peers[..i + 1][..i] == peers[..i] && results[..i + 1][..i] == results[..i];
      if Took(results[i]) {
        pushed := pushed + [peers[i]];
      } else {
        failCount := failCount + 1;
      }
    }
    assert peers[..|peers|] == peers && results[..|results|] == results;
    if failCount == |peers| {
      pushed, failed := [], true;
    }
  }

  lemma {:induction false} TakersMember(peers: seq<Peer>, results: seq<Outcome>, p: Peer)
    requires |peers| == |results|
    ensures p in Takers(peers, results) <==> exists i :: 0 <= i < |peers| && peers[i] == p && Took(results[i])
  {
    if peers != [] {
      var n := |peers| - 1;
      TakersMember(peers[..n], results[..n], p);
      if p in Takers(peers[..n], results[..n]) {
        var i :| 0 <= i < n && peers[..n][i] == p && Took(results[..n][i]);
        assert peers[i] == p && Took(results[i]);
      }
      if i :| 0 <= i < n && peers[i] == p && Took(results[i]) {
        assert peers[..n][i] == p && Took(results[..n][i]);
      }
    }
  }

  // ----- one round -----

  /** The pods' agents by address. */
  type Fleet = map<string, Agent>

  predicate AllPresent(agents: Fleet, peers: seq<Peer>) { forall i :: 0 <= i < |peers| ==> peers[i].ip in agents }

  ghost predicate DistinctIps(peers: seq<Peer>) { forall i, j :: 0 <= i < j < |peers| ==> peers[i].ip != peers[j].ip }

  /** Whether the generated VCL compiles, which agents can be pushed to, and how each one's CLI behaves. */
  datatype Network = Network(compiles: bool, up: set<string>, cli: string -> Cli)

  function PushAt(agents: Fleet, ip: string, desired: string, net: Network): Fleet
    requires ip in agents
  {
    agents[ip := Push(agents[ip], desired, net.compiles, net.cli(ip))]
  }

  /** Pushing to the targets one by one; an agent out of reach is left as it is. */
  function PushAll(agents: Fleet, targets: seq<Peer>, desired: string, net: Network): (r: Fleet)
    requires AllPresent(agents, targets)
    ensures r.Keys == agents.Keys
  {
    if targets == [] then agents
    else
      var n := |targets| - 1;
      var before := PushAll(agents, targets[..n], desired, net);
      if targets[n].ip in net.up then PushAt(before, targets[n].ip, desired, net) else before
  }

  lemma {:induction false} PushAllAt(agents: Fleet, targets: seq<Peer>, desired: string, net: Network,
                                     ip: string)
    requires AllPresent(agents, targets) && DistinctIps(targets) && ip in agents
    ensures PushAll(agents, targets, desired, net)[ip]
         == if ip in net.up && (exists i :: 0 <= i < |targets| && targets[i].ip == ip)
            then Push(agents[ip], desired, net.compiles, net.cli(ip)) else agents[ip]
  {
    hide Push;
    if targets != [] {
      var n := |targets| - 1;
      var init := targets[..n];
      assert AllPresent(agents, init) && DistinctIps(init);
      PushAllAt(agents, init, desired, net, ip);
      if i :| 0 <= i < n && targets[i].ip == ip {
        assert init[i].ip == ip && targets[i].ip != targets[n].ip;
      }
    }
  }

  /** What each reachable agent would answer now; only those in `asked` do. */
  function AnswersNow(agents: Fleet, asked: set<string>): Answers {
    map ip | ip in agents :: if ip in asked then Some(agents[ip].varnishd.active) else None
  }

  function ResultAt(agents: Fleet, p: Peer, desired: string, net: Network): Outcome {
    if p.ip in agents && p.ip in net.up then Some(PushResultOf(agents[p.ip], desired, net.compiles, net.cli(p.ip)))
    else None
  }

  function ResultsAt(agents: Fleet, ps: seq<Peer>, desired: string, net: Network): (r: seq<Outcome>)
    ensures |r| == |ps| && forall i :: 0 <= i < |ps| ==> r[i] == ResultAt(agents, ps[i], desired, net)
  {
    seq(|ps|, i requires 0 <= i < |ps| => ResultAt(agents, ps[i], desired, net))
  }

  /** The pod does not show the desired VCL to this round's observation. */
  predicate IsTarget(agents: Fleet, asked: set<string>, desired: string, ip: string)
    requires ip in agents
  {
    ip !in asked || agents[ip].varnishd.active != desired
  }

  lemma {:induction false} SelectDistinctIps(f: Peer -> bool, ps: seq<Peer>)
    requires DistinctIps(ps)
    ensures DistinctIps(Select(f, ps, true))
  {
    if ps != [] {
      var n := |ps| - 1;
      SelectDistinctIps(f, ps[..n]);
      var s := Select(f, ps[..n], true);
      forall i | 0 <= i < |s| ensures s[i].ip != ps[n].ip {
        SelectMember(f, ps[..n], true, s[i]);
        var j :| 0 <= j < n && ps[..n][j] == s[i];
        assert ps[j].ip != ps[n].ip;
      }
    }
  }

  method RecordPushed(names0: map<string, string>, pushed: seq<Peer>, desired: string)
    returns (names: map<string, string>)
    ensures forall ip :: ip in names0 ==> ip in names
    ensures forall ip :: ip in names0 ==> names[ip] == if HasIp(pushed, ip) then desired else names0[ip]
  {
    names := names0;
    for i := 0 to |pushed|
      invariant forall ip :: ip in names0 ==> ip in names
      invariant forall ip :: ip in names0 ==> names[ip] == if HasIp(pushed[..i], ip) then desired else names0[ip]
    {
      assert pushed[..i + 1] == pushed[..i] + [pushed[i]];
      names := names[pushed[i].ip := desired];
      forall ip ensures HasIp(pushed[..i + 1], ip) <==> HasIp(pushed[..i], ip) || pushed[i].ip == ip {
        HasIpSnoc(pushed[..i], pushed[i], ip);
      }
    }
    assert pushed[..|pushed|] == pushed;
  }

  predicate HasIp(ps: seq<Peer>, ip: string) { exists i :: 0 <= i < |ps| && ps[i].ip == ip }

  lemma HasIpSnoc(ps: seq<Peer>, p: Peer, ip: string)
    ensures HasIp(ps + [p], ip) <==> HasIp(ps, ip) || p.ip == ip
  {
    var all := ps + [p];
    if HasIp(ps, ip) {
      var i :| 0 <= i < |ps| && ps[i].ip == ip;
      assert all[i].ip == ip;
    }
    if p.ip == ip { assert all[|ps|].ip == ip; }
  }

  /** The pod at `ip` is pushed to in this round. */
  ghost predicate Selected(needing: seq<Peer>, agents: Fleet, asked: set<string>, desired: string,
                           reachable: seq<Peer>)
  {
    forall i :: 0 <= i < |reachable| && reachable[i].ip in agents ==>
      (HasIp(needing, reachable[i].ip) <==> IsTarget(agents, asked, desired, reachable[i].ip))
      && (IsTarget(agents, asked, desired, reachable[i].ip) ==> reachable[i] in needing)
  }

  /** Exactly the pods not showing the desired VCL are selected. */
  lemma TargetsAreSelected(agents: Fleet, asked: set<string>, desired: string, reachable: seq<Peer>,
                           names: map<string, string>)
    requires AllPresent(agents, reachable) && DistinctIps(reachable) && desired != ""
    requires forall i :: 0 <= i < |reachable| ==>
      reachable[i].ip in names && names[reachable[i].ip] == AnswerOf(AnswersNow(agents, asked), reachable[i].ip)
    ensures var needing := Select(DivergesFrom(names, desired), reachable, true);
      Selected(needing, agents, asked, desired, reachable) && DistinctIps(needing) && AllPresent(agents, needing)
      && forall k :: 0 <= k < |needing| ==> needing[k] in reachable
  {
    hide Select;
    var f := DivergesFrom(names, desired);
    var needing := Select(f, reachable, true);
    SelectDistinctIps(f, reachable);
    forall k | 0 <= k < |needing| ensures needing[k] in reachable && needing[k].ip in agents {
      SelectMember(f, reachable, true, needing[k]);
    }
    forall i | 0 <= i < |reachable|
      ensures HasIp(needing, reachable[i].ip) <==> IsTarget(agents, asked, desired, reachable[i].ip)
      ensures IsTarget(agents, asked, desired, reachable[i].ip) ==> reachable[i] in needing
    {
      SelectMember(f, reachable, true, reachable[i]);
      if HasIp(needing, reachable[i].ip) {
        var k :| 0 <= k < |needing| && needing[k].ip == reachable[i].ip;
        SelectMember(f, reachable, true, needing[k]);
        var j :| 0 <= j < |reachable| && reachable[j] == needing[k];
        assert i == j;
      }
    }
  }

  /** What a round leaves at one pod: its agent, and whether the operator now records the desired VCL for it. */
  ghost predicate RoundAt(agents: Fleet, p: Peer, desired: string, net: Network, asked: set<string>,
                          after: Fleet, names: map<string, string>, failed: bool)
    requires p.ip in agents
  {
    var target := IsTarget(agents, asked, desired, p.ip);
    && p.ip in after && p.ip in names
    && after[p.ip] == (
         if target && p.ip in net.up then Push(agents[p.ip], desired, net.compiles, net.cli(p.ip)) else agents[p.ip])
    && (!failed ==> (names[p.ip] == desired <==> !target || Took(ResultAt(agents, p, desired, net))))
  }

  lemma TakersAt(needing: seq<Peer>, results: seq<Outcome>, p: Peer)
    requires |needing| == |results| && DistinctIps(needing)
    ensures HasIp(Takers(needing, results), p.ip)
       <==> exists k :: 0 <= k < |needing| && needing[k].ip == p.ip && Took(results[k])
  {
    hide Takers;
    var takers := Takers(needing, results);
    if HasIp(takers, p.ip) {
      var i :| 0 <= i < |takers| && takers[i].ip == p.ip;
      TakersMember(needing, results, takers[i]);
      assert takers[i] in takers;
    }
    if k :| 0 <= k < |needing| && needing[k].ip == p.ip && Took(results[k]) {
      TakersMember(needing, results, needing[k]);
      var i :| 0 <= i < |takers| && takers[i] == needing[k];
    }
  }

  /** Some reachable pod does not show the desired VCL. */
  ghost predicate SomeTarget(agents: Fleet, reachable: seq<Peer>, desired: string, asked: set<string>) {
    exists i :: 0 <= i < |reachable| && reachable[i].ip in agents && IsTarget(agents, asked, desired, reachable[i].ip)
  }

  /** Some such pod took the push. */
  ghost predicate SomeTook(agents: Fleet, reachable: seq<Peer>, desired: string, net: Network, asked: set<string>)
  {
    exists i :: 0 <= i < |reachable| && reachable[i].ip in agents && IsTarget(agents, asked, desired, reachable[i].ip)
             && Took(ResultAt(agents, reachable[i], desired, net))
  }

  lemma NeedingIsTarget(agents: Fleet, reachable: seq<Peer>, needing: seq<Peer>, desired: string, asked: set<string>,
                        k: nat)
    returns (i: nat)
    requires AllPresent(agents, reachable) && Selected(needing, agents, asked, desired, reachable)
    requires k < |needing| && needing[k] in reachable
    ensures i < |reachable| && reachable[i] == needing[k] && IsTarget(agents, asked, desired, reachable[i].ip)
  {
    i :| 0 <= i < |reachable| && reachable[i] == needing[k];
    assert HasIp(needing, reachable[i].ip);
  }

  lemma TargetIsNeeding(agents: Fleet, reachable: seq<Peer>, needing: seq<Peer>, desired: string, asked: set<string>,
                        i: nat)
    returns (k: nat)
    requires AllPresent(agents, reachable) && Selected(needing, agents, asked, desired, reachable)
    requires i < |reachable| && IsTarget(agents, asked, desired, reachable[i].ip)
    ensures k < |needing| && needing[k] == reachable[i]
  {
    assert reachable[i] in needing;
    k :| 0 <= k < |needing| && needing[k] == reachable[i];
  }

  /** The tally over the selected pods is the tally over the targets. */
  lemma Verdict(agents: Fleet, reachable: seq<Peer>, needing: seq<Peer>, desired: string, net: Network,
                asked: set<string>)
    requires AllPresent(agents, reachable) && Selected(needing, agents, asked, desired, reachable)
    requires forall k :: 0 <= k < |needing| ==> needing[k] in reachable
    ensures SomeTarget(agents, reachable, desired, asked) <==> needing != []
    ensures var results := ResultsAt(agents, needing, desired, net);
      && (SomeTook(agents, reachable, desired, net, asked) <==> exists k :: 0 <= k < |needing| && Took(results[k]))
      && (SomeTook(agents, reachable, desired, net, asked) <==> Takers(needing, results) != [])
  {
    hide ResultAt, Takers, Selected, IsTarget;
    var results := ResultsAt(agents, needing, desired, net);
    if SomeTarget(agents, reachable, desired, asked) {
      var i :| 0 <= i < |reachable| && reachable[i].ip in agents && IsTarget(agents, asked, desired, reachable[i].ip);
      var k := TargetIsNeeding(agents, reachable, needing, desired, asked, i);
    }
    if needing != [] {
      assert needing[0] in reachable;
      var i := NeedingIsTarget(agents, reachable, needing, desired, asked, 0);
    }
    if SomeTook(agents, reachable, desired, net, asked) {
      var i :| 0 <= i < |reachable| && reachable[i].ip in agents && IsTarget(agents, asked, desired, reachable[i].ip)
            && Took(ResultAt(agents, reachable[i], desired, net));
      var k := TargetIsNeeding(agents, reachable, needing, desired, asked, i);
      assert Took(results[k]);
    }
    if k :| 0 <= k < |needing| && Took(results[k]) {
      assert needing[k] in reachable;
      var i := NeedingIsTarget(agents, reachable, needing, desired, asked, k);
      TakersMember(needing, results, needing[k]);
    }
    if Takers(needing, results) != [] {
      TakersMember(needing, results, Takers(needing, results)[0]);
    }
  }

  /**
   One reconcile round from observation to recording. `asked` are the agents that answer the
   query; the number reported is that of the diverging pods whose push was taken.
   */
  method Reconcile(agents: Fleet, reachable: seq<Peer>, desired: string, net: Network, asked: set<string>)
    returns (after: Fleet, names: map<string, string>, pushed: nat, failed: bool)
    requires AllPresent(agents, reachable) && DistinctIps(reachable) && desired != ""
    ensures after.Keys == agents.Keys
    ensures forall i :: 0 <= i < |reachable| ==>
      RoundAt(agents, reachable[i], desired, net, asked, after, names, failed)
    ensures pushed == |Select(TakesIn(agents, desired, net, asked), reachable, true)|
    ensures pushed > 0 <==> SomeTook(agents, reachable, desired, net, asked)
    ensures failed <==> SomeTarget(agents, reachable, desired, asked) && pushed == 0
  {
    hide PushAll, ResultAt, Push, Selected, AnswersNow, Takers, Select;
    var answers := AnswersNow(agents, asked);
    names := ObserveVCLNames(reachable, answers);
    var needing := PodsNeedingVCL(reachable, names, desired);
    TargetsAreSelected(agents, asked, desired, reachable, names);
    after, pushed, failed := agents, 0, false;
    Verdict(agents, reachable, needing, desired, net, asked);
    ghost var observed, results := names, ResultsAt(agents, needing, desired, net);
    TakersCount(agents, reachable, names, desired, net, asked);
    if |needing| > 0 {
      after := PushAll(agents, needing, desired, net);
      var took;
      took, failed := TallyPush(needing, ResultsAt(agents, needing, desired, net));
      if !failed {
        pushed := |took|;
        names := RecordPushed(names, took, desired);
      }
    } else {
      NobodyNeeds(agents, desired, net, results);
    }
    forall i | 0 <= i < |reachable|
      ensures RoundAt(agents, reachable[i], desired, net, asked, after, names, failed)
    {
      RoundEffect(agents, reachable, i, desired, net, asked, needing, observed, after, names, failed);
    }
  }

  /** The pod diverges and its push is taken. */
  predicate Takes(agents: Fleet, desired: string, net: Network, asked: set<string>, p: Peer) {
    p.ip in agents && IsTarget(agents, asked, desired, p.ip) && Took(ResultAt(agents, p, desired, net))
  }

  function TakesIn(agents: Fleet, desired: string, net: Network, asked: set<string>): Peer -> bool {
    (p: Peer) => Takes(agents, desired, net, asked, p)
  }

  function TookIn(agents: Fleet, desired: string, net: Network): Peer -> bool {
    (p: Peer) => Took(ResultAt(agents, p, desired, net))
  }

  lemma {:induction false} TakersAreSelected(agents: Fleet, ps: seq<Peer>, desired: string, net: Network)
    ensures Takers(ps, ResultsAt(agents, ps, desired, net)) == Select(TookIn(agents, desired, net), ps, true)
  {
    hide ResultAt;
    if ps != [] {
      var n := |ps| - 1;
      assert ResultsAt(agents, ps, desired, net)[..n] == ResultsAt(agents, ps[..n], desired, net);
      TakersAreSelected(agents, ps[..n], desired, net);
    }
  }

  lemma {:induction false} SelectTwice<T>(f: T -> bool, g: T -> bool, h: T -> bool, s: seq<T>)
    requires forall x :: x in s ==> h(x) == (f(x) && g(x))
    ensures Select(g, Select(f, s, true), true) == Select(h, s, true)
  {
    if s != [] {
      var init, x := s[..|s| - 1], s[|s| - 1];
      SelectTwice(f, g, h, init);
      if f(x) { assert (Select(f, init, true) + [x])[..|Select(f, init, true)|] == Select(f, init, true); }
    }
  }

  /** The takers among the selected pods are the diverging pods that took the push. */
  lemma TakersCount(agents: Fleet, reachable: seq<Peer>, names: map<string, string>, desired: string, net: Network,
                    asked: set<string>)
    requires AllPresent(agents, reachable) && desired != ""
    requires forall i :: 0 <= i < |reachable| ==>
      reachable[i].ip in names && names[reachable[i].ip] == AnswerOf(AnswersNow(agents, asked), reachable[i].ip)
    ensures var needing := Select(DivergesFrom(names, desired), reachable, true);
      Takers(needing, ResultsAt(agents, needing, desired, net))
        == Select(TakesIn(agents, desired, net, asked), reachable, true)
  {
    hide Select, Takers, ResultAt;
    var f := DivergesFrom(names, desired);
    TakersAreSelected(agents, Select(f, reachable, true), desired, net);
    forall p | p in reachable
      ensures TakesIn(agents, desired, net, asked)(p) == (f(p) && TookIn(agents, desired, net)(p))
    {
      var i :| 0 <= i < |reachable| && reachable[i] == p;
    }
    SelectTwice(f, TookIn(agents, desired, net), TakesIn(agents, desired, net, asked), reachable);
  }

  lemma NobodyNeeds(agents: Fleet, desired: string, net: Network, results: seq<Outcome>)
    requires results == []
    ensures PushAll(agents, [], desired, net) == agents && Takers([], results) == []
  {
  }

  lemma RoundEffect(agents: Fleet, reachable: seq<Peer>, i: nat, desired: string, net: Network, asked: set<string>,
                    needing: seq<Peer>, observed: map<string, string>,
                    after: Fleet, names: map<string, string>, failed: bool)
    requires i < |reachable| && AllPresent(agents, reachable) && desired != ""
    requires AllPresent(agents, needing) && DistinctIps(needing)
    requires Selected(needing, agents, asked, desired, reachable)
    requires after == PushAll(agents, needing, desired, net)
    requires reachable[i].ip in observed
    requires observed[reachable[i].ip] == AnswerOf(AnswersNow(agents, asked), reachable[i].ip)
    requires reachable[i].ip in names
    requires failed || names[reachable[i].ip] == (
      if HasIp(Takers(needing, ResultsAt(agents, needing, desired, net)), reachable[i].ip) then desired
      else observed[reachable[i].ip])
    ensures RoundAt(agents, reachable[i], desired, net, asked, after, names, failed)
  {
    hide PushAll, Push, Takers, PushResultOf;
    var p, results := reachable[i], ResultsAt(agents, needing, desired, net);
    PushAllAt(agents, needing, desired, net, p.ip);
    TakersAt(needing, results, p);
    if IsTarget(agents, asked, desired, p.ip) {
      var k :| 0 <= k < |needing| && needing[k] == p;
      assert results[k] == ResultAt(agents, p, desired, net);
      forall j | 0 <= j < |needing| && needing[j].ip == p.ip ensures j == k {}
    }
  }
}
