/**
 Which pods the operator pushes to and which it counts as ready, told by the pods' own status
 fields, and how a list of pods stands for a cluster (`internal/controller/vcl_push.go`).
 */
module Pods {
  import opened Wrappers
  import opened Operators
  import opened Clusters

  /** Running, with an address, and its first agent container, if one is listed, has started. */
  ghost predicate Up(p: Pod) {
    && p.phase == "Running" && p.ip != ""
    && forall i :: FirstAgent(p.containers, i) ==> p.containers[i].started == Some(true)
  }

  ghost predicate FirstAgent(cs: seq<Container>, i: int) {
    0 <= i < |cs| && cs[i].name == "vinyl-agent" && forall j :: 0 <= j < i ==> cs[j].name != "vinyl-agent"
  }

  ghost predicate SaysReady(p: Pod) {
    exists i :: 0 <= i < |p.conditions| && p.conditions[i].kind == "Ready" && p.conditions[i].status == "True"
  }

  lemma {:induction false} StartedExactlyWhen(cs: seq<Container>)
    ensures AgentStarted(cs) <==> forall i :: FirstAgent(cs, i) ==> cs[i].started == Some(true)
  {
    if cs != [] {
      StartedExactlyWhen(cs[1..]);
      if cs[0].name == "vinyl-agent" {
        assert FirstAgent(cs, 0);
      } else {
        forall i ensures FirstAgent(cs[1..], i) <==> FirstAgent(cs, i + 1) { ShiftedFirst(cs, i); }
        assert forall i :: FirstAgent(cs, i) ==> FirstAgent(cs[1..], i - 1) && cs[1..][i - 1] == cs[i];
      }
    }
  }

  lemma ShiftedFirst(cs: seq<Container>, i: int)
    requires cs != [] && cs[0].name != "vinyl-agent"
    ensures FirstAgent(cs[1..], i) <==> FirstAgent(cs, i + 1)
  {
    assert forall j :: 0 <= j < |cs| - 1 ==> cs[1..][j] == cs[j + 1];
    if FirstAgent(cs, i + 1) {
      forall j | 0 <= j < i ensures cs[1..][j].name != "vinyl-agent" { assert cs[j + 1].name != "vinyl-agent"; }
    }
    if FirstAgent(cs[1..], i) {
      forall j | 0 <= j < i + 1 ensures cs[j].name != "vinyl-agent" { if j > 0 { assert cs[1..][j - 1] == cs[j]; } }
    }
  }

  /** A pod is pushed to exactly if it is up, and counts as ready exactly if it also says so. */
  lemma PodExactlyWhen(p: Pod)
    ensures CanPush(p) <==> Up(p)
    ensures CanServe(p) <==> Up(p) && SaysReady(p)
  {
    hide AgentStarted, FirstAgent;
    StartedExactlyWhen(p.containers);
  }

  // ----- the two lists -----

  /** The peer of a pod: its name with every dash replaced, and its address. */
  ghost predicate StandsFor(peer: Peer, p: Pod) {
    && peer.ip == p.ip && |peer.name| == |p.name|
    && forall i :: 0 <= i < |p.name| ==> peer.name[i] == if p.name[i] == '-' then '_' else p.name[i]
  }

  /** `at` lists, in order, the pods of one view, and `peers` what each is called. */
  ghost predicate Lists(pods: seq<Pod>, view: Pod -> bool, peers: seq<Peer>, at: seq<int>) {
    && |at| == |peers| && (forall i, j :: 0 <= i < j < |at| ==> at[i] < at[j])
    && (forall j :: 0 <= j < |at| ==> 0 <= at[j] < |pods| && view(pods[at[j]]) && StandsFor(peers[j], pods[at[j]]))
    && forall i :: 0 <= i < |pods| && view(pods[i]) ==> i in at
  }

  lemma ListsOneMore(init: seq<Pod>, p: Pod, view: Pod -> bool, peers: seq<Peer>, at: seq<int>)
    requires Lists(init, view, peers, at)
    ensures !view(p) ==> Lists(init + [p], view, peers, at)
    ensures view(p) ==> Lists(init + [p], view, peers + [PeerOf(p)], at + [|init|])
  {
    hide StandsFor;
    assert StandsFor(PeerOf(p), p) by { OwnPeer(p); }
    forall i | 0 <= i < |init| && view((init + [p])[i]) ensures i in at { assert view(init[i]); }
  }

  lemma OwnPeer(p: Pod)
    ensures StandsFor(PeerOf(p), p)
  {
  }

  lemma {:induction false} SelectLists(pods: seq<Pod>, view: Pod -> bool) returns (at: seq<int>)
    ensures Lists(pods, view, Map(PeerOf, Select(view, pods, true)), at)
  {
    hide Lists, PeerOf;
    if pods == [] {
      at := [];
      NothingListed(view);
    } else {
      var init, p := pods[..|pods| - 1], pods[|pods| - 1];
      assert pods == init + [p];
      at := SelectLists(init, view);
      ListsOneMore(init, p, view, Map(PeerOf, Select(view, init, true)), at);
      MapSnoc(Select(view, init, true), p);
      if view(p) { at := at + [|init|]; }
    }
  }

  lemma NothingListed(view: Pod -> bool)
    ensures Lists([], view, Map(PeerOf, []), [])
  {
  }

  /** The operator's two lists: the pods that are up, and those of them that say they are ready. */
  lemma PeersAreThePods(pods: seq<Pod>) returns (up: seq<int>, ready: seq<int>)
    ensures Lists(pods, CanPush, ReachablePeers(pods), up) && Lists(pods, CanServe, ReadyPeers(pods), ready)
    ensures forall i :: i in up <==> 0 <= i < |pods| && Up(pods[i])
    ensures forall i :: i in ready <==> 0 <= i < |pods| && Up(pods[i]) && SaysReady(pods[i])
  {
    hide CanPush, CanServe, Up, SaysReady, StandsFor, Map, Select;
    up := SelectLists(pods, CanPush);
    ready := SelectLists(pods, CanServe);
    forall i | 0 <= i < |pods|
      ensures CanPush(pods[i]) <==> Up(pods[i])
      ensures CanServe(pods[i]) <==> Up(pods[i]) && SaysReady(pods[i])
    {
      PodExactlyWhen(pods[i]);
    }
  }

  /** Who can be pushed to does not depend on any pod's conditions. */
  lemma {:induction false} ReadinessDoesNotGatePushes(pods: seq<Pod>, others: seq<Pod>)
    requires |pods| == |others|
    requires forall i :: 0 <= i < |pods| ==> others[i] == pods[i].(conditions := others[i].conditions)
    ensures ReachablePeers(pods) == ReachablePeers(others)
  {
    hide CanPush;
    if pods != [] {
      var n := |pods| - 1;
      ReadinessDoesNotGatePushes(pods[..n], others[..n]);
      var s, t := Select(CanPush, pods[..n], true), Select(CanPush, others[..n], true);
      MapSnoc(s, pods[n]);
      MapSnoc(t, others[n]);
      SameReach(pods[n], others[n]);
    }
  }

  lemma SameReach(p: Pod, q: Pod)
    requires q == p.(conditions := q.conditions)
    ensures CanPush(p) == CanPush(q) && PeerOf(p) == PeerOf(q)
  {
  }

  // ----- pods and cluster -----

  /** The pods are those of the cluster, all up, and say they are ready exactly if the cluster counts them so. */
  ghost predicate Describes(pods: seq<Pod>, c: Cluster) {
    && (forall i :: 0 <= i < |pods| ==> Up(pods[i]) && pods[i].ip in c.agents)
    && (forall ip :: ip in c.agents ==> exists i :: 0 <= i < |pods| && pods[i].ip == ip)
    && (forall ip :: ip in c.ready <==> exists i :: 0 <= i < |pods| && pods[i].ip == ip && SaysReady(pods[i]))
  }

  /** An address is on a view's list exactly if a pod of that view has it. */
  lemma ListedIps(pods: seq<Pod>, view: Pod -> bool, ip: string)
    ensures HasIp(Map(PeerOf, Select(view, pods, true)), ip)
       <==> exists i :: 0 <= i < |pods| && view(pods[i]) && pods[i].ip == ip
  {
    hide Map, Select, PeerOf;
    var peers := Map(PeerOf, Select(view, pods, true));
    var at := SelectLists(pods, view);
    if i :| 0 <= i < |pods| && view(pods[i]) && pods[i].ip == ip {
      var j :| 0 <= j < |at| && at[j] == i;
      assert peers[j].ip == ip;
    }
    if j :| 0 <= j < |peers| && peers[j].ip == ip { assert view(pods[at[j]]) && pods[at[j]].ip == ip; }
  }

  /** Then every agent is on the operator's list, ready or not, and the ready list gives the ready set. */
  lemma PodsGiveTheCluster(pods: seq<Pod>, c: Cluster)
    requires Describes(pods, c)
    ensures AllPresent(c.agents, ReachablePeers(pods))
    ensures forall ip :: ip in c.agents ==> HasIp(ReachablePeers(pods), ip)
    ensures forall ip :: ip in c.ready <==> HasIp(ReadyPeers(pods), ip)
  {
    hide Up, SaysReady, CanPush, CanServe, Map, Select, HasIp;
    forall i | 0 <= i < |pods| ensures CanPush(pods[i]) && (CanServe(pods[i]) <==> SaysReady(pods[i])) {
      PodExactlyWhen(pods[i]);
    }
    var all := ReachablePeers(pods);
    forall ip ensures ip in c.agents ==> HasIp(all, ip) { ListedIps(pods, CanPush, ip); }
    forall ip ensures ip in c.ready <==> HasIp(ReadyPeers(pods), ip) { ListedIps(pods, CanServe, ip); }
    forall i | 0 <= i < |all| ensures all[i].ip in c.agents {
      assert HasIp(all, all[i].ip) by { HasItsIp(all, i); }
      ListedIps(pods, CanPush, all[i].ip);
    }
  }

  lemma HasItsIp(ps: seq<Peer>, i: nat)
    requires i < |ps|
    ensures HasIp(ps, ps[i].ip)
  {
  }

  /** So a round over the collected pods is the cluster's round, also when nobody is ready. */
  lemma CollectedRound(pods: seq<Pod>, c: Cluster, gen: Generator, e: Event, after: Fleet, names: map<string, string>,
                       failed: bool)
    requires Describes(pods, c) && e.Round? && after.Keys == c.agents.Keys
    requires forall p :: p in ReachablePeers(pods) && p.ip in c.agents ==>
      RoundAt(c.agents, p, gen(c.ready), Net(e), e.asked, after, names, failed)
    ensures after == Next(c, gen, e).agents
    ensures !failed ==> forall ip :: ip in c.agents ==>
      ip in names && (names[ip] == gen(c.ready) <==> Claims(c, gen, e, ip))
  {
    hide RoundAt, ReachablePeers, ReadyPeers, Describes, Next, Claims;
    PodsGiveTheCluster(pods, c);
    assert forall i :: 0 <= i < |ReachablePeers(pods)| ==> ReachablePeers(pods)[i] in ReachablePeers(pods);
    RoundIsReconcile(c, gen, e, ReachablePeers(pods), after, names, failed);
  }
}
