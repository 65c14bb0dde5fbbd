/**
 Groups as lists: the nodes of a pending transaction tree in the order they were opened, each
 with its star depth. The depths alone determine the tree, and the most recent node at each
 depth is its rightmost spine.
 */
module VslGroups {
  import opened Wrappers
  import opened Vsl
  import opened VslLines

  datatype Node = Node(level: nat, kind: string, vxid: Vxid, records: seq<Record>)

  /** Nodes of one group, in opening order. */
  type Group = seq<Node>

  function Depth(g: Group): nat { if g == [] then 0 else g[|g| - 1].level }

  /** The first node is at depth one, no other is, and depth grows by at most one at a time. */
  ghost predicate WellLevelled(g: Group) {
    && (g != [] ==> g[0].level == 1)
    && (forall i :: 0 < i < |g| ==> 2 <= g[i].level <= g[i - 1].level + 1)
  }

  /** Position of the most recent node at depth `l`. */
  function Spine(g: Group, l: nat): (r: Option<nat>)
    ensures r.Some? ==> r.value < |g| && g[r.value].level == l && forall j :: r.value < j < |g| ==> g[j].level != l
    ensures r.None? ==> forall j :: 0 <= j < |g| ==> g[j].level != l
  {
    if g == [] then None
    else if g[|g| - 1].level == l then Some(|g| - 1)
    else Spine(g[..|g| - 1], l)
  }

  function WithRecord(n: Node, r: Record): Node { n.(records := n.records + [r]) }

  function AddRecord(g: Group, l: nat, r: Record): Group {
    match Spine(g, l)
    case None => g
    case Some(i) => g[i := WithRecord(g[i], r)]
  }

  /** One line: the pending group after it, and the group it completes, if any. */
  function Feed(g: Group, line: Line): (Group, Option<Group>) {
    match line
    case Blank => ([], if g == [] then None else Some(g))
    case Header(level, kind, vxid) =>
      var n := Node(level, kind, vxid, []);
      if level == 1 then ([n], if g == [] then None else Some(g))
      else if level <= Depth(g) + 1 then (g + [n], None)
      else (g, None)
    case Entry(level, r) => (if level <= Depth(g) then AddRecord(g, level, r) else g, None)
    case Junk => (g, None)
  }

  // ----- the spine -----

  /** At every depth up to the current one there is a most recent node, and what follows it is deeper. */
  lemma {:induction false} SpineExists(g: Group, l: nat)
    requires WellLevelled(g) && 1 <= l <= Depth(g)
    ensures Spine(g, l).Some? && forall j :: Spine(g, l).value < j < |g| ==> g[j].level > l
    decreases |g|
  {
    var n := |g| - 1;
    if g[n].level != l {
      assert WellLevelled(g[..n]);
      SpineExists(g[..n], l);
    }
  }

  lemma FeedWellLevelled(g: Group, line: Line)
    requires WellLevelled(g) && (line.Header? || line.Entry? ==> line.level >= 1)
    ensures WellLevelled(Feed(g, line).0)
    ensures Feed(g, line).1.Some? ==> Feed(g, line).1 == Some(g) && g != []
  {
  }

  // ----- the tree -----

  /**
   Positions of the children opened below depth `l` from position `j` on, up to the next node at
   depth `l` or above.
   */
  function KidsFrom(g: Group, j: nat, l: nat): (r: seq<nat>)
    ensures forall k :: 0 <= k < |r| ==> j <= r[k] < |g|
    decreases |g| - j
  {
    if j >= |g| || g[j].level <= l then []
    else if g[j].level == l + 1 then [j] + KidsFrom(g, j + 1, l)
    else KidsFrom(g, j + 1, l)
  }

  function Kids(g: Group, i: nat): (r: seq<nat>)
    requires i < |g|
    ensures forall k :: 0 <= k < |r| ==> i < r[k] < |g|
  {
    KidsFrom(g, i + 1, g[i].level)
  }

  function TreeAt(g: Group, i: nat): Tx
    requires i < |g|
    decreases |g| - i, 1
  {
    Tx(g[i].kind, g[i].vxid, g[i].records, TreesAt(g, i, Kids(g, i)))
  }

  function TreesAt(g: Group, i: nat, kids: seq<nat>): (r: seq<Tx>)
    requires i < |g| && forall k :: 0 <= k < |kids| ==> i < kids[k] < |g|
    ensures |r| == |kids| && forall k :: 0 <= k < |kids| ==> r[k] == TreeAt(g, kids[k])
    decreases |g| - i, 0, |kids|
  {
    if kids == [] then [] else [TreeAt(g, kids[0])] + TreesAt(g, i, kids[1..])
  }

  function TreeOf(g: Group): Tx
    requires g != []
  {
    TreeAt(g, 0)
  }

  /** Appending a node makes it a child of exactly the most recent node one level up. */
  lemma {:induction false} KidsFromAppend(g: Group, n: Node, j: nat, l: nat)
    requires j <= |g|
    ensures KidsFrom(g + [n], j, l)
         == if n.level == l + 1 && (forall k :: j <= k < |g| ==> g[k].level > l) then KidsFrom(g, j, l) + [|g|]
            else KidsFrom(g, j, l)
    decreases |g| - j
  {
    if j == |g| {
      assert KidsFrom(g + [n], j + 1, l) == [];
    } else if g[j].level > l {
      KidsFromAppend(g, n, j + 1, l);
    }
  }

  /** Positions and depths alone decide the children. */
  lemma {:induction false} KidsFromSameLevels(g: Group, h: Group, j: nat, l: nat)
    requires |g| == |h| && forall k :: 0 <= k < |g| ==> g[k].level == h[k].level
    ensures KidsFrom(g, j, l) == KidsFrom(h, j, l)
    decreases |g| - j
  {
    if j < |g| { KidsFromSameLevels(g, h, j + 1, l); }
  }

  /** The most recent node at depth `l` is the one node at that depth with only deeper nodes after it. */
  lemma OpenIsSpine(g: Group, l: nat, i: nat)
    requires WellLevelled(g) && 1 <= l <= Depth(g) && i < |g|
    ensures Spine(g, l).Some?
    ensures i == Spine(g, l).value <==> g[i].level == l && forall k :: i < k < |g| ==> g[k].level > l
  {
    hide Spine, WellLevelled;
    SpineExists(g, l);
    var s := Spine(g, l).value;
    assert g[s].level == l;
  }

  /** A header of depth `level` that is accepted becomes the last child of the most recent node one level up. */
  lemma AppendKids(g: Group, n: Node, i: nat)
    requires WellLevelled(g) && 2 <= n.level <= Depth(g) + 1 && i < |g|
    ensures Spine(g, n.level - 1).Some?
    ensures Kids(g + [n], i) == if i == Spine(g, n.level - 1).value then Kids(g, i) + [|g|] else Kids(g, i)
  {
    hide Spine, KidsFrom, WellLevelled, Depth;
    OpenIsSpine(g, n.level - 1, i);
    KidsFromAppend(g, n, i + 1, g[i].level);
    assert (g + [n])[i] == g[i];
  }

  lemma LastHasNoKids(g: Group)
    requires g != []
    ensures Kids(g, |g| - 1) == []
  {
  }

  /** Each entry of the spine is the last child of the one before: the spine is the rightmost path. */
  lemma SpineIsRightmost(g: Group, l: nat)
    requires WellLevelled(g) && 1 <= l < Depth(g)
    ensures Spine(g, l).Some? && Spine(g, l + 1).Some?
    ensures var kids := Kids(g, Spine(g, l).value);
      kids != [] && kids[|kids| - 1] == Spine(g, l + 1).value
  {
    SpineExists(g, l);
    SpineExists(g, l + 1);
    var a, b := Spine(g, l).value, Spine(g, l + 1).value;
    assert g[a].level == l && g[b].level == l + 1;
    LastKid(g, a + 1, l, b);
  }

  lemma {:induction false} LastKid(g: Group, j: nat, l: nat, b: nat)
    requires j <= b < |g| && g[b].level == l + 1
    requires forall k :: j <= k < |g| ==> g[k].level > l
    requires forall k :: b < k < |g| ==> g[k].level > l + 1
    ensures var kids := KidsFrom(g, j, l);
      kids != [] && kids[|kids| - 1] == b
    decreases b - j
  {
    if j == b {
      NoMoreKids(g, b + 1, l);
    } else {
      LastKid(g, j + 1, l, b);
    }
  }

  lemma {:induction false} NoMoreKids(g: Group, j: nat, l: nat)
    requires forall k :: j <= k < |g| ==> g[k].level > l + 1
    ensures KidsFrom(g, j, l) == []
    decreases |g| - j
  {
    if j < |g| { NoMoreKids(g, j + 1, l); }
  }
}
