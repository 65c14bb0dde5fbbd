/**
 The parser of `internal/tracer/vsl/vsl.go` on the heap: transactions are objects, `byLevel`
 points at the most recently opened one per depth, and lines append to objects in place.
 */
module VslParser {
  import opened Wrappers
  import opened Vsl
  import opened VslLines
  import opened VslGroups

  class TxNode {
    const kind: string
    const vxid: Vxid
    var records: seq<Record>
    var children: seq<TxNode>

    constructor (kind: string, vxid: Vxid)
      ensures this.kind == kind && this.vxid == vxid && records == [] && children == []
    {
      this.kind, this.vxid := kind, vxid;
      records, children := [], [];
    }
  }

  /** The objects standing for the children of node `i`. */
  ghost function ChildObjects(nodes: seq<TxNode>, g: Group, i: nat): seq<TxNode>
    requires i < |nodes| == |g|
  {
    seq(|Kids(g, i)|, k requires 0 <= k < |Kids(g, i)| => nodes[Kids(g, i)[k]])
  }

  /** Object `nodes[i]` is node `i` of the group: its own data, and its children in order. */
  ghost predicate Matches(nodes: seq<TxNode>, g: Group, i: nat)
    requires i < |nodes| == |g|
    reads nodes[i]
  {
    && nodes[i].kind == g[i].kind && nodes[i].vxid == g[i].vxid && nodes[i].records == g[i].records
    && nodes[i].children == ChildObjects(nodes, g, i)
  }

  /** The objects, in opening order, form the tree of the group; no object occurs twice. */
  ghost predicate Represents(nodes: seq<TxNode>, g: Group)
    reads nodes
  {
    |nodes| == |g| && Distinct(nodes) && forall i :: 0 <= i < |g| ==> Matches(nodes, g, i)
  }

  /** Following the children from `node` one reads exactly the tree `t`. */
  ghost predicate Unfolds(node: TxNode, t: Tx)
    reads *
    decreases t
  {
    && node.kind == t.kind && node.vxid == t.vxid && node.records == t.records
    && |node.children| == |t.children|
    && forall i :: 0 <= i < |t.children| ==> Unfolds(node.children[i], t.children[i])
  }

  lemma {:induction false} RepresentsUnfolds(nodes: seq<TxNode>, g: Group, i: nat)
    requires Represents(nodes, g) && i < |g|
    ensures Unfolds(nodes[i], TreeAt(g, i))
    decreases |g| - i
  {
    var kids := Kids(g, i);
    assert Matches(nodes, g, i);
    forall k | 0 <= k < |kids| ensures Unfolds(nodes[kids[k]], TreeAt(g, kids[k])) {
      RepresentsUnfolds(nodes, g, kids[k]);
    }
  }

  /** From one line to the next completed group: what is pending then, where the input stands, and the group. */
  function Scan(g: Group, lines: seq<string>, pos: nat): (r: (Group, nat, Option<Group>))
    requires pos <= |lines|
    ensures pos <= r.1 <= |lines|
    decreases |lines| - pos
  {
    if pos == |lines| then ([], pos, if g == [] then None else Some(g))
    else
      var (next, out) := Feed(g, Classify(lines[pos]));
      if out.Some? then (next, pos + 1, out) else Scan(next, lines, pos + 1)
  }

  class Parser {
    const lines: seq<string>
    /** The reader stops with an error instead of the end of the input. */
    const readError: bool
    var pos: nat
    var byLevel: seq<TxNode>
    var pending: TxNode?
    var eof: bool
    /** Objects of the pending tree in opening order, and the group they represent. */
    ghost var nodes: seq<TxNode>
    ghost var group: Group

    ghost predicate Valid()
      reads this, nodes
    {
      && pos <= |lines|
      && WellLevelled(group) && Represents(nodes, group)
      && (pending == null <==> nodes == [])
      && (pending != null ==> pending == nodes[0])
      && (eof ==> pending == null && pos == |lines|)
      && (!eof ==> OnSpine())
    }

    /** `byLevel` is the rightmost path of the pending tree. */
    ghost predicate OnSpine()
      requires |nodes| == |group|
      reads this`byLevel, this`nodes, this`group
    {
      && |byLevel| == Depth(group)
      && forall l :: 1 <= l <= |byLevel| ==> Spine(group, l).Some? && byLevel[l - 1] == nodes[Spine(group, l).value]
    }

    constructor (lines: seq<string>, readError: bool)
      ensures Valid() && !eof && group == [] && nodes == [] && pos == 0
      ensures this.lines == lines && this.readError == readError
    {
      this.lines, this.readError := lines, readError;
      pos, byLevel, pending, eof := 0, [], null, false;
      nodes, group := [], [];
    }

    /** A level-one header: the object becomes the root of a new pending tree. */
    method OpenRoot(tx: TxNode, ghost n: Node)
      requires n == Node(1, tx.kind, tx.vxid, []) && tx.records == [] && tx.children == []
      requires pos <= |lines| && !eof
      modifies this
      ensures Valid() && nodes == [tx] && group == [n]
      ensures pos == old(pos) && eof == old(eof)
    {
      pending := tx;
      byLevel := [tx];
      nodes, group := [tx], [n];
      LastHasNoKids(group);
      assert ChildObjects(nodes, group, 0) == [];
      assert Matches(nodes, group, 0);
    }

    /** A deeper header: the object is appended to the children of the most recent node one level up. */
    method OpenChild(level: nat, tx: TxNode, ghost n: Node)
      requires Valid() && !eof && 2 <= level && level - 2 < |byLevel|
      requires n == Node(level, tx.kind, tx.vxid, []) && tx.records == [] && tx.children == [] && tx !in nodes
      modifies this, nodes
      ensures Valid() && nodes == old(nodes) + [tx] && group == old(group) + [n]
      ensures pos == old(pos) && eof == old(eof)
    {
      hide ChildObjects, Spine, WellLevelled;
      var parent := byLevel[level - 2];
      ghost var g, ns := group, nodes;
      ghost var s := Spine(g, level - 1).value;
      assert parent == ns[s] && Matches(ns, g, s);
      parent.children := parent.children + [tx];
      byLevel := byLevel[..level - 1] + [tx];
      nodes, group := ns + [tx], g + [n];
      assert Represents(nodes, group) by {
        forall i | 0 <= i < |group| ensures Matches(nodes, group, i) {
          OpenedChildren(ns, tx, g, n, i);
          if i < |g| { assert old(Matches(nodes, group, i)); }
        }
      }
      assert WellLevelled(group) && OnSpine() by {
        OpenedSpine(g, n);
      }
    }

    /** A record line: the record is appended to the most recent node at its depth. */
    method Attach(level: nat, r: Record)
      requires Valid() && !eof && 1 <= level <= |byLevel|
      modifies nodes, this`group
      ensures Valid() && group == AddRecord(old(group), level, r)
      ensures nodes == old(nodes) && pos == old(pos) && eof == old(eof)
    {
      hide ChildObjects, Spine, WellLevelled, AddRecord;
      var t := byLevel[level - 1];
      ghost var g := group;
      ghost var s := Spine(g, level).value;
      assert t == nodes[s] && Matches(nodes, g, s);
      t.records := t.records + [r];
      group := AddRecord(g, level, r);
      AttachedShape(g, level, r);
      forall i | 0 <= i < |group| ensures Matches(nodes, group, i) {
        assert old(Matches(nodes, group, i));
        assert i != s ==> nodes[i] != nodes[s];
        SameChildren(nodes, g, group, i);
      }
    }

    /** The pending tree is handed out and nothing is pending any more. */
    method Complete() returns (tx: TxNode?)
      requires pos <= |lines| && (eof ==> pos == |lines|)
      modifies this
      ensures Valid() && tx == old(pending)
      ensures pending == null && nodes == [] && group == [] && pos == old(pos) && eof == old(eof)
    {
      tx := pending;
      pending := null;
      byLevel := [];
      nodes, group := [], [];
    }

    /** One line of input; hands out the pending tree when the line completes it. */
    method Take(line: Line) returns (tx: TxNode?, ghost outNodes: seq<TxNode>)
      requires Valid() && !eof && (line.Header? || line.Entry? ==> line.level >= 1)
      modifies this, nodes
      ensures Valid() && !eof && pos == old(pos)
      ensures group == Feed(old(group), line).0
      ensures tx == null <==> Feed(old(group), line).1.None?
      ensures tx != null ==> outNodes == old(nodes) && outNodes != [] && outNodes[0] == tx
      ensures tx != null ==> Represents(outNodes, Feed(old(group), line).1.value)
      ensures forall i :: 0 <= i < |nodes| ==> nodes[i] in old(nodes) || fresh(nodes[i])
      ensures tx != null ==> forall i :: 0 <= i < |nodes| ==> nodes[i] !in outNodes
    {
      hide Represents, WellLevelled, Spine;
      tx, outNodes := null, [];
      SizesAgree(nodes, group);
      match line {
        case Blank =>
          if pending != null {
            outNodes := nodes;
            tx := Complete();
          }
        case Header(level, kind, vxid) =>
          var node := new TxNode(kind, vxid);
          if level == 1 {
            outNodes := nodes;
            tx := pending;
            OpenRoot(node, Node(1, kind, vxid, []));
          } else if level - 2 < |byLevel| {
            OpenChild(level, node, Node(level, kind, vxid, []));
          }
        case Entry(level, r) =>
          if level - 1 < |byLevel| {
            Attach(level, r);
          }
        case Junk =>
      }
    }

    /**
     The next completed top-level group; null at the end of the input, with `failed` when the reader
     stopped early.
     */
    method Next() returns (tx: TxNode?, failed: bool, ghost outNodes: seq<TxNode>)
      requires Valid()
      modifies this, nodes
      ensures Valid()
      ensures old(eof) ==> tx == null && !failed && eof && pos == old(pos)
      ensures !old(eof) ==> group == Scan(old(group), lines, old(pos)).0 && pos == Scan(old(group), lines, old(pos)).1
      ensures !old(eof) ==> (tx == null <==> Scan(old(group), lines, old(pos)).2.None?)
      ensures tx != null ==> outNodes != [] && outNodes[0] == tx
      ensures tx != null ==> Represents(outNodes, Scan(old(group), lines, old(pos)).2.value)
      ensures tx == null ==> eof && (!old(eof) ==> failed == readError)
      ensures tx != null ==> pos > old(pos) || (eof && !old(eof))
      ensures forall i :: 0 <= i < |nodes| ==> nodes[i] in old(nodes) || fresh(nodes[i])
      ensures tx != null ==> forall i :: 0 <= i < |nodes| ==> nodes[i] !in outNodes
      ensures tx != null ==> forall i :: 0 <= i < |outNodes| ==> outNodes[i] in old(nodes) || fresh(outNodes[i])
    {
      hide Represents, WellLevelled, OnSpine, Feed, Classify;
      tx, failed, outNodes := null, false, [];
      if eof {
        return;
      }
      while pos < |lines|
        invariant Valid() && !eof && tx == null
        invariant Scan(group, lines, pos) == Scan(old(group), lines, old(pos))
        invariant forall i :: 0 <= i < |nodes| ==> nodes[i] in old(nodes) || fresh(nodes[i])
        decreases |lines| - pos
      {
        var line := Classify(lines[pos]);
        pos := pos + 1;
        tx, outNodes := Take(line);
        if tx != null {
          return;
        }
      }
      SizesAgree(nodes, group);
      eof := true;
      if pending != null {
        outNodes := nodes;
        tx := Complete();
      } else {
        failed := readError;
      }
    }
  }

  /** Every group of the input, in the order in which the lines complete them. */
  function Groups(g: Group, lines: seq<string>, pos: nat): seq<Group>
    requires pos <= |lines|
    decreases |lines| - pos
  {
    if pos == |lines| then if g == [] then [] else [g]
    else
      var (next, out) := Feed(g, Classify(lines[pos]));
      match out
      case None => Groups(next, lines, pos + 1)
      case Some(done) => [done] + Groups(next, lines, pos + 1)
  }

  lemma {:induction false} ScanIsFirst(g: Group, lines: seq<string>, pos: nat)
    requires pos <= |lines|
    ensures var (next, p, out) := Scan(g, lines, pos);
      Groups(g, lines, pos) == match out case None => [] case Some(done) => [done] + Groups(next, lines, p)
    decreases |lines| - pos
  {
    hide Feed, Classify;
    if pos < |lines| {
      var (next, out) := Feed(g, Classify(lines[pos]));
      if out.None? { ScanIsFirst(next, lines, pos + 1); }
    }
  }

  /** The supervisor's loop: groups are taken until none is left, and a tree once handed out never changes again. */
  method ReadAll(p: Parser) returns (txs: seq<TxNode>, ghost objects: seq<seq<TxNode>>)
    requires p.Valid() && !p.eof && p.nodes == [] && p.pos == 0
    modifies p
    ensures |txs| == |objects| == |Groups([], p.lines, 0)|
    ensures forall k :: 0 <= k < |txs| ==> objects[k] != [] && objects[k][0] == txs[k]
    ensures forall k :: 0 <= k < |txs| ==> Represents(objects[k], Groups([], p.lines, 0)[k])
  {
    hide Represents, WellLevelled, Scan, Groups;
    SizesAgree(p.nodes, p.group);
    txs, objects := [], [];
    ghost var groups: seq<Group> := [];
    while true
      invariant p.Valid()
      invariant |txs| == |objects| == |groups|
      invariant forall i :: 0 <= i < |p.nodes| ==> fresh(p.nodes[i])
      invariant groups + Groups(p.group, p.lines, p.pos) == Groups([], p.lines, 0)
      invariant forall k :: 0 <= k < |txs| ==> objects[k] != [] && objects[k][0] == txs[k]
      invariant forall k :: 0 <= k < |txs| ==> Represents(objects[k], groups[k])
      invariant forall k, i :: 0 <= k < |txs| && 0 <= i < |p.nodes| ==> p.nodes[i] !in objects[k]
      decreases |p.lines| - p.pos, !p.eof
    {
      ScanIsFirst(p.group, p.lines, p.pos);
      SizesAgree(p.nodes, p.group);
      NoGroups(p.lines);
      ghost var g, at := p.group, p.pos;
      var tx, failed, ns := p.Next();
      if tx == null {
        assert Groups(g, p.lines, at) == [];
        assert groups + [] == groups;
        break;
      }
      txs, objects, groups := txs + [tx], objects + [ns], groups + [Scan(g, p.lines, at).2.value];
    }
  }

  lemma NoGroups(lines: seq<string>)
    ensures Groups([], lines, |lines|) == []
  {
  }

  /** Consecutive entries of `byLevel` are parent and last child, starting at the pending root. */
  lemma ByLevelIsRightmost(p: Parser, l: nat)
    requires p.Valid() && !p.eof && l < |p.byLevel|
    ensures l == 0 ==> p.byLevel[l] == p.pending
    ensures l > 0 ==>
      var kids := p.byLevel[l - 1].children; kids != [] && kids[|kids| - 1] == p.byLevel[l]
  {
    hide Kids;
    var g, nodes := p.group, p.nodes;
    assert Spine(g, l + 1).Some? && p.byLevel[l] == nodes[Spine(g, l + 1).value];
    if l > 0 {
      SpineIsRightmost(g, l);
      assert p.byLevel[l - 1] == nodes[Spine(g, l).value];
      assert Matches(nodes, g, Spine(g, l).value);
    } else {
      RootIsFirst(g);
    }
  }

  lemma RootIsFirst(g: Group)
    requires WellLevelled(g) && g != []
    ensures Spine(g, 1) == Some(0)
  {
    assert g[0].level == 1;
  }

  lemma SizesAgree(nodes: seq<TxNode>, g: Group)
    requires Represents(nodes, g)
    ensures |nodes| == |g|
  {
  }

  lemma OpenedKids(g: Group, n: Node, i: nat)
    requires WellLevelled(g) && 2 <= n.level <= Depth(g) + 1 && i < |g| + 1
    ensures Spine(g, n.level - 1).Some?
    ensures Kids(g + [n], i)
         == if i == |g| then [] else if i == Spine(g, n.level - 1).value then Kids(g, i) + [|g|] else Kids(g, i)
  {
    SpineExists(g, n.level - 1);
    if i < |g| { AppendKids(g, n, i); } else { LastHasNoKids(g + [n]); }
  }

  lemma OpenedChildren(nodes: seq<TxNode>, tx: TxNode, g: Group, n: Node, i: nat)
    requires WellLevelled(g) && 2 <= n.level <= Depth(g) + 1 && i < |g| + 1 && |nodes| == |g|
    ensures Spine(g, n.level - 1).Some?
    ensures ChildObjects(nodes + [tx], g + [n], i)
         == if i == |g| then []
            else if i == Spine(g, n.level - 1).value then ChildObjects(nodes, g, i) + [tx]
            else ChildObjects(nodes, g, i)
  {
    hide Kids, Spine, WellLevelled;
    OpenedKids(g, n, i);
  }

  lemma OpenedSpine(g: Group, n: Node)
    requires WellLevelled(g) && 2 <= n.level <= Depth(g) + 1
    ensures WellLevelled(g + [n]) && Depth(g + [n]) == n.level
    ensures Spine(g + [n], n.level) == Some(|g|)
    ensures forall l :: 1 <= l < n.level ==> Spine(g + [n], l) == Spine(g, l)
  {
    forall l | 1 <= l < n.level ensures Spine(g + [n], l) == Spine(g, l) { SpineBelow(g, n, l); }
  }

  lemma SpineBelow(g: Group, n: Node, l: nat)
    requires l != n.level
    ensures Spine(g + [n], l) == Spine(g, l)
  {
    assert (g + [n])[..|g|] == g;
  }

  lemma AttachedLevels(g: Group, level: nat, r: Record)
    ensures var h := AddRecord(g, level, r);
      |h| == |g| && forall k :: 0 <= k < |g| ==> h[k].level == g[k].level
    ensures Spine(g, level).Some? ==>
      var s := Spine(g, level).value; AddRecord(g, level, r) == g[s := WithRecord(g[s], r)]
  {
    hide Spine;
  }

  lemma AttachedShape(g: Group, level: nat, r: Record)
    requires WellLevelled(g)
    ensures var h := AddRecord(g, level, r);
      && WellLevelled(h) && |h| == |g| && Depth(h) == Depth(g)
      && (forall k :: 0 <= k < |g| ==> h[k].level == g[k].level)
      && (forall l :: Spine(h, l) == Spine(g, l))
    ensures Spine(g, level).Some? ==>
      var s := Spine(g, level).value; AddRecord(g, level, r) == g[s := WithRecord(g[s], r)]
  {
    hide Spine, AddRecord;
    AttachedLevels(g, level, r);
    var h := AddRecord(g, level, r);
    forall l ensures Spine(h, l) == Spine(g, l) { SpineSameLevels(h, g, l); }
  }

  lemma SameChildren(nodes: seq<TxNode>, g: Group, h: Group, i: nat)
    requires |nodes| == |g| == |h| && i < |g| && forall k :: 0 <= k < |g| ==> h[k].level == g[k].level
    ensures ChildObjects(nodes, h, i) == ChildObjects(nodes, g, i)
  {
    KidsFromSameLevels(h, g, i + 1, g[i].level);
  }

  lemma SpineSameLevels(g: Group, h: Group, l: nat)
    requires |g| == |h| && forall k :: 0 <= k < |g| ==> g[k].level == h[k].level
    ensures Spine(g, l) == Spine(h, l)
  {
    var a, b := Spine(g, l), Spine(h, l);
    if a.Some? && b.Some? { assert a.value == b.value; }
  }
}
