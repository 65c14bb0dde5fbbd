/**
 What the parser makes of an arbitrary line stream, said without groups or spines: a line is
 accepted or ignored depending on one number, the current depth; the nodes returned are the
 accepted headers in order, each with the accepted records of its own depth that follow it
 before the next header at that depth or above.
 */
module VslStreams {
  import opened Wrappers
  import opened Vsl
  import opened VslLines
  import opened VslGroups
  import opened VslParser

  // ----- the reference -----

  predicate Leveled(line: Line) { line.Header? || line.Entry? ==> line.level >= 1 }

  function DepthAfter(lines: seq<Line>): nat {
    if lines == [] then 0
    else
      var d := DepthAfter(lines[..|lines| - 1]);
      match lines[|lines| - 1]
      case Blank => 0
      case Header(l, _, _) => if l == 1 || l <= d + 1 then l else d
      case _ => d
  }

  datatype Item = Opened(level: nat, kind: string, vxid: Vxid) | Logged(level: nat, record: Record)

  /** What a line contributes at depth `d`. */
  function ItemOf(line: Line, d: nat): Option<Item> {
    match line
    case Header(l, k, v) => if l == 1 || l <= d + 1 then Some(Opened(l, k, v)) else None
    case Entry(l, r) => if l <= d then Some(Logged(l, r)) else None
    case _ => None
  }

  /** The accepted lines, in order. */
  function Items(lines: seq<Line>): seq<Item> {
    if lines == [] then []
    else
      var init := lines[..|lines| - 1];
      match ItemOf(lines[|lines| - 1], DepthAfter(init))
      case None => Items(init)
      case Some(x) => Items(init) + [x]
  }

  /** Records of depth `l` from position `j` on, up to the next header at that depth or above. */
  function RecordsFrom(items: seq<Item>, j: nat, l: nat): seq<Record>
    decreases |items| - j
  {
    if j >= |items| then []
    else match items[j]
      case Opened(m, _, _) => if m <= l then [] else RecordsFrom(items, j + 1, l)
      case Logged(m, r) => if m == l then [r] + RecordsFrom(items, j + 1, l) else RecordsFrom(items, j + 1, l)
  }

  function NodeFor(items: seq<Item>, i: nat): Node
    requires i < |items| && items[i].Opened?
  {
    Node(items[i].level, items[i].kind, items[i].vxid, RecordsFrom(items, i + 1, items[i].level))
  }

  /** One node per accepted header among the first `n` items. */
  function NodesUpTo(items: seq<Item>, n: nat): seq<Node>
    requires n <= |items|
  {
    if n == 0 then []
    else if items[n - 1].Opened? then NodesUpTo(items, n - 1) + [NodeFor(items, n - 1)]
    else NodesUpTo(items, n - 1)
  }

  function NodesOf(items: seq<Item>): seq<Node> { NodesUpTo(items, |items|) }

  // ----- the parser's state after a prefix -----

  datatype Parsed = Parsed(done: seq<Group>, pending: Group)

  function After(lines: seq<Line>): Parsed {
    if lines == [] then Parsed([], [])
    else
      var before := After(lines[..|lines| - 1]);
      var (next, out) := Feed(before.pending, lines[|lines| - 1]);
      Parsed(match out case None => before.done case Some(g) => before.done + [g], next)
  }

  function AllNodes(p: Parsed): seq<Node> { Flatten(p.done) + p.pending }

  // ----- records find their node -----

  /** A header at depth `l` or above stands at or after position `n`. */
  ghost predicate Closed(items: seq<Item>, n: nat, l: nat) {
    exists i :: n <= i < |items| && items[i].Opened? && items[i].level <= l
  }

  lemma {:induction false} RecordsFromOpened(items: seq<Item>, x: Item, j: nat, l: nat)
    requires x.Opened? && j <= |items|
    ensures RecordsFrom(items + [x], j, l) == RecordsFrom(items, j, l)
    decreases |items| - j
  {
    if j < |items| { RecordsFromOpened(items, x, j + 1, l); }
    else { assert RecordsFrom(items + [x], j + 1, l) == []; }
  }

  lemma {:induction false} RecordsFromLogged(items: seq<Item>, x: Item, j: nat, l: nat)
    requires x.Logged? && j <= |items|
    ensures RecordsFrom(items + [x], j, l)
         == if x.level == l && !Closed(items, j, l) then RecordsFrom(items, j, l) + [x.record]
            else RecordsFrom(items, j, l)
    decreases |items| - j
  {
    if j == |items| {
      assert RecordsFrom(items + [x], j + 1, l) == [];
      assert [x.record] + [] == [] + [x.record];
    } else {
      RecordsFromLogged(items, x, j + 1, l);
      assert Closed(items, j, l) <==> Closed(items, j + 1, l) || (items[j].Opened? && items[j].level <= l);
    }
  }

  lemma {:induction false} NodesAppendOpened(items: seq<Item>, x: Item, n: nat)
    requires x.Opened? && n <= |items|
    ensures NodesUpTo(items + [x], n) == NodesUpTo(items, n)
  {
    if n > 0 {
      NodesAppendOpened(items, x, n - 1);
      if items[n - 1].Opened? { RecordsFromOpened(items, x, n, items[n - 1].level); }
    }
  }

  /** The most recent node at depth `l` has only deeper ones after it. */
  ghost predicate HasOwner(ns: seq<Node>, l: nat) {
    Spine(ns, l).Some? && forall j :: Spine(ns, l).value < j < |ns| ==> ns[j].level > l
  }

  lemma AddRecordSnoc(ns: seq<Node>, n: Node, l: nat, r: Record)
    ensures n.level == l ==> AddRecord(ns + [n], l, r) == ns + [n.(records := n.records + [r])]
    ensures n.level != l ==> AddRecord(ns + [n], l, r) == AddRecord(ns, l, r) + [n]
    ensures n.level > l && HasOwner(ns + [n], l) ==> HasOwner(ns, l)
    ensures HasOwner(ns + [n], l) ==> n.level >= l
  {
    assert (ns + [n])[..|ns|] == ns;
  }

  lemma {:induction false} NodesAppendLogged(items: seq<Item>, x: Item, n: nat)
    requires x.Logged? && n <= |items|
    requires !Closed(items, n, x.level) ==> HasOwner(NodesUpTo(items, n), x.level)
    ensures NodesUpTo(items + [x], n)
         == if Closed(items, n, x.level) then NodesUpTo(items, n) else AddRecord(NodesUpTo(items, n), x.level, x.record)
  {
    hide AddRecord, HasOwner, Spine, RecordsFrom;
    var l, r := x.level, x.record;
    if n == 0 {
      if !Closed(items, n, l) { NoOwner(l); }
    } else {
      assert Closed(items, n - 1, l) <==> Closed(items, n, l) || (items[n - 1].Opened? && items[n - 1].level <= l);
      if items[n - 1].Opened? {
        var node := NodeFor(items, n - 1);
        AddRecordSnoc(NodesUpTo(items, n - 1), node, l, r);
        RecordsFromLogged(items, x, n, items[n - 1].level);
        assert items[n - 1].level == l || NodeFor(items + [x], n - 1) == node;
      }
      NodesAppendLogged(items, x, n - 1);
    }
  }

  lemma NoOwner(l: nat)
    ensures !HasOwner([], l)
  {
  }

  lemma {:induction false} SpineShift(a: seq<Node>, g: Group, l: nat)
    requires Spine(g, l).Some?
    ensures Spine(a + g, l) == Some(|a| + Spine(g, l).value)
    decreases |g|
  {
    if g[|g| - 1].level != l {
      assert (a + g)[..|a + g| - 1] == a + g[..|g| - 1];
      SpineShift(a, g[..|g| - 1], l);
    }
  }

  lemma OwnerInPending(a: seq<Node>, g: Group, l: nat, r: Record)
    requires WellLevelled(g) && 1 <= l <= Depth(g)
    ensures HasOwner(a + g, l) && AddRecord(a + g, l, r) == a + AddRecord(g, l, r)
  {
    SpineExists(g, l);
    SpineShift(a, g, l);
  }

  // ----- the theorem -----

  ghost predicate Agrees(lines: seq<Line>) {
    var p := After(lines);
    && WellLevelled(p.pending) && Depth(p.pending) == DepthAfter(lines)
    && AllNodes(p) == NodesOf(Items(lines))
  }

  lemma AgreesAfterRecord(items: seq<Item>, a: seq<Node>, g: Group, x: Item)
    requires x.Logged? && WellLevelled(g) && 1 <= x.level <= Depth(g) && a + g == NodesOf(items)
    ensures a + AddRecord(g, x.level, x.record) == NodesOf(items + [x])
  {
    hide AddRecord, HasOwner, NodesUpTo;
    OwnerInPending(a, g, x.level, x.record);
    NodesAppendLogged(items, x, |items|);
    LoggedAddsNoNode(items, x);
  }

  lemma LoggedAddsNoNode(items: seq<Item>, x: Item)
    requires x.Logged?
    ensures NodesOf(items + [x]) == NodesUpTo(items + [x], |items|)
  {
  }

  lemma AgreesAfterHeader(items: seq<Item>, a: seq<Node>, x: Item)
    requires x.Opened? && a == NodesOf(items)
    ensures a + [Node(x.level, x.kind, x.vxid, [])] == NodesOf(items + [x])
  {
    NodesAppendOpened(items, x, |items|);
    assert RecordsFrom(items + [x], |items| + 1, x.level) == [];
  }

  lemma {:induction false} StepAgrees(lines: seq<Line>, line: Line)
    requires Agrees(lines) && Leveled(line)
    ensures Agrees(lines + [line])
  {
    hide NodesOf, AddRecord;
    var all, p, items := lines + [line], After(lines), Items(lines);
    assert all[..|lines|] == lines;
    FeedWellLevelled(p.pending, line);
    FlattenSnoc(p.done, p.pending);
    match line {
      case Blank =>
        assert AllNodes(After(all)) == AllNodes(p);
      case Header(l, k, v) =>
        var n := Node(l, k, v, []);
        if l == 1 || l <= Depth(p.pending) + 1 {
          AgreesAfterHeader(items, AllNodes(p), Opened(l, k, v));
          assert AllNodes(After(all)) == AllNodes(p) + [n];
        }
      case Entry(l, r) =>
        if l <= Depth(p.pending) {
          AgreesAfterRecord(items, Flatten(p.done), p.pending, Logged(l, r));
          RecordKeepsDepth(p.pending, l, r);
        }
      case Junk =>
    }
  }

  lemma RecordKeepsDepth(g: Group, l: nat, r: Record)
    ensures Depth(AddRecord(g, l, r)) == Depth(g)
  {
  }

  /**
   Every line stream: the nodes of the groups completed and pending are the accepted headers in
   order, each with exactly its own records; everything else leaves no trace.
   */
  lemma {:induction false} NodesAreAcceptedLines(lines: seq<Line>)
    requires forall i :: 0 <= i < |lines| ==> Leveled(lines[i])
    ensures Agrees(lines)
  {
    hide Agrees;
    if lines == [] {
      NothingAgrees();
    } else {
      var init := lines[..|lines| - 1];
      NodesAreAcceptedLines(init);
      StepAgrees(init, lines[|lines| - 1]);
      assert init + [lines[|lines| - 1]] == lines;
    }
  }

  lemma NothingAgrees()
    ensures Agrees([])
  {
  }

  function CountTop(lines: seq<Line>): nat {
    if lines == [] then 0
    else CountTop(lines[..|lines| - 1]) + if lines[|lines| - 1].Header? && lines[|lines| - 1].level == 1 then 1 else 0
  }

  /** One group per top-level header, completed or still pending. */
  lemma {:induction false} OneGroupPerTopHeader(lines: seq<Line>)
    requires forall i :: 0 <= i < |lines| ==> Leveled(lines[i])
    ensures |After(lines).done| + (if After(lines).pending == [] then 0 else 1) == CountTop(lines)
  {
    hide Spine;
    if lines != [] {
      var init := lines[..|lines| - 1];
      OneGroupPerTopHeader(init);
    }
  }

  // ----- the same groups as the parser returns -----

  function Classified(text: seq<string>): (r: seq<Line>)
    ensures |r| == |text| && forall i :: 0 <= i < |text| ==> r[i] == Classify(text[i])
  {
    seq(|text|, i requires 0 <= i < |text| => Classify(text[i]))
  }

  lemma {:induction false} PrefixOfGroups(text: seq<string>, n: nat)
    requires n <= |text|
    ensures var p := After(Classified(text[..n]));
      p.done + Groups(p.pending, text, n) == Groups([], text, 0)
  {
    hide Classify, Feed;
    if n == 0 {
      assert Classified(text[..0]) == [];
      assert [] + Groups([], text, 0) == Groups([], text, 0);
    } else {
      PrefixOfGroups(text, n - 1);
      var before := After(Classified(text[..n - 1]));
      assert Classified(text[..n])[..n - 1] == Classified(text[..n - 1]);
      var (next, out) := Feed(before.pending, Classify(text[n - 1]));
      if out.Some? {
        assert before.done + ([out.value] + Groups(next, text, n)) == before.done + [out.value] + Groups(next, text, n);
      }
    }
  }

  /**
   The groups `Next` returns until the end of the input: one per top-level header, and together
   exactly the accepted headers and records of the text.
   */
  lemma ReturnedGroups(text: seq<string>)
    ensures Flatten(Groups([], text, 0)) == NodesOf(Items(Classified(text)))
    ensures |Groups([], text, 0)| == CountTop(Classified(text))
  {
    hide Classify, Feed, NodesOf, Items, After, CountTop;
    var lines := Classified(text);
    assert text[..|text|] == text;
    PrefixOfGroups(text, |text|);
    NodesAreAcceptedLines(lines);
    OneGroupPerTopHeader(lines);
    var p := After(lines);
    if p.pending == [] {
      assert p.done + [] == p.done && AllNodes(p) == Flatten(p.done);
    } else {
      FlattenSnoc(p.done, p.pending);
    }
  }
}
