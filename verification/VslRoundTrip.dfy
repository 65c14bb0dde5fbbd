/** Printing a forest of transactions and parsing it back gives the same forest. */
module VslRoundTrip {
  import opened Text
  import opened Vsl
  import opened VslLines
  import opened VslGroups
  import opened VslParser

  // ----- a tree as a group -----

  function FlatTree(t: Tx, l: nat): Group
    decreases t, 1
  {
    [Node(l, t.kind, t.vxid, t.records)] + FlatList(t.children, l + 1)
  }

  function FlatList(ts: seq<Tx>, l: nat): Group
    decreases ts, 0
  {
    if ts == [] then [] else FlatTree(ts[0], l) + FlatList(ts[1..], l)
  }

  lemma {:induction false} TreeLevels(t: Tx, l: nat, i: nat)
    requires i < |FlatTree(t, l)|
    ensures FlatTree(t, l)[i].level >= l && (i > 0 ==> FlatTree(t, l)[i].level > l)
    decreases t, 1
  {
    if i > 0 { ListLevels(t.children, l + 1, i - 1); }
  }

  lemma {:induction false} ListLevels(ts: seq<Tx>, l: nat, i: nat)
    requires i < |FlatList(ts, l)|
    ensures FlatList(ts, l)[i].level >= l
    decreases ts, 0
  {
    var n := |FlatTree(ts[0], l)|;
    if i < n { TreeLevels(ts[0], l, i); } else { ListLevels(ts[1..], l, i - n); }
  }

  lemma {:induction false} SkipDeep(g: Group, j: nat, k: nat, l: nat)
    requires j <= k <= |g| && forall i :: j <= i < k ==> g[i].level > l + 1
    ensures KidsFrom(g, j, l) == KidsFrom(g, k, l)
    decreases k - j
  {
    if j < k { SkipDeep(g, j + 1, k, l); }
  }

  ghost predicate Closes(post: Group, l: nat) { post == [] || post[0].level <= l }

  /** The tree read off a group at the position where a printed tree starts is that tree. */
  lemma {:induction false} TreeOfFlat(pre: Group, t: Tx, l: nat, post: Group)
    requires Closes(post, l)
    ensures TreeAt(pre + FlatTree(t, l) + post, |pre|) == t
    decreases t, 1
  {
    hide KidsFrom;
    var g := pre + FlatTree(t, l) + post;
    var head := Node(l, t.kind, t.vxid, t.records);
    assert FlatTree(t, l) == [head] + FlatList(t.children, l + 1);
    assert g == (pre + [head]) + FlatList(t.children, l + 1) + post;
    assert g[|pre|] == head;
    TreesOfFlat(pre + [head], t.children, l, post);
    assert TreesAt(g, |pre|, Kids(g, |pre|)) == t.children;
  }

  /** The same for the list of children below depth `l`. */
  lemma {:induction false} TreesOfFlat(pre: Group, ts: seq<Tx>, l: nat, post: Group)
    requires Closes(post, l)
    ensures var g := pre + FlatList(ts, l + 1) + post;
      var ks := KidsFrom(g, |pre|, l);
      |ks| == |ts| && forall i :: 0 <= i < |ts| ==> TreeAt(g, ks[i]) == ts[i]
    decreases ts, 0
  {
    hide TreeAt, FlatTree;
    var g := pre + FlatList(ts, l + 1) + post;
    if ts == [] {
      assert FlatList(ts, l + 1) == [] && g == pre + post;
    } else {
      var c, rest, n := ts[0], ts[1..], |FlatTree(ts[0], l + 1)|;
      var flat, more := FlatTree(c, l + 1), FlatList(rest, l + 1);
      assert g == pre + flat + (more + post) && g == (pre + flat) + more + post;
      assert Closes(more + post, l + 1) by { MoreCloses(rest, l + 1, post); }
      TreeOfFlat(pre, c, l + 1, more + post);
      TreesOfFlat(pre + flat, rest, l, post);
      FirstKid(pre, c, l, more + post);
    }
  }

  lemma FirstKid(pre: Group, c: Tx, l: nat, tail: Group)
    ensures var g := pre + FlatTree(c, l + 1) + tail;
      KidsFrom(g, |pre|, l) == [|pre|] + KidsFrom(g, |pre| + |FlatTree(c, l + 1)|, l)
  {
    var flat := FlatTree(c, l + 1);
    var g, n := pre + flat + tail, |flat|;
    forall i | |pre| + 1 <= i < |pre| + n ensures g[i].level > l + 1 {
      TreeLevels(c, l + 1, i - |pre|);
      assert g[i] == flat[i - |pre|];
    }
    SkipDeep(g, |pre| + 1, |pre| + n, l);
    assert g[|pre|] == flat[0];
  }

  lemma MoreCloses(rest: seq<Tx>, l: nat, post: Group)
    requires Closes(post, l)
    ensures Closes(FlatList(rest, l) + post, l)
  {
    if rest == [] {
      assert FlatList(rest, l) + post == post;
    } else {
      assert FlatTree(rest[0], l)[0].level == l;
    }
  }

  // ----- a tree as lines -----

  const GAP := " "

  function PrintRecords(rs: seq<Record>, l: nat): (r: seq<string>)
    ensures |r| == |rs| && forall i :: 0 <= i < |rs| ==> r[i] == RecordLine(l, rs[i], GAP, GAP)
  {
    seq(|rs|, i requires 0 <= i < |rs| => RecordLine(l, rs[i], GAP, GAP))
  }

  function PrintHeader(t: Tx, l: nat): string { HeaderLine(l, t.kind, t.vxid, GAP, GAP, GAP, GAP, "") }

  function PrintTree(t: Tx, l: nat): seq<string>
    decreases t, 1
  {
    [PrintHeader(t, l)] + PrintRecords(t.records, l) + PrintList(t.children, l + 1)
  }

  function PrintList(ts: seq<Tx>, l: nat): seq<string>
    decreases ts, 0
  {
    if ts == [] then [] else PrintTree(ts[0], l) + PrintList(ts[1..], l)
  }

  /** Top-level trees, each followed by a blank line. */
  function PrintForest(ts: seq<Tx>): seq<string> {
    if ts == [] then [] else PrintTree(ts[0], 1) + [""] + PrintForest(ts[1..])
  }

  ghost predicate WellFormed(t: Tx) {
    && IsKind(t.kind) && t.vxid < UINT64_LIMIT
    && (forall i :: 0 <= i < |t.records| ==> IsPrintable(t.records[i]))
    && forall i :: 0 <= i < |t.children| ==> WellFormed(t.children[i])
  }

  // ----- reading the lines -----

  lemma HeaderReads(t: Tx, l: nat)
    requires WellFormed(t) && l >= 1
    ensures Classify(PrintHeader(t, l)) == Header(l, t.kind, t.vxid)
  {
    hide Classify, HeaderLine;
    ClassifyHeader(l, t.kind, t.vxid, GAP, GAP, GAP, GAP, "");
  }

  lemma RecordReads(r: Record, l: nat)
    requires IsPrintable(r) && l >= 1
    ensures Classify(RecordLine(l, r, GAP, GAP)) == Entry(l, r)
  {
    hide Classify, RecordLine;
    ClassifyRecord(l, r, GAP, GAP);
  }

  /** Reading on: from `pos` with `g` pending, the input continues as from `pos'` with `g'` pending. */
  ghost predicate ReadsTo(lines: seq<string>, g: Group, pos: nat, g': Group, pos': nat) {
    pos <= pos' <= |lines| && Groups(g, lines, pos) == Groups(g', lines, pos')
  }

  lemma OneLine(lines: seq<string>, g: Group, pos: nat)
    requires pos < |lines| && Feed(g, Classify(lines[pos])).1.None?
    ensures ReadsTo(lines, g, pos, Feed(g, Classify(lines[pos])).0, pos + 1)
  {
    hide Classify, Feed;
  }

  /** `part` is what stands in `lines` from `pos` on. */
  ghost predicate Stands(lines: seq<string>, pos: nat, part: seq<string>) {
    pos + |part| <= |lines| && lines[pos..pos + |part|] == part
  }

  lemma StandsSplit(lines: seq<string>, pos: nat, a: seq<string>, b: seq<string>)
    requires Stands(lines, pos, a + b)
    ensures Stands(lines, pos, a) && Stands(lines, pos + |a|, b)
  {
    assert lines[pos..pos + |a|] == (a + b)[..|a|] && lines[pos + |a|..pos + |a| + |b|] == (a + b)[|a|..];
  }

  lemma StandsBound(lines: seq<string>, pos: nat, part: seq<string>)
    requires Stands(lines, pos, part)
    ensures pos + |part| <= |lines|
  {
  }

  lemma LastTakesRecord(g: Group, n: Node, r: Record)
    ensures AddRecord(g + [n], n.level, r) == g + [n.(records := n.records + [r])]
  {
  }

  lemma StandsHead(lines: seq<string>, pos: nat, x: string, rest: seq<string>)
    requires Stands(lines, pos, [x] + rest)
    ensures pos < |lines| && lines[pos] == x && Stands(lines, pos + 1, rest)
  {
    StandsSplit(lines, pos, [x], rest);
    assert lines[pos] == lines[pos..pos + 1][0];
  }

  lemma ReadOneRecord(lines: seq<string>, pos: nat, g: Group, n: Node, r: Record)
    requires n.level >= 1 && IsPrintable(r) && pos < |lines| && lines[pos] == RecordLine(n.level, r, GAP, GAP)
    ensures ReadsTo(lines, g + [n], pos, g + [n.(records := n.records + [r])], pos + 1)
  {
    hide Classify, RecordLine, ReadsTo, IsPrintable, AddRecord;
    RecordReads(r, n.level);
    LastTakesRecord(g, n, r);
    OneLine(lines, g + [n], pos);
  }

  lemma PrintRecordsCons(rs: seq<Record>, l: nat)
    requires rs != []
    ensures PrintRecords(rs, l) == [RecordLine(l, rs[0], GAP, GAP)] + PrintRecords(rs[1..], l)
  {
    hide RecordLine;
  }

  lemma ReadsOn(lines: seq<string>, g: Group, pos: nat, g': Group, pos': nat, g'': Group, pos'': nat)
    requires ReadsTo(lines, g, pos, g', pos') && ReadsTo(lines, g', pos', g'', pos'')
    ensures ReadsTo(lines, g, pos, g'', pos'')
  {
    hide Groups;
  }

  lemma {:induction false} ReadRecords(lines: seq<string>, pos: nat, g: Group, n: Node, rs: seq<Record>)
    requires n.level >= 1 && Stands(lines, pos, PrintRecords(rs, n.level))
    requires forall i :: 0 <= i < |rs| ==> IsPrintable(rs[i])
    ensures ReadsTo(lines, g + [n], pos, g + [n.(records := n.records + rs)], pos + |rs|)
    decreases |rs|
  {
    hide RecordLine, Groups, IsPrintable, Stands, PrintRecords;
    if rs == [] {
      StandsBound(lines, pos, PrintRecords(rs, n.level));
      assert n.records + rs == n.records;
    } else {
      var r, l := rs[0], n.level;
      PrintRecordsCons(rs, l);
      StandsHead(lines, pos, RecordLine(l, r, GAP, GAP), PrintRecords(rs[1..], l));
      ReadOneRecord(lines, pos, g, n, r);
      var m := n.(records := n.records + [r]);
      ReadRecords(lines, pos + 1, g, m, rs[1..]);
      assert m.records + rs[1..] == n.records + rs;
      ReadsOn(lines, g + [n], pos, g + [m], pos + 1, g + [n.(records := n.records + rs)], pos + |rs|);
    }
  }

  /** A header of depth `l` is accepted with `g` pending and completes nothing. */
  ghost predicate Accepts(g: Group, l: nat) { if g == [] then l == 1 else 2 <= l <= Depth(g) + 1 }

  lemma FlatDepth(t: Tx, l: nat, g: Group)
    ensures Depth(g + FlatTree(t, l)) >= l
  {
    var f := FlatTree(t, l);
    TreeLevels(t, l, |f| - 1);
    assert (g + f)[|g + f| - 1] == f[|f| - 1];
  }

  lemma {:induction false} ReadTree(lines: seq<string>, pos: nat, g: Group, t: Tx, l: nat)
    requires WellFormed(t) && Accepts(g, l) && Stands(lines, pos, PrintTree(t, l))
    ensures ReadsTo(lines, g, pos, g + FlatTree(t, l), pos + |PrintTree(t, l)|)
    decreases t, 1
  {
    hide Classify, HeaderLine, Groups, IsKind, IsPrintable;
    var n := Node(l, t.kind, t.vxid, []);
    var head, recs, kids := [PrintHeader(t, l)], PrintRecords(t.records, l), PrintList(t.children, l + 1);
    hide Stands;
    StandsSplit(lines, pos, head + recs, kids);
    StandsHead(lines, pos, PrintHeader(t, l), recs);
    HeaderReads(t, l);
    OneLine(lines, g, pos);
    assert Feed(g, Header(l, t.kind, t.vxid)).0 == g + [n];
    ReadRecords(lines, pos + 1, g, n, t.records);
    var full := Node(l, t.kind, t.vxid, t.records);
    assert [] + t.records == t.records;
    ReadTrees(lines, pos + 1 + |recs|, g + [full], t.children, l + 1);
    assert g + [full] + FlatList(t.children, l + 1) == g + FlatTree(t, l);
  }

  lemma {:induction false} ReadTrees(lines: seq<string>, pos: nat, g: Group, ts: seq<Tx>, l: nat)
    requires forall i :: 0 <= i < |ts| ==> WellFormed(ts[i])
    requires g != [] && 2 <= l <= Depth(g) + 1 && Stands(lines, pos, PrintList(ts, l))
    ensures ReadsTo(lines, g, pos, g + FlatList(ts, l), pos + |PrintList(ts, l)|)
    decreases ts, 0
  {
    hide Classify, Groups, WellFormed, Stands, FlatTree, PrintTree;
    if ts == [] {
      assert FlatList(ts, l) == [] && PrintList(ts, l) == [] && g + FlatList(ts, l) == g;
      StandsBound(lines, pos, []);
    } else {
      var c, rest := ts[0], ts[1..];
      StandsSplit(lines, pos, PrintTree(c, l), PrintList(rest, l));
      ReadTree(lines, pos, g, c, l);
      FlatDepth(c, l, g);
      ReadTrees(lines, pos + |PrintTree(c, l)|, g + FlatTree(c, l), rest, l);
      assert g + FlatTree(c, l) + FlatList(rest, l) == g + FlatList(ts, l);
    }
  }

  function FlatForest(ts: seq<Tx>): (r: seq<Group>)
    ensures |r| == |ts| && forall i :: 0 <= i < |ts| ==> r[i] == FlatTree(ts[i], 1)
  {
    seq(|ts|, i requires 0 <= i < |ts| => FlatTree(ts[i], 1))
  }

  lemma BlankReads()
    ensures Classify("") == Blank
  {
  }

  lemma BlankCompletes(lines: seq<string>, g: Group, pos: nat)
    requires pos < |lines| && Classify(lines[pos]) == Blank && g != []
    ensures Groups(g, lines, pos) == [g] + Groups([], lines, pos + 1)
  {
    hide Classify;
  }

  lemma {:induction false} ReadForest(lines: seq<string>, pos: nat, ts: seq<Tx>)
    requires forall i :: 0 <= i < |ts| ==> WellFormed(ts[i])
    requires Stands(lines, pos, PrintForest(ts)) && pos + |PrintForest(ts)| == |lines|
    ensures Groups([], lines, pos) == FlatForest(ts)
    decreases |ts|
  {
    hide Classify, WellFormed;
    if ts == [] {
      NoGroups(lines);
    } else {
      var t, n := ts[0], |PrintTree(ts[0], 1)|;
      hide Stands, Groups, FlatTree, PrintTree;
      StandsSplit(lines, pos, PrintTree(t, 1) + [""], PrintForest(ts[1..]));
      StandsSplit(lines, pos, PrintTree(t, 1), [""]);
      assert [""] + [] == [""];
      StandsHead(lines, pos + n, "", []);
      ReadTree(lines, pos, [], t, 1);
      FlatNonEmpty(t, 1);
      assert [] + FlatTree(t, 1) == FlatTree(t, 1);
      BlankReads();
      BlankCompletes(lines, FlatTree(t, 1), pos + n);
      ReadForest(lines, pos + n + 1, ts[1..]);
      assert FlatForest(ts) == [FlatTree(t, 1)] + FlatForest(ts[1..]);
    }
  }

  /** Printing any forest of well-formed trees and reading it group by group returns exactly that forest. */
  lemma PrintParseRoundTrip(ts: seq<Tx>)
    requires forall i :: 0 <= i < |ts| ==> WellFormed(ts[i])
    ensures var gs := Groups([], PrintForest(ts), 0);
      |gs| == |ts| && forall i :: 0 <= i < |ts| ==> gs[i] != [] && TreeOf(gs[i]) == ts[i]
  {
    hide Groups, WellFormed, TreeAt, FlatTree;
    var lines := PrintForest(ts);
    assert lines[0..|lines|] == lines;
    ReadForest(lines, 0, ts);
    forall i | 0 <= i < |ts| ensures FlatTree(ts[i], 1) != [] && TreeOf(FlatTree(ts[i], 1)) == ts[i] {
      FlatNonEmpty(ts[i], 1);
      TreeOfFlat([], ts[i], 1, []);
      assert [] + FlatTree(ts[i], 1) + [] == FlatTree(ts[i], 1);
    }
  }

  /** The parser on the text of any such forest: the objects it hands out unfold to the trees that were printed. */
  method ReadPrinted(ts: seq<Tx>) returns (txs: seq<TxNode>)
    requires forall i :: 0 <= i < |ts| ==> WellFormed(ts[i])
    ensures |txs| == |ts| && forall k :: 0 <= k < |ts| ==> Unfolds(txs[k], ts[k])
  {
    hide Groups, WellFormed, TreeAt, Represents, Unfolds;
    var p := new Parser(PrintForest(ts), false);
    PrintParseRoundTrip(ts);
    ghost var objects;
    txs, objects := ReadAll(p);
    forall k | 0 <= k < |ts| ensures Unfolds(txs[k], ts[k]) {
      RepresentsUnfolds(objects[k], Groups([], PrintForest(ts), 0)[k], 0);
    }
  }

  lemma FlatNonEmpty(t: Tx, l: nat)
    ensures FlatTree(t, l) != []
  {
  }
}
