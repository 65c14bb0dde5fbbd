/**
 The shape of a built span list, stated over the paths of the transaction tree: which
 nodes appear, in which order, under which parent, with which retry ordinal and ids.
 */
module SpanShape {
  import opened Traceparents
  import opened Vsl
  import opened Spans

  /** Child positions from the top transaction down. */
  type Path = seq<nat>

  predicate Valid(tx: Tx, p: Path) {
    p == [] || (p[0] < |tx.children| && Valid(tx.children[p[0]], p[1..]))
  }

  function NodeAt(tx: Tx, p: Path): Tx
    requires Valid(tx, p)
  {
    if p == [] then tx else NodeAt(tx.children[p[0]], p[1..])
  }

  /** Pre-order: a node before what is below it, siblings left to right. */
  predicate Before(p: Path, q: Path) {
    if p == [] then q != []
    else q != [] && (p[0] < q[0] || (p[0] == q[0] && Before(p[1..], q[1..])))
  }

  ghost predicate Ascending(ps: seq<Path>) {
    forall i, j :: 0 <= i < j < |ps| ==> Before(ps[i], ps[j])
  }

  /** Every node on the way down, the last included and the top excluded, yields a span. */
  predicate Visible(read: EpochReader, tx: Tx, p: Path) {
    Valid(tx, p) &&
    (p == [] || (Usable(read, tx.children[p[0]]) && Visible(read, tx.children[p[0]], p[1..])))
  }

  // ----- the paths in walking order -----

  function Below(k: nat, ps: seq<Path>): (r: seq<Path>)
    ensures |r| == |ps| && forall i :: 0 <= i < |ps| ==> r[i] == [k] + ps[i]
  {
    seq(|ps|, i requires 0 <= i < |ps| => [k] + ps[i])
  }

  function NodePaths(read: EpochReader, tx: Tx): seq<Path>
    decreases tx, 1
  {
    [[]] + ListPaths(read, tx.children)
  }

  function ListPaths(read: EpochReader, txs: seq<Tx>): seq<Path>
    decreases txs, 0
  {
    if txs == [] then []
    else
      var k := |txs| - 1;
      ListPaths(read, txs[..k]) + if Usable(read, txs[k]) then Below(k, NodePaths(read, txs[k])) else []
  }

  /** The paths listed for `txs` are exactly the visible ones. */
  ghost predicate ListsVisible(read: EpochReader, txs: seq<Tx>) {
    forall p :: p in ListPaths(read, txs) <==>
      p != [] && p[0] < |txs| && Usable(read, txs[p[0]]) && Visible(read, txs[p[0]], p[1..])
  }

  lemma BelowMember(k: nat, ps: seq<Path>, p: Path)
    ensures p in Below(k, ps) <==> p != [] && p[0] == k && p[1..] in ps
  {
    if p != [] && p[0] == k && p[1..] in ps {
      var i :| 0 <= i < |ps| && ps[i] == p[1..];
      assert Below(k, ps)[i] == [k] + p[1..] == p;
    }
  }

  lemma {:induction false} NodePathsVisible(read: EpochReader, tx: Tx)
    ensures forall p :: p in NodePaths(read, tx) <==> Visible(read, tx, p)
    decreases tx, 1
  {
    ListPathsVisible(read, tx.children);
    forall p ensures p in NodePaths(read, tx) <==> Visible(read, tx, p) {
      assert p in [[]] <==> p == [];
    }
  }

  lemma {:induction false} ListPathsVisible(read: EpochReader, txs: seq<Tx>)
    ensures ListsVisible(read, txs)
    decreases txs, 0
  {
    if txs != [] {
      var k := |txs| - 1;
      ListPathsVisible(read, txs[..k]);
      NodePathsVisible(read, txs[k]);
      forall p
        ensures p in ListPaths(read, txs) <==>
          p != [] && p[0] < |txs| && Usable(read, txs[p[0]]) && Visible(read, txs[p[0]], p[1..])
      {
        BelowMember(k, NodePaths(read, txs[k]), p);
      }
    }
  }

  lemma {:induction false} NodePathsAscend(read: EpochReader, tx: Tx)
    ensures Ascending(NodePaths(read, tx))
    decreases tx, 1
  {
    hide Usable, Visible;
    ListPathsAscend(read, tx.children);
    ListPathsVisible(read, tx.children);
    var ps := ListPaths(read, tx.children);
    forall i, j | 0 <= i < j < |NodePaths(read, tx)| ensures Before(NodePaths(read, tx)[i], NodePaths(read, tx)[j]) {
      assert ps[j - 1] in ps;
      if i > 0 { assert Before(ps[i - 1], ps[j - 1]); }
    }
  }

  lemma BelowAscends(k: nat, ps: seq<Path>)
    requires Ascending(ps)
    ensures Ascending(Below(k, ps))
  {
    forall i, j | 0 <= i < j < |ps| ensures Before(Below(k, ps)[i], Below(k, ps)[j]) {
      assert ([k] + ps[i])[1..] == ps[i] && ([k] + ps[j])[1..] == ps[j];
    }
  }

  lemma {:induction false} ListPathsAscend(read: EpochReader, txs: seq<Tx>)
    ensures Ascending(ListPaths(read, txs))
    decreases txs, 0
  {
    if txs != [] {
      var k := |txs| - 1;
      ListPathsAscend(read, txs[..k]);
      if Usable(read, txs[k]) {
        NodePathsAscend(read, txs[k]);
        BelowAscends(k, NodePaths(read, txs[k]));
        ListPathsVisible(read, txs[..k]);
        AscendingAppend(ListPaths(read, txs[..k]), Below(k, NodePaths(read, txs[k])), k);
      }
    }
  }

  lemma AscendingAppend(a: seq<Path>, b: seq<Path>, k: nat)
    requires Ascending(a) && Ascending(b)
    requires forall p :: p in a ==> p != [] && p[0] < k
    requires forall i :: 0 <= i < |b| ==> b[i] != [] && b[i][0] == k
    ensures Ascending(a + b)
  {
    forall i, j | 0 <= i < j < |a + b| ensures Before((a + b)[i], (a + b)[j]) {
      if i < |a| <= j { assert a[i] in a; }
    }
  }

  // ----- the span at each path -----

  /** Number of ids drawn before the node at `p`, when `n` were drawn before `tx`. */
  function DrawnAt(w: Walk, tx: Tx, n: nat, p: Path): nat
    requires Valid(tx, p)
    decreases p
  {
    if p == [] then n
    else DrawnAt(w, tx.children[p[0]], AfterOwn(w, tx, n) + ListDraws(w, tx.children[..p[0]]), p[1..])
  }

  function IdAt(w: Walk, tx: Tx, n: nat, p: Path): SpanId
    requires Valid(tx, p)
  {
    IdOf(w, NodeAt(tx, p), DrawnAt(w, tx, n, p))
  }

  function DepthAt(tx: Tx, depth: nat, p: Path): nat
    requires Valid(tx, p)
    decreases p
  {
    if p == [] then depth else DepthAt(tx.children[p[0]], NextDepth(tx, depth), p[1..])
  }

  lemma {:induction false} ParentValid(tx: Tx, p: Path)
    requires Valid(tx, p) && p != []
    ensures Valid(tx, p[..|p| - 1])
    decreases p
  {
    if |p| > 1 {
      ParentValid(tx.children[p[0]], p[1..]);
      assert p[..|p| - 1][1..] == p[1..][..|p| - 2];
    }
  }

  function ParentAt(w: Walk, tx: Tx, parent: SpanId, n: nat, p: Path): SpanId
    requires Valid(tx, p)
  {
    if p == [] then parent else
      ParentValid(tx, p);
      IdAt(w, tx, n, p[..|p| - 1])
  }

  /** The span a visible node below the top yields. */
  function SpanAt(w: Walk, tx: Tx, parent: SpanId, depth: nat, n: nat, p: Path): Span
    requires Valid(tx, p) && Usable(w.read, NodeAt(tx, p))
  {
    NodeSpan(w, NodeAt(tx, p), ParentAt(w, tx, parent, n, p), DepthAt(tx, depth, p), IdAt(w, tx, n, p))
  }

  lemma {:induction false} NodeCount(w: Walk, tx: Tx, parent: SpanId, depth: nat, n: nat)
    requires Usable(w.read, tx)
    ensures |NodeSpans(w, tx, parent, depth, n)| == |NodePaths(w.read, tx)|
    decreases tx, 1
  {
    hide Usable, NodeSpan, IdOf, NextDepth, AfterOwn, ListDraws;
    ListCount(w, tx.children, IdOf(w, tx, n), NextDepth(tx, depth), AfterOwn(w, tx, n));
  }

  lemma {:induction false} ListCount(w: Walk, txs: seq<Tx>, parent: SpanId, depth: nat, n: nat)
    ensures |ListSpans(w, txs, parent, depth, n)| == |ListPaths(w.read, txs)|
    decreases txs, 0
  {
    hide Usable, NodeSpan, IdOf, NextDepth, AfterOwn, ListDraws;
    if txs != [] {
      var k := |txs| - 1;
      ListCount(w, txs[..k], parent, depth, n);
      if Usable(w.read, txs[k]) { NodeCount(w, txs[k], parent, depth, n + ListDraws(w, txs[..k])); }
    }
  }

  /** The `i`-th span of a list of siblings is the one its path says. */
  ghost predicate ListSpanIs(w: Walk, txs: seq<Tx>, parent: SpanId, depth: nat, n: nat, i: nat)
    requires i < |ListPaths(w.read, txs)| == |ListSpans(w, txs, parent, depth, n)|
  {
    var p := ListPaths(w.read, txs)[i];
    && p != [] && p[0] < |txs| && Visible(w.read, txs[p[0]], p[1..])
    && Usable(w.read, NodeAt(txs[p[0]], p[1..]))
    && ListSpans(w, txs, parent, depth, n)[i]
         == SpanAt(w, txs[p[0]], parent, depth, n + ListDraws(w, txs[..p[0]]), p[1..])
  }

  /** A usable node's paths and spans: its own first, then those of its children. */
  lemma HeadAndList(w: Walk, tx: Tx, parent: SpanId, depth: nat, n: nat)
    requires Usable(w.read, tx)
    ensures NodePaths(w.read, tx) == [[]] + ListPaths(w.read, tx.children)
    ensures NodeSpans(w, tx, parent, depth, n)
         == [SpanAt(w, tx, parent, depth, n, [])]
            + ListSpans(w, tx.children, IdOf(w, tx, n), NextDepth(tx, depth), AfterOwn(w, tx, n))
  {
    hide Usable, NodeSpan, IdOf, Draws, NextDepth, AfterOwn, ListDraws, ListSpans, ListPaths;
  }

  lemma {:induction false} NodeSpanAt(w: Walk, tx: Tx, parent: SpanId, depth: nat, n: nat, i: nat)
    requires Usable(w.read, tx) && i < |NodePaths(w.read, tx)|
    ensures |NodeSpans(w, tx, parent, depth, n)| == |NodePaths(w.read, tx)|
    ensures var p := NodePaths(w.read, tx)[i];
      Visible(w.read, tx, p) && Usable(w.read, NodeAt(tx, p))
      && NodeSpans(w, tx, parent, depth, n)[i] == SpanAt(w, tx, parent, depth, n, p)
    decreases tx, 1
  {
    hide Usable, NodeSpan, IdOf, Draws, NextDepth, AfterOwn, ListDraws, SpanAt, ListSpans, ListPaths, NodeSpans,
         NodePaths;
    NodeCount(w, tx, parent, depth, n);
    HeadAndList(w, tx, parent, depth, n);
    if i > 0 {
      var id, d, m := IdOf(w, tx, n), NextDepth(tx, depth), AfterOwn(w, tx, n);
      ListCount(w, tx.children, id, d, m);
      ListSpanAt(w, tx.children, id, d, m, i - 1);
      ListPathsVisible(w.read, tx.children);
      var p := ListPaths(w.read, tx.children)[i - 1];
      assert p in ListPaths(w.read, tx.children);
      SpanStep(w, tx, parent, depth, n, p);
    }
  }

  /** One level down: the span at a path is the span at its tail below the first child taken. */
  lemma SpanStep(w: Walk, tx: Tx, parent: SpanId, depth: nat, n: nat, p: Path)
    requires p != [] && Valid(tx, p) && Usable(w.read, NodeAt(tx, p))
    ensures SpanAt(w, tx, parent, depth, n, p)
         == SpanAt(w, tx.children[p[0]], IdOf(w, tx, n), NextDepth(tx, depth),
                   AfterOwn(w, tx, n) + ListDraws(w, tx.children[..p[0]]), p[1..])
  {
    hide Usable, NodeSpan, IdOf, Draws, NextDepth, AfterOwn, ListDraws;
    ParentValid(tx, p);
    if |p| > 1 {
      ParentValid(tx.children[p[0]], p[1..]);
      assert p[..|p| - 1][1..] == p[1..][..|p| - 2];
    }
  }

  lemma {:induction false} ListSpanAt(w: Walk, txs: seq<Tx>, parent: SpanId, depth: nat, n: nat, i: nat)
    requires i < |ListPaths(w.read, txs)| == |ListSpans(w, txs, parent, depth, n)|
    ensures ListSpanIs(w, txs, parent, depth, n, i)
    decreases txs, 0
  {
    hide Usable, NodeSpan, IdOf, Draws, NextDepth, AfterOwn, ListDraws;
    var k := |txs| - 1;
    var ps := ListPaths(w.read, txs[..k]);
    ListCount(w, txs[..k], parent, depth, n);
    if i < |ps| {
      ListSpanAt(w, txs[..k], parent, depth, n, i);
      assert ps[i][0] < k && txs[..k][..ps[i][0]] == txs[..ps[i][0]];
    } else {
      var m := n + ListDraws(w, txs[..k]);
      NodeSpanAt(w, txs[k], parent, depth, m, i - |ps|);
      var q := NodePaths(w.read, txs[k])[i - |ps|];
      assert ([k] + q)[1..] == q;
    }
  }

  // ----- visibility as a condition on every ancestor -----

  /** Every node from the first step down to `p` itself yields a span. */
  ghost predicate AncestorsUsable(read: EpochReader, tx: Tx, p: Path) {
    Valid(tx, p) && forall k :: 1 <= k <= |p| ==> Valid(tx, p[..k]) && Usable(read, NodeAt(tx, p[..k]))
  }

  lemma {:induction false} VisibleIffAncestors(read: EpochReader, tx: Tx, p: Path)
    ensures Visible(read, tx, p) <==> AncestorsUsable(read, tx, p)
    decreases p
  {
    hide Usable;
    if p != [] && Valid(tx, p) {
      var c := tx.children[p[0]];
      VisibleIffAncestors(read, c, p[1..]);
      if Visible(read, tx, p) {
        forall k | 1 <= k <= |p| ensures Valid(tx, p[..k]) && Usable(read, NodeAt(tx, p[..k])) {
          assert p[..k][1..] == p[1..][..k - 1];
          if k == 1 { assert p[..1][1..] == []; }
        }
      }
      if AncestorsUsable(read, tx, p) {
        assert p[..1][1..] == [] && NodeAt(tx, p[..1]) == c;
        forall k | 1 <= k <= |p| - 1 ensures Valid(c, p[1..][..k]) && Usable(read, NodeAt(c, p[1..][..k])) {
          assert p[..k + 1][1..] == p[1..][..k];
        }
      }
    }
  }

  // ----- retry ordinals -----

  /** Number of fetches directly above `p`, up to the nearest request. */
  function RetryOrdinal(tx: Tx, p: Path): nat
    requires Valid(tx, p)
    decreases |p|
  {
    if p == [] then 0
    else
      ParentValid(tx, p);
      if NodeAt(tx, p[..|p| - 1]).kind == "BeReq" then 1 + RetryOrdinal(tx, p[..|p| - 1]) else 0
  }

  lemma {:induction false} DepthFromParent(tx: Tx, depth: nat, p: Path)
    requires Valid(tx, p) && p != []
    ensures Valid(tx, p[..|p| - 1])
    ensures DepthAt(tx, depth, p) == NextDepth(NodeAt(tx, p[..|p| - 1]), DepthAt(tx, depth, p[..|p| - 1]))
    decreases p
  {
    ParentValid(tx, p);
    if |p| > 1 {
      DepthFromParent(tx.children[p[0]], NextDepth(tx, depth), p[1..]);
      assert p[..|p| - 1][1..] == p[1..][..|p| - 2];
    }
  }

  lemma {:induction false} DepthIsRetryOrdinal(tx: Tx, p: Path)
    requires Valid(tx, p)
    ensures DepthAt(tx, 0, p) == RetryOrdinal(tx, p)
    decreases |p|
  {
    if p != [] {
      DepthFromParent(tx, 0, p);
      DepthIsRetryOrdinal(tx, p[..|p| - 1]);
    }
  }

  // ----- fresh ids -----

  lemma {:induction false} ListDrawsSplit(w: Walk, txs: seq<Tx>, k: nat)
    requires k < |txs|
    ensures ListDraws(w, txs[..k]) + NodeDraws(w, txs[k]) == ListDraws(w, txs[..k + 1]) <= ListDraws(w, txs)
    decreases |txs|
  {
    assert txs[..k + 1][..k] == txs[..k];
    if k == |txs| - 1 {
      assert txs[..k + 1] == txs;
    } else {
      ListDrawsSplit(w, txs[..|txs| - 1], k);
      assert txs[..|txs| - 1][..k] == txs[..k] && txs[..|txs| - 1][..k + 1] == txs[..k + 1];
    }
  }

  lemma {:induction false} ListDrawsMonotone(w: Walk, txs: seq<Tx>, j: nat, k: nat)
    requires j <= k <= |txs|
    ensures ListDraws(w, txs[..j]) <= ListDraws(w, txs[..k])
    decreases k - j
  {
    if j < k {
      ListDrawsSplit(w, txs, j);
      ListDrawsMonotone(w, txs, j + 1, k);
    }
  }

  /** The draws of a subtree lie inside the interval reserved for it. */
  lemma {:induction false} DrawnInside(w: Walk, tx: Tx, n: nat, p: Path)
    requires Visible(w.read, tx, p) && (p == [] ==> Usable(w.read, tx) || NodeDraws(w, tx) == 0)
    ensures n <= DrawnAt(w, tx, n, p)
    ensures Draws(w, NodeAt(tx, p)) && Usable(w.read, tx) ==> DrawnAt(w, tx, n, p) < n + NodeDraws(w, tx)
    decreases p
  {
    hide Usable, Draws;
    if p != [] {
      var k := p[0];
      DrawnInside(w, tx.children[k], AfterOwn(w, tx, n) + ListDraws(w, tx.children[..k]), p[1..]);
      ListDrawsSplit(w, tx.children, k);
    }
  }

  /** A later node never draws the number of an earlier one. */
  lemma {:induction false} DrawsDiffer(w: Walk, tx: Tx, n: nat, p: Path, q: Path)
    requires Visible(w.read, tx, p) && Visible(w.read, tx, q) && Before(p, q) && Draws(w, NodeAt(tx, p))
    ensures DrawnAt(w, tx, n, p) < DrawnAt(w, tx, n, q)
    decreases p
  {
    hide Usable, Draws, NodeDraws, ListDraws;
    var m := AfterOwn(w, tx, n);
    var kq := q[0];
    var nq := m + ListDraws(w, tx.children[..kq]);
    DrawnInside(w, tx.children[kq], nq, q[1..]);
    if p != [] {
      var kp := p[0];
      var np := m + ListDraws(w, tx.children[..kp]);
      if kp < kq {
        DrawnInside(w, tx.children[kp], np, p[1..]);
        ListDrawsSplit(w, tx.children, kp);
        ListDrawsMonotone(w, tx.children, kp + 1, kq);
      } else {
        DrawsDiffer(w, tx.children[kp], np, p[1..], q[1..]);
      }
    }
  }

  // ----- the adopted trace id -----

  /** `p` is the first node, in walking order, whose header mints ids. */
  ghost predicate FirstMinting(tx: Tx, incoming: SpanId, p: Path) {
    && Valid(tx, p) && Mint(NodeAt(tx, p), incoming).Some?
    && forall q :: Valid(tx, q) && Before(q, p) ==> Mint(NodeAt(tx, q), incoming).None?
  }

  ghost predicate MintsFirst(tx: Tx, incoming: SpanId, t: TraceId, p: Path) {
    FirstMinting(tx, incoming, p) && Mint(NodeAt(tx, p), incoming).value.trace == t
  }

  ghost predicate NoMinting(tx: Tx, incoming: SpanId) {
    forall p :: Valid(tx, p) ==> Mint(NodeAt(tx, p), incoming).None?
  }

  ghost predicate NodeMintIs(tx: Tx, incoming: SpanId) {
    match NodeFirstMint(tx, incoming)
    case None => NoMinting(tx, incoming)
    case Some(t) => exists p :: MintsFirst(tx, incoming, t, p)
  }

  /** What the first minted trace id of a list of siblings is. */
  ghost predicate ListMintIs(txs: seq<Tx>, incoming: SpanId) {
    match ListFirstMint(txs, incoming)
    case None => forall k :: 0 <= k < |txs| ==> NoMinting(txs[k], incoming)
    case Some(t) => exists k, p :: FirstMintingIn(txs, incoming, t, k, p)
  }

  ghost predicate FirstMintingIn(txs: seq<Tx>, incoming: SpanId, t: TraceId, k: int, p: Path) {
    && 0 <= k < |txs| && MintsFirst(txs[k], incoming, t, p)
    && forall j :: 0 <= j < k ==> NoMinting(txs[j], incoming)
  }

  lemma {:induction false} ListFirstMintIs(txs: seq<Tx>, incoming: SpanId)
    ensures ListMintIs(txs, incoming)
    decreases txs, 0
  {
    hide Mint, MintsFirst, NoMinting;
    if txs != [] {
      var k := |txs| - 1;
      ListFirstMintIs(txs[..k], incoming);
      NodeFirstMintIs(txs[k], incoming);
      match ListFirstMint(txs[..k], incoming) {
        case Some(t) =>
          var j, p :| FirstMintingIn(txs[..k], incoming, t, j, p);
          assert FirstMintingIn(txs, incoming, t, j, p);
        case None =>
          if NodeFirstMint(txs[k], incoming).Some? {
            var p :| MintsFirst(txs[k], incoming, NodeFirstMint(txs[k], incoming).value, p);
            assert forall j :: 0 <= j < k ==> NoMinting(txs[..k][j], incoming);
            assert FirstMintingIn(txs, incoming, NodeFirstMint(txs[k], incoming).value, k, p);
          }
      }
    }
  }

  /** The trace id adopted from the tree is the one minted by its first minting node. */
  lemma {:induction false} NodeFirstMintIs(tx: Tx, incoming: SpanId)
    ensures NodeMintIs(tx, incoming)
    decreases tx, 1
  {
    hide Mint;
    if Mint(tx, incoming).Some? {
      assert NodeAt(tx, []) == tx && MintsFirst(tx, incoming, Mint(tx, incoming).value.trace, []);
    } else {
      ListFirstMintIs(tx.children, incoming);
      match ListFirstMint(tx.children, incoming) {
        case None =>
          forall p | Valid(tx, p) ensures Mint(NodeAt(tx, p), incoming).None? {
            if p != [] { assert NoMinting(tx.children[p[0]], incoming); }
          }
        case Some(t) =>
          var k, p :| FirstMintingIn(tx.children, incoming, t, k, p);
          var first: nat := k;
          var down: Path := [first] + p;
          MintingBelow(tx, incoming, t, first, p);
          assert MintsFirst(tx, incoming, t, down);
      }
    }
  }

  lemma MintingBelow(tx: Tx, incoming: SpanId, t: TraceId, k: nat, p: Path)
    requires Mint(tx, incoming).None? && k < |tx.children| && MintsFirst(tx.children[k], incoming, t, p)
    requires forall j :: 0 <= j < k ==> NoMinting(tx.children[j], incoming)
    ensures MintsFirst(tx, incoming, t, [k] + p)
  {
    hide Mint;
    assert ([k] + p)[1..] == p;
    forall q | Valid(tx, q) && Before(q, [k] + p) ensures Mint(NodeAt(tx, q), incoming).None? {
      if q != [] && q[0] < k { assert NoMinting(tx.children[q[0]], incoming); }
    }
  }

  // ----- the whole list -----

  /** Position `i` holds the span of the node at path `ps[i]`. */
  ghost predicate Shaped(w: Walk, tx: Tx, n: nat, ps: seq<Path>, spans: seq<Span>, i: nat)
    requires i < |ps| == |spans|
  {
    && Valid(tx, ps[i]) && Usable(w.read, NodeAt(tx, ps[i]))
    && spans[i] == SpanAt(w, tx, 0, 0, n, ps[i])
  }

  lemma TopDraws(w: Walk, tx: Tx, n: nat)
    requires tx.kind == "Request"
    ensures Mint(tx, w.incoming).None? && IdOf(w, tx, n) == w.ids.span(n) && Draws(w, tx)
  {
  }

  lemma ChildSpanAt(w: Walk, tx: Tx, n: nat, i: nat)
    requires tx.kind == "Request" && i < |ListPaths(w.read, tx.children)|
    ensures |ListSpans(w, tx.children, w.ids.span(n), 0, n + 1)| == |ListPaths(w.read, tx.children)|
    ensures var p := ListPaths(w.read, tx.children)[i];
      && Valid(tx, p) && Usable(w.read, NodeAt(tx, p))
      && ListSpans(w, tx.children, w.ids.span(n), 0, n + 1)[i] == SpanAt(w, tx, 0, 0, n, p)
  {
    hide Usable, NodeSpan, IdOf, ListDraws, ListSpans, ListPaths, Mint, Draws, SpanAt;
    TopDraws(w, tx, n);
    ListCount(w, tx.children, w.ids.span(n), 0, n + 1);
    ListSpanAt(w, tx.children, w.ids.span(n), 0, n + 1, i);
    var p := ListPaths(w.read, tx.children)[i];
    SpanStep(w, tx, 0, 0, n, p);
  }

  lemma BuiltSpanAt(read: EpochReader, ids: IdStream, tx: Tx, drawn: Drawn, i: nat)
    requires Builds(read, tx) && 0 < i < |NodePaths(read, tx)|
    ensures |BuildSpans(read, ids, tx, drawn)| == |NodePaths(read, tx)|
    ensures Shaped(WalkOf(read, ids, tx, drawn), tx, drawn.spans, NodePaths(read, tx),
                   BuildSpans(read, ids, tx, drawn), i)
  {
    hide Usable, ListSpans, ListPaths, TopSpan, TraceOf, IncomingParent, Incoming, Complete, SpanAt;
    ChildSpanAt(WalkOf(read, ids, tx, drawn), tx, drawn.spans, i - 1);
  }

  /**
   The span list of every complete, sampled request group: one span per node all of whose
   ancestors yield spans, in pre-order, the top first.
   */
  lemma SpanTreeShape(read: EpochReader, ids: IdStream, tx: Tx, drawn: Drawn)
    requires Builds(read, tx)
    ensures var spans, ps, w := BuildSpans(read, ids, tx, drawn), NodePaths(read, tx), WalkOf(read, ids, tx, drawn);
      && |spans| == |ps| > 0 && ps[0] == []
      && Ascending(ps) && (forall p :: p in ps <==> AncestorsUsable(read, tx, p))
      && spans[0] == TopSpan(w, tx, ids.span(drawn.spans))
      && (forall i :: 0 < i < |ps| ==> Shaped(w, tx, drawn.spans, ps, spans, i))
  {
    hide Usable, NodeSpan, IdOf, ListDraws, Complete, TopSpan, TraceOf, IncomingParent, Incoming, Visible,
         AncestorsUsable, Shaped;
    var ps, w := NodePaths(read, tx), WalkOf(read, ids, tx, drawn);
    NodePathsAscend(read, tx);
    NodePathsVisible(read, tx);
    forall p ensures p in ps <==> AncestorsUsable(read, tx, p) { VisibleIffAncestors(read, tx, p); }
    ListCount(w, tx.children, ids.span(drawn.spans), 0, drawn.spans + 1);
    forall i | 0 < i < |ps|
      ensures Shaped(w, tx, drawn.spans, ps, BuildSpans(read, ids, tx, drawn), i)
    {
      BuiltSpanAt(read, ids, tx, drawn, i);
    }
  }

  /** Each span below the top hangs on the span of its node's parent, listed before it. */
  lemma ParentEdge(read: EpochReader, ids: IdStream, tx: Tx, drawn: Drawn, i: nat) returns (j: nat)
    requires Builds(read, tx) && 0 < i < |NodePaths(read, tx)|
    ensures var spans, ps := BuildSpans(read, ids, tx, drawn), NodePaths(read, tx);
      && |spans| == |ps| && j < i && ps[i] != [] && ps[j] == ps[i][..|ps[i]| - 1]
      && spans[i].parentId == spans[j].spanId
  {
    hide BuildSpans, NodePaths, Builds, WalkOf, IdAt, AncestorsUsable, TopSpan, Shaped, Before;
    var ps := NodePaths(read, tx);
    SpanTreeShape(read, ids, tx, drawn);
    SpanParent(read, ids, tx, drawn, i);
    var up := ps[i][..|ps[i]| - 1];
    assert ps[i] in ps;
    UpUsable(read, tx, ps[i]);
    j :| 0 <= j < |ps| && ps[j] == up;
    UpBefore(up, ps[i]);
    OrderedBy(ps, j, i);
    SpanContents(read, ids, tx, drawn, j);
  }

  lemma SpanParent(read: EpochReader, ids: IdStream, tx: Tx, drawn: Drawn, i: nat)
    requires Builds(read, tx) && 0 < i < |NodePaths(read, tx)|
    ensures |BuildSpans(read, ids, tx, drawn)| == |NodePaths(read, tx)|
    ensures var p := NodePaths(read, tx)[i];
      && p != [] && Valid(tx, p) && Valid(tx, p[..|p| - 1])
      && BuildSpans(read, ids, tx, drawn)[i].parentId
           == IdAt(WalkOf(read, ids, tx, drawn), tx, drawn.spans, p[..|p| - 1])
  {
    hide BuildSpans, Builds, WalkOf, IdAt, Usable, ListPaths;
    BuiltSpanAt(read, ids, tx, drawn, i);
    ListPathsVisible(read, tx.children);
    var p := NodePaths(read, tx)[i];
    assert p in ListPaths(read, tx.children);
    ParentValid(tx, p);
  }

  lemma UpUsable(read: EpochReader, tx: Tx, p: Path)
    requires p != [] && AncestorsUsable(read, tx, p)
    ensures AncestorsUsable(read, tx, p[..|p| - 1])
  {
    hide Usable;
    var up := p[..|p| - 1];
    ParentValid(tx, p);
    forall k | 1 <= k <= |up| ensures Valid(tx, up[..k]) && Usable(read, NodeAt(tx, up[..k])) {
      assert up[..k] == p[..k];
    }
  }

  lemma {:induction false} UpBefore(up: Path, p: Path)
    requires p != [] && up == p[..|p| - 1]
    ensures Before(up, p)
  {
    if up != [] {
      assert up[1..] == p[1..][..|p| - 2];
      UpBefore(up[1..], p[1..]);
    }
  }

  lemma {:induction false} BeforeOneWay(p: Path, q: Path)
    requires Before(p, q)
    ensures p != q && !Before(q, p)
  {
    if p != [] && p[0] == q[0] { BeforeOneWay(p[1..], q[1..]); }
  }

  lemma OrderedBy(ps: seq<Path>, j: nat, i: nat)
    requires Ascending(ps) && j < |ps| && i < |ps| && Before(ps[j], ps[i])
    ensures j < i
  {
    BeforeOneWay(ps[j], ps[i]);
  }

  /** What each span carries: identity of its node, the one trace id, its span id, its retry ordinal. */
  lemma SpanContents(read: EpochReader, ids: IdStream, tx: Tx, drawn: Drawn, i: nat)
    requires Builds(read, tx) && i < |NodePaths(read, tx)|
    ensures |BuildSpans(read, ids, tx, drawn)| == |NodePaths(read, tx)|
    ensures var s, p := BuildSpans(read, ids, tx, drawn)[i], NodePaths(read, tx)[i];
      && Valid(tx, p)
      && s.vxid == NodeAt(tx, p).vxid && (s.kind.Fetch? <==> NodeAt(tx, p).kind == "BeReq")
      && s.traceId == TraceOf(tx, ids, drawn) && s.links == []
      && s.spanId == IdAt(WalkOf(read, ids, tx, drawn), tx, drawn.spans, p)
      && AttrsOf(s.attrs, s.kind, RetryOrdinal(tx, p))
  {
    if i == 0 {
      TopContents(read, ids, tx, drawn);
    } else {
      BelowContents(read, ids, tx, drawn, i);
    }
  }

  /** The retry attribute is there exactly for a repeated fetch, and no hit has been decided yet. */
  ghost predicate AttrsOf(attrs: seq<Attr>, kind: Kind, ordinal: nat) {
    && (forall k :: Retry(k) in attrs <==> kind.Fetch? && k == ordinal && k > 0)
    && Coalesced !in attrs && CoalescedUnlinked !in attrs && RestartContinuation !in attrs
  }

  lemma TopContents(read: EpochReader, ids: IdStream, tx: Tx, drawn: Drawn)
    requires Builds(read, tx)
    ensures var s := BuildSpans(read, ids, tx, drawn)[0];
      && s.vxid == tx.vxid && s.kind.Request?
      && s.traceId == TraceOf(tx, ids, drawn) && s.links == []
      && s.spanId == IdAt(WalkOf(read, ids, tx, drawn), tx, drawn.spans, [])
      && AttrsOf(s.attrs, s.kind, 0)
    ensures |BuildSpans(read, ids, tx, drawn)| == |NodePaths(read, tx)|
  {
    hide Mint, TraceOf, Incoming, IncomingParent, Complete, ListDraws, ListSpans, ListPaths, CountRestarts;
    var w := WalkOf(read, ids, tx, drawn);
    ListCount(w, tx.children, ids.span(drawn.spans), 0, drawn.spans + 1);
    TopDraws(w, tx, drawn.spans);
  }

  lemma BelowContents(read: EpochReader, ids: IdStream, tx: Tx, drawn: Drawn, i: nat)
    requires Builds(read, tx) && 0 < i < |NodePaths(read, tx)|
    ensures |BuildSpans(read, ids, tx, drawn)| == |NodePaths(read, tx)|
    ensures var s, p := BuildSpans(read, ids, tx, drawn)[i], NodePaths(read, tx)[i];
      && Valid(tx, p)
      && s.vxid == NodeAt(tx, p).vxid && (s.kind.Fetch? <==> NodeAt(tx, p).kind == "BeReq")
      && s.traceId == TraceOf(tx, ids, drawn) && s.links == []
      && s.spanId == IdAt(WalkOf(read, ids, tx, drawn), tx, drawn.spans, p)
      && AttrsOf(s.attrs, s.kind, RetryOrdinal(tx, p))
  {
    hide Usable, Mint, TraceOf, Incoming, IncomingParent, Builds, BuildSpans, NodePaths, IdAt, AttrsOf, RetryOrdinal,
         DepthAt, NodeAttrs, ParentAt, Timestamp, FetchEnd, RespEnd;
    var w, p := WalkOf(read, ids, tx, drawn), NodePaths(read, tx)[i];
    BuiltSpanAt(read, ids, tx, drawn, i);
    DepthIsRetryOrdinal(tx, p);
    NodeAttrsOf(w, NodeAt(tx, p), RetryOrdinal(tx, p));
  }

  lemma NodeAttrsOf(w: Walk, tx: Tx, depth: nat)
    ensures AttrsOf(NodeAttrs(w, tx, depth), if tx.kind == "BeReq" then Fetch else Request, depth)
  {
    hide Mint;
  }

  /**
   A fetch takes its span id from its own header exactly when that header mints one; every
   other span takes the next id of the source, so no drawn number serves two spans.
   */
  lemma SpanIds(read: EpochReader, ids: IdStream, tx: Tx, drawn: Drawn, i: nat, j: nat)
    requires Builds(read, tx) && i < j < |NodePaths(read, tx)|
    ensures |BuildSpans(read, ids, tx, drawn)| == |NodePaths(read, tx)|
    ensures var spans, ps, w := BuildSpans(read, ids, tx, drawn), NodePaths(read, tx), WalkOf(read, ids, tx, drawn);
      && Valid(tx, ps[i]) && Valid(tx, ps[j])
      && (match Mint(NodeAt(tx, ps[j]), IncomingParent(tx))
          case Some(m) => spans[j].spanId == m.span
          case None => spans[j].spanId == ids.span(DrawnAt(w, tx, drawn.spans, ps[j])))
      && (Mint(NodeAt(tx, ps[i]), IncomingParent(tx)).None? ==>
            drawn.spans <= DrawnAt(w, tx, drawn.spans, ps[i]) < DrawnAt(w, tx, drawn.spans, ps[j]))
  {
    hide Usable, Mint, TraceOf, Incoming, IncomingParent, Complete, ListDraws, ListSpans, ListPaths, Visible,
         DrawnAt, Before;
    var ps, w := NodePaths(read, tx), WalkOf(read, ids, tx, drawn);
    SpanContents(read, ids, tx, drawn, i);
    SpanContents(read, ids, tx, drawn, j);
    NodePathsVisible(read, tx);
    NodePathsAscend(read, tx);
    assert ps[i] in ps && ps[j] in ps && Before(ps[i], ps[j]);
    if Draws(w, NodeAt(tx, ps[i])) {
      DrawsDiffer(w, tx, drawn.spans, ps[i], ps[j]);
      DrawnFrom(w, tx, drawn.spans, ps[i]);
    }
  }

  lemma {:induction false} DrawnFrom(w: Walk, tx: Tx, n: nat, p: Path)
    requires Valid(tx, p)
    ensures n <= DrawnAt(w, tx, n, p)
    decreases p
  {
    hide Draws, ListDraws;
    if p != [] {
      DrawnFrom(w, tx.children[p[0]], AfterOwn(w, tx, n) + ListDraws(w, tx.children[..p[0]]), p[1..]);
    }
  }

  lemma TopMint(tx: Tx)
    requires tx.kind == "Request"
    ensures NodeFirstMint(tx, 0) == ListFirstMint(tx.children, 0)
  {
    hide ListFirstMint;
  }

  /** The trace id of a group: the incoming one, else that of the first minting node, else a fresh one. */
  ghost predicate Adopted(ids: IdStream, tx: Tx, drawn: Drawn, t: TraceId) {
    if Incoming(tx).Some? then t == Incoming(tx).value.trace
    else (exists p :: MintsFirst(tx, 0, t, p)) || (NoMinting(tx, 0) && t == ids.trace(drawn.traces))
  }

  lemma AdoptedTrace(ids: IdStream, tx: Tx, drawn: Drawn)
    requires tx.kind == "Request"
    ensures Adopted(ids, tx, drawn, TraceOf(tx, ids, drawn))
  {
    hide Incoming, ListFirstMint, NodeFirstMint, NoMinting, MintsFirst;
    TopMint(tx);
    NodeFirstMintIs(tx, 0);
  }

  // ----- direct and nested fetches -----

  /** The trace id `t` was minted under a child before the `k`-th. */
  ghost predicate MintedBefore(tx: Tx, k: nat, t: TraceId) {
    exists j, p :: j < k && FirstMintingIn(tx.children, 0, t, j, p)
  }

  /**
   A direct fetch that mints gives the group its trace exactly when nothing under an earlier sibling
   mints; otherwise the trace is minted there, however deep.
   */
  lemma DirectFetchTrace(ids: IdStream, tx: Tx, drawn: Drawn, k: nat)
    requires Incoming(tx).None? && k < |tx.children| && Mint(tx.children[k], 0).Some?
    ensures (forall j :: 0 <= j < k ==> NoMinting(tx.children[j], 0)) ==>
      TraceOf(tx, ids, drawn) == Mint(tx.children[k], 0).value.trace
    ensures !(forall j :: 0 <= j < k ==> NoMinting(tx.children[j], 0)) ==> MintedBefore(tx, k, TraceOf(tx, ids, drawn))
  {
    hide Incoming, ListFirstMint, Mint;
    var txs := tx.children;
    ListFirstMintIs(txs, 0);
    assert !NoMinting(txs[k], 0) by { assert Valid(txs[k], []) && NodeAt(txs[k], []) == txs[k]; }
    var t := TraceOf(tx, ids, drawn);
    var j, p :| FirstMintingIn(txs, 0, t, j, p);
    assert j <= k;
    if j == k { MintsAtTop(txs[k], t, p); }
  }

  /** A node that mints itself is the first to do so in its own tree. */
  lemma MintsAtTop(tx: Tx, t: TraceId, p: Path)
    requires Mint(tx, 0).Some? && MintsFirst(tx, 0, t, p)
    ensures t == Mint(tx, 0).value.trace
  {
    hide Mint;
    assert Valid(tx, []) && NodeAt(tx, []) == tx;
  }

  /** So a fetch under an ESI fragment wins over a direct fetch that follows it. */
  lemma NestedFetchWins(ids: IdStream, tx: Tx, drawn: Drawn)
    requires Incoming(tx).None? && |tx.children| == 2 && Mint(tx.children[1], 0).Some?
    requires tx.children[0].kind == "Request" && |tx.children[0].children| == 1
    requires Mint(tx.children[0].children[0], 0).Some?
    ensures TraceOf(tx, ids, drawn) == Mint(tx.children[0].children[0], 0).value.trace
  {
    hide Incoming, Mint;
    var esi, fetch := tx.children[0], tx.children[0].children[0];
    RequestsMintNothing(esi);
    SingleMint(fetch);
    assert esi.children == [fetch];
    SingleMint(esi);
    assert tx.children[..1] == [esi];
  }

  lemma SingleMint(tx: Tx)
    ensures ListFirstMint([tx], 0) == NodeFirstMint(tx, 0)
  {
    assert [tx][..0] == [];
  }

  lemma RequestsMintNothing(tx: Tx)
    requires tx.kind == "Request"
    ensures Mint(tx, 0).None?
  {
  }
}
