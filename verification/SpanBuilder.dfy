/** The walk itself: maps filled and ids drawn step by step, proved against the functions of `Spans`. */
module SpanBuilder {
  import opened Wrappers
  import opened Traceparents
  import opened Vsl
  import opened Spans
  import opened SpanShape

  /** Mints trace and span ids, each draw advancing the stream it reads. */
  class IdSource {
    const stream: IdStream
    var traces: nat
    var spans: nat

    constructor (stream: IdStream)
      ensures this.stream == stream && traces == 0 && spans == 0
    {
      this.stream := stream;
      traces, spans := 0, 0;
    }

    method TraceID() returns (id: TraceId)
      modifies this
      ensures id == stream.trace(old(traces)) && traces == old(traces) + 1 && spans == old(spans)
    {
      id := stream.trace(traces);
      traces := traces + 1;
    }

    method SpanID() returns (id: SpanId)
      modifies this
      ensures id == stream.span(old(spans)) && spans == old(spans) + 1 && traces == old(traces)
    {
      id := stream.span(spans);
      spans := spans + 1;
    }
  }

  // ----- the map of minted ids -----

  /** What `minted` says at `at + p` is what the header of the node at `p` mints. */
  ghost predicate RecordedAt(minted: map<Path, Minted>, tx: Tx, at: Path, incoming: SpanId, p: Path)
    requires Valid(tx, p)
  {
    match Mint(NodeAt(tx, p), incoming)
    case None => at + p !in minted
    case Some(m) => at + p in minted && minted[at + p] == m
  }

  /** `minted` is right about every node below the first `k` children of `tx`. */
  ghost predicate Records(minted: map<Path, Minted>, tx: Tx, at: Path, incoming: SpanId, k: nat) {
    forall p: Path :: p != [] && Valid(tx, p) && p[0] < k ==> RecordedAt(minted, tx, at, incoming, p)
  }

  /** `p` leads strictly below `at`, through one of its first `k` children. */
  predicate Under(at: Path, k: nat, p: Path) {
    |p| > |at| && p[..|at|] == at && p[|at|] < k
  }

  /** Only entries below the first `k` children of `at` differ. */
  ghost predicate Extends(before: map<Path, Minted>, after: map<Path, Minted>, at: Path, k: nat) {
    forall p: Path :: !Under(at, k, p) ==> (p in after <==> p in before) && (p in before ==> after[p] == before[p])
  }

  /** No entry lies below child `from` of `at` or a later one. */
  ghost predicate Untouched(minted: map<Path, Minted>, at: Path, from: nat) {
    forall p: Path :: p in minted && |p| > |at| && p[..|at|] == at ==> p[|at|] < from
  }

  function Mark(minted: map<Path, Minted>, p: Path, own: Option<Minted>): map<Path, Minted> {
    match own case None => minted case Some(m) => minted[p := m]
  }

  function Pick(first: TraceId, found: Option<TraceId>): TraceId {
    if first != 0 then first else match found case None => 0 case Some(t) => t
  }

  lemma UnderChild(at: Path, i: nat, k: nat, p: Path)
    requires Under(at + [i], k, p) || p == at + [i]
    ensures Under(at, i + 1, p) && !Under(at, i, p)
  {
    if p != at + [i] {
      assert p[..|at| + 1] == at + [i];
      assert p[..|at|] == p[..|at| + 1][..|at|] == at;
      assert p[|at|] == p[..|at| + 1][|at|] == i;
    }
  }

  lemma MarkExtends(minted0: map<Path, Minted>, before: map<Path, Minted>, after: map<Path, Minted>,
                    at: Path, i: nat, own: Option<Minted>, k: nat)
    requires Extends(minted0, before, at, i)
    requires Extends(Mark(before, at + [i], own), after, at + [i], k)
    ensures Extends(minted0, after, at, i + 1)
  {
    forall p: Path | !Under(at, i + 1, p)
      ensures (p in after <==> p in minted0) && (p in minted0 ==> after[p] == minted0[p])
    {
      if Under(at + [i], k, p) || p == at + [i] { UnderChild(at, i, k, p); }
    }
  }

  lemma MarkUntouched(before: map<Path, Minted>, at: Path, i: nat, own: Option<Minted>)
    requires Untouched(before, at, i)
    ensures Untouched(Mark(before, at + [i], own), at + [i], 0)
  {
    forall p: Path | p in before && |p| > |at| + 1 ensures p[..|at| + 1] != at + [i] {
      assert p[..|at|] == p[..|at| + 1][..|at|] && p[|at|] == p[..|at| + 1][|at|];
    }
  }

  lemma MarkKeepsFrontier(before: map<Path, Minted>, after: map<Path, Minted>, at: Path, i: nat, own: Option<Minted>,
                          k: nat)
    requires Untouched(before, at, i)
    requires Extends(Mark(before, at + [i], own), after, at + [i], k)
    ensures Untouched(after, at, i + 1)
  {
    forall p: Path | p in after && |p| > |at| && p[..|at|] == at ensures p[|at|] < i + 1 {
      if Under(at + [i], k, p) || p == at + [i] { UnderChild(at, i, k, p); } else { assert p in before; }
    }
  }

  lemma MarkRecords(before: map<Path, Minted>, after: map<Path, Minted>, tx: Tx, at: Path, incoming: SpanId, i: nat)
    requires i < |tx.children|
    requires Untouched(before, at, i) && Records(before, tx, at, incoming, i)
    requires Extends(Mark(before, at + [i], Mint(tx.children[i], incoming)), after, at + [i], |tx.children[i].children|)
    requires Records(after, tx.children[i], at + [i], incoming, |tx.children[i].children|)
    ensures Records(after, tx, at, incoming, i + 1)
  {
    hide Mint;
    var child := tx.children[i];
    forall p: Path | p != [] && Valid(tx, p) && p[0] < i + 1 ensures RecordedAt(after, tx, at, incoming, p) {
      if p[0] < i {
        ElsewhereUnder(at, i, |child.children|, p);
        assert RecordedAt(before, tx, at, incoming, p);
      } else if |p| == 1 {
        assert p == [i] && p[1..] == [] && NodeAt(tx, p) == child;
        assert !Under(at + [i], |child.children|, at + [i]);
        assert at + [i] !in before by {
          assert (at + [i])[..|at|] == at && (at + [i])[|at|] == i;
        }
        assert RecordedAt(after, tx, at, incoming, p);
      } else {
        var q: Path := p[1..];
        assert at + p == (at + [i]) + q;
        assert q != [] && Valid(child, q) && q[0] < |child.children|;
        assert RecordedAt(after, child, at + [i], incoming, q);
      }
    }
  }

  lemma ElsewhereUnder(at: Path, i: nat, k: nat, p: Path)
    requires p != [] && p[0] < i
    ensures !Under(at + [i], k, at + p) && at + p != at + [i]
  {
    assert (at + p)[|at|] == p[0] && (at + [i])[|at|] == i;
    if |at + p| > |at| + 1 { assert (at + p)[..|at| + 1][|at|] == p[0]; }
  }

  method CollectMinted(tx: Tx, at: Path, incoming: SpanId, minted0: map<Path, Minted>, first0: TraceId)
    returns (minted: map<Path, Minted>, first: TraceId)
    requires Untouched(minted0, at, 0)
    ensures Records(minted, tx, at, incoming, |tx.children|)
    ensures Extends(minted0, minted, at, |tx.children|)
    ensures first == Pick(first0, ListFirstMint(tx.children, incoming))
    decreases tx
  {
    hide Mint, Records, Extends, Untouched;
    minted, first := minted0, first0;
    assert Records(minted, tx, at, incoming, 0) && Extends(minted0, minted, at, 0) by {
      Nothing(minted0, tx, at, incoming);
    }
    for i := 0 to |tx.children|
      invariant Records(minted, tx, at, incoming, i)
      invariant Extends(minted0, minted, at, i)
      invariant Untouched(minted, at, i)
      invariant first == Pick(first0, ListFirstMint(tx.children[..i], incoming))
    {
      var child := tx.children[i];
      var own := Mint(child, incoming);
      ghost var before := minted;
      if own.Some? {
        minted := minted[at + [i] := own.value];
        if first == 0 {
          first := own.value.trace;
        }
      }
      MarkUntouched(before, at, i, own);
      minted, first := CollectMinted(child, at + [i], incoming, minted, first);
      MarkExtends(minted0, before, minted, at, i, own, |child.children|);
      MarkKeepsFrontier(before, minted, at, i, own, |child.children|);
      MarkRecords(before, minted, tx, at, incoming, i);
      assert tx.children[..i + 1][..i] == tx.children[..i];
    }
    assert tx.children[..|tx.children|] == tx.children;
  }

  lemma Nothing(minted: map<Path, Minted>, tx: Tx, at: Path, incoming: SpanId)
    ensures Records(minted, tx, at, incoming, 0) && Extends(minted, minted, at, 0)
  {
  }

  // ----- the spans -----

  lemma RecordsChild(minted: map<Path, Minted>, tx: Tx, at: Path, incoming: SpanId, i: nat)
    requires i < |tx.children| && Records(minted, tx, at, incoming, |tx.children|)
    ensures Records(minted, tx.children[i], at + [i], incoming, |tx.children[i].children|)
    ensures Mint(tx.children[i], incoming) == if at + [i] in minted then Some(minted[at + [i]]) else None
  {
    hide Mint;
    var child := tx.children[i];
    var one: Path := [i];
    assert one[1..] == [] && Valid(child, []) && NodeAt(child, []) == child;
    assert Valid(tx, one) && NodeAt(tx, one) == NodeAt(child, one[1..]);
    assert RecordedAt(minted, tx, at, incoming, one);
    forall q: Path | q != [] && Valid(child, q) && q[0] < |child.children|
      ensures RecordedAt(minted, child, at + [i], incoming, q)
    {
      var p: Path := [i] + q;
      assert p[1..] == q && at + p == (at + [i]) + q && Valid(tx, p);
      assert RecordedAt(minted, tx, at, incoming, p);
    }
  }

  lemma ListSpansSnoc(w: Walk, txs: seq<Tx>, parent: SpanId, depth: nat, n: nat, i: nat)
    requires i < |txs|
    ensures ListSpans(w, txs[..i + 1], parent, depth, n)
         == ListSpans(w, txs[..i], parent, depth, n)
            + NodeSpans(w, txs[i], parent, depth, n + ListDraws(w, txs[..i]))
    ensures ListDraws(w, txs[..i + 1]) == ListDraws(w, txs[..i]) + NodeDraws(w, txs[i])
  {
    hide NodeSpans, NodeDraws;
    assert txs[..i + 1][..i] == txs[..i];
  }

  /** Appends the spans below `tx` to `out`, one child after the other. */
  method BuildChildren(w: Walk, tx: Tx, at: Path, parent: SpanId, depth: nat, minted: map<Path, Minted>,
                       source: IdSource, out0: seq<Span>)
    returns (out: seq<Span>)
    requires source.stream == w.ids && Records(minted, tx, at, w.incoming, |tx.children|)
    modifies source
    ensures out == out0 + ListSpans(w, tx.children, parent, depth, old(source.spans))
    ensures source.spans == old(source.spans) + ListDraws(w, tx.children) && source.traces == old(source.traces)
    decreases tx
  {
    hide Mint, Records, Usable, NodeSpan, ListSpans, ListDraws;
    out := out0;
    ghost var n := source.spans;
    assert ListSpans(w, [], parent, depth, n) == [] && ListDraws(w, []) == 0 by { EmptyList(w, parent, depth, n); }
    for i := 0 to |tx.children|
      invariant out == out0 + ListSpans(w, tx.children[..i], parent, depth, n)
      invariant source.spans == n + ListDraws(w, tx.children[..i]) && source.traces == old(source.traces)
    {
      var child := tx.children[i];
      RecordsChild(minted, tx, at, w.incoming, i);
      ListSpansSnoc(w, tx.children, parent, depth, n, i);
      ghost var was, m := out, source.spans;
      if Usable(w.read, child) {
        var id;
        if at + [i] in minted {
          id := minted[at + [i]].span;
        } else {
          id := source.SpanID();
        }
        out := out + [NodeSpan(w, child, parent, depth, id)];
        var next := if child.kind == "BeReq" then depth + 1 else 0;
        out := BuildChildren(w, child, at + [i], id, next, minted, source, out);
        assert out == was + NodeSpans(w, child, parent, depth, m);
      }
    }
    assert tx.children[..|tx.children|] == tx.children;
  }

  lemma EmptyList(w: Walk, parent: SpanId, depth: nat, n: nat)
    ensures ListSpans(w, [], parent, depth, n) == [] && ListDraws(w, []) == 0
  {
  }

  method BuildWithOutcome(read: EpochReader, tx: Tx, source: IdSource) returns (spans: seq<Span>, outcome: Outcome)
    modifies source
    ensures var drawn := Drawn(old(source.traces), old(source.spans));
      && spans == BuildSpans(read, source.stream, tx, drawn)
      && Drawn(source.traces, source.spans) == DrawnAfter(read, source.stream, tx, drawn)
    ensures outcome == OutcomeOf(read, tx)
  {
    hide Mint, Records, ListSpans, ListDraws, ListFirstMint, Header, Timestamp, Parse, CountRestarts, RespEnd;
    if tx.kind != "Request" {
      return [], Built;
    }
    var start, end := Timestamp(read, tx, "Start"), RespEnd(read, tx);
    if start.None? || end.None? {
      return [], Unusable;
    }
    var traceId, parentId := 0, 0;
    var raw, present := ScanHeader(tx, "ReqHeader", "traceparent");
    if present {
      var parsed := Parse(raw);
      if parsed.Some? {
        if !parsed.value.sampled {
          return [], Unsampled;
        }
        traceId, parentId := parsed.value.trace, parsed.value.parent;
      }
    }
    ghost var drawn := Drawn(source.traces, source.spans);
    assert Untouched(map[], [], 0);
    var minted, first := CollectMinted(tx, [], parentId, map[], 0);
    if traceId == 0 {
      if first != 0 {
        traceId := first;
      } else {
        traceId := source.TraceID();
      }
    }
    var id := source.SpanID();
    var w := Walk(read, source.stream, parentId, traceId);
    assert w == WalkOf(read, source.stream, tx, drawn);
    spans := [TopSpan(w, tx, id)];
    spans := BuildChildren(w, tx, [], id, 0, minted, source, spans);
    outcome := Built;
  }
}
