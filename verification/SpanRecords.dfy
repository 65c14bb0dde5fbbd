/**
 What a built span says, told by the records of its transaction: when a group yields spans at all,
 and the parent, trace, times and marks of each.
 */
module SpanRecords {
  import opened Wrappers
  import opened Text
  import opened Traceparents
  import opened Vsl
  import opened Records
  import opened Spans
  import opened SpanShape

  // ----- times -----

  ghost predicate Unstamped(read: EpochReader, tx: Tx, name: string) { forall t :: !Stamped(read, tx, name, t) }

  /** A request ends with its response, else its restart, else its piped session. */
  ghost predicate RequestEnds(read: EpochReader, tx: Tx, t: Time) {
    || Stamped(read, tx, "Resp", t)
    || (Unstamped(read, tx, "Resp") && Stamped(read, tx, "Restart", t))
    || (Unstamped(read, tx, "Resp") && Unstamped(read, tx, "Restart") && Stamped(read, tx, "PipeSess", t))
  }

  /** A fetch ends with its body, else its response headers. */
  ghost predicate FetchEnds(read: EpochReader, tx: Tx, t: Time) {
    || Stamped(read, tx, "BerespBody", t)
    || (Unstamped(read, tx, "BerespBody") && Stamped(read, tx, "Beresp", t))
  }

  lemma StampedIs(read: EpochReader, tx: Tx, name: string)
    ensures forall t :: Timestamp(read, tx, name) == Some(t) <==> Stamped(read, tx, name, t)
    ensures Timestamp(read, tx, name).None? <==> Unstamped(read, tx, name)
  {
    hide Timestamp, Stamped;
    forall t ensures Timestamp(read, tx, name) == Some(t) <==> Stamped(read, tx, name, t) {
      TimestampExactlyWhen(read, tx, name, t);
    }
    if Timestamp(read, tx, name).Some? { assert Stamped(read, tx, name, Timestamp(read, tx, name).value); }
  }

  lemma RespEndExactlyWhen(read: EpochReader, tx: Tx, t: Time)
    ensures RespEnd(read, tx) == Some(t) <==> RequestEnds(read, tx, t)
  {
    hide Timestamp, Stamped, Unstamped;
    StampedIs(read, tx, "Resp");
    StampedIs(read, tx, "Restart");
    StampedIs(read, tx, "PipeSess");
  }

  lemma FetchEndExactlyWhen(read: EpochReader, tx: Tx, t: Time)
    ensures FetchEnd(read, tx) == Some(t) <==> FetchEnds(read, tx, t)
  {
    hide Timestamp, Stamped, Unstamped;
    StampedIs(read, tx, "BerespBody");
    StampedIs(read, tx, "Beresp");
  }

  /** Start and end of a request or fetch. */
  ghost predicate RequestTimes(read: EpochReader, tx: Tx, start: Time, end: Time) {
    Stamped(read, tx, "Start", start) && RequestEnds(read, tx, end)
  }

  ghost predicate FetchTimes(read: EpochReader, tx: Tx, start: Time, end: Time) {
    Stamped(read, tx, "Bereq", start) && FetchEnds(read, tx, end)
  }

  // ----- headers -----

  /** The transaction carries a readable trace header. */
  ghost predicate Carries(tx: Tx, tag: string, t: Traceparent) {
    exists raw :: HeaderSetTo(tx, tag, "traceparent", raw) && Parse(raw) == Some(t)
  }

  lemma IncomingExactlyWhen(tx: Tx, t: Traceparent)
    ensures Incoming(tx) == Some(t) <==> Carries(tx, "ReqHeader", t)
  {
    hide Parse, Vsl.Header, HeaderSetTo;
    forall raw ensures Vsl.Header(tx, "ReqHeader", "traceparent") == Some(raw)
                  <==> HeaderSetTo(tx, "ReqHeader", "traceparent", raw)
    {
      HeaderExactlyWhen(tx, "ReqHeader", "traceparent", raw);
    }
  }

  /** A fetch mints the ids of its own header, unless that names the incoming parent. */
  ghost predicate Mints(tx: Tx, incoming: SpanId, trace: TraceId, span: SpanId) {
    && tx.kind == "BeReq" && span != incoming
    && exists sampled :: Carries(tx, "BereqHeader", Traceparent(trace, span, sampled))
  }

  lemma MintExactlyWhen(tx: Tx, incoming: SpanId, trace: TraceId, span: SpanId)
    ensures Mint(tx, incoming) == Some(Minted(trace, span)) <==> Mints(tx, incoming, trace, span)
  {
    hide Parse, Vsl.Header, HeaderSetTo;
    forall raw ensures Vsl.Header(tx, "BereqHeader", "traceparent") == Some(raw)
                  <==> HeaderSetTo(tx, "BereqHeader", "traceparent", raw)
    {
      HeaderExactlyWhen(tx, "BereqHeader", "traceparent", raw);
    }
    if Mint(tx, incoming) == Some(Minted(trace, span)) {
      var raw := Vsl.Header(tx, "BereqHeader", "traceparent").value;
      assert Parse(raw) == Some(Traceparent(trace, span, Parse(raw).value.sampled));
      assert Carries(tx, "BereqHeader", Traceparent(trace, span, Parse(raw).value.sampled));
    }
  }

  // ----- which groups and nodes yield spans -----

  /** The request was started and ended at some times. */
  ghost predicate Timed(read: EpochReader, tx: Tx) { exists s, e :: RequestTimes(read, tx, s, e) }

  ghost predicate Unsampling(tx: Tx) { exists t :: Carries(tx, "ReqHeader", t) && !t.sampled }

  lemma CompleteExactlyWhen(read: EpochReader, tx: Tx)
    ensures Complete(read, tx) <==> Timed(read, tx)
    ensures Complete(read, tx) ==>
      RequestTimes(read, tx, Timestamp(read, tx, "Start").value, RespEnd(read, tx).value)
  {
    hide Timestamp, Stamped, RequestEnds, RespEnd;
    StampedIs(read, tx, "Start");
    forall t ensures RespEnd(read, tx) == Some(t) <==> RequestEnds(read, tx, t) { RespEndExactlyWhen(read, tx, t); }
    if Complete(read, tx) {
      assert RequestTimes(read, tx, Timestamp(read, tx, "Start").value, RespEnd(read, tx).value);
    }
  }

  /**
   A group yields spans exactly if it is a request with both times whose trace header, if it has a
   readable one, is sampled; incompleteness is reported before sampling, and nothing else is.
   */
  lemma OutcomeExactlyWhen(read: EpochReader, ids: IdStream, tx: Tx, drawn: Drawn)
    ensures BuildSpans(read, ids, tx, drawn) != [] <==> tx.kind == "Request" && Timed(read, tx) && !Unsampling(tx)
    ensures OutcomeOf(read, tx) == Unusable <==> tx.kind == "Request" && !Timed(read, tx)
    ensures OutcomeOf(read, tx) == Unsampled <==> tx.kind == "Request" && Timed(read, tx) && Unsampling(tx)
  {
    hide Complete, Timed, Carries, Incoming, ListSpans, TopSpan, WalkOf;
    CompleteExactlyWhen(read, tx);
    forall t ensures Incoming(tx) == Some(t) <==> Carries(tx, "ReqHeader", t) { IncomingExactlyWhen(tx, t); }
  }

  /** A fetch with both times, or an ESI fragment with both times. */
  ghost predicate Yields(read: EpochReader, tx: Tx) {
    if tx.kind == "BeReq" then exists s, e :: FetchTimes(read, tx, s, e)
    else
      && tx.kind == "Request" && Timed(read, tx)
      && exists b, i :: Says(tx, "Begin", b) && 0 <= i <= |b| && "esi" <= b[i..]
  }

  lemma UsableExactlyWhen(read: EpochReader, tx: Tx)
    ensures Usable(read, tx) <==> Yields(read, tx)
    ensures Usable(read, tx) && tx.kind == "BeReq" ==>
      FetchTimes(read, tx, Timestamp(read, tx, "Bereq").value, FetchEnd(read, tx).value)
  {
    hide Timestamp, Stamped, RequestEnds, FetchEnds, RespEnd, FetchEnd, Says, First, Timed;
    CompleteExactlyWhen(read, tx);
    StampedIs(read, tx, "Bereq");
    forall t ensures FetchEnd(read, tx) == Some(t) <==> FetchEnds(read, tx, t) { FetchEndExactlyWhen(read, tx, t); }
    forall b ensures First(tx, "Begin") == Some(b) <==> Says(tx, "Begin", b) { FirstExactlyWhen(tx, "Begin", b); }
    if Usable(read, tx) && tx.kind == "BeReq" {
      assert FetchTimes(read, tx, Timestamp(read, tx, "Bereq").value, FetchEnd(read, tx).value);
    }
  }

  // ----- what each span says -----

  /** `Link req <number> restart`, by its words. */
  ghost predicate LinksRestart(r: Record) {
    r.tag == "Link" && |Fields(r.payload)| >= 3 && Fields(r.payload)[0] == "req" && Fields(r.payload)[2] == "restart"
  }

  ghost function RestartPositions(rs: seq<Record>): set<int> { set i | 0 <= i < |rs| && LinksRestart(rs[i]) }

  /** Restarts are counted once per record. */
  lemma {:induction false} RestartsAreCounted(rs: seq<Record>)
    ensures CountRestarts(rs) == |RestartPositions(rs)|
  {
    hide Fields;
    if rs != [] {
      var n := |rs| - 1;
      RestartsAreCounted(rs[..n]);
      assert forall i :: 0 <= i < n ==> rs[..n][i] == rs[i];
      if LinksRestart(rs[n]) {
        assert RestartPositions(rs) == RestartPositions(rs[..n]) + {n};
      } else {
        assert RestartPositions(rs) == RestartPositions(rs[..n]);
      }
    }
  }

  /** The parent and trace a request was sent with: none, and any trace, without a readable header. */
  ghost predicate SentWith(tx: Tx, parent: SpanId, trace: TraceId) {
    && (forall t :: Carries(tx, "ReqHeader", t) ==> parent == t.parent && trace == t.trace)
    && ((forall t :: !Carries(tx, "ReqHeader", t)) ==> parent == 0)
  }

  lemma SentWithIs(tx: Tx, ids: IdStream, drawn: Drawn)
    ensures SentWith(tx, IncomingParent(tx), TraceOf(tx, ids, drawn))
  {
    hide Incoming, Carries, ListFirstMint;
    forall t ensures Incoming(tx) == Some(t) <==> Carries(tx, "ReqHeader", t) { IncomingExactlyWhen(tx, t); }
    if Incoming(tx).Some? { assert Carries(tx, "ReqHeader", Incoming(tx).value); }
  }

  /** The top span's own marks: the number of restarts it announces, if any, and nothing else. */
  ghost predicate TopMarks(attrs: seq<Attr>, rs: seq<Record>) {
    forall a :: a in attrs <==> a == Restarts(|RestartPositions(rs)|) && |RestartPositions(rs)| > 0
  }

  lemma TopMarksIs(rs: seq<Record>)
    ensures TopMarks(if CountRestarts(rs) > 0 then [Restarts(CountRestarts(rs))] else [], rs)
  {
    hide CountRestarts, RestartPositions;
    RestartsAreCounted(rs);
  }

  /**
   The top span of every group: the caller's trace and parent if its header is readable, no parent
   otherwise; its own times; and the number of restarts it announces, if any.
   */
  lemma TopSpanIs(read: EpochReader, ids: IdStream, tx: Tx, drawn: Drawn)
    requires BuildSpans(read, ids, tx, drawn) != []
    ensures var s := BuildSpans(read, ids, tx, drawn)[0];
      && s.kind.Request? && s.vxid == tx.vxid && s.spanId == ids.span(drawn.spans) && s.links == []
      && RequestTimes(read, tx, s.start, s.end) && SentWith(tx, s.parentId, s.traceId) && TopMarks(s.attrs, tx.records)
  {
    hide Timestamp, RequestTimes, RespEnd, CountRestarts, SentWith, ListSpans, TraceOf, IncomingParent, Incoming,
         TopMarks, Complete;
    CompleteExactlyWhen(read, tx);
    SentWithIs(tx, ids, drawn);
    TopMarksIs(tx.records);
  }

  /** A header printed by `Format` in the last record that sets it is the one carried. */
  lemma CarriedFromText(tx: Tx, tag: string, h: string, gap: string, i: nat, version: nat, trace: TraceId,
                        parent: SpanId, flags: nat)
    requires i < |tx.records|
    requires tx.records[i] == Record(tag, h + ":" + gap + Format(version, trace, parent, flags))
    requires SameIgnoringCase(h, "traceparent") && IsWord(h) && ':' !in h && All(IsSpace, gap)
    requires forall j, v :: i < j < |tx.records| ==> !Sets(tx.records[j], tag, "traceparent", v)
    requires version < 255 && 0 < trace < Pow16(TRACE_DIGITS) && 0 < parent < Pow16(SPAN_DIGITS) && flags < 256
    ensures forall t :: Carries(tx, tag, t) <==> t == Traceparent(trace, parent, flags % 2 == 1)
  {
    hide Format, Parse, Vsl.Header, Sets, IsSpace, Pow16, HeaderSetTo, SameIgnoringCase;
    var v := Format(version, trace, parent, flags);
    FormatEnds(version, trace, parent, flags);
    assert h + [] + ":" + gap + v + [] == h + ":" + gap + v;
    LowerName();
    HeaderOfPrinted(tx, tag, h, "traceparent", [], gap, v, [], i);
    ParseOfFormat(version, trace, parent, flags);
    forall raw ensures HeaderSetTo(tx, tag, "traceparent", raw) <==> raw == v {
      HeaderExactlyWhen(tx, tag, "traceparent", raw);
    }
  }

  /** From the text: a request sent with a readable header hangs under that header's parent, in its trace. */
  lemma CallerIsParent(read: EpochReader, ids: IdStream, tx: Tx, drawn: Drawn, h: string, gap: string, i: nat,
                       version: nat, trace: TraceId, parent: SpanId, flags: nat)
    requires BuildSpans(read, ids, tx, drawn) != []
    requires i < |tx.records|
    requires tx.records[i] == Record("ReqHeader", h + ":" + gap + Format(version, trace, parent, flags))
    requires SameIgnoringCase(h, "traceparent") && IsWord(h) && ':' !in h && All(IsSpace, gap)
    requires forall j, v :: i < j < |tx.records| ==> !Sets(tx.records[j], "ReqHeader", "traceparent", v)
    requires version < 255 && 0 < trace < Pow16(TRACE_DIGITS) && 0 < parent < Pow16(SPAN_DIGITS) && flags < 256
    ensures var s := BuildSpans(read, ids, tx, drawn)[0]; s.parentId == parent && s.traceId == trace
    ensures flags % 2 == 1
  {
    hide BuildSpans, Format, Sets, IsSpace, Pow16, Carries, RequestTimes, TopMarks, Timed, SameIgnoringCase, OutcomeOf;
    CarriedFromText(tx, "ReqHeader", h, gap, i, version, trace, parent, flags);
    assert Carries(tx, "ReqHeader", Traceparent(trace, parent, flags % 2 == 1));
    OutcomeExactlyWhen(read, ids, tx, drawn);
    TopSpanIs(read, ids, tx, drawn);
  }

  lemma LowerName()
    ensures forall k :: 0 <= k < |"traceparent"| ==> !('A' <= "traceparent"[k] <= 'Z')
  {
  }

  lemma FormatEnds(version: nat, trace: TraceId, parent: SpanId, flags: nat)
    ensures var v := Format(version, trace, parent, flags);
      v != [] && !IsSpace(v[0]) && !IsSpace(v[|v| - 1])
  {
    hide Format, WellFormed, IsSpace;
    FormatParts(version, trace, parent, flags);
    EndsAreHex(Format(version, trace, parent, flags));
  }

  // ----- below the top -----

  /** A fetch's marks: its retry ordinal if it repeats one, and a trace minted apart from the group's. */
  ghost predicate FetchMarks(attrs: seq<Attr>, tx: Tx, incoming: SpanId, trace: TraceId, ordinal: nat) {
    forall a :: a in attrs <==>
      || (a == Retry(ordinal) && ordinal > 0)
      || (a == MintedTraceMismatch && exists t, s :: Mints(tx, incoming, t, s) && t != trace)
  }

  lemma NodeAttrsIs(w: Walk, tx: Tx, depth: nat)
    ensures tx.kind == "BeReq" ==> FetchMarks(NodeAttrs(w, tx, depth), tx, w.incoming, w.traceId, depth)
    ensures tx.kind != "BeReq" ==> NodeAttrs(w, tx, depth) == [Esi]
  {
    hide Mint, Mints;
    forall t, s ensures Mint(tx, w.incoming) == Some(Minted(t, s)) <==> Mints(tx, w.incoming, t, s) {
      MintExactlyWhen(tx, w.incoming, t, s);
    }
    if Mint(tx, w.incoming).Some? {
      var m := Mint(tx, w.incoming).value;
      assert m == Minted(m.trace, m.span);
      assert Mints(tx, w.incoming, m.trace, m.span);
    }
  }

  /** A span below the top, told by the records of its node. */
  ghost predicate SaysNode(read: EpochReader, s: Span, node: Tx, incoming: SpanId, trace: TraceId, ordinal: nat) {
    && s.vxid == node.vxid && s.traceId == trace && s.links == []
    && (forall t, id :: Mints(node, incoming, t, id) ==> s.spanId == id)
    && if node.kind == "BeReq" then SaysFetch(read, s, node, incoming, ordinal) else SaysFragment(read, s, node)
  }

  ghost predicate SaysFetch(read: EpochReader, s: Span, node: Tx, incoming: SpanId, ordinal: nat) {
    && s.kind.Fetch? && FetchTimes(read, node, s.start, s.end)
    && FetchMarks(s.attrs, node, incoming, s.traceId, ordinal)
  }

  ghost predicate SaysFragment(read: EpochReader, s: Span, node: Tx) {
    s.kind.Request? && RequestTimes(read, node, s.start, s.end) && s.attrs == [Esi]
  }

  /** Every other span: times, marks and minted id of its own node, in the trace of the top span. */
  lemma NodeSpanIs(read: EpochReader, ids: IdStream, tx: Tx, drawn: Drawn, i: nat)
    requires Builds(read, tx) && 0 < i < |NodePaths(read, tx)|
    ensures |BuildSpans(read, ids, tx, drawn)| == |NodePaths(read, tx)|
    ensures var spans, p := BuildSpans(read, ids, tx, drawn), NodePaths(read, tx)[i];
      && Valid(tx, p) && Yields(read, NodeAt(tx, p))
      && SaysNode(read, spans[i], NodeAt(tx, p), spans[0].parentId, spans[0].traceId, RetryOrdinal(tx, p))
  {
    hide Usable, Builds, BuildSpans, NodePaths, ParentAt, DepthAt, RetryOrdinal, TraceOf, IncomingParent, FetchEnd,
         NodeAttrs, RespEnd, Timestamp, RequestTimes, FetchTimes, FetchMarks, Yields, TopSpan, DrawnAt, IdOf, Mints;
    var w, p := WalkOf(read, ids, tx, drawn), NodePaths(read, tx)[i];
    BuiltSpanAt(read, ids, tx, drawn, i);
    var node := NodeAt(tx, p);
    UsableExactlyWhen(read, node);
    CompleteExactlyWhen(read, node);
    if node.kind != "BeReq" { UsableIsTimed(read, node); }
    DepthIsRetryOrdinal(tx, p);
    NodeAttrsIs(w, node, RetryOrdinal(tx, p));
    MintedIdIs(w, node, DrawnAt(w, tx, drawn.spans, p));
    TopIds(read, ids, tx, drawn);
  }

  lemma MintedIdIs(w: Walk, tx: Tx, n: nat)
    ensures forall t, id :: Mints(tx, w.incoming, t, id) ==> IdOf(w, tx, n) == id
    ensures (forall t, id :: !Mints(tx, w.incoming, t, id)) <==> Draws(w, tx)
  {
    hide Mint, Mints;
    forall t, id ensures Mint(tx, w.incoming) == Some(Minted(t, id)) <==> Mints(tx, w.incoming, t, id) {
      MintExactlyWhen(tx, w.incoming, t, id);
    }
    if Mint(tx, w.incoming).Some? {
      var m := Mint(tx, w.incoming).value;
      assert Mints(tx, w.incoming, m.trace, m.span);
    }
  }

  lemma UsableIsTimed(read: EpochReader, tx: Tx)
    requires Usable(read, tx) && tx.kind != "BeReq"
    ensures Complete(read, tx)
  {
  }

  lemma TopIds(read: EpochReader, ids: IdStream, tx: Tx, drawn: Drawn)
    requires Builds(read, tx)
    ensures var w, s := WalkOf(read, ids, tx, drawn), BuildSpans(read, ids, tx, drawn)[0];
      s.parentId == w.incoming && s.traceId == w.traceId
  {
    hide ListSpans;
  }

  // ----- ids from the source -----

  /** Neither the request nor a node of the group says which trace it belongs to. */
  ghost predicate SelfRooted(tx: Tx) {
    (forall t :: !Carries(tx, "ReqHeader", t)) && forall p, t, s :: Valid(tx, p) ==> !Mints(NodeAt(tx, p), 0, t, s)
  }

  /** The node at `p` mints `trace`, and no node before it mints anything. */
  ghost predicate MintsFirstOf(tx: Tx, p: Path, trace: TraceId) {
    && Valid(tx, p) && (exists s :: Mints(NodeAt(tx, p), 0, trace, s))
    && forall q, t, s :: Valid(tx, q) && Before(q, p) ==> !Mints(NodeAt(tx, q), 0, t, s)
  }

  /**
   A group draws a trace exactly if it is self-rooted, and then uses the one drawn; a request
   without a readable header otherwise joins the trace its first minting node writes.
   */
  lemma TraceFromRecords(read: EpochReader, ids: IdStream, tx: Tx, drawn: Drawn)
    requires Builds(read, tx)
    ensures var trace := BuildSpans(read, ids, tx, drawn)[0].traceId;
      && (SelfRooted(tx) ==> trace == ids.trace(drawn.traces))
      && ((forall t :: !Carries(tx, "ReqHeader", t)) && !SelfRooted(tx) ==> exists p :: MintsFirstOf(tx, p, trace))
    ensures DrawnAfter(read, ids, tx, drawn).traces == drawn.traces + if SelfRooted(tx) then 1 else 0
  {
    hide Complete, ListSpans, Carries, Mint, Mints, Incoming, ListFirstMint, NodeFirstMint, Valid, NodeAt, Before;
    forall t ensures Incoming(tx) == Some(t) <==> Carries(tx, "ReqHeader", t) { IncomingExactlyWhen(tx, t); }
    TopMint(tx);
    NodeFirstMintIs(tx, 0);
    forall p | Valid(tx, p)
      ensures Mint(NodeAt(tx, p), 0).None? <==> forall t, s :: !Mints(NodeAt(tx, p), 0, t, s)
      ensures Mint(NodeAt(tx, p), 0).Some? ==>
        exists s :: Mints(NodeAt(tx, p), 0, Mint(NodeAt(tx, p), 0).value.trace, s)
    {
      MintIs(NodeAt(tx, p));
    }
    match NodeFirstMint(tx, 0)
    case None =>
    case Some(t) =>
      var p :| MintsFirst(tx, 0, t, p);
      assert MintsFirstOf(tx, p, t);
  }

  lemma MintIs(tx: Tx)
    ensures Mint(tx, 0).None? <==> forall t, s :: !Mints(tx, 0, t, s)
    ensures Mint(tx, 0).Some? ==> exists s :: Mints(tx, 0, Mint(tx, 0).value.trace, s)
  {
    hide Mint, Mints;
    forall t, s ensures Mint(tx, 0) == Some(Minted(t, s)) <==> Mints(tx, 0, t, s) { MintExactlyWhen(tx, 0, t, s); }
    if Mint(tx, 0).Some? {
      var m := Mint(tx, 0).value;
      assert Mints(tx, 0, m.trace, m.span);
    }
  }

  /** A span of a node that mints nothing takes a number no later group can be given. */
  lemma DrawsStayInside(read: EpochReader, ids: IdStream, tx: Tx, drawn: Drawn, i: nat)
    requires Builds(read, tx) && i < |NodePaths(read, tx)|
    ensures |BuildSpans(read, ids, tx, drawn)| == |NodePaths(read, tx)|
    ensures var spans, p := BuildSpans(read, ids, tx, drawn), NodePaths(read, tx)[i];
      Valid(tx, p) && ((forall t, s :: !Mints(NodeAt(tx, p), spans[0].parentId, t, s)) ==>
        exists k :: drawn.spans <= k < DrawnAfter(read, ids, tx, drawn).spans && spans[i].spanId == ids.span(k))
  {
    hide Usable, NodePaths, BuildSpans, TraceOf, IncomingParent, Incoming, Complete, ListDraws, Mint, Mints, DrawnAt;
    var w, p := WalkOf(read, ids, tx, drawn), NodePaths(read, tx)[i];
    SpanContents(read, ids, tx, drawn, i);
    TopIds(read, ids, tx, drawn);
    MintedIdIs(w, NodeAt(tx, p), DrawnAt(w, tx, drawn.spans, p));
    if Draws(w, NodeAt(tx, p)) { DrawnBelow(read, ids, tx, drawn, i); }
  }

  lemma DrawnBelow(read: EpochReader, ids: IdStream, tx: Tx, drawn: Drawn, i: nat)
    requires Builds(read, tx) && i < |NodePaths(read, tx)| && Valid(tx, NodePaths(read, tx)[i])
    requires Draws(WalkOf(read, ids, tx, drawn), NodeAt(tx, NodePaths(read, tx)[i]))
    ensures var k := DrawnAt(WalkOf(read, ids, tx, drawn), tx, drawn.spans, NodePaths(read, tx)[i]);
      drawn.spans <= k < DrawnAfter(read, ids, tx, drawn).spans
  {
    hide Usable, NodePaths, TraceOf, IncomingParent, Incoming, Complete, ListDraws, Mint, DrawnAt, Visible;
    var w, p := WalkOf(read, ids, tx, drawn), NodePaths(read, tx)[i];
    NodePathsVisible(read, tx);
    assert p in NodePaths(read, tx);
    TopDraws(w, tx, drawn.spans);
    DrawnFrom(w, tx, drawn.spans, p);
    if p == [] {
      assert DrawnAt(w, tx, drawn.spans, p) == drawn.spans by { DrawnAtTop(w, tx, drawn.spans); }
    } else {
      DrawnInChild(w, tx, drawn.spans, p);
    }
  }

  lemma DrawnAtTop(w: Walk, tx: Tx, n: nat)
    ensures DrawnAt(w, tx, n, []) == n
  {
  }

  lemma DrawnInChild(w: Walk, tx: Tx, n: nat, p: Path)
    requires p != [] && Visible(w.read, tx, p) && Draws(w, NodeAt(tx, p)) && Draws(w, tx)
    ensures DrawnAt(w, tx, n, p) < n + 1 + ListDraws(w, tx.children)
  {
    hide Usable, Draws, ListDraws;
    var k := p[0];
    DrawnInside(w, tx.children[k], n + 1 + ListDraws(w, tx.children[..k]), p[1..]);
    ListDrawsSplit(w, tx.children, k);
  }

  // ----- how many ids a group draws -----

  ghost predicate DrawsFor(w: Walk, tx: Tx, p: Path) { SpanShape.Valid(tx, p) && Draws(w, NodeAt(tx, p)) }

  ghost function Drawing(w: Walk, tx: Tx, ps: seq<Path>): nat {
    if ps == [] then 0
    else Drawing(w, tx, ps[..|ps| - 1]) + if DrawsFor(w, tx, ps[|ps| - 1]) then 1 else 0
  }

  lemma {:induction false} DrawingAppend(w: Walk, tx: Tx, a: seq<Path>, b: seq<Path>)
    ensures Drawing(w, tx, a + b) == Drawing(w, tx, a) + Drawing(w, tx, b)
    decreases |b|
  {
    hide DrawsFor;
    if b == [] {
      assert a + b == a;
    } else {
      assert (a + b)[..|a + b| - 1] == a + b[..|b| - 1];
      DrawingAppend(w, tx, a, b[..|b| - 1]);
    }
  }

  lemma {:induction false} DrawingBelow(w: Walk, tx: Tx, k: nat, ps: seq<Path>)
    requires k < |tx.children|
    ensures Drawing(w, tx, Below(k, ps)) == Drawing(w, tx.children[k], ps)
  {
    hide Draws;
    if ps != [] {
      var n := |ps| - 1;
      DrawingBelow(w, tx, k, ps[..n]);
      assert Below(k, ps)[..n] == Below(k, ps[..n]);
      assert Below(k, ps)[n][1..] == ps[n];
    }
  }

  lemma {:induction false} NodeDrawsCounted(w: Walk, tx: Tx)
    ensures (if Draws(w, tx) then 1 else 0) + ListDraws(w, tx.children) == Drawing(w, tx, NodePaths(w.read, tx))
    decreases tx, |tx.children| + 1
  {
    hide Draws, ListDraws, ListPaths;
    var ps := ListPaths(w.read, tx.children);
    ListDrawsCounted(w, tx, |tx.children|);
    assert tx.children[..|tx.children|] == tx.children;
    var top: seq<Path> := [[]];
    DrawingAppend(w, tx, top, ps);
    assert top[..0] == [] && DrawsFor(w, tx, []) == Draws(w, tx);
    assert Drawing(w, tx, top) == if Draws(w, tx) then 1 else 0;
  }

  lemma {:induction false} ListDrawsCounted(w: Walk, tx: Tx, k: nat)
    requires k <= |tx.children|
    ensures ListDraws(w, tx.children[..k]) == Drawing(w, tx, ListPaths(w.read, tx.children[..k]))
    decreases tx, k
  {
    hide Draws, Usable, DrawsFor;
    if k > 0 {
      var c := tx.children[k - 1];
      assert tx.children[..k][..k - 1] == tx.children[..k - 1];
      ListDrawsCounted(w, tx, k - 1);
      NodeDrawsCounted(w, c);
      DrawingBelow(w, tx, k - 1, NodePaths(w.read, c));
      DrawingAppend(w, tx, ListPaths(w.read, tx.children[..k - 1]), Below(k - 1, NodePaths(w.read, c)));
      DrawingAppend(w, tx, ListPaths(w.read, tx.children[..k - 1]), []);
    }
  }

  /** The listed nodes that write no id of their own. */
  ghost function Unminted(tx: Tx, ps: seq<Path>, incoming: SpanId): set<int> {
    set i | 0 <= i < |ps| && SpanShape.Valid(tx, ps[i]) && forall t, s :: !Mints(NodeAt(tx, ps[i]), incoming, t, s)
  }

  lemma {:induction false} DrawingIsSet(w: Walk, tx: Tx, ps: seq<Path>)
    ensures Drawing(w, tx, ps) == |Unminted(tx, ps, w.incoming)|
  {
    hide Draws, Mints, SpanShape.Valid, NodeAt;
    if ps != [] {
      var n := |ps| - 1;
      DrawingIsSet(w, tx, ps[..n]);
      assert forall i :: 0 <= i < n ==> ps[..n][i] == ps[i];
      if SpanShape.Valid(tx, ps[n]) { MintedIdIs(w, NodeAt(tx, ps[n]), 0); }
      if DrawsFor(w, tx, ps[n]) {
        assert Unminted(tx, ps, w.incoming) == Unminted(tx, ps[..n], w.incoming) + {n};
      } else {
        assert Unminted(tx, ps, w.incoming) == Unminted(tx, ps[..n], w.incoming);
      }
    }
  }

  /** A group draws one span id for each of its spans whose node mints none, and no more; without spans, nothing. */
  lemma DrawsOneEach(read: EpochReader, ids: IdStream, tx: Tx, drawn: Drawn)
    ensures var spans, after := BuildSpans(read, ids, tx, drawn), DrawnAfter(read, ids, tx, drawn);
      && (spans == [] ==> after == drawn)
      && (spans != [] ==> after.spans == drawn.spans + |Unminted(tx, NodePaths(read, tx), spans[0].parentId)|)
  {
    hide Complete, ListDraws, Drawing, NodePaths, TraceOf, IncomingParent, Incoming, ListFirstMint, Unminted, ListSpans;
    var w := WalkOf(read, ids, tx, drawn);
    if Builds(read, tx) {
      TopDraws(w, tx, drawn.spans);
      NodeDrawsCounted(w, tx);
      DrawingIsSet(w, tx, NodePaths(read, tx));
    }
  }
}
