/** Building the span list of one top-level transaction (`internal/tracer/spans/spans.go`). */
module Spans {
  import opened Wrappers
  import opened Text
  import opened Traceparents
  import opened Vsl

  datatype Kind = Request | Fetch

  /** The attributes that carry structure; purely descriptive ones are not modelled. */
  datatype Attr =
    | Restarts(count: nat)
    | Retry(ordinal: nat)
    | Esi
    | MintedTraceMismatch
    | RestartContinuation
    | Coalesced
    | CoalescedUnlinked

  /** A soft reference to the fetch a hit was served from (`varnish.link=origin-fetch`). */
  datatype Link = Link(traceId: TraceId, spanId: SpanId)

  datatype Span = Span(
    traceId: TraceId, spanId: SpanId, parentId: SpanId, kind: Kind,
    start: Time, end: Time, attrs: seq<Attr>, links: seq<Link>, vxid: Vxid)

  datatype Outcome = Built | Unsampled | Unusable

  /** The ids a source hands out, by draw number. */
  datatype IdStream = IdStream(trace: nat -> TraceId, span: nat -> SpanId)

  // ----- reading one transaction -----

  function RespEnd(read: EpochReader, tx: Tx): Option<Time> {
    if Timestamp(read, tx, "Resp").Some? then Timestamp(read, tx, "Resp")
    else if Timestamp(read, tx, "Restart").Some? then Timestamp(read, tx, "Restart")
    else Timestamp(read, tx, "PipeSess")
  }

  function FetchEnd(read: EpochReader, tx: Tx): Option<Time> {
    if Timestamp(read, tx, "BerespBody").Some? then Timestamp(read, tx, "BerespBody")
    else Timestamp(read, tx, "Beresp")
  }

  predicate IsRestartLink(r: Record) {
    r.tag == "Link" && |Fields(r.payload)| >= 3 && Fields(r.payload)[0] == "req" && Fields(r.payload)[2] == "restart"
  }

  function CountRestarts(rs: seq<Record>): nat {
    if rs == [] then 0 else CountRestarts(rs[..|rs| - 1]) + if IsRestartLink(rs[|rs| - 1]) then 1 else 0
  }

  predicate IsEsi(tx: Tx) {
    match First(tx, "Begin")
    case None => false
    case Some(b) => Contains(b, "esi")
  }

  /** A node below the top that yields a span of its own. */
  predicate Usable(read: EpochReader, tx: Tx) {
    if tx.kind == "BeReq" then Timestamp(read, tx, "Bereq").Some? && FetchEnd(read, tx).Some?
    else tx.kind == "Request" && IsEsi(tx) && Timestamp(read, tx, "Start").Some? && RespEnd(read, tx).Some?
  }

  function Incoming(tx: Tx): Option<Traceparent> {
    match Header(tx, "ReqHeader", "traceparent")
    case None => None
    case Some(raw) => Parse(raw)
  }

  datatype Minted = Minted(trace: TraceId, span: SpanId)

  /** The ids the VCL wrote into this fetch's own header, unless it only forwarded the incoming parent. */
  function Mint(tx: Tx, incoming: SpanId): (r: Option<Minted>)
    ensures r.Some? ==> r.value.trace != 0
  {
    if tx.kind != "BeReq" then None
    else match Header(tx, "BereqHeader", "traceparent")
      case None => None
      case Some(raw) =>
        match Parse(raw)
        case None => None
        case Some(t) => if t.parent == incoming then None else Some(Minted(t.trace, t.parent))
  }

  // ----- what is built -----

  /** What is fixed while the tree of one transaction is walked. */
  datatype Walk = Walk(read: EpochReader, ids: IdStream, incoming: SpanId, traceId: TraceId)

  predicate Draws(w: Walk, tx: Tx) { Mint(tx, w.incoming).None? }

  /** Span id of a node when `n` ids have been drawn before it. */
  function IdOf(w: Walk, tx: Tx, n: nat): SpanId {
    match Mint(tx, w.incoming)
    case None => w.ids.span(n)
    case Some(m) => m.span
  }

  function NodeAttrs(w: Walk, tx: Tx, depth: nat): seq<Attr> {
    if tx.kind == "BeReq" then
      (if depth > 0 then [Retry(depth)] else []) +
      (if Mint(tx, w.incoming).Some? && Mint(tx, w.incoming).value.trace != w.traceId then [MintedTraceMismatch]
       else [])
    else [Esi]
  }

  function NodeSpan(w: Walk, tx: Tx, parent: SpanId, depth: nat, id: SpanId): Span
    requires Usable(w.read, tx)
  {
    if tx.kind == "BeReq" then
      Span(w.traceId, id, parent, Fetch, Timestamp(w.read, tx, "Bereq").value, FetchEnd(w.read, tx).value,
           NodeAttrs(w, tx, depth), [], tx.vxid)
    else
      Span(w.traceId, id, parent, Request, Timestamp(w.read, tx, "Start").value, RespEnd(w.read, tx).value,
           NodeAttrs(w, tx, depth), [], tx.vxid)
  }

  function NextDepth(tx: Tx, depth: nat): nat { if tx.kind == "BeReq" then depth + 1 else 0 }

  /** Ids drawn for a node and everything below it. */
  function NodeDraws(w: Walk, tx: Tx): nat
    decreases tx, 1
  {
    if !Usable(w.read, tx) then 0 else (if Draws(w, tx) then 1 else 0) + ListDraws(w, tx.children)
  }

  function ListDraws(w: Walk, txs: seq<Tx>): nat
    decreases txs, 0
  {
    if txs == [] then 0 else ListDraws(w, txs[..|txs| - 1]) + NodeDraws(w, txs[|txs| - 1])
  }

  function AfterOwn(w: Walk, tx: Tx, n: nat): nat { if Draws(w, tx) then n + 1 else n }

  function NodeSpans(w: Walk, tx: Tx, parent: SpanId, depth: nat, n: nat): (r: seq<Span>)
    decreases tx, 1
  {
    if !Usable(w.read, tx) then []
    else
      var id := IdOf(w, tx, n);
      [NodeSpan(w, tx, parent, depth, id)] + ListSpans(w, tx.children, id, NextDepth(tx, depth), AfterOwn(w, tx, n))
  }

  function ListSpans(w: Walk, txs: seq<Tx>, parent: SpanId, depth: nat, n: nat): (r: seq<Span>)
    decreases txs, 0
  {
    if txs == [] then []
    else
      var init, last := txs[..|txs| - 1], txs[|txs| - 1];
      ListSpans(w, init, parent, depth, n) + NodeSpans(w, last, parent, depth, n + ListDraws(w, init))
  }

  /** Trace id minted first, in the order the tree is walked. */
  function NodeFirstMint(tx: Tx, incoming: SpanId): (r: Option<TraceId>)
    ensures r.Some? ==> r.value != 0
    decreases tx, 1
  {
    match Mint(tx, incoming)
    case Some(m) => Some(m.trace)
    case None => ListFirstMint(tx.children, incoming)
  }

  function ListFirstMint(txs: seq<Tx>, incoming: SpanId): (r: Option<TraceId>)
    ensures r.Some? ==> r.value != 0
    decreases txs, 0
  {
    if txs == [] then None
    else match ListFirstMint(txs[..|txs| - 1], incoming)
      case Some(t) => Some(t)
      case None => NodeFirstMint(txs[|txs| - 1], incoming)
  }

  /** Ids drawn so far. */
  datatype Drawn = Drawn(traces: nat, spans: nat)

  predicate Complete(read: EpochReader, tx: Tx) {
    Timestamp(read, tx, "Start").Some? && RespEnd(read, tx).Some?
  }

  function OutcomeOf(read: EpochReader, tx: Tx): Outcome {
    if tx.kind != "Request" then Built
    else if !Complete(read, tx) then Unusable
    else if Incoming(tx).Some? && !Incoming(tx).value.sampled then Unsampled
    else Built
  }

  predicate Builds(read: EpochReader, tx: Tx) {
    tx.kind == "Request" && Complete(read, tx) && !(Incoming(tx).Some? && !Incoming(tx).value.sampled)
  }

  function IncomingParent(tx: Tx): SpanId { if Incoming(tx).Some? then Incoming(tx).value.parent else 0 }

  /** Incoming trace id, else the first minted one, else a fresh one. */
  function TraceOf(tx: Tx, ids: IdStream, drawn: Drawn): TraceId {
    if Incoming(tx).Some? then Incoming(tx).value.trace
    else match ListFirstMint(tx.children, 0)
      case Some(t) => t
      case None => ids.trace(drawn.traces)
  }

  function WalkOf(read: EpochReader, ids: IdStream, tx: Tx, drawn: Drawn): Walk {
    Walk(read, ids, IncomingParent(tx), TraceOf(tx, ids, drawn))
  }

  function TopSpan(w: Walk, tx: Tx, id: SpanId): Span
    requires Complete(w.read, tx)
  {
    var n := CountRestarts(tx.records);
    Span(w.traceId, id, w.incoming, Request, Timestamp(w.read, tx, "Start").value, RespEnd(w.read, tx).value,
         if n > 0 then [Restarts(n)] else [], [], tx.vxid)
  }

  function BuildSpans(read: EpochReader, ids: IdStream, tx: Tx, drawn: Drawn): (r: seq<Span>) {
    if !Builds(read, tx) then []
    else
      var w := WalkOf(read, ids, tx, drawn);
      var id := ids.span(drawn.spans);
      [TopSpan(w, tx, id)] + ListSpans(w, tx.children, id, 0, drawn.spans + 1)
  }

  function DrawnAfter(read: EpochReader, ids: IdStream, tx: Tx, drawn: Drawn): Drawn {
    if !Builds(read, tx) then drawn
    else
      var w := WalkOf(read, ids, tx, drawn);
      Drawn(if Incoming(tx).None? && ListFirstMint(tx.children, 0).None? then drawn.traces + 1 else drawn.traces,
            drawn.spans + 1 + ListDraws(w, tx.children))
  }
}
