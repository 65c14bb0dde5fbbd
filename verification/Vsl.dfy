/** Transactions of the shared-memory log and the accessors of `internal/tracer/vsl/vsl.go`. */
module Vsl {
  import opened Wrappers
  import opened Text

  /** Reads the epoch field of a Timestamp record; None when it is not a number. */
  type EpochReader = string -> Option<Time>

  datatype Record = Record(tag: string, payload: string)

  datatype Tx = Tx(kind: string, vxid: Vxid, records: seq<Record>, children: seq<Tx>)

  // ----- what the accessors mean -----

  /** Position `i` holds the first record satisfying `f`. */
  ghost predicate FirstAt(f: Record -> bool, rs: seq<Record>, i: int) {
    0 <= i < |rs| && f(rs[i]) && forall j :: 0 <= j < i ==> !f(rs[j])
  }

  ghost predicate LastAt(f: Record -> bool, rs: seq<Record>, i: int) {
    0 <= i < |rs| && f(rs[i]) && forall j :: i < j < |rs| ==> !f(rs[j])
  }

  function FindFirst(f: Record -> bool, rs: seq<Record>): (r: Option<Record>)
    ensures r.Some? ==> f(r.value)
  {
    if rs == [] then None else if f(rs[0]) then Some(rs[0]) else FindFirst(f, rs[1..])
  }

  function FindLast(f: Record -> bool, rs: seq<Record>): Option<Record> {
    if rs == [] then None else if f(rs[|rs| - 1]) then Some(rs[|rs| - 1]) else FindLast(f, rs[..|rs| - 1])
  }

  lemma {:induction false} FindFirstIs(f: Record -> bool, rs: seq<Record>)
    ensures match FindFirst(f, rs)
      case None => forall i :: 0 <= i < |rs| ==> !f(rs[i])
      case Some(r) => exists i :: FirstAt(f, rs, i) && r == rs[i]
  {
    if rs != [] {
      if f(rs[0]) {
        assert FirstAt(f, rs, 0);
      } else {
        FindFirstIs(f, rs[1..]);
        if FindFirst(f, rs).Some? {
          var i :| FirstAt(f, rs[1..], i) && FindFirst(f, rs).value == rs[1..][i];
          assert FirstAt(f, rs, i + 1);
        }
      }
    }
  }

  lemma {:induction false} FindLastIs(f: Record -> bool, rs: seq<Record>)
    ensures match FindLast(f, rs)
      case None => forall i :: 0 <= i < |rs| ==> !f(rs[i])
      case Some(r) => exists i :: LastAt(f, rs, i) && r == rs[i]
  {
    if rs != [] {
      var init := rs[..|rs| - 1];
      if f(rs[|rs| - 1]) {
        assert LastAt(f, rs, |rs| - 1);
      } else {
        FindLastIs(f, init);
        if FindLast(f, init).Some? {
          var i :| LastAt(f, init, i) && FindLast(f, init).value == init[i];
          assert LastAt(f, rs, i);
        }
      }
    }
  }

  function First(tx: Tx, tag: string): Option<string> {
    match FindFirst((r: Record) => r.tag == tag, tx.records)
    case None => None
    case Some(r) => Some(r.payload)
  }

  /** `Timestamp <name>: <epoch> ...`: the first such record decides, even when malformed. */
  function Timestamp(read: EpochReader, tx: Tx, name: string): Option<Time> {
    var prefix := name + ": ";
    match FindFirst((r: Record) => r.tag == "Timestamp" && prefix <= r.payload, tx.records)
    case None => None
    case Some(r) =>
      var fields := Fields(r.payload[|prefix|..]);
      if fields == [] then None else read(fields[0])
  }

  /** The record sets header `name` (given in lower case). */
  predicate SetsHeader(r: Record, tag: string, name: string) {
    && r.tag == tag && IndexOf(r.payload, ':').Some?
    && Lower(TrimSpace(r.payload[..IndexOf(r.payload, ':').value])) == name
  }

  function HeaderValue(r: Record): string {
    match IndexOf(r.payload, ':')
    case None => ""
    case Some(i) => TrimSpace(r.payload[i + 1..])
  }

  /** The value the header was last set to. */
  function Header(tx: Tx, tag: string, name: string): Option<string> {
    match FindLast((r: Record) => SetsHeader(r, tag, name), tx.records)
    case None => None
    case Some(r) => Some(HeaderValue(r))
  }

  // ----- the loops -----

  method ScanFirst(tx: Tx, tag: string) returns (payload: string, ok: bool)
    ensures First(tx, tag) == if ok then Some(payload) else None
    ensures !ok ==> payload == ""
  {
    ghost var f := (r: Record) => r.tag == tag;
    for i := 0 to |tx.records|
      invariant FindFirst(f, tx.records) == FindFirst(f, tx.records[i..])
    {
      var r := tx.records[i];
      assert tx.records[i..][0] == r && tx.records[i..][1..] == tx.records[i + 1..];
      if r.tag == tag {
        return r.payload, true;
      }
    }
    return "", false;
  }

  method CutHeader(r: Record, tag: string, name: string) returns (value: string, ok: bool)
    ensures ok == SetsHeader(r, tag, name) && (ok ==> value == HeaderValue(r))
  {
    hide Lower, TrimSpace, IndexOf;
    value, ok := "", false;
    if r.tag == tag {
      var colon := IndexOf(r.payload, ':');
      if colon.Some? && Lower(TrimSpace(r.payload[..colon.value])) == name {
        value, ok := TrimSpace(r.payload[colon.value + 1..]), true;
      }
    }
  }

  lemma FindLastSnoc(f: Record -> bool, rs: seq<Record>, i: nat)
    requires i < |rs|
    ensures FindLast(f, rs[..i + 1]) == if f(rs[i]) then Some(rs[i]) else FindLast(f, rs[..i])
  {
    assert rs[..i + 1][..i] == rs[..i];
  }

  /** One forward pass that keeps overwriting the value found so far. */
  method ScanHeader(tx: Tx, tag: string, name: string) returns (value: string, found: bool)
    ensures Header(tx, tag, name) == if found then Some(value) else None
  {
    value, found := "", false;
    ghost var f := (r: Record) => SetsHeader(r, tag, name);
    for i := 0 to |tx.records|
      invariant match FindLast(f, tx.records[..i])
        case None => !found
        case Some(r) => found && value == HeaderValue(r)
    {
      FindLastSnoc(f, tx.records, i);
      var v, ok := CutHeader(tx.records[i], tag, name);
      if ok {
        value, found := v, true;
      }
    }
    assert tx.records[..|tx.records|] == tx.records;
  }
}
