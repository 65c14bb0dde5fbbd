/**
 What the accessors of `internal/tracer/vsl/vsl.go` answer, told by the records alone: which record
 decides, and what its text has to look like.
 */
module Records {
  import opened Wrappers
  import opened Text
  import opened Vsl

  // ----- the first record of a tag -----

  /** The first record tagged `tag` has this payload. */
  ghost predicate Says(tx: Tx, tag: string, payload: string) {
    exists i :: 0 <= i < |tx.records| && tx.records[i] == Record(tag, payload)
             && forall j :: 0 <= j < i ==> tx.records[j].tag != tag
  }

  ghost predicate Silent(tx: Tx, tag: string) { forall i :: 0 <= i < |tx.records| ==> tx.records[i].tag != tag }

  lemma FirstExactlyWhen(tx: Tx, tag: string, payload: string)
    ensures First(tx, tag) == Some(payload) <==> Says(tx, tag, payload)
    ensures First(tx, tag).None? <==> Silent(tx, tag)
  {
    hide FindFirst;
    var f := (r: Record) => r.tag == tag;
    FindFirstIs(f, tx.records);
    if FindFirst(f, tx.records).Some? {
      var i :| FirstAt(f, tx.records, i) && FindFirst(f, tx.records).value == tx.records[i];
      assert tx.records[i] == Record(tag, First(tx, tag).value);
    }
  }

  // ----- timestamps -----

  /** `Timestamp <label>: ...` */
  predicate IsStamp(r: Record, name: string) { r.tag == "Timestamp" && name + ": " <= r.payload }

  /** The first stamp of that label, at `i`, has a first word that reads as `t`. */
  ghost predicate StampReads(read: EpochReader, tx: Tx, name: string, i: int, t: Time) {
    && 0 <= i < |tx.records| && IsStamp(tx.records[i], name)
    && (forall j :: 0 <= j < i ==> !IsStamp(tx.records[j], name))
    && var words := Fields(tx.records[i].payload[|name| + 2..]);
       words != [] && read(words[0]) == Some(t)
  }

  ghost predicate Stamped(read: EpochReader, tx: Tx, name: string, t: Time) {
    exists i :: StampReads(read, tx, name, i, t)
  }

  lemma TimestampExactlyWhen(read: EpochReader, tx: Tx, name: string, t: Time)
    ensures Timestamp(read, tx, name) == Some(t) <==> Stamped(read, tx, name, t)
  {
    hide FindFirst, Fields;
    var prefix := name + ": ";
    var f := (r: Record) => r.tag == "Timestamp" && prefix <= r.payload;
    FindFirstIs(f, tx.records);
    assert forall i :: 0 <= i < |tx.records| ==> f(tx.records[i]) == IsStamp(tx.records[i], name);
    if FindFirst(f, tx.records).Some? {
      var i :| FirstAt(f, tx.records, i) && FindFirst(f, tx.records).value == tx.records[i];
      if Timestamp(read, tx, name) == Some(t) { assert StampReads(read, tx, name, i, t); }
    }
  }

  /** A printed stamp is read, whatever follows the epoch. */
  lemma TimestampOfPrinted(read: EpochReader, tx: Tx, name: string, epoch: string, rest: string, i: nat)
    requires i < |tx.records| && tx.records[i] == Record("Timestamp", name + ": " + epoch + rest)
    requires IsWord(epoch) && (rest == [] || IsSpace(rest[0]))
    requires forall j :: 0 <= j < i ==> !IsStamp(tx.records[j], name)
    ensures Timestamp(read, tx, name) == read(epoch)
  {
    hide FindFirst, Fields;
    var prefix := name + ": ";
    var payload := tx.records[i].payload;
    assert payload == prefix + (epoch + rest) && payload[|name| + 2..] == epoch + rest;
    FieldsOfFirst(epoch, rest);
    assert IsStamp(tx.records[i], name);
    forall t ensures Timestamp(read, tx, name) == Some(t) <==> read(epoch) == Some(t) {
      TimestampExactlyWhen(read, tx, name, t);
      assert forall k :: StampReads(read, tx, name, k, t) ==> k == i;
      assert StampReads(read, tx, name, i, t) <==> read(epoch) == Some(t);
    }
  }

  // ----- headers -----

  /** `<name>: <value>`, cut at the first colon, blanks around both parts and case of the name aside. */
  ghost predicate Sets(r: Record, tag: string, name: string, value: string) {
    r.tag == tag && exists c :: CutsAt(r.payload, name, value, c)
  }

  /** The last record that sets the header sets it to `value`. */
  ghost predicate HeaderSetTo(tx: Tx, tag: string, name: string, value: string) {
    exists i :: 0 <= i < |tx.records| && Sets(tx.records[i], tag, name, value)
             && forall j, v :: i < j < |tx.records| ==> !Sets(tx.records[j], tag, name, v)
  }

  ghost predicate HeaderUnset(tx: Tx, tag: string, name: string) {
    forall i, v :: 0 <= i < |tx.records| ==> !Sets(tx.records[i], tag, name, v)
  }

  lemma OneFirst(s: string, x: char, a: nat, b: nat)
    requires a < |s| && b < |s| && s[a] == s[b] == x && x !in s[..a] && x !in s[..b]
    ensures a == b
  {
  }

  /** The payload is cut at its first colon into a name and a value. */
  ghost predicate CutsAt(payload: string, name: string, value: string, c: int) {
    && 0 <= c < |payload| && payload[c] == ':' && ':' !in payload[..c]
    && Lower(TrimSpace(payload[..c])) == name && TrimSpace(payload[c + 1..]) == value
  }

  lemma SetsIs(r: Record, tag: string, name: string, value: string)
    ensures Sets(r, tag, name, value) <==> SetsHeader(r, tag, name) && HeaderValue(r) == value
  {
    hide Lower, TrimSpace, IndexOf;
    var at := IndexOf(r.payload, ':');
    if at.Some? {
      forall c | CutsAt(r.payload, name, value, c) ensures c == at.value { OneFirst(r.payload, ':', c, at.value); }
      assert r.tag == tag && SetsHeader(r, tag, name) && HeaderValue(r) == value ==>
        CutsAt(r.payload, name, value, at.value);
    }
  }

  lemma HeaderExactlyWhen(tx: Tx, tag: string, name: string, value: string)
    ensures Vsl.Header(tx, tag, name) == Some(value) <==> HeaderSetTo(tx, tag, name, value)
    ensures Vsl.Header(tx, tag, name).None? <==> HeaderUnset(tx, tag, name)
  {
    hide FindLast, Sets, SetsHeader, HeaderValue;
    var f := (r: Record) => SetsHeader(r, tag, name);
    FindLastIs(f, tx.records);
    forall i, v | 0 <= i < |tx.records|
      ensures Sets(tx.records[i], tag, name, v) <==> f(tx.records[i]) && HeaderValue(tx.records[i]) == v
    {
      SetsIs(tx.records[i], tag, name, v);
    }
    if FindLast(f, tx.records).Some? {
      var i :| LastAt(f, tx.records, i) && FindLast(f, tx.records).value == tx.records[i];
      assert Sets(tx.records[i], tag, name, HeaderValue(tx.records[i]));
    }
  }

  /** The name in any case. */
  ghost predicate SameIgnoringCase(h: string, name: string) {
    |h| == |name| && forall i :: 0 <= i < |h| ==>
      h[i] == name[i] || ('a' <= name[i] <= 'z' && 'A' <= h[i] <= 'Z' && h[i] - 'A' == name[i] - 'a')
  }

  /** A printed header is found under its name in any case, whatever blanks surround name and value. */
  lemma HeaderOfPrinted(tx: Tx, tag: string, h: string, name: string, before: string, gap: string, value: string,
                        after: string, i: nat)
    requires i < |tx.records| && tx.records[i] == Record(tag, h + before + ":" + gap + value + after)
    requires SameIgnoringCase(h, name) && IsWord(h) && ':' !in h
    requires forall k :: 0 <= k < |name| ==> !('A' <= name[k] <= 'Z')
    requires All(IsSpace, before) && All(IsSpace, gap) && All(IsSpace, after)
    requires value != [] ==> !IsSpace(value[0]) && !IsSpace(value[|value| - 1])
    requires forall j, v :: i < j < |tx.records| ==> !Sets(tx.records[j], tag, name, v)
    ensures Vsl.Header(tx, tag, name) == Some(value)
  {
    hide TrimSpace, IsSpace;
    var payload, c := tx.records[i].payload, |h| + |before|;
    assert payload == (h + before) + [':'] + (gap + value + after);
    assert payload[..c] == [] + h + before && payload[c] == ':' && payload[c + 1..] == gap + value + after;
    assert ':' !in before by { ColonIsNoSpace(); }
    assert NotSpace(h[0]) && NotSpace(h[|h| - 1]);
    TrimOfPadded([], h, before);
    TrimOfPadded(gap, value, after);
    assert Lower(h) == name;
    assert CutsAt(payload, name, value, c);
    assert Sets(tx.records[i], tag, name, value);
    HeaderExactlyWhen(tx, tag, name, value);
  }

  lemma ColonIsNoSpace()
    ensures !IsSpace(':')
  {
  }
}
