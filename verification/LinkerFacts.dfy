/**
 What a transaction group tells the linker, read off its records, and what a call with it does:
 which record names the fetch of a hit, when a group counts as a waiter, which continuations it
 announces.
 */
module LinkerFacts {
  import opened Wrappers
  import opened Text
  import opened Vsl
  import opened Records
  import opened Spans
  import opened SpanRecords
  import opened VxidCaches
  import opened Linking
  import opened LinkerCalls

  // ----- the facts -----

  /** The word is the number, with any zeros in front, and fits into 64 bits. */
  ghost predicate Numbers(word: string, n: nat) {
    n < 0x1_0000_0000_0000_0000 && exists zeros :: IsPadded(word, zeros, n)
  }

  /** The first `Hit` record starts with the number of a fetch. */
  ghost predicate HitNames(tx: Tx, v: Vxid) {
    exists raw :: Says(tx, "Hit", raw) && Fields(raw) != [] && Numbers(Fields(raw)[0], v)
  }

  lemma HitExactlyWhen(tx: Tx, v: Vxid)
    ensures HitOf(tx) == Some(v) <==> HitNames(tx, v)
  {
    hide First, Says, Fields, ParseUint64, IsPadded;
    forall raw ensures First(tx, "Hit") == Some(raw) <==> Says(tx, "Hit", raw) { FirstExactlyWhen(tx, "Hit", raw); }
    if First(tx, "Hit").Some? && Fields(First(tx, "Hit").value) != [] {
      ParseExactlyWhen(Fields(First(tx, "Hit").value)[0], v);
    }
  }

  /** A waiting-list stamp with a readable epoch. */
  ghost predicate Waited(read: EpochReader, tx: Tx) { exists t :: Stamped(read, tx, "Waitinglist", t) }

  /** `Begin` with `restart` as its third word. */
  ghost predicate BeginsRestart(tx: Tx) {
    exists b :: Says(tx, "Begin", b) && |Fields(b)| >= 3 && Fields(b)[2] == "restart"
  }

  lemma NoStampNoWait(read: EpochReader, tx: Tx)
    requires forall i :: 0 <= i < |tx.records| ==> !IsStamp(tx.records[i], "Waitinglist")
    ensures !Waited(read, tx)
  {
  }

  /** Everything the linker is told about a group, from its records. */
  lemma FactsFromRecords(read: EpochReader, tx: Tx)
    ensures var facts := FactsOf(read, tx);
      && facts.vxid == tx.vxid
      && (facts.continuation <==> tx.kind == "Request" && BeginsRestart(tx))
      && (facts.waiter <==> Waited(read, tx))
      && ((forall i :: 0 <= i < |tx.records| ==> !IsStamp(tx.records[i], "Waitinglist")) ==> !facts.waiter)
      && (forall v: Vxid :: facts.hit == Some(v) <==> HitNames(tx, v))
  {
    hide First, Says, Fields, Timestamp, Stamped, IsStamp, HitOf, HitNames, RestartKeys;
    if forall i :: 0 <= i < |tx.records| ==> !IsStamp(tx.records[i], "Waitinglist") { NoStampNoWait(read, tx); }
    forall b ensures First(tx, "Begin") == Some(b) <==> Says(tx, "Begin", b) { FirstExactlyWhen(tx, "Begin", b); }
    StampedIs(read, tx, "Waitinglist");
    forall v: Vxid ensures HitOf(tx) == Some(v) <==> HitNames(tx, v) { HitExactlyWhen(tx, v); }
  }

  // ----- announced continuations -----

  /** The record announces continuation `k`. */
  ghost predicate AnnouncesKey(r: Record, k: Vxid) { LinksRestart(r) && Numbers(Fields(r.payload)[1], k) }

  lemma RestartKeyExactlyWhen(r: Record, k: Vxid)
    ensures RestartKey(r) == Some(k) <==> AnnouncesKey(r, k)
  {
    hide Fields, ParseUint64, IsPadded;
    if IsRestartLink(r) { ParseExactlyWhen(Fields(r.payload)[1], k); }
  }

  /** `ps` lists, in order, every record that announces a continuation, and `keys` what each announces. */
  ghost predicate ListsKeys(rs: seq<Record>, keys: seq<Vxid>, ps: seq<int>) {
    && |ps| == |keys|
    && (forall j :: 0 <= j < |ps| ==> 0 <= ps[j] < |rs| && AnnouncesKey(rs[ps[j]], keys[j]))
    && (forall i, j :: 0 <= i < j < |ps| ==> ps[i] < ps[j])
    && (forall i, k :: 0 <= i < |rs| && AnnouncesKey(rs[i], k) ==> i in ps)
  }

  lemma ListsOneMore(init: seq<Record>, r: Record, keys: seq<Vxid>, ps: seq<int>)
    requires ListsKeys(init, keys, ps)
    ensures (forall k: Vxid :: !AnnouncesKey(r, k)) ==> ListsKeys(init + [r], keys, ps)
    ensures forall k: Vxid :: AnnouncesKey(r, k) ==> ListsKeys(init + [r], keys + [k], ps + [|init|])
  {
    hide AnnouncesKey;
    forall i, k: Vxid | 0 <= i < |init| && AnnouncesKey((init + [r])[i], k) ensures i in ps {
      assert AnnouncesKey(init[i], k);
    }
  }

  /** The announced continuations are exactly those of the records, in order. */
  lemma {:induction false} KeysFromRecords(rs: seq<Record>) returns (ps: seq<int>)
    ensures ListsKeys(rs, RestartKeys(rs), ps)
  {
    hide RestartKey, AnnouncesKey, ListsKeys;
    if rs == [] {
      ps := [];
      NothingListed();
    } else {
      var init, r := rs[..|rs| - 1], rs[|rs| - 1];
      assert rs == init + [r];
      ps := KeysFromRecords(init);
      ListsOneMore(init, r, RestartKeys(init), ps);
      forall k: Vxid ensures RestartKey(r) == Some(k) <==> AnnouncesKey(r, k) { RestartKeyExactlyWhen(r, k); }
      if RestartKey(r).Some? {
        assert AnnouncesKey(r, RestartKey(r).value);
        ps := ps + [|init|];
      }
    }
  }

  lemma NothingListed()
    ensures ListsKeys([], [], [])
  {
  }

  // ----- what a call does with them -----

  /** The call made for a group. */
  ghost function CallOf(read: EpochReader, tx: Tx, built: seq<Span>, now: Time): Event {
    Event(FactsOf(read, tx), built, now)
  }

  /**
   What becomes of a group whose records name the hit `v`: linked if that fetch is cached once the
   group's own fetches are; otherwise withheld if it had waited, and given up at once if not. A
   group that names no hit leaves as it is.
   */
  lemma CallFromRecords(st: State, read: EpochReader, tx: Tx, built: seq<Span>, now: Time, v: Vxid)
    requires built != []
    ensures var e := CallOf(read, tx, built, now);
      var found := Lookup(StepState(st, e).fetches, v, now);
      && (HitNames(tx, v) && found.Some? ==> LeavesLast(st, e, Linked(found.value)))
      && (HitNames(tx, v) && found.None? && !Waited(read, tx) ==> LeavesLast(st, e, Degraded))
      && (HitNames(tx, v) && found.None? && Waited(read, tx) ==> IsWithheld(st, e, v))
      && ((forall u: Vxid :: !HitNames(tx, u)) ==> LeavesLast(st, e, AsIs))
  {
    hide FactsOf, StepState, Lookup, LeavesLast, IsWithheld, HitNames, Waited;
    FactsFromRecords(read, tx);
    BuildingCall(st, CallOf(read, tx, built, now));
  }

  /** From the text: a hit on fetch `v`, and a stamp whose epoch is readable or not. */
  lemma PrintedHit(tx: Tx, v: Vxid, rest: string, i: nat)
    requires i < |tx.records| && tx.records[i] == Record("Hit", FormatUint(v) + rest)
    requires (rest == [] || IsSpace(rest[0])) && v < 0x1_0000_0000_0000_0000
    requires forall j :: 0 <= j < i ==> tx.records[j].tag != "Hit"
    ensures HitNames(tx, v)
  {
    hide Fields, FormatUint;
    DecimalOfFormat(v);
    DigitsAreNoSpaces(FormatUint(v));
    FieldsOfFirst(FormatUint(v), rest);
    assert Says(tx, "Hit", FormatUint(v) + rest);
    assert IsPadded(FormatUint(v), [], v);
  }

  lemma DigitsAreNoSpaces(s: string)
    requires All(IsDigit, s)
    ensures All(NotSpace, s)
  {
  }

  lemma PrintedWait(read: EpochReader, tx: Tx, epoch: string, rest: string, i: nat)
    requires i < |tx.records| && tx.records[i] == Record("Timestamp", "Waitinglist: " + epoch + rest)
    requires IsWord(epoch) && (rest == [] || IsSpace(rest[0]))
    requires forall j :: 0 <= j < i ==> !IsStamp(tx.records[j], "Waitinglist")
    ensures Waited(read, tx) <==> read(epoch).Some?
  {
    hide Timestamp, Stamped;
    assert "Waitinglist" + ": " == "Waitinglist: ";
    TimestampOfPrinted(read, tx, "Waitinglist", epoch, rest, i);
    StampedIs(read, tx, "Waitinglist");
  }
}
