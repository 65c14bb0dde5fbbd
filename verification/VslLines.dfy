/**
 The two line shapes of `varnishlog -g request` output, as the expressions of
 `internal/tracer/vsl/vsl.go` match them.
 */
module VslLines {
  import opened Wrappers
  import opened Text
  import opened Vsl

  datatype Line =
    | Blank
    | Header(level: nat, kind: string, vxid: Vxid)
    | Entry(level: nat, record: Record)
    | Junk

  // Character classes of the expressions.
  predicate IsStar(c: char) { c == '*' }
  predicate IsDash(c: char) { c == '-' }
  predicate IsGap(c: char) { c in {'\t', '\n', '\U{0c}', '\r', ' '} }
  predicate NotGap(c: char) { !IsGap(c) }
  predicate IsWordChar(c: char) { '0' <= c <= '9' || 'A' <= c <= 'Z' || 'a' <= c <= 'z' || c == '_' }

  /** The blanks and word characters of the expressions, by their code points. */
  lemma Classes(c: char)
    ensures IsGap(c) <==> (c as int) in {9, 10, 12, 13, 32}
    ensures var code := c as int;
      IsWordChar(c) <==> 48 <= code <= 57 || 65 <= code <= 90 || code == 95 || 97 <= code <= 122
  {
  }

  /** A non-empty run of `f` characters and what follows it. */
  function Run(f: char -> bool, s: string): Option<(string, string)> {
    if TakeWhile(f, s) == [] then None else Some((TakeWhile(f, s), DropWhile(f, s)))
  }

  function Literal(lit: string, s: string): Option<string> {
    if lit <= s then Some(s[|lit|..]) else None
  }

  /** Digits as a 64-bit number; a value out of range saturates. */
  function Saturated(digits: string): Vxid
    requires All(IsDigit, digits)
  {
    if Decimal(digits) < UINT64_LIMIT then Decimal(digits) else UINT64_LIMIT - 1
  }

  /** `>> <digits>` up to the end of the line. */
  function MatchTail(level: nat, kind: string, s: string): Option<Line> {
    match Literal(">>", s)
    case None => None
    case Some(a) =>
      match Run(IsGap, a)
      case None => None
      case Some((_, b)) =>
        match Run(IsDigit, b)
        case None => None
        case Some((digits, c)) =>
          if TakeWhile(IsGap, c) == c then Some(Header(level, kind, Saturated(digits))) else None
  }

  /** `<< <word>` and the tail. */
  function MatchKind(level: nat, s: string): Option<Line> {
    match Literal("<<", s)
    case None => None
    case Some(a) =>
      match Run(IsGap, a)
      case None => None
      case Some((_, b)) =>
        match Run(IsWordChar, b)
        case None => None
        case Some((kind, c)) =>
          match Run(IsGap, c)
          case None => None
          case Some((_, d)) => MatchTail(level, kind, d)
  }

  /** `^(\*+)\s+<<\s+(\w+)\s+>>\s+(\d+)\s*$` */
  function MatchHeader(s: string): Option<Line> {
    match Run(IsStar, s)
    case None => None
    case Some((stars, a)) =>
      match Run(IsGap, a)
      case None => None
      case Some((_, b)) => MatchKind(|stars|, b)
  }

  /** `^(-+)\s+(\S+)\s*(.*)$` */
  function MatchRecord(s: string): Option<Line> {
    match Run(IsDash, s)
    case None => None
    case Some((dashes, a)) =>
      match Run(IsGap, a)
      case None => None
      case Some((_, b)) =>
        match Run(NotGap, b)
        case None => None
        case Some((tag, c)) => Some(Entry(|dashes|, Record(tag, DropWhile(IsGap, c))))
  }

  function Classify(s: string): (r: Line)
    ensures r.Header? || r.Entry? ==> r.level >= 1
  {
    if TrimSpace(s) == "" then Blank
    else match MatchHeader(s)
      case Some(h) => h
      case None => match MatchRecord(s) case Some(r) => r case None => Junk
  }

  // ----- printing -----

  function Repeat(c: char, n: nat): (r: string)
    ensures |r| == n && forall i :: 0 <= i < n ==> r[i] == c
  {
    seq(n, i => c)
  }

  ghost predicate IsGapRun(g: string) { g != [] && All(IsGap, g) }

  ghost predicate IsKind(k: string) { k != [] && All(IsWordChar, k) }

  /** A record that survives printing: a tag without blanks, a payload not starting with one. */
  ghost predicate IsPrintable(r: Record) {
    r.tag != [] && All(NotGap, r.tag) && (r.payload == [] || NotGap(r.payload[0]))
  }

  lemma RunOf(f: char -> bool, a: string, b: string)
    requires a != [] && All(f, a) && (b == [] || !f(b[0]))
    ensures Run(f, a + b) == Some((a, b))
  {
    SplitRun(f, a, b);
  }

  function HeaderTail(digits: string, g: string, end: string): string { ">>" + (g + (digits + end)) }

  function HeaderKind(kind: string, digits: string, g1: string, g2: string, g3: string, end: string): string {
    "<<" + (g1 + (kind + (g2 + HeaderTail(digits, g3, end))))
  }

  ghost predicate IsNumber(digits: string) { digits != [] && All(IsDigit, digits) }

  lemma MatchTailOf(level: nat, kind: string, digits: string, g: string, end: string)
    requires IsNumber(digits) && IsGapRun(g) && All(IsGap, end)
    ensures MatchTail(level, kind, HeaderTail(digits, g, end)) == Some(Header(level, kind, Saturated(digits)))
  {
    hide Saturated;
    assert Literal(">>", HeaderTail(digits, g, end)) == Some(g + (digits + end));
    assert (digits + end)[0] == digits[0];
    RunOf(IsGap, g, digits + end);
    RunOf(IsDigit, digits, end);
    SplitRun(IsGap, end, []);
    assert end + [] == end;
  }

  lemma MatchKindOf(level: nat, kind: string, digits: string, g1: string, g2: string, g3: string, end: string)
    requires IsNumber(digits) && IsKind(kind) && IsGapRun(g1) && IsGapRun(g2) && IsGapRun(g3) && All(IsGap, end)
    ensures MatchKind(level, HeaderKind(kind, digits, g1, g2, g3, end)) == Some(Header(level, kind, Saturated(digits)))
  {
    hide MatchTail, Saturated;
    var tail := HeaderTail(digits, g3, end);
    assert tail[0] == '>';
    var c := g2 + tail;
    assert c[0] == g2[0] && (kind + c)[0] == kind[0];
    assert Literal("<<", HeaderKind(kind, digits, g1, g2, g3, end)) == Some(g1 + (kind + c));
    RunOf(IsGap, g1, kind + c);
    RunOf(IsWordChar, kind, c);
    RunOf(IsGap, g2, tail);
    MatchTailOf(level, kind, digits, g3, end);
  }

  /** A header line with any amount of padding. */
  function HeaderText(level: nat, kind: string, digits: string, g0: string, g1: string, g2: string, g3: string,
                      end: string): string
  {
    Repeat('*', level) + (g0 + HeaderKind(kind, digits, g1, g2, g3, end))
  }

  lemma StartsVisible(s: string)
    requires s != [] && !IsSpace(s[0])
    ensures TrimSpace(s) != ""
  {
    assert !All(IsSpace, s);
  }

  /** A header line is recognised, whatever the padding, with its depth, type and number. */
  lemma ClassifyText(level: nat, kind: string, digits: string, g0: string, g1: string, g2: string, g3: string,
                     end: string)
    requires level >= 1 && IsKind(kind) && IsNumber(digits)
    requires IsGapRun(g0) && IsGapRun(g1) && IsGapRun(g2) && IsGapRun(g3) && All(IsGap, end)
    ensures Classify(HeaderText(level, kind, digits, g0, g1, g2, g3, end)) == Header(level, kind, Saturated(digits))
  {
    hide MatchKind, TrimSpace, Saturated;
    var stars, rest := Repeat('*', level), HeaderKind(kind, digits, g1, g2, g3, end);
    var line := stars + (g0 + rest);
    assert line[0] == '*' && (g0 + rest)[0] == g0[0] && rest[0] == '<';
    StartsVisible(line);
    RunOf(IsStar, stars, g0 + rest);
    RunOf(IsGap, g0, rest);
    MatchKindOf(level, kind, digits, g1, g2, g3, end);
  }

  /** The line a header is printed as. */
  function HeaderLine(level: nat, kind: string, vxid: Vxid, g0: string, g1: string, g2: string, g3: string,
                      end: string): string
  {
    HeaderText(level, kind, FormatUint(vxid), g0, g1, g2, g3, end)
  }

  /** A printed header is read back, whatever the padding. */
  lemma ClassifyHeader(level: nat, kind: string, vxid: Vxid, g0: string, g1: string, g2: string, g3: string,
                       end: string)
    requires level >= 1 && vxid < UINT64_LIMIT && IsKind(kind)
    requires IsGapRun(g0) && IsGapRun(g1) && IsGapRun(g2) && IsGapRun(g3) && All(IsGap, end)
    ensures Classify(HeaderLine(level, kind, vxid, g0, g1, g2, g3, end)) == Header(level, kind, vxid)
  {
    hide Classify, HeaderText, FormatUint, Decimal;
    DecimalOfFormat(vxid);
    ClassifyText(level, kind, FormatUint(vxid), g0, g1, g2, g3, end);
  }

  function RecordLine(level: nat, r: Record, g0: string, g1: string): string {
    Repeat('-', level) + (g0 + (r.tag + (g1 + r.payload)))
  }

  lemma NoHeader(s: string)
    requires s != [] && s[0] != '*'
    ensures MatchHeader(s).None?
  {
  }

  /** A printed record line is recognised with its depth, tag and payload. */
  lemma ClassifyRecord(level: nat, r: Record, g0: string, g1: string)
    requires level >= 1 && IsPrintable(r) && IsGapRun(g0) && IsGapRun(g1)
    ensures Classify(RecordLine(level, r, g0, g1)) == Entry(level, r)
  {
    hide Classify, RecordLine;
    assert IsRecordText(RecordLine(level, r, g0, g1), level, r, g0, g1);
    EntryIsRead(RecordLine(level, r, g0, g1), level, r);
  }

  // ----- only such lines -----

  /** `line` is the header of depth `level`: stars, type and digits between gaps, the number cut off at 64 bits. */
  ghost predicate IsHeader(line: string, level: nat, kind: string, vxid: Vxid) {
    exists digits, g0, g1, g2, g3, end :: IsHeaderText(line, level, kind, vxid, digits, g0, g1, g2, g3, end)
  }

  ghost predicate IsHeaderText(line: string, level: nat, kind: string, vxid: Vxid, digits: string, g0: string,
                               g1: string, g2: string, g3: string, end: string)
  {
    && level >= 1 && IsKind(kind) && IsNumber(digits)
    && IsGapRun(g0) && IsGapRun(g1) && IsGapRun(g2) && IsGapRun(g3) && All(IsGap, end)
    && line == HeaderText(level, kind, digits, g0, g1, g2, g3, end)
    && vxid == if Decimal(digits) < 0x1_0000_0000_0000_0000 then Decimal(digits) else 0xffff_ffff_ffff_ffff
  }

  lemma TailForm(level: nat, kind: string, s: string) returns (digits: string, g: string, end: string)
    requires MatchTail(level, kind, s).Some?
    ensures IsNumber(digits) && IsGapRun(g) && All(IsGap, end) && s == HeaderTail(digits, g, end)
    ensures MatchTail(level, kind, s) == Some(Header(level, kind, Saturated(digits)))
  {
    hide Saturated;
    var a := Literal(">>", s).value;
    g := TakeWhile(IsGap, a);
    var b := DropWhile(IsGap, a);
    digits, end := TakeWhile(IsDigit, b), DropWhile(IsDigit, b);
    assert s == ">>" + a;
  }

  lemma KindForm(level: nat, s: string)
    returns (kind: string, digits: string, g1: string, g2: string, g3: string, end: string)
    requires MatchKind(level, s).Some?
    ensures IsKind(kind) && IsNumber(digits) && IsGapRun(g1) && IsGapRun(g2) && IsGapRun(g3) && All(IsGap, end)
    ensures s == HeaderKind(kind, digits, g1, g2, g3, end)
    ensures MatchKind(level, s) == Some(Header(level, kind, Saturated(digits)))
  {
    hide MatchTail, Saturated, HeaderTail;
    var a := Literal("<<", s).value;
    g1 := TakeWhile(IsGap, a);
    var b := DropWhile(IsGap, a);
    kind := TakeWhile(IsWordChar, b);
    var c := DropWhile(IsWordChar, b);
    g2 := TakeWhile(IsGap, c);
    digits, g3, end := TailForm(level, kind, DropWhile(IsGap, c));
    assert s == "<<" + a;
  }

  lemma HeaderForm(s: string) returns (level: nat, kind: string, vxid: Vxid)
    requires MatchHeader(s).Some?
    ensures IsHeader(s, level, kind, vxid) && MatchHeader(s) == Some(Header(level, kind, vxid))
  {
    hide MatchKind, HeaderKind;
    var stars, a := TakeWhile(IsStar, s), DropWhile(IsStar, s);
    var g0 := TakeWhile(IsGap, a);
    level := |stars|;
    var digits, g1, g2, g3, end;
    kind, digits, g1, g2, g3, end := KindForm(level, DropWhile(IsGap, a));
    vxid := Saturated(digits);
    assert stars == Repeat('*', level);
    assert IsHeaderText(s, level, kind, vxid, digits, g0, g1, g2, g3, end);
  }

  /** `line` is the record of depth `level`: dashes, a gap, the tag up to the next gap, and the rest. */
  ghost predicate IsRecord(line: string, level: nat, r: Record) {
    exists g0, g1 :: IsRecordText(line, level, r, g0, g1)
  }

  ghost predicate IsRecordText(line: string, level: nat, r: Record, g0: string, g1: string) {
    && level >= 1 && IsPrintable(r) && IsGapRun(g0) && All(IsGap, g1) && (g1 == [] ==> r.payload == [])
    && line == RecordLine(level, r, g0, g1)
  }

  lemma RecordForm(s: string) returns (level: nat, r: Record)
    requires MatchRecord(s).Some?
    ensures IsRecord(s, level, r) && MatchRecord(s) == Some(Entry(level, r)) && s[0] == '-'
  {
    hide TakeWhile, DropWhile;
    var dashes, a := TakeWhile(IsDash, s), DropWhile(IsDash, s);
    var g0, b := TakeWhile(IsGap, a), DropWhile(IsGap, a);
    var tag, c := TakeWhile(NotGap, b), DropWhile(NotGap, b);
    var g1, payload := TakeWhile(IsGap, c), DropWhile(IsGap, c);
    level, r := |dashes|, Record(tag, payload);
    assert dashes == Repeat('-', level) && s[0] == dashes[0];
    assert c == g1 + payload && (g1 == [] ==> c == payload);
    assert s == RecordLine(level, r, g0, g1);
    assert IsRecordText(s, level, r, g0, g1);
  }

  lemma RecordIsRead(line: string, level: nat, r: Record, g0: string, g1: string)
    requires IsRecordText(line, level, r, g0, g1)
    ensures MatchRecord(line) == Some(Entry(level, r)) && line[0] == '-'
  {
    var dashes, c := Repeat('-', level), g1 + r.payload;
    var b := r.tag + c;
    assert line == dashes + (g0 + b) && line[0] == '-' && (g0 + b)[0] == g0[0] && b[0] == r.tag[0];
    RunOf(IsDash, dashes, g0 + b);
    RunOf(IsGap, g0, b);
    if g1 != [] { assert c[0] == g1[0]; }
    RunOf(NotGap, r.tag, c);
    SplitRun(IsGap, g1, r.payload);
  }

  /** Every line, exactly: blank, a header, a record, or nothing of these. */
  lemma LineExactlyWhen(line: string)
    ensures Classify(line) == Blank <==> All(IsSpace, line)
    ensures forall level: nat, kind, vxid: Vxid ::
      Classify(line) == Header(level, kind, vxid) <==> IsHeader(line, level, kind, vxid)
    ensures forall level: nat, r :: Classify(line) == Entry(level, r) <==> IsRecord(line, level, r)
  {
    hide MatchHeader, MatchRecord, TrimSpace, IsHeaderText, IsRecordText;
    BlankExactlyWhen(line);
    forall level: nat, kind, vxid: Vxid | IsHeader(line, level, kind, vxid)
      ensures Classify(line) == Header(level, kind, vxid)
    {
      HeaderIsRead(line, level, kind, vxid);
    }
    forall level: nat, r | IsRecord(line, level, r) ensures Classify(line) == Entry(level, r) {
      EntryIsRead(line, level, r);
    }
    if MatchHeader(line).Some? { var level, kind, vxid := HeaderForm(line); }
    else if MatchRecord(line).Some? { var level, r := RecordForm(line); }
  }

  lemma HeaderIsRead(line: string, level: nat, kind: string, vxid: Vxid)
    requires IsHeader(line, level, kind, vxid)
    ensures Classify(line) == Header(level, kind, vxid)
  {
    hide Classify, HeaderText, Decimal;
    var digits, g0, g1, g2, g3, end :| IsHeaderText(line, level, kind, vxid, digits, g0, g1, g2, g3, end);
    ClassifyText(level, kind, digits, g0, g1, g2, g3, end);
  }

  lemma EntryIsRead(line: string, level: nat, r: Record)
    requires IsRecord(line, level, r)
    ensures Classify(line) == Entry(level, r)
  {
    hide MatchHeader, MatchRecord, TrimSpace;
    var g0, g1 :| IsRecordText(line, level, r, g0, g1);
    RecordIsRead(line, level, r, g0, g1);
    StartsVisible(line);
    NoHeader(line);
  }

  lemma BlankExactlyWhen(s: string)
    ensures TrimSpace(s) == "" <==> All(IsSpace, s)
  {
  }
}
