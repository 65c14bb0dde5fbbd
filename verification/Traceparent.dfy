/**
 The `traceparent` header: reading as in `internal/tracer/spans/spans.go`, printing as in
 section 3.2.2 of W3C Trace Context.
 */
module Traceparents {
  import opened Wrappers
  import opened Text

  type TraceId = nat
  type SpanId = nat

  datatype Traceparent = Traceparent(trace: TraceId, parent: SpanId, sampled: bool)

  predicate IsHex(c: char) { '0' <= c <= '9' || 'a' <= c <= 'f' }

  function HexDigitValue(c: char): (d: nat)
    requires IsHex(c)
    ensures d < 16
  {
    if c <= '9' then (c - '0') as nat else (c - 'a') as nat + 10
  }

  function HexDigit(d: nat): (c: char)
    requires d < 16
    ensures IsHex(c) && HexDigitValue(c) == d
  {
    if d < 10 then '0' + d as char else 'a' + (d - 10) as char
  }

  /** The number a run of hexadecimal digits denotes, most significant first. */
  function HexValue(s: string): nat
    requires All(IsHex, s)
  {
    if s == [] then 0 else 16 * HexValue(s[..|s| - 1]) + HexDigitValue(s[|s| - 1])
  }

  /** `n` in exactly `width` hexadecimal digits. */
  function Hex(n: nat, width: nat): (r: string)
    ensures |r| == width && All(IsHex, r)
  {
    if width == 0 then [] else Hex(n / 16, width - 1) + [HexDigit(n % 16)]
  }

  function Pow16(w: nat): nat { if w == 0 then 1 else 16 * Pow16(w - 1) }

  lemma {:induction false} HexValueOfHex(n: nat, width: nat)
    requires n < Pow16(width)
    ensures HexValue(Hex(n, width)) == n
  {
    if width > 0 {
      var s := Hex(n, width);
      assert s[..|s| - 1] == Hex(n / 16, width - 1);
      HexValueOfHex(n / 16, width - 1);
    }
  }

  lemma {:induction false} HexOfHexValue(s: string)
    requires All(IsHex, s)
    ensures HexValue(s) < Pow16(|s|) && Hex(HexValue(s), |s|) == s
  {
    if s != [] {
      var t, c := s[..|s| - 1], s[|s| - 1];
      HexOfHexValue(t);
      assert HexValue(s) / 16 == HexValue(t) && HexValue(s) % 16 == HexDigitValue(c);
      assert HexDigit(HexDigitValue(c)) == c;
      assert s == t + [c];
    }
  }

  const BYTE_DIGITS: nat := 2
  const TRACE_DIGITS: nat := 32
  const SPAN_DIGITS: nat := 16
  const WIDTH: nat := 55

  /** `vv-tttttttttttttttttttttttttttttttt-pppppppppppppppp-ff`, lower-case hexadecimal. */
  predicate WellFormed(v: string) {
    && |v| == WIDTH && v[2] == '-' && v[35] == '-' && v[52] == '-'
    && forall i :: 0 <= i < WIDTH && i !in {2, 35, 52} ==> IsHex(v[i])
  }

  /** None is an invalid header: wrong shape, version ff, or an all-zero id. */
  function Parse(raw: string): (r: Option<Traceparent>)
    ensures r.Some? ==> r.value.trace != 0 && r.value.parent != 0
  {
    Read(TrimSpace(raw))
  }

  function Read(v: string): (r: Option<Traceparent>)
    ensures r.Some? ==> r.value.trace != 0 && r.value.parent != 0
  {
    if !WellFormed(v) || v[..2] == "ff" then None
    else
      assert forall i :: 0 <= i < 2 ==> v[53..][i] == v[53 + i];
      var trace, parent, flags := HexValue(v[3..35]), HexValue(v[36..52]), HexValue(v[53..]);
      if trace == 0 || parent == 0 then None else Some(Traceparent(trace, parent, flags % 2 == 1))
  }

  function Format(version: nat, trace: TraceId, parent: SpanId, flags: nat): (r: string) {
    Join(Hex(version, BYTE_DIGITS), Hex(trace, TRACE_DIGITS), Hex(parent, SPAN_DIGITS), Hex(flags, BYTE_DIGITS))
  }

  function Join(version: string, trace: string, parent: string, flags: string): string {
    version + "-" + trace + "-" + parent + "-" + flags
  }

  lemma FormatParts(version: nat, trace: TraceId, parent: SpanId, flags: nat)
    ensures var v := Format(version, trace, parent, flags);
      WellFormed(v) && v[..2] == Hex(version, BYTE_DIGITS) && v[3..35] == Hex(trace, TRACE_DIGITS)
      && v[36..52] == Hex(parent, SPAN_DIGITS) && v[53..] == Hex(flags, BYTE_DIGITS)
  {
    var v := Format(version, trace, parent, flags);
    var a, b := Hex(version, BYTE_DIGITS), Hex(trace, TRACE_DIGITS);
    var c, d := Hex(parent, SPAN_DIGITS), Hex(flags, BYTE_DIGITS);
    assert v[..2] == a && v[3..35] == b && v[36..52] == c && v[53..] == d;
    forall i | 0 <= i < WIDTH && i !in {2, 35, 52} ensures IsHex(v[i]) {
      if i < 2 { assert v[i] == a[i]; }
      else if i < 35 { assert v[i] == b[i - 3]; }
      else if i < 52 { assert v[i] == c[i - 36]; }
      else { assert v[i] == d[i - 53]; }
    }
  }

  lemma TrimKeeps(v: string)
    requires v != [] ==> !IsSpace(v[0]) && !IsSpace(v[|v| - 1])
    ensures TrimSpace(v) == v
  {
    assert v == [] + v;
    SplitRun(IsSpace, [], v);
  }

  lemma EndsAreHex(v: string)
    requires WellFormed(v)
    ensures |v| == WIDTH && !IsSpace(v[0]) && !IsSpace(v[|v| - 1])
  {
    assert IsHex(v[0]) && IsHex(v[54]);
  }

  lemma ByteRange()
    ensures Pow16(BYTE_DIGITS) == 256
    ensures HexValue("ff") == 255 && Hex(255, BYTE_DIGITS) == "ff"
  {
    assert "ff"[..1] == "f" && "f"[..0] == "";
    assert Hex(15, 1) == Hex(0, 0) + ['f'];
  }

  lemma ReadOfFormat(version: nat, trace: TraceId, parent: SpanId, flags: nat)
    requires version < 255 && 0 < trace < Pow16(TRACE_DIGITS) && 0 < parent < Pow16(SPAN_DIGITS) && flags < 256
    ensures Read(Format(version, trace, parent, flags)) == Some(Traceparent(trace, parent, flags % 2 == 1))
  {
    hide Hex, HexValue, Format, Pow16;
    ByteRange();
    HexValueOfHex(version, BYTE_DIGITS);
    HexValueOfHex(trace, TRACE_DIGITS);
    HexValueOfHex(parent, SPAN_DIGITS);
    HexValueOfHex(flags, BYTE_DIGITS);
    FormatParts(version, trace, parent, flags);
  }

  /** Reading a printed header gives back its ids and the low bit of its flags. */
  lemma ParseOfFormat(version: nat, trace: TraceId, parent: SpanId, flags: nat)
    requires version < 255 && 0 < trace < Pow16(TRACE_DIGITS) && 0 < parent < Pow16(SPAN_DIGITS) && flags < 256
    ensures Parse(Format(version, trace, parent, flags)) == Some(Traceparent(trace, parent, flags % 2 == 1))
  {
    hide Format, Read, TrimSpace, WellFormed, Pow16;
    var v := Format(version, trace, parent, flags);
    ReadOfFormat(version, trace, parent, flags);
    FormatParts(version, trace, parent, flags);
    EndsAreHex(v);
    TrimKeeps(v);
  }

  /** The same with blanks around it. */
  lemma ParseOfPadded(a: string, version: nat, trace: TraceId, parent: SpanId, flags: nat, b: string)
    requires version < 255 && 0 < trace < Pow16(TRACE_DIGITS) && 0 < parent < Pow16(SPAN_DIGITS) && flags < 256
    requires All(IsSpace, a) && All(IsSpace, b)
    ensures Parse(a + Format(version, trace, parent, flags) + b)
         == Some(Traceparent(trace, parent, flags % 2 == 1))
  {
    hide Format, Read, TrimSpace, WellFormed, Pow16, IsSpace;
    var v := Format(version, trace, parent, flags);
    ReadOfFormat(version, trace, parent, flags);
    FormatParts(version, trace, parent, flags);
    EndsAreHex(v);
    TrimOfPadded(a, v, b);
  }

  lemma Split(v: string)
    requires WellFormed(v)
    ensures v == Join(v[..2], v[3..35], v[36..52], v[53..])
    ensures All(IsHex, v[..2]) && All(IsHex, v[3..35]) && All(IsHex, v[36..52]) && All(IsHex, v[53..])
  {
  }

  lemma PartIsHex(part: string, digits: nat, value: nat)
    requires All(IsHex, part) && |part| == digits && value == HexValue(part)
    ensures part == Hex(value, digits) && value < Pow16(digits)
  {
    HexOfHexValue(part);
  }

  lemma ByteValue(a: string)
    requires All(IsHex, a) && |a| == BYTE_DIGITS
    ensures HexValue(a) < 256 && (a != "ff" ==> HexValue(a) != 255)
  {
    PartIsHex(a, BYTE_DIGITS, HexValue(a));
    ByteRange();
  }

  lemma FormatOfParts(a: string, b: string, c: string, d: string)
    requires All(IsHex, a) && All(IsHex, b) && All(IsHex, c) && All(IsHex, d)
    requires |a| == |d| == BYTE_DIGITS && |b| == TRACE_DIGITS && |c| == SPAN_DIGITS
    ensures Join(a, b, c, d) == Format(HexValue(a), HexValue(b), HexValue(c), HexValue(d))
  {
    PartIsHex(a, |a|, HexValue(a));
    PartIsHex(b, |b|, HexValue(b));
    PartIsHex(c, |c|, HexValue(c));
    PartIsHex(d, |d|, HexValue(d));
  }

  lemma FormatOfRead(v: string) returns (version: nat, flags: nat)
    requires Read(v).Some?
    ensures version < 255 && flags < 256
    ensures v == Format(version, Read(v).value.trace, Read(v).value.parent, flags)
    ensures Read(v).value.sampled == (flags % 2 == 1)
  {
    Split(v);
    FormatOfParts(v[..2], v[3..35], v[36..52], v[53..]);
    ByteValue(v[..2]);
    ByteValue(v[53..]);
    version, flags := HexValue(v[..2]), HexValue(v[53..]);
  }

  /**
   Only printed headers are accepted: whatever is read is, up to surrounding blanks, the print
   of some header with a version other than ff.
   */
  lemma FormatOfParse(raw: string) returns (version: nat, flags: nat)
    requires Parse(raw).Some?
    ensures version < 255 && flags < 256
    ensures TrimSpace(raw) == Format(version, Parse(raw).value.trace, Parse(raw).value.parent, flags)
    ensures Parse(raw).value.sampled == (flags % 2 == 1)
  {
    version, flags := FormatOfRead(TrimSpace(raw));
  }
}
