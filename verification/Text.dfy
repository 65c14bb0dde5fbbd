/**
 The string operations the tracer and the agent rely on (Go's `strings` and `strconv`),
 with the facts needed to reason about text that was printed and read back.
 */
module Text {
  import opened Wrappers

  /** `unicode.IsSpace`. */
  predicate IsSpace(c: char) {
    c in {'\t', '\n', '\U{0b}', '\U{0c}', '\r', ' ', '\U{85}', '\U{a0}', '\U{1680}', '\U{2028}', '\U{2029}', '\U{202f}',
          '\U{205f}', '\U{3000}'}
    || '\U{2000}' <= c <= '\U{200a}'
  }

  predicate IsDigit(c: char) { '0' <= c <= '9' }

  /** The blanks by their code points, and the digits. */
  lemma BlanksAndDigits(c: char)
    ensures IsSpace(c) <==> (c as int) in {9, 10, 11, 12, 13, 32, 133, 160, 5760, 8232, 8233, 8239, 8287, 12288} ||
                            8192 <= c as int <= 8202
    ensures IsDigit(c) <==> c in "0123456789"
  {
    var digits := "0123456789";
    if IsDigit(c) { assert digits[c as int - 48] == c; }
  }

  // ----- longest prefixes -----

  /** The longest prefix whose characters all satisfy `f`. */
  function TakeWhile(f: char -> bool, s: string): (r: string)
    ensures r <= s && forall i :: 0 <= i < |r| ==> f(r[i])
    ensures |r| < |s| ==> !f(s[|r|])
  {
    if s != [] && f(s[0]) then [s[0]] + TakeWhile(f, s[1..]) else []
  }

  function DropWhile(f: char -> bool, s: string): (r: string)
    ensures s == TakeWhile(f, s) + r
    ensures r != [] ==> !f(r[0])
  {
    s[|TakeWhile(f, s)|..]
  }

  ghost predicate All(f: char -> bool, s: string) {
    forall i :: 0 <= i < |s| ==> f(s[i])
  }

  /** A run of `f` characters followed by something that is not one is split exactly there. */
  lemma {:induction false} SplitRun(f: char -> bool, a: string, b: string)
    requires All(f, a) && (b == [] || !f(b[0]))
    ensures TakeWhile(f, a + b) == a && DropWhile(f, a + b) == b
  {
    if a == [] {
      assert a + b == b;
    } else {
      assert (a + b)[1..] == a[1..] + b;
      SplitRun(f, a[1..], b);
    }
  }

  // ----- words -----

  function NotSpace(c: char): bool { !IsSpace(c) }

  /** `strings.Fields`. */
  function Fields(s: string): (r: seq<string>)
    ensures forall i :: 0 <= i < |r| ==> IsWord(r[i])
    decreases |s|
  {
    var t := DropWhile(IsSpace, s);
    assert s == TakeWhile(IsSpace, s) + t;
    if t == [] then [] else
      assert t[0] == (TakeWhile(NotSpace, t) + DropWhile(NotSpace, t))[0];
      [TakeWhile(NotSpace, t)] + Fields(DropWhile(NotSpace, t))
  }

  ghost predicate IsWord(w: string) { w != [] && All(NotSpace, w) }

  /** The words, each followed by a non-empty gap. */
  function Spaced(words: seq<string>, gap: string): string {
    if words == [] then [] else words[0] + gap + Spaced(words[1..], gap)
  }

  lemma FieldsOfFirst(w: string, rest: string)
    requires IsWord(w) && (rest == [] || IsSpace(rest[0]))
    ensures Fields(w + rest) == [w] + Fields(rest)
  {
    assert w + rest == [] + (w + rest) && NotSpace(w[0]);
    SplitRun(IsSpace, [], w + rest);
    SplitRun(NotSpace, w, rest);
  }

  lemma FieldsSkipGap(gap: string, rest: string)
    requires All(IsSpace, gap)
    ensures Fields(gap + rest) == Fields(rest)
  {
    var t, u := TakeWhile(IsSpace, rest), DropWhile(IsSpace, rest);
    assert gap + rest == (gap + t) + u;
    SplitRun(IsSpace, gap + t, u);
  }

  lemma FieldsCons(w: string, gap: string, rest: string)
    requires IsWord(w) && gap != [] && All(IsSpace, gap)
    ensures Fields(w + gap + rest) == [w] + Fields(rest)
  {
    assert w + gap + rest == w + (gap + rest) && (gap + rest)[0] == gap[0];
    FieldsOfFirst(w, gap + rest);
    FieldsSkipGap(gap, rest);
  }

  /** Splitting undoes joining with blanks. */
  lemma {:induction false} FieldsOfSpaced(words: seq<string>, gap: string)
    requires forall i :: 0 <= i < |words| ==> IsWord(words[i])
    requires gap != [] && All(IsSpace, gap)
    ensures Fields(Spaced(words, gap)) == words
  {
    if words != [] {
      FieldsOfSpaced(words[1..], gap);
      FieldsCons(words[0], gap, Spaced(words[1..], gap));
    }
  }

  // ----- decimal numbers -----

  const UINT64_LIMIT: nat := 0x1_0000_0000_0000_0000

  function DigitValue(c: char): nat
    requires IsDigit(c)
  {
    (c - '0') as nat
  }

  function DigitChar(d: nat): (c: char)
    requires d < 10
    ensures IsDigit(c) && DigitValue(c) == d
  {
    '0' + d as char
  }

  /** The number a run of digits denotes, most significant first. */
  function Decimal(s: string): nat
    requires All(IsDigit, s)
  {
    if s == [] then 0 else 10 * Decimal(s[..|s| - 1]) + DigitValue(s[|s| - 1])
  }

  /** `strconv.ParseUint(s, 10, 64)`; None is its error return. */
  function ParseUint64(s: string): (r: Option<nat>)
    ensures r.Some? ==> r.value < UINT64_LIMIT
  {
    if s != [] && (forall i :: 0 <= i < |s| ==> IsDigit(s[i])) && Decimal(s) < UINT64_LIMIT then Some(Decimal(s))
    else None
  }

  function FormatUint(n: nat): (r: string)
    ensures r != [] && All(IsDigit, r)
  {
    if n < 10 then [DigitChar(n)] else FormatUint(n / 10) + [DigitChar(n % 10)]
  }

  lemma {:induction false} DecimalOfFormat(n: nat)
    ensures Decimal(FormatUint(n)) == n
  {
    if n < 10 {
      assert [DigitChar(n)][..0] == [];
    } else {
      var s := FormatUint(n);
      assert s[..|s| - 1] == FormatUint(n / 10);
      DecimalOfFormat(n / 10);
    }
  }

  // ----- substrings -----

  predicate Contains(s: string, sub: string) {
    exists i :: 0 <= i <= |s| && sub <= s[i..]
  }

  /** Position of the first occurrence of `c`. */
  function IndexOf(s: string, c: char): (r: Option<nat>)
    ensures r.Some? ==> r.value < |s| && s[r.value] == c && c !in s[..r.value]
    ensures r.None? ==> c !in s
  {
    if s == [] then None
    else if s[0] == c then Some(0)
    else match IndexOf(s[1..], c)
      case None => None
      case Some(i) =>
        assert s[..i + 1] == [s[0]] + s[1..][..i];
        Some(i + 1)
  }

  /** Position of the last occurrence of `c`. */
  function LastIndexOf(s: string, c: char): (r: Option<nat>)
    ensures r.Some? ==> r.value < |s| && s[r.value] == c && c !in s[r.value + 1..]
    ensures r.None? ==> c !in s
  {
    if s == [] then None
    else if s[|s| - 1] == c then Some(|s| - 1)
    else
      var r := LastIndexOf(s[..|s| - 1], c);
      assert r.Some? ==> s[r.value + 1..] == s[..|s| - 1][r.value + 1..] + [s[|s| - 1]];
      assert s == s[..|s| - 1] + [s[|s| - 1]];
      r
  }

  function TrimRight(s: string): (r: string)
    ensures r <= s && (r != [] ==> !IsSpace(r[|r| - 1]))
    ensures All(IsSpace, s[|r|..])
  {
    if s != [] && IsSpace(s[|s| - 1]) then TrimRight(s[..|s| - 1]) else s
  }

  /** `strings.TrimSpace`. */
  function TrimSpace(s: string): (r: string)
    ensures r == [] || (!IsSpace(r[0]) && !IsSpace(r[|r| - 1]))
    ensures r == [] <==> All(IsSpace, s)
  {
    var t := DropWhile(IsSpace, s);
    var r := TrimRight(t);
    assert s == TakeWhile(IsSpace, s) + t;
    assert t != [] ==> s[|TakeWhile(IsSpace, s)|] == t[0];
    r
  }

  /** ASCII lower case; exact case folding for names without `k` and `s`, such as `traceparent`. */
  function Lower(s: string): string {
    seq(|s|, i requires 0 <= i < |s| => if 'A' <= s[i] <= 'Z' then s[i] + ('a' - 'A') else s[i])
  }

  /** Trimming removes exactly the blanks around a text that has none at its ends. */
  lemma TrimOfPadded(a: string, s: string, b: string)
    requires All(IsSpace, a) && All(IsSpace, b)
    requires s != [] ==> !IsSpace(s[0]) && !IsSpace(s[|s| - 1])
    ensures TrimSpace(a + s + b) == s
  {
    if s == [] {
      assert a + s + b == a + b && All(IsSpace, a + b);
    } else {
      assert a + s + b == a + (s + b) && (s + b)[0] == s[0];
      SplitRun(IsSpace, a, s + b);
      TrimRightOf(s, b);
    }
  }

  lemma {:induction false} TrimRightOf(s: string, b: string)
    requires s != [] && !IsSpace(s[|s| - 1]) && All(IsSpace, b)
    ensures TrimRight(s + b) == s
    decreases |b|
  {
    if b == [] {
      assert s + b == s;
    } else {
      assert (s + b)[..|s + b| - 1] == s + b[..|b| - 1];
      TrimRightOf(s, b[..|b| - 1]);
    }
  }

  /** A number is read exactly from its digits, with any zeros in front, if it fits into 64 bits. */
  lemma ParseExactlyWhen(s: string, n: nat)
    ensures ParseUint64(s) == Some(n) <==> n < UINT64_LIMIT && exists zeros :: IsPadded(s, zeros, n)
  {
    hide Decimal, FormatUint;
    if ParseUint64(s) == Some(n) {
      var zeros := DigitsArePadded(s);
      assert IsPadded(s, zeros, n);
    }
    if zeros :| IsPadded(s, zeros, n) { DecimalOfPadded(zeros, n); }
  }

  ghost predicate IsPadded(s: string, zeros: string, n: nat) {
    (forall i :: 0 <= i < |zeros| ==> zeros[i] == '0') && s == zeros + FormatUint(n)
  }

  lemma {:induction false} DecimalOfPadded(zeros: string, n: nat)
    requires forall i :: 0 <= i < |zeros| ==> zeros[i] == '0'
    ensures All(IsDigit, zeros + FormatUint(n)) && Decimal(zeros + FormatUint(n)) == n
  {
    var s := zeros + FormatUint(n);
    if n < 10 {
      DecimalOfFormat(n);
      DecimalOfZeros(zeros);
      assert s[..|s| - 1] == zeros;
    } else {
      DecimalOfPadded(zeros, n / 10);
      assert s[..|s| - 1] == zeros + FormatUint(n / 10);
    }
  }

  lemma {:induction false} DecimalOfZeros(zeros: string)
    requires forall i :: 0 <= i < |zeros| ==> zeros[i] == '0'
    ensures All(IsDigit, zeros) && Decimal(zeros) == 0
  {
    if zeros != [] { DecimalOfZeros(zeros[..|zeros| - 1]); }
  }

  lemma {:induction false} DigitsArePadded(s: string) returns (zeros: string)
    requires s != [] && All(IsDigit, s)
    ensures IsPadded(s, zeros, Decimal(s))
  {
    var init, c := s[..|s| - 1], s[|s| - 1];
    assert s == init + [c];
    assert DigitChar(DigitValue(c)) == c;
    if init == [] {
      zeros := [];
      assert Decimal(s) == DigitValue(c);
    } else {
      zeros := DigitsArePadded(init);
      var n := Decimal(init);
      if n == 0 {
        zeros := zeros + ['0'];
        assert FormatUint(0) == ['0'];
      } else {
        assert (10 * n + DigitValue(c)) / 10 == n && (10 * n + DigitValue(c)) % 10 == DigitValue(c);
      }
    }
  }
}
