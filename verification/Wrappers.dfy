/** The optional value used throughout the model, and small facts about sequences. */
module Wrappers {

  /** Transaction number minted by varnishd. */
  type Vxid = nat
  /** Instants and lengths of time, in nanoseconds. */
  type Time = int
  type Duration = int

  datatype Option<+T> = None | Some(value: T)

  /** No element occurs twice. */
  ghost predicate Distinct<T>(s: seq<T>) {
    forall i, j :: 0 <= i < j < |s| ==> s[i] != s[j]
  }

  /** Concatenation of a sequence of sequences, in order. */
  function Flatten<T>(ss: seq<seq<T>>): (r: seq<T>)
  {
    if ss == [] then [] else ss[0] + Flatten(ss[1..])
  }

  lemma {:induction false} FlattenAppend<T>(xs: seq<seq<T>>, ys: seq<seq<T>>)
    ensures Flatten(xs + ys) == Flatten(xs) + Flatten(ys)
  {
    if xs == [] {
      assert xs + ys == ys;
    } else {
      assert (xs + ys)[0] == xs[0] && (xs + ys)[1..] == xs[1..] + ys;
      FlattenAppend(xs[1..], ys);
    }
  }

  lemma {:induction false} FlattenSnoc<T>(xs: seq<seq<T>>, y: seq<T>)
    ensures Flatten(xs + [y]) == Flatten(xs) + y
  {
    FlattenAppend(xs, [y]);
    assert Flatten([y]) == y + Flatten<T>([]);
  }

  /** Element-wise image of a sequence. */
  function Map<A, B>(f: A -> B, s: seq<A>): (r: seq<B>)
    ensures |r| == |s|
    ensures forall i :: 0 <= i < |s| ==> r[i] == f(s[i])
  {
    seq(|s|, i requires 0 <= i < |s| => f(s[i]))
  }

  lemma MapAppend<A, B>(f: A -> B, xs: seq<A>, ys: seq<A>)
    ensures Map(f, xs + ys) == Map(f, xs) + Map(f, ys)
  {
  }

  /** The elements on which `f` answers `keep`, in order. */
  function Select<T>(f: T -> bool, s: seq<T>, keep: bool): (r: seq<T>) {
    if s == [] then []
    else if f(s[|s| - 1]) == keep then Select(f, s[..|s| - 1], keep) + [s[|s| - 1]]
    else Select(f, s[..|s| - 1], keep)
  }

  lemma {:induction false} SelectMember<T>(f: T -> bool, s: seq<T>, keep: bool, x: T)
    ensures x in Select(f, s, keep) <==> x in s && f(x) == keep
  {
    if s != [] {
      SelectMember(f, s[..|s| - 1], keep, x);
      assert s == s[..|s| - 1] + [s[|s| - 1]];
    }
  }

  /** The two halves of a selection hold each element as often as the whole does, under any image. */
  lemma {:induction false} SelectSplits<T, U>(f: T -> bool, g: T -> U, s: seq<T>)
    ensures multiset(Map(g, Select(f, s, true))) + multiset(Map(g, Select(f, s, false))) == multiset(Map(g, s))
    ensures |Select(f, s, true)| + |Select(f, s, false)| == |s|
  {
    if s != [] {
      var init, x := s[..|s| - 1], s[|s| - 1];
      SelectSplits(f, g, init);
      assert s == init + [x];
      MapAppend(g, init, [x]);
      MapAppend(g, Select(f, init, f(x)), [x]);
      assert Map(g, [x]) == [g(x)];
      assert Select(f, s, f(x)) == Select(f, init, f(x)) + [x];
      assert Select(f, s, !f(x)) == Select(f, init, !f(x));
    }
  }

  /** A selection that keeps everything, or nothing. */
  lemma {:induction false} SelectAll<T>(f: T -> bool, s: seq<T>, keep: bool)
    requires forall x :: x in s ==> f(x) == keep
    ensures Select(f, s, keep) == s && Select(f, s, !keep) == []
  {
    if s != [] {
      SelectAll(f, s[..|s| - 1], keep);
      assert s == s[..|s| - 1] + [s[|s| - 1]];
    }
  }

  /** Taking one element out of a sequence. */
  lemma MultisetWithout<T>(s: seq<T>, i: nat)
    requires i < |s|
    ensures multiset(s) == multiset(Without(s, i)) + multiset{s[i]}
  {
    assert s == s[..i] + [s[i]] + s[i + 1..];
  }

  function Without<T>(s: seq<T>, i: nat): (r: seq<T>)
    requires i < |s|
    ensures |r| == |s| - 1
  {
    s[..i] + s[i + 1..]
  }

  /** In a rearrangement, the first element is somewhere, and the others rearrange the others. */
  lemma FirstSomewhere<T>(xs: seq<T>, ys: seq<T>) returns (i: nat)
    requires multiset(xs) == multiset(ys) && xs != []
    ensures i < |ys| && ys[i] == xs[0] && multiset(xs[1..]) == multiset(Without(ys, i))
  {
    assert xs[0] in multiset(ys);
    i :| 0 <= i < |ys| && ys[i] == xs[0];
    MultisetWithout(xs, 0);
    MultisetWithout(ys, i);
    assert Without(xs, 0) == xs[1..];
    Cancel(multiset(xs[1..]), multiset(Without(ys, i)), multiset{xs[0]});
  }

  lemma Cancel<T>(a: multiset<T>, b: multiset<T>, c: multiset<T>)
    requires a + c == b + c
    ensures a == b
  {
    assert a == (a + c) - c;
    assert b == (b + c) - c;
  }

  /** Rearranging a sequence rearranges its image. */
  lemma {:induction false} MapPermuted<A, B>(f: A -> B, xs: seq<A>, ys: seq<A>)
    requires multiset(xs) == multiset(ys)
    ensures multiset(Map(f, xs)) == multiset(Map(f, ys))
    decreases |xs|
  {
    if xs == [] {
      assert |multiset(ys)| == 0;
    } else {
      var i := FirstSomewhere(xs, ys);
      MapPermuted(f, xs[1..], Without(ys, i));
      MultisetWithout(Map(f, xs), 0);
      MultisetWithout(Map(f, ys), i);
      assert Without(Map(f, xs), 0) == Map(f, xs[1..]);
      assert Without(Map(f, ys), i) == Map(f, Without(ys, i));
    }
  }

  lemma FlattenWithout<T>(ss: seq<seq<T>>, i: nat)
    requires i < |ss|
    ensures multiset(Flatten(ss)) == multiset(ss[i]) + multiset(Flatten(Without(ss, i)))
  {
    hide Flatten;
    assert ss == ss[..i] + [ss[i]] + ss[i + 1..];
    FlattenSnoc(ss[..i], ss[i]);
    FlattenAppend(ss[..i] + [ss[i]], ss[i + 1..]);
    FlattenAppend(ss[..i], ss[i + 1..]);
  }

  /** Rearranging the parts rearranges the whole. */
  lemma {:induction false} FlattenPermuted<T>(xs: seq<seq<T>>, ys: seq<seq<T>>)
    requires multiset(xs) == multiset(ys)
    ensures multiset(Flatten(xs)) == multiset(Flatten(ys))
    decreases |xs|
  {
    hide Without;
    if xs == [] {
      assert |multiset(ys)| == 0;
    } else {
      var i := FirstSomewhere(xs, ys);
      FlattenPermuted(xs[1..], Without(ys, i));
      FlattenWithout(ys, i);
    }
  }
}
