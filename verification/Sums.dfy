/** Sums over finite sets of row ids. */
module Sums {

  ghost function Pick<T>(s: set<T>): (x: T)
    requires s != {}
    ensures x in s
  {
    var x :| x in s;
    x
  }

  ghost function Sum(ids: set<int>, f: int -> int): int {
    if ids == {} then 0
    else
      var x := Pick(ids);
      f(x) + Sum(ids - {x}, f)
  }

  /** A sum may be taken in any order. */
  lemma {:induction false} SumPick(ids: set<int>, f: int -> int, x: int)
    requires x in ids
    ensures Sum(ids, f) == f(x) + Sum(ids - {x}, f)
    decreases ids
  {
    var y := Pick(ids);
    if y != x {
      SumPick(ids - {y}, f, x);
      SumPick(ids - {x}, f, y);
      assert ids - {y} - {x} == ids - {x} - {y};
    }
  }

  lemma {:induction false} SumOneMore(ids: set<int>, f: int -> int, x: int)
    requires x !in ids
    ensures Sum(ids + {x}, f) == f(x) + Sum(ids, f)
  {
    SumPick(ids + {x}, f, x);
    assert ids + {x} - {x} == ids;
  }

  lemma {:induction false} SumOneLess(ids: set<int>, rest: set<int>, f: int -> int, x: int)
    requires x !in rest && ids == {x} + rest
    ensures Sum(ids, f) == f(x) + Sum(rest, f)
  {
    SumPick(ids, f, x);
    assert ids - {x} == rest;
  }

  lemma {:induction false} SumSplit(ids: set<int>, f: int -> int, g: int -> int, h: int -> int)
    requires forall x :: x in ids ==> h(x) == f(x) + g(x)
    ensures Sum(ids, h) == Sum(ids, f) + Sum(ids, g)
    decreases ids
  {
    if ids != {} {
      var x := Pick(ids);
      SumPick(ids, f, x);
      SumPick(ids, g, x);
      SumPick(ids, h, x);
      SumSplit(ids - {x}, f, g, h);
    }
  }

  /** Summing over a part is summing everything with zero outside the part. */
  lemma {:induction false} SumPart(part: set<int>, ids: set<int>, f: int -> int, g: int -> int)
    requires part <= ids
    requires forall x :: x in ids ==> g(x) == if x in part then f(x) else 0
    ensures Sum(part, f) == Sum(ids, g)
    decreases ids
  {
    if ids != {} {
      var x := Pick(ids);
      SumPick(ids, g, x);
      if x in part {
        SumPick(part, f, x);
        SumPart(part - {x}, ids - {x}, f, g);
      } else {
        SumPart(part, ids - {x}, f, g);
      }
    } else {
      assert part == {};
    }
  }

  lemma {:induction false} SumCongruent(ids: set<int>, f: int -> int, g: int -> int)
    requires forall x :: x in ids ==> f(x) == g(x)
    ensures Sum(ids, f) == Sum(ids, g)
    decreases ids
  {
    if ids != {} {
      var x := Pick(ids);
      SumPick(ids, f, x);
      SumPick(ids, g, x);
      SumCongruent(ids - {x}, f, g);
    }
  }

  lemma {:induction false} SumNegated(ids: set<int>, f: int -> int, g: int -> int)
    requires forall x :: x in ids ==> f(x) == -g(x)
    ensures Sum(ids, f) == -Sum(ids, g)
    decreases ids
  {
    if ids != {} {
      var x: int := Pick(ids);
      SumPick(ids, f, x);
      SumPick(ids, g, x);
      SumNegated(ids - {x}, f, g);
    }
  }

  lemma {:induction false} SumUnion(a: set<int>, b: set<int>, f: int -> int)
    requires a !! b
    ensures Sum(a + b, f) == Sum(a, f) + Sum(b, f)
    decreases b
  {
    if b == {} {
      assert a + b == a;
    } else {
      var x := Pick(b);
      SumPick(a + b, f, x);
      SumPick(b, f, x);
      assert a + b - {x} == a + (b - {x});
      SumUnion(a, b - {x}, f);
    }
  }

  lemma {:induction false} SumMonotone(ids: set<int>, f: int -> int, g: int -> int)
    requires forall x :: x in ids ==> f(x) <= g(x)
    ensures Sum(ids, f) <= Sum(ids, g)
    decreases ids
  {
    if ids != {} {
      var x := Pick(ids);
      SumPick(ids, f, x);
      SumPick(ids, g, x);
      SumMonotone(ids - {x}, f, g);
    }
  }

  lemma {:induction false} SumNonNegative(ids: set<int>, f: int -> int)
    requires forall x :: x in ids ==> 0 <= f(x)
    ensures 0 <= Sum(ids, f)
    decreases ids
  {
    if ids != {} {
      var x := Pick(ids);
      SumPick(ids, f, x);
      SumNonNegative(ids - {x}, f);
    }
  }

  lemma {:induction false} SumOfPart(part: set<int>, ids: set<int>, f: int -> int)
    requires part <= ids && forall x :: x in ids ==> 0 <= f(x)
    ensures Sum(part, f) <= Sum(ids, f)
  {
    assert ids == part + (ids - part);
    SumUnion(part, ids - part, f);
    SumNonNegative(ids - part, f);
  }

  /** Renaming the summands does not change the sum. */
  lemma {:induction false} SumRenamed(ids: set<int>, f: int -> int, rename: map<int, int>, g: int -> int)
    requires ids <= rename.Keys
    requires forall x, y :: x in ids && y in ids && rename[x] == rename[y] ==> x == y
    requires forall x :: x in ids ==> g(rename[x]) == f(x)
    ensures Sum(ids, f) == Sum(set x | x in ids :: rename[x], g)
    decreases ids
  {
    var image := set x | x in ids :: rename[x];
    if ids != {} {
      var x := Pick(ids);
      SumPick(ids, f, x);
      SumPick(image, g, rename[x]);
      SumRenamed(ids - {x}, f, rename, g);
      assert image - {rename[x]} == set y | y in ids - {x} :: rename[y];
    }
  }

  // ----- sums along a sequence -----

  ghost function SeqSum(s: seq<int>, f: int -> int): int {
    if s == [] then 0 else SeqSum(s[..|s| - 1], f) + f(s[|s| - 1])
  }

  lemma {:induction false} SeqSumSnoc(s: seq<int>, x: int, f: int -> int)
    ensures SeqSum(s + [x], f) == SeqSum(s, f) + f(x)
  {
    assert (s + [x])[..|s|] == s;
  }

  lemma {:induction false} SeqSumConcat(a: seq<int>, b: seq<int>, f: int -> int)
    ensures SeqSum(a + b, f) == SeqSum(a, f) + SeqSum(b, f)
    decreases |b|
  {
    if b == [] {
      assert a + b == a;
    } else {
      var n := |b| - 1;
      assert (a + b)[..|a + b| - 1] == a + b[..n];
      SeqSumConcat(a, b[..n], f);
    }
  }

  lemma {:induction false} SeqSumMiddle(before: seq<int>, x: int, after: seq<int>, f: int -> int)
    ensures SeqSum(before + [x] + after, f) == SeqSum(before + after, f) + f(x)
  {
    SeqSumConcat(before + [x], after, f);
    SeqSumSnoc(before, x, f);
    SeqSumConcat(before, after, f);
  }

  lemma {:induction false} Around(a: seq<int>, x: int) returns (before: seq<int>, after: seq<int>)
    requires x in a
    ensures a == before + [x] + after
    ensures multiset(before + after) == multiset(a) - multiset{x}
  {
    var k :| 0 <= k < |a| && a[k] == x;
    before, after := a[..k], a[k + 1..];
    assert a == before + [x] + after;
  }

  /** The order of a sequence does not matter to its sum. */
  lemma {:induction false} SeqSumPermutation(a: seq<int>, b: seq<int>, f: int -> int)
    requires multiset(a) == multiset(b)
    ensures SeqSum(a, f) == SeqSum(b, f)
    decreases |a|
  {
    if a == [] {
      assert |multiset(b)| == 0;
    } else {
      var n := |a| - 1;
      var x := a[n];
      assert a == a[..n] + [x];
      assert x in multiset(b);
      var before, after := Around(b, x);
      SeqSumPermutation(a[..n], before + after, f);
      SeqSumMiddle(before, x, after, f);
    }
  }

  lemma {:induction false} SeqSumPrefix(s: seq<int>, k: nat, f: int -> int)
    requires k <= |s| && forall i :: 0 <= i < |s| ==> 0 <= f(s[i])
    ensures 0 <= SeqSum(s[..k], f) <= SeqSum(s, f)
    decreases |s| - k + |s|
  {
    if k < |s| {
      SeqSumPrefix(s, k + 1, f);
      assert s[..k + 1][..k] == s[..k];
      if k > 0 { SeqSumPrefix(s[..k], k, f); }
    } else {
      assert s[..k] == s;
      if k > 0 { SeqSumPrefix(s[..k - 1], k - 1, f); }
    }
  }

  ghost function PositiveOnly(s: seq<int>, weight: int -> int): seq<int> {
    if s == [] then []
    else
      var n := |s| - 1;
      PositiveOnly(s[..n], weight) + if weight(s[n]) > 0 then [s[n]] else []
  }

  /** Leaving out what weighs nothing leaves the sum as it is. */
  lemma {:induction false} PositiveOnlySum(s: seq<int>, weight: int -> int, g: int -> int)
    requires forall i :: weight(i) <= 0 ==> g(i) == 0
    ensures SeqSum(PositiveOnly(s, weight), g) == SeqSum(s, g)
  {
    if s != [] {
      var n := |s| - 1;
      PositiveOnlySum(s[..n], weight, g);
      if weight(s[n]) > 0 {
        SeqSumSnoc(PositiveOnly(s[..n], weight), s[n], g);
      } else {
        assert PositiveOnly(s, weight) == PositiveOnly(s[..n], weight);
      }
    }
  }

  lemma {:induction false} PositiveOnlyMembers(s: seq<int>, weight: int -> int)
    ensures forall x :: x in PositiveOnly(s, weight) <==> x in s && weight(x) > 0
  {
    if s != [] {
      var n := |s| - 1;
      assert s == s[..n] + [s[n]];
      PositiveOnlyMembers(s[..n], weight);
    }
  }

  // ----- weights of listed things -----

  function Tally<T>(xs: seq<T>, w: T -> nat): nat {
    if xs == [] then 0 else Tally(xs[..|xs| - 1], w) + w(xs[|xs| - 1])
  }

  lemma {:induction false} TallyStep<T>(xs: seq<T>, w: T -> nat, k: nat)
    requires k < |xs|
    ensures Tally(xs[..k + 1], w) == Tally(xs[..k], w) + w(xs[k])
  {
    assert xs[..k + 1][..k] == xs[..k];
  }

  lemma {:induction false} TallyPrefix<T>(xs: seq<T>, w: T -> nat, k: nat)
    requires k <= |xs|
    ensures Tally(xs[..k], w) <= Tally(xs, w)
    decreases |xs| - k
  {
    if k == |xs| {
      assert xs[..k] == xs;
    } else {
      TallyStep(xs, w, k);
      TallyPrefix(xs, w, k + 1);
    }
  }

  lemma {:induction false} TallyConcat<T>(a: seq<T>, b: seq<T>, w: T -> nat)
    ensures Tally(a + b, w) == Tally(a, w) + Tally(b, w)
    decreases |b|
  {
    if b == [] {
      assert a + b == a;
    } else {
      assert (a + b)[..|a + b| - 1] == a + b[..|b| - 1];
      TallyConcat(a, b[..|b| - 1], w);
    }
  }

  lemma {:induction false} TallyAtMost<S, T>(xs: seq<S>, v: S -> nat, ys: seq<T>, w: T -> nat)
    requires |xs| == |ys| && forall k :: 0 <= k < |xs| ==> v(xs[k]) <= w(ys[k])
    ensures Tally(xs, v) <= Tally(ys, w)
    decreases |xs|
  {
    if xs != [] {
      var n := |xs| - 1;
      assert v(xs[n]) <= w(ys[n]);
      TallyAtMost(xs[..n], v, ys[..n], w);
    }
  }

  lemma {:induction false} TallyAgrees<S, T>(xs: seq<S>, v: S -> nat, ys: seq<T>, w: T -> nat)
    requires |xs| == |ys| && forall k :: 0 <= k < |xs| ==> v(xs[k]) == w(ys[k])
    ensures Tally(xs, v) == Tally(ys, w)
  {
    TallyAtMost(xs, v, ys, w);
    TallyAtMost(ys, w, xs, v);
  }

  lemma {:induction false} TallyNothing<T>(xs: seq<T>, w: T -> nat)
    requires forall k :: 0 <= k < |xs| ==> w(xs[k]) == 0
    ensures Tally(xs, w) == 0
    decreases |xs|
  {
    if xs != [] {
      assert w(xs[|xs| - 1]) == 0;
      TallyNothing(xs[..|xs| - 1], w);
    }
  }

  /** As many different values as things that differ in them. */
  lemma {:induction false} CountDistinct<T, U>(xs: seq<T>, f: T -> U, all: set<U>)
    requires forall i, j :: 0 <= i < j < |xs| ==> f(xs[i]) != f(xs[j])
    requires all == set k | 0 <= k < |xs| :: f(xs[k])
    ensures |all| == |xs|
    decreases |xs|
  {
    if xs == [] {
      assert all == {};
    } else {
      var n := |xs| - 1;
      var fewer := set k | 0 <= k < n :: f(xs[..n][k]);
      CountDistinct(xs[..n], f, fewer);
      assert f(xs[n]) !in fewer;
      forall u ensures u in all <==> u in fewer + {f(xs[n])} {
        if u in fewer {
          var k :| 0 <= k < n && f(xs[..n][k]) == u;
          assert f(xs[k]) == u;
        }
        if u in all {
          var k :| 0 <= k < |xs| && f(xs[k]) == u;
          assert k < n ==> xs[..n][k] == xs[k];
        }
      }
      assert all == fewer + {f(xs[n])};
    }
  }
}
