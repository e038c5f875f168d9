/** Sums and counts over a sequence of components.

    Every conservation argument in this project has the same shape: a step replaces one component of
    a sequence (one reactor, one worker, one pool), and the total over the sequence changes by
    exactly the difference of the two components. */
module Tally {

  function Min(a: nat, b: nat): nat {
    if a < b then a else b
  }

  function Sum<X, T>(f: X -> multiset<T>, xs: seq<X>): multiset<T> {
    if xs == [] then multiset{} else f(xs[0]) + Sum(f, xs[1..])
  }

  function Count<X>(p: X -> bool, xs: seq<X>): nat {
    if xs == [] then 0 else (if p(xs[0]) then 1 else 0) + Count(p, xs[1..])
  }

  lemma {:induction false} SumUpdate<X, T>(f: X -> multiset<T>, xs: seq<X>, i: nat, x: X)
    requires i < |xs|
    ensures Sum(f, xs[i := x]) + f(xs[i]) == Sum(f, xs) + f(x)
  {
    if i == 0 {
      assert xs[i := x][1..] == xs[1..];
    } else {
      assert xs[i := x][1..] == xs[1..][i - 1 := x];
      assert xs[1..][i - 1] == xs[i];
      SumUpdate(f, xs[1..], i - 1, x);
      var tail, tail' := Sum(f, xs[1..]), Sum(f, xs[1..][i - 1 := x]);
      assert (f(xs[0]) + tail') + f(xs[i]) == f(xs[0]) + (tail' + f(xs[i]));
    }
  }

  lemma SumSame<X, T>(f: X -> multiset<T>, xs: seq<X>, i: nat, x: X)
    requires i < |xs| && f(x) == f(xs[i])
    ensures Sum(f, xs[i := x]) == Sum(f, xs)
  {
    SumUpdate(f, xs, i, x);
    Cancel(Sum(f, xs[i := x]), Sum(f, xs), f(x));
  }

  lemma SumGain<X, T>(f: X -> multiset<T>, xs: seq<X>, i: nat, x: X, gain: multiset<T>)
    requires i < |xs| && f(x) == f(xs[i]) + gain
    ensures Sum(f, xs[i := x]) == Sum(f, xs) + gain
  {
    SumUpdate(f, xs, i, x);
    Regroup(Sum(f, xs), f(xs[i]), gain);
    Cancel(Sum(f, xs[i := x]), Sum(f, xs) + gain, f(xs[i]));
  }

  lemma SumLoss<X, T>(f: X -> multiset<T>, xs: seq<X>, i: nat, x: X, loss: multiset<T>)
    requires i < |xs| && f(xs[i]) == f(x) + loss
    ensures Sum(f, xs) == Sum(f, xs[i := x]) + loss
  {
    SumUpdate(f, xs, i, x);
    Regroup(Sum(f, xs[i := x]), f(x), loss);
    Cancel(Sum(f, xs), Sum(f, xs[i := x]) + loss, f(x));
  }

  lemma Cancel<T>(a: multiset<T>, b: multiset<T>, x: multiset<T>)
    requires a + x == b + x
    ensures a == b
  {
    forall t ensures a[t] == b[t] {
      assert (a + x)[t] == a[t] + x[t];
      assert (b + x)[t] == b[t] + x[t];
    }
  }

  lemma Regroup<T>(a: multiset<T>, b: multiset<T>, d: multiset<T>)
    ensures a + (b + d) == (a + d) + b
  {
  }

  lemma {:induction false} CountUpdate<X>(p: X -> bool, xs: seq<X>, i: nat, x: X)
    requires i < |xs|
    ensures Count(p, xs[i := x]) + (if p(xs[i]) then 1 else 0) == Count(p, xs) + (if p(x) then 1 else 0)
  {
    if i == 0 {
      assert xs[i := x][1..] == xs[1..];
    } else {
      assert xs[i := x][1..] == xs[1..][i - 1 := x];
      assert xs[1..][i - 1] == xs[i];
      CountUpdate(p, xs[1..], i - 1, x);
    }
  }

  /** A component is part of the total. */
  lemma {:induction false} SumHas<X, T>(f: X -> multiset<T>, xs: seq<X>, i: nat)
    requires i < |xs|
    ensures f(xs[i]) <= Sum(f, xs)
  {
    if i > 0 {
      assert xs[1..][i - 1] == xs[i];
      SumHas(f, xs[1..], i - 1);
    }
  }

  /** Two different components are parts of the total side by side. */
  lemma {:induction false} SumHasTwo<X, T>(f: X -> multiset<T>, xs: seq<X>, i: nat, j: nat)
    requires i < j < |xs|
    ensures f(xs[i]) + f(xs[j]) <= Sum(f, xs)
  {
    assert xs[1..][j - 1] == xs[j];
    if i == 0 {
      SumHas(f, xs[1..], j - 1);
    } else {
      assert xs[1..][i - 1] == xs[i];
      SumHasTwo(f, xs[1..], i - 1, j - 1);
    }
  }

  /** Whatever is in the total is in some component. */
  lemma {:induction false} SumFind<X, T>(f: X -> multiset<T>, xs: seq<X>, t: T) returns (i: nat)
    requires t in Sum(f, xs)
    ensures i < |xs| && t in f(xs[i])
  {
    if t in f(xs[0]) {
      i := 0;
    } else {
      var j := SumFind(f, xs[1..], t);
      i := j + 1;
    }
  }

  /** A total over components that are all empty is empty. */
  lemma {:induction false} SumEmpty<X, T>(f: X -> multiset<T>, xs: seq<X>)
    requires forall i :: 0 <= i < |xs| ==> f(xs[i]) == multiset{}
    ensures Sum(f, xs) == multiset{}
  {
    if xs != [] {
      assert f(xs[0]) == multiset{};
      forall i | 0 <= i < |xs[1..]| ensures f(xs[1..][i]) == multiset{} {
        assert xs[1..][i] == xs[i + 1];
      }
      SumEmpty(f, xs[1..]);
    }
  }

  /** If every component has at most `bound` elements, the total has at most `bound` per component. */
  lemma {:induction false} SumSize<X, T>(f: X -> multiset<T>, xs: seq<X>, bound: nat)
    requires forall i :: 0 <= i < |xs| ==> |f(xs[i])| <= bound
    ensures |Sum(f, xs)| <= bound * |xs|
  {
    if xs != [] {
      assert |f(xs[0])| <= bound;
      forall i | 0 <= i < |xs[1..]| ensures |f(xs[1..][i])| <= bound {
        assert xs[1..][i] == xs[i + 1];
      }
      SumSize(f, xs[1..], bound);
    }
  }

  /** The same when one component is known to be empty. */
  lemma {:induction false} SumSizeButOne<X, T>(f: X -> multiset<T>, xs: seq<X>, bound: nat, k: nat)
    requires forall i :: 0 <= i < |xs| ==> |f(xs[i])| <= bound
    requires k < |xs| && f(xs[k]) == multiset{}
    ensures |Sum(f, xs)| <= bound * (|xs| - 1)
  {
    hide *;
    FirstAndRest(f, xs);
    forall i | 0 <= i < |xs[1..]| ensures |f(xs[1..][i])| <= bound {
      assert xs[1..][i] == xs[i + 1];
    }
    if k == 0 {
      SumSize(f, xs[1..], bound);
    } else {
      assert |f(xs[0])| <= bound;
      assert xs[1..][k - 1] == xs[k];
      SumSizeButOne(f, xs[1..], bound, k - 1);
      OneMore(bound, |xs| - 1);
    }
  }

  lemma FirstAndRest<X, T>(f: X -> multiset<T>, xs: seq<X>)
    requires xs != []
    ensures |Sum(f, xs)| == |f(xs[0])| + |Sum(f, xs[1..])|
  {
  }

  lemma OneMore(bound: nat, n: nat)
    requires n > 0
    ensures bound * n == bound + bound * (n - 1)
  {
  }

  /** A sequence that counts up from zero holds every smaller number once. */
  lemma {:induction false} EachOnce(all: seq<nat>, n: nat)
    requires forall i :: 0 <= i < |all| ==> all[i] == i
    ensures multiset(all)[n] == if n < |all| then 1 else 0
    decreases |all|
  {
    if all != [] {
      var last := |all| - 1;
      assert all == all[..last] + [last];
      EachOnce(all[..last], n);
    }
  }

  lemma {:induction false} CountPositive<X>(p: X -> bool, xs: seq<X>, i: nat)
    requires i < |xs| && p(xs[i])
    ensures Count(p, xs) > 0
  {
    if i > 0 {
      assert xs[1..][i - 1] == xs[i];
      CountPositive(p, xs[1..], i - 1);
    }
  }

  lemma {:induction false} CountFind<X>(p: X -> bool, xs: seq<X>) returns (i: nat)
    requires Count(p, xs) > 0
    ensures i < |xs| && p(xs[i])
  {
    if p(xs[0]) {
      i := 0;
    } else {
      var j := CountFind(p, xs[1..]);
      i := j + 1;
    }
  }
}
