/** Wrapper types and small facts about sums, maxima and sorted sequences. */
module Basics {

  datatype Option<+T> = None | Some(value: T)

  datatype Result<+T, +E> = Ok(value: T) | Err(error: E)

  const HOUR := 3_600_000
  const DAY := 24 * HOUR

  function Max(x: real, y: real): real {
    if x < y then y else x
  }

  function Min(x: real, y: real): real {
    if y < x then y else x
  }

  /** Fall from the running peak as a fraction of it. */
  function DrawdownFrom(peak: real, equity: real): real
    requires peak != 0.0
  {
    (peak - equity) / peak
  }

  function Count(c: bool): nat {
    if c then 1 else 0
  }

  /** How many positions from lo up to hi have the property. */
  ghost function HowMany(p: nat -> bool, lo: nat, hi: nat): nat {
    |set k: nat | lo <= k < hi && p(k)|
  }

  lemma HowManyStep(p: nat -> bool, lo: nat, hi: nat)
    requires lo <= hi
    ensures HowMany(p, lo, hi + 1) == HowMany(p, lo, hi) + Count(p(hi))
  {
    var before, after := set k: nat | lo <= k < hi && p(k), set k: nat | lo <= k < hi + 1 && p(k);
    assert after == if p(hi) then before + {hi} else before;
  }

  /** The count depends on the property within its bounds only. */
  lemma SameCount(p: nat -> bool, q: nat -> bool, n: nat)
    requires forall k: nat :: k < n ==> p(k) == q(k)
    ensures HowMany(p, 0, n) == HowMany(q, 0, n)
  {
    assert (set k: nat | 0 <= k < n && p(k)) == (set k: nat | 0 <= k < n && q(k));
  }

  function Notional(quantity: real, price: real): real {
    quantity * price
  }

  /** Sum of a list, defined from the right so that appending unfolds once. */
  function Sum(xs: seq<real>): real {
    if xs == [] then 0.0 else Sum(xs[..|xs| - 1]) + xs[|xs| - 1]
  }

  lemma SumAppend(xs: seq<real>, x: real)
    ensures Sum(xs + [x]) == Sum(xs) + x
  {
    assert (xs + [x])[..|xs|] == xs;
  }

  /** Two equally long lists, the first nowhere above the second. */
  predicate NowhereAbove(xs: seq<real>, ys: seq<real>) {
    && |xs| == |ys|
    && (xs == [] || (NowhereAbove(xs[..|xs| - 1], ys[..|ys| - 1]) && xs[|xs| - 1] <= ys[|ys| - 1]))
  }

  lemma {:induction false} NowhereAboveMeans(xs: seq<real>, ys: seq<real>)
    ensures NowhereAbove(xs, ys) <==> |xs| == |ys| && forall k :: 0 <= k < |xs| ==> xs[k] <= ys[k]
  {
    if xs != [] && |xs| == |ys| {
      NowhereAboveMeans(xs[..|xs| - 1], ys[..|ys| - 1]);
    }
  }

  lemma NowhereAboveAppend(xs: seq<real>, ys: seq<real>, x: real, y: real)
    requires NowhereAbove(xs, ys) && x <= y
    ensures NowhereAbove(xs + [x], ys + [y])
  {
    assert (xs + [x])[..|xs|] == xs && (ys + [y])[..|ys|] == ys;
  }

  lemma {:induction false} SumPointwise(xs: seq<real>, ys: seq<real>)
    requires NowhereAbove(xs, ys)
    ensures Sum(xs) <= Sum(ys)
  {
    if xs != [] {
      SumPointwise(xs[..|xs| - 1], ys[..|ys| - 1]);
    }
  }

  ghost predicate StrictlyIncreasing(xs: seq<int>) {
    forall i, j :: 0 <= i < j < |xs| ==> xs[i] < xs[j]
  }

  /** The list holds exactly the set's elements, in increasing order. */
  ghost predicate Enumerates(xs: seq<nat>, s: set<nat>) {
    StrictlyIncreasing(xs) && forall x :: x in xs <==> x in s
  }

  lemma EnumerationHead(xs: seq<nat>, ys: seq<nat>, s: set<nat>)
    requires Enumerates(xs, s) && Enumerates(ys, s) && xs != []
    ensures ys != [] && xs[0] == ys[0]
  {
    assert xs[0] in xs && xs[0] in ys;
    assert ys[0] in ys && ys[0] in xs;
  }

  lemma EnumerationTail(xs: seq<nat>, s: set<nat>)
    requires Enumerates(xs, s) && xs != []
    ensures Enumerates(xs[1..], s - {xs[0]})
  {
    forall x ensures x in xs[1..] <==> x in s - {xs[0]} {
      if x in xs {
        var k :| 0 <= k < |xs| && xs[k] == x;
        assert k > 0 ==> x == xs[1..][k - 1];
      }
    }
  }

  lemma {:induction false} EnumerationSize(xs: seq<nat>, s: set<nat>)
    requires Enumerates(xs, s)
    ensures |xs| == |s|
    decreases |xs|
  {
    if xs == [] {
      assert s == {};
    } else {
      assert xs[0] in s;
      EnumerationTail(xs, s);
      EnumerationSize(xs[1..], s - {xs[0]});
    }
  }

  /** A finite set has one increasing enumeration: sorting has one answer. */
  lemma {:induction false} EnumerationUnique(xs: seq<nat>, ys: seq<nat>, s: set<nat>)
    requires Enumerates(xs, s) && Enumerates(ys, s)
    ensures xs == ys
    decreases |xs|
  {
    EnumerationSize(xs, s);
    EnumerationSize(ys, s);
    if xs != [] {
      EnumerationHead(xs, ys, s);
      EnumerationTail(xs, s);
      EnumerationTail(ys, s);
      EnumerationUnique(xs[1..], ys[1..], s - {xs[0]});
      assert xs == [xs[0]] + xs[1..] && ys == [ys[0]] + ys[1..];
    }
  }

  /** Where x belongs in an increasing list. */
  method InsertionPoint(xs: seq<nat>, x: nat) returns (k: nat)
    requires StrictlyIncreasing(xs)
    ensures k <= |xs|
    ensures forall j :: 0 <= j < k ==> xs[j] < x
    ensures forall j :: k <= j < |xs| ==> x <= xs[j]
  {
    k := 0;
    while k < |xs| && xs[k] < x
      invariant k <= |xs|
      invariant forall j :: 0 <= j < k ==> xs[j] < x
    {
      k := k + 1;
    }
  }

  /** The built-in sort, applied to a set of integers. */
  method Sorted(s: set<nat>) returns (xs: seq<nat>)
    ensures Enumerates(xs, s)
  {
    xs := [];
    var rest := s;
    while rest != {}
      invariant rest <= s
      invariant Enumerates(xs, s - rest)
      decreases rest
    {
      var x :| x in rest;
      var k := InsertionPoint(xs, x);
      assert x !in xs;
      ghost var was := xs;
      xs := xs[..k] + [x] + xs[k..];
      forall y ensures y in xs <==> y in was || y == x {
        assert was == was[..k] + was[k..];
        assert x == xs[k];
      }
      rest := rest - {x};
    }
  }

  /** Position of the first time not before x, as a bisection on a sorted list. */
  function BisectLeft(times: seq<int>, x: int): (k: nat)
    ensures k <= |times|
    ensures forall j :: 0 <= j < k ==> times[j] < x
    ensures k < |times| ==> x <= times[k]
  {
    if times == [] || x <= times[0] then 0 else 1 + BisectLeft(times[1..], x)
  }
}
