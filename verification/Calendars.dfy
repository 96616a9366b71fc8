/**
 A calendar reduced to what the research code relies on: consecutive periods with
 strictly increasing first instants, and the period each instant falls in.
 */
module Calendars {
  import opened Basics

  datatype Calendar = Calendar(first: int -> int, index: int -> int)
  {
    ghost predicate Valid() {
      && (forall m, n {:trigger first(m), first(n)} :: m < n ==> first(m) < first(n))
      && (forall t {:trigger index(t)} :: first(index(t)) <= t < first(index(t) + 1))
    }

    /** First instant of the period holding t. */
    function PeriodStart(t: int): int {
      first(index(t))
    }

    /** First instant of the following period. */
    function NextPeriod(t: int): int {
      first(index(t) + 1)
    }
  }

  /** An instant lies in the one period whose bounds enclose it. */
  lemma IndexUnique(c: Calendar, t: int, m: int)
    requires c.Valid() && c.first(m) <= t < c.first(m + 1)
    ensures c.index(t) == m
  {
    var k := c.index(t);
    assert k + 1 <= m ==> c.first(k + 1) <= c.first(m);
    assert m + 1 <= k ==> c.first(m + 1) <= c.first(k);
  }

  lemma StartOfFirst(c: Calendar, m: int)
    requires c.Valid()
    ensures c.PeriodStart(c.first(m)) == c.first(m) && c.NextPeriod(c.first(m)) == c.first(m + 1)
  {
    assert c.first(m) < c.first(m + 1);
    IndexUnique(c, c.first(m), m);
  }

  /** The period starts in a range: consecutive, from the first not before the start, until the end is reached. */
  ghost predicate BoundariesOf(c: Calendar, start: int, end: int, m: int, out: seq<int>) {
    && start <= c.first(m) && c.first(m - 1) < start
    && (forall k {:trigger out[k]} :: 0 <= k < |out| ==> out[k] == c.first(m + k) && out[k] < end)
    && end <= c.first(m + |out|)
  }

  /** The period whose start is the first one not before t. */
  ghost function FirstFrom(c: Calendar, t: int): int {
    if c.PeriodStart(t) < t then c.index(t) + 1 else c.index(t)
  }

  lemma FirstFromIsFirst(c: Calendar, t: int)
    requires c.Valid()
    ensures t <= c.first(FirstFrom(c, t)) && c.first(FirstFrom(c, t) - 1) < t
  {
    var k := c.index(t);
    assert c.first(k) <= t < c.first(k + 1) && c.first(k - 1) < c.first(k);
  }

  method CollectPeriods(c: Calendar, from: int, end: int, ghost m: int) returns (out: seq<int>)
    requires c.Valid() && from == c.first(m)
    ensures forall k {:trigger out[k]} :: 0 <= k < |out| ==> out[k] == c.first(m + k) && out[k] < end
    ensures end <= c.first(m + |out|)
  {
    out := [];
    var current := from;
    while current < end
      invariant current == c.first(m + |out|)
      invariant forall k {:trigger out[k]} :: 0 <= k < |out| ==> out[k] == c.first(m + k) && out[k] < end
      decreases end - current
    {
      StartOfFirst(c, m + |out|);
      out := out + [current];
      current := c.NextPeriod(current);
    }
  }

  method MonthBoundaries(c: Calendar, start: int, end: int) returns (out: seq<int>)
    requires c.Valid()
    ensures BoundariesOf(c, start, end, FirstFrom(c, start), out)
  {
    var current := c.PeriodStart(start);
    StartOfFirst(c, c.index(start));
    if current < start {
      current := c.NextPeriod(current);
    }
    FirstFromIsFirst(c, start);
    out := CollectPeriods(c, current, end, FirstFrom(c, start));
  }
}
