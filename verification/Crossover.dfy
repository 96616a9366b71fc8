/**
 The long-only moving-average crossover that every simulator trades: a crossing
 read at the close of one bar is filled at the open of the next contiguous bar.
 The direction automaton here is the reference each simulator is compared with.
 */
module Crossover {
  import opened Basics

  /** One hourly series with its two indicator columns; an undefined indicator is None. */
  datatype Bars = Bars(
    times: seq<int>,
    opens: seq<real>,
    closes: seq<real>,
    short: seq<Option<real>>,
    long: seq<Option<real>>)
  {
    predicate Valid() {
      |times| == |opens| == |closes| == |short| == |long|
    }

    /** Prices are never negative. */
    ghost predicate Priced() {
      Valid() && forall i :: 0 <= i < |times| ==> 0.0 <= opens[i] && 0.0 <= closes[i]
    }
  }

  datatype Cross = Undefined | Up | Down | Flat

  /** The crossing visible at the close of bar i. */
  function CrossAt(b: Bars, i: nat): Cross
    requires b.Valid() && i < |b.times|
  {
    if i == 0 || b.short[i].None? || b.long[i].None? || b.short[i - 1].None? || b.long[i - 1].None? then Undefined
    else if b.short[i].value > b.long[i].value && b.short[i - 1].value <= b.long[i - 1].value then Up
    else if b.short[i].value < b.long[i].value && b.short[i - 1].value >= b.long[i - 1].value then Down
    else Flat
  }

  /** Bar i + 1 lies in the cell and follows bar i without a gap. */
  predicate Fillable(b: Bars, end: nat, i: nat)
    requires i < |b.times|
  {
    i + 1 < end && i + 1 < |b.times| && b.times[i + 1] == b.times[i] + HOUR
  }

  datatype Direction = Direction(long: bool, signals: nat, entries: nat, exits: nat, hours: nat)

  /** What bar i does to the direction alone. */
  function Turn(b: Bars, end: nat, d: Direction, i: nat): Direction
    requires b.Valid() && i < |b.times|
  {
    var enter := !d.long && CrossAt(b, i) == Up;
    var exit := d.long && CrossAt(b, i) == Down;
    var fill := Fillable(b, end, i);
    Direction(
      if fill && enter then true else if fill && exit then false else d.long,
      d.signals + Count(enter),
      d.entries + Count(enter && fill),
      d.exits + Count(exit && fill),
      d.hours + Count(d.long))
  }

  /** The direction when bar i is reached, deciding from bar start on. */
  function Course(b: Bars, start: nat, end: nat, i: nat): Direction
    requires b.Valid() && i <= |b.times|
  {
    if i <= start then Direction(false, 0, 0, 0, 0) else Turn(b, end, Course(b, start, end, i - 1), i - 1)
  }

  // ---------- What the bars say ----------

  /** Both averages are known at bar i and at the bar before. */
  predicate Known(b: Bars, i: nat)
    requires b.Valid() && i < |b.times|
  {
    0 < i && b.short[i].Some? && b.long[i].Some? && b.short[i - 1].Some? && b.long[i - 1].Some?
  }

  /** The short average is above the long one, and was not one bar ago. */
  predicate CrossesUp(b: Bars, i: nat)
    requires b.Valid() && i < |b.times|
  {
    Known(b, i) && b.long[i].value < b.short[i].value && !(b.long[i - 1].value < b.short[i - 1].value)
  }

  /** The short average is below the long one, and was not one bar ago. */
  predicate CrossesDown(b: Bars, i: nat)
    requires b.Valid() && i < |b.times|
  {
    Known(b, i) && b.short[i].value < b.long[i].value && !(b.short[i - 1].value < b.long[i - 1].value)
  }

  /** Before the end there is a next bar, and it opens one hour later. */
  predicate NextHour(b: Bars, end: nat, i: nat)
    requires i < |b.times|
  {
    i + 1 < end && i + 1 < |b.times| && b.times[i + 1] - b.times[i] == 3_600_000
  }

  lemma CrossingsExactly(b: Bars, end: nat, i: nat)
    requires b.Valid() && i < |b.times|
    ensures CrossAt(b, i) == Undefined <==> !Known(b, i)
    ensures CrossAt(b, i) == Up <==> CrossesUp(b, i)
    ensures CrossAt(b, i) == Down <==> CrossesDown(b, i)
    ensures Fillable(b, end, i) <==> NextHour(b, end, i)
  {
  }

  /** Bought at bar j and not sold before bar i: an upward crossing with a next hour, and no such downward one since. */
  ghost predicate HeldSince(b: Bars, end: nat, j: nat, i: nat)
    requires b.Valid() && i <= |b.times|
  {
    && j < i
    && CrossesUp(b, j) && NextHour(b, end, j)
    && forall k :: j < k < i ==> !(CrossesDown(b, k) && NextHour(b, end, k))
  }

  /** The position at bar i, read off the bars from start on. */
  ghost predicate Held(b: Bars, start: nat, end: nat, i: nat)
    requires b.Valid() && i <= |b.times|
  {
    exists j: nat :: start <= j && HeldSince(b, end, j, i)
  }

  /** Held changes at a bar as its crossing says, if that is filled. */
  lemma HeldStep(b: Bars, start: nat, end: nat, i: nat)
    requires b.Valid() && start <= i < |b.times|
    ensures Held(b, start, end, i + 1) ==
      if NextHour(b, end, i) && CrossesUp(b, i) then true
      else if NextHour(b, end, i) && CrossesDown(b, i) then false
      else Held(b, start, end, i)
  {
    var n := i + 1;
    if NextHour(b, end, i) && CrossesUp(b, i) {
      assert HeldSince(b, end, i, n);
    } else if NextHour(b, end, i) && CrossesDown(b, i) {
      forall j: nat | start <= j ensures !HeldSince(b, end, j, n) {
        assert j < i ==> j < i < n;
      }
    } else {
      forall j: nat | start <= j ensures HeldSince(b, end, j, n) <==> HeldSince(b, end, j, i) {
      }
    }
  }

  /** The automaton is long exactly while a filled upward crossing has not been followed by a filled downward one. */
  lemma {:induction false} LongMeansHeld(b: Bars, start: nat, end: nat, i: nat)
    requires b.Valid() && i <= |b.times|
    ensures Course(b, start, end, i).long <==> Held(b, start, end, i)
  {
    if i > start {
      LongMeansHeld(b, start, end, i - 1);
      HeldStep(b, start, end, i - 1);
      CrossingsExactly(b, end, i - 1);
    }
  }

  /** The bars whose upward crossing meets a flat position. */
  ghost function Signals(b: Bars, start: nat, end: nat): nat -> bool {
    (k: nat) => b.Valid() && k < |b.times| && CrossesUp(b, k) && !Held(b, start, end, k)
  }

  ghost function Enters(b: Bars, start: nat, end: nat): nat -> bool {
    (k: nat) => b.Valid() && k < |b.times| && CrossesUp(b, k) && !Held(b, start, end, k) && NextHour(b, end, k)
  }

  ghost function Exits(b: Bars, start: nat, end: nat): nat -> bool {
    (k: nat) => b.Valid() && k < |b.times| && CrossesDown(b, k) && Held(b, start, end, k) && NextHour(b, end, k)
  }

  ghost function Holds(b: Bars, start: nat, end: nat): nat -> bool {
    (k: nat) => b.Valid() && k < |b.times| && Held(b, start, end, k)
  }

  /** The counts of one more bar. */
  ghost predicate CountsOn(b: Bars, start: nat, end: nat, i: nat, d: Direction, after: Direction) {
    && after.signals == d.signals + Count(Signals(b, start, end)(i))
    && after.entries == d.entries + Count(Enters(b, start, end)(i))
    && after.exits == d.exits + Count(Exits(b, start, end)(i))
    && after.hours == d.hours + Count(Holds(b, start, end)(i))
  }

  ghost predicate Counted(b: Bars, start: nat, end: nat, i: nat, d: Direction) {
    && d.signals == HowMany(Signals(b, start, end), start, i)
    && d.entries == HowMany(Enters(b, start, end), start, i)
    && d.exits == HowMany(Exits(b, start, end), start, i)
    && d.hours == HowMany(Holds(b, start, end), start, i)
  }

  lemma TurnCounts(b: Bars, start: nat, end: nat, i: nat)
    requires b.Valid() && start <= i < |b.times|
    ensures CountsOn(b, start, end, i, Course(b, start, end, i), Course(b, start, end, i + 1))
  {
    LongMeansHeld(b, start, end, i);
    CrossingsExactly(b, end, i);
  }

  lemma CountedStep(b: Bars, start: nat, end: nat, i: nat, d: Direction, after: Direction)
    requires start <= i && Counted(b, start, end, i, d) && CountsOn(b, start, end, i, d, after)
    ensures Counted(b, start, end, i + 1, after)
  {
    HowManyStep(Signals(b, start, end), start, i);
    HowManyStep(Enters(b, start, end), start, i);
    HowManyStep(Exits(b, start, end), start, i);
    HowManyStep(Holds(b, start, end), start, i);
  }

  /** Signals, entries, exits and hours are counted at exactly the bars that show them. */
  lemma {:induction false} CourseCounts(b: Bars, start: nat, end: nat, i: nat)
    requires b.Valid() && start <= i <= |b.times|
    ensures Counted(b, start, end, i, Course(b, start, end, i))
  {
    if i > start {
      CourseCounts(b, start, end, i - 1);
      TurnCounts(b, start, end, i - 1);
      CountedStep(b, start, end, i - 1, Course(b, start, end, i - 1), Course(b, start, end, i));
    }
  }

  /** Entries and exits alternate, every entry was signalled, and the hour count fits the bars seen. */
  lemma {:induction false} CourseBalances(b: Bars, start: nat, end: nat, i: nat)
    requires b.Valid() && start <= i <= |b.times|
    ensures var d := Course(b, start, end, i);
      && d.entries == d.exits + Count(d.long)
      && d.entries <= d.signals
      && d.hours <= i - start
  {
    if i > start {
      CourseBalances(b, start, end, i - 1);
    }
  }

  // ---------- The shadow position used to estimate volatility ----------

  /** Shadow position at bar i: it looks one bar back for its crossing and ignores its first two bars. */
  function Shadow(b: Bars, start: nat, i: nat): bool
    requires b.Valid() && i < |b.times|
  {
    if i <= start then false
    else
      var before := Shadow(b, start, i - 1);
      if i >= start + 2 && b.times[i] == b.times[i - 1] + HOUR then
        if !before && CrossAt(b, i - 1) == Up then true
        else if before && CrossAt(b, i - 1) == Down then false
        else before
      else before
  }

  datatype ShadowError = ResetOutsideSeries

  method ControlPositions(b: Bars, resetMs: int) returns (r: Result<seq<bool>, ShadowError>)
    requires b.Valid()
    ensures r.Err? <==> BisectLeft(b.times, resetMs) >= |b.times|
    ensures r.Ok? ==> |r.value| == |b.times|
    ensures r.Ok? ==> forall i :: 0 <= i < |b.times| ==>
      r.value[i] == Shadow(b, BisectLeft(b.times, resetMs), i)
  {
    var n := |b.times|;
    var states := new bool[n](_ => false);
    var start := BisectLeft(b.times, resetMs);
    if start >= n {
      return Err(ResetOutsideSeries);
    }
    var position := false;
    for i := start to n
      invariant i > start ==> position == Shadow(b, start, i - 1)
      invariant i == start ==> !position
      invariant forall k :: 0 <= k < i ==> states[k] == Shadow(b, start, k)
    {
      if i >= start + 2 && b.times[i] == b.times[i - 1] + HOUR {
        var cross := CrossAt(b, i - 1);
        if !position && cross == Up {
          position := true;
        } else if position && cross == Down {
          position := false;
        }
      }
      states[i] := position;
    }
    return Ok(states[..]);
  }

  // ---------- The shadow and the traded direction ----------

  /** A crossing that is filled, in either direction. */
  predicate Settles(b: Bars, end: nat, j: nat)
    requires b.Valid() && j < |b.times|
  {
    (CrossAt(b, j) == Up || CrossAt(b, j) == Down) && Fillable(b, end, j)
  }

  ghost predicate SettledBetween(b: Bars, end: nat, from: nat, i: nat)
    requires b.Valid() && i <= |b.times|
  {
    exists j :: from <= j < i && Settles(b, end, j)
  }

  /** The one decision the shadow ignores: at the bar it is reset on. */
  predicate IgnoredEntry(b: Bars, reset: nat, start: nat, end: nat)
    requires b.Valid() && start < |b.times|
  {
    reset == start && CrossAt(b, start) == Up && Fillable(b, end, start)
  }

  /**
   The shadow at one bar from the shadow at the bar before, once past the reset bar: what a settled crossing makes
   it.
   */
  lemma ShadowStep(b: Bars, reset: nat, end: nat, i: nat)
    requires b.Valid() && reset < i && i + 1 < end <= |b.times|
    ensures Shadow(b, reset, i + 1)
         == if Settles(b, end, i) then CrossAt(b, i) == Up else Shadow(b, reset, i)
  {
  }

  lemma CourseStep(b: Bars, start: nat, end: nat, i: nat)
    requires b.Valid() && start <= i && i + 1 < end <= |b.times|
    ensures Course(b, start, end, i + 1).long
         == if Settles(b, end, i) then CrossAt(b, i) == Up else Course(b, start, end, i).long
  {
  }

  /**
   A shadow reset no later than the cell starts: while the traded direction is long so is the shadow, and the two are
   equal at a bar if and only if the shadow was flat when the cell started or a crossing has settled since.
   */
  lemma {:induction false} ShadowAgainstCourse(b: Bars, reset: nat, start: nat, end: nat, i: nat)
    requires b.Valid() && reset <= start <= i < end <= |b.times| && !IgnoredEntry(b, reset, start, end)
    ensures Course(b, start, end, i).long ==> Shadow(b, reset, i)
    ensures Shadow(b, reset, i) == Course(b, start, end, i).long
       <==> !Shadow(b, reset, start) || SettledBetween(b, end, start, i)
  {
    if i > start {
      ShadowAgainstCourse(b, reset, start, end, i - 1);
      CourseStep(b, start, end, i - 1);
      if reset < i - 1 {
        ShadowStep(b, reset, end, i - 1);
      }
      SettledLater(b, end, start, i - 1);
    }
  }

  lemma SettledLater(b: Bars, end: nat, from: nat, i: nat)
    requires b.Valid() && from <= i < |b.times|
    ensures SettledBetween(b, end, from, i + 1) <==> SettledBetween(b, end, from, i) || Settles(b, end, i)
  {
    if SettledBetween(b, end, from, i) {
      var j :| from <= j < i && Settles(b, end, j);
      assert from <= j < i + 1;
    }
  }

  ghost predicate ShadowTracks(b: Bars, reset: nat, start: nat, end: nat)
    requires b.Valid() && end <= |b.times|
  {
    forall i :: start <= i < end ==> Shadow(b, reset, i) == Course(b, start, end, i).long
  }

  /** The shadow tracks the traded direction throughout if and only if it starts flat and ignores no filled entry. */
  lemma ShadowAgreesExactlyWhen(b: Bars, reset: nat, start: nat, end: nat)
    requires b.Valid() && reset <= start < end <= |b.times|
    ensures ShadowTracks(b, reset, start, end)
       <==> !Shadow(b, reset, start) && !IgnoredEntry(b, reset, start, end)
  {
    if IgnoredEntry(b, reset, start, end) {
      assert Course(b, start, end, start + 1).long && !Shadow(b, reset, start + 1);
    } else if !Shadow(b, reset, start) {
      forall i | start <= i < end ensures Shadow(b, reset, i) == Course(b, start, end, i).long {
        ShadowAgainstCourse(b, reset, start, end, i);
      }
    } else {
      assert Shadow(b, reset, start) != Course(b, start, end, start).long;
    }
  }

  /** Hourly bars whose short average crosses above the long one at bar 1 and stays there. */
  function Rising(n: nat): Bars {
    var ones := seq(n, _ => 1.0);
    Bars(seq(n, i => i * HOUR), ones, ones, seq(n, i => Some(if i == 0 then 1.0 else 3.0)), seq(n, i => Some(2.0)))
  }

  /**
   The two ways to disagree: an entry filled off the reset bar, and a cell that starts after the shadow has entered.
   */
  lemma ShadowCanDisagree()
    ensures Rising(3).Valid() && Rising(3).Priced() && !ShadowTracks(Rising(3), 1, 1, 3)
    ensures Rising(4).Valid() && Rising(4).Priced() && !ShadowTracks(Rising(4), 0, 3, 4)
  {
    var b, c := Rising(3), Rising(4);
    assert CrossAt(b, 1) == Up && Fillable(b, 3, 1);
    ShadowAgreesExactlyWhen(b, 1, 1, 3);
    assert CrossAt(c, 1) == Up && CrossAt(c, 2) == Flat;
    assert Shadow(c, 0, 1) == false && Shadow(c, 0, 2) == true;
    assert Shadow(c, 0, 3);
    ShadowAgreesExactlyWhen(c, 0, 3, 4);
  }
}
