/** The figures of the blind replay: net results, drawdown and quarterly profit, from the eager run's accounts. */
module BlindOosReports {
  import opened Basics
  import opened Crossover
  import opened UnitAccount
  import opened EagerFills
  import opened EquityDrawdown
  import opened BlindOos

  /** The capital, then what the base account of the eager run is worth at each close up to bar i. */
  ghost predicate Sampled(w: Window, i: nat, curve: seq<real>)
    requires w.Valid() && i <= w.cell.end
  {
    var c := w.cell;
    && w.start <= i && |curve| == i - w.start + 1 && curve[0] == c.initial
    && forall k: nat :: w.start <= k < i ==>
      && EagerRun(c, w.start, k).Ok?
      && curve[k - w.start + 1]
        == EagerRun(c, w.start, k).value.legs.base.Equity(c.bars.closes[k], c.costs.quantity, c.costs.base)
  }

  lemma SampledNext(w: Window, i: nat, s: Sim, curve: seq<real>)
    requires w.Valid() && w.start <= i < w.cell.end && Run(w, i) == Ok(s) && Sampled(w, i, curve)
    ensures Sampled(w, i + 1, curve + [MarkedEquity(w, s, i)])
  {
    RunIsEager(w, i);
  }

  // ---------- Drawdown ----------

  lemma StepMarks(w: Window, s: Sim, i: nat, after: Sim)
    requires w.Valid() && i < w.cell.end && Step(w, s, i) == Ok(after)
    ensures var top := Max(s.stats.peak, MarkedEquity(w, s, i));
      && top != 0.0 && after.stats.peak == top
      && after.stats.drawdown == Max(s.stats.drawdown, DrawdownFrom(top, MarkedEquity(w, s, i)))
    ensures after.stats.quarters == s.stats.quarters.Mark(w.quarter(w.cell.bars.times[i]), MarkedEquity(w, s, i))
  {
  }

  // ---------- Quarters ----------

  /** Of the bars before i, those in quarter q are the bars a to b. */
  ghost predicate Spans(w: Window, i: nat, q: nat, a: nat, b: nat)
    requires w.Valid() && i <= w.cell.end
  {
    && w.start <= a <= b < i
    && forall k: nat :: w.start <= k < i ==> (w.quarter(w.cell.bars.times[k]) == q <==> a <= k <= b)
  }

  /** What quarter q earned on the curve: its last sample less the last one before it. */
  ghost predicate Earned(w: Window, i: nat, curve: seq<real>, q: nat, x: real)
    requires w.Valid() && i <= w.cell.end && w.start <= i && |curve| == i - w.start + 1
  {
    exists a: nat, b: nat :: Spans(w, i, q, a, b) && x == curve[b - w.start + 1] - curve[a - w.start]
  }

  /** The entries are those of the quarters the bars before i fall in, each with what it earned. */
  ghost predicate EntriesOf(w: Window, i: nat, curve: seq<real>, pnl: map<nat, real>)
    requires w.Valid() && i <= w.cell.end && w.start <= i && |curve| == i - w.start + 1
  {
    && (forall q: nat :: q in pnl ==> Earned(w, i, curve, q, pnl[q]))
    && forall k: nat :: w.start <= k < i ==> w.quarter(w.cell.bars.times[k]) in pnl
  }

  /** The quarter in progress began at bar a. */
  ghost predicate InProgress(w: Window, i: nat, curve: seq<real>, q: Quarters, a: nat)
    requires w.Valid() && i <= w.cell.end && w.start < i && |curve| == i - w.start + 1
  {
    && q.current == Some(w.quarter(w.cell.bars.times[i - 1])) && q.last == curve[i - w.start]
    && Spans(w, i, w.quarter(w.cell.bars.times[i - 1]), a, i - 1) && q.opening == curve[a - w.start]
  }

  ghost predicate Ordered(w: Window) {
    QuarterClock(w.quarter) && StrictlyIncreasing(w.cell.bars.times)
  }

  /** One bar later the entries of other quarters stand. */
  lemma OthersStand(w: Window, i: nat, curve: seq<real>, x: real, q: nat, pnl: real)
    requires w.Valid() && w.start <= i < w.cell.end && |curve| == i - w.start + 1
    requires Earned(w, i, curve, q, pnl) && w.quarter(w.cell.bars.times[i]) != q
    ensures Earned(w, i + 1, curve + [x], q, pnl)
  {
    var n := i + 1;
    var a: nat, b: nat :| Spans(w, i, q, a, b) && pnl == curve[b - w.start + 1] - curve[a - w.start];
    assert Spans(w, n, q, a, b);
    assert (curve + [x])[b - w.start + 1] == curve[b - w.start + 1] && (curve + [x])[a - w.start] == curve[a - w.start];
  }

  lemma SettleNow(q: Quarters, now: nat, equity: real)
    requires q.current.Some?
    ensures var after := q.Mark(now, equity);
      if now == q.current.value then after.Settle() == q.Settle()[now := equity - q.opening]
      else after.Settle() == q.Settle()[now := equity - q.last]
  {
    assert q.pnl[q.current.value := q.last - q.opening][q.current.value := equity - q.opening]
        == q.pnl[q.current.value := equity - q.opening];
  }

  /** The current quarter goes on through bar i. */
  lemma GoesOn(w: Window, i: nat, curve: seq<real>, q: Quarters, a: nat, x: real)
    requires w.Valid() && w.start < i < w.cell.end && |curve| == i - w.start + 1 && InProgress(w, i, curve, q, a)
    requires q.current == Some(w.quarter(w.cell.bars.times[i]))
    ensures InProgress(w, i + 1, curve + [x], q.Mark(w.quarter(w.cell.bars.times[i]), x), a)
    ensures Earned(w, i + 1, curve + [x], w.quarter(w.cell.bars.times[i]), x - q.opening)
  {
    var n, now := i + 1, w.quarter(w.cell.bars.times[i]);
    assert Spans(w, n, now, a, i);
    assert (curve + [x])[i - w.start + 1] == x && (curve + [x])[a - w.start] == curve[a - w.start];
  }

  /** A new quarter begins at bar i. */
  lemma Begins(w: Window, i: nat, curve: seq<real>, q: Quarters, x: real)
    requires w.Valid() && Ordered(w) && w.start <= i < w.cell.end && |curve| == i - w.start + 1
    requires i > w.start ==>
      q.current.Some? && q.current.value == w.quarter(w.cell.bars.times[i - 1]) != w.quarter(w.cell.bars.times[i])
    requires i == w.start ==> q.current.None? && q.opening == curve[0]
    requires i > w.start ==> q.last == curve[i - w.start]
    ensures InProgress(w, i + 1, curve + [x], q.Mark(w.quarter(w.cell.bars.times[i]), x), i)
    ensures Earned(w, i + 1, curve + [x], w.quarter(w.cell.bars.times[i]), x - curve[i - w.start])
  {
    var n, now := i + 1, w.quarter(w.cell.bars.times[i]);
    forall k: nat | w.start <= k < i ensures w.quarter(w.cell.bars.times[k]) != now {
      var before := w.quarter(w.cell.bars.times[i - 1]);
      assert w.cell.bars.times[i - 1] <= w.cell.bars.times[i];
      assert w.cell.bars.times[k] <= w.cell.bars.times[i - 1];
      assert w.quarter(w.cell.bars.times[k]) <= before < now;
    }
    assert Spans(w, n, now, i, i);
    assert (curve + [x])[i - w.start + 1] == x && (curve + [x])[i - w.start] == curve[i - w.start];
  }

  /** What the replay carries along the curve, from its first bar on. */
  ghost predicate Carries(w: Window, i: nat, curve: seq<real>, s: Stats)
    requires w.Valid() && w.start <= i <= w.cell.end && |curve| == i - w.start + 1
  {
    && Tracks(curve, s.peak, s.drawdown)
    && if i == w.start then s.quarters == Quarters(curve[0], None, curve[0], map[])
       else (exists a: nat :: InProgress(w, i, curve, s.quarters, a)) && EntriesOf(w, i, curve, s.quarters.Settle())
  }

  lemma FirstMark(w: Window, curve: seq<real>, q: Quarters, x: real)
    requires w.Valid() && Ordered(w) && w.start < w.cell.end && |curve| == 1
    requires q == Quarters(curve[0], None, curve[0], map[])
    ensures var now := w.quarter(w.cell.bars.times[w.start]);
      && InProgress(w, w.start + 1, curve + [x], q.Mark(now, x), w.start)
      && EntriesOf(w, w.start + 1, curve + [x], q.Mark(now, x).Settle())
  {
    Begins(w, w.start, curve, q, x);
  }

  lemma EntriesNext(w: Window, i: nat, curve: seq<real>, x: real, pnl: map<nat, real>, y: real)
    requires w.Valid() && w.start <= i < w.cell.end && |curve| == i - w.start + 1 && EntriesOf(w, i, curve, pnl)
    requires Earned(w, i + 1, curve + [x], w.quarter(w.cell.bars.times[i]), y)
    ensures EntriesOf(w, i + 1, curve + [x], pnl[w.quarter(w.cell.bars.times[i]) := y])
  {
    var now := w.quarter(w.cell.bars.times[i]);
    forall q: nat | q in pnl && q != now ensures Earned(w, i + 1, curve + [x], q, pnl[q]) {
      OthersStand(w, i, curve, x, q, pnl[q]);
    }
  }

  lemma LaterMark(w: Window, i: nat, curve: seq<real>, q: Quarters, a: nat, x: real) returns (b: nat)
    requires w.Valid() && Ordered(w) && w.start < i < w.cell.end && |curve| == i - w.start + 1
    requires InProgress(w, i, curve, q, a) && EntriesOf(w, i, curve, q.Settle())
    ensures var now := w.quarter(w.cell.bars.times[i]);
      InProgress(w, i + 1, curve + [x], q.Mark(now, x), b) && EntriesOf(w, i + 1, curve + [x], q.Mark(now, x).Settle())
  {
    var now := w.quarter(w.cell.bars.times[i]);
    SettleNow(q, now, x);
    if q.current == Some(now) {
      GoesOn(w, i, curve, q, a, x);
      EntriesNext(w, i, curve, x, q.Settle(), x - q.opening);
      return a;
    }
    Begins(w, i, curve, q, x);
    EntriesNext(w, i, curve, x, q.Settle(), x - q.last);
    return i;
  }

  lemma CarriesNext(w: Window, i: nat, curve: seq<real>, s: Sim, after: Sim)
    requires w.Valid() && Ordered(w) && w.start <= i < w.cell.end && |curve| == i - w.start + 1
    requires Carries(w, i, curve, s.stats) && Step(w, s, i) == Ok(after)
    ensures Carries(w, i + 1, curve + [MarkedEquity(w, s, i)], after.stats)
  {
    var x := MarkedEquity(w, s, i);
    StepMarks(w, s, i, after);
    TracksNext(curve, s.stats.peak, s.stats.drawdown, x);
    if i == w.start {
      FirstMark(w, curve, s.stats.quarters, x);
    } else {
      var a: nat :| InProgress(w, i, curve, s.stats.quarters, a);
      var b := LaterMark(w, i, curve, s.stats.quarters, a, x);
    }
  }

  lemma {:induction false} ReplayCarries(w: Window, i: nat, s: Sim) returns (curve: seq<real>)
    requires w.Valid() && Ordered(w) && w.start <= i <= w.cell.end && Run(w, i) == Ok(s)
    ensures Sampled(w, i, curve) && Carries(w, i, curve, s.stats)
    decreases i, 1
  {
    if i == w.start {
      StartsTracking(w.cell.initial);
      return [w.cell.initial];
    }
    var before := Earlier(w, i, s);
    curve := CarriedTo(w, i - 1, before, s);
  }

  lemma {:induction false} CarriedTo(w: Window, i: nat, s: Sim, after: Sim) returns (curve: seq<real>)
    requires w.Valid() && Ordered(w) && w.start <= i < w.cell.end && Run(w, i) == Ok(s) && Run(w, i + 1) == Ok(after)
    ensures Sampled(w, i + 1, curve) && Carries(w, i + 1, curve, after.stats)
    decreases i + 1, 0
  {
    var shorter := ReplayCarries(w, i, s);
    OneStep(w, i, s);
    SampledNext(w, i, s, shorter);
    CarriesNext(w, i, shorter, s, after);
    curve := shorter + [MarkedEquity(w, s, i)];
  }

  lemma PeakStaysPositive(w: Window, curve: seq<real>, peak: real, dd: real)
    requires Tracks(curve, peak, dd) && 0.0 < curve[0]
    ensures 0.0 < peak
  {
    PeakIsHighest(curve, |curve| - 1);
  }

  /**
   The replay's figures: net results are what the eager run's accounts are worth at the last close less the capital, the
   drawdown is the worst along the sampled curve, and each quarter's entry is what the curve gained over its bars.
   */
  lemma ReplayExactly(w: Window, r: Report) returns (f: Core, curve: seq<real>)
    requires w.Valid() && Ordered(w) && 0.0 < w.cell.initial && Outcome(w) == Ok(r)
    ensures w.start < w.cell.end && EagerRun(w.cell, w.start, w.cell.end) == Ok(f) && r.core == f
    ensures var c := w.cell;
      var close := c.bars.closes[c.end - 1];
      && r.baseNet == f.legs.base.Equity(close, c.costs.quantity, c.costs.base) - c.initial
      && r.stressNet == f.legs.stress.Equity(close, c.costs.quantity, c.costs.stress) - c.initial
    ensures Sampled(w, w.cell.end, curve)
    ensures WorstAlong(curve + [r.baseNet + w.cell.initial], r.drawdown)
    ensures EntriesOf(w, w.cell.end, curve, r.quarterPnl)
  {
    var s := Run(w, w.cell.end).value;
    RunIsEager(w, w.cell.end);
    f := s.core;
    curve := ReplayCarries(w, w.cell.end, s);
    PeakStaysPositive(w, curve, s.stats.peak, s.stats.drawdown);
    LastSample(curve, s.stats.peak, s.stats.drawdown, r.baseNet + w.cell.initial);
  }

  // ---------- When the replay finishes ----------

  lemma PeakGrows(w: Window, s: Sim, i: nat)
    requires w.Valid() && i < w.cell.end && 0.0 < s.stats.peak
    ensures match Step(w, s, i)
      case Ok(after) => 0.0 < after.stats.peak && EagerTurn(w.cell, s.core, i) == Ok(after.core)
      case Err(e) => EagerTurn(w.cell, s.core, i).Err? && e == Refused(EagerTurn(w.cell, s.core, i).error)
  {
  }

  /** With capital the replay goes on exactly as long as the eager run does. */
  lemma {:induction false} StopsWithEager(w: Window, i: nat)
    requires w.Valid() && 0.0 < w.cell.initial && w.start < w.cell.end && w.start <= i <= w.cell.end
    ensures match Run(w, i)
      case Ok(s) => EagerRun(w.cell, w.start, i) == Ok(s.core) && 0.0 < s.stats.peak
      case Err(e) => EagerRun(w.cell, w.start, i).Err? && e == Refused(EagerRun(w.cell, w.start, i).error)
  {
    if i == w.start {
      return;
    }
    StopsWithEager(w, i - 1);
    if Run(w, i - 1).Err? {
      FailureIsFinal(w, i - 1, i);
      EagerFailureIsFinal(w.cell, w.start, i - 1, i);
      return;
    }
    var s := Run(w, i - 1).value;
    OneStep(w, i - 1, s);
    EagerOneTurn(w.cell, w.start, i - 1, s.core);
    PeakGrows(w, s, i - 1);
  }

  /** A replay is refused only for an empty window or for a fill the eager run could not pay for. */
  lemma FinishesExactlyWhen(w: Window)
    requires w.Valid() && 0.0 < w.cell.initial
    ensures Outcome(w) == Err(EmptyAnalysis) <==> w.cell.end <= w.start
    ensures Outcome(w).Ok? <==> w.start < w.cell.end && EagerRun(w.cell, w.start, w.cell.end).Ok?
  {
    if w.start < w.cell.end {
      StopsWithEager(w, w.cell.end);
    }
  }
}
