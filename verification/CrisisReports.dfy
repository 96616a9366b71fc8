/** The certified figures of a crisis unit, from the accounts of the eager run. */
module CrisisReports {
  import opened Basics
  import opened Crossover
  import opened UnitAccount
  import opened EagerFills
  import opened EquityDrawdown
  import opened CrisisCertification

  // ---------- The certified figures ----------

  /** Before its pending fill the desk at bar i holds what the eager run held one decision earlier. */
  lemma DeskBeforeFill(c: UnitCell, lead: nat, i: nat, d: Desk) returns (b: Core)
    requires c.Valid() && lead < i <= c.end && DeferredRun(c, lead, i) == Ok(d)
    ensures EagerRun(c, lead + 1, i - 1) == Ok(b)
    ensures d.core.legs == b.legs && d.core.long == b.long && d.core.entries == b.entries && d.core.exits == b.exits
  {
    b := EagerBeforeFill(c, lead, i, d);
    if i - 1 > lead {
      DeferredEqualsEager(c, lead, i - 1);
    }
  }

  lemma EagerBeforeFill(c: UnitCell, lead: nat, i: nat, d: Desk) returns (b: Core)
    requires c.Valid() && lead < i <= c.end && DeferredRun(c, lead, i) == Ok(d)
    ensures EagerRun(c, lead + 1, i - 1) == Ok(b)
  {
    if i - 1 > lead {
      DeferredEqualsEager(c, lead, i - 1);
    }
    b := EagerRun(c, lead + 1, i - 1).value;
  }

  /** The baselines are the equities of b at the open of the score bar, and fills are counted from b on. */
  ghost predicate ScoredFrom(u: CrisisUnit, s: Sim, b: Core)
    requires u.Valid() && u.score < u.cell.end
  {
    var c, mark := u.cell, u.cell.bars.opens[u.score];
    && s.score.baseline == Some(b.legs.base.Equity(mark, c.costs.quantity, c.costs.base))
    && s.score.stressBaseline == Some(b.legs.stress.Equity(mark, c.costs.quantity, c.costs.stress))
    && s.score.heldAtStart == b.long
    && s.desk.core.entries == b.entries + s.score.entries && s.desk.core.exits == b.exits + s.score.exits
  }

  lemma StepScores(u: CrisisUnit, s: Sim, i: nat, b: Core, after: Sim)
    requires u.Valid() && u.score <= i < u.cell.end && Step(u, s, i) == Ok(after)
    requires if i > u.score then ScoredFrom(u, s, b)
      else
        && s.desk.core.legs == b.legs && s.desk.core.long == b.long && s.score.entries == 0 && s.score.exits == 0
        && s.desk.core.entries == b.entries && s.desk.core.exits == b.exits
    ensures ScoredFrom(u, after, b)
  {
  }

  lemma {:induction false} RunScores(u: CrisisUnit, i: nat, s: Sim, b: Core)
    requires u.Valid() && u.lead < u.score < i <= u.cell.end && Run(u, i) == Ok(s)
    requires EagerRun(u.cell, u.lead + 1, u.score - 1) == Ok(b)
    ensures ScoredFrom(u, s, b)
  {
    var before := Earlier(u, i, s);
    OneStep(u, i - 1, before);
    if i - 1 > u.score {
      RunScores(u, i - 1, before, b);
    } else {
      RunIsDeferred(u, u.score);
      var same := DeskBeforeFill(u.cell, u.lead, u.score, before.desk);
      ScoredFillsBalance(u, u.score, before);
    }
    StepScores(u, before, i - 1, b, s);
  }

  /** Reaching a bar means that no fill was refused before it. */
  lemma BaselineReached(u: CrisisUnit, s: Sim) returns (b: Core)
    requires u.Valid() && u.lead < u.score < u.cell.end && Run(u, u.cell.end) == Ok(s)
    ensures EagerRun(u.cell, u.lead + 1, u.score - 1) == Ok(b)
  {
    UnitEqualsEager(u, u.cell.end);
    if EagerRun(u.cell, u.lead + 1, u.score - 1).Err? {
      EagerFailureIsFinal(u.cell, u.lead + 1, u.score - 1, u.cell.end);
    }
    b := EagerRun(u.cell, u.lead + 1, u.score - 1).value;
  }

  /**
   The certified figures of the eager run: what it is worth at the last close less what it was worth at the open of the
   score bar, before the fill due there; and the fills it made from there on.
   */
  lemma CertifiedIsEager(u: CrisisUnit, r: Report) returns (b: Core, f: Core)
    requires u.Valid() && Outcome(u) == Ok(r)
    ensures u.lead < u.score < u.cell.end
    ensures EagerRun(u.cell, u.lead + 1, u.score - 1) == Ok(b) && EagerRun(u.cell, u.lead + 1, u.cell.end) == Ok(f)
    ensures var open, close := u.cell.bars.opens[u.score], u.cell.bars.closes[u.cell.end - 1];
      var quantity, base, stress := u.cell.costs.quantity, u.cell.costs.base, u.cell.costs.stress;
      && r.baseNet == f.legs.base.Equity(close, quantity, base) - b.legs.base.Equity(open, quantity, base)
      && r.stressNet == f.legs.stress.Equity(close, quantity, stress) - b.legs.stress.Equity(open, quantity, stress)
    ensures r.score.entries == f.entries - b.entries && r.score.exits == f.exits - b.exits
    ensures r.core == f && r.score.heldAtStart == b.long
  {
    var s := Run(u, u.cell.end).value;
    b := BaselineReached(u, s);
    RunScores(u, u.cell.end, s, b);
    UnitEqualsEager(u, u.cell.end);
    f := s.desk.core;
  }

  /** A unit is rejected for its range exactly when it has no lead-in or nothing to score. */
  lemma RejectedExactlyWhen(u: CrisisUnit)
    requires u.Valid()
    ensures Outcome(u) == Err(InvalidRange) <==> !(u.lead < u.score < u.cell.end)
  {
    if u.lead < u.score < u.cell.end {
      RunIsDeferred(u, u.cell.end);
      var r := Run(u, u.cell.end);
      if r.Err? && r.error != DivisionByZero {
        var j :| 0 <= j <= u.cell.end && DeferredRun(u.cell, u.lead, j) == Err(r.error);
        DeskFailsOnlyForCash(u.cell, u.lead, j);
      }
    }
  }

  // ---------- The certified drawdown ----------

  /** What the eager run's base account is worth at the close of bar k. */
  ghost predicate WorthAt(u: CrisisUnit, k: nat, x: real)
    requires u.Valid() && k < u.cell.end
  {
    var c := u.cell;
    && EagerRun(c, u.lead + 1, k).Ok?
    && x == EagerRun(c, u.lead + 1, k).value.legs.base.Equity(c.bars.closes[k], c.costs.quantity, c.costs.base)
  }

  ghost predicate SampleAt(u: CrisisUnit, curve: seq<real>, k: nat)
    requires u.Valid() && u.score <= k < u.cell.end && k - u.score + 1 < |curve|
  {
    WorthAt(u, k, curve[k - u.score + 1])
  }

  /** The baseline, then what the base account is worth at each close from the score bar up to bar i. */
  ghost predicate Sampled(u: CrisisUnit, i: nat, curve: seq<real>, baseline: real)
    requires u.Valid() && i <= u.cell.end
  {
    && u.score <= i && |curve| == i - u.score + 1 && curve[0] == baseline
    && forall k: nat :: u.score <= k < i ==> SampleAt(u, curve, k)
  }

  /** Peak and drawdown of the score, once struck, follow the curve from its baseline. */
  ghost predicate Scores(u: CrisisUnit, s: Score, i: nat, curve: seq<real>)
    requires u.Valid() && u.score < i <= u.cell.end
  {
    && s.baseline.Some? && s.peak.Some?
    && Sampled(u, i, curve, s.baseline.value) && Tracks(curve, s.peak.value, s.drawdown)
  }

  lemma StepMarks(u: CrisisUnit, s: Sim, i: nat, after: Sim, x: real)
    requires u.Valid() && u.score <= i < u.cell.end && Step(u, s, i) == Ok(after)
    requires Settled(u.cell, s.desk, i).Ok?
    requires var c := u.cell;
      x == Settled(c, s.desk, i).value.core.legs.base.Equity(c.bars.closes[i], c.costs.quantity, c.costs.base)
    ensures var struck := Struck(u, s, i);
      && struck.peak.Some? && after.score.baseline == struck.baseline
      && Max(struck.peak.value, x) != 0.0 && after.score.peak == Some(Max(struck.peak.value, x))
      && after.score.drawdown == Max(struck.drawdown, DrawdownFrom(Max(struck.peak.value, x), x))
  {
  }

  lemma StrikeBegins(u: CrisisUnit, s: Sim)
    requires u.Valid() && u.score < u.cell.end
    ensures var struck := Struck(u, s, u.score);
      struck.baseline.Some? && struck.peak == struck.baseline && struck.drawdown == s.score.drawdown
  {
  }

  lemma ClosesAt(u: CrisisUnit, s: Sim, i: nat) returns (x: real)
    requires u.Valid() && u.lead < u.score && u.lead < i < u.cell.end && Run(u, i) == Ok(s) && Run(u, i + 1).Ok?
    ensures Settled(u.cell, s.desk, i).Ok? && WorthAt(u, i, x)
    ensures var c := u.cell;
      x == Settled(c, s.desk, i).value.core.legs.base.Equity(c.bars.closes[i], c.costs.quantity, c.costs.base)
  {
    OneStep(u, i, s);
    UnitEqualsEager(u, i);
    var c := u.cell;
    x := Settled(c, s.desk, i).value.core.legs.base.Equity(c.bars.closes[i], c.costs.quantity, c.costs.base);
  }

  lemma StepKeepsDrawdown(u: CrisisUnit, s: Sim, i: nat, after: Sim)
    requires u.Valid() && i < u.score && i < u.cell.end && Step(u, s, i) == Ok(after)
    ensures after.score.drawdown == s.score.drawdown
  {
  }

  lemma {:induction false} NoneBeforeScore(u: CrisisUnit, i: nat, s: Sim)
    requires u.Valid() && u.lead <= i <= u.score && i <= u.cell.end && Run(u, i) == Ok(s)
    ensures s.score.drawdown == 0.0
  {
    if i == u.lead {
      return;
    }
    var before := Earlier(u, i, s);
    NoneBeforeScore(u, i - 1, before);
    OneStep(u, i - 1, before);
    StepKeepsDrawdown(u, before, i - 1, s);
  }

  lemma FirstSample(u: CrisisUnit, s: Sim, after: Sim) returns (curve: seq<real>)
    requires u.Valid() && u.lead < u.score < u.cell.end
    requires Run(u, u.score) == Ok(s) && Run(u, u.score + 1) == Ok(after)
    ensures Scores(u, after.score, u.score + 1, curve)
  {
    var x := ClosesAt(u, s, u.score);
    OneStep(u, u.score, s);
    NoneBeforeScore(u, u.score, s);
    StrikeBegins(u, s);
    StepMarks(u, s, u.score, after, x);
    var baseline := Struck(u, s, u.score).baseline.value;
    StartsTracking(baseline);
    TracksNext([baseline], baseline, 0.0, x);
    SampledNext(u, u.score, [baseline], baseline, x);
    curve := [baseline] + [x];
  }

  lemma SampledNext(u: CrisisUnit, i: nat, curve: seq<real>, baseline: real, x: real)
    requires u.Valid() && u.score <= i < u.cell.end && Sampled(u, i, curve, baseline) && WorthAt(u, i, x)
    ensures Sampled(u, i + 1, curve + [x], baseline)
  {
    forall k: nat | u.score <= k < i + 1 ensures SampleAt(u, curve + [x], k) {
      assert k < i ==> SampleAt(u, curve, k);
    }
  }

  lemma NextSample(u: CrisisUnit, i: nat, s: Sim, after: Sim, shorter: seq<real>) returns (curve: seq<real>)
    requires u.Valid() && u.lead < u.score < i < u.cell.end
    requires Run(u, i) == Ok(s) && Run(u, i + 1) == Ok(after) && Scores(u, s.score, i, shorter)
    ensures Scores(u, after.score, i + 1, curve)
  {
    var x := ClosesAt(u, s, i);
    OneStep(u, i, s);
    StepMarks(u, s, i, after, x);
    TracksNext(shorter, s.score.peak.value, s.score.drawdown, x);
    SampledNext(u, i, shorter, s.score.baseline.value, x);
    curve := shorter + [x];
  }

  lemma {:induction false} ScoredCurve(u: CrisisUnit, i: nat, s: Sim) returns (curve: seq<real>)
    requires u.Valid() && u.lead < u.score < i <= u.cell.end && Run(u, i) == Ok(s)
    ensures Scores(u, s.score, i, curve)
  {
    var before := Earlier(u, i, s);
    if i - 1 == u.score {
      curve := FirstSample(u, before, s);
    } else {
      var shorter := ScoredCurve(u, i - 1, before);
      curve := NextSample(u, i - 1, before, s, shorter);
    }
  }

  /** The certified drawdown is the worst along the eager run's closes from the score bar on, from the baseline. */
  lemma CertifiedDrawdown(u: CrisisUnit, r: Report) returns (curve: seq<real>)
    requires u.Valid() && Outcome(u) == Ok(r)
    ensures r.score.baseline.Some? && Sampled(u, u.cell.end, curve, r.score.baseline.value)
    ensures WorstAlong(curve, r.score.drawdown)
  {
    curve := ScoredCurve(u, u.cell.end, Run(u, u.cell.end).value);
  }
}
