/**
 Monthly risk estimators and the expanding, lagged scale schedule built from
 them. A square root is known only to be nonnegative, and positive on positives.
 */
module ScaleSchedule {
  import opened Basics
  import opened Calendars
  import DownsideVolScaling

  type Decision = DownsideVolScaling.Decision

  /** A complete month: its compounded control return and its daily returns. */
  datatype Month = Month(total: real, daily: seq<real>)

  type Months = map<nat, Option<Month>>
  type Sigmas = map<nat, Option<real>>

  ghost predicate RootLike(root: real -> real) {
    forall x {:trigger root(x)} :: (0.0 <= x ==> 0.0 <= root(x)) && (0.0 < x ==> 0.0 < root(x))
  }

  /** A missing key and a stored absence read the same. */
  function Get<V>(m: map<nat, Option<V>>, k: int): Option<V> {
    if 0 <= k && k in m then m[k] else None
  }

  // ---------- Estimators ----------

  function SumOfSquares(xs: seq<real>): real {
    if xs == [] then 0.0 else SumOfSquares(xs[..|xs| - 1]) + xs[|xs| - 1] * xs[|xs| - 1]
  }

  function Negatives(xs: seq<real>): seq<real> {
    if xs == [] then []
    else
      var rest := Negatives(xs[..|xs| - 1]);
      if xs[|xs| - 1] < 0.0 then rest + [xs[|xs| - 1]] else rest
  }

  /** Root of a sum of squares, undefined when nothing varied. */
  function Spread(root: real -> real, xs: seq<real>): Option<real> {
    if SumOfSquares(xs) > 0.0 then Some(root(SumOfSquares(xs))) else None
  }

  function TotalSigma(root: real -> real, months: Months, k: nat): Option<real> {
    match Get(months, k)
    case None => None
    case Some(month) => Spread(root, month.daily)
  }

  /** The greatest registered month before k. */
  function Before(keys: set<nat>, k: nat): Option<nat> {
    if k == 0 then None else if k - 1 in keys then Some(k - 1) else Before(keys, k - 1)
  }

  /** Downside spread; with fewer than three falls it borrows the falls of the preceding month, if there is one. */
  function DownsideSigma(root: real -> real, months: Months, prior: Option<nat>, k: nat): Option<real> {
    match Get(months, k)
    case None => None
    case Some(month) =>
      var falls := Negatives(month.daily);
      if |falls| >= 3 then Spread(root, falls)
      else if prior.None? then None
      else match Get(months, prior.value)
        case None => None
        case Some(earlier) => Spread(root, falls + Negatives(earlier.daily))
  }

  function TotalSigmas(root: real -> real, months: Months): Sigmas {
    map k | k in months :: TotalSigma(root, months, k)
  }

  function DownsideSigmas(root: real -> real, months: Months): Sigmas {
    map k | k in months :: DownsideSigma(root, months, Before(months.Keys, k), k)
  }

  /** In the sorted keys the predecessor of an entry is the greatest key before it. */
  lemma {:induction false} PredecessorIsBefore(keys: set<nat>, ks: seq<nat>, n: nat, k: nat)
    requires Enumerates(ks, keys) && n <= |ks|
    requires forall j :: 0 <= j < n ==> ks[j] < k
    requires forall j :: n <= j < |ks| ==> k <= ks[j]
    ensures Before(keys, k) == if n == 0 then None else Some(ks[n - 1])
    decreases k
  {
    if k > 0 {
      if k - 1 in keys {
        assert k - 1 in ks;
        var j :| 0 <= j < |ks| && ks[j] == k - 1;
        assert j < n;
        assert ks[j] <= ks[n - 1];
      } else {
        forall j | 0 <= j < n ensures ks[j] < k - 1 {
          assert ks[j] in ks;
        }
        PredecessorIsBefore(keys, ks, n, k - 1);
      }
    }
  }

  /** The downside estimate of the month at one position of the sorted keys. */
  method DownsideEstimate(root: real -> real, months: Months, keys: seq<nat>, index: nat) returns (down: Option<real>)
    requires index < |keys| && forall j :: 0 <= j < |keys| ==> keys[j] in months
    ensures down == DownsideSigma(root, months, if index == 0 then None else Some(keys[index - 1]), keys[index])
  {
    var item := months[keys[index]];
    if item.None? {
      return None;
    }
    var falls := Negatives(item.value.daily);
    if |falls| < 3 && index > 0 {
      var prior := months[keys[index - 1]];
      if prior.None? {
        return None;
      }
      falls := falls + Negatives(prior.value.daily);
    } else if |falls| < 3 {
      return None;
    }
    return Spread(root, falls);
  }

  ghost function FirstKeys(keys: seq<nat>, n: nat): set<nat>
    requires n <= |keys|
  {
    set j | 0 <= j < n :: keys[j]
  }

  ghost predicate EstimatedFor(root: real -> real, months: Months, keys: set<nat>, total: Sigmas, down: Sigmas) {
    && total.Keys == keys && down.Keys == keys
    && (forall k :: k in total ==> total[k] == TotalSigma(root, months, k))
    && forall k :: k in down ==> down[k] == DownsideSigma(root, months, Before(months.Keys, k), k)
  }

  lemma EstimatedForOneMore(root: real -> real, months: Months, keys: set<nat>, total: Sigmas, down: Sigmas, k: nat)
    requires EstimatedFor(root, months, keys, total, down)
    ensures EstimatedFor(root, months, keys + {k}, total[k := TotalSigma(root, months, k)],
                         down[k := DownsideSigma(root, months, Before(months.Keys, k), k)])
  {
  }

  lemma OneMoreKey(keys: seq<nat>, n: nat)
    requires n < |keys|
    ensures FirstKeys(keys, n + 1) == FirstKeys(keys, n) + {keys[n]}
  {
  }

  method Estimators(root: real -> real, months: Months) returns (total: Sigmas, down: Sigmas)
    ensures total == TotalSigmas(root, months) && down == DownsideSigmas(root, months)
  {
    var keys := Sorted(months.Keys);
    assert forall j :: 0 <= j < |keys| ==> keys[j] in keys && keys[j] in months;
    total, down := map[], map[];
    for index := 0 to |keys|
      invariant EstimatedFor(root, months, FirstKeys(keys, index), total, down)
    {
      var k := keys[index];
      PredecessorIsBefore(months.Keys, keys, index, k);
      var estimate := DownsideEstimate(root, months, keys, index);
      EstimatedForOneMore(root, months, FirstKeys(keys, index), total, down, k);
      OneMoreKey(keys, index);
      total := total[k := TotalSigma(root, months, k)];
      down := down[k := estimate];
    }
    assert FirstKeys(keys, |keys|) == months.Keys;
    EstimatedIsDefined(root, months, total, down);
  }

  /** What the loop builds is each table as defined. */
  lemma EstimatedIsDefined(root: real -> real, months: Months, total: Sigmas, down: Sigmas)
    requires EstimatedFor(root, months, months.Keys, total, down)
    ensures total == TotalSigmas(root, months) && down == DownsideSigmas(root, months)
  {
  }

  ghost predicate PositiveSigmas(sigma: Sigmas) {
    forall k :: k in sigma && sigma[k].Some? ==> 0.0 < sigma[k].value
  }

  /** Every estimate that exists is positive. */
  lemma EstimatesPositive(root: real -> real, months: Months)
    requires RootLike(root)
    ensures PositiveSigmas(TotalSigmas(root, months)) && PositiveSigmas(DownsideSigmas(root, months))
  {
    forall k | k in months
      ensures TotalSigma(root, months, k).Some? ==> 0.0 < TotalSigma(root, months, k).value
      ensures var d := DownsideSigma(root, months, Before(months.Keys, k), k); d.Some? ==> 0.0 < d.value
    {
      assert forall xs :: Spread(root, xs).Some? ==> 0.0 < Spread(root, xs).value;
    }
  }

  // ---------- Schedule ----------

  datatype Pair = Pair(f: real, z: real)

  datatype Counts = Counts(renewed: nat, carried: nat, noEstimate: nat, noConstant: nat)

  datatype Ledger = Ledger(pairs: seq<Pair>, scale: real, decisions: map<int, Decision>, counts: Counts)

  datatype ScheduleError = DivisionByZero | InvalidScale

  datatype Setup = Setup(cal: Calendar, root: real -> real, firstManaged: int, scoredStart: int, minimumPairs: nat)
  {
    function MonthBefore(t: int): int {
      cal.PeriodStart(t - 1)
    }
  }

  function Mean(xs: seq<real>): real
    requires xs != []
  {
    Sum(xs) / |xs| as real
  }

  function SquaredDistance(xs: seq<real>, mean: real): real {
    if xs == [] then 0.0
    else SquaredDistance(xs[..|xs| - 1], mean) + (xs[|xs| - 1] - mean) * (xs[|xs| - 1] - mean)
  }

  function PopulationStdev(root: real -> real, xs: seq<real>): real
    requires xs != []
  {
    root(SquaredDistance(xs, Mean(xs)) / |xs| as real)
  }

  function Fs(pairs: seq<Pair>): seq<real> {
    seq(|pairs|, i requires 0 <= i < |pairs| => pairs[i].f)
  }

  function Zs(pairs: seq<Pair>): seq<real> {
    seq(|pairs|, i requires 0 <= i < |pairs| => pairs[i].z)
  }

  /** The month that closed at t enters training, paired with the estimate made before it opened. */
  function Trained(e: Setup, months: Months, sigma: Sigmas, pairs: seq<Pair>, t: int)
    : Result<seq<Pair>, ScheduleError>
  {
    var prior := e.MonthBefore(t);
    var earlier := Get(sigma, e.MonthBefore(prior));
    if prior >= e.firstManaged && Get(months, prior).Some? && earlier.Some? then
      if earlier.value == 0.0 then Err(DivisionByZero)
      else
        var f := Get(months, prior).value.total;
        Ok(pairs + [Pair(f, f / earlier.value)])
    else Ok(pairs)
  }

  function TrainingConstant(e: Setup, pairs: seq<Pair>): Option<real>
    requires 0 < e.minimumPairs
  {
    if |pairs| < e.minimumPairs then None
    else
      var spread := PopulationStdev(e.root, Zs(pairs));
      if spread > 0.0 then Some(PopulationStdev(e.root, Fs(pairs)) / spread) else None
  }

  function Decide(s: Ledger, t: int, estimate: Option<real>, constant: Option<real>): Result<Ledger, ScheduleError> {
    var renewed := estimate.Some? && constant.Some?;
    if renewed && estimate.value == 0.0 then Err(DivisionByZero)
    else
      var scale := if renewed then Min(1.0, constant.value / estimate.value) else s.scale;
      var counts := Counts(s.counts.renewed + Count(renewed), s.counts.carried + Count(!renewed),
                           s.counts.noEstimate + Count(estimate.None?), s.counts.noConstant + Count(constant.None?));
      if scale < 0.0 || scale > 1.0 then Err(InvalidScale)
      else Ok(Ledger(s.pairs, scale, s.decisions[t := DownsideVolScaling.Decision(scale, renewed)], counts))
  }

  /** One boundary: training first, then, once scoring has begun, a decision. */
  function Boundary(e: Setup, months: Months, sigma: Sigmas, s: Ledger, t: int): Result<Ledger, ScheduleError>
    requires 0 < e.minimumPairs
  {
    match Trained(e, months, sigma, s.pairs, t)
    case Err(x) => Err(x)
    case Ok(pairs) =>
      if t < e.scoredStart then Ok(s.(pairs := pairs))
      else Decide(s.(pairs := pairs), t, Get(sigma, e.MonthBefore(t)), TrainingConstant(e, pairs))
  }

  const EMPTY_LEDGER := Ledger([], 1.0, map[], Counts(0, 0, 0, 0))

  /** The ledger after the boundaries in order, or the first raise. */
  function RunSchedule(e: Setup, months: Months, sigma: Sigmas, bs: seq<int>): Result<Ledger, ScheduleError>
    requires 0 < e.minimumPairs
    decreases |bs|, 0
  {
    if bs == [] then Ok(EMPTY_LEDGER) else RunPast(e, months, sigma, bs[..|bs| - 1], bs[|bs| - 1])
  }

  /** The ledger after some boundaries and one more. */
  function RunPast(e: Setup, months: Months, sigma: Sigmas, bs: seq<int>, t: int): Result<Ledger, ScheduleError>
    requires 0 < e.minimumPairs
    decreases |bs|, 1
  {
    match RunSchedule(e, months, sigma, bs)
    case Err(x) => Err(x)
    case Ok(s) => Boundary(e, months, sigma, s, t)
  }

  lemma LastBoundary(e: Setup, months: Months, sigma: Sigmas, bs: seq<int>, s: Ledger)
    requires 0 < e.minimumPairs && bs != [] && RunSchedule(e, months, sigma, bs[..|bs| - 1]) == Ok(s)
    ensures RunSchedule(e, months, sigma, bs) == Boundary(e, months, sigma, s, bs[|bs| - 1])
  {
    assert RunSchedule(e, months, sigma, bs) == RunPast(e, months, sigma, bs[..|bs| - 1], bs[|bs| - 1]);
  }

  /** A raise at the boundaries before is the raise of the whole run, which therefore succeeds only if they do. */
  lemma EarlierFailure(e: Setup, months: Months, sigma: Sigmas, bs: seq<int>)
    requires 0 < e.minimumPairs && bs != []
    ensures var before := RunSchedule(e, months, sigma, bs[..|bs| - 1]);
      before.Err? ==> RunSchedule(e, months, sigma, bs) == before
  {
    assert RunSchedule(e, months, sigma, bs) == RunPast(e, months, sigma, bs[..|bs| - 1], bs[|bs| - 1]);
  }

  lemma {:induction false} ScheduleFailureIsFinal(e: Setup, months: Months, sigma: Sigmas, bs: seq<int>, k: nat)
    requires 0 < e.minimumPairs && k <= |bs| && RunSchedule(e, months, sigma, bs[..k]).Err?
    ensures RunSchedule(e, months, sigma, bs) == RunSchedule(e, months, sigma, bs[..k])
    decreases |bs|
  {
    if k < |bs| {
      assert bs[..|bs| - 1][..k] == bs[..k];
      ScheduleFailureIsFinal(e, months, sigma, bs[..|bs| - 1], k);
      EarlierFailure(e, months, sigma, bs);
    } else {
      assert bs[..k] == bs;
    }
  }

  method Train(e: Setup, months: Months, sigma: Sigmas, pairs: seq<Pair>, t: int)
    returns (r: Result<seq<Pair>, ScheduleError>)
    ensures r == Trained(e, months, sigma, pairs, t)
  {
    var prior := e.MonthBefore(t);
    var month := Get(months, prior);
    if prior >= e.firstManaged && month.Some? {
      var earlier := Get(sigma, e.MonthBefore(prior));
      if earlier.Some? {
        if earlier.value == 0.0 {
          return Err(DivisionByZero);
        }
        return Ok(pairs + [Pair(month.value.total, month.value.total / earlier.value)]);
      }
    }
    return Ok(pairs);
  }

  /** The schedule loop of one variant, over the month boundaries of the managed range. */
  method BuildSchedule(e: Setup, months: Months, sigma: Sigmas, endMs: int)
    returns (r: Result<Ledger, ScheduleError>, bs: seq<int>)
    requires e.cal.Valid() && 0 < e.minimumPairs
    ensures BoundariesOf(e.cal, e.firstManaged, endMs, FirstFrom(e.cal, e.firstManaged), bs)
    ensures r == RunSchedule(e, months, sigma, bs)
  {
    bs := MonthBoundaries(e.cal, e.firstManaged, endMs);
    r := ScheduleOver(e, months, sigma, bs);
  }

  /** One boundary: train, then decide unless the boundary precedes the scored range. */
  method PassBoundary(e: Setup, months: Months, sigma: Sigmas, s: Ledger, t: int)
    returns (r: Result<Ledger, ScheduleError>)
    requires 0 < e.minimumPairs
    ensures r == Boundary(e, months, sigma, s, t)
  {
    var trained := Train(e, months, sigma, s.pairs, t);
    if trained.Err? {
      return Err(trained.error);
    }
    var after := s.(pairs := trained.value);
    if t < e.scoredStart {
      return Ok(after);
    }
    return Decide(after, t, Get(sigma, e.MonthBefore(t)), TrainingConstant(e, after.pairs));
  }

  method ScheduleOver(e: Setup, months: Months, sigma: Sigmas, bs: seq<int>) returns (r: Result<Ledger, ScheduleError>)
    requires 0 < e.minimumPairs
    ensures r == RunSchedule(e, months, sigma, bs)
  {
    var s := EMPTY_LEDGER;
    for k := 0 to |bs|
      invariant RunSchedule(e, months, sigma, bs[..k]) == Ok(s)
    {
      assert bs[..k + 1][..k] == bs[..k];
      LastBoundary(e, months, sigma, bs[..k + 1], s);
      var next := PassBoundary(e, months, sigma, s, bs[k]);
      if next.Err? {
        ScheduleFailureIsFinal(e, months, sigma, bs, k + 1);
        return next;
      }
      s := next.value;
    }
    assert bs[..|bs|] == bs;
    return Ok(s);
  }

  // ---------- Scales stay within one and failures cannot happen ----------

  lemma {:induction false} SquaredDistanceNonnegative(xs: seq<real>, mean: real)
    ensures 0.0 <= SquaredDistance(xs, mean)
  {
    if xs != [] {
      SquaredDistanceNonnegative(xs[..|xs| - 1], mean);
      var d := xs[|xs| - 1] - mean;
      assert 0.0 <= d * d;
    }
  }

  lemma StdevNonnegative(root: real -> real, xs: seq<real>)
    requires RootLike(root) && xs != []
    ensures 0.0 <= PopulationStdev(root, xs)
  {
    SquaredDistanceNonnegative(xs, Mean(xs));
    QuotientNonnegative(SquaredDistance(xs, Mean(xs)), |xs| as real);
  }

  lemma QuotientNonnegative(x: real, y: real)
    requires 0.0 <= x && 0.0 < y
    ensures 0.0 <= x / y
  {
  }

  lemma ConstantNonnegative(e: Setup, pairs: seq<Pair>)
    requires RootLike(e.root) && 0 < e.minimumPairs
    ensures TrainingConstant(e, pairs).Some? ==> 0.0 <= TrainingConstant(e, pairs).value
  {
    if |pairs| >= e.minimumPairs {
      var f, z := PopulationStdev(e.root, Fs(pairs)), PopulationStdev(e.root, Zs(pairs));
      StdevNonnegative(e.root, Fs(pairs));
      if z > 0.0 {
        QuotientNonnegative(f, z);
      }
    }
  }

  ghost predicate WithinOne(s: Ledger) {
    0.0 <= s.scale <= 1.0 && forall t :: t in s.decisions ==> 0.0 <= s.decisions[t].scale <= 1.0
  }

  lemma DecideSucceeds(s: Ledger, t: int, estimate: Option<real>, constant: Option<real>)
    requires WithinOne(s)
    requires estimate.Some? ==> 0.0 < estimate.value
    requires constant.Some? ==> 0.0 <= constant.value
    ensures Decide(s, t, estimate, constant).Ok? && WithinOne(Decide(s, t, estimate, constant).value)
  {
    if estimate.Some? && constant.Some? {
      QuotientNonnegative(constant.value, estimate.value);
    }
  }

  lemma BoundarySucceeds(e: Setup, months: Months, sigma: Sigmas, s: Ledger, t: int)
    requires RootLike(e.root) && 0 < e.minimumPairs && PositiveSigmas(sigma) && WithinOne(s)
    ensures Boundary(e, months, sigma, s, t).Ok? && WithinOne(Boundary(e, months, sigma, s, t).value)
  {
    var pairs := Trained(e, months, sigma, s.pairs, t).value;
    ConstantNonnegative(e, pairs);
    if t >= e.scoredStart {
      DecideSucceeds(s.(pairs := pairs), t, Get(sigma, e.MonthBefore(t)), TrainingConstant(e, pairs));
    }
  }

  /** Built on positive estimates the schedule never raises and every scale lies between nought and one. */
  lemma {:induction false} ScalesWithinOne(e: Setup, months: Months, sigma: Sigmas, bs: seq<int>)
    requires RootLike(e.root) && 0 < e.minimumPairs && PositiveSigmas(sigma)
    ensures RunSchedule(e, months, sigma, bs).Ok? && WithinOne(RunSchedule(e, months, sigma, bs).value)
  {
    if bs == [] {
      return;
    }
    ScalesWithinOne(e, months, sigma, bs[..|bs| - 1]);
    var s := RunSchedule(e, months, sigma, bs[..|bs| - 1]).value;
    BoundarySucceeds(e, months, sigma, s, bs[|bs| - 1]);
    LastBoundary(e, months, sigma, bs, s);
  }

  // ---------- Every scored boundary decides once ----------

  function Scored(e: Setup, bs: seq<int>): nat {
    if bs == [] then 0 else Scored(e, bs[..|bs| - 1]) + Count(bs[|bs| - 1] >= e.scoredStart)
  }

  predicate Accounted(c: Counts, scored: nat) {
    && c.renewed + c.carried == scored && c.carried <= c.noEstimate + c.noConstant
    && c.noEstimate <= c.carried && c.noConstant <= c.carried
  }

  lemma BoundaryAccounted(e: Setup, months: Months, sigma: Sigmas, s: Ledger, t: int, scored: nat)
    requires 0 < e.minimumPairs && Accounted(s.counts, scored) && Boundary(e, months, sigma, s, t).Ok?
    ensures Accounted(Boundary(e, months, sigma, s, t).value.counts, scored + Count(t >= e.scoredStart))
  {
  }

  function DecidedAt(s: Ledger, t: int): Option<Decision> {
    if t in s.decisions then Some(s.decisions[t]) else None
  }

  /** A scored boundary is decided when it is passed. */
  lemma ScoredBoundaryDecides(e: Setup, months: Months, sigma: Sigmas, bs: seq<int>)
    requires 0 < e.minimumPairs && bs != [] && e.scoredStart <= bs[|bs| - 1] && RunSchedule(e, months, sigma, bs).Ok?
    ensures DecidedAt(RunSchedule(e, months, sigma, bs).value, bs[|bs| - 1]).Some?
  {
    EarlierFailure(e, months, sigma, bs);
    LastBoundary(e, months, sigma, bs, RunSchedule(e, months, sigma, bs[..|bs| - 1]).value);
  }

  lemma DecisionsAreKept(e: Setup, months: Months, sigma: Sigmas, s: Ledger, u: int, t: int)
    requires 0 < e.minimumPairs && Boundary(e, months, sigma, s, u).Ok? && DecidedAt(s, t).Some?
    ensures DecidedAt(Boundary(e, months, sigma, s, u).value, t).Some?
  {
  }

  /** Every scored boundary has a decision in the finished table. */
  lemma {:induction false} EveryScoredBoundaryDecides(e: Setup, months: Months, sigma: Sigmas, bs: seq<int>, k: nat)
    requires 0 < e.minimumPairs && k < |bs| && e.scoredStart <= bs[k] && RunSchedule(e, months, sigma, bs).Ok?
    ensures DecidedAt(RunSchedule(e, months, sigma, bs).value, bs[k]).Some?
    decreases |bs|
  {
    if k == |bs| - 1 {
      ScoredBoundaryDecides(e, months, sigma, bs);
      return;
    }
    var shorter, last := bs[..|bs| - 1], bs[|bs| - 1];
    EarlierFailure(e, months, sigma, bs);
    var s := RunSchedule(e, months, sigma, shorter).value;
    EveryScoredBoundaryDecides(e, months, sigma, shorter, k);
    LastBoundary(e, months, sigma, bs, s);
    DecisionsAreKept(e, months, sigma, s, last, bs[k]);
  }

  lemma {:induction false} CountsAccounted(e: Setup, months: Months, sigma: Sigmas, bs: seq<int>)
    requires 0 < e.minimumPairs && RunSchedule(e, months, sigma, bs).Ok?
    ensures Accounted(RunSchedule(e, months, sigma, bs).value.counts, Scored(e, bs))
  {
    if bs == [] {
      return;
    }
    EarlierFailure(e, months, sigma, bs);
    var s := RunSchedule(e, months, sigma, bs[..|bs| - 1]).value;
    CountsAccounted(e, months, sigma, bs[..|bs| - 1]);
    LastBoundary(e, months, sigma, bs, s);
    BoundaryAccounted(e, months, sigma, s, bs[|bs| - 1], Scored(e, bs[..|bs| - 1]));
  }

  /**
   New and carried decisions together number the scored boundaries, a carried one lacked an estimate or a constant,
   and every scored boundary has its decision.
   */
  lemma DecisionsAccountedFor(e: Setup, months: Months, sigma: Sigmas, bs: seq<int>)
    requires 0 < e.minimumPairs && RunSchedule(e, months, sigma, bs).Ok?
    ensures Accounted(RunSchedule(e, months, sigma, bs).value.counts, Scored(e, bs))
    ensures forall k :: 0 <= k < |bs| && bs[k] >= e.scoredStart ==>
      DecidedAt(RunSchedule(e, months, sigma, bs).value, bs[k]).Some?
  {
    CountsAccounted(e, months, sigma, bs);
    forall k | 0 <= k < |bs| && bs[k] >= e.scoredStart
      ensures DecidedAt(RunSchedule(e, months, sigma, bs).value, bs[k]).Some?
    {
      EveryScoredBoundaryDecides(e, months, sigma, bs, k);
    }
  }

  // ---------- No look-ahead ----------

  /** Two month tables that differ at most from t on. */
  ghost predicate AgreeBefore<V>(m: map<nat, Option<V>>, n: map<nat, Option<V>>, t: int) {
    forall k: nat :: k < t ==> (k in m <==> k in n) && (k in m ==> m[k] == n[k])
  }

  lemma {:induction false} BeforeAgrees(m: Months, n: Months, t: int, k: nat)
    requires AgreeBefore(m, n, t) && k <= t
    ensures Before(m.Keys, k) == Before(n.Keys, k)
    ensures Before(m.Keys, k).Some? ==> Before(m.Keys, k).value < k
  {
    if k > 0 {
      BeforeAgrees(m, n, t, k - 1);
    }
  }

  lemma GetAgrees<V>(m: map<nat, Option<V>>, n: map<nat, Option<V>>, t: int, k: int)
    requires AgreeBefore(m, n, t) && k < t
    ensures Get(m, k) == Get(n, k)
  {
  }

  lemma TotalSigmaAgrees(root: real -> real, m: Months, n: Months, t: int, k: nat)
    requires AgreeBefore(m, n, t) && k < t
    ensures TotalSigma(root, m, k) == TotalSigma(root, n, k)
  {
    GetAgrees(m, n, t, k);
  }

  lemma DownsideSigmaAgrees(root: real -> real, m: Months, n: Months, t: int, k: nat)
    requires AgreeBefore(m, n, t) && k < t
    ensures DownsideSigma(root, m, Before(m.Keys, k), k) == DownsideSigma(root, n, Before(n.Keys, k), k)
  {
    BeforeAgrees(m, n, t, k);
    GetAgrees(m, n, t, k);
    if Before(m.Keys, k).Some? {
      GetAgrees(m, n, t, Before(m.Keys, k).value);
    }
  }

  /** Estimates up to t do not look past t. */
  lemma EstimatesAgree(root: real -> real, m: Months, n: Months, t: int)
    requires AgreeBefore(m, n, t)
    ensures AgreeBefore(TotalSigmas(root, m), TotalSigmas(root, n), t)
    ensures AgreeBefore(DownsideSigmas(root, m), DownsideSigmas(root, n), t)
  {
    forall k: nat | k < t
      ensures TotalSigma(root, m, k) == TotalSigma(root, n, k)
      ensures DownsideSigma(root, m, Before(m.Keys, k), k) == DownsideSigma(root, n, Before(n.Keys, k), k)
    {
      TotalSigmaAgrees(root, m, n, t, k);
      DownsideSigmaAgrees(root, m, n, t, k);
    }
  }

  lemma BoundaryAgrees(e: Setup, m: Months, n: Months, a: Sigmas, b: Sigmas, s: Ledger, u: int, t: int)
    requires e.cal.Valid() && 0 < e.minimumPairs && u <= t
    requires AgreeBefore(m, n, t) && AgreeBefore(a, b, t)
    ensures Boundary(e, m, a, s, u) == Boundary(e, n, b, s, u)
  {
    var prior := e.MonthBefore(u);
    assert prior <= u - 1 < t && e.MonthBefore(prior) < t;
    assert Get(m, prior) == Get(n, prior) && Get(a, prior) == Get(b, prior);
    assert Get(a, e.MonthBefore(prior)) == Get(b, e.MonthBefore(prior));
  }

  /**
   The schedule up to boundary t, whole ledger included, is untouched by any edit to months or estimates from t on.
   */
  lemma {:induction false} ScheduleAgrees(e: Setup, m: Months, n: Months, a: Sigmas, b: Sigmas, bs: seq<int>, t: int)
    requires e.cal.Valid() && 0 < e.minimumPairs
    requires AgreeBefore(m, n, t) && AgreeBefore(a, b, t)
    requires forall k :: 0 <= k < |bs| ==> bs[k] <= t
    ensures RunSchedule(e, m, a, bs) == RunSchedule(e, n, b, bs)
  {
    if bs == [] {
      return;
    }
    ScheduleAgrees(e, m, n, a, b, bs[..|bs| - 1], t);
    var before := RunSchedule(e, m, a, bs[..|bs| - 1]);
    if before.Err? {
      EarlierFailure(e, m, a, bs);
      EarlierFailure(e, n, b, bs);
      return;
    }
    LastBoundary(e, m, a, bs, before.value);
    LastBoundary(e, n, b, bs, before.value);
    BoundaryAgrees(e, m, n, a, b, before.value, bs[|bs| - 1], t);
  }

  /** A later boundary leaves the decisions already taken alone. */
  lemma BoundaryKeepsDecisions(e: Setup, months: Months, sigma: Sigmas, s: Ledger, u: int, t: int)
    requires 0 < e.minimumPairs && t < u && Boundary(e, months, sigma, s, u).Ok?
    ensures DecidedAt(Boundary(e, months, sigma, s, u).value, t) == DecidedAt(s, t)
  {
  }

  /** The decision of a boundary is final: the whole run holds what the run up to it decided. */
  lemma {:induction false} DecisionsAreFinal(e: Setup, months: Months, sigma: Sigmas, bs: seq<int>, n: nat, t: int)
    requires 0 < e.minimumPairs && n <= |bs| && RunSchedule(e, months, sigma, bs).Ok?
    requires forall k :: n <= k < |bs| ==> t < bs[k]
    ensures RunSchedule(e, months, sigma, bs[..n]).Ok?
    ensures DecidedAt(RunSchedule(e, months, sigma, bs).value, t)
         == DecidedAt(RunSchedule(e, months, sigma, bs[..n]).value, t)
    decreases |bs|
  {
    if n == |bs| {
      assert bs[..n] == bs;
    } else {
      var shorter := bs[..|bs| - 1];
      assert shorter[..n] == bs[..n];
      EarlierFailure(e, months, sigma, bs);
      DecisionsAreFinal(e, months, sigma, shorter, n, t);
      LastBoundary(e, months, sigma, bs, RunSchedule(e, months, sigma, shorter).value);
      BoundaryKeepsDecisions(e, months, sigma, RunSchedule(e, months, sigma, shorter).value, bs[|bs| - 1], t);
    }
  }

  /** Both tables hold a decision for every scored boundary up to t, and the same one. */
  ghost predicate DecideAlike(e: Setup, bs: seq<int>, t: int, a: Ledger, b: Ledger) {
    forall k :: 0 <= k < |bs| && e.scoredStart <= bs[k] <= t ==>
      DecidedAt(a, bs[k]).Some? && DecidedAt(a, bs[k]) == DecidedAt(b, bs[k])
  }

  /** Runs cut off at a scored boundary not after t are the same run, and decide that boundary. */
  lemma EarlyRunsDecideAlike(e: Setup, m: Months, n: Months, a: Sigmas, b: Sigmas, early: seq<int>, t: int)
    requires e.cal.Valid() && 0 < e.minimumPairs && early != []
    requires AgreeBefore(m, n, t) && AgreeBefore(a, b, t) && e.scoredStart <= early[|early| - 1]
    requires forall j :: 0 <= j < |early| ==> early[j] <= t
    requires RunSchedule(e, m, a, early).Ok?
    ensures RunSchedule(e, m, a, early) == RunSchedule(e, n, b, early)
    ensures DecidedAt(RunSchedule(e, m, a, early).value, early[|early| - 1]).Some?
  {
    ScheduleAgrees(e, m, n, a, b, early, t);
    ScoredBoundaryDecides(e, m, a, early);
  }

  /** What a whole run decided at its k-th boundary is what the run up to there decided. */
  lemma FinalAt(e: Setup, months: Months, sigma: Sigmas, bs: seq<int>, k: nat) returns (early: seq<int>)
    requires 0 < e.minimumPairs && StrictlyIncreasing(bs) && k < |bs| && RunSchedule(e, months, sigma, bs).Ok?
    ensures early == bs[..k + 1] && early[k] == bs[k] && forall j :: 0 <= j < |early| ==> early[j] <= bs[k]
    ensures RunSchedule(e, months, sigma, early).Ok?
    ensures DecidedAt(RunSchedule(e, months, sigma, bs).value, bs[k])
         == DecidedAt(RunSchedule(e, months, sigma, early).value, bs[k])
  {
    early := bs[..k + 1];
    DecisionsAreFinal(e, months, sigma, bs, k + 1, bs[k]);
  }

  lemma RunsDecideAlikeAt(e: Setup, m: Months, n: Months, a: Sigmas, b: Sigmas, bs: seq<int>, t: int, k: nat)
    requires e.cal.Valid() && 0 < e.minimumPairs && StrictlyIncreasing(bs)
    requires AgreeBefore(m, n, t) && AgreeBefore(a, b, t) && k < |bs| && e.scoredStart <= bs[k] <= t
    requires RunSchedule(e, m, a, bs).Ok? && RunSchedule(e, n, b, bs).Ok?
    ensures DecidedAt(RunSchedule(e, m, a, bs).value, bs[k]).Some?
    ensures DecidedAt(RunSchedule(e, m, a, bs).value, bs[k]) == DecidedAt(RunSchedule(e, n, b, bs).value, bs[k])
  {
    var early := FinalAt(e, m, a, bs, k);
    var same := FinalAt(e, n, b, bs, k);
    EarlyRunsDecideAlike(e, m, n, a, b, early, t);
  }

  /** Two whole runs decide alike up to t when months and estimates agree before t. */
  lemma RunsDecideAlike(e: Setup, m: Months, n: Months, a: Sigmas, b: Sigmas, bs: seq<int>, t: int)
    requires e.cal.Valid() && 0 < e.minimumPairs && StrictlyIncreasing(bs)
    requires AgreeBefore(m, n, t) && AgreeBefore(a, b, t)
    requires RunSchedule(e, m, a, bs).Ok? && RunSchedule(e, n, b, bs).Ok?
    ensures DecideAlike(e, bs, t, RunSchedule(e, m, a, bs).value, RunSchedule(e, n, b, bs).value)
  {
    var first, second := RunSchedule(e, m, a, bs).value, RunSchedule(e, n, b, bs).value;
    forall k | 0 <= k < |bs| && e.scoredStart <= bs[k] <= t
      ensures DecidedAt(first, bs[k]).Some? && DecidedAt(first, bs[k]) == DecidedAt(second, bs[k])
    {
      RunsDecideAlikeAt(e, m, n, a, b, bs, t, k);
    }
  }

  lemma BoundariesIncrease(cal: Calendar, start: int, end: int, first: int, bs: seq<int>)
    requires cal.Valid() && BoundariesOf(cal, start, end, first, bs)
    ensures StrictlyIncreasing(bs)
  {
  }

  /**
   No look-ahead over the whole run: editing months from t on leaves both variants' runs free of raises, and every
   decision at or before t as it was, whatever later boundaries do.
   */
  lemma NeverAnticipates(e: Setup, m: Months, n: Months, end: int, bs: seq<int>, t: int)
    requires e.cal.Valid() && RootLike(e.root) && 0 < e.minimumPairs && AgreeBefore(m, n, t)
    requires BoundariesOf(e.cal, e.firstManaged, end, FirstFrom(e.cal, e.firstManaged), bs)
    ensures
      var a := RunSchedule(e, m, TotalSigmas(e.root, m), bs);
      var b := RunSchedule(e, n, TotalSigmas(e.root, n), bs);
      a.Ok? && b.Ok? && DecideAlike(e, bs, t, a.value, b.value)
    ensures
      var a := RunSchedule(e, m, DownsideSigmas(e.root, m), bs);
      var b := RunSchedule(e, n, DownsideSigmas(e.root, n), bs);
      a.Ok? && b.Ok? && DecideAlike(e, bs, t, a.value, b.value)
  {
    BoundariesIncrease(e.cal, e.firstManaged, end, FirstFrom(e.cal, e.firstManaged), bs);
    EstimatesAgree(e.root, m, n, t);
    EstimatesPositive(e.root, m);
    EstimatesPositive(e.root, n);
    ScalesWithinOne(e, m, TotalSigmas(e.root, m), bs);
    ScalesWithinOne(e, n, TotalSigmas(e.root, n), bs);
    ScalesWithinOne(e, m, DownsideSigmas(e.root, m), bs);
    ScalesWithinOne(e, n, DownsideSigmas(e.root, n), bs);
    RunsDecideAlike(e, m, n, TotalSigmas(e.root, m), TotalSigmas(e.root, n), bs, t);
    RunsDecideAlike(e, m, n, DownsideSigmas(e.root, m), DownsideSigmas(e.root, n), bs, t);
  }
}
