/**
 Point-in-time market snapshots: the candles closed before a decision, cut back
 to the gap-free run that ends with the latest of them.
 */
module Snapshots {
  import opened Basics
  import opened Divisibility

  const QUARTER_HOUR := 900_000
  const FOUR_HOURS := 4 * HOUR

  /** One candle of a given duration; its remaining fields are its payload. */
  datatype Candle = Candle(open: int, payload: int)
  {
    function Close(d: nat): int {
      open + d - 1
    }
  }

  function OpenTimes(values: seq<Candle>): (ts: seq<int>)
    ensures |ts| == |values| && forall k :: 0 <= k < |ts| ==> ts[k] == values[k].open
  {
    seq(|values|, k requires 0 <= k < |values| => values[k].open)
  }

  /** An admitted series: grid openings in strictly increasing order, gaps allowed. */
  ghost predicate OnGrid(values: seq<Candle>, d: nat)
    requires 0 < d
  {
    && (forall k :: 0 <= k < |values| ==> values[k].open % d == 0)
    && forall i, j :: 0 <= i < j < |values| ==> values[i].open < values[j].open
  }

  // ---------- The visible gap-free suffix ----------

  /** Candles closed before the decision. */
  function Visible(values: seq<Candle>, d: nat, t: int): seq<Candle> {
    if values == [] then []
    else
      var rest, last := Visible(values[..|values| - 1], d, t), values[|values| - 1];
      if last.Close(d) < t then rest + [last] else rest
  }

  /** Back from position k for as long as candles adjoin. */
  function RunStart(values: seq<Candle>, d: nat, k: nat): (start: nat)
    requires k < |values|
    ensures start <= k
  {
    if k > 0 && values[k].open == values[k - 1].open + d then RunStart(values, d, k - 1) else k
  }

  function GapFreeSuffix(values: seq<Candle>, d: nat): seq<Candle> {
    if values == [] then [] else values[RunStart(values, d, |values| - 1)..]
  }

  function VisibleSuffix(values: seq<Candle>, d: nat, t: int): seq<Candle> {
    GapFreeSuffix(Visible(values, d, t), d)
  }

  /**
   The list is the candles from position lo up to hi: all candles before hi have closed before t and none from hi on,
   neighbours in it adjoin, and it reaches back to the last gap.
   */
  ghost predicate LatestRun(values: seq<Candle>, d: nat, t: int, r: seq<Candle>, lo: nat, hi: nat) {
    && lo <= hi <= |values| && r == values[lo..hi] && (0 < hi ==> lo < hi)
    && (forall k :: 0 <= k < |values| ==> (values[k].open + d - 1 < t <==> k < hi))
    && (forall k :: lo < k < hi ==> values[k].open == values[k - 1].open + d)
    && (0 < lo < |values| ==> values[lo].open != values[lo - 1].open + d)
  }

  ghost predicate IsLatestRun(values: seq<Candle>, d: nat, t: int, r: seq<Candle>) {
    exists lo, hi :: LatestRun(values, d, t, r, lo, hi)
  }

  lemma {:induction false} AllVisible(values: seq<Candle>, d: nat, t: int)
    requires forall k :: 0 <= k < |values| ==> values[k].open + d - 1 < t
    ensures Visible(values, d, t) == values
  {
    if values != [] {
      AllVisible(values[..|values| - 1], d, t);
    }
  }

  /** In an admitted series what has closed before t is a prefix. */
  lemma {:induction false} VisibleIsPrefix(values: seq<Candle>, d: nat, t: int) returns (hi: nat)
    requires 0 < d && OnGrid(values, d)
    ensures hi <= |values| && Visible(values, d, t) == values[..hi]
    ensures forall k :: 0 <= k < |values| ==> (values[k].open + d - 1 < t <==> k < hi)
  {
    if values == [] {
      return 0;
    }
    var n := |values| - 1;
    if values[n].open + d - 1 < t {
      forall k | 0 <= k < |values| ensures values[k].open + d - 1 < t {
        assert k < n ==> values[k].open < values[n].open;
      }
      AllVisible(values, d, t);
      return |values|;
    }
    var shorter := values[..n];
    hi := VisibleIsPrefix(shorter, d, t);
    assert forall k :: 0 <= k < n ==> shorter[k] == values[k];
    assert shorter[..hi] == values[..hi];
  }

  /** The part of a prefix that RunStart cuts off, in positions of the whole series. */
  lemma RunInPrefix(values: seq<Candle>, d: nat, hi: nat)
    requires 0 < hi <= |values|
    ensures var lo := RunStart(values[..hi], d, hi - 1);
      && (forall k :: lo < k < hi ==> values[k].open == values[k - 1].open + d)
      && (lo > 0 ==> values[lo].open != values[lo - 1].open + d)
      && values[..hi][lo..] == values[lo..hi]
  {
    var v := values[..hi];
    RunIsMaximal(v, d, hi - 1);
    forall k | RunStart(v, d, hi - 1) < k < hi ensures values[k].open == values[k - 1].open + d {
      assert v[k].open == v[k - 1].open + d;
    }
  }

  lemma SuffixIsLatestRun(values: seq<Candle>, d: nat, t: int)
    requires 0 < d && OnGrid(values, d)
    ensures IsLatestRun(values, d, t, VisibleSuffix(values, d, t))
  {
    var hi := VisibleIsPrefix(values, d, t);
    if hi == 0 {
      assert LatestRun(values, d, t, [], 0, 0);
      return;
    }
    var lo := RunStart(values[..hi], d, hi - 1);
    RunInPrefix(values, d, hi);
    assert LatestRun(values, d, t, values[lo..hi], lo, hi);
  }

  method VisibleContiguousSuffix(values: seq<Candle>, d: nat, t: int) returns (r: seq<Candle>)
    ensures r == VisibleSuffix(values, d, t)
    ensures 0 < d && OnGrid(values, d) ==> IsLatestRun(values, d, t, r)
  {
    if 0 < d && OnGrid(values, d) {
      SuffixIsLatestRun(values, d, t);
    }
    var visible: seq<Candle> := [];
    for k := 0 to |values|
      invariant visible == Visible(values[..k], d, t)
    {
      assert values[..k + 1][..k] == values[..k];
      if values[k].Close(d) < t {
        visible := visible + [values[k]];
      }
    }
    assert values[..|values|] == values;
    if visible == [] {
      return visible;
    }
    var start := |visible| - 1;
    while start > 0 && visible[start].open == visible[start - 1].open + d
      invariant 0 <= start < |visible|
      invariant RunStart(visible, d, |visible| - 1) == RunStart(visible, d, start)
    {
      start := start - 1;
    }
    return visible[start..];
  }

  /** The suffix is gap free and cannot be longer. */
  lemma {:induction false} RunIsMaximal(values: seq<Candle>, d: nat, k: nat)
    requires k < |values|
    ensures var s := RunStart(values, d, k);
      && (forall j :: s < j <= k ==> values[j].open == values[j - 1].open + d)
      && (s > 0 ==> values[s].open != values[s - 1].open + d)
  {
    if k > 0 && values[k].open == values[k - 1].open + d {
      RunIsMaximal(values, d, k - 1);
    }
  }

  lemma {:induction false} VisibleConcat(xs: seq<Candle>, ys: seq<Candle>, d: nat, t: int)
    ensures Visible(xs + ys, d, t) == Visible(xs, d, t) + Visible(ys, d, t)
  {
    if ys == [] {
      assert xs + ys == xs;
    } else {
      VisibleConcat(xs, ys[..|ys| - 1], d, t);
      assert (xs + ys)[..|xs + ys| - 1] == xs + ys[..|ys| - 1];
    }
  }

  lemma {:induction false} NoneVisible(values: seq<Candle>, d: nat, t: int)
    requires forall k :: 0 <= k < |values| ==> t <= values[k].Close(d)
    ensures Visible(values, d, t) == []
  {
    if values != [] {
      NoneVisible(values[..|values| - 1], d, t);
    }
  }

  /** From the first candle that opens too late on, nothing is visible. */
  lemma NoneVisibleFrom(values: seq<Candle>, d: nat, t: int, n: nat)
    requires 0 < d && OnGrid(values, d) && n <= |values| && (n < |values| ==> t <= values[n].open)
    ensures Visible(values[n..], d, t) == []
  {
    var later := values[n..];
    forall k | 0 <= k < |later| ensures t <= later[k].Close(d) {
      assert later[k] == values[n + k];
      assert k > 0 ==> values[n].open < values[n + k].open;
    }
    NoneVisible(later, d, t);
  }

  /** Candles opening before the cut; a cut with no history is refused by the caller. */
  function Prefix(values: seq<Candle>, end: int): (r: seq<Candle>)
    ensures r <= values && (|r| < |values| ==> end <= values[|r|].open)
    ensures forall k :: 0 <= k < |r| ==> r[k].open < end
  {
    values[..BisectLeft(OpenTimes(values), end)]
  }

  /** A cut at or after the decision changes nothing that the decision can see. */
  lemma CutKeepsVisible(values: seq<Candle>, d: nat, t: int, end: int)
    requires 0 < d && OnGrid(values, d) && t <= end
    ensures Visible(Prefix(values, end), d, t) == Visible(values, d, t)
  {
    var n := BisectLeft(OpenTimes(values), end);
    NoneVisibleFrom(values, d, t, n);
    VisibleConcat(values[..n], values[n..], d, t);
    assert values == values[..n] + values[n..];
  }

  // ---------- History validation ----------

  /** The legal boundary: the last opening of this duration that can have closed before the decision. */
  function LastLegalOpen(d: nat, t: int): int
    requires 0 < d
  {
    t / d * d - d
  }

  predicate CandleLegal(candles: seq<Candle>, d: nat, t: int, k: nat)
    requires 0 < d && k < |candles|
  {
    && candles[k].Close(d) < t && candles[k].open % d == 0
    && (k > 0 ==> candles[k].open - candles[k - 1].open > 0 && (candles[k].open - candles[k - 1].open) % d == 0)
  }

  ghost predicate HistoryLegal(candles: seq<Candle>, d: nat, t: int)
    requires 0 < d
  {
    && candles != []
    && (forall k :: 0 <= k < |candles| ==> CandleLegal(candles, d, t, k))
    && candles[|candles| - 1].open <= LastLegalOpen(d, t)
  }

  method ValidateHistory(candles: seq<Candle>, d: nat, t: int) returns (legal: bool)
    requires 0 < d
    ensures legal <==> HistoryLegal(candles, d, t)
  {
    if candles == [] {
      return false;
    }
    var previous: Option<int> := None;
    for k := 0 to |candles|
      invariant previous == if k == 0 then None else Some(candles[k - 1].open)
      invariant forall j :: 0 <= j < k ==> CandleLegal(candles, d, t, j)
    {
      var c := candles[k];
      if c.Close(d) >= t || c.open % d != 0 {
        assert !CandleLegal(candles, d, t, k);
        return false;
      }
      if previous.Some? {
        var delta := c.open - previous.value;
        if delta <= 0 || delta % d != 0 {
          assert !CandleLegal(candles, d, t, k);
          return false;
        }
      }
      previous := Some(c.open);
    }
    return candles[|candles| - 1].open <= LastLegalOpen(d, t);
  }

  lemma GridBelow(x: int, d: nat, t: int)
    requires 0 < d && x % d == 0 && x + d - 1 < t
    ensures x <= LastLegalOpen(d, t)
  {
    DivisionBounds(t, d);
    MultipleDifference(t / d * d, x, d);
    PositiveMultiple(t / d * d - x, d);
  }

  lemma PositiveMultiple(y: int, d: nat)
    requires 0 < d && y % d == 0 && 0 < y
    ensures d <= y
  {
  }

  lemma {:induction false} VisibleOnGrid(values: seq<Candle>, d: nat, t: int)
    requires 0 < d && OnGrid(values, d)
    ensures OnGrid(Visible(values, d, t), d)
    ensures forall k :: 0 <= k < |Visible(values, d, t)| ==>
      Visible(values, d, t)[k].Close(d) < t && Visible(values, d, t)[k] in values
  {
    if values != [] {
      var shorter, last := values[..|values| - 1], values[|values| - 1];
      VisibleOnGrid(shorter, d, t);
      var before := Visible(shorter, d, t);
      forall k | 0 <= k < |before| ensures before[k].open < last.open && before[k] in values {
        var j :| 0 <= j < |shorter| && shorter[j] == before[k];
        assert values[j] == shorter[j];
      }
    }
  }

  lemma GridCandleLegal(h: seq<Candle>, d: nat, t: int, k: nat)
    requires 0 < d && k < |h| && h[k].open % d == 0 && h[k].Close(d) < t
    requires k > 0 ==> h[k - 1].open % d == 0 && h[k - 1].open < h[k].open
    ensures CandleLegal(h, d, t, k)
  {
    if k > 0 {
      MultipleDifference(h[k].open, h[k - 1].open, d);
    }
  }

  lemma GridTailLegal(v: seq<Candle>, d: nat, t: int, s: nat)
    requires 0 < d && OnGrid(v, d) && s < |v| && forall k :: 0 <= k < |v| ==> v[k].Close(d) < t
    ensures HistoryLegal(v[s..], d, t)
  {
    var h := v[s..];
    forall k | 0 <= k < |h| ensures CandleLegal(h, d, t, k) {
      assert h[k] == v[s + k];
      assert k > 0 ==> h[k - 1] == v[s + k - 1];
      GridCandleLegal(h, d, t, k);
    }
    GridBelow(v[|v| - 1].open, d, t);
  }

  /** The suffix of an admitted series always validates, unless nothing has closed yet. */
  lemma SuffixIsLegal(values: seq<Candle>, d: nat, t: int)
    requires 0 < d && OnGrid(values, d)
    ensures HistoryLegal(VisibleSuffix(values, d, t), d, t) <==> Visible(values, d, t) != []
  {
    var v := Visible(values, d, t);
    if v != [] {
      VisibleOnGrid(values, d, t);
      GridTailLegal(v, d, t, RunStart(v, d, |v| - 1));
    }
  }

  // ---------- Snapshots ----------

  datatype Snapshot = Snapshot(time: int, primary: seq<Candle>, context: seq<Candle>, regime: seq<Candle>)

  datatype SnapshotError = OutsideRange | IllegalSnapshot

  /** One symbol's candles and the decision range they serve. */
  datatype Dataset = Dataset(start: int, end: int, primary: seq<Candle>, context: seq<Candle>, regime: seq<Candle>)
  {
    ghost predicate Admitted() {
      OnGrid(primary, HOUR) && OnGrid(context, QUARTER_HOUR) && OnGrid(regime, FOUR_HOURS)
    }
  }

  function SuffixesAt(ds: Dataset, t: int): Snapshot {
    Snapshot(t, VisibleSuffix(ds.primary, HOUR, t), VisibleSuffix(ds.context, QUARTER_HOUR, t),
             VisibleSuffix(ds.regime, FOUR_HOURS, t))
  }

  /** Something of every interval has closed before t. */
  predicate AnyVisible(ds: Dataset, t: int) {
    && Visible(ds.primary, HOUR, t) != [] && Visible(ds.context, QUARTER_HOUR, t) != []
    && Visible(ds.regime, FOUR_HOURS, t) != []
  }

  /** The snapshot of a decision exists exactly in range, on the hour, after a candle of every interval has closed. */
  function SnapshotAt(ds: Dataset, t: int): Result<Snapshot, SnapshotError> {
    if !(ds.start <= t < ds.end) then Err(OutsideRange)
    else if 0 < t && t % HOUR == 0 && AnyVisible(ds, t) then Ok(SuffixesAt(ds, t))
    else Err(IllegalSnapshot)
  }

  /** Some candle of the series has closed before t. */
  ghost predicate AnyClosed(values: seq<Candle>, d: nat, t: int) {
    exists k :: 0 <= k < |values| && values[k].open + d - 1 < t
  }

  lemma VisibleMeansClosed(values: seq<Candle>, d: nat, t: int)
    requires 0 < d && OnGrid(values, d)
    ensures Visible(values, d, t) != [] <==> AnyClosed(values, d, t)
  {
    var hi := VisibleIsPrefix(values, d, t);
    if hi > 0 {
      assert values[0].open + d - 1 < t;
    }
  }

  /** A snapshot shows at t, of every interval, the candles since the last gap that have closed before t. */
  ghost predicate ShowsLatest(ds: Dataset, t: int, s: Snapshot) {
    && s.time == t
    && IsLatestRun(ds.primary, HOUR, t, s.primary)
    && IsLatestRun(ds.context, QUARTER_HOUR, t, s.context)
    && IsLatestRun(ds.regime, FOUR_HOURS, t, s.regime)
  }

  /** A decision on the hour, in range, before which some candle of every interval has closed. */
  ghost predicate Decidable(ds: Dataset, t: int) {
    && ds.start <= t < ds.end && 0 < t && t % HOUR == 0
    && AnyClosed(ds.primary, HOUR, t) && AnyClosed(ds.context, QUARTER_HOUR, t) && AnyClosed(ds.regime, FOUR_HOURS, t)
  }

  lemma SnapshotExactly(ds: Dataset, t: int)
    requires ds.Admitted()
    ensures SnapshotAt(ds, t).Ok? <==> Decidable(ds, t)
    ensures SnapshotAt(ds, t).Ok? ==> ShowsLatest(ds, t, SnapshotAt(ds, t).value)
    ensures SnapshotAt(ds, t).Err? ==> (SnapshotAt(ds, t).error == OutsideRange <==> !(ds.start <= t < ds.end))
  {
    VisibleMeansClosed(ds.primary, HOUR, t);
    VisibleMeansClosed(ds.context, QUARTER_HOUR, t);
    VisibleMeansClosed(ds.regime, FOUR_HOURS, t);
    SuffixIsLatestRun(ds.primary, HOUR, t);
    SuffixIsLatestRun(ds.context, QUARTER_HOUR, t);
    SuffixIsLatestRun(ds.regime, FOUR_HOURS, t);
  }

  method BuildSnapshot(ds: Dataset, t: int) returns (r: Result<Snapshot, SnapshotError>)
    requires ds.Admitted()
    ensures r == SnapshotAt(ds, t)
    ensures r.Ok? <==> Decidable(ds, t)
    ensures r.Ok? ==> ShowsLatest(ds, t, r.value)
    ensures r.Err? ==> (r.error == OutsideRange <==> !(ds.start <= t < ds.end))
    ensures r.Ok? ==>
      && HistoryLegal(r.value.primary, HOUR, t)
      && HistoryLegal(r.value.context, QUARTER_HOUR, t)
      && HistoryLegal(r.value.regime, FOUR_HOURS, t)
  {
    SnapshotExactly(ds, t);
    if !(ds.start <= t < ds.end) {
      return Err(OutsideRange);
    }
    var primary := VisibleContiguousSuffix(ds.primary, HOUR, t);
    var context := VisibleContiguousSuffix(ds.context, QUARTER_HOUR, t);
    var regime := VisibleContiguousSuffix(ds.regime, FOUR_HOURS, t);
    SuffixIsLegal(ds.primary, HOUR, t);
    SuffixIsLegal(ds.context, QUARTER_HOUR, t);
    SuffixIsLegal(ds.regime, FOUR_HOURS, t);
    if t <= 0 || t % HOUR != 0 {
      return Err(IllegalSnapshot);
    }
    var first := ValidateHistory(primary, HOUR, t);
    var second := ValidateHistory(context, QUARTER_HOUR, t);
    var third := ValidateHistory(regime, FOUR_HOURS, t);
    if !first || !second || !third {
      return Err(IllegalSnapshot);
    }
    return Ok(Snapshot(t, primary, context, regime));
  }

  /** No look-ahead: data sets that agree on what has closed before t give the same snapshot at t. */
  lemma SnapshotNeverAnticipates(a: Dataset, b: Dataset, t: int)
    requires a.start <= t < a.end && b.start <= t < b.end
    requires Visible(a.primary, HOUR, t) == Visible(b.primary, HOUR, t)
    requires Visible(a.context, QUARTER_HOUR, t) == Visible(b.context, QUARTER_HOUR, t)
    requires Visible(a.regime, FOUR_HOURS, t) == Visible(b.regime, FOUR_HOURS, t)
    ensures SnapshotAt(a, t) == SnapshotAt(b, t)
  {
  }

  /** The candles that opened before the end of a chunk, with the chunk as decision range. */
  function Cut(ds: Dataset, start: int, end: int): Dataset {
    Dataset(start, end, Prefix(ds.primary, end), Prefix(ds.context, end), Prefix(ds.regime, end))
  }

  lemma CutStaysAdmitted(ds: Dataset, start: int, end: int)
    requires ds.Admitted()
    ensures Cut(ds, start, end).Admitted()
  {
  }

  /** Inside a chunk the cut data set gives the very snapshot of the full one. */
  lemma CutKeepsSnapshot(ds: Dataset, start: int, end: int, t: int)
    requires ds.Admitted() && ds.start <= start <= t < end <= ds.end
    ensures SnapshotAt(Cut(ds, start, end), t) == SnapshotAt(ds, t)
  {
    CutKeepsVisible(ds.primary, HOUR, t, end);
    CutKeepsVisible(ds.context, QUARTER_HOUR, t, end);
    CutKeepsVisible(ds.regime, FOUR_HOURS, t, end);
    SnapshotNeverAnticipates(Cut(ds, start, end), ds, t);
  }

  // ---------- Freshness ----------

  predicate FreshSeries(values: seq<Candle>, d: nat, t: int)
    requires 0 < d && values != []
  {
    values[|values| - 1].open == LastLegalOpen(d, t)
  }

  lemma LastLegalIsGrid(d: nat, t: int)
    requires 0 < d
    ensures LastLegalOpen(d, t) + d - 1 < t && LastLegalOpen(d, t) % d == 0
  {
    DivisionBounds(t, d);
    MultipleOf(t / d - 1, d);
    assert (t / d - 1) * d == t / d * d - d;
  }

  /** A series is fresh exactly when the candle that should have closed last is there. */
  lemma FreshExactlyWhen(values: seq<Candle>, d: nat, t: int)
    requires 0 < d && OnGrid(values, d) && Visible(values, d, t) != []
    ensures FreshSeries(VisibleSuffix(values, d, t), d, t)
       <==> exists k :: 0 <= k < |values| && values[k].open == LastLegalOpen(d, t)
    ensures FreshSeries(VisibleSuffix(values, d, t), d, t)
       <==> exists k :: 0 <= k < |values| && values[k].open + d - 1 < t <= values[k].open + 2 * d - 1
  {
    forall k | 0 <= k < |values|
      ensures values[k].open == LastLegalOpen(d, t) <==> values[k].open + d - 1 < t <= values[k].open + 2 * d - 1
    {
      LastLegalIsLatest(values[k].open, d, t);
    }
    FreshMeansLastLegal(values, d, t);
  }

  /** The last legal opening is the grid opening whose candle closed less than one interval before t. */
  lemma LastLegalIsLatest(x: int, d: nat, t: int)
    requires 0 < d && x % d == 0
    ensures x == LastLegalOpen(d, t) <==> x + d - 1 < t <= x + 2 * d - 1
  {
    LastLegalIsGrid(d, t);
    DivisionBounds(t, d);
    if x + d - 1 < t <= x + 2 * d - 1 {
      GridBelow(x, d, t);
      MultipleDifference(LastLegalOpen(d, t), x, d);
      if x < LastLegalOpen(d, t) {
        PositiveMultiple(LastLegalOpen(d, t) - x, d);
      }
    }
  }

  lemma FreshMeansLastLegal(values: seq<Candle>, d: nat, t: int)
    requires 0 < d && OnGrid(values, d) && Visible(values, d, t) != []
    ensures FreshSeries(VisibleSuffix(values, d, t), d, t)
       <==> exists k :: 0 <= k < |values| && values[k].open == LastLegalOpen(d, t)
  {
    var v := Visible(values, d, t);
    VisibleOnGrid(values, d, t);
    var last := v[|v| - 1];
    GridBelow(last.open, d, t);
    assert last in values;
    LastLegalIsGrid(d, t);
    if k :| 0 <= k < |values| && values[k].open == LastLegalOpen(d, t) {
      ClosedIsVisible(values, d, t, k);
      var j :| 0 <= j < |v| && v[j] == values[k];
      assert v[j].open <= last.open;
    }
  }

  lemma {:induction false} ClosedIsVisible(values: seq<Candle>, d: nat, t: int, k: nat)
    requires k < |values| && values[k].Close(d) < t
    ensures values[k] in Visible(values, d, t)
  {
    if k < |values| - 1 {
      ClosedIsVisible(values[..|values| - 1], d, t, k);
    }
  }
}
