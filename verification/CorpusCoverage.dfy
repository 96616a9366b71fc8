/** When every archive file is complete, the plan's files merge into exactly the requested grid. */
module CorpusCoverage {
  import opened Basics
  import opened Calendars
  import opened ArchivePlan
  import opened Acquisition
  import opened Divisibility

  // ---------- Counting openings ----------

  function CountOpen(rows: seq<Row>, t: nat): nat {
    if rows == [] then 0 else CountOpen(rows[..|rows| - 1], t) + if rows[|rows| - 1].open == t then 1 else 0
  }

  lemma {:induction false} CountConcat(xs: seq<Row>, ys: seq<Row>, t: nat)
    ensures CountOpen(xs + ys, t) == CountOpen(xs, t) + CountOpen(ys, t)
  {
    if ys == [] {
      assert xs + ys == xs;
    } else {
      CountConcat(xs, ys[..|ys| - 1], t);
      assert (xs + ys)[..|xs + ys| - 1] == xs + ys[..|ys| - 1];
    }
  }

  lemma {:induction false} CountPositive(rows: seq<Row>, k: nat)
    requires k < |rows|
    ensures CountOpen(rows, rows[k].open) > 0
  {
    if k < |rows| - 1 {
      CountPositive(rows[..|rows| - 1], k);
    }
  }

  lemma {:induction false} CountedIsOpen(rows: seq<Row>, t: nat)
    requires CountOpen(rows, t) > 0
    ensures t in Opens(rows)
  {
    if rows[|rows| - 1].open != t {
      CountedIsOpen(rows[..|rows| - 1], t);
      var k :| 0 <= k < |rows| - 1 && rows[..|rows| - 1][k].open == t;
      assert rows[k].open == t;
    }
  }

  ghost predicate Distinct(rows: seq<Row>) {
    forall i, j :: 0 <= i < j < |rows| ==> rows[i].open != rows[j].open
  }

  lemma {:induction false} CountedOnceIsDistinct(rows: seq<Row>)
    requires forall t :: CountOpen(rows, t) <= 1
    ensures Distinct(rows)
  {
    if rows != [] {
      var shorter, last := rows[..|rows| - 1], rows[|rows| - 1].open;
      forall t ensures CountOpen(shorter, t) <= 1 {
        assert CountOpen(rows, t) <= 1;
      }
      CountedOnceIsDistinct(shorter);
      assert CountOpen(rows, last) <= 1;
      forall k | 0 <= k < |shorter| ensures shorter[k].open != last {
        CountPositive(shorter, k);
      }
    }
  }

  // ---------- Complete files ----------

  function FirstInstant(cal: Calendar, o: ArchiveObject): int {
    match o
    case Monthly(m) => cal.first(m) * DAY
    case Daily(d) => d * DAY
  }

  function EndInstant(cal: Calendar, o: ArchiveObject): int {
    match o
    case Monthly(m) => cal.first(m + 1) * DAY
    case Daily(d) => (d + 1) * DAY
  }

  /** The file holds each grid candle of its period once, in order. */
  ghost predicate Complete(cal: Calendar, p: Plan, o: ArchiveObject, file: seq<Row>) {
    && FirstInstant(cal, o) + |file| * p.D() == EndInstant(cal, o)
    && forall k :: 0 <= k < |file| ==> file[k].open == FirstInstant(cal, o) + k * p.D()
  }

  /** One more grid step extends the covered stretch by exactly its own opening. */
  lemma StretchGrows(lo: int, n: nat, d: nat, t: int)
    requires 0 < d
    ensures (lo <= t < lo + (n + 1) * d && OnStep(lo, d, t))
       <==> (lo <= t < lo + n * d && OnStep(lo, d, t)) || t == lo + n * d
  {
    MultipleOf(n, d);
    assert (n + 1) * d == n * d + d;
    if lo + n * d <= t < lo + n * d + d && OnStep(lo, d, t) {
      var q := (t - lo) / d;
      assert t - lo == q * d + (t - lo) % d;
      assert (q - n) * d == t - lo - n * d;
      if q - n >= 1 {
        MulAtLeast(q - n, d);
      }
      if q - n <= -1 {
        MulAtLeast(n - q, d);
      }
    }
  }

  lemma {:induction false} CountSelected(cal: Calendar, p: Plan, o: ArchiveObject, file: seq<Row>, n: nat, t: nat)
    requires n <= |file| && forall k :: 0 <= k < |file| ==> file[k].open == FirstInstant(cal, o) + k * p.D()
    ensures var lo := FirstInstant(cal, o);
      CountOpen(Selected(p, o, file[..n]), t)
        == if Kept(p, o, t) && lo <= t < lo + n * p.D() && OnStep(lo, p.D(), t) then 1 else 0
  {
    if n > 0 {
      var r := file[n - 1];
      CountSelected(cal, p, o, file, n - 1, t);
      StretchGrows(FirstInstant(cal, o), n - 1, p.D(), t);
      assert file[..n][..n - 1] == file[..n - 1];
      var before := Selected(p, o, file[..n - 1]);
      assert (before + [Canonical(p, r)])[..|before|] == before;
    }
  }

  lemma DayGrid(day: int, d: nat, t: int)
    requires 0 < d && DAY % d == 0
    ensures OnStep(day * DAY, d, t) <==> t % d == 0
  {
    var n := DAY / d;
    assert DAY == n * d;
    assert day * DAY == (day * n) * d;
    ShiftByMultiple(t, day * n, d);
  }

  lemma DayOf(t: int, a: int, b: int)
    ensures a * DAY <= t < b * DAY <==> a <= t / DAY < b
  {
  }

  /** A complete file contributes each opening of the days it supplies once, and nothing else. */
  lemma CompleteFileContributes(cal: Calendar, p: Plan, o: ArchiveObject, file: seq<Row>, t: nat)
    requires Complete(cal, p, o, file)
    ensures CountOpen(Selected(p, o, file), t)
      == if Supplies(cal, p.symbol, p.interval, o, t / DAY) && p.start <= t < p.end && t % p.D() == 0 then 1 else 0
  {
    CountSelected(cal, p, o, file, |file|, t);
    assert file[..|file|] == file;
    match o
    case Monthly(m) =>
      DayGrid(cal.first(m), p.D(), t);
      DayOf(t, cal.first(m), cal.first(m + 1));
    case Daily(x) =>
      DayGrid(x, p.D(), t);
      DayOf(t, x, x + 1);
  }

  // ---------- The whole plan ----------

  function AllSelected(p: Plan, os: seq<ArchiveObject>, files: seq<seq<Row>>): seq<Row>
    requires |os| == |files|
  {
    if os == [] then []
    else AllSelected(p, os[..|os| - 1], files[..|os| - 1]) + Selected(p, os[|os| - 1], files[|os| - 1])
  }

  /** Rows of every planned object, one file after the other. */
  method CollectRows(p: Plan, os: seq<ArchiveObject>, files: seq<seq<Row>>)
    returns (r: Result<seq<Row>, AcquisitionError>)
    requires |os| == |files|
    ensures r.Ok? <==> forall k :: 0 <= k < |files| ==> OnGrid(p, files[k])
    ensures r.Ok? ==> r.value == AllSelected(p, os, files)
  {
    var all: seq<Row> := [];
    for k := 0 to |os|
      invariant all == AllSelected(p, os[..k], files[..k])
      invariant forall j :: 0 <= j < k ==> OnGrid(p, files[j])
    {
      assert os[..k + 1][..k] == os[..k] && files[..k + 1][..k] == files[..k];
      var rows, anomalies := NormalizeArchive(p, os[k], files[k]);
      if rows.Err? {
        return Err(rows.error);
      }
      all := all + rows.value;
    }
    assert os[..|os|] == os && files[..|os|] == files;
    return Ok(all);
  }

  lemma {:induction false} CountAll(cal: Calendar, p: Plan, os: seq<ArchiveObject>, files: seq<seq<Row>>, t: nat)
    requires |os| == |files| && forall k :: 0 <= k < |os| ==> Complete(cal, p, os[k], files[k])
    ensures CountOpen(AllSelected(p, os, files), t)
      == if p.start <= t < p.end && t % p.D() == 0 then Suppliers(cal, p.symbol, p.interval, os, t / DAY) else 0
  {
    if os != [] {
      var n := |os| - 1;
      CountAll(cal, p, os[..n], files[..n], t);
      CompleteFileContributes(cal, p, os[n], files[n], t);
      CountConcat(AllSelected(p, os[..n], files[..n]), Selected(p, os[n], files[n]), t);
    }
  }

  lemma AlignedGrid(p: Plan, t: nat)
    requires p.Aligned()
    ensures t in Grid(p.start, p.end, p.D()) <==> p.start <= t < p.end && t % p.D() == 0
  {
    var q := p.start / p.D();
    assert p.start == q * p.D() + p.start % p.D();
    ShiftByMultiple(t, q, p.D());
  }

  lemma OneSupplier(cal: Calendar, p: Plan, os: seq<ArchiveObject>, t: nat)
    requires p.start <= t < p.end
    requires Covers(cal, p.symbol, p.interval, os, p.start / DAY, (p.end - 1) / DAY + 1)
    ensures Suppliers(cal, p.symbol, p.interval, os, t / DAY) == 1
  {
  }

  /**
   An opening counted once if its day is supplied, and wanted exactly when it is on the grid, is counted as the grid
   says.
   */
  lemma PlanCounts(cal: Calendar, p: Plan, os: seq<ArchiveObject>, files: seq<seq<Row>>, t: nat)
    requires p.Aligned() && |os| == |files|
    requires Covers(cal, p.symbol, p.interval, os, p.start / DAY, (p.end - 1) / DAY + 1)
    requires forall k :: 0 <= k < |os| ==> Complete(cal, p, os[k], files[k])
    ensures CountOpen(AllSelected(p, os, files), t) == if t in Grid(p.start, p.end, p.D()) then 1 else 0
  {
    CountAll(cal, p, os, files, t);
    AlignedGrid(p, t);
    if p.start <= t < p.end {
      OneSupplier(cal, p, os, t);
    }
  }

  lemma CountsDecideOpens(rows: seq<Row>, grid: set<nat>)
    requires forall t: nat :: CountOpen(rows, t) == if t in grid then 1 else 0
    ensures Opens(rows) == grid && Distinct(rows)
  {
    CountedOnceIsDistinct(rows);
    forall t: nat ensures t in Opens(rows) <==> t in grid {
      if t in Opens(rows) {
        var k :| 0 <= k < |rows| && rows[k].open == t;
        CountPositive(rows, k);
      } else if CountOpen(rows, t) > 0 {
        CountedIsOpen(rows, t);
      }
    }
  }

  /** The exact cover carried to rows: complete files merge into the requested grid, each opening once. */
  lemma PlanYieldsGrid(cal: Calendar, p: Plan, os: seq<ArchiveObject>, files: seq<seq<Row>>)
    requires p.Aligned() && |os| == |files|
    requires Covers(cal, p.symbol, p.interval, os, p.start / DAY, (p.end - 1) / DAY + 1)
    requires forall k :: 0 <= k < |os| ==> Complete(cal, p, os[k], files[k])
    ensures Opens(AllSelected(p, os, files)) == Grid(p.start, p.end, p.D())
    ensures Distinct(AllSelected(p, os, files))
  {
    forall t: nat
      ensures CountOpen(AllSelected(p, os, files), t) == if t in Grid(p.start, p.end, p.D()) then 1 else 0
    {
      PlanCounts(cal, p, os, files, t);
    }
    CountsDecideOpens(AllSelected(p, os, files), Grid(p.start, p.end, p.D()));
  }

  lemma {:induction false} DistinctSize(rows: seq<Row>)
    requires Distinct(rows)
    ensures |Opens(rows)| == |rows|
  {
    if rows != [] {
      var shorter := rows[..|rows| - 1];
      DistinctSize(shorter);
      OpensAppend(shorter, rows[|rows| - 1]);
      assert shorter + [rows[|rows| - 1]] == rows;
    }
  }

  function GridSteps(start: nat, d: nat, n: nat): seq<nat> {
    seq(n, k requires 0 <= k < n => start + k * d)
  }

  lemma StepsIncrease(start: nat, d: nat, n: nat)
    requires 0 < d
    ensures StrictlyIncreasing(GridSteps(start, d, n))
  {
    var xs := GridSteps(start, d, n);
    forall i, j | 0 <= i < j < n ensures xs[i] < xs[j] {
      MulAtLeast(j - i, d);
      assert (j - i) * d == j * d - i * d;
    }
  }

  lemma StepInGrid(start: nat, end: nat, d: nat, k: nat)
    requires 0 < d && start <= end && (end - start) % d == 0 && k < (end - start) / d
    ensures start + k * d in Grid(start, end, d)
  {
    var n := (end - start) / d;
    assert end - start == n * d;
    MultipleOf(k, d);
    MulAtLeast(n - k, d);
    assert (n - k) * d == n * d - k * d;
  }

  lemma GridInStep(start: nat, end: nat, d: nat, t: nat) returns (k: nat)
    requires 0 < d && start <= end && (end - start) % d == 0 && t in Grid(start, end, d)
    ensures k < (end - start) / d && t == start + k * d
  {
    var n := (end - start) / d;
    assert end - start == n * d;
    k := (t - start) / d;
    assert t - start == k * d;
    assert (n - k) * d == n * d - k * d;
    if k > n {
      MulAtLeast(k - n, d);
    }
  }

  /** The grid of an aligned range is start, start + d, and so on, (end - start) / d of them. */
  lemma GridEnumerated(start: nat, end: nat, d: nat)
    requires 0 < d && start <= end && (end - start) % d == 0
    ensures Enumerates(GridSteps(start, d, (end - start) / d), Grid(start, end, d))
  {
    var xs := GridSteps(start, d, (end - start) / d);
    StepsIncrease(start, d, |xs|);
    forall t: nat ensures t in xs <==> t in Grid(start, end, d) {
      if t in xs {
        var k :| 0 <= k < |xs| && xs[k] == t;
        StepInGrid(start, end, d, k);
      }
      if t in Grid(start, end, d) {
        var k := GridInStep(start, end, d, t);
        assert xs[k] == t;
      }
    }
  }

  lemma AlignedLength(p: Plan)
    requires p.Aligned()
    ensures (p.end - p.start) % p.D() == 0
  {
    var q := p.start / p.D();
    assert p.start == q * p.D() + p.start % p.D();
    ShiftByMultiple(p.end, q, p.D());
  }

  /** The manifest of a corpus without blemish: exactly the range's openings, no duplicate, no gap. */
  ghost predicate Perfect(p: Plan, m: Manifest)
    requires p.start <= p.end
  {
    && m.duplicateCount == 0 && m.gapCount == 0 && m.gap.status == NoGaps
    && OpenTimes(m.rows) == GridSteps(p.start, p.D(), (p.end - p.start) / p.D())
    && m.rowCount == m.expectedRows
  }

  /** A manifest produced from the grid's openings, each once, is perfect. */
  lemma PerfectCorpus(p: Plan, all: seq<Row>, m: Manifest)
    requires p.Aligned() && Produced(p, all, m)
    requires Opens(all) == Grid(p.start, p.end, p.D()) && Distinct(all)
    ensures Perfect(p, m)
  {
    AlignedLength(p);
    GridEnumerated(p.start, p.end, p.D());
    RowsEnumerate(m.rows);
    EnumerationUnique(OpenTimes(m.rows), GridSteps(p.start, p.D(), (p.end - p.start) / p.D()), Opens(m.rows));
    EnumerationSize(OpenTimes(m.rows), Opens(m.rows));
    DistinctSize(all);
    EnumerationSize(m.gap.digested, MissingSet(m, p.D()));
  }

  // ---------- From the plan to the manifest ----------

  lemma CompleteIsOnGrid(cal: Calendar, p: Plan, o: ArchiveObject, file: seq<Row>)
    requires Complete(cal, p, o, file)
    ensures OnGrid(p, file)
  {
    var day := if o.Monthly? then cal.first(o.month) else o.day;
    forall k | 0 <= k < |file| ensures file[k].open % p.D() == 0 {
      MultipleOf(k, p.D());
      DayGrid(day, p.D(), file[k].open);
    }
  }

  lemma DistinctIsConsistent(rows: seq<Row>)
    requires Distinct(rows)
    ensures Consistent(rows)
  {
  }

  /** The file of each planned object. */
  function Files(archive: ArchiveObject -> seq<Row>, os: seq<ArchiveObject>): seq<seq<Row>> {
    seq(|os|, k requires 0 <= k < |os| => archive(os[k]))
  }

  /** The whole acquisition: plan the files, collect their rows, merge them and look into the gaps. */
  method AcquirePlanned(cal: Calendar, p: Plan, archive: ArchiveObject -> seq<Row>, rest: Option<Oracle>)
    returns (r: Result<Manifest, AcquisitionError>, os: seq<ArchiveObject>)
    requires cal.Valid()
    ensures p.start < p.end ==> Covers(cal, p.symbol, p.interval, os, p.start / DAY, (p.end - 1) / DAY + 1)
    ensures r.Ok? ==> Produced(p, AllSelected(p, os, Files(archive, os)), r.value)
    ensures p.Aligned() && (forall k :: 0 <= k < |os| ==> Complete(cal, p, os[k], archive(os[k]))) ==>
      r.Ok? && Perfect(p, r.value)
  {
    var plan := BuildArchiveObjects(cal, p.symbol, p.interval, p.start, p.end);
    if plan.Err? {
      return Err(EmptyTransport), [];
    }
    os := plan.value;
    var files := Files(archive, os);
    var all := CollectRows(p, os, files);
    if all.Err? {
      CompleteFilesAreCollected(cal, p, os, files);
      return Err(all.error), os;
    }
    r := AcquireDataset(p, all.value, rest);
    CompleteFilesAreAcquired(cal, p, os, files);
    if r.Ok? {
      CompleteFilesArePerfect(cal, p, os, files, r.value);
    }
  }

  lemma CompleteFilesAreCollected(cal: Calendar, p: Plan, os: seq<ArchiveObject>, files: seq<seq<Row>>)
    requires |os| == |files|
    ensures (forall k :: 0 <= k < |os| ==> Complete(cal, p, os[k], files[k])) ==>
      forall k :: 0 <= k < |files| ==> OnGrid(p, files[k])
  {
    forall k | 0 <= k < |os| && Complete(cal, p, os[k], files[k]) ensures OnGrid(p, files[k]) {
      CompleteIsOnGrid(cal, p, os[k], files[k]);
    }
  }

  lemma CompleteFilesAreAcquired(cal: Calendar, p: Plan, os: seq<ArchiveObject>, files: seq<seq<Row>>)
    requires |os| == |files|
    requires Covers(cal, p.symbol, p.interval, os, p.start / DAY, (p.end - 1) / DAY + 1)
    ensures p.Aligned() && (forall k :: 0 <= k < |os| ==> Complete(cal, p, os[k], files[k])) ==>
      var all := AllSelected(p, os, files);
      Consistent(all) && Distinct(all) && Opens(all) == Grid(p.start, p.end, p.D())
  {
    if p.Aligned() && forall k :: 0 <= k < |os| ==> Complete(cal, p, os[k], files[k]) {
      PlanYieldsGrid(cal, p, os, files);
      DistinctIsConsistent(AllSelected(p, os, files));
    }
  }

  lemma CompleteFilesArePerfect(cal: Calendar, p: Plan, os: seq<ArchiveObject>, files: seq<seq<Row>>, m: Manifest)
    requires |os| == |files| && Produced(p, AllSelected(p, os, files), m)
    requires Covers(cal, p.symbol, p.interval, os, p.start / DAY, (p.end - 1) / DAY + 1)
    ensures p.Aligned() && (forall k :: 0 <= k < |os| ==> Complete(cal, p, os[k], files[k])) ==> Perfect(p, m)
  {
    if p.Aligned() && forall k :: 0 <= k < |os| ==> Complete(cal, p, os[k], files[k]) {
      PlanYieldsGrid(cal, p, os, files);
      PerfectCorpus(p, AllSelected(p, os, files), m);
    }
  }

  lemma RowsEnumerate(rows: seq<Row>)
    requires StrictlyIncreasing(OpenTimes(rows))
    ensures Enumerates(OpenTimes(rows), Opens(rows))
  {
    var ts := OpenTimes(rows);
    forall t: nat ensures t in ts <==> t in Opens(rows) {
      if t in ts {
        var k :| 0 <= k < |ts| && ts[k] == t;
        assert rows[k].open == t;
      }
      if t in Opens(rows) {
        var k :| 0 <= k < |rows| && rows[k].open == t;
        assert ts[k] == t;
      }
    }
  }
}
