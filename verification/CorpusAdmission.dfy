/**
 The two independent consumers of an acquired dataset: the quality gate and the
 replay loader, and their agreement with the producer.
 */
module CorpusAdmission {
  import opened Basics
  import opened ArchivePlan
  import opened Acquisition
  import opened CorpusCoverage
  import opened Divisibility

  // ---------- The quality gate ----------

  datatype Failure =
    | MetadataInvalid
    | RecordedDuplicates
    | SemanticRangeOutsideTransport
    | TransportNotAligned
    | TransportEmpty
    | ExpectedRowsInconsistent
    | OpenNotAligned
    | CloseInvalid
    | OpenCandlePresent
    | OutsideTransport
    | DuplicateTimestamp
    | NonmonotonicTimestamp
    | EmptyDataset
    | RowCountMismatch
    | FirstOpenMismatch
    | LastOpenMismatch
    | OutsideExpectedGrid
    | GapCountMismatch
    | GapAccountingMismatch
    | GapEvidenceIncomplete
    | FirstOpenTransportMismatch
    | LastOpenTransportMismatch

  /** What the gate is given besides the manifest: the semantic range and the retrieval instant. */
  datatype Context = Context(semanticStart: int, semanticEnd: int, retrieved: int)

  predicate CandleSound(m: Manifest, d: nat, x: Context, r: Row)
    requires 0 < d
  {
    r.open % d == 0 && r.close == r.open + d - 1 && r.close <= x.retrieved && m.start <= r.open < m.end
  }

  /** The gap evidence is complete for the gaps the manifest claims, and digests the gaps found. */
  ghost predicate EvidenceComplete(m: Manifest, missing: seq<nat>) {
    var g := m.gap;
    && g.status == (if m.gapCount == 0 then NoGaps else AllConfirmedAbsent)
    && g.expected == g.checked == g.absent == m.gapCount && g.present == 0
    && g.digested == missing
  }

  /** Admissible, stated of the dataset: sound strictly increasing candles, exact metadata, and confirmed exact gaps. */
  ghost predicate Admissible(m: Manifest, d: nat, x: Context)
    requires 0 < d
  {
    && MetadataSound(m, d, x) && EndsSound(m, d)
    && (forall k :: 0 <= k < |m.rows| ==> CandleSound(m, d, x, m.rows[k]))
    && StrictlyIncreasing(OpenTimes(m.rows))
    && Opens(m.rows) <= Grid(m.start, m.end, d)
    && |MissingSet(m, d)| == m.gapCount && m.rowCount + m.gapCount == m.expectedRows
    && (exists missing :: Enumerates(missing, MissingSet(m, d)) && EvidenceComplete(m, missing))
  }

  function FailureIf(c: bool, f: Failure): set<Failure> {
    if c then {f} else {}
  }

  method InspectRows(m: Manifest, d: nat, x: Context) returns (failures: set<Failure>)
    requires 0 < d
    ensures failures == {} <==>
      && (forall k :: 0 <= k < |m.rows| ==> CandleSound(m, d, x, m.rows[k]))
      && StrictlyIncreasing(OpenTimes(m.rows))
  {
    failures := {};
    var previous: Option<nat> := None;
    for k := 0 to |m.rows|
      invariant previous == if k == 0 then None else Some(m.rows[k - 1].open)
      invariant failures == {} <==>
        (forall j :: 0 <= j < k ==> CandleSound(m, d, x, m.rows[j])) && StrictlyIncreasing(OpenTimes(m.rows)[..k])
    {
      var row := m.rows[k];
      ghost var times := OpenTimes(m.rows);
      assert times[..k + 1] == times[..k] + [row.open];
      ghost var was := failures;
      failures := failures + FailureIf(row.open % d != 0, OpenNotAligned);
      failures := failures + FailureIf(row.close != row.open + d - 1, CloseInvalid);
      failures := failures + FailureIf(row.close > x.retrieved, OpenCandlePresent);
      failures := failures + FailureIf(row.open < m.start || row.open >= m.end, OutsideTransport);
      if previous.Some? {
        failures := failures + FailureIf(row.open == previous.value, DuplicateTimestamp);
        failures := failures + FailureIf(row.open < previous.value, NonmonotonicTimestamp);
      }
      assert failures == {} <==> was == {} && CandleSound(m, d, x, row) && (k == 0 || times[k - 1] < row.open);
      previous := Some(row.open);
    }
    assert OpenTimes(m.rows)[..|m.rows|] == OpenTimes(m.rows);
  }

  method OpenSet(rows: seq<Row>) returns (s: set<nat>)
    ensures s == Opens(rows)
  {
    s := set k | 0 <= k < |rows| :: rows[k].open;
  }

  method InspectGaps(m: Manifest, d: nat) returns (failures: set<Failure>)
    requires 0 < d && m.first.Some? && m.last.Some?
    ensures failures == {} <==>
      && Opens(m.rows) <= Grid(m.start, m.end, d)
      && |MissingSet(m, d)| == m.gapCount && |m.rows| + m.gapCount == m.expectedRows
      && (exists missing :: Enumerates(missing, MissingSet(m, d)) && EvidenceComplete(m, missing))
  {
    var expected := GridSet(m.start, m.end, d);
    var actual := OpenSet(m.rows);
    var missing := Sorted(expected - actual);
    EnumerationSize(missing, MissingSet(m, d));
    failures := FailureIf(!(actual <= expected), OutsideExpectedGrid);
    failures := failures + FailureIf(|missing| != m.gapCount, GapCountMismatch);
    failures := failures + FailureIf(|m.rows| + m.gapCount != m.expectedRows, GapAccountingMismatch);
    var g := m.gap;
    if m.gapCount == 0 {
      failures := failures + FailureIf(g.status != NoGaps, GapEvidenceIncomplete);
    } else {
      failures := failures + FailureIf(g.status != AllConfirmedAbsent, GapEvidenceIncomplete);
    }
    failures := failures + FailureIf(g.expected != m.gapCount || g.checked != m.gapCount, GapEvidenceIncomplete);
    failures := failures + FailureIf(g.absent != m.gapCount || g.present != 0, GapEvidenceIncomplete);
    failures := failures + FailureIf(g.digested != missing, GapEvidenceIncomplete);
    assert failures == {} ==> EvidenceComplete(m, missing);
    if exists other :: Enumerates(other, MissingSet(m, d)) && EvidenceComplete(m, other) {
      var other :| Enumerates(other, MissingSet(m, d)) && EvidenceComplete(m, other);
      EnumerationUnique(other, missing, MissingSet(m, d));
    }
  }

  /** The metadata alone: no duplicates, a semantic range inside an aligned transport range, and its exact length. */
  predicate MetadataSound(m: Manifest, d: nat, x: Context)
    requires 0 < d
  {
    && m.duplicateCount == 0 && m.start <= x.semanticStart < x.semanticEnd <= m.end
    && m.start % d == 0 && m.end % d == 0 && m.start < m.end
    && m.expectedRows == (m.end - m.start) / d
  }

  method InspectMetadata(m: Manifest, d: nat, x: Context) returns (failures: set<Failure>)
    requires 0 < d
    ensures failures == {} <==> MetadataSound(m, d, x)
  {
    failures := FailureIf(m.duplicateCount != 0, RecordedDuplicates);
    failures := failures
      + FailureIf(!(m.start <= x.semanticStart < x.semanticEnd <= m.end), SemanticRangeOutsideTransport);
    failures := failures + FailureIf(m.start % d != 0 || m.end % d != 0, TransportNotAligned);
    failures := failures + FailureIf(m.start >= m.end, TransportEmpty);
    var expected := if m.end >= m.start then (m.end - m.start) / d else -1;
    failures := failures + FailureIf(expected != m.expectedRows, ExpectedRowsInconsistent);
  }

  /** Row count, first and last opening are as recorded, and without gaps they are the transport range's own. */
  predicate EndsSound(m: Manifest, d: nat) {
    && m.rows != [] && m.rowCount == |m.rows|
    && m.first == Some(m.rows[0].open) && m.last == Some(m.rows[|m.rows| - 1].open)
    && (m.gapCount == 0 ==> m.first == Some(m.start) && m.last == Some(m.end - d))
  }

  method InspectEnds(m: Manifest, d: nat) returns (failures: set<Failure>)
    requires m.first.Some? && m.last.Some?
    ensures failures == {} <==> EndsSound(m, d)
  {
    failures := FailureIf(m.rows == [], EmptyDataset);
    failures := failures + FailureIf(|m.rows| != m.rowCount, RowCountMismatch);
    var first := if m.rows == [] then None else Some(m.rows[0].open);
    var last := if m.rows == [] then None else Some(m.rows[|m.rows| - 1].open);
    failures := failures + FailureIf(first != m.first, FirstOpenMismatch);
    failures := failures + FailureIf(last != m.last, LastOpenMismatch);
    if m.gapCount == 0 {
      failures := failures + FailureIf(first != Some(m.start), FirstOpenTransportMismatch);
      failures := failures + FailureIf(last.None? || last.value != m.end - d, LastOpenTransportMismatch);
    }
  }

  /** The gate passes a dataset exactly when it is admissible. */
  method InspectCanonical(m: Manifest, d: nat, x: Context) returns (failures: set<Failure>)
    requires 0 < d
    ensures failures == {} <==> Admissible(m, d, x)
  {
    if m.first.None? || m.last.None? {
      return {MetadataInvalid};
    }
    var metadataFailures := InspectMetadata(m, d, x);
    var rowFailures := InspectRows(m, d, x);
    var endFailures := InspectEnds(m, d);
    var gapFailures := InspectGaps(m, d);
    return metadataFailures + rowFailures + endFailures + gapFailures;
  }

  // ---------- The replay loader ----------

  datatype LoadError =
    | CandleContract
    | RowsDiffer
    | UnverifiedGap
    | NoAdmission
    | OutOfRange
    | InconsistentEvidence
    | BadTransport

  ghost predicate CandleContractHolds(rows: seq<Row>, d: nat)
    requires 0 < d
  {
    forall k :: 0 <= k < |rows| ==> rows[k].open % d == 0 && rows[k].close == rows[k].open + d - 1
  }

  ghost predicate GapFree(rows: seq<Row>, d: nat) {
    forall k :: 0 <= k < |rows| ==> rows[k].open == rows[0].open + k * d
  }

  function ConfirmedOpens(transport: seq<Checked>): seq<nat> {
    seq(|transport|, k requires 0 <= k < |transport| => transport[k].open)
  }

  /** Two lists sort alike exactly when they hold the same items as often. */
  function Bag(xs: seq<nat>): multiset<nat> {
    multiset(xs)
  }

  /** The quality record's own verdict on the gap verification. */
  ghost predicate GapCheckPassed(m: Manifest) {
    m.gap.status == NoGaps || m.gap.status == AllConfirmedAbsent
  }

  ghost predicate GapsLoadable(m: Manifest, d: nat)
    requires 0 < d
  {
    && GapCheckPassed(m)
    && Opens(m.rows) <= Grid(m.start, m.end, d)
    && exists missing ::
         && Enumerates(missing, MissingSet(m, d)) && |missing| == m.gapCount
         && m.gap.status == AllConfirmedAbsent
         && m.gap.expected == m.gap.checked == m.gap.absent == m.gapCount && m.gap.present == 0
         && m.gap.digested == missing && |m.gap.transport| == m.gapCount
         && (forall k :: 0 <= k < |m.gap.transport| ==> m.gap.transport[k].outcome == ConfirmedAbsent)
         && Bag(ConfirmedOpens(m.gap.transport)) == Bag(missing)
  }

  /** The loader's conditions on grid, order, counts and gaps. */
  ghost predicate Loadable(m: Manifest, d: nat, evidenceRows: int)
    requires 0 < d
  {
    && CandleContractHolds(m.rows, d)
    && m.rows != [] && |m.rows| == evidenceRows && StrictlyIncreasing(OpenTimes(m.rows))
    && if m.gapCount == 0 then GapFree(m.rows, d) else GapsLoadable(m, d)
  }

  method CheckOrder(rows: seq<Row>) returns (ordered: bool)
    ensures ordered <==> StrictlyIncreasing(OpenTimes(rows))
  {
    ghost var times := OpenTimes(rows);
    for k := 0 to |rows|
      invariant StrictlyIncreasing(times[..k])
    {
      assert times[..k + 1] == times[..k] + [rows[k].open];
      if k > 0 && rows[k].open <= rows[k - 1].open {
        assert times[k] <= times[k - 1];
        return false;
      }
    }
    assert times[..|rows|] == times;
    return true;
  }

  /** The grid from one opening to another, both included. */
  ghost predicate StepsFrom(first: nat, last: nat, d: nat, grid: seq<nat>) {
    && (forall k :: 0 <= k < |grid| ==> grid[k] == first + k * d)
    && grid != [] && first + |grid| * d - d < last + d <= first + |grid| * d
  }

  method StepsBetween(first: nat, last: nat, d: nat) returns (grid: seq<nat>)
    requires 0 < d && first <= last
    ensures StepsFrom(first, last, d, grid)
  {
    grid := [];
    var t := first;
    while t < last + d
      invariant t == first + |grid| * d && t - d < last + d
      invariant forall k :: 0 <= k < |grid| ==> grid[k] == first + k * d
      invariant t > first ==> grid != []
      decreases last + d - t
    {
      assert (|grid| + 1) * d == |grid| * d + d;
      grid := grid + [t];
      t := t + d;
    }
  }

  /** The openings are that grid exactly when they are equally spaced. */
  lemma ExactlySteps(rows: seq<Row>, d: nat, grid: seq<nat>)
    requires 0 < d && rows != [] && rows[0].open <= rows[|rows| - 1].open
    requires StepsFrom(rows[0].open, rows[|rows| - 1].open, d, grid)
    ensures OpenTimes(rows) == grid <==> GapFree(rows, d)
  {
    if OpenTimes(rows) == grid {
      forall k | 0 <= k < |rows| ensures rows[k].open == rows[0].open + k * d {
        assert OpenTimes(rows)[k] == grid[k];
      }
    }
    if GapFree(rows, d) {
      var n := |rows|;
      assert rows[n - 1].open == rows[0].open + (n - 1) * d && (n - 1) * d == n * d - d;
      SameLength(n, |grid|, d);
    }
  }

  lemma MultipleOfDifference(n: int, m: int, d: nat)
    ensures (n - m) * d == n * d - m * d
  {
  }

  /** Numbers whose multiples lie as close as that are the same. */
  lemma SameLength(n: nat, m: nat, d: nat)
    requires 0 < d && m * d - d < n * d <= m * d
    ensures n == m
  {
    MultipleOfDifference(n, m, d);
    MultipleOfDifference(m, n, d);
    if n > m {
      MulAtLeast(n - m, d);
    } else if n < m {
      MulAtLeast(m - n, d);
    }
  }

  method LoadGapped(m: Manifest, d: nat) returns (r: Result<seq<Row>, LoadError>)
    requires 0 < d
    ensures r == Ok(m.rows) || r.Err?
    ensures r.Ok? <==> GapsLoadable(m, d)
  {
    if m.gap.status != NoGaps && m.gap.status != AllConfirmedAbsent {
      return Err(NoAdmission);
    }
    var expected := GridSet(m.start, m.end, d);
    var actual := OpenSet(m.rows);
    if !(actual <= expected) {
      return Err(OutOfRange);
    }
    var missing := Sorted(expected - actual);
    forall other | Enumerates(other, MissingSet(m, d)) ensures other == missing {
      EnumerationUnique(other, missing, MissingSet(m, d));
    }
    var g := m.gap;
    if |missing| != m.gapCount || g.status != AllConfirmedAbsent || g.expected != m.gapCount || g.checked != m.gapCount
       || g.absent != m.gapCount || g.present != 0 || g.digested != missing {
      return Err(InconsistentEvidence);
    }
    if |g.transport| != m.gapCount {
      return Err(BadTransport);
    }
    var confirmed: seq<nat> := [];
    for k := 0 to |g.transport|
      invariant forall j :: 0 <= j < k ==> g.transport[j].outcome == ConfirmedAbsent
      invariant confirmed == ConfirmedOpens(g.transport)[..k]
    {
      if g.transport[k].outcome != ConfirmedAbsent {
        return Err(BadTransport);
      }
      confirmed := confirmed + [g.transport[k].open];
    }
    assert ConfirmedOpens(g.transport)[..|g.transport|] == ConfirmedOpens(g.transport);
    if Bag(confirmed) != Bag(missing) {
      return Err(BadTransport);
    }
    return Ok(m.rows);
  }

  /** The loader returns the candles exactly when they are loadable. */
  method LoadCanonicalCandles(m: Manifest, d: nat, evidenceRows: int) returns (r: Result<seq<Row>, LoadError>)
    requires 0 < d
    ensures r == Ok(m.rows) || r.Err?
    ensures r.Ok? <==> Loadable(m, d, evidenceRows)
  {
    for k := 0 to |m.rows|
      invariant forall j :: 0 <= j < k ==> m.rows[j].open % d == 0 && m.rows[j].close == m.rows[j].open + d - 1
    {
      if m.rows[k].open % d != 0 || m.rows[k].close != m.rows[k].open + d - 1 {
        return Err(CandleContract);
      }
    }
    var ordered := CheckOrder(m.rows);
    if m.rows == [] || |m.rows| != evidenceRows || !ordered {
      return Err(RowsDiffer);
    }
    if m.gapCount == 0 {
      var grid := StepsBetween(m.rows[0].open, m.rows[|m.rows| - 1].open, d);
      ExactlySteps(m.rows, d, grid);
      if OpenTimes(m.rows) != grid {
        return Err(UnverifiedGap);
      }
      return Ok(m.rows);
    }
    r := LoadGapped(m, d);
  }

  // ---------- Agreement ----------

  lemma {:induction false} SelectedIsCanonical(p: Plan, o: ArchiveObject, file: seq<Row>)
    ensures forall k :: 0 <= k < |Selected(p, o, file)| ==>
      Selected(p, o, file)[k].close == Selected(p, o, file)[k].open + p.D() - 1
  {
    if file != [] {
      SelectedIsCanonical(p, o, file[..|file| - 1]);
    }
  }

  ghost predicate CanonicalCloses(rows: seq<Row>, d: nat) {
    forall k :: 0 <= k < |rows| ==> rows[k].close == rows[k].open + d - 1
  }

  lemma {:induction false} AllSelectedIsCanonical(p: Plan, os: seq<ArchiveObject>, files: seq<seq<Row>>)
    requires |os| == |files|
    ensures CanonicalCloses(AllSelected(p, os, files), p.D())
  {
    if os != [] {
      var n := |os| - 1;
      AllSelectedIsCanonical(p, os[..n], files[..n]);
      SelectedIsCanonical(p, os[n], files[n]);
    }
  }

  lemma GridFromRange(m: Manifest, d: nat)
    requires 0 < d && m.start % d == 0
    ensures Opens(m.rows) <= Grid(m.start, m.end, d) <==>
      forall k :: 0 <= k < |m.rows| ==> m.start <= m.rows[k].open < m.end && m.rows[k].open % d == 0
  {
    forall k | 0 <= k < |m.rows|
      ensures m.rows[k].open in Opens(m.rows)
      ensures m.rows[k].open in Grid(m.start, m.end, d)
        <==> m.start <= m.rows[k].open < m.end && m.rows[k].open % d == 0
    {
      MultipleDifference(m.rows[k].open, m.start, d);
    }
  }

  lemma GapCountsAgree(p: Plan, all: seq<Row>, m: Manifest)
    requires p.Aligned() && Produced(p, all, m)
    ensures |MissingSet(m, p.D())| == m.gapCount && m.rowCount + m.gapCount == m.expectedRows
  {
    var d := p.D();
    AlignedLength(p);
    GridEnumerated(p.start, p.end, d);
    EnumerationSize(GridSteps(p.start, d, (p.end - p.start) / d), Grid(p.start, p.end, d));
    EnumerationSize(m.gap.digested, MissingSet(m, d));
    RowsEnumerate(m.rows);
    EnumerationSize(OpenTimes(m.rows), Opens(m.rows));
  }

  lemma NoGapsIsGrid(p: Plan, all: seq<Row>, m: Manifest)
    requires p.Aligned() && Produced(p, all, m) && m.gapCount == 0
    ensures OpenTimes(m.rows) == GridSteps(p.start, p.D(), (p.end - p.start) / p.D())
  {
    AlignedLength(p);
    GridEnumerated(p.start, p.end, p.D());
    RowsEnumerate(m.rows);
    assert MissingSet(m, p.D()) == {} by {
      EnumerationSize(m.gap.digested, MissingSet(m, p.D()));
    }
    forall t: nat | t in Grid(p.start, p.end, p.D()) ensures t in Opens(m.rows) {
      assert t !in MissingSet(m, p.D());
    }
    assert Opens(m.rows) == Grid(p.start, p.end, p.D());
    EnumerationUnique(OpenTimes(m.rows), GridSteps(p.start, p.D(), (p.end - p.start) / p.D()), Opens(m.rows));
  }

  lemma SteppedRows(rows: seq<Row>, start: nat, d: nat, n: nat)
    requires 0 < n && OpenTimes(rows) == GridSteps(start, d, n)
    ensures GapFree(rows, d) && |rows| == n
    ensures rows[0].open == start && rows[n - 1].open == start + (n - 1) * d
  {
    forall k | 0 <= k < n ensures rows[k].open == start + k * d {
      assert OpenTimes(rows)[k] == GridSteps(start, d, n)[k];
    }
    assert rows[0].open == start + 0 * d;
  }

  lemma NoGapsIsGapFree(p: Plan, all: seq<Row>, m: Manifest)
    requires p.Aligned() && Produced(p, all, m) && m.gapCount == 0
    ensures GapFree(m.rows, p.D())
    ensures m.rows != [] && m.rows[0].open == p.start && m.rows[|m.rows| - 1].open == p.end - p.D()
  {
    var d := p.D();
    var n := (p.end - p.start) / d;
    AlignedLength(p);
    assert p.end - p.start == n * d;
    assert n > 0 && (n - 1) * d == n * d - d;
    NoGapsIsGrid(p, all, m);
    SteppedRows(m.rows, p.start, d, n);
  }

  /**
   A dataset produced from the files of a plan and worth admitting: some rows, no duplicates, gaps confirmed, candles
   closed.
   */
  ghost predicate WorthAdmitting(p: Plan, os: seq<ArchiveObject>, files: seq<seq<Row>>, m: Manifest, x: Context)
    requires |os| == |files|
  {
    && p.Aligned() && Produced(p, AllSelected(p, os, files), m)
    && m.rows != [] && m.duplicateCount == 0
    && (m.gapCount == 0 || m.gap.status == AllConfirmedAbsent)
    && p.start <= x.semanticStart < x.semanticEnd <= p.end
    && forall k :: 0 <= k < |m.rows| ==> m.rows[k].close <= x.retrieved
  }

  lemma ProducedRowsSound(p: Plan, os: seq<ArchiveObject>, files: seq<seq<Row>>, m: Manifest, x: Context)
    requires |os| == |files| && WorthAdmitting(p, os, files, m, x)
    ensures forall k :: 0 <= k < |m.rows| ==> CandleSound(m, p.D(), x, m.rows[k])
  {
    var all := AllSelected(p, os, files);
    AllSelectedIsCanonical(p, os, files);
    GridFromRange(m, p.D());
    forall k | 0 <= k < |m.rows| ensures m.rows[k].close == m.rows[k].open + p.D() - 1 {
      assert Among(all, m.rows[k]);
      var j :| 0 <= j < |all| && all[j] == m.rows[k];
    }
  }

  lemma ProducedEndsSound(p: Plan, all: seq<Row>, m: Manifest)
    requires p.Aligned() && Produced(p, all, m) && m.rows != []
    ensures EndsSound(m, p.D())
  {
    if m.gapCount == 0 {
      NoGapsIsGapFree(p, all, m);
    }
  }

  lemma ProducedEvidence(p: Plan, all: seq<Row>, m: Manifest)
    requires Produced(p, all, m) && (m.gapCount == 0 || m.gap.status == AllConfirmedAbsent)
    ensures exists missing :: Enumerates(missing, MissingSet(m, p.D())) && EvidenceComplete(m, missing)
  {
    assert Enumerates(m.gap.digested, MissingSet(m, p.D())) && EvidenceComplete(m, m.gap.digested);
  }

  /** The gate agrees with the producer. */
  lemma GateAcceptsProduced(p: Plan, os: seq<ArchiveObject>, files: seq<seq<Row>>, m: Manifest, x: Context)
    requires |os| == |files| && WorthAdmitting(p, os, files, m, x)
    ensures Admissible(m, p.D(), x)
  {
    var all := AllSelected(p, os, files);
    ProducedRowsSound(p, os, files, m, x);
    GapCountsAgree(p, all, m);
    ProducedEndsSound(p, all, m);
    ProducedEvidence(p, all, m);
  }

  /** The loader agrees with the producer and with the gate. */
  lemma LoaderAcceptsProduced(p: Plan, os: seq<ArchiveObject>, files: seq<seq<Row>>, m: Manifest, x: Context)
    requires |os| == |files| && WorthAdmitting(p, os, files, m, x)
    ensures Loadable(m, p.D(), m.rowCount)
  {
    ProducedRowsSound(p, os, files, m, x);
    if m.gapCount == 0 {
      NoGapsIsGapFree(p, AllSelected(p, os, files), m);
    } else {
      assert ConfirmedOpens(m.gap.transport) == m.gap.digested;
    }
  }

  lemma NothingMissingIsGrid(m: Manifest, d: nat)
    requires 0 < d && m.start <= m.end && m.start % d == 0 && m.end % d == 0
    requires StrictlyIncreasing(OpenTimes(m.rows)) && Opens(m.rows) <= Grid(m.start, m.end, d)
    requires MissingSet(m, d) == {}
    ensures OpenTimes(m.rows) == GridSteps(m.start, d, (m.end - m.start) / d)
  {
    MultipleDifference(m.end, m.start, d);
    GridEnumerated(m.start, m.end, d);
    RowsEnumerate(m.rows);
    forall t: nat | t in Grid(m.start, m.end, d) ensures t in Opens(m.rows) {
      assert t !in MissingSet(m, d);
    }
    EnumerationUnique(OpenTimes(m.rows), GridSteps(m.start, d, (m.end - m.start) / d), Opens(m.rows));
  }

  /**
   A pass means what it should: strictly increasing grid openings whose complement is exactly the digested gap list.
   */
  lemma PassMeansExactGaps(m: Manifest, d: nat, x: Context)
    requires 0 < d && Admissible(m, d, x)
    ensures StrictlyIncreasing(OpenTimes(m.rows)) && Opens(m.rows) <= Grid(m.start, m.end, d)
    ensures Enumerates(m.gap.digested, Grid(m.start, m.end, d) - Opens(m.rows))
    ensures |m.gap.digested| == m.gapCount == m.gap.expected == m.gap.checked == m.gap.absent && m.gap.present == 0
    ensures m.gap.status == if m.gapCount == 0 then NoGaps else AllConfirmedAbsent
    ensures m.gapCount == 0 ==> OpenTimes(m.rows) == GridSteps(m.start, d, (m.end - m.start) / d)
  {
    var missing :| Enumerates(missing, MissingSet(m, d)) && EvidenceComplete(m, missing);
    EnumerationSize(missing, MissingSet(m, d));
    if m.gapCount == 0 {
      NothingMissingIsGrid(m, d);
    }
  }

  /**
   From the exchange to the gate: if an acquired dataset passes, REST has confirmed absent every grid opening that no
   acquired row has, and every row of the dataset is one acquired.
   */
  lemma PassMeansConfirmedAbsent(p: Plan, all: seq<Row>, rest: Option<Oracle>, m: Manifest, x: Context, t: nat)
    requires Produced(p, all, m) && Admissible(m, p.D(), x)
    requires m.gap.status == AllConfirmedAbsent <==> m.gapCount > 0 && AllAbsent(rest, m.gap.digested)
    requires p.start <= t < p.end && (t - p.start) % p.D() == 0
    ensures (exists k :: 0 <= k < |m.rows| && m.rows[k].open == t && Among(all, m.rows[k]))
         || (rest.Some? && SaysAbsent(rest.value, t))
  {
    PassMeansExactGaps(m, p.D(), x);
    assert t in Grid(m.start, m.end, p.D());
    if t in Opens(m.rows) {
      var k :| 0 <= k < |m.rows| && m.rows[k].open == t;
      assert Among(all, m.rows[k]);
    } else {
      assert t in m.gap.digested;
    }
  }

  /** What the loader lets through: neighbours adjoin, or each opening left out is digested and recorded absent. */
  lemma LoadedMeansNoHole(m: Manifest, d: nat, evidenceRows: int, k: nat, t: nat)
    requires 0 < d && Loadable(m, d, evidenceRows) && k + 1 < |m.rows|
    requires m.gapCount > 0 ==> m.start <= m.rows[0].open
    requires m.gapCount > 0 ==> m.start <= t < m.end && (t - m.start) % d == 0
    ensures m.gapCount == 0 ==> m.rows[k + 1].open == m.rows[k].open + d
    ensures m.gapCount > 0 ==>
      || t in Opens(m.rows)
      || (t in m.gap.digested && Checked(t, ConfirmedAbsent) in m.gap.transport)
  {
    if m.gapCount == 0 {
      assert m.rows[k].open == m.rows[0].open + k * d && m.rows[k + 1].open == m.rows[0].open + (k + 1) * d;
      assert (k + 1) * d == k * d + d;
    } else if t !in Opens(m.rows) {
      assert t in Grid(m.start, m.end, d);
      assert t in m.gap.digested;
      assert t in Bag(m.gap.digested);
      assert t in Bag(ConfirmedOpens(m.gap.transport));
      var j :| 0 <= j < |m.gap.transport| && ConfirmedOpens(m.gap.transport)[j] == t;
    }
  }
}
