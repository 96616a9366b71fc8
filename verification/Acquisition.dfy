/**
 Acquisition of one dataset: archive rows are selected and normalized, merged by
 open time, and every missing grid opening is put to the exchange's REST service.
 */
module Acquisition {
  import opened Basics
  import opened Calendars
  import opened ArchivePlan
  import opened Divisibility

  /** A candle row: its open and close instants and the rest of its fields. */
  datatype Row = Row(open: nat, close: int, payload: int)

  datatype AcquisitionError =
    | EmptyTransport
    | OffGrid
    | ConflictingDuplicate
    | OutOfRangeCandles
    | UnexpectedRestShape
    | UnexpectedRestOpen
    | RestMovedBackward

  /** The dataset being acquired. */
  datatype Plan = Plan(symbol: Symbol, interval: Interval, start: nat, end: nat)
  {
    function D(): (d: nat)
      ensures 0 < d && DAY % d == 0
    {
      Duration(interval)
    }

    /** The transport range is nonempty and grid aligned, as flooring and ceiling the semantic range makes it. */
    predicate Aligned() {
      start < end && start % D() == 0 && end % D() == 0
    }
  }

  function FloorTo(value: int, step: nat): int
    requires 0 < step
  {
    value / step * step
  }

  function CeilTo(value: int, step: nat): int
    requires 0 < step
  {
    (value + step - 1) / step * step
  }

  /** Flooring the start and ceiling the end of a nonempty range gives the tightest aligned range around it. */
  lemma TransportRangeEncloses(start: int, end: int, d: nat)
    requires 0 < d && start < end
    ensures FloorTo(start, d) <= start < end <= CeilTo(end, d)
    ensures start - FloorTo(start, d) < d && CeilTo(end, d) - end < d
    ensures FloorTo(start, d) % d == 0 && CeilTo(end, d) % d == 0
  {
    DivisionBounds(start, d);
    DivisionBounds(end + d - 1, d);
  }

  // ---------- Row selection ----------

  predicate Skipped(p: Plan, o: ArchiveObject, open: nat) {
    o.Monthly? && OverrideApplies(p.symbol, p.interval, open / DAY)
  }

  predicate Kept(p: Plan, o: ArchiveObject, open: nat) {
    !Skipped(p, o, open) && p.start <= open < p.end
  }

  function Canonical(p: Plan, r: Row): Row {
    r.(close := r.open + p.D() - 1)
  }

  function Selected(p: Plan, o: ArchiveObject, file: seq<Row>): seq<Row> {
    if file == [] then []
    else
      var rest, r := Selected(p, o, file[..|file| - 1]), file[|file| - 1];
      if Kept(p, o, r.open) then rest + [Canonical(p, r)] else rest
  }

  /** Selected rows whose source close was off its boundary, to be verified one by one. */
  function Anomalies(p: Plan, o: ArchiveObject, file: seq<Row>): seq<Row> {
    if file == [] then []
    else
      var rest, r := Anomalies(p, o, file[..|file| - 1]), file[|file| - 1];
      if Kept(p, o, r.open) && r != Canonical(p, r) then rest + [Canonical(p, r)] else rest
  }

  ghost predicate OnGrid(p: Plan, file: seq<Row>) {
    forall k :: 0 <= k < |file| ==> file[k].open % p.D() == 0
  }

  /** In the range, and no day's replacement file stands in for it. */
  ghost predicate InRange(p: Plan, o: ArchiveObject, row: Row) {
    p.start <= row.open < p.end && !(o.Monthly? && OverrideApplies(p.symbol, p.interval, row.open / 86_400_000))
  }

  ghost predicate OffBoundary(p: Plan, row: Row) {
    row.close != row.open + p.D() - 1
  }

  /** Every row in range or, of those, the ones that were off their boundary. */
  ghost predicate Takes(p: Plan, o: ArchiveObject, row: Row, anomalous: bool) {
    InRange(p, o, row) && (anomalous ==> OffBoundary(p, row))
  }

  /** The rows at positions ix of the file, in order, each closing one millisecond before its next opening. */
  ghost predicate PickedFrom(file: seq<Row>, d: nat, out: seq<Row>, ix: seq<nat>) {
    && |ix| == |out| && (forall a, b :: 0 <= a < b < |ix| ==> ix[a] < ix[b])
    && forall k :: 0 <= k < |ix| ==>
      && ix[k] < |file| && out[k].open == file[ix[k]].open && out[k].payload == file[ix[k]].payload
      && out[k].close == out[k].open + d - 1
  }

  /** The rows picked are those marked. */
  ghost predicate PickedWhere(file: seq<Row>, d: nat, out: seq<Row>, ix: seq<nat>, marks: seq<bool>) {
    PickedFrom(file, d, out, ix) && |marks| == |file| && forall i: nat :: i < |file| ==> (i in ix <==> marks[i])
  }

  lemma PickedNext(file: seq<Row>, d: nat, out: seq<Row>, ix: seq<nat>, marks: seq<bool>, row: Row, mark: bool)
    returns (longer: seq<nat>)
    requires PickedWhere(file, d, out, ix, marks)
    ensures PickedWhere(file + [row], d, if mark then out + [row.(close := row.open + d - 1)] else out, longer,
                        marks + [mark])
  {
    if mark {
      PickedOneMore(file, d, out, ix, marks, row);
      return ix + [|file|];
    }
    PickedNoMore(file, d, out, ix, marks, row);
    return ix;
  }

  lemma PickedNoMore(file: seq<Row>, d: nat, out: seq<Row>, ix: seq<nat>, marks: seq<bool>, row: Row)
    requires PickedWhere(file, d, out, ix, marks)
    ensures PickedWhere(file + [row], d, out, ix, marks + [false])
  {
    assert PickedFrom(file + [row], d, out, ix);
    assert |file| !in ix;
  }

  lemma PickedOneMore(file: seq<Row>, d: nat, out: seq<Row>, ix: seq<nat>, marks: seq<bool>, row: Row)
    requires PickedWhere(file, d, out, ix, marks)
    ensures PickedWhere(file + [row], d, out + [row.(close := row.open + d - 1)], ix + [|file|], marks + [true])
  {
    var longer := ix + [|file|];
    assert longer[|ix|] == |file|;
    forall i: nat | i < |file| ensures i in longer <==> marks[i] {
      assert i in longer <==> i in ix;
    }
  }

  lemma KeptMeansInRange(p: Plan, o: ArchiveObject, row: Row)
    ensures Kept(p, o, row.open) == InRange(p, o, row)
    ensures (row != Canonical(p, row)) == OffBoundary(p, row)
  {
  }

  function Marks(p: Plan, o: ArchiveObject, file: seq<Row>): (marks: seq<bool>)
    ensures |marks| == |file|
  {
    if file == [] then []
    else Marks(p, o, file[..|file| - 1]) + [Kept(p, o, file[|file| - 1].open)]
  }

  function OddMarks(p: Plan, o: ArchiveObject, file: seq<Row>): (marks: seq<bool>)
    ensures |marks| == |file|
  {
    if file == [] then []
    else
      var row := file[|file| - 1];
      OddMarks(p, o, file[..|file| - 1]) + [Kept(p, o, row.open) && row != Canonical(p, row)]
  }

  lemma {:induction false} MarksMean(p: Plan, o: ArchiveObject, file: seq<Row>, i: nat)
    requires i < |file|
    ensures Marks(p, o, file)[i] == Takes(p, o, file[i], false)
    ensures OddMarks(p, o, file)[i] == Takes(p, o, file[i], true)
  {
    if i < |file| - 1 {
      MarksMean(p, o, file[..|file| - 1], i);
    } else {
      KeptMeansInRange(p, o, file[i]);
    }
  }

  lemma SelectedUnfolds(p: Plan, o: ArchiveObject, file: seq<Row>, row: Row)
    ensures Selected(p, o, file + [row])
         == if Kept(p, o, row.open) then Selected(p, o, file) + [Canonical(p, row)] else Selected(p, o, file)
    ensures Marks(p, o, file + [row]) == Marks(p, o, file) + [Kept(p, o, row.open)]
  {
    assert (file + [row])[..|file|] == file;
  }

  lemma AnomaliesUnfold(p: Plan, o: ArchiveObject, file: seq<Row>, row: Row)
    ensures var odd := Kept(p, o, row.open) && row != Canonical(p, row);
      && Anomalies(p, o, file + [row])
        == (if odd then Anomalies(p, o, file) + [Canonical(p, row)] else Anomalies(p, o, file))
      && OddMarks(p, o, file + [row]) == OddMarks(p, o, file) + [odd]
  {
    assert (file + [row])[..|file|] == file;
  }

  lemma SelectedNext(p: Plan, o: ArchiveObject, file: seq<Row>, row: Row, kept: seq<nat>) returns (longer: seq<nat>)
    requires PickedWhere(file, p.D(), Selected(p, o, file), kept, Marks(p, o, file))
    ensures PickedWhere(file + [row], p.D(), Selected(p, o, file + [row]), longer, Marks(p, o, file + [row]))
  {
    var keep := Kept(p, o, row.open);
    longer := PickedNext(file, p.D(), Selected(p, o, file), kept, Marks(p, o, file), row, keep);
    SelectedUnfolds(p, o, file, row);
  }

  lemma AnomaliesNext(p: Plan, o: ArchiveObject, file: seq<Row>, row: Row, odd: seq<nat>) returns (longer: seq<nat>)
    requires PickedWhere(file, p.D(), Anomalies(p, o, file), odd, OddMarks(p, o, file))
    ensures PickedWhere(file + [row], p.D(), Anomalies(p, o, file + [row]), longer, OddMarks(p, o, file + [row]))
  {
    var keep := Kept(p, o, row.open) && row != Canonical(p, row);
    longer := PickedNext(file, p.D(), Anomalies(p, o, file), odd, OddMarks(p, o, file), row, keep);
    AnomaliesUnfold(p, o, file, row);
  }

  lemma {:induction false} RowsWhere(p: Plan, o: ArchiveObject, file: seq<Row>) returns (kept: seq<nat>, odd: seq<nat>)
    ensures PickedWhere(file, p.D(), Selected(p, o, file), kept, Marks(p, o, file))
    ensures PickedWhere(file, p.D(), Anomalies(p, o, file), odd, OddMarks(p, o, file))
  {
    if file == [] {
      return [], [];
    }
    var shorter, row := file[..|file| - 1], file[|file| - 1];
    assert shorter + [row] == file;
    kept, odd := RowsWhere(p, o, shorter);
    kept := SelectedNext(p, o, shorter, row, kept);
    odd := AnomaliesNext(p, o, shorter, row, odd);
  }

  /** Of a file, exactly the rows in range are selected, in order and on their boundary; the anomalies were off it. */
  lemma SelectedExactly(p: Plan, o: ArchiveObject, file: seq<Row>) returns (kept: seq<nat>, odd: seq<nat>)
    ensures PickedFrom(file, p.D(), Selected(p, o, file), kept) && PickedFrom(file, p.D(), Anomalies(p, o, file), odd)
    ensures forall i: nat :: i < |file| ==> (i in kept <==> Takes(p, o, file[i], false))
    ensures forall i: nat :: i < |file| ==> (i in odd <==> Takes(p, o, file[i], true))
  {
    kept, odd := RowsWhere(p, o, file);
    forall i: nat | i < |file|
      ensures i in kept <==> Takes(p, o, file[i], false)
      ensures i in odd <==> Takes(p, o, file[i], true)
    {
      MarksMean(p, o, file, i);
    }
  }

  method NormalizeArchive(p: Plan, o: ArchiveObject, file: seq<Row>)
    returns (r: Result<seq<Row>, AcquisitionError>, anomalies: seq<Row>)
    ensures r.Ok? <==> OnGrid(p, file)
    ensures r.Ok? ==> r.value == Selected(p, o, file) && anomalies == Anomalies(p, o, file)
  {
    var selected: seq<Row> := [];
    anomalies := [];
    for k := 0 to |file|
      invariant forall j :: 0 <= j < k ==> file[j].open % p.D() == 0
      invariant selected == Selected(p, o, file[..k]) && anomalies == Anomalies(p, o, file[..k])
    {
      assert file[..k + 1][..k] == file[..k];
      var row := file[k];
      if row.open % p.D() != 0 {
        return Err(OffGrid), anomalies;
      }
      var close := row.open + p.D() - 1;
      if !(o.Monthly? && OverrideApplies(p.symbol, p.interval, row.open / DAY)) {
        if p.start <= row.open < p.end {
          var canonical := row.(close := close);
          selected := selected + [canonical];
          if row.close != close {
            anomalies := anomalies + [canonical];
          }
        }
      }
    }
    assert file[..|file|] == file;
    return Ok(selected), anomalies;
  }

  // ---------- Merging ----------

  function OpenTimes(rows: seq<Row>): (ts: seq<nat>)
    ensures |ts| == |rows| && forall k :: 0 <= k < |ts| ==> ts[k] == rows[k].open
  {
    seq(|rows|, k requires 0 <= k < |rows| => rows[k].open)
  }

  ghost function Opens(rows: seq<Row>): set<nat> {
    set k | 0 <= k < |rows| :: rows[k].open
  }

  /** Rows that share an open time are the same row. */
  ghost predicate Consistent(rows: seq<Row>) {
    forall i, j :: 0 <= i < j < |rows| && rows[i].open == rows[j].open ==> rows[i] == rows[j]
  }

  /** The dictionary holds exactly the rows, by open time. */
  ghost predicate Indexes(unique: map<nat, Row>, rows: seq<Row>) {
    && unique.Keys == Opens(rows)
    && forall k :: 0 <= k < |rows| ==> rows[k].open in unique && unique[rows[k].open] == rows[k]
  }

  lemma IndexesStep(unique: map<nat, Row>, rows: seq<Row>, row: Row)
    requires Indexes(unique, rows) && (row.open in unique ==> unique[row.open] == row)
    ensures Indexes(unique[row.open := row], rows + [row])
  {
    OpensAppend(rows, row);
    forall k | 0 <= k < |rows| ensures rows[k].open in unique {
      assert rows[k].open in Opens(rows);
    }
  }

  lemma UpdateSize(unique: map<nat, Row>, row: Row)
    requires row.open in unique ==> unique[row.open] == row
    ensures row.open in unique ==> unique[row.open := row] == unique
    ensures row.open !in unique ==> |unique[row.open := row]| == |unique| + 1
  {
  }

  lemma IndexedIsConsistent(unique: map<nat, Row>, rows: seq<Row>)
    requires Indexes(unique, rows)
    ensures Consistent(rows)
  {
  }

  /** The dictionary keeps one row per open time and counts the repeats; differing repeats are refused. */
  method Merge(rows: seq<Row>) returns (r: Result<map<nat, Row>, AcquisitionError>, duplicates: nat)
    ensures r.Ok? <==> Consistent(rows)
    ensures r.Ok? ==> Indexes(r.value, rows) && |r.value| + duplicates == |rows|
  {
    var unique: map<nat, Row> := map[];
    duplicates := 0;
    for k := 0 to |rows|
      invariant Indexes(unique, rows[..k]) && |unique| + duplicates == k
    {
      var row := rows[k];
      assert rows[..k + 1] == rows[..k] + [row];
      if row.open in unique && unique[row.open] != row {
        FoundConflict(unique, rows, k);
        return Err(ConflictingDuplicate), duplicates;
      }
      IndexesStep(unique, rows[..k], row);
      UpdateSize(unique, row);
      if row.open !in unique {
        unique := unique[row.open := row];
      } else {
        duplicates := duplicates + 1;
      }
    }
    assert rows[..|rows|] == rows;
    IndexedIsConsistent(unique, rows);
    return Ok(unique), duplicates;
  }

  lemma FoundConflict(unique: map<nat, Row>, rows: seq<Row>, k: nat)
    requires k < |rows| && Indexes(unique, rows[..k]) && rows[k].open in unique && unique[rows[k].open] != rows[k]
    ensures !Consistent(rows)
  {
    var j :| 0 <= j < k && rows[..k][j].open == rows[k].open;
    assert rows[j].open == rows[k].open && rows[j] != rows[k];
  }

  lemma OpensAppend(rows: seq<Row>, row: Row)
    ensures Opens(rows + [row]) == Opens(rows) + {row.open}
  {
    var longer := rows + [row];
    forall t ensures t in Opens(longer) <==> t in Opens(rows) + {row.open} {
      if t in Opens(rows) {
        var k :| 0 <= k < |rows| && rows[k].open == t;
        assert longer[k].open == t;
      }
      if t == row.open {
        assert longer[|rows|].open == t;
      }
    }
  }

  // ---------- Gap verification ----------

  datatype Outcome = ConfirmedAbsent | PresentConflict

  /** What one REST query returned: nothing, one candle, or something else. */
  datatype Response = Nothing | One(open: int) | Malformed

  /** The REST service: an exact query and a start-only query for each opening. */
  datatype Oracle = Oracle(exact: nat -> Response, startOnly: nat -> Response)

  /** The verdict on one missing opening. */
  function Verdict(rest: Oracle, t: nat): Result<Outcome, AcquisitionError> {
    match rest.exact(t)
    case Malformed => Err(UnexpectedRestShape)
    case One(open) => if open != t then Err(UnexpectedRestOpen) else Ok(PresentConflict)
    case Nothing =>
      match rest.startOnly(t)
      case Nothing => Ok(ConfirmedAbsent)
      case Malformed => Err(UnexpectedRestShape)
      case One(open) =>
        if open > t then Ok(ConfirmedAbsent) else if open == t then Ok(PresentConflict) else Err(RestMovedBackward)
  }

  /** REST knows no candle of that opening, and from it on none or only a later one. */
  ghost predicate SaysAbsent(rest: Oracle, t: nat) {
    && rest.exact(t) == Nothing
    && (rest.startOnly(t) == Nothing || exists later :: rest.startOnly(t) == One(later) && t < later)
  }

  ghost predicate SaysPresent(rest: Oracle, t: nat) {
    rest.exact(t) == One(t) || (rest.exact(t) == Nothing && rest.startOnly(t) == One(t))
  }

  /** The verdict, answer by answer. */
  lemma VerdictExactly(rest: Oracle, t: nat)
    ensures Verdict(rest, t) == Ok(ConfirmedAbsent) <==> SaysAbsent(rest, t)
    ensures Verdict(rest, t) == Ok(PresentConflict) <==> SaysPresent(rest, t)
    ensures Verdict(rest, t) == Err(UnexpectedRestShape) <==>
      rest.exact(t) == Malformed || (rest.exact(t) == Nothing && rest.startOnly(t) == Malformed)
    ensures Verdict(rest, t) == Err(UnexpectedRestOpen) <==> exists other :: rest.exact(t) == One(other) && other != t
    ensures Verdict(rest, t) == Err(RestMovedBackward) <==>
      rest.exact(t) == Nothing && exists earlier :: rest.startOnly(t) == One(earlier) && earlier < t
    ensures Verdict(rest, t).Err? ==>
      Verdict(rest, t).error in {UnexpectedRestShape, UnexpectedRestOpen, RestMovedBackward}
  {
  }

  datatype GapStatus = NoGaps | NotRun | AllConfirmedAbsent | HasPresentConflict

  datatype Checked = Checked(open: nat, outcome: Outcome)

  /** The recorded evidence; the digest of the missing openings is kept as the list it digests. */
  datatype GapVerification = GapVerification(
    status: GapStatus,
    expected: nat,
    checked: nat,
    absent: nat,
    present: nat,
    digested: seq<nat>,
    transport: seq<Checked>)

  function Outcomes(transport: seq<Checked>, o: Outcome): nat {
    if transport == [] then 0
    else Outcomes(transport[..|transport| - 1], o) + if transport[|transport| - 1].outcome == o then 1 else 0
  }

  method VerifyRestGapAbsence(targets: seq<nat>, rest: Oracle) returns (r: Result<GapVerification, AcquisitionError>)
    ensures r.Ok? <==> forall k :: 0 <= k < |targets| ==> Verdict(rest, targets[k]).Ok?
    ensures r.Ok? ==> var g := r.value;
      && |g.transport| == |targets|
      && (forall k :: 0 <= k < |targets| ==> g.transport[k] == Checked(targets[k], Verdict(rest, targets[k]).value))
      && (forall k :: 0 <= k < |targets| ==>
            && (g.transport[k].outcome == ConfirmedAbsent <==> SaysAbsent(rest, targets[k]))
            && (g.transport[k].outcome == PresentConflict <==> SaysPresent(rest, targets[k])))
      && g.expected == g.checked == |targets| && g.digested == targets
      && g.absent + g.present == |targets| && g.absent == Outcomes(g.transport, ConfirmedAbsent)
      && g.status == (if g.absent == |targets| then AllConfirmedAbsent else HasPresentConflict)
  {
    var transport: seq<Checked> := [];
    var absent, present := 0, 0;
    for k := 0 to |targets|
      invariant |transport| == k && absent + present == k && absent == Outcomes(transport, ConfirmedAbsent)
      invariant forall j :: 0 <= j < k ==>
        Verdict(rest, targets[j]).Ok? && transport[j] == Checked(targets[j], Verdict(rest, targets[j]).value)
    {
      var target := targets[k];
      var body := rest.exact(target);
      var outcome: Outcome;
      if body == Nothing {
        var fallback := rest.startOnly(target);
        if fallback == Nothing {
          outcome := ConfirmedAbsent;
        } else if fallback == Malformed {
          return Err(UnexpectedRestShape);
        } else if fallback.open > target {
          outcome := ConfirmedAbsent;
        } else if fallback.open == target {
          outcome := PresentConflict;
        } else {
          return Err(RestMovedBackward);
        }
      } else if body == Malformed {
        return Err(UnexpectedRestShape);
      } else if body.open != target {
        return Err(UnexpectedRestOpen);
      } else {
        outcome := PresentConflict;
      }
      assert (transport + [Checked(target, outcome)])[..k] == transport;
      transport := transport + [Checked(target, outcome)];
      if outcome == ConfirmedAbsent {
        absent := absent + 1;
      } else {
        present := present + 1;
      }
    }
    forall k | 0 <= k < |targets|
      ensures transport[k].outcome == ConfirmedAbsent <==> SaysAbsent(rest, targets[k])
      ensures transport[k].outcome == PresentConflict <==> SaysPresent(rest, targets[k])
    {
      VerdictExactly(rest, targets[k]);
    }
    var status := if absent == |targets| && present == 0 then AllConfirmedAbsent else HasPresentConflict;
    return Ok(GapVerification(status, |targets|, |transport|, absent, present, targets, transport));
  }

  // ---------- The manifest ----------

  datatype Manifest = Manifest(
    rows: seq<Row>,
    rowCount: int,
    expectedRows: int,
    first: Option<nat>,
    last: Option<nat>,
    gapCount: nat,
    duplicateCount: nat,
    start: nat,
    end: nat,
    gap: GapVerification)

  /** A whole number of steps from the start. */
  predicate OnStep(start: int, d: nat, t: int)
    requires 0 < d
  {
    (t - start) % d == 0
  }

  ghost function Grid(start: nat, end: nat, d: nat): set<nat>
    requires 0 < d
  {
    set t: nat | start <= t < end && OnStep(start, d, t)
  }

  method GridSet(start: nat, end: nat, d: nat) returns (s: set<nat>)
    requires 0 < d
    ensures s == Grid(start, end, d)
  {
    s := set t: nat | start <= t < end && OnStep(start, d, t);
  }

  ghost function MissingSet(m: Manifest, d: nat): set<nat>
    requires 0 < d
  {
    Grid(m.start, m.end, d) - Opens(m.rows)
  }

  /** Rows of a dictionary laid out by open time. */
  ghost predicate LaidOut(rows: seq<Row>, unique: map<nat, Row>) {
    && Enumerates(OpenTimes(rows), unique.Keys)
    && forall k :: 0 <= k < |rows| ==> rows[k].open in unique && rows[k] == unique[rows[k].open]
  }

  ghost predicate Among(all: seq<Row>, row: Row) {
    exists j :: 0 <= j < |all| && all[j] == row
  }

  /** The manifest's rows are those merged, in order, with exact counts and ends. */
  ghost predicate RowsProduced(p: Plan, all: seq<Row>, m: Manifest) {
    && StrictlyIncreasing(OpenTimes(m.rows))
    && Opens(m.rows) == Opens(all) && Opens(all) <= Grid(p.start, p.end, p.D())
    && (forall k :: 0 <= k < |m.rows| ==> Among(all, m.rows[k]))
    && m.rowCount == |m.rows| && m.rowCount + m.duplicateCount == |all|
    && m.expectedRows == (p.end - p.start) / p.D()
    && m.first == (if m.rows == [] then None else Some(m.rows[0].open))
    && m.last == (if m.rows == [] then None else Some(m.rows[|m.rows| - 1].open))
    && m.start == p.start && m.end == p.end
  }

  /** The manifest's gap evidence is about exactly the missing openings. */
  ghost predicate GapsProduced(p: Plan, m: Manifest) {
    && Enumerates(m.gap.digested, MissingSet(m, p.D()))
    && m.gapCount == |m.gap.digested| == m.gap.expected
    && (m.gap.status == NoGaps <==> m.gapCount == 0)
    && (m.gap.status == NoGaps ==> m.gap.checked == m.gap.absent == m.gap.present == 0 && m.gap.transport == [])
    && (m.gap.status == AllConfirmedAbsent ==>
          && m.gap.checked == m.gap.absent == |m.gap.transport| == m.gapCount && m.gap.present == 0
          && forall k :: 0 <= k < m.gapCount ==> m.gap.transport[k] == Checked(m.gap.digested[k], ConfirmedAbsent))
  }

  /** What the producer guarantees of the manifest it writes. */
  ghost predicate Produced(p: Plan, all: seq<Row>, m: Manifest) {
    RowsProduced(p, all, m) && GapsProduced(p, m)
  }

  /** Dictionary values in key order. */
  method InOrder(unique: map<nat, Row>) returns (rows: seq<Row>)
    requires forall t :: t in unique ==> unique[t].open == t
    ensures LaidOut(rows, unique)
  {
    var keys := Sorted(unique.Keys);
    assert forall k :: 0 <= k < |keys| ==> keys[k] in keys && keys[k] in unique;
    rows := seq(|keys|, k requires 0 <= k < |keys| => unique[keys[k]]);
    assert OpenTimes(rows) == keys;
  }

  lemma {:induction false} AllAbsentCount(transport: seq<Checked>)
    ensures Outcomes(transport, ConfirmedAbsent) <= |transport|
    ensures Outcomes(transport, ConfirmedAbsent) == |transport| <==>
      forall k :: 0 <= k < |transport| ==> transport[k].outcome == ConfirmedAbsent
  {
    if transport != [] {
      AllAbsentCount(transport[..|transport| - 1]);
    }
  }

  /** REST is at hand and confirms every one of these openings absent. */
  ghost predicate AllAbsent(rest: Option<Oracle>, missing: seq<nat>) {
    rest.Some? && forall k :: 0 <= k < |missing| ==> SaysAbsent(rest.value, missing[k])
  }

  /** Look into the gaps, if there are any and a REST service is at hand. */
  method VerifyGaps(missing: seq<nat>, rest: Option<Oracle>) returns (r: Result<GapVerification, AcquisitionError>)
    ensures r.Ok? ==> GapsLookedInto(missing, r.value)
    ensures r.Ok? <==>
      missing == [] || rest.None? || forall k :: 0 <= k < |missing| ==> Verdict(rest.value, missing[k]).Ok?
    ensures r.Ok? ==> (r.value.status == AllConfirmedAbsent <==> missing != [] && AllAbsent(rest, missing))
  {
    if missing == [] {
      return Ok(GapVerification(NoGaps, 0, 0, 0, 0, [], []));
    }
    if rest.None? {
      return Ok(GapVerification(NotRun, |missing|, 0, 0, 0, missing, []));
    }
    r := VerifyRestGapAbsence(missing, rest.value);
    if r.Ok? {
      AllAbsentCount(r.value.transport);
    }
  }

  function ManifestOf(p: Plan, rows: seq<Row>, missing: seq<nat>, duplicates: nat, gap: GapVerification): Manifest {
    Manifest(rows, |rows|, (p.end - p.start) / p.D(),
             if rows == [] then None else Some(rows[0].open),
             if rows == [] then None else Some(rows[|rows| - 1].open),
             |missing|, duplicates, p.start, p.end, gap)
  }

  /** The evidence about the missing openings is complete for its status. */
  ghost predicate GapsLookedInto(missing: seq<nat>, g: GapVerification) {
    && g.digested == missing && g.expected == |missing|
    && (g.status == NoGaps <==> missing == [])
    && (g.status == NoGaps ==> g.checked == g.absent == g.present == 0 && g.transport == [])
    && (g.status == AllConfirmedAbsent ==>
          && g.checked == g.absent == |g.transport| == |missing| && g.present == 0
          && forall k :: 0 <= k < |missing| ==> g.transport[k] == Checked(missing[k], ConfirmedAbsent))
  }

  lemma LayoutRowsProduced(
    p: Plan, all: seq<Row>, unique: map<nat, Row>, rows: seq<Row>, missing: seq<nat>, duplicates: nat,
    gap: GapVerification)
    requires Indexes(unique, all) && |unique| + duplicates == |all| && LaidOut(rows, unique)
    requires unique.Keys <= Grid(p.start, p.end, p.D())
    ensures RowsProduced(p, all, ManifestOf(p, rows, missing, duplicates, gap))
  {
    EnumerationSize(OpenTimes(rows), unique.Keys);
    OpensOfLayout(rows, unique);
    LaidOutFrom(all, unique, rows);
    assert ManifestOf(p, rows, missing, duplicates, gap).rows == rows;
  }

  lemma LayoutIsProduced(
    p: Plan, all: seq<Row>, unique: map<nat, Row>, rows: seq<Row>, missing: seq<nat>, duplicates: nat,
    gap: GapVerification)
    requires Indexes(unique, all) && |unique| + duplicates == |all| && LaidOut(rows, unique)
    requires unique.Keys <= Grid(p.start, p.end, p.D())
    requires Enumerates(missing, Grid(p.start, p.end, p.D()) - unique.Keys) && GapsLookedInto(missing, gap)
    ensures Produced(p, all, ManifestOf(p, rows, missing, duplicates, gap))
  {
    LayoutRowsProduced(p, all, unique, rows, missing, duplicates, gap);
    OpensOfLayout(rows, unique);
    LayoutGapsProduced(p, rows, missing, duplicates, gap);
  }

  lemma LayoutGapsProduced(p: Plan, rows: seq<Row>, missing: seq<nat>, duplicates: nat, gap: GapVerification)
    requires Enumerates(missing, Grid(p.start, p.end, p.D()) - Opens(rows)) && GapsLookedInto(missing, gap)
    ensures GapsProduced(p, ManifestOf(p, rows, missing, duplicates, gap))
  {
  }

  /** Every row laid out is one of the rows merged. */
  lemma LaidOutFrom(all: seq<Row>, unique: map<nat, Row>, rows: seq<Row>)
    requires Indexes(unique, all) && LaidOut(rows, unique)
    ensures forall k :: 0 <= k < |rows| ==> Among(all, rows[k])
  {
    OpensOfLayout(rows, unique);
    forall k | 0 <= k < |rows| ensures Among(all, rows[k]) {
      assert rows[k].open in Opens(rows);
      var j :| 0 <= j < |all| && all[j].open == rows[k].open;
      assert all[j] == rows[k];
    }
  }

  method AcquireDataset(p: Plan, all: seq<Row>, rest: Option<Oracle>) returns (r: Result<Manifest, AcquisitionError>)
    ensures r.Ok? ==> Produced(p, all, r.value)
    ensures r.Ok? <==>
      && Consistent(all) && Opens(all) <= Grid(p.start, p.end, p.D())
      && (rest.Some? ==> forall t :: t in Grid(p.start, p.end, p.D()) - Opens(all) ==> Verdict(rest.value, t).Ok?)
    ensures r.Ok? ==>
      (r.value.gap.status == AllConfirmedAbsent <==> r.value.gapCount > 0 && AllAbsent(rest, r.value.gap.digested))
    ensures !Consistent(all) ==> r == Err(ConflictingDuplicate)
    ensures Consistent(all) && !(Opens(all) <= Grid(p.start, p.end, p.D())) ==> r == Err(OutOfRangeCandles)
  {
    var merged, duplicates := Merge(all);
    if merged.Err? {
      return Err(ConflictingDuplicate);
    }
    var unique := merged.value;
    forall t | t in unique ensures unique[t].open == t {
      var k :| 0 <= k < |all| && all[k].open == t;
    }
    var rows := InOrder(unique);
    var expected := GridSet(p.start, p.end, p.D());
    if !(unique.Keys <= expected) {
      return Err(OutOfRangeCandles);
    }
    var missing := Sorted(expected - unique.Keys);
    if rest.Some? {
      EveryMissing(missing, expected - unique.Keys, rest);
    }
    var gap := VerifyGaps(missing, rest);
    if gap.Err? {
      return Err(gap.error);
    }
    LayoutIsProduced(p, all, unique, rows, missing, duplicates, gap.value);
    return Ok(ManifestOf(p, rows, missing, duplicates, gap.value));
  }

  lemma EveryMissing(missing: seq<nat>, s: set<nat>, rest: Option<Oracle>)
    requires Enumerates(missing, s) && rest.Some?
    ensures (forall k :: 0 <= k < |missing| ==> Verdict(rest.value, missing[k]).Ok?)
       <==> forall t :: t in s ==> Verdict(rest.value, t).Ok?
  {
    forall k | 0 <= k < |missing| ensures missing[k] in s {
      assert missing[k] in missing;
    }
  }

  lemma OpensOfLayout(rows: seq<Row>, unique: map<nat, Row>)
    requires LaidOut(rows, unique)
    ensures Opens(rows) == unique.Keys
  {
    var opens := OpenTimes(rows);
    forall t ensures t in Opens(rows) <==> t in unique.Keys {
      if t in unique.Keys {
        assert t in opens;
        var k :| 0 <= k < |opens| && opens[k] == t;
        assert rows[k].open == t;
      }
      if t in Opens(rows) {
        var k :| 0 <= k < |rows| && rows[k].open == t;
        assert opens[k] == t;
      }
    }
  }
}
