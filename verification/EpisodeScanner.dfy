/**
 The chunked scan of a two-symbol pool for entry episodes. Each event advances
 both symbols' execution states; what an event does to a state is left abstract.
 */
module EpisodeScanner {
  import opened Basics
  import opened Divisibility
  import opened Snapshots
  import opened EpisodeSelection

  /** What the strategy sees at one decision: the snapshot and the bar its order would fill at. */
  datatype Event = Event(time: int, snapshot: Snapshot, fill: Option<Candle>)

  datatype Stepped<S> = Stepped(state: S, evidence: Option<int>) | Raised

  /** The execution engine: initial state per symbol, the effect of an event, and the reset at an epoch boundary. */
  datatype Engine<!S> = Engine(initial: nat -> S, step: (S, nat, Event) -> Stepped<S>, reset: S -> S)

  /** Both symbols' data over one aligned range. */
  datatype Pool = Pool(start: int, end: int, btc: Dataset, eth: Dataset)
  {
    ghost predicate Valid() {
      && start < end && start % HOUR == 0 && end % HOUR == 0
      && btc.Admitted() && btc.start == start && btc.end == end
      && eth.Admitted() && eth.start == start && eth.end == end
    }

    function Hours(): nat {
      if start < end then (end - start) / HOUR else 0
    }

    function Time(k: nat): int {
      start + k * HOUR
    }
  }

  datatype Rules = Rules(maximum: int, separation: int, epochMs: Option<int>, cap: Option<int>)

  ghost predicate ValidPartition(rules: Rules, chunk: int) {
    && HOUR <= chunk && chunk % HOUR == 0
    && (rules.epochMs.Some? ==> HOUR <= rules.epochMs.value && rules.epochMs.value % HOUR == 0)
    && (rules.cap.Some? ==> 1 <= rules.cap.value)
  }

  datatype Selection = Selection(selected: seq<Candidate>, perEpoch: map<int, nat>, last: Option<int>)
  {
    function InEpoch(e: int): nat {
      if e in perEpoch then perEpoch[e] else 0
    }
  }

  datatype Scan<S> = Scan(btc: S, eth: S, epoch: int, selection: Selection, scannedEnd: int, stopped: bool)

  datatype ScanError = InvalidPartition | ScanFailed

  /** The bar opening at t, wherever it lies in the series. */
  function FillAt(values: seq<Candle>, t: int): (r: Option<Candle>)
    ensures r.Some? ==> r.value in values && r.value.open == t
    ensures r == None ==> forall k :: 0 <= k < |values| ==> values[k].open != t
  {
    if values == [] then None
    else if values[|values| - 1].open == t then Some(values[|values| - 1])
    else FillAt(values[..|values| - 1], t)
  }

  type Sight = Result<Event, ScanError>

  /** What each symbol sees at each time. */
  type View = (nat, int) -> Sight

  /** An event draws its snapshot from one data set and its fill bar from the full one. */
  function EventAt(data: Dataset, full: Dataset, t: int): Sight {
    match SnapshotAt(data, t)
    case Err(_) => Err(ScanFailed)
    case Ok(snapshot) => Ok(Event(t, snapshot, FillAt(full.primary, t)))
  }

  function FullView(pool: Pool): View {
    (symbol, t) => if symbol == 0 then EventAt(pool.btc, pool.btc, t) else EventAt(pool.eth, pool.eth, t)
  }

  function EpochAt(pool: Pool, rules: Rules, t: int): int {
    if rules.epochMs.Some? && rules.epochMs.value > 0 then (t - pool.start) / rules.epochMs.value else 0
  }

  // ---------- One event ----------

  /** Both states after an event, and the candidates it produced in symbol order. */
  datatype Advance<S> = Advance(btc: S, eth: S, epoch: int, found: seq<Candidate>)

  function Found(t: int, symbol: nat, evidence: Option<int>): seq<Candidate> {
    if evidence.Some? then [Candidate(t, symbol, evidence.value)] else []
  }

  function Advanced<S>(
    e: Engine<S>, pool: Pool, rules: Rules, btcSees: Sight, ethSees: Sight, btc: S, eth: S, epoch: int, t: int)
    : Result<Advance<S>, ScanError>
  {
    if btcSees.Err? || ethSees.Err? then Err(ScanFailed)
    else
      var now := EpochAt(pool, rules, t);
      var b := if now != epoch then e.reset(btc) else btc;
      var h := if now != epoch then e.reset(eth) else eth;
      match e.step(b, 0, btcSees.value)
      case Raised => Err(ScanFailed)
      case Stepped(b', bFound) =>
        match e.step(h, 1, ethSees.value)
        case Raised => Err(ScanFailed)
        case Stepped(h', hFound) => Ok(Advance(b', h', now, Found(t, 0, bFound) + Found(t, 1, hFound)))
  }

  function Offered(rules: Rules, s: Selection, c: Candidate, epoch: int): Selection {
    if rules.cap.Some? && s.InEpoch(epoch) >= rules.cap.value then s
    else if s.last.Some? && c.time - s.last.value < rules.separation then s
    else Selection(s.selected + [c], s.perEpoch[epoch := s.InEpoch(epoch) + 1], Some(c.time))
  }

  /** Offer candidates in turn; an acceptance that reaches the maximum ends the round. */
  function OfferedAll(rules: Rules, s: Selection, found: seq<Candidate>, epoch: int): Selection
    decreases |found|
  {
    if found == [] then s
    else
      var after := Offered(rules, s, found[0], epoch);
      if after != s && |after.selected| == rules.maximum then after
      else OfferedAll(rules, after, found[1..], epoch)
  }

  function Taken<S>(rules: Rules, s: Scan<S>, a: Advance<S>, t: int): Scan<S> {
    var selection := OfferedAll(rules, s.selection, a.found, a.epoch);
    Scan(a.btc, a.eth, a.epoch, selection, t + HOUR, |selection.selected| == rules.maximum)
  }

  // ---------- The scan without chunks ----------

  function Begin<S>(e: Engine<S>, pool: Pool): Scan<S> {
    Scan(e.initial(0), e.initial(1), 0, Selection([], map[], None), pool.start, false)
  }

  /** The scan after k hourly decisions over the full data, stopping for good when the target is reached. */
  function FlatScan<S>(e: Engine<S>, pool: Pool, see: View, rules: Rules, k: nat): Result<Scan<S>, ScanError>
    decreases k, 0
  {
    if k == 0 then Ok(Begin(e, pool)) else FlatNext(e, pool, see, rules, k - 1)
  }

  /** The scan once the decision at hour k is taken. */
  function FlatNext<S>(e: Engine<S>, pool: Pool, see: View, rules: Rules, k: nat): Result<Scan<S>, ScanError>
    decreases k, 1
  {
    match FlatScan(e, pool, see, rules, k)
    case Err(x) => Err(x)
    case Ok(s) => if s.stopped then Ok(s) else Decision(e, pool, see, rules, s, k)
  }

  function Decision<S>(e: Engine<S>, pool: Pool, see: View, rules: Rules, s: Scan<S>, k: nat)
    : Result<Scan<S>, ScanError>
  {
    var t := pool.Time(k);
    match Advanced(e, pool, rules, see(0, t), see(1, t), s.btc, s.eth, s.epoch, t)
    case Err(x) => Err(x)
    case Ok(a) => Ok(Taken(rules, s, a, t))
  }

  /** A running scan takes one more decision. */
  lemma FlatDecides<S>(e: Engine<S>, pool: Pool, see: View, rules: Rules, k: nat, s: Scan<S>)
    requires FlatScan(e, pool, see, rules, k) == Ok(s) && !s.stopped
    ensures FlatScan(e, pool, see, rules, k + 1) == Decision(e, pool, see, rules, s, k)
  {
    assert FlatScan(e, pool, see, rules, k + 1) == FlatNext(e, pool, see, rules, k);
  }

  lemma {:induction false} SettledStays<S>(e: Engine<S>, pool: Pool, see: View, rules: Rules, i: nat, j: nat)
    requires i <= j && (FlatScan(e, pool, see, rules, i).Err? || FlatScan(e, pool, see, rules, i).value.stopped)
    ensures FlatScan(e, pool, see, rules, j) == FlatScan(e, pool, see, rules, i)
  {
    if i < j {
      SettledStays(e, pool, see, rules, i, j - 1);
      assert FlatScan(e, pool, see, rules, j) == FlatNext(e, pool, see, rules, j - 1);
    }
  }

  // ---------- The chunked scan ----------

  lemma NoPrefixNothingVisible(values: seq<Candle>, d: nat, t: int, end: int)
    requires 0 < d && OnGrid(values, d) && t <= end && BisectLeft(OpenTimes(values), end) == 0
    ensures Visible(values, d, t) == []
  {
    CutKeepsVisible(values, d, t, end);
    assert Prefix(values, end) == [];
  }

  predicate HasHistory(ds: Dataset, end: int) {
    && BisectLeft(OpenTimes(ds.primary), end) > 0 && BisectLeft(OpenTimes(ds.context), end) > 0
    && BisectLeft(OpenTimes(ds.regime), end) > 0
  }

  lemma NoHistoryNoSnapshot(ds: Dataset, t: int, end: int)
    requires ds.Admitted() && t <= end && !HasHistory(ds, end)
    ensures SnapshotAt(ds, t).Err?
  {
    if BisectLeft(OpenTimes(ds.primary), end) == 0 {
      NoPrefixNothingVisible(ds.primary, HOUR, t, end);
    } else if BisectLeft(OpenTimes(ds.context), end) == 0 {
      NoPrefixNothingVisible(ds.context, QUARTER_HOUR, t, end);
    } else {
      NoPrefixNothingVisible(ds.regime, FOUR_HOURS, t, end);
    }
  }

  /** Cut data show a decision exactly what the full data show. */
  lemma CutKeepsSight(full: Dataset, start: int, end: int, t: int)
    requires full.Admitted() && full.start <= start <= t < end <= full.end
    ensures EventAt(Cut(full, start, end), full, t) == EventAt(full, full, t)
  {
    CutKeepsSnapshot(full, start, end, t);
  }

  method Observe(data: Dataset, full: Dataset, t: int) returns (r: Sight)
    requires data.Admitted()
    ensures r == EventAt(data, full, t)
  {
    var snapshot := BuildSnapshot(data, t);
    if snapshot.Err? {
      return Err(ScanFailed);
    }
    return Ok(Event(t, snapshot.value, FillAt(full.primary, t)));
  }

  method ProcessEvents<S>(e: Engine<S>, pool: Pool, rules: Rules, btcSees: Sight, ethSees: Sight, s: Scan<S>, t: int)
    returns (r: Result<Advance<S>, ScanError>)
    ensures r == Advanced(e, pool, rules, btcSees, ethSees, s.btc, s.eth, s.epoch, t)
  {
    if btcSees.Err? || ethSees.Err? {
      return Err(ScanFailed);
    }
    var btc, eth := s.btc, s.eth;
    var epoch := EpochAt(pool, rules, t);
    if epoch != s.epoch {
      btc, eth := e.reset(btc), e.reset(eth);
    }
    var b := e.step(btc, 0, btcSees.value);
    if b.Raised? {
      return Err(ScanFailed);
    }
    var h := e.step(eth, 1, ethSees.value);
    if h.Raised? {
      return Err(ScanFailed);
    }
    return Ok(Advance(b.state, h.state, epoch, Found(t, 0, b.evidence) + Found(t, 1, h.evidence)));
  }

  method SelectFound(rules: Rules, s: Selection, found: seq<Candidate>, epoch: int) returns (r: Selection)
    ensures r == OfferedAll(rules, s, found, epoch)
  {
    r := s;
    var k := 0;
    while k < |found|
      invariant k <= |found|
      invariant OfferedAll(rules, s, found, epoch) == OfferedAll(rules, r, found[k..], epoch)
    {
      var c := found[k];
      assert found[k..][0] == c && found[k..][1..] == found[k + 1..];
      k := k + 1;
      if rules.cap.Some? && r.InEpoch(epoch) >= rules.cap.value {
        continue;
      }
      if r.last.Some? && c.time - r.last.value < rules.separation {
        continue;
      }
      ghost var was := r;
      r := Selection(r.selected + [c], r.perEpoch[epoch := r.InEpoch(epoch) + 1], Some(c.time));
      assert |r.selected| != |was.selected|;
      if |r.selected| == rules.maximum {
        return;
      }
    }
  }

  function ChunkEnd(pool: Pool, chunkStart: int, chunk: int): int {
    if chunkStart + chunk < pool.end then chunkStart + chunk else pool.end
  }

  lemma ChunkEndAligned(pool: Pool, k: nat, chunk: int)
    requires pool.Valid() && pool.Time(k) < pool.end && HOUR <= chunk && chunk % HOUR == 0
    ensures pool.Time(k) < ChunkEnd(pool, pool.Time(k), chunk) <= pool.end
    ensures (ChunkEnd(pool, pool.Time(k), chunk) - pool.start) % HOUR == 0
  {
    if pool.Time(k) + chunk < pool.end {
      MultipleDifference(k * HOUR + chunk, k * HOUR, HOUR);
    } else {
      MultipleDifference(pool.end, pool.start, HOUR);
    }
  }

  lemma EndIsLastHour(pool: Pool, k: nat)
    requires pool.Valid() && pool.Time(k) == pool.end
    ensures k == pool.Hours()
  {
  }

  lemma HourInChunk(start: int, end: int, j: nat)
    requires start < end && j < (end - start) / HOUR
    ensures start + j * HOUR < end
  {
  }

  method ClockEvent(data: Dataset, full: Dataset, ghost start: int, ghost end: int, t: int) returns (r: Sight)
    requires full.Admitted() && full.start <= start <= t < end <= full.end && data == Cut(full, start, end)
    ensures r == EventAt(full, full, t)
  {
    CutStaysAdmitted(full, start, end);
    CutKeepsSight(full, start, end, t);
    r := Observe(data, full, t);
  }

  /** The decisions of a chunk as its clock deals them. */
  method ClockEvents(data: Dataset, full: Dataset, start: int, end: int) returns (events: seq<Sight>)
    requires full.Admitted() && full.start <= start < end <= full.end && (end - start) % HOUR == 0
    requires data == Cut(full, start, end)
    ensures |events| == (end - start) / HOUR
    ensures forall j :: 0 <= j < |events| ==> events[j] == EventAt(full, full, start + j * HOUR)
  {
    events := [];
    for j := 0 to (end - start) / HOUR
      invariant |events| == j
      invariant forall i :: 0 <= i < j ==> events[i] == EventAt(full, full, start + i * HOUR)
    {
      HourInChunk(start, end, j);
      var sight := ClockEvent(data, full, start, end, start + j * HOUR);
      events := events + [sight];
    }
  }

  /** A chunk's data, refused when some interval has no history, which blinds its first decision anyway. */
  method ChunkDataset(ds: Dataset, start: int, end: int) returns (r: Option<Dataset>)
    requires ds.Admitted() && start <= end
    ensures r == None || r == Some(Cut(ds, start, end))
    ensures r == None ==> EventAt(ds, ds, start) == Err(ScanFailed)
  {
    if !HasHistory(ds, end) {
      NoHistoryNoSnapshot(ds, start, end);
      return None;
    }
    return Some(Cut(ds, start, end));
  }

  /** The full scan fails at a decision that one of the symbols cannot see. */
  lemma BlindFails<S>(e: Engine<S>, pool: Pool, rules: Rules, s: Scan<S>, k: nat)
    requires FlatScan(e, pool, FullView(pool), rules, k) == Ok(s) && !s.stopped
    requires EventAt(pool.btc, pool.btc, pool.Time(k)).Err? || EventAt(pool.eth, pool.eth, pool.Time(k)).Err?
    ensures FlatScan(e, pool, FullView(pool), rules, k + 1) == Err(ScanFailed)
  {
    FlatDecides(e, pool, FullView(pool), rules, k, s);
  }

  /** One round of the two clocks: the decision time and what each symbol sees at it. */
  datatype Round = Round(time: int, btc: Sight, eth: Sight)

  function RoundAt(pool: Pool, see: View, k: nat): Round {
    Round(pool.Time(k), see(0, pool.Time(k)), see(1, pool.Time(k)))
  }

  function Rounds(start: int, btc: seq<Sight>, eth: seq<Sight>): (rounds: seq<Round>)
    requires |btc| == |eth|
    ensures |rounds| == |btc|
    ensures forall j :: 0 <= j < |rounds| ==> rounds[j] == Round(start + j * HOUR, btc[j], eth[j])
  {
    seq(|btc|, j requires 0 <= j < |btc| => Round(start + j * HOUR, btc[j], eth[j]))
  }

  /** The rounds of one chunk, over data cut at its end. */
  method ChunkRounds(pool: Pool, start: int, end: int) returns (r: Option<seq<Round>>)
    requires pool.Valid() && pool.start <= start < end <= pool.end && (end - start) % HOUR == 0
    ensures r == None ==> EventAt(pool.btc, pool.btc, start).Err? || EventAt(pool.eth, pool.eth, start).Err?
    ensures r.Some? ==> |r.value| == (end - start) / HOUR
    ensures r.Some? ==> forall j :: 0 <= j < |r.value| ==>
      var t := start + j * HOUR;
      r.value[j] == Round(t, EventAt(pool.btc, pool.btc, t), EventAt(pool.eth, pool.eth, t))
  {
    var btcData := ChunkDataset(pool.btc, start, end);
    var ethData := ChunkDataset(pool.eth, start, end);
    if btcData == None || ethData == None {
      return None;
    }
    var btc := ClockEvents(btcData.value, pool.btc, start, end);
    var eth := ClockEvents(ethData.value, pool.eth, start, end);
    return Some(Rounds(start, btc, eth));
  }

  /** The rounds from the k-th hour on. */
  ghost predicate Shown(pool: Pool, see: View, k: nat, rounds: seq<Round>) {
    forall j :: 0 <= j < |rounds| ==> rounds[j] == RoundAt(pool, see, k + j)
  }

  /** One decision. */
  method ScanEvent<S>(e: Engine<S>, pool: Pool, rules: Rules, s: Scan<S>, round: Round, ghost see: View, ghost k: nat)
    returns (r: Result<Scan<S>, ScanError>)
    requires round == RoundAt(pool, see, k)
    requires FlatScan(e, pool, see, rules, k) == Ok(s) && !s.stopped
    ensures r == FlatScan(e, pool, see, rules, k + 1)
  {
    FlatDecides(e, pool, see, rules, k, s);
    var advanced := ProcessEvents(e, pool, rules, round.btc, round.eth, s, round.time);
    if advanced.Err? {
      return Err(advanced.error);
    }
    var a := advanced.value;
    var selection := SelectFound(rules, s.selection, a.found, a.epoch);
    return Ok(Scan(a.btc, a.eth, a.epoch, selection, round.time + HOUR, |selection.selected| == rules.maximum));
  }

  /** The decisions of one chunk in turn, until one fails or the target is reached. */
  method ScanRounds<S>(e: Engine<S>, pool: Pool, rules: Rules, from: Scan<S>, rounds: seq<Round>, ghost see: View,
      ghost k: nat)
    returns (r: Result<Scan<S>, ScanError>, ghost reached: nat)
    requires Shown(pool, see, k, rounds)
    requires FlatScan(e, pool, see, rules, k) == Ok(from) && !from.stopped
    ensures r == FlatScan(e, pool, see, rules, reached) && reached <= k + |rounds|
    ensures r.Ok? && !r.value.stopped ==> reached == k + |rounds|
  {
    r, reached := Ok(from), k;
    for j := 0 to |rounds|
      invariant reached == k + j && r == FlatScan(e, pool, see, rules, reached) && r.Ok? && !r.value.stopped
    {
      r := ScanEvent(e, pool, rules, r.value, rounds[j], see, reached);
      reached := reached + 1;
      if r.Err? || r.value.stopped {
        return;
      }
    }
  }

  lemma HoursOfChunk(pool: Pool, k: nat, end: int)
    requires pool.Valid() && pool.Time(k) < end <= pool.end && (end - pool.start) % HOUR == 0
    ensures (end - pool.Time(k)) % HOUR == 0 && pool.Time(k + (end - pool.Time(k)) / HOUR) == end
    ensures 1 <= (end - pool.Time(k)) / HOUR && k + (end - pool.Time(k)) / HOUR <= pool.Hours()
  {
    MultipleDifference(end - pool.start, k * HOUR, HOUR);
  }

  lemma RoundsShown(pool: Pool, k: nat, rounds: seq<Round>)
    requires var start := pool.Time(k); forall j :: 0 <= j < |rounds| ==>
      var t := start + j * HOUR;
      rounds[j] == Round(t, EventAt(pool.btc, pool.btc, t), EventAt(pool.eth, pool.eth, t))
    ensures Shown(pool, FullView(pool), k, rounds)
  {
    forall j | 0 <= j < |rounds| ensures rounds[j] == RoundAt(pool, FullView(pool), k + j) {
      assert pool.Time(k + j) == pool.Time(k) + j * HOUR;
    }
  }

  /** One chunk: the decisions from its start to its end, over data cut at its end. */
  method ScanChunk<S>(e: Engine<S>, pool: Pool, rules: Rules, from: Scan<S>, start: int, end: int, ghost k: nat)
    returns (r: Result<Scan<S>, ScanError>, ghost reached: nat)
    requires pool.Valid() && pool.start <= start < end <= pool.end
    requires start == pool.Time(k) && (end - pool.start) % HOUR == 0
    requires FlatScan(e, pool, FullView(pool), rules, k) == Ok(from) && !from.stopped
    ensures r == FlatScan(e, pool, FullView(pool), rules, reached) && reached <= pool.Hours()
    ensures r.Ok? && !r.value.stopped ==> end == pool.Time(reached)
  {
    HoursOfChunk(pool, k, end);
    var rounds := ChunkRounds(pool, start, end);
    if rounds == None {
      BlindFails(e, pool, rules, from, k);
      return Err(ScanFailed), k + 1;
    }
    RoundsShown(pool, k, rounds.value);
    r, reached := ScanRounds(e, pool, rules, from, rounds.value, FullView(pool), k);
  }

  /** Whatever the chunk size, the chunked scan is the scan without chunks. */
  method ScanProgressive<S>(e: Engine<S>, pool: Pool, rules: Rules, chunk: int) returns (r: Result<Scan<S>, ScanError>)
    requires pool.Valid()
    ensures r ==
      if ValidPartition(rules, chunk) then FlatScan(e, pool, FullView(pool), rules, pool.Hours())
      else Err(InvalidPartition)
  {
    if chunk < HOUR || chunk % HOUR != 0 {
      return Err(InvalidPartition);
    }
    if rules.epochMs.Some? && (rules.epochMs.value < HOUR || rules.epochMs.value % HOUR != 0) {
      return Err(InvalidPartition);
    }
    if rules.cap.Some? && rules.cap.value < 1 {
      return Err(InvalidPartition);
    }
    var s := Begin(e, pool);
    var chunkStart := pool.start;
    ghost var k := 0;
    while chunkStart < pool.end
      invariant chunkStart == pool.Time(k) && pool.start <= chunkStart <= pool.end
      invariant FlatScan(e, pool, FullView(pool), rules, k) == Ok(s) && !s.stopped
      decreases pool.end - chunkStart
    {
      var chunkEnd := ChunkEnd(pool, chunkStart, chunk);
      ChunkEndAligned(pool, k, chunk);
      var scanned, reached := ScanChunk(e, pool, rules, s, chunkStart, chunkEnd, k);
      if scanned.Err? || scanned.value.stopped {
        SettledStays(e, pool, FullView(pool), rules, reached, pool.Hours());
        return scanned;
      }
      s := scanned.value;
      chunkStart := chunkEnd;
      k := reached;
    }
    EndIsLastHour(pool, k);
    return Ok(s);
  }

  // ---------- The streaming selection is the offline one ----------

  /** Every candidate of a scan that never stops. */
  function FullScan<S>(e: Engine<S>, pool: Pool, see: View, rules: Rules, k: nat): Result<Advance<S>, ScanError> {
    if k == 0 then Ok(Advance(e.initial(0), e.initial(1), 0, []))
    else match FullScan(e, pool, see, rules, k - 1)
      case Err(x) => Err(x)
      case Ok(all) =>
        var t := pool.Time(k - 1);
        match Advanced(e, pool, rules, see(0, t), see(1, t), all.btc, all.eth, all.epoch, t)
        case Err(x) => Err(x)
        case Ok(a) => Ok(Advance(a.btc, a.eth, a.epoch, all.found + a.found))
  }

  predicate LastIsLast(s: Selection) {
    s.last == if s.selected == [] then None else Some(s.selected[|s.selected| - 1].time)
  }

  lemma PickedAppends(cs: seq<Candidate>, c: Candidate, separation: int, maximum: nat)
    ensures var before := Picked(cs, separation, Some(maximum));
      Picked(cs + [c], separation, Some(maximum))
        == if |before| >= maximum then before else if FarEnough(before, c, separation) then before + [c] else before
  {
    assert (cs + [c])[..|cs|] == cs;
  }

  lemma {:induction false} OfferingPicks(rules: Rules, s: Selection, all: seq<Candidate>, found: seq<Candidate>,
      epoch: int)
    requires rules.cap.None? && 1 <= rules.maximum && LastIsLast(s)
    requires s.selected == Picked(all, rules.separation, Some(rules.maximum)) && |s.selected| < rules.maximum
    ensures var after := OfferedAll(rules, s, found, epoch);
      && LastIsLast(after) && after.selected == Picked(all + found, rules.separation, Some(rules.maximum))
      && |after.selected| <= rules.maximum
    decreases |found|
  {
    if found == [] {
      assert all + found == all;
    } else {
      var c := found[0];
      PickedAppends(all, c, rules.separation, rules.maximum);
      var after := Offered(rules, s, c, epoch);
      assert (all + [c]) + found[1..] == all + found;
      if |after.selected| == rules.maximum {
        assert (all + found)[..|all| + 1] == all + [c];
        FullStaysFull(all + found, |all| + 1, rules.separation, rules.maximum);
      } else {
        OfferingPicks(rules, after, all + [c], found[1..], epoch);
      }
    }
  }

  /** What the streaming scan keeps: its picks are the offline picks of all candidates so far. */
  ghost predicate PicksSoFar<S>(rules: Rules, s: Scan<S>, all: Advance<S>)
    requires 1 <= rules.maximum
  {
    && LastIsLast(s.selection)
    && s.selection.selected == Picked(all.found, rules.separation, Some(rules.maximum))
    && s.stopped == (|s.selection.selected| == rules.maximum) && |s.selection.selected| <= rules.maximum
    && (!s.stopped ==> s.btc == all.btc && s.eth == all.eth && s.epoch == all.epoch)
  }

  lemma RunningStepPicks<S>(rules: Rules, s: Scan<S>, all: Advance<S>, a: Advance<S>, t: int)
    requires rules.cap.None? && 1 <= rules.maximum && PicksSoFar(rules, s, all) && !s.stopped
    ensures PicksSoFar(rules, Taken(rules, s, a, t), Advance(a.btc, a.eth, a.epoch, all.found + a.found))
  {
    OfferingPicks(rules, s.selection, all.found, a.found, a.epoch);
  }

  lemma StoppedStepPicks<S>(rules: Rules, s: Scan<S>, all: Advance<S>, a: Advance<S>)
    requires 1 <= rules.maximum && PicksSoFar(rules, s, all) && s.stopped
    ensures PicksSoFar(rules, s, Advance(a.btc, a.eth, a.epoch, all.found + a.found))
  {
    assert (all.found + a.found)[..|all.found|] == all.found;
    FullStaysFull(all.found + a.found, |all.found|, rules.separation, rules.maximum);
  }

  /** After every decision the streaming scan has picked what offline picking takes from the candidates so far. */
  lemma {:induction false} StreamingPicks<S>(e: Engine<S>, pool: Pool, see: View, rules: Rules, k: nat)
    requires rules.cap.None? && 1 <= rules.maximum && FullScan(e, pool, see, rules, k).Ok?
    ensures FlatScan(e, pool, see, rules, k).Ok?
    ensures PicksSoFar(rules, FlatScan(e, pool, see, rules, k).value, FullScan(e, pool, see, rules, k).value)
  {
    if k > 0 {
      StreamingPicks(e, pool, see, rules, k - 1);
      var s, all := FlatScan(e, pool, see, rules, k - 1).value, FullScan(e, pool, see, rules, k - 1).value;
      var t := pool.Time(k - 1);
      var a := Advanced(e, pool, rules, see(0, t), see(1, t), all.btc, all.eth, all.epoch, t).value;
      if s.stopped {
        StoppedStepPicks(rules, s, all, a);
      } else {
        RunningStepPicks(rules, s, all, a, t);
      }
    }
  }

  /** A full scan meets its candidates in key order, each key once. */
  lemma {:induction false} FullScanIsStrict<S>(e: Engine<S>, pool: Pool, see: View, rules: Rules, k: nat)
    requires FullScan(e, pool, see, rules, k).Ok?
    ensures StrictByKey(FullScan(e, pool, see, rules, k).value.found)
    ensures forall c :: c in FullScan(e, pool, see, rules, k).value.found ==> c.time < pool.Time(k)
  {
    if k > 0 {
      FullScanIsStrict(e, pool, see, rules, k - 1);
      var all := FullScan(e, pool, see, rules, k - 1).value.found;
      var longer := FullScan(e, pool, see, rules, k).value.found;
      forall i | |all| <= i < |longer| ensures longer[i].time == pool.Time(k - 1) {
      }
      forall i | 0 <= i < |all| ensures longer[i].time < pool.Time(k - 1) {
        assert longer[i] == all[i] && all[i] in all;
      }
    }
  }

  /**
   Streaming refines offline: early stop included, the scan selects what sorting and picking all candidates selects.
   */
  lemma StreamingEqualsOffline<S>(e: Engine<S>, pool: Pool, see: View, rules: Rules, candidates: seq<Candidate>,
      sorted: seq<Candidate>)
    requires rules.cap.None? && 1 <= rules.maximum && FullScan(e, pool, see, rules, pool.Hours()).Ok?
    requires multiset(candidates) == multiset(FullScan(e, pool, see, rules, pool.Hours()).value.found)
    requires SortedByKey(sorted) && multiset(sorted) == multiset(candidates)
    ensures FlatScan(e, pool, see, rules, pool.Hours()).Ok?
    ensures FlatScan(e, pool, see, rules, pool.Hours()).value.selection.selected
         == Picked(sorted, rules.separation, Some(rules.maximum))
  {
    StreamingPicks(e, pool, see, rules, pool.Hours());
    FullScanIsStrict(e, pool, see, rules, pool.Hours());
    SortIsUnique(FullScan(e, pool, see, rules, pool.Hours()).value.found, sorted);
  }

  lemma StrictIsTimeSorted(cs: seq<Candidate>)
    requires StrictByKey(cs)
    ensures SortedByTime(cs)
  {
  }

  /** The episodes are pairwise separated, and as many as the maximum or any separated subset allows. */
  lemma StreamingIsOptimal<S>(e: Engine<S>, pool: Pool, see: View, rules: Rules) returns (largest: nat)
    requires rules.cap.None? && 1 <= rules.maximum && FullScan(e, pool, see, rules, pool.Hours()).Ok?
    ensures LargestSeparated(FullScan(e, pool, see, rules, pool.Hours()).value.found, rules.separation, largest)
    ensures FlatScan(e, pool, see, rules, pool.Hours()).Ok?
    ensures var selected := FlatScan(e, pool, see, rules, pool.Hours()).value.selection.selected;
      Separated(selected, rules.separation) && |selected| == if largest <= rules.maximum then largest else rules.maximum
  {
    StreamingPicks(e, pool, see, rules, pool.Hours());
    FullScanIsStrict(e, pool, see, rules, pool.Hours());
    StrictIsTimeSorted(FullScan(e, pool, see, rules, pool.Hours()).value.found);
    var found := FullScan(e, pool, see, rules, pool.Hours()).value.found;
    largest := SelectionIsOptimal(found, rules.separation, rules.maximum);
  }

  // ---------- The per-epoch cap ----------

  function CountEpoch(pool: Pool, rules: Rules, cs: seq<Candidate>, epoch: int): nat {
    if cs == [] then 0
    else
      CountEpoch(pool, rules, cs[..|cs| - 1], epoch)
      + if EpochAt(pool, rules, cs[|cs| - 1].time) == epoch then 1 else 0
  }

  /** The dictionary counts the selected episodes of each epoch, and none exceeds the cap. */
  ghost predicate EpochsCounted(pool: Pool, rules: Rules, s: Selection) {
    forall e :: s.InEpoch(e) == CountEpoch(pool, rules, s.selected, e)
      && (rules.cap.Some? ==> s.InEpoch(e) <= rules.cap.value)
  }

  lemma OfferKeepsCounts(pool: Pool, rules: Rules, s: Selection, c: Candidate)
    requires EpochsCounted(pool, rules, s)
    ensures EpochsCounted(pool, rules, Offered(rules, s, c, EpochAt(pool, rules, c.time)))
  {
    var after := Offered(rules, s, c, EpochAt(pool, rules, c.time));
    if after != s {
      assert after.selected[..|s.selected|] == s.selected;
    }
  }

  lemma {:induction false} OffersKeepCounts(pool: Pool, rules: Rules, s: Selection, found: seq<Candidate>, t: int)
    requires EpochsCounted(pool, rules, s) && forall k :: 0 <= k < |found| ==> found[k].time == t
    ensures EpochsCounted(pool, rules, OfferedAll(rules, s, found, EpochAt(pool, rules, t)))
    decreases |found|
  {
    if found != [] {
      OfferKeepsCounts(pool, rules, s, found[0]);
      OffersKeepCounts(pool, rules, Offered(rules, s, found[0], EpochAt(pool, rules, t)), found[1..], t);
    }
  }

  lemma FoundNow<S>(e: Engine<S>, pool: Pool, see: View, rules: Rules, s: Scan<S>, t: int, a: Advance<S>)
    requires Advanced(e, pool, rules, see(0, t), see(1, t), s.btc, s.eth, s.epoch, t) == Ok(a)
    ensures a.epoch == EpochAt(pool, rules, t) && forall k :: 0 <= k < |a.found| ==> a.found[k].time == t
  {
  }

  /** No epoch contributes more selected episodes than the cap. */
  lemma {:induction false} CapRespected<S>(e: Engine<S>, pool: Pool, see: View, rules: Rules, k: nat)
    requires FlatScan(e, pool, see, rules, k).Ok? && (rules.cap.Some? ==> 1 <= rules.cap.value)
    ensures EpochsCounted(pool, rules, FlatScan(e, pool, see, rules, k).value.selection)
  {
    if k > 0 {
      CapRespected(e, pool, see, rules, k - 1);
      var s := FlatScan(e, pool, see, rules, k - 1).value;
      if !s.stopped {
        var t := pool.Time(k - 1);
        var a := Advanced(e, pool, rules, see(0, t), see(1, t), s.btc, s.eth, s.epoch, t).value;
        FoundNow(e, pool, see, rules, s, t, a);
        OffersKeepCounts(pool, rules, s.selection, a.found, t);
      }
    }
  }
}
