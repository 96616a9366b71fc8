/**
 What the scan of a pool answers, stated from the decisions and the candidates
 themselves: which candidates exist, which are selected, when the scan ends.
 */
module EpisodeScannerResults {
  import opened Basics
  import opened Divisibility
  import opened Snapshots
  import opened EpisodeSelection
  import opened EpisodeScanner

  /** Limits that pass the scan's own checks, with a positive number of episodes to find. */
  predicate ValidLimits(rules: Rules) {
    && 1 <= rules.maximum && (rules.epochMs.Some? ==> 0 < rules.epochMs.value)
    && (rules.cap.Some? ==> 1 <= rules.cap.value)
  }

  // ---------- Epochs ----------

  ghost predicate InPeriod(pool: Pool, length: int, e: int, t: int) {
    pool.start + e * length <= t < pool.start + (e + 1) * length
  }

  /** Both times fall in one epoch: without an epoch length there is a single one. */
  ghost predicate SameEpoch(pool: Pool, rules: Rules, t: int, u: int) {
    rules.epochMs.Some? ==>
      exists e :: InPeriod(pool, rules.epochMs.value, e, t) && InPeriod(pool, rules.epochMs.value, e, u)
  }

  lemma PeriodIsQuotient(pool: Pool, length: nat, e: int, t: int)
    requires 0 < length
    ensures InPeriod(pool, length, e, t) <==> (t - pool.start) / length == e
  {
    var x := t - pool.start;
    assert (e + 1) * length == e * length + length;
    DivisionBounds(x, length);
    if InPeriod(pool, length, e, t) {
      RemainderUnique(x, e, x - e * length, length);
    }
  }

  lemma SameEpochMeans(pool: Pool, rules: Rules, t: int, u: int)
    requires ValidLimits(rules)
    ensures SameEpoch(pool, rules, t, u) <==> EpochAt(pool, rules, t) == EpochAt(pool, rules, u)
  {
    if rules.epochMs.Some? {
      var length := rules.epochMs.value;
      var e := (t - pool.start) / length;
      PeriodIsQuotient(pool, length, e, t);
      PeriodIsQuotient(pool, length, e, u);
      if x :| InPeriod(pool, length, x, t) && InPeriod(pool, length, x, u) {
        PeriodIsQuotient(pool, length, x, t);
        PeriodIsQuotient(pool, length, x, u);
      }
    }
  }

  // ---------- Which candidates are selected ----------

  /** The selected candidates whose epoch is that of t. */
  ghost function Peers(pool: Pool, rules: Rules, selected: seq<Candidate>, t: int): set<nat> {
    set k: nat | k < |selected| && SameEpoch(pool, rules, selected[k].time, t)
  }

  /** A candidate may follow those selected: far enough from the last, and its epoch not used up. */
  ghost predicate MayFollow(pool: Pool, rules: Rules, selected: seq<Candidate>, c: Candidate) {
    && (selected != [] ==> rules.separation <= c.time - selected[|selected| - 1].time)
    && (rules.cap.Some? ==> |Peers(pool, rules, selected, c.time)| < rules.cap.value)
  }

  /** Of the positions in ix, the first m lie before i. */
  ghost predicate Before(ix: seq<nat>, i: nat, m: nat) {
    && m <= |ix|
    && (forall k :: 0 <= k < m ==> ix[k] < i)
    && forall k :: m <= k < |ix| ==> i <= ix[k]
  }

  /**
   The selected list takes from all candidates those at positions ix, in order, and until the maximum is reached a
   candidate is among them exactly when it may follow the ones selected before it.
   */
  ghost predicate Chosen(pool: Pool, rules: Rules, all: seq<Candidate>, selected: seq<Candidate>, ix: seq<nat>) {
    && |ix| == |selected| <= rules.maximum
    && (forall a, b :: 0 <= a < b < |ix| ==> ix[a] < ix[b])
    && (forall k :: 0 <= k < |ix| ==> ix[k] < |all| && selected[k] == all[ix[k]])
    && forall i: nat, m: nat :: Before(ix, i, m) && i < |all| && m < rules.maximum ==>
      (i in ix <==> MayFollow(pool, rules, selected[..m], all[i]))
  }

  lemma {:induction false} PeersCounted(pool: Pool, rules: Rules, selected: seq<Candidate>, t: int)
    requires ValidLimits(rules)
    ensures |Peers(pool, rules, selected, t)| == CountEpoch(pool, rules, selected, EpochAt(pool, rules, t))
  {
    if selected == [] {
      assert Peers(pool, rules, selected, t) == {};
      return;
    }
    var n := |selected| - 1;
    PeersCounted(pool, rules, selected[..n], t);
    SameEpochMeans(pool, rules, selected[n].time, t);
    PeersOfLonger(pool, rules, selected, t);
  }

  lemma PeersOfLonger(pool: Pool, rules: Rules, selected: seq<Candidate>, t: int)
    requires selected != []
    ensures var n := |selected| - 1;
      var before := Peers(pool, rules, selected[..n], t);
      n !in before
      && Peers(pool, rules, selected, t) == if SameEpoch(pool, rules, selected[n].time, t) then before + {n} else before
  {
    var n := |selected| - 1;
    assert forall k :: 0 <= k < n ==> selected[..n][k] == selected[k];
  }

  /** What a selection records besides its list. */
  ghost predicate Recorded(pool: Pool, rules: Rules, s: Selection) {
    LastIsLast(s) && EpochsCounted(pool, rules, s)
  }

  lemma OfferDecides(pool: Pool, rules: Rules, s: Selection, c: Candidate)
    requires ValidLimits(rules) && Recorded(pool, rules, s)
    ensures var after := Offered(rules, s, c, EpochAt(pool, rules, c.time));
      && Recorded(pool, rules, after)
      && after.selected == (if MayFollow(pool, rules, s.selected, c) then s.selected + [c] else s.selected)
      && (after != s <==> MayFollow(pool, rules, s.selected, c))
  {
    PeersCounted(pool, rules, s.selected, c.time);
    OfferKeepsCounts(pool, rules, s, c);
  }

  lemma BeforeNext(ix: seq<nat>, i: nat, m: nat)
    requires Before(ix, i, m)
    ensures (m < |ix| ==> i <= ix[m]) && (m > 0 ==> ix[m - 1] < i)
  {
  }

  lemma ChosenTakesOne(pool: Pool, rules: Rules, all: seq<Candidate>, selected: seq<Candidate>, ix: seq<nat>,
      c: Candidate)
    requires Chosen(pool, rules, all, selected, ix) && |selected| < rules.maximum
    requires MayFollow(pool, rules, selected, c)
    ensures Chosen(pool, rules, all + [c], selected + [c], ix + [|all|])
  {
    var n, longer := |all|, ix + [|all|];
    forall i: nat, m: nat | Before(longer, i, m) && i <= n && m < rules.maximum
      ensures i in longer <==> MayFollow(pool, rules, (selected + [c])[..m], (all + [c])[i])
    {
      if i == n {
        BeforeNext(longer, i, m);
        assert (selected + [c])[..m] == selected;
      } else {
        BeforeNext(longer, i, m);
        BeforeInShorter(ix, n, i, m);
        assert (selected + [c])[..m] == selected[..m];
      }
    }
  }

  lemma BeforeInShorter(ix: seq<nat>, n: nat, i: nat, m: nat)
    requires Before(ix + [n], i, m) && m <= |ix|
    ensures Before(ix, i, m)
  {
    var longer := ix + [n];
    assert forall k :: 0 <= k < |ix| ==> longer[k] == ix[k];
  }

  lemma ChosenSkipsOne(pool: Pool, rules: Rules, all: seq<Candidate>, selected: seq<Candidate>, ix: seq<nat>,
      c: Candidate)
    requires Chosen(pool, rules, all, selected, ix)
    requires |selected| < rules.maximum ==> !MayFollow(pool, rules, selected, c)
    ensures Chosen(pool, rules, all + [c], selected, ix)
  {
    var n := |all|;
    forall i: nat, m: nat | Before(ix, i, m) && i <= n && m < rules.maximum
      ensures i in ix <==> MayFollow(pool, rules, selected[..m], (all + [c])[i])
    {
      if i == n {
        BeforeNext(ix, i, m);
        assert selected[..m] == selected;
      }
    }
  }

  lemma {:induction false} ChosenSkips(pool: Pool, rules: Rules, all: seq<Candidate>, selected: seq<Candidate>,
      ix: seq<nat>, found: seq<Candidate>)
    requires Chosen(pool, rules, all, selected, ix) && |selected| == rules.maximum
    ensures Chosen(pool, rules, all + found, selected, ix)
    decreases |found|
  {
    if found == [] {
      assert all + found == all;
      return;
    }
    ChosenSkipsOne(pool, rules, all, selected, ix, found[0]);
    ChosenSkips(pool, rules, all + [found[0]], selected, ix, found[1..]);
    assert all + [found[0]] + found[1..] == all + found;
  }

  lemma OfferChooses(pool: Pool, rules: Rules, s: Selection, all: seq<Candidate>, ix: seq<nat>, c: Candidate)
    returns (longer: seq<nat>)
    requires ValidLimits(rules) && Recorded(pool, rules, s)
    requires Chosen(pool, rules, all, s.selected, ix) && |s.selected| < rules.maximum
    ensures var after := Offered(rules, s, c, EpochAt(pool, rules, c.time));
      Recorded(pool, rules, after) && Chosen(pool, rules, all + [c], after.selected, longer)
  {
    OfferDecides(pool, rules, s, c);
    if MayFollow(pool, rules, s.selected, c) {
      ChosenTakesOne(pool, rules, all, s.selected, ix, c);
      return ix + [|all|];
    }
    ChosenSkipsOne(pool, rules, all, s.selected, ix, c);
    return ix;
  }

  lemma MoveHead(all: seq<Candidate>, found: seq<Candidate>)
    requires found != []
    ensures all + [found[0]] + found[1..] == all + found
  {
  }

  lemma {:induction false} OffersChoose(pool: Pool, rules: Rules, s: Selection, all: seq<Candidate>, ix: seq<nat>,
      found: seq<Candidate>, t: int, after: Selection)
    returns (longer: seq<nat>)
    requires ValidLimits(rules) && Recorded(pool, rules, s)
    requires Chosen(pool, rules, all, s.selected, ix) && |s.selected| < rules.maximum
    requires forall k :: 0 <= k < |found| ==> found[k].time == t
    requires OfferedAll(rules, s, found, EpochAt(pool, rules, t)) == after
    ensures Recorded(pool, rules, after) && Chosen(pool, rules, all + found, after.selected, longer)
    decreases |found|, 0
  {
    if found == [] {
      assert all + found == all;
      return ix;
    }
    var offered := Offered(rules, s, found[0], EpochAt(pool, rules, t));
    longer := OfferChooses(pool, rules, s, all, ix, found[0]);
    OffersUnfold(rules, s, found, EpochAt(pool, rules, t));
    longer := RestChooses(pool, rules, offered, all + [found[0]], longer, found[1..], t, after);
    MoveHead(all, found);
  }

  lemma OffersUnfold(rules: Rules, s: Selection, found: seq<Candidate>, epoch: int)
    requires found != [] && |s.selected| < rules.maximum
    ensures var offered := Offered(rules, s, found[0], epoch);
      OfferedAll(rules, s, found, epoch)
        == if |offered.selected| == rules.maximum then offered else OfferedAll(rules, offered, found[1..], epoch)
  {
  }

  /** The offers after the first one. */
  lemma {:induction false} RestChooses(pool: Pool, rules: Rules, offered: Selection, all: seq<Candidate>, ix: seq<nat>,
      rest: seq<Candidate>, t: int, after: Selection)
    returns (longer: seq<nat>)
    requires ValidLimits(rules) && Recorded(pool, rules, offered)
    requires Chosen(pool, rules, all, offered.selected, ix)
    requires forall k :: 0 <= k < |rest| ==> rest[k].time == t
    requires after == if |offered.selected| == rules.maximum then offered
      else OfferedAll(rules, offered, rest, EpochAt(pool, rules, t))
    ensures Recorded(pool, rules, after) && Chosen(pool, rules, all + rest, after.selected, longer)
    decreases |rest|, 1
  {
    if |offered.selected| == rules.maximum {
      ChosenSkips(pool, rules, all, offered.selected, ix, rest);
      return ix;
    }
    longer := OffersChoose(pool, rules, offered, all, ix, rest, t, after);
  }

  /** Whatever a round adds was found in it. */
  lemma {:induction false} OffersAppend(rules: Rules, s: Selection, found: seq<Candidate>, epoch: int, t: int)
    requires forall k :: 0 <= k < |found| ==> found[k].time == t
    ensures var after := OfferedAll(rules, s, found, epoch).selected;
      s.selected <= after && forall j :: |s.selected| <= j < |after| ==> after[j].time == t
    decreases |found|
  {
    if found != [] {
      OffersAppend(rules, Offered(rules, s, found[0], epoch), found[1..], epoch, t);
    }
  }

  // ---------- The whole scan ----------

  /**
   The scan took n decisions: it selected among the candidates these produce, and it stopped, at the decision of its
   last episode, exactly when the maximum was reached.
   */
  ghost predicate Answers<S>(e: Engine<S>, pool: Pool, see: View, rules: Rules, s: Scan<S>, n: nat, ix: seq<nat>) {
    && FullScan(e, pool, see, rules, n).Ok? && s.scannedEnd == pool.Time(n)
    && Chosen(pool, rules, FullScan(e, pool, see, rules, n).value.found, s.selection.selected, ix)
    && (s.stopped <==> |s.selection.selected| == rules.maximum)
    && (s.stopped ==>
          && s.selection.selected != []
          && s.selection.selected[|s.selection.selected| - 1].time == pool.Time(n - 1))
  }

  /** What a running scan carries to its next decision. */
  ghost predicate Carries<S>(pool: Pool, rules: Rules, s: Scan<S>, all: Advance<S>) {
    && Recorded(pool, rules, s.selection)
    && (!s.stopped ==> s.btc == all.btc && s.eth == all.eth && s.epoch == all.epoch)
  }

  lemma TakenAnswers<S>(pool: Pool, rules: Rules, s: Scan<S>, all: seq<Candidate>, ix: seq<nat>, a: Advance<S>, t: int)
    returns (longer: seq<nat>)
    requires ValidLimits(rules)
    requires Recorded(pool, rules, s.selection) && Chosen(pool, rules, all, s.selection.selected, ix)
    requires |s.selection.selected| < rules.maximum
    requires a.epoch == EpochAt(pool, rules, t) && forall k :: 0 <= k < |a.found| ==> a.found[k].time == t
    ensures var after := Taken(rules, s, a, t);
      && Recorded(pool, rules, after.selection) && Chosen(pool, rules, all + a.found, after.selection.selected, longer)
      && (after.stopped ==> after.selection.selected[|after.selection.selected| - 1].time == t)
  {
    var after := OfferedAll(rules, s.selection, a.found, a.epoch);
    longer := OffersChoose(pool, rules, s.selection, all, ix, a.found, t, after);
    OffersAppend(rules, s.selection, a.found, a.epoch, t);
  }

  lemma {:induction false} ScanAnswers<S>(e: Engine<S>, pool: Pool, see: View, rules: Rules, k: nat, s: Scan<S>)
    returns (n: nat, ix: seq<nat>)
    requires ValidLimits(rules)
    requires FlatScan(e, pool, see, rules, k) == Ok(s)
    ensures n <= k && Answers(e, pool, see, rules, s, n, ix) && (!s.stopped ==> n == k)
    ensures Carries(pool, rules, s, FullScan(e, pool, see, rules, n).value)
    decreases k, 0
  {
    if k == 0 {
      BeginAnswers(e, pool, see, rules);
      return 0, [];
    }
    assert FlatScan(e, pool, see, rules, k) == FlatNext(e, pool, see, rules, k - 1);
    n, ix := NextAnswers(e, pool, see, rules, k - 1, FlatScan(e, pool, see, rules, k - 1).value, s);
  }

  lemma {:induction false} NextAnswers<S>(e: Engine<S>, pool: Pool, see: View, rules: Rules, k: nat, was: Scan<S>,
      s: Scan<S>)
    returns (n: nat, ix: seq<nat>)
    requires ValidLimits(rules) && FlatScan(e, pool, see, rules, k) == Ok(was)
    requires if was.stopped then s == was else Decision(e, pool, see, rules, was, k) == Ok(s)
    ensures n <= k + 1 && Answers(e, pool, see, rules, s, n, ix) && (!s.stopped ==> n == k + 1)
    ensures Carries(pool, rules, s, FullScan(e, pool, see, rules, n).value)
    decreases k, 1
  {
    n, ix := ScanAnswers(e, pool, see, rules, k, was);
    if was.stopped {
      return;
    }
    ix := DecisionAnswers(e, pool, see, rules, k, was, s, ix);
    n := k + 1;
  }

  lemma BeginAnswers<S>(e: Engine<S>, pool: Pool, see: View, rules: Rules)
    requires ValidLimits(rules)
    ensures Answers(e, pool, see, rules, Begin(e, pool), 0, [])
    ensures Carries(pool, rules, Begin(e, pool), FullScan(e, pool, see, rules, 0).value)
  {
  }

  lemma DecisionAnswers<S>(e: Engine<S>, pool: Pool, see: View, rules: Rules, k: nat, was: Scan<S>, s: Scan<S>,
      ix: seq<nat>)
    returns (longer: seq<nat>)
    requires ValidLimits(rules) && !was.stopped
    requires Answers(e, pool, see, rules, was, k, ix)
    requires Carries(pool, rules, was, FullScan(e, pool, see, rules, k).value)
    requires Decision(e, pool, see, rules, was, k) == Ok(s)
    ensures Answers(e, pool, see, rules, s, k + 1, longer)
    ensures Carries(pool, rules, s, FullScan(e, pool, see, rules, k + 1).value)
  {
    var t, all := pool.Time(k), FullScan(e, pool, see, rules, k).value;
    var a := Advanced(e, pool, rules, see(0, t), see(1, t), was.btc, was.eth, was.epoch, t).value;
    FoundNow(e, pool, see, rules, was, t, a);
    assert FullScan(e, pool, see, rules, k + 1) == Ok(Advance(a.btc, a.eth, a.epoch, all.found + a.found));
    longer := TakenAnswers(pool, rules, was, all.found, ix, a, t);
  }

  /** A scan that fails does so at a decision it came to without having reached the maximum. */
  lemma {:induction false} ScanFailsAt<S>(e: Engine<S>, pool: Pool, see: View, rules: Rules, k: nat) returns (n: nat)
    requires ValidLimits(rules) && FlatScan(e, pool, see, rules, k).Err?
    ensures FlatScan(e, pool, see, rules, k) == Err(ScanFailed)
    ensures n < k && FullScan(e, pool, see, rules, n).Ok? && FullScan(e, pool, see, rules, n + 1).Err?
    ensures FlatScan(e, pool, see, rules, n).Ok? && !FlatScan(e, pool, see, rules, n).value.stopped
  {
    assert FlatScan(e, pool, see, rules, k) == FlatNext(e, pool, see, rules, k - 1);
    var was := FlatScan(e, pool, see, rules, k - 1);
    if was.Err? {
      n := ScanFailsAt(e, pool, see, rules, k - 1);
      return;
    }
    var m, ix := ScanAnswers(e, pool, see, rules, k - 1, was.value);
    return k - 1;
  }

  // ---------- Which candidates exist ----------

  lemma FillExactly(values: seq<Candle>, d: nat, t: int, c: Candle)
    requires 0 < d && OnGrid(values, d)
    ensures FillAt(values, t) == Some(c) <==> c in values && c.open == t
  {
    if c in values && c.open == t {
      var k :| 0 <= k < |values| && values[k] == c;
      var f := FillAt(values, t);
      var j :| 0 <= j < |values| && values[j] == f.value;
    }
  }

  /** The event holds the latest gap-free candles of every interval, and the primary bar opening at t, if any. */
  ghost predicate Shows(ds: Dataset, t: int, event: Event) {
    && event.time == t && ShowsLatest(ds, t, event.snapshot)
    && forall c :: event.fill == Some(c) <==> c in ds.primary && c.open == t
  }

  lemma EventExactly(ds: Dataset, t: int)
    requires ds.Admitted()
    ensures EventAt(ds, ds, t).Ok? <==> Decidable(ds, t)
    ensures EventAt(ds, ds, t).Ok? ==> Shows(ds, t, EventAt(ds, ds, t).value)
  {
    SnapshotExactly(ds, t);
    forall c ensures FillAt(ds.primary, t) == Some(c) <==> c in ds.primary && c.open == t {
      FillExactly(ds.primary, HOUR, t, c);
    }
  }

  /** A symbol sees a decision exactly when one can be made of its own data, and sees that data then. */
  lemma SightExactly(pool: Pool, symbol: nat, t: int)
    requires pool.Valid() && symbol < 2
    ensures var ds, sight := if symbol == 0 then pool.btc else pool.eth, FullView(pool)(symbol, t);
      (sight.Ok? <==> Decidable(ds, t)) && (sight.Ok? ==> Shows(ds, t, sight.value))
  {
    EventExactly(if symbol == 0 then pool.btc else pool.eth, t);
  }

  /** A symbol's decision at hour k, from a fresh start when an epoch begins there. */
  ghost function OwnStep<S>(e: Engine<S>, pool: Pool, see: View, rules: Rules, symbol: nat, s: S, k: nat): Stepped<S> {
    var sight := see(symbol, pool.Time(k));
    var begins := k > 0 && !SameEpoch(pool, rules, pool.Time(k - 1), pool.Time(k));
    if sight.Err? then Raised else e.step(if begins then e.reset(s) else s, symbol, sight.value)
  }

  /** A symbol's state after k decisions, if none of them failed; the other symbol plays no part in it. */
  ghost function Own<S>(e: Engine<S>, pool: Pool, see: View, rules: Rules, symbol: nat, k: nat): Option<S> {
    if k == 0 then Some(e.initial(symbol))
    else match Own(e, pool, see, rules, symbol, k - 1)
      case None => None
      case Some(s) =>
        match OwnStep(e, pool, see, rules, symbol, s, k - 1)
        case Raised => None
        case Stepped(after, _) => Some(after)
  }

  /** What a symbol's decision at hour k brings to light. */
  ghost function OwnEvidence<S>(e: Engine<S>, pool: Pool, see: View, rules: Rules, symbol: nat, k: nat): Option<int> {
    match Own(e, pool, see, rules, symbol, k)
    case None => None
    case Some(s) =>
      match OwnStep(e, pool, see, rules, symbol, s, k)
      case Raised => None
      case Stepped(_, evidence) => evidence
  }

  ghost predicate Evident<S>(e: Engine<S>, pool: Pool, see: View, rules: Rules, c: Candidate, k: nat) {
    c.symbol < 2 && c.time == pool.Time(k) && OwnEvidence(e, pool, see, rules, c.symbol, k) == Some(c.evidence)
  }

  ghost predicate Discovered<S>(e: Engine<S>, pool: Pool, see: View, rules: Rules, c: Candidate, n: nat) {
    exists k: nat :: k < n && Evident(e, pool, see, rules, c, k)
  }

  /** Both symbols' states are their own, and the epoch is that of the latest decision. */
  ghost predicate OwnStates<S>(e: Engine<S>, pool: Pool, see: View, rules: Rules, all: Advance<S>, k: nat) {
    && Own(e, pool, see, rules, 0, k) == Some(all.btc) && Own(e, pool, see, rules, 1, k) == Some(all.eth)
    && all.epoch == if k == 0 then 0 else EpochAt(pool, rules, pool.Time(k - 1))
  }

  lemma EpochBegins(pool: Pool, rules: Rules, k: nat, epoch: int)
    requires ValidLimits(rules) && epoch == if k == 0 then 0 else EpochAt(pool, rules, pool.Time(k - 1))
    ensures EpochAt(pool, rules, pool.Time(k)) != epoch
       <==> k > 0 && !SameEpoch(pool, rules, pool.Time(k - 1), pool.Time(k))
  {
    if k > 0 {
      SameEpochMeans(pool, rules, pool.Time(k - 1), pool.Time(k));
    }
  }

  /** One decision of both symbols is one decision of each. */
  lemma AdvanceIsOwn<S>(e: Engine<S>, pool: Pool, see: View, rules: Rules, k: nat, all: Advance<S>,
      r: Result<Advance<S>, ScanError>)
    requires ValidLimits(rules) && OwnStates(e, pool, see, rules, all, k)
    requires var t := pool.Time(k);
      r == Advanced(e, pool, rules, see(0, t), see(1, t), all.btc, all.eth, all.epoch, t)
    ensures r.Ok? <==> Own(e, pool, see, rules, 0, k + 1).Some? && Own(e, pool, see, rules, 1, k + 1).Some?
    ensures r.Ok? ==> OwnStates(e, pool, see, rules, r.value, k + 1)
    ensures r.Ok? ==> forall c :: c in r.value.found <==> Evident(e, pool, see, rules, c, k)
  {
    EpochBegins(pool, rules, k, all.epoch);
  }

  lemma FoundGrows<S>(e: Engine<S>, pool: Pool, see: View, rules: Rules, found: seq<Candidate>, more: seq<Candidate>,
      k: nat)
    requires forall c :: c in found <==> Discovered(e, pool, see, rules, c, k)
    requires forall c :: c in more <==> Evident(e, pool, see, rules, c, k)
    ensures forall c :: c in found + more <==> Discovered(e, pool, see, rules, c, k + 1)
  {
    forall c ensures c in found + more <==> Discovered(e, pool, see, rules, c, k + 1) {
      if Discovered(e, pool, see, rules, c, k + 1) {
        var j: nat :| j < k + 1 && Evident(e, pool, see, rules, c, j);
        assert j < k ==> Discovered(e, pool, see, rules, c, k);
      }
    }
  }

  /**
   A full scan goes through as far as each symbol does by itself, and its candidates, which it meets in key order, are
   exactly what some decision of some symbol brought to light.
   */
  lemma {:induction false} CandidatesExactly<S>(e: Engine<S>, pool: Pool, see: View, rules: Rules, k: nat)
    requires ValidLimits(rules)
    ensures FullScan(e, pool, see, rules, k).Ok?
       <==> Own(e, pool, see, rules, 0, k).Some? && Own(e, pool, see, rules, 1, k).Some?
    ensures FullScan(e, pool, see, rules, k).Ok? ==>
      var all := FullScan(e, pool, see, rules, k).value;
      && OwnStates(e, pool, see, rules, all, k)
      && StrictByKey(all.found)
      && forall c :: c in all.found <==> Discovered(e, pool, see, rules, c, k)
  {
    if k == 0 {
      return;
    }
    CandidatesExactly(e, pool, see, rules, k - 1);
    if FullScan(e, pool, see, rules, k - 1).Ok? {
      var all, t := FullScan(e, pool, see, rules, k - 1).value, pool.Time(k - 1);
      var r := Advanced(e, pool, rules, see(0, t), see(1, t), all.btc, all.eth, all.epoch, t);
      AdvanceIsOwn(e, pool, see, rules, k - 1, all, r);
      if r.Ok? {
        FoundGrows(e, pool, see, rules, all.found, r.value.found, k - 1);
        FullScanIsStrict(e, pool, see, rules, k);
      }
    }
  }
}
