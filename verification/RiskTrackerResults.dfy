/** What the tracker promises over every sequence of observations. */
module RiskTrackerResults {
  import opened Basics
  import opened RiskTracker

  /** The tracker and the state of the latest observation after a whole history, or the first rejection. */
  function Track(initial: real, h: seq<Observation>): Result<Tracker, TrackerError> {
    if h == [] then Ok(NewTracker(initial))
    else match Track(initial, h[..|h| - 1])
      case Err(e) => Err(e)
      case Ok(t) =>
        match Observed(t, h[|h| - 1])
        case Err(e) => Err(e)
        case Ok(seen) => Ok(seen.tracker)
  }

  // ---------- The ledgers ----------

  predicate Cooling(t: Tracker) {
    t.breakers.remaining > 0 || t.breakers.releasePending
  }

  function Flag(c: bool): int {
    if c then 1 else 0
  }

  /** A streak trigger is worth 24 blocked decisions and one release, and cooling excludes waiting for release. */
  predicate CooldownLedger(t: Tracker) {
    var b, c := t.breakers, t.counters;
    && 0 <= b.remaining <= COOLDOWN_DECISIONS
    && !(b.remaining > 0 && b.releasePending)
    && c.blocked == COOLDOWN_DECISIONS * c.streak - b.remaining
    && c.streak - c.cooldownReleases == Flag(Cooling(t))
  }

  predicate TriggerLedger(t: Tracker) {
    var b, c := t.breakers, t.counters;
    && c.session - c.sessionReleases == Flag(b.sessionBlock)
    && c.hard == Flag(b.hardLatched)
    && c.kill == c.hard + c.session + c.streak
  }

  /** The eligibility streak is within the observed one, and only a cooldown lets it stand at the limit. */
  predicate StreakLedger(t: Tracker) {
    var b, m := t.breakers, t.memory;
    && 0 <= m.eligibleLosses <= m.observedLosses <= m.observedLossesPeak
    && (m.eligibleLosses >= MAX_CONSECUTIVE_LOSSES ==> Cooling(t))
    && m.sessionStartTime.Some? == m.sessionStartEquity.Some?
    && (b.sessionBlock ==> m.sessionStartTime.Some?)
  }

  /** Counters and breakers of a reachable tracker, related exactly. */
  predicate Ledgers(t: Tracker) {
    CooldownLedger(t) && TriggerLedger(t) && StreakLedger(t)
  }

  /** The tracker once streaks, session and both limits have been looked at, before the cooldown rules. */
  function Limited(t: Tracker, o: Observation): Tracker {
    SessionChecked(DrawdownChecked(SessionSeen(t.(memory := StreaksSeen(t.memory, o)), o), o))
  }

  /** The tracker an accepted observation leaves behind. */
  function Tracked(t: Tracker, o: Observation): Tracker {
    Recorded(if t.breakers.remaining > 0 then CountedDown(Judged(t, o)) else Judged(t, o), o)
  }

  lemma ObservedIsTracked(t: Tracker, o: Observation)
    requires Observed(t, o).Ok?
    ensures Observed(t, o).value.tracker == Tracked(t, o)
  {
  }

  /** Looking at streaks, session and limits touches neither the cooldown nor its counters. */
  lemma LimitedKeepsCooldown(t: Tracker, o: Observation)
    ensures var u := Limited(t, o);
      && u.breakers.remaining == t.breakers.remaining && u.breakers.releasePending == t.breakers.releasePending
      && u.counters.blocked == t.counters.blocked && u.counters.streak == t.counters.streak
      && u.counters.cooldownReleases == t.counters.cooldownReleases
  {
    var seen := SessionSeen(t.(memory := StreaksSeen(t.memory, o)), o);
    assert seen.breakers.remaining == t.breakers.remaining;
    assert seen.breakers.releasePending == t.breakers.releasePending;
    var drawn := DrawdownChecked(seen, o);
    assert drawn.breakers.remaining == t.breakers.remaining;
    assert drawn.breakers.releasePending == t.breakers.releasePending;
  }

  lemma ReleaseKeepsCooldownLedger(t: Tracker, o: Observation)
    requires CooldownLedger(t)
    ensures CooldownLedger(ReleaseChecked(t, o))
    ensures t.breakers.remaining > 0 ==> ReleaseChecked(t, o).breakers.remaining == t.breakers.remaining
  {
  }

  lemma TriggerKeepsCooldownLedger(t: Tracker)
    requires CooldownLedger(t)
    ensures CooldownLedger(StreakChecked(t))
    ensures t.breakers.remaining > 0 ==> StreakChecked(t).breakers.remaining == t.breakers.remaining
  {
  }

  lemma CountingKeepsCooldownLedger(t: Tracker)
    requires CooldownLedger(t) && t.breakers.remaining > 0
    ensures CooldownLedger(CountedDown(t))
  {
  }

  lemma CooldownLedgerStep(t: Tracker, o: Observation)
    requires CooldownLedger(t)
    ensures CooldownLedger(Tracked(t, o))
  {
    LimitedKeepsCooldown(t, o);
    ReleaseKeepsCooldownLedger(Limited(t, o), o);
    TriggerKeepsCooldownLedger(ReleaseChecked(Limited(t, o), o));
    if t.breakers.remaining > 0 {
      CountingKeepsCooldownLedger(Judged(t, o));
    }
  }

  lemma SeenKeepsTriggerLedger(t: Tracker, o: Observation)
    requires TriggerLedger(t) && StreakLedger(t)
    ensures TriggerLedger(SessionSeen(t.(memory := StreaksSeen(t.memory, o)), o))
  {
  }

  lemma LimitsKeepTriggerLedger(t: Tracker, o: Observation)
    requires TriggerLedger(t)
    ensures TriggerLedger(SessionChecked(DrawdownChecked(t, o)))
  {
    assert TriggerLedger(DrawdownChecked(t, o));
  }

  lemma CooldownRulesKeepTriggerLedger(t: Tracker, o: Observation)
    requires TriggerLedger(t)
    ensures TriggerLedger(StreakChecked(ReleaseChecked(t, o)))
  {
    assert TriggerLedger(ReleaseChecked(t, o));
  }

  lemma TriggerLedgerStep(t: Tracker, o: Observation)
    requires TriggerLedger(t) && StreakLedger(t)
    ensures TriggerLedger(Tracked(t, o))
  {
    SeenKeepsTriggerLedger(t, o);
    LimitsKeepTriggerLedger(SessionSeen(t.(memory := StreaksSeen(t.memory, o)), o), o);
    CooldownRulesKeepTriggerLedger(Limited(t, o), o);
  }

  /** Streaks stay ordered and a session is open once anything has been observed. */
  predicate StreaksOrdered(t: Tracker) {
    && 0 <= t.memory.eligibleLosses <= t.memory.observedLosses <= t.memory.observedLossesPeak
    && t.memory.sessionStartTime.Some? == t.memory.sessionStartEquity.Some?
  }

  lemma LimitedOrdersStreaks(t: Tracker, o: Observation)
    requires StreakLedger(t)
    ensures StreaksOrdered(Limited(t, o)) && Limited(t, o).memory.sessionStartTime.Some?
  {
    var seen := SessionSeen(t.(memory := StreaksSeen(t.memory, o)), o);
    assert StreaksOrdered(seen) && seen.memory.sessionStartTime.Some?;
    assert StreaksOrdered(DrawdownChecked(seen, o));
  }

  /** Release and trigger leave the eligibility streak at its limit only while cooling. */
  lemma CooldownRulesBoundStreak(t: Tracker, o: Observation)
    requires StreaksOrdered(t) && t.memory.sessionStartTime.Some? && CooldownLedger(t)
    ensures StreakLedger(StreakChecked(ReleaseChecked(t, o)))
  {
    var released := ReleaseChecked(t, o);
    assert StreaksOrdered(released) && released.memory.sessionStartTime.Some?;
  }

  lemma StreakLedgerStep(t: Tracker, o: Observation)
    requires CooldownLedger(t) && StreakLedger(t)
    ensures StreakLedger(Judged(t, o)) && StreakLedger(Tracked(t, o))
  {
    LimitedKeepsCooldown(t, o);
    LimitedOrdersStreaks(t, o);
    CooldownRulesBoundStreak(Limited(t, o), o);
    if t.breakers.remaining > 0 {
      ReleaseKeepsCooldownLedger(Limited(t, o), o);
      TriggerKeepsCooldownLedger(ReleaseChecked(Limited(t, o), o));
    }
  }

  /** With a session always open and the cooldown never below nought, only a jump in the close count is rejected. */
  lemma OnlyCloseJumpRejected(t: Tracker, o: Observation)
    requires StreakLedger(Judged(t, o)) && Judged(t, o).memory.sessionStartTime.Some?
    requires t.breakers.remaining > 0 ==> Judged(t, o).breakers.remaining == t.breakers.remaining
    requires Observed(t, o).Err?
    ensures Observed(t, o).error == CloseCountJumped
  {
  }

  lemma JudgedCooling(t: Tracker, o: Observation)
    requires CooldownLedger(t) && StreakLedger(t)
    ensures Judged(t, o).memory.sessionStartTime.Some?
    ensures t.breakers.remaining > 0 ==> Judged(t, o).breakers.remaining == t.breakers.remaining
  {
    LimitedKeepsCooldown(t, o);
    LimitedOrdersStreaks(t, o);
    ReleaseKeepsCooldownLedger(Limited(t, o), o);
    TriggerKeepsCooldownLedger(ReleaseChecked(Limited(t, o), o));
  }

  lemma LedgersStep(t: Tracker, o: Observation)
    requires Ledgers(t)
    ensures Observed(t, o).Ok? ==> Ledgers(Observed(t, o).value.tracker)
    ensures Observed(t, o).Err? ==> Observed(t, o).error == CloseCountJumped
  {
    StreakLedgerStep(t, o);
    if Observed(t, o).Ok? {
      ObservedIsTracked(t, o);
      CooldownLedgerStep(t, o);
      TriggerLedgerStep(t, o);
    } else {
      JudgedCooling(t, o);
      OnlyCloseJumpRejected(t, o);
    }
  }

  /** Every reachable tracker keeps its ledgers, and the only rejection possible is a jump in the close count. */
  lemma {:induction false} LedgersAlways(initial: real, h: seq<Observation>)
    ensures match Track(initial, h)
      case Ok(t) => Ledgers(t)
      case Err(e) => e == CloseCountJumped
  {
    if h != [] {
      LedgersAlways(initial, h[..|h| - 1]);
      var before := Track(initial, h[..|h| - 1]);
      if before.Ok? {
        LedgersStep(before.value, h[|h| - 1]);
      }
    }
  }

  // ---------- Fail closed ----------

  predicate InForce(b: Breakers) {
    b.hardLatched || b.sessionBlock || b.remaining > 0 || b.releasePending
  }

  /**
   The kill switch is on exactly while some breaker is in force after the observation; off, no threshold is breached.
   */
  lemma FailsClosed(t: Tracker, o: Observation)
    requires Ledgers(t) && Observed(t, o).Ok?
    ensures var seen := Observed(t, o).value;
      && (seen.state.killSwitch <==> InForce(seen.tracker.breakers))
      && (!seen.state.killSwitch ==> ThresholdReasons(seen.state) == [])
  {
  }

  /** The state reported to the veto is the tracker's own memory and the snapshot's own figures. */
  lemma StateIsFaithful(t: Tracker, o: Observation)
    requires Ledgers(t) && Observed(t, o).Ok?
    ensures var s, m := Observed(t, o).value.state, Observed(t, o).value.tracker.memory;
      && s.equity == o.equity && s.cash == o.cash && s.positionQuantity == o.assetQuantity
      && s.peak == m.peak && s.sessionPnl == m.sessionPnl && s.consecutiveLosses == m.eligibleLosses
      && Some(s.sessionStartTime) == m.sessionStartTime && Some(s.sessionStartEquity) == m.sessionStartEquity
      && (s.openPositions == 1 <==> o.assetQuantity > 0.0)
  {
  }

  /** Once latched by drawdown the tracker stays latched and never again reports an open gate. */
  lemma HardLatchIsPermanent(t: Tracker, o: Observation)
    requires t.breakers.hardLatched && Observed(t, o).Ok?
    ensures Observed(t, o).value.tracker.breakers.hardLatched
    ensures Observed(t, o).value.state.killSwitch
  {
  }

  lemma {:induction false} HardLatchOverRuns(initial: real, h: seq<Observation>, n: nat)
    requires n <= |h| && Track(initial, h).Ok?
    ensures Track(initial, h[..n]).Ok?
    ensures Track(initial, h[..n]).value.breakers.hardLatched ==> Track(initial, h).value.breakers.hardLatched
    decreases |h|
  {
    if n == |h| {
      assert h[..n] == h;
    } else {
      assert h[..|h| - 1][..n] == h[..n];
      HardLatchOverRuns(initial, h[..|h| - 1], n);
      if Track(initial, h[..n]).value.breakers.hardLatched {
        HardLatchIsPermanent(Track(initial, h[..|h| - 1]).value, h[|h| - 1]);
      }
    }
  }

  /** The latch trips exactly when the fall from the running peak reaches the limit. */
  lemma HardLatchTripsExactlyWhen(t: Tracker, o: Observation)
    requires Observed(t, o).Ok? && !t.breakers.hardLatched
    ensures var after := Observed(t, o).value.tracker;
      after.breakers.hardLatched <==> after.memory.peak - o.equity >= after.memory.peak * 0.10
  {
  }

  /** A session block is lifted only by a new session, and set exactly when the session loss reaches its limit. */
  lemma SessionBlockExactlyWhen(t: Tracker, o: Observation)
    requires Ledgers(t) && Observed(t, o).Ok?
    ensures var after := Observed(t, o).value.tracker;
      after.breakers.sessionBlock <==>
        || (t.breakers.sessionBlock && t.memory.sessionStartTime == Some(o.Session()))
        || Max(-after.memory.sessionPnl, 0.0) >= after.memory.sessionStartEquity.value * 0.02
  {
  }

  // ---------- The cooldown ----------

  /** This observation starts a cooldown. */
  predicate Starts(t: Tracker, o: Observation) {
    Observed(t, o).Ok? && Observed(t, o).value.tracker.counters.streak == t.counters.streak + 1
  }

  lemma StartsFull(t: Tracker, o: Observation)
    requires Ledgers(t) && Starts(t, o)
    ensures Observed(t, o).value.tracker.breakers.remaining == 24
    ensures Observed(t, o).value.state.killSwitch
  {
  }

  lemma CoolingStep(t: Tracker, o: Observation)
    requires Ledgers(t) && t.breakers.remaining > 0 && Observed(t, o).Ok?
    ensures var seen := Observed(t, o).value;
      && seen.state.killSwitch
      && seen.tracker.breakers.remaining == t.breakers.remaining - 1
      && seen.tracker.breakers.releasePending == (t.breakers.remaining == 1)
      && seen.tracker.counters.streak == t.counters.streak
      && seen.tracker.counters.cooldownReleases == t.counters.cooldownReleases
  {
  }

  /** Continue a history from a tracker already under way. */
  function Continue(t: Tracker, h: seq<Observation>): Result<Tracker, TrackerError> {
    if h == [] then Ok(t)
    else match Continue(t, h[..|h| - 1])
      case Err(e) => Err(e)
      case Ok(u) =>
        match Observed(u, h[|h| - 1])
        case Err(e) => Err(e)
        case Ok(seen) => Ok(seen.tracker)
  }

  lemma {:induction false} CooldownRunsDown(t: Tracker, h: seq<Observation>)
    requires Ledgers(t) && |h| <= t.breakers.remaining && Continue(t, h).Ok?
    ensures var u := Continue(t, h).value;
      && Ledgers(u)
      && u.breakers.remaining == t.breakers.remaining - |h|
      && u.counters.streak == t.counters.streak
      && u.counters.blocked == t.counters.blocked + |h|
  {
    if h != [] {
      CooldownRunsDown(t, h[..|h| - 1]);
      var before := Continue(t, h[..|h| - 1]).value;
      LedgersStep(before, h[|h| - 1]);
      CoolingStep(before, h[|h| - 1]);
    }
  }

  /** A losing streak blocks the observation that completes it and each of the next 24, whatever they bring. */
  lemma CooldownBlocksNext24(t: Tracker, o: Observation, h: seq<Observation>, next: Observation)
    requires Ledgers(t) && Starts(t, o) && |h| < 24
    requires Continue(Observed(t, o).value.tracker, h).Ok?
    requires Observed(Continue(Observed(t, o).value.tracker, h).value, next).Ok?
    ensures Observed(t, o).value.state.killSwitch
    ensures Observed(Continue(Observed(t, o).value.tracker, h).value, next).value.state.killSwitch
  {
    LedgersStep(t, o);
    StartsFull(t, o);
    CooldownRunsDown(Observed(t, o).value.tracker, h);
    CoolingStep(Continue(Observed(t, o).value.tracker, h).value, next);
  }

  /** A served cooldown is released exactly when the account is flat and no harder breaker holds. */
  lemma ReleasedExactlyWhen(t: Tracker, o: Observation)
    requires Ledgers(t) && t.breakers.releasePending && Observed(t, o).Ok?
    ensures var after := Observed(t, o).value.tracker;
      && (!after.breakers.releasePending <==>
            o.assetQuantity == 0.0 && !after.breakers.hardLatched && !after.breakers.sessionBlock)
      && (!after.breakers.releasePending ==> after.memory.eligibleLosses == 0 && after.breakers.remaining == 0)
  {
  }

  // ---------- Memory ----------

  /** The closes of a history in order, each marked losing or not. */
  function Closes(h: seq<Observation>): seq<bool> {
    if h == [] then []
    else
      var o := h[|h| - 1];
      var closedBefore := if |h| == 1 then 0 else h[|h| - 2].closedTrades;
      var realizedBefore := if |h| == 1 then 0.0 else h[|h| - 2].realized;
      var earlier := Closes(h[..|h| - 1]);
      if o.closedTrades == closedBefore then earlier else earlier + [o.realized < realizedBefore]
  }

  /** The last n closes lost, and the one before them, if any, did not. */
  ghost predicate TrailingLosses(closes: seq<bool>, n: int) {
    && 0 <= n <= |closes|
    && (forall k :: |closes| - n <= k < |closes| ==> closes[k])
    && (n < |closes| ==> !closes[|closes| - n - 1])
  }

  /** Where the session of the latest observation began. */
  function SessionFirst(h: seq<Observation>): (k: nat)
    requires h != []
    ensures k < |h|
  {
    if |h| == 1 || h[|h| - 2].Session() != h[|h| - 1].Session() then |h| - 1 else SessionFirst(h[..|h| - 1])
  }

  /** The session is the unbroken run of the latest observation's day. */
  lemma {:induction false} SessionIsUnbroken(h: seq<Observation>)
    requires h != []
    ensures forall k :: SessionFirst(h) <= k < |h| ==> h[k].Session() == h[|h| - 1].Session()
    ensures SessionFirst(h) > 0 ==> h[SessionFirst(h) - 1].Session() != h[SessionFirst(h)].Session()
  {
    if !(|h| == 1 || h[|h| - 2].Session() != h[|h| - 1].Session()) {
      SessionIsUnbroken(h[..|h| - 1]);
    }
  }

  ghost predicate IsPeak(initial: real, h: seq<Observation>, peak: real) {
    && initial <= peak
    && (forall k :: 0 <= k < |h| ==> h[k].equity <= peak)
    && (peak == initial || exists k :: 0 <= k < |h| && h[k].equity == peak)
  }

  /** The tracker remembers exactly what the history says. */
  ghost predicate Remembers(initial: real, h: seq<Observation>, t: Tracker) {
    && IsPeak(initial, h, t.memory.peak)
    && TrailingLosses(Closes(h), t.memory.observedLosses)
    && (h == [] ==> t.memory == NewTracker(initial).memory)
    && (h != [] ==>
          var first, last := h[SessionFirst(h)], h[|h| - 1];
          && t.memory.previousRealized == last.realized && t.memory.previousClosed == last.closedTrades
          && t.memory.sessionStartTime == Some(last.Session())
          && t.memory.sessionStartEquity == Some(first.equity)
          && t.memory.sessionPnl == last.realized - first.realized)
  }

  lemma PeakStep(initial: real, h: seq<Observation>, o: Observation, peak: real)
    requires IsPeak(initial, h, peak)
    ensures IsPeak(initial, h + [o], Max(peak, o.equity))
  {
    var longer := h + [o];
    if peak < o.equity {
      assert longer[|h|].equity == o.equity;
    } else if peak != initial {
      var k :| 0 <= k < |h| && h[k].equity == peak;
      assert longer[k].equity == peak;
    }
  }

  lemma TrailingStep(closes: seq<bool>, n: int, losing: bool)
    requires TrailingLosses(closes, n)
    ensures TrailingLosses(closes + [losing], if losing then n + 1 else 0)
  {
  }

  lemma ClosesStep(h: seq<Observation>, o: Observation)
    ensures var before := if h == [] then 0 else h[|h| - 1].closedTrades;
      var realized := if h == [] then 0.0 else h[|h| - 1].realized;
      Closes(h + [o]) == if o.closedTrades == before then Closes(h) else Closes(h) + [o.realized < realized]
  {
    var longer := h + [o];
    assert longer[..|h|] == h;
    assert h != [] ==> longer[|longer| - 2] == h[|h| - 1];
  }

  lemma LossesStep(h: seq<Observation>, o: Observation, m: Memory)
    requires TrailingLosses(Closes(h), m.observedLosses)
    requires m.previousRealized == (if h == [] then 0.0 else h[|h| - 1].realized)
    requires m.previousClosed == (if h == [] then 0 else h[|h| - 1].closedTrades)
    requires o.closedTrades - m.previousClosed == 0 || o.closedTrades - m.previousClosed == 1
    ensures TrailingLosses(Closes(h + [o]), StreaksSeen(m, o).observedLosses)
  {
    ClosesStep(h, o);
    var losing := o.realized < m.previousRealized;
    if o.closedTrades == m.previousClosed {
      assert Closes(h + [o]) == Closes(h) && StreaksSeen(m, o).observedLosses == m.observedLosses;
    } else {
      assert Closes(h + [o]) == Closes(h) + [losing];
      TrailingStep(Closes(h), m.observedLosses, losing);
      assert StreaksSeen(m, o).observedLosses == if losing then m.observedLosses + 1 else 0;
    }
  }

  lemma SessionStep(h: seq<Observation>, o: Observation)
    ensures SessionFirst(h + [o]) == if h == [] || h[|h| - 1].Session() != o.Session() then |h| else SessionFirst(h)
  {
    var longer := h + [o];
    assert longer[..|h|] == h;
    assert h != [] ==> longer[|longer| - 2] == h[|h| - 1];
  }

  /** What an accepted observation leaves in memory, field by field. */
  lemma TrackedMemory(t: Tracker, o: Observation)
    ensures var m, streaks := Tracked(t, o).memory, StreaksSeen(t.memory, o);
      var session := SessionSeen(t.(memory := streaks), o).memory;
      && m.peak == Max(t.memory.peak, o.equity) && m.observedLosses == streaks.observedLosses
      && m.previousRealized == o.realized && m.previousClosed == o.closedTrades
      && m.sessionStartTime == session.sessionStartTime && m.sessionStartEquity == session.sessionStartEquity
      && m.sessionPnl == session.sessionPnl
  {
    var seen := SessionSeen(t.(memory := StreaksSeen(t.memory, o)), o);
    assert seen.memory.peak == t.memory.peak;
    var drawn := DrawdownChecked(seen, o);
    assert drawn.memory == seen.memory.(peak := Max(t.memory.peak, o.equity));
    assert SessionChecked(drawn).memory == drawn.memory;
  }

  /** The session of the longer history, as the session rule sees it. */
  lemma SessionRemembered(h: seq<Observation>, o: Observation, t: Tracker)
    requires h == [] ==> t.memory.sessionStartTime == None
    requires h != [] ==>
      var first, last := h[SessionFirst(h)], h[|h| - 1];
      && t.memory.previousRealized == last.realized && t.memory.sessionStartTime == Some(last.Session())
      && t.memory.sessionStartEquity == Some(first.equity) && t.memory.sessionPnl == last.realized - first.realized
    ensures var m := SessionSeen(t, o).memory;
      var first := (h + [o])[SessionFirst(h + [o])];
      && m.sessionStartTime == Some(o.Session()) && m.sessionStartEquity == Some(first.equity)
      && m.sessionPnl == o.realized - first.realized
  {
    SessionStep(h, o);
    assert h != [] ==> (h + [o])[SessionFirst(h)] == h[SessionFirst(h)];
  }

  lemma MemoryStep(initial: real, h: seq<Observation>, o: Observation, t: Tracker)
    requires Remembers(initial, h, t)
    requires o.closedTrades - t.memory.previousClosed == 0 || o.closedTrades - t.memory.previousClosed == 1
    ensures Remembers(initial, h + [o], Tracked(t, o))
  {
    PeakStep(initial, h, o, t.memory.peak);
    LossesStep(h, o, t.memory);
    SessionRemembered(h, o, t.(memory := StreaksSeen(t.memory, o)));
    TrackedMemory(t, o);
    assert (h + [o])[|h + [o]| - 1] == o;
  }

  /** Memory is exact over every run: session profit, peak and the trailing run of losing closes. */
  lemma {:induction false} MemoryIsExact(initial: real, h: seq<Observation>)
    requires Track(initial, h).Ok?
    ensures Remembers(initial, h, Track(initial, h).value)
  {
    if h != [] {
      var before := Track(initial, h[..|h| - 1]).value;
      MemoryIsExact(initial, h[..|h| - 1]);
      MemoryStep(initial, h[..|h| - 1], h[|h| - 1], before);
      ObservedIsTracked(before, h[|h| - 1]);
      assert h[..|h| - 1] + [h[|h| - 1]] == h;
    }
  }

  // ---------- When a cooldown starts ----------

  /** An observation that finds the account flat, with no harder breaker in force, releases a served cooldown. */
  predicate Releases(t: Tracker, o: Observation) {
    && t.breakers.releasePending && o.assetQuantity == 0.0
    && Observed(t, o).Ok?
    && !Observed(t, o).value.tracker.breakers.hardLatched && !Observed(t, o).value.tracker.breakers.sessionBlock
  }

  /** How many observations the history held once the latest cooldown was released. */
  function ReleasedAt(initial: real, h: seq<Observation>): (n: nat)
    ensures n <= |h|
  {
    if h == [] then 0
    else
      var before := Track(initial, h[..|h| - 1]);
      if before.Ok? && Releases(before.value, h[|h| - 1]) then |h| else ReleasedAt(initial, h[..|h| - 1])
  }

  lemma {:induction false} ClosesOfPrefix(h: seq<Observation>, n: nat)
    requires n <= |h|
    ensures Closes(h[..n]) <= Closes(h)
    decreases |h|
  {
    if n == |h| {
      assert h[..n] == h;
      return;
    }
    var shorter := h[..|h| - 1];
    ClosesOfPrefix(shorter, n);
    assert shorter[..n] == h[..n];
    ClosesStep(shorter, h[|h| - 1]);
    assert shorter + [h[|h| - 1]] == h;
  }

  /** The closes since the latest release, in order, each marked losing or not. */
  ghost function ClosesSince(initial: real, h: seq<Observation>): seq<bool> {
    var cut := Closes(h[..ReleasedAt(initial, h)]);
    if |cut| <= |Closes(h)| then Closes(h)[|cut|..] else []
  }

  lemma SinceGrows(initial: real, h: seq<Observation>, o: Observation, t: Tracker)
    requires Track(initial, h) == Ok(t)
    ensures var before := if h == [] then 0 else h[|h| - 1].closedTrades;
      var realized := if h == [] then 0.0 else h[|h| - 1].realized;
      ClosesSince(initial, h + [o])
        == if Releases(t, o) then []
           else if o.closedTrades == before then ClosesSince(initial, h)
           else ClosesSince(initial, h) + [o.realized < realized]
  {
    var longer, n := h + [o], ReleasedAt(initial, h);
    assert longer[..|h|] == h && longer[..|longer|] == longer;
    if !Releases(t, o) {
      assert longer[..n] == h[..n];
      ClosesOfPrefix(h, n);
      ClosesOfPrefix(longer, n);
      ClosesStep(h, o);
    }
  }

  /** The streak that counts for a cooldown is the trailing run of losing closes since the latest release. */
  lemma EligibleStep(initial: real, h: seq<Observation>, o: Observation, t: Tracker)
    requires Track(initial, h) == Ok(t) && Ledgers(t) && Remembers(initial, h, t) && Observed(t, o).Ok?
    requires TrailingLosses(ClosesSince(initial, h), t.memory.eligibleLosses)
    ensures TrailingLosses(ClosesSince(initial, h + [o]), Tracked(t, o).memory.eligibleLosses)
  {
    SinceGrows(initial, h, o, t);
    EligibleTracked(t, o);
    if !Releases(t, o) && o.closedTrades != t.memory.previousClosed {
      TrailingStep(ClosesSince(initial, h), t.memory.eligibleLosses, o.realized < t.memory.previousRealized);
    }
  }

  lemma EligibleTracked(t: Tracker, o: Observation)
    requires Ledgers(t) && Observed(t, o).Ok?
    ensures Tracked(t, o).memory.eligibleLosses
         == if Releases(t, o) then 0
            else if o.closedTrades == t.memory.previousClosed then t.memory.eligibleLosses
            else if o.realized < t.memory.previousRealized then t.memory.eligibleLosses + 1 else 0
  {
    ObservedIsTracked(t, o);
    LimitedKeepsEligible(t, o);
    BreakersTracked(t, o);
  }

  lemma LimitedKeepsEligible(t: Tracker, o: Observation)
    ensures Limited(t, o).memory.eligibleLosses == StreaksSeen(t.memory, o).eligibleLosses
    ensures Limited(t, o).breakers.releasePending == t.breakers.releasePending
    ensures Limited(t, o).breakers.remaining == t.breakers.remaining
  {
    LimitedKeepsCooldown(t, o);
    var seen := SessionSeen(t.(memory := StreaksSeen(t.memory, o)), o);
    assert seen.memory.eligibleLosses == StreaksSeen(t.memory, o).eligibleLosses;
    assert DrawdownChecked(seen, o).memory.eligibleLosses == seen.memory.eligibleLosses;
  }

  /** The harder breakers are settled before the cooldown rules, which leave them alone. */
  lemma BreakersTracked(t: Tracker, o: Observation)
    ensures Tracked(t, o).breakers.hardLatched == Limited(t, o).breakers.hardLatched
    ensures Tracked(t, o).breakers.sessionBlock == Limited(t, o).breakers.sessionBlock
  {
  }

  /** The latest observation took the tracker of the history before it to the present one. */
  lemma TrackLatest(initial: real, h: seq<Observation>, t: Tracker) returns (before: Tracker)
    requires h != [] && Track(initial, h) == Ok(t)
    ensures Track(initial, h[..|h| - 1]) == Ok(before) && Ledgers(before) && Remembers(initial, h[..|h| - 1], before)
    ensures Observed(before, h[|h| - 1]).Ok? && Tracked(before, h[|h| - 1]) == t
  {
    before := Track(initial, h[..|h| - 1]).value;
    LedgersAlways(initial, h[..|h| - 1]);
    MemoryIsExact(initial, h[..|h| - 1]);
    ObservedIsTracked(before, h[|h| - 1]);
  }

  lemma NoneSince(initial: real)
    ensures ClosesSince(initial, []) == []
  {
  }

  lemma {:induction false} EligibleIsExact(initial: real, h: seq<Observation>, t: Tracker)
    requires Track(initial, h) == Ok(t)
    ensures TrailingLosses(ClosesSince(initial, h), t.memory.eligibleLosses)
    decreases |h|, 0
  {
    if h == [] {
      NoneSince(initial);
      return;
    }
    var shorter, o := h[..|h| - 1], h[|h| - 1];
    var before := TrackLatest(initial, h, t);
    assert shorter + [o] == h;
    EligibleLatest(initial, shorter, o, before, h, t);
  }

  lemma {:induction false} EligibleLatest(initial: real, shorter: seq<Observation>, o: Observation, before: Tracker,
      h: seq<Observation>, t: Tracker)
    requires Track(initial, shorter) == Ok(before) && Ledgers(before) && Remembers(initial, shorter, before)
    requires Observed(before, o).Ok? && Tracked(before, o) == t && h == shorter + [o]
    ensures TrailingLosses(ClosesSince(initial, h), t.memory.eligibleLosses)
    decreases |shorter|, 1
  {
    EligibleIsExact(initial, shorter, before);
    EligibleStep(initial, shorter, o, before);
  }

  /** The last three closes all lost. */
  predicate ThreeLost(closes: seq<bool>) {
    var n := |closes|;
    n >= 3 && closes[n - 1] && closes[n - 2] && closes[n - 3]
  }

  lemma ThreeLostMeans(closes: seq<bool>, n: int)
    requires TrailingLosses(closes, n)
    ensures ThreeLost(closes) <==> n >= 3
  {
  }

  lemma StartsWhenLimit(t: Tracker, o: Observation)
    requires Ledgers(t) && Observed(t, o).Ok?
    ensures var after := Observed(t, o).value.tracker;
      Starts(t, o) <==>
        t.breakers.remaining == 0 && !after.breakers.releasePending && after.memory.eligibleLosses >= 3
  {
    ObservedIsTracked(t, o);
    LimitedKeepsCooldown(t, o);
  }

  /**
   Over every history: an observation starts a cooldown, of 24 decisions and with the kill switch on, exactly when none
   is running, none waits for its release after it, and the last three closes since the latest release all lost.
   */
  lemma StartsExactlyWhen(initial: real, h: seq<Observation>, o: Observation, t: Tracker)
    requires Track(initial, h) == Ok(t) && Observed(t, o).Ok?
    ensures var after := Observed(t, o).value.tracker;
      Starts(t, o) <==>
        t.breakers.remaining == 0 && !after.breakers.releasePending && ThreeLost(ClosesSince(initial, h + [o]))
    ensures Starts(t, o) ==>
      Observed(t, o).value.tracker.breakers.remaining == 24 && Observed(t, o).value.state.killSwitch
  {
    LedgersAlways(initial, h);
    StartsWhenLimit(t, o);
    assert (h + [o])[..|h|] == h;
    var after := Observed(t, o).value.tracker;
    EligibleIsExact(initial, h + [o], after);
    ThreeLostMeans(ClosesSince(initial, h + [o]), after.memory.eligibleLosses);
    if Starts(t, o) {
      StartsFull(t, o);
    }
  }

  // ---------- The longest losing run ----------

  /** Consecutive closes that all lost. */
  ghost predicate LosingRun(closes: seq<bool>, i: nat, j: nat) {
    i <= j <= |closes| && forall k :: i <= k < j ==> closes[k]
  }

  ghost predicate LongestRun(closes: seq<bool>, n: int) {
    && (forall i: nat, j: nat :: LosingRun(closes, i, j) ==> j - i <= n)
    && exists i: nat, j: nat :: LosingRun(closes, i, j) && j - i == n
  }

  lemma LongestStep(closes: seq<bool>, trailing: int, longest: int, losing: bool)
    requires TrailingLosses(closes, trailing) && LongestRun(closes, longest)
    ensures LongestRun(closes + [losing], IntMax(longest, if losing then trailing + 1 else 0))
  {
    var longer, n, t := closes + [losing], |closes|, if losing then trailing + 1 else 0;
    forall i: nat, j: nat | LosingRun(longer, i, j) ensures j - i <= IntMax(longest, t) {
      if j <= n {
        assert forall k :: i <= k < j ==> longer[k] == closes[k];
        assert LosingRun(closes, i, j);
      } else {
        LastRunIsTrailing(longer, t, i);
      }
    }
    if t > longest {
      assert LosingRun(longer, n + 1 - t, n + 1);
    } else {
      var i: nat, j: nat :| LosingRun(closes, i, j) && j - i == longest;
      assert LosingRun(longer, i, j);
    }
  }

  lemma LastRunIsTrailing(closes: seq<bool>, n: int, i: nat)
    requires LosingRun(closes, i, |closes|) && TrailingLosses(closes, n)
    ensures |closes| - i <= n
  {
  }

  /** The remembered peak of the losing streak is the length of the longest run of losing closes in the history. */
  lemma {:induction false} LossesPeakIsExact(initial: real, h: seq<Observation>, t: Tracker)
    requires Track(initial, h) == Ok(t)
    ensures LongestRun(Closes(h), t.memory.observedLossesPeak)
    decreases |h|
  {
    if h == [] {
      assert LosingRun(Closes(h), 0, 0);
      return;
    }
    var before := TrackLatest(initial, h, t);
    LossesPeakIsExact(initial, h[..|h| - 1], before);
    LossesPeakStep(initial, h[..|h| - 1], h[|h| - 1], before);
    assert h[..|h| - 1] + [h[|h| - 1]] == h;
  }

  lemma LossesPeakStep(initial: real, h: seq<Observation>, o: Observation, t: Tracker)
    requires Ledgers(t) && Remembers(initial, h, t) && Observed(t, o).Ok?
    requires LongestRun(Closes(h), t.memory.observedLossesPeak)
    ensures LongestRun(Closes(h + [o]), Tracked(t, o).memory.observedLossesPeak)
  {
    PeakTracked(t, o);
    ClosesStep(h, o);
    if o.closedTrades != t.memory.previousClosed {
      LongestStep(Closes(h), t.memory.observedLosses, t.memory.observedLossesPeak,
                  o.realized < t.memory.previousRealized);
    }
  }

  lemma PeakTracked(t: Tracker, o: Observation)
    requires Ledgers(t) && Observed(t, o).Ok?
    ensures Tracked(t, o).memory.observedLossesPeak
         == if o.closedTrades == t.memory.previousClosed then t.memory.observedLossesPeak
            else IntMax(t.memory.observedLossesPeak,
                        if o.realized < t.memory.previousRealized then t.memory.observedLosses + 1 else 0)
  {
    var seen := SessionSeen(t.(memory := StreaksSeen(t.memory, o)), o);
    assert seen.memory.observedLossesPeak == StreaksSeen(t.memory, o).observedLossesPeak;
    assert DrawdownChecked(seen, o).memory.observedLossesPeak == seen.memory.observedLossesPeak;
  }
}
