/**
 The recovery risk tracker: a permanent drawdown latch, a block for the rest of a
 losing UTC session, and a cooldown of 24 decisions after three losses in a row
 that ends in a release waiting for a flat account.
 */
module RiskTracker {
  import opened Basics
  import opened Divisibility

  const COOLDOWN_DECISIONS := 24
  const MAX_CONSECUTIVE_LOSSES := 3

  function SessionLossLimit(sessionStartEquity: real): real {
    sessionStartEquity * 0.02
  }

  function DrawdownLimit(peak: real): real {
    peak * 0.10
  }

  /** What the tracker reads of one portfolio snapshot. */
  datatype Observation = Observation(
    time: int, equity: real, cash: real, realized: real, closedTrades: int, assetQuantity: real)
  {
    /** The start of the UTC day. */
    function Session(): (start: int)
      ensures start <= time < start + 86_400_000 && start % 86_400_000 == 0
    {
      DivisionBounds(time, DAY);
      time / DAY * DAY
    }
  }

  datatype RiskState = RiskState(
    equity: real,
    cash: real,
    positionQuantity: real,
    peak: real,
    sessionStartTime: int,
    sessionStartEquity: real,
    sessionPnl: real,
    consecutiveLosses: int,
    openPositions: int,
    killSwitch: bool)

  datatype Reason = SessionLossLimitHit | DrawdownLimitHit | ConsecutiveLossLimitHit

  function ThresholdReasons(s: RiskState): (r: seq<Reason>)
    ensures SessionLossLimitHit in r <==> Max(-s.sessionPnl, 0.0) >= s.sessionStartEquity * 0.02
    ensures DrawdownLimitHit in r <==> s.peak - s.equity >= s.peak * 0.10
    ensures ConsecutiveLossLimitHit in r <==> s.consecutiveLosses >= 3
  {
    (if Max(-s.sessionPnl, 0.0) >= SessionLossLimit(s.sessionStartEquity) then [SessionLossLimitHit] else [])
    + (if s.peak - s.equity >= DrawdownLimit(s.peak) then [DrawdownLimitHit] else [])
    + (if s.consecutiveLosses >= MAX_CONSECUTIVE_LOSSES then [ConsecutiveLossLimitHit] else [])
  }

  datatype TrackerError = CooldownNotRegistered | CloseCountJumped | NoSession | CooldownUnderflow

  datatype Counters = Counters(
    kill: nat, hard: nat, session: nat, streak: nat, sessionReleases: nat, cooldownReleases: nat, blocked: nat)

  datatype Memory = Memory(
    peak: real,
    sessionStartTime: Option<int>,
    sessionStartEquity: Option<real>,
    sessionPnl: real,
    previousRealized: real,
    previousClosed: int,
    observedLosses: int,
    eligibleLosses: int,
    observedLossesPeak: int)

  datatype Breakers = Breakers(hardLatched: bool, sessionBlock: bool, remaining: int, releasePending: bool)

  /** The tracker's value at one moment. */
  datatype Tracker = Tracker(memory: Memory, breakers: Breakers, counters: Counters)

  function NewTracker(initial: real): Tracker {
    Tracker(Memory(initial, None, None, 0.0, 0.0, 0, 0, 0, 0), Breakers(false, false, 0, false),
            Counters(0, 0, 0, 0, 0, 0, 0))
  }

  function IntMax(x: int, y: int): int {
    if x < y then y else x
  }

  /** A close extends or ends both losing streaks. */
  function StreaksSeen(m: Memory, o: Observation): Memory {
    var closed := o.closedTrades - m.previousClosed == 1;
    var losing := o.realized - m.previousRealized < 0.0;
    var observed := if !closed then m.observedLosses else if losing then m.observedLosses + 1 else 0;
    var eligible := if !closed then m.eligibleLosses else if losing then m.eligibleLosses + 1 else 0;
    m.(observedLosses := observed, eligibleLosses := eligible,
       observedLossesPeak := IntMax(m.observedLossesPeak, observed))
  }

  /** A new UTC day opens a new session and lifts a session block. */
  function SessionSeen(t: Tracker, o: Observation): Tracker {
    var m := t.memory;
    var restarted := m.(sessionStartTime := Some(o.Session()), sessionStartEquity := Some(o.equity), sessionPnl := 0.0);
    if m.sessionStartTime.None? then t.(memory := restarted)
    else if o.Session() != m.sessionStartTime.value then
      Tracker(restarted, t.breakers.(sessionBlock := false),
              if t.breakers.sessionBlock then t.counters.(sessionReleases := t.counters.sessionReleases + 1)
              else t.counters)
    else t.(memory := m.(sessionPnl := m.sessionPnl + (o.realized - m.previousRealized)))
  }

  function DrawdownChecked(t: Tracker, o: Observation): Tracker {
    var peak := Max(t.memory.peak, o.equity);
    var u := t.(memory := t.memory.(peak := peak));
    if peak - o.equity >= DrawdownLimit(peak) && !t.breakers.hardLatched then
      u.(breakers := u.breakers.(hardLatched := true),
         counters := u.counters.(hard := u.counters.hard + 1, kill := u.counters.kill + 1))
    else u
  }

  function SessionChecked(t: Tracker): Tracker {
    var start, loss := t.memory.sessionStartEquity, Max(-t.memory.sessionPnl, 0.0);
    if start.Some? && loss >= SessionLossLimit(start.value) then
      t.(breakers := t.breakers.(sessionBlock := true),
         counters := if t.breakers.sessionBlock then t.counters
                     else t.counters.(session := t.counters.session + 1, kill := t.counters.kill + 1))
    else t
  }

  /** A finished cooldown is released only flat, unlatched and unblocked. */
  function ReleaseChecked(t: Tracker, o: Observation): Tracker {
    if t.breakers.releasePending && o.assetQuantity == 0.0 && !t.breakers.hardLatched && !t.breakers.sessionBlock then
      Tracker(t.memory.(eligibleLosses := 0), t.breakers.(releasePending := false),
              t.counters.(cooldownReleases := t.counters.cooldownReleases + 1))
    else t
  }

  predicate StreakTriggers(t: Tracker) {
    !(t.breakers.remaining > 0) && !t.breakers.releasePending && t.memory.eligibleLosses >= MAX_CONSECUTIVE_LOSSES
  }

  function StreakChecked(t: Tracker): Tracker {
    if StreakTriggers(t) then
      t.(breakers := t.breakers.(remaining := COOLDOWN_DECISIONS),
         counters := t.counters.(streak := t.counters.streak + 1, kill := t.counters.kill + 1))
    else t
  }

  function Reported(m: Memory, o: Observation, kill: bool): RiskState
    requires m.sessionStartTime.Some? && m.sessionStartEquity.Some?
  {
    RiskState(o.equity, o.cash, o.assetQuantity, m.peak, m.sessionStartTime.value, m.sessionStartEquity.value,
              m.sessionPnl, m.eligibleLosses, if o.assetQuantity > 0.0 then 1 else 0, kill)
  }

  /** The tracker up to and including the breakers, before the cooldown counts down. */
  function Judged(t: Tracker, o: Observation): Tracker {
    var seen := SessionSeen(t.(memory := StreaksSeen(t.memory, o)), o);
    StreakChecked(ReleaseChecked(SessionChecked(DrawdownChecked(seen, o)), o))
  }

  /** A decision taken while already cooling is counted and brings the release one nearer. */
  function CountedDown(t: Tracker): Tracker {
    var left := t.breakers.remaining - 1;
    t.(breakers := t.breakers.(remaining := left, releasePending := t.breakers.releasePending || left == 0),
       counters := t.counters.(blocked := t.counters.blocked + 1))
  }

  function Recorded(t: Tracker, o: Observation): Tracker {
    t.(memory := t.memory.(previousRealized := o.realized, previousClosed := o.closedTrades))
  }

  datatype Seen = Seen(tracker: Tracker, state: RiskState)

  function Observed(t: Tracker, o: Observation): Result<Seen, TrackerError> {
    var closes := o.closedTrades - t.memory.previousClosed;
    if closes != 0 && closes != 1 then Err(CloseCountJumped)
    else
      var cooling := t.breakers.remaining > 0;
      var judged := Judged(t, o);
      var b := judged.breakers;
      var kill := b.hardLatched || b.sessionBlock || b.remaining > 0 || b.releasePending;
      var after := if cooling then CountedDown(judged) else judged;
      if judged.memory.sessionStartTime.None? || judged.memory.sessionStartEquity.None? then Err(NoSession)
      else if cooling && after.breakers.remaining < 0 then Err(CooldownUnderflow)
      else Ok(Seen(Recorded(after, o), Reported(judged.memory, o, kill)))
  }

  /** The mutable tracker. */
  class RecoveryCooldownRiskTracker {
    var peak: real
    var sessionStartTime: Option<int>
    var sessionStartEquity: Option<real>
    var sessionPnl: real
    var previousRealized: real
    var previousClosed: int
    var observedLosses: int
    var eligibleLosses: int
    var observedLossesPeak: int
    var hardLatched: bool
    var sessionBlock: bool
    var remaining: int
    var releasePending: bool
    var killCount: nat
    var hardCount: nat
    var sessionCount: nat
    var streakCount: nat
    var sessionReleases: nat
    var cooldownReleases: nat
    var blockedCount: nat

    function View(): Tracker
      reads this
    {
      Tracker(
        Memory(peak, sessionStartTime, sessionStartEquity, sessionPnl, previousRealized, previousClosed,
               observedLosses, eligibleLosses, observedLossesPeak),
        Breakers(hardLatched, sessionBlock, remaining, releasePending),
        Counters(killCount, hardCount, sessionCount, streakCount, sessionReleases, cooldownReleases, blockedCount))
    }

    constructor (initial: real)
      ensures View() == NewTracker(initial)
    {
      peak := initial;
      sessionStartTime, sessionStartEquity := None, None;
      sessionPnl, previousRealized, previousClosed := 0.0, 0.0, 0;
      observedLosses, eligibleLosses, observedLossesPeak := 0, 0, 0;
      hardLatched, sessionBlock, remaining, releasePending := false, false, 0, false;
      killCount, hardCount, sessionCount, streakCount := 0, 0, 0, 0;
      sessionReleases, cooldownReleases, blockedCount := 0, 0, 0;
    }

    method NoteCloses(o: Observation)
      requires o.closedTrades - previousClosed == 0 || o.closedTrades - previousClosed == 1
      modifies `observedLosses, `eligibleLosses, `observedLossesPeak
      ensures View() == old(View()).(memory := StreaksSeen(old(View()).memory, o))
    {
      if o.closedTrades - previousClosed != 0 {
        if o.realized - previousRealized < 0.0 {
          observedLosses := observedLosses + 1;
          eligibleLosses := eligibleLosses + 1;
        } else {
          observedLosses := 0;
          eligibleLosses := 0;
        }
      }
      observedLossesPeak := IntMax(observedLossesPeak, observedLosses);
    }

    method NoteSession(o: Observation)
      modifies this
      ensures View() == SessionSeen(old(View()), o)
    {
      var dayStart := o.Session();
      if sessionStartTime.None? {
        sessionStartTime := Some(dayStart);
        sessionStartEquity := Some(o.equity);
        sessionPnl := 0.0;
      } else if dayStart != sessionStartTime.value {
        if sessionBlock {
          sessionBlock := false;
          sessionReleases := sessionReleases + 1;
        }
        sessionStartTime := Some(dayStart);
        sessionStartEquity := Some(o.equity);
        sessionPnl := 0.0;
      } else {
        sessionPnl := sessionPnl + (o.realized - previousRealized);
      }
    }

    method CheckDrawdown(o: Observation)
      modifies this
      ensures View() == DrawdownChecked(old(View()), o)
    {
      peak := Max(peak, o.equity);
      if peak - o.equity >= DrawdownLimit(peak) && !hardLatched {
        hardLatched := true;
        hardCount := hardCount + 1;
        killCount := killCount + 1;
      }
    }

    method CheckSession()
      modifies this
      ensures View() == SessionChecked(old(View()))
    {
      if sessionStartEquity.Some? && Max(-sessionPnl, 0.0) >= SessionLossLimit(sessionStartEquity.value) {
        if !sessionBlock {
          sessionCount := sessionCount + 1;
          killCount := killCount + 1;
        }
        sessionBlock := true;
      }
    }

    method CheckStreak(o: Observation) returns (newCooldown: bool)
      modifies this
      ensures View() == StreakChecked(ReleaseChecked(old(View()), o))
      ensures newCooldown == StreakTriggers(ReleaseChecked(old(View()), o))
    {
      newCooldown := false;
      if releasePending && o.assetQuantity == 0.0 && !hardLatched && !sessionBlock {
        eligibleLosses := 0;
        releasePending := false;
        cooldownReleases := cooldownReleases + 1;
      }
      if !(remaining > 0) && !releasePending && eligibleLosses >= MAX_CONSECUTIVE_LOSSES {
        remaining := COOLDOWN_DECISIONS;
        newCooldown := true;
        streakCount := streakCount + 1;
        killCount := killCount + 1;
      }
    }

    method CountDown() returns (underflow: bool)
      modifies this
      ensures underflow == (CountedDown(old(View())).breakers.remaining < 0)
      ensures !underflow ==> View() == CountedDown(old(View()))
    {
      blockedCount := blockedCount + 1;
      remaining := remaining - 1;
      if remaining < 0 {
        return true;
      }
      if remaining == 0 {
        releasePending := true;
      }
      return false;
    }

    method Judge(o: Observation) returns (newCooldown: bool)
      requires o.closedTrades - previousClosed == 0 || o.closedTrades - previousClosed == 1
      modifies this
      ensures View() == Judged(old(View()), o)
      ensures newCooldown || old(View().breakers.remaining) > 0 <==> remaining > 0
    {
      NoteCloses(o);
      NoteSession(o);
      CheckDrawdown(o);
      CheckSession();
      newCooldown := CheckStreak(o);
    }

    /** An observation whose close count jumps is rejected before anything changes. */
    method Observe(o: Observation) returns (r: Result<RiskState, TrackerError>)
      modifies this
      ensures match Observed(old(View()), o)
              case Ok(seen) => r == Ok(seen.state) && View() == seen.tracker
              case Err(e) => r == Err(e) && (e == CloseCountJumped ==> View() == old(View()))
    {
      var closes := o.closedTrades - previousClosed;
      if closes != 0 && closes != 1 {
        return Err(CloseCountJumped);
      }
      var cooling := remaining > 0;
      var newCooldown := Judge(o);
      if sessionStartTime.None? || sessionStartEquity.None? {
        return Err(NoSession);
      }
      var kill := hardLatched || sessionBlock || cooling || newCooldown || releasePending;
      var state := Reported(View().memory, o, kill);
      if cooling {
        var underflow := CountDown();
        if underflow {
          return Err(CooldownUnderflow);
        }
      }
      previousRealized := o.realized;
      previousClosed := o.closedTrades;
      return Ok(state);
    }
  }

  /** Trackers are made for one registered cooldown length only. */
  method MakeTracker(initial: real, cooldown: int)
    returns (r: Result<Tracker, TrackerError>, t: RecoveryCooldownRiskTracker?)
    ensures r.Ok? <==> cooldown == COOLDOWN_DECISIONS
    ensures r.Ok? ==> t != null && fresh(t) && r.value == t.View() == NewTracker(initial)
  {
    if cooldown != COOLDOWN_DECISIONS {
      return Err(CooldownNotRegistered), null;
    }
    t := new RecoveryCooldownRiskTracker(initial);
    r := Ok(t.View());
  }
}
