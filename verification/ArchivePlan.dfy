/**
 Which archive files a transport range needs: a monthly file for every whole
 month, daily files elsewhere, and daily files that replace the registered
 override days inside a monthly file.
 */
module ArchivePlan {
  import opened Basics
  import opened Calendars

  datatype Symbol = BTCUSDT | ETHUSDT
  datatype Interval = Minutes15 | Hour1 | Hours4

  function Duration(interval: Interval): (d: nat)
    ensures 0 < d && DAY % d == 0
  {
    match interval
    case Minutes15 => 900_000
    case Hour1 => 3_600_000
    case Hours4 => 14_400_000
  }

  /** A UTC day, counted from the epoch, on which the monthly file is not to be trusted. */
  datatype OverrideRule = OverrideRule(day: nat, symbols: set<Symbol>, intervals: set<Interval>)

  /** 2020-12-21, 2021-09-29 and 2021-12-24. */
  const OVERRIDE_RULES := [
    OverrideRule(18617, {BTCUSDT, ETHUSDT}, {Minutes15, Hour1, Hours4}),
    OverrideRule(18899, {BTCUSDT, ETHUSDT}, {Minutes15, Hour1, Hours4}),
    OverrideRule(18985, {BTCUSDT}, {Minutes15, Hour1})
  ]

  predicate RuleCovers(r: OverrideRule, symbol: Symbol, interval: Interval) {
    symbol in r.symbols && interval in r.intervals
  }

  predicate Named(rules: seq<OverrideRule>, symbol: Symbol, interval: Interval, day: int) {
    exists k :: 0 <= k < |rules| && rules[k].day == day && RuleCovers(rules[k], symbol, interval)
  }

  predicate OverrideApplies(symbol: Symbol, interval: Interval, day: int) {
    Named(OVERRIDE_RULES, symbol, interval, day)
  }

  function CoveredDays(rules: seq<OverrideRule>, symbol: Symbol, interval: Interval): seq<nat> {
    if rules == [] then []
    else
      var rest := CoveredDays(rules[..|rules| - 1], symbol, interval);
      var r := rules[|rules| - 1];
      if RuleCovers(r, symbol, interval) then rest + [r.day] else rest
  }

  function OverrideDays(symbol: Symbol, interval: Interval): seq<nat> {
    CoveredDays(OVERRIDE_RULES, symbol, interval)
  }

  lemma NamedByLast(rules: seq<OverrideRule>, r: OverrideRule, symbol: Symbol, interval: Interval, day: int)
    ensures Named(rules + [r], symbol, interval, day)
       <==> Named(rules, symbol, interval, day) || (r.day == day && RuleCovers(r, symbol, interval))
  {
    var longer := rules + [r];
    assert longer[|rules|] == r;
    assert forall k :: 0 <= k < |rules| ==> longer[k] == rules[k];
  }

  lemma NamedBelow(rules: seq<OverrideRule>, symbol: Symbol, interval: Interval, day: int, bound: int)
    requires Named(rules, symbol, interval, day) && forall k :: 0 <= k < |rules| ==> rules[k].day < bound
    ensures day < bound
  {
  }

  lemma {:induction false} CoveredDaysExact(rules: seq<OverrideRule>, symbol: Symbol, interval: Interval)
    requires forall i, j :: 0 <= i < j < |rules| ==> rules[i].day < rules[j].day
    ensures StrictlyIncreasing(CoveredDays(rules, symbol, interval))
    ensures forall d :: d in CoveredDays(rules, symbol, interval) <==> Named(rules, symbol, interval, d)
  {
    if rules != [] {
      var shorter, r := rules[..|rules| - 1], rules[|rules| - 1];
      assert rules == shorter + [r];
      CoveredDaysExact(shorter, symbol, interval);
      var before := CoveredDays(shorter, symbol, interval);
      forall d ensures d in CoveredDays(rules, symbol, interval) <==> Named(rules, symbol, interval, d) {
        NamedByLast(shorter, r, symbol, interval, d);
      }
      forall k | 0 <= k < |before| ensures before[k] < r.day {
        assert before[k] in before;
        NamedBelow(shorter, symbol, interval, before[k], r.day);
      }
    }
  }

  /** The override list is sorted without repeats and holds exactly the days on which an override applies. */
  lemma OverrideDaysExact(symbol: Symbol, interval: Interval)
    ensures StrictlyIncreasing(OverrideDays(symbol, interval))
    ensures forall d :: d in OverrideDays(symbol, interval) <==> OverrideApplies(symbol, interval, d)
  {
    CoveredDaysExact(OVERRIDE_RULES, symbol, interval);
  }

  /** The registered days, by symbol and interval. */
  lemma RegisteredDays(symbol: Symbol, interval: Interval, day: int)
    ensures OverrideApplies(symbol, interval, day) <==>
      || day == 18617 || day == 18899
      || (day == 18985 && symbol == BTCUSDT && interval != Hours4)
  {
    var rules := OVERRIDE_RULES;
    assert rules[0].day == 18617 && rules[1].day == 18899 && rules[2].day == 18985;
    assert RuleCovers(rules[0], symbol, interval) && RuleCovers(rules[1], symbol, interval);
  }

  // ---------- The plan ----------

  datatype ArchiveObject = Monthly(month: int) | Daily(day: int)

  datatype PlanError = EmptyRange

  /** Days whose rows an object effectively supplies: a monthly file is skipped on its override days. */
  predicate Supplies(cal: Calendar, symbol: Symbol, interval: Interval, o: ArchiveObject, day: int) {
    match o
    case Monthly(m) => cal.first(m) <= day < cal.first(m + 1) && !OverrideApplies(symbol, interval, day)
    case Daily(d) => d == day
  }

  function Suppliers(cal: Calendar, symbol: Symbol, interval: Interval, os: seq<ArchiveObject>, day: int): nat {
    if os == [] then 0
    else
      Suppliers(cal, symbol, interval, os[..|os| - 1], day)
      + if Supplies(cal, symbol, interval, os[|os| - 1], day) then 1 else 0
  }

  lemma SuppliersAppend(
    cal: Calendar, symbol: Symbol, interval: Interval, os: seq<ArchiveObject>, o: ArchiveObject, day: int)
    ensures Suppliers(cal, symbol, interval, os + [o], day)
         == Suppliers(cal, symbol, interval, os, day) + if Supplies(cal, symbol, interval, o, day) then 1 else 0
  {
    assert (os + [o])[..|os|] == os;
  }

  /** Every day from lo up to hi has one supplier and no other day has any. */
  ghost predicate Covers(cal: Calendar, symbol: Symbol, interval: Interval, os: seq<ArchiveObject>, lo: int, hi: int) {
    forall d :: Suppliers(cal, symbol, interval, os, d) == if lo <= d < hi then 1 else 0
  }

  lemma {:induction false} SuppliersConcat(
    cal: Calendar, symbol: Symbol, interval: Interval, os: seq<ArchiveObject>, more: seq<ArchiveObject>, day: int)
    ensures Suppliers(cal, symbol, interval, os + more, day)
         == Suppliers(cal, symbol, interval, os, day) + Suppliers(cal, symbol, interval, more, day)
  {
    if more == [] {
      assert os + more == os;
    } else {
      SuppliersConcat(cal, symbol, interval, os, more[..|more| - 1], day);
      assert (os + more)[..|os + more| - 1] == os + more[..|more| - 1];
    }
  }

  // ---------- One whole month ----------

  /** Daily files of the listed days that fall in a month. */
  function DailiesWithin(days: seq<nat>, begin: int, next: int): seq<ArchiveObject> {
    if days == [] then []
    else
      var rest, day := DailiesWithin(days[..|days| - 1], begin, next), days[|days| - 1];
      if begin <= day < next then rest + [Daily(day)] else rest
  }

  /** A month's own file and the daily files that replace its override days. */
  function MonthObjects(cal: Calendar, symbol: Symbol, interval: Interval, m: int): seq<ArchiveObject> {
    [Monthly(m)] + DailiesWithin(OverrideDays(symbol, interval), cal.first(m), cal.first(m + 1))
  }

  lemma {:induction false} DailiesSupply(
    cal: Calendar, symbol: Symbol, interval: Interval, days: seq<nat>, begin: int, next: int, d: int)
    requires StrictlyIncreasing(days)
    ensures Suppliers(cal, symbol, interval, DailiesWithin(days, begin, next), d)
         == if begin <= d < next && d in days then 1 else 0
  {
    if days != [] {
      var shorter, day := days[..|days| - 1], days[|days| - 1];
      assert day !in shorter && days == shorter + [day];
      DailiesSupply(cal, symbol, interval, shorter, begin, next, d);
      SuppliersAppend(cal, symbol, interval, DailiesWithin(shorter, begin, next), Daily(day), d);
    }
  }

  lemma {:induction false} DailiesListed(days: seq<nat>, begin: int, next: int, o: ArchiveObject)
    ensures o in DailiesWithin(days, begin, next) <==> o.Daily? && begin <= o.day < next && o.day in days
  {
    if days != [] {
      var shorter, day := days[..|days| - 1], days[|days| - 1];
      assert days == shorter + [day];
      DailiesListed(shorter, begin, next, o);
    }
  }

  /** The objects of a month supply each of its days once and no other day. */
  lemma MonthSupply(cal: Calendar, symbol: Symbol, interval: Interval, m: int, d: int)
    ensures Suppliers(cal, symbol, interval, MonthObjects(cal, symbol, interval, m), d)
         == if cal.first(m) <= d < cal.first(m + 1) then 1 else 0
  {
    var days := OverrideDays(symbol, interval);
    var dailies := DailiesWithin(days, cal.first(m), cal.first(m + 1));
    OverrideDaysExact(symbol, interval);
    DailiesSupply(cal, symbol, interval, days, cal.first(m), cal.first(m + 1), d);
    SuppliersConcat(cal, symbol, interval, [Monthly(m)], dailies, d);
    assert [Monthly(m)] == [] + [Monthly(m)];
    SuppliersAppend(cal, symbol, interval, [], Monthly(m), d);
  }

  /** They are the month's own file and a daily file exactly for each override day of the month. */
  lemma MonthListed(cal: Calendar, symbol: Symbol, interval: Interval, m: int, o: ArchiveObject)
    ensures o in MonthObjects(cal, symbol, interval, m) <==>
      match o
      case Monthly(n) => n == m
      case Daily(d) => cal.first(m) <= d < cal.first(m + 1) && OverrideApplies(symbol, interval, d)
  {
    OverrideDaysExact(symbol, interval);
    DailiesListed(OverrideDays(symbol, interval), cal.first(m), cal.first(m + 1), o);
  }

  method AddMonth(cal: Calendar, symbol: Symbol, interval: Interval, os: seq<ArchiveObject>, m: int)
    returns (r: seq<ArchiveObject>)
    ensures r == os + MonthObjects(cal, symbol, interval, m)
  {
    var days := OverrideDays(symbol, interval);
    var dailies: seq<ArchiveObject> := [];
    for k := 0 to |days|
      invariant dailies == DailiesWithin(days[..k], cal.first(m), cal.first(m + 1))
    {
      assert days[..k + 1][..k] == days[..k];
      if cal.first(m) <= days[k] < cal.first(m + 1) {
        dailies := dailies + [Daily(days[k])];
      }
    }
    assert days[..|days|] == days;
    r := os + ([Monthly(m)] + dailies);
  }

  // ---------- The whole plan ----------

  /** The month lies wholly in the range of days. */
  predicate WholeMonth(cal: Calendar, lo: int, hi: int, m: int) {
    lo <= cal.first(m) && cal.first(m + 1) <= hi
  }

  /**
   Whether an object belongs in the plan: the file of each whole month, and a daily file of each day that no whole
   month holds or that is an override day.
   */
  predicate Wanted(cal: Calendar, symbol: Symbol, interval: Interval, lo: int, hi: int, o: ArchiveObject) {
    match o
    case Monthly(m) => WholeMonth(cal, lo, hi, m)
    case Daily(d) => lo <= d < hi && (WholeMonth(cal, lo, hi, cal.index(d)) ==> OverrideApplies(symbol, interval, d))
  }

  /** Planning has reached the cursor: wanted objects that end by it are planned and no others. */
  ghost predicate PlannedTo(
    cal: Calendar, symbol: Symbol, interval: Interval, lo: int, hi: int, cursor: int, os: seq<ArchiveObject>)
  {
    forall o :: o in os <==>
      Wanted(cal, symbol, interval, lo, hi, o) && (if o.Monthly? then cal.first(o.month) < cursor else o.day < cursor)
  }

  /** The cursor never stands inside a whole month. */
  predicate OnEdge(cal: Calendar, lo: int, hi: int, cursor: int) {
    WholeMonth(cal, lo, hi, cal.index(cursor)) ==> cal.PeriodStart(cursor) == cursor
  }

  lemma MonthKeepsCover(
    cal: Calendar, symbol: Symbol, interval: Interval, lo: int, m: int, os: seq<ArchiveObject>)
    requires cal.Valid() && lo <= cal.first(m) && Covers(cal, symbol, interval, os, lo, cal.first(m))
    ensures Covers(cal, symbol, interval, os + MonthObjects(cal, symbol, interval, m), lo, cal.first(m + 1))
  {
    assert cal.first(m) < cal.first(m + 1);
    forall d ensures Suppliers(cal, symbol, interval, os + MonthObjects(cal, symbol, interval, m), d)
      == if lo <= d < cal.first(m + 1) then 1 else 0
    {
      MonthSupply(cal, symbol, interval, m, d);
      SuppliersConcat(cal, symbol, interval, os, MonthObjects(cal, symbol, interval, m), d);
    }
  }

  /** A wanted object first falls due between two month starts exactly when it belongs to that month. */
  lemma MonthDue(cal: Calendar, symbol: Symbol, interval: Interval, lo: int, hi: int, m: int, o: ArchiveObject)
    requires cal.Valid() && WholeMonth(cal, lo, hi, m)
    ensures o in MonthObjects(cal, symbol, interval, m) <==>
      Wanted(cal, symbol, interval, lo, hi, o)
      && cal.first(m) <= (if o.Monthly? then cal.first(o.month) else o.day) < cal.first(m + 1)
  {
    MonthListed(cal, symbol, interval, m, o);
    assert cal.first(m) < cal.first(m + 1);
    match o
    case Monthly(n) =>
      if cal.first(m) <= cal.first(n) < cal.first(m + 1) {
        assert cal.first(n) < cal.first(n + 1);
        IndexUnique(cal, cal.first(n), n);
        IndexUnique(cal, cal.first(n), m);
      }
    case Daily(d) =>
      if cal.first(m) <= d < cal.first(m + 1) {
        IndexUnique(cal, d, m);
      }
  }

  lemma MonthKeepsPlan(
    cal: Calendar, symbol: Symbol, interval: Interval, lo: int, hi: int, m: int, os: seq<ArchiveObject>)
    requires cal.Valid() && WholeMonth(cal, lo, hi, m) && PlannedTo(cal, symbol, interval, lo, hi, cal.first(m), os)
    ensures PlannedTo(cal, symbol, interval, lo, hi, cal.first(m + 1), os + MonthObjects(cal, symbol, interval, m))
  {
    assert cal.first(m) < cal.first(m + 1);
    forall o
      ensures o in os + MonthObjects(cal, symbol, interval, m) <==>
        Wanted(cal, symbol, interval, lo, hi, o)
        && (if o.Monthly? then cal.first(o.month) < cal.first(m + 1) else o.day < cal.first(m + 1))
    {
      MonthDue(cal, symbol, interval, lo, hi, m, o);
    }
  }

  lemma DayKeepsCover(
    cal: Calendar, symbol: Symbol, interval: Interval, lo: int, cursor: int, os: seq<ArchiveObject>)
    requires lo <= cursor && Covers(cal, symbol, interval, os, lo, cursor)
    ensures Covers(cal, symbol, interval, os + [Daily(cursor)], lo, cursor + 1)
  {
    forall d ensures Suppliers(cal, symbol, interval, os + [Daily(cursor)], d)
      == if lo <= d < cursor + 1 then 1 else 0
    {
      SuppliersAppend(cal, symbol, interval, os, Daily(cursor), d);
    }
  }

  /** A day that starts no whole month lies in none, when the cursor is on an edge. */
  lemma DayKeepsPlan(
    cal: Calendar, symbol: Symbol, interval: Interval, lo: int, hi: int, cursor: int, os: seq<ArchiveObject>)
    requires cal.Valid() && lo <= cursor < hi && !WholeMonth(cal, lo, hi, cal.index(cursor))
    requires PlannedTo(cal, symbol, interval, lo, hi, cursor, os)
    ensures PlannedTo(cal, symbol, interval, lo, hi, cursor + 1, os + [Daily(cursor)])
  {
    forall o
      ensures o in os + [Daily(cursor)] <==>
        Wanted(cal, symbol, interval, lo, hi, o)
        && (if o.Monthly? then cal.first(o.month) < cursor + 1 else o.day < cursor + 1)
    {
      if o.Monthly? && cal.first(o.month) == cursor {
        StartOfMonthIsIndexed(cal, o.month);
      }
    }
  }

  /** After a day that starts no whole month the cursor is still on an edge. */
  lemma DayKeepsEdge(cal: Calendar, lo: int, hi: int, cursor: int)
    requires cal.Valid() && !WholeMonth(cal, lo, hi, cal.index(cursor))
    ensures OnEdge(cal, lo, hi, cursor + 1)
  {
    var m := cal.index(cursor);
    if cursor + 1 < cal.first(m + 1) {
      IndexUnique(cal, cursor + 1, m);
    } else {
      StartOfFirst(cal, m + 1);
    }
  }

  lemma StartOfMonthIsIndexed(cal: Calendar, m: int)
    requires cal.Valid()
    ensures cal.index(cal.first(m)) == m
  {
    assert cal.first(m) < cal.first(m + 1);
    IndexUnique(cal, cal.first(m), m);
  }

  lemma PlanStarts(cal: Calendar, symbol: Symbol, interval: Interval, lo: int, hi: int)
    requires cal.Valid()
    ensures PlannedTo(cal, symbol, interval, lo, hi, lo, []) && Covers(cal, symbol, interval, [], lo, lo)
    ensures OnEdge(cal, lo, hi, lo)
  {
  }

  /** All wanted objects end by the range's last day. */
  lemma PlanEnds(cal: Calendar, symbol: Symbol, interval: Interval, lo: int, hi: int, os: seq<ArchiveObject>)
    requires cal.Valid() && PlannedTo(cal, symbol, interval, lo, hi, hi, os)
    ensures forall o :: o in os <==> Wanted(cal, symbol, interval, lo, hi, o)
  {
    forall o | Wanted(cal, symbol, interval, lo, hi, o) ensures o in os {
      assert o.Monthly? ==> cal.first(o.month) < cal.first(o.month + 1);
    }
  }

  /** What planning keeps from day to day. */
  ghost predicate Underway(
    cal: Calendar, symbol: Symbol, interval: Interval, lo: int, hi: int, cursor: int, os: seq<ArchiveObject>)
  {
    && lo <= cursor <= hi && OnEdge(cal, lo, hi, cursor)
    && Covers(cal, symbol, interval, os, lo, cursor)
    && PlannedTo(cal, symbol, interval, lo, hi, cursor, os)
  }

  lemma MonthKeepsUnderway(
    cal: Calendar, symbol: Symbol, interval: Interval, lo: int, hi: int, m: int, os: seq<ArchiveObject>)
    requires cal.Valid() && WholeMonth(cal, lo, hi, m) && Underway(cal, symbol, interval, lo, hi, cal.first(m), os)
    ensures cal.first(m) < cal.first(m + 1)
    ensures Underway(cal, symbol, interval, lo, hi, cal.first(m + 1), os + MonthObjects(cal, symbol, interval, m))
  {
    MonthKeepsCover(cal, symbol, interval, lo, m, os);
    MonthKeepsPlan(cal, symbol, interval, lo, hi, m, os);
    StartOfFirst(cal, m + 1);
    assert cal.first(m) < cal.first(m + 1);
  }

  lemma DayKeepsUnderway(
    cal: Calendar, symbol: Symbol, interval: Interval, lo: int, hi: int, cursor: int, os: seq<ArchiveObject>)
    requires cal.Valid() && cursor < hi && Underway(cal, symbol, interval, lo, hi, cursor, os)
    requires !(cal.PeriodStart(cursor) == cursor && cal.NextPeriod(cursor) <= hi)
    ensures Underway(cal, symbol, interval, lo, hi, cursor + 1, os + [Daily(cursor)])
  {
    DayKeepsCover(cal, symbol, interval, lo, cursor, os);
    DayKeepsPlan(cal, symbol, interval, lo, hi, cursor, os);
    DayKeepsEdge(cal, lo, hi, cursor);
  }

  /** The cursor stands on the first day of a whole month. */
  predicate TakesMonth(cal: Calendar, hi: int, cursor: int) {
    cal.PeriodStart(cursor) == cursor && cal.NextPeriod(cursor) <= hi
  }

  function NextCursor(cal: Calendar, hi: int, cursor: int): int {
    if TakesMonth(cal, hi, cursor) then cal.NextPeriod(cursor) else cursor + 1
  }

  function TurnObjects(cal: Calendar, symbol: Symbol, interval: Interval, hi: int, cursor: int): seq<ArchiveObject> {
    if TakesMonth(cal, hi, cursor) then MonthObjects(cal, symbol, interval, cal.index(cursor)) else [Daily(cursor)]
  }

  /** The plan finished from a cursor on: whole months from their first day, single days otherwise. */
  ghost function PlanFrom(
    cal: Calendar, symbol: Symbol, interval: Interval, hi: int, cursor: int, os: seq<ArchiveObject>): seq<ArchiveObject>
    requires cal.Valid()
    decreases hi - cursor
  {
    if cursor >= hi then os
    else
      PlanFrom(cal, symbol, interval, hi, NextCursor(cal, hi, cursor),
               os + TurnObjects(cal, symbol, interval, hi, cursor))
  }

  lemma TurnKeepsUnderway(
    cal: Calendar, symbol: Symbol, interval: Interval, lo: int, hi: int, cursor: int, os: seq<ArchiveObject>)
    requires cal.Valid() && cursor < hi && Underway(cal, symbol, interval, lo, hi, cursor, os)
    ensures cursor < NextCursor(cal, hi, cursor)
    ensures Underway(cal, symbol, interval, lo, hi, NextCursor(cal, hi, cursor),
                     os + TurnObjects(cal, symbol, interval, hi, cursor))
  {
    if TakesMonth(cal, hi, cursor) {
      MonthKeepsUnderway(cal, symbol, interval, lo, hi, cal.index(cursor), os);
    } else {
      DayKeepsUnderway(cal, symbol, interval, lo, hi, cursor, os);
    }
  }

  lemma {:induction false} PlanFromUnderway(
    cal: Calendar, symbol: Symbol, interval: Interval, lo: int, hi: int, cursor: int, os: seq<ArchiveObject>)
    requires cal.Valid() && Underway(cal, symbol, interval, lo, hi, cursor, os)
    ensures Underway(cal, symbol, interval, lo, hi, hi, PlanFrom(cal, symbol, interval, hi, cursor, os))
    decreases hi - cursor
  {
    if cursor < hi {
      TurnKeepsUnderway(cal, symbol, interval, lo, hi, cursor, os);
      PlanFromUnderway(cal, symbol, interval, lo, hi, NextCursor(cal, hi, cursor),
                       os + TurnObjects(cal, symbol, interval, hi, cursor));
    }
  }

  /** The finished plan covers the range and holds exactly the wanted objects. */
  lemma PlanIsExact(cal: Calendar, symbol: Symbol, interval: Interval, lo: int, hi: int)
    requires cal.Valid() && lo <= hi
    ensures var os := PlanFrom(cal, symbol, interval, hi, lo, []);
      && Covers(cal, symbol, interval, os, lo, hi)
      && forall o :: o in os <==> Wanted(cal, symbol, interval, lo, hi, o)
  {
    PlanStarts(cal, symbol, interval, lo, hi);
    PlanFromUnderway(cal, symbol, interval, lo, hi, lo, []);
    PlanEnds(cal, symbol, interval, lo, hi, PlanFrom(cal, symbol, interval, hi, lo, []));
  }

  /** The loop over the days of the range. */
  method PlanDays(cal: Calendar, symbol: Symbol, interval: Interval, firstDay: int, lastDay: int)
    returns (objects: seq<ArchiveObject>)
    requires cal.Valid()
    ensures objects == PlanFrom(cal, symbol, interval, lastDay + 1, firstDay, [])
  {
    objects := [];
    var cursor := firstDay;
    while cursor <= lastDay
      invariant PlanFrom(cal, symbol, interval, lastDay + 1, cursor, objects)
             == PlanFrom(cal, symbol, interval, lastDay + 1, firstDay, [])
      decreases lastDay - cursor
    {
      var monthEnd := cal.NextPeriod(cursor) - 1;
      if cal.PeriodStart(cursor) == cursor && monthEnd <= lastDay {
        objects := AddMonth(cal, symbol, interval, objects, cal.index(cursor));
        cursor := cal.NextPeriod(cursor);
      } else {
        objects := objects + [Daily(cursor)];
        cursor := cursor + 1;
      }
    }
  }

  /**
   The plan holds the file of every whole month, daily files of exactly the other days and the override days, and so
   supplies every UTC day of the range exactly once and no other day.
   */
  method BuildArchiveObjects(cal: Calendar, symbol: Symbol, interval: Interval, startMs: int, endMs: int)
    returns (r: Result<seq<ArchiveObject>, PlanError>)
    requires cal.Valid()
    ensures r.Err? <==> startMs >= endMs
    ensures r.Ok? ==> Covers(cal, symbol, interval, r.value, startMs / DAY, (endMs - 1) / DAY + 1)
    ensures r.Ok? ==> forall o :: o in r.value <==>
      Wanted(cal, symbol, interval, startMs / DAY, (endMs - 1) / DAY + 1, o)
  {
    if startMs >= endMs {
      return Err(EmptyRange);
    }
    var firstDay, lastDay := startMs / DAY, (endMs - 1) / DAY;
    PlanIsExact(cal, symbol, interval, firstDay, lastDay + 1);
    var objects := PlanDays(cal, symbol, interval, firstDay, lastDay);
    return Ok(objects);
  }
}
