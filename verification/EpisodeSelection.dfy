/**
 Offline selection of separated episodes: sort the candidates, then take each one
 that is far enough from the last taken, up to a maximum.
 */
module EpisodeSelection {
  import opened Basics

  /** The two symbols are ranked as their names sort. */
  datatype Candidate = Candidate(time: int, symbol: nat, evidence: int)

  predicate KeyBefore(a: Candidate, b: Candidate) {
    a.time < b.time || (a.time == b.time && a.symbol < b.symbol)
  }

  predicate KeyNotAfter(a: Candidate, b: Candidate) {
    !KeyBefore(b, a)
  }

  // ---------- Sorting by time and symbol ----------

  ghost predicate SortedByKey(cs: seq<Candidate>) {
    forall i, j :: 0 <= i < j < |cs| ==> KeyNotAfter(cs[i], cs[j])
  }

  ghost predicate StrictByKey(cs: seq<Candidate>) {
    forall i, j :: 0 <= i < j < |cs| ==> KeyBefore(cs[i], cs[j])
  }

  lemma InsertedInOrder(sorted: seq<Candidate>, c: Candidate, at: nat)
    requires SortedByKey(sorted) && at <= |sorted|
    requires forall j :: 0 <= j < at ==> KeyNotAfter(sorted[j], c)
    requires forall j :: at <= j < |sorted| ==> KeyBefore(c, sorted[j])
    ensures SortedByKey(sorted[..at] + [c] + sorted[at..])
    ensures multiset(sorted[..at] + [c] + sorted[at..]) == multiset(sorted) + multiset{c}
  {
    assert sorted == sorted[..at] + sorted[at..];
  }

  method InsertByKey(sorted: seq<Candidate>, c: Candidate) returns (longer: seq<Candidate>)
    requires SortedByKey(sorted)
    ensures SortedByKey(longer) && multiset(longer) == multiset(sorted) + multiset{c}
  {
    var at := |sorted|;
    while at > 0 && KeyBefore(c, sorted[at - 1])
      invariant 0 <= at <= |sorted|
      invariant forall j :: at <= j < |sorted| ==> KeyBefore(c, sorted[j])
    {
      at := at - 1;
    }
    forall j | 0 <= j < at ensures KeyNotAfter(sorted[j], c) {
      assert j < at - 1 ==> KeyNotAfter(sorted[j], sorted[at - 1]);
    }
    InsertedInOrder(sorted, c, at);
    longer := sorted[..at] + [c] + sorted[at..];
  }

  method SortByKey(cs: seq<Candidate>) returns (sorted: seq<Candidate>)
    ensures SortedByKey(sorted) && multiset(sorted) == multiset(cs)
  {
    sorted := [];
    for k := 0 to |cs|
      invariant SortedByKey(sorted) && multiset(sorted) == multiset(cs[..k])
    {
      assert cs[..k + 1] == cs[..k] + [cs[k]];
      sorted := InsertByKey(sorted, cs[k]);
    }
    assert cs[..|cs|] == cs;
  }

  lemma LastIsGreatest(xs: seq<Candidate>, c: Candidate)
    requires SortedByKey(xs) && c in xs
    ensures KeyNotAfter(c, xs[|xs| - 1])
  {
    var k :| 0 <= k < |xs| && xs[k] == c;
  }

  lemma StrictIsSorted(xs: seq<Candidate>)
    requires StrictByKey(xs)
    ensures SortedByKey(xs)
  {
  }

  lemma DropLast(xs: seq<Candidate>)
    requires xs != []
    ensures multiset(xs[..|xs| - 1]) == multiset(xs) - multiset{xs[|xs| - 1]}
  {
    assert xs == xs[..|xs| - 1] + [xs[|xs| - 1]];
  }

  lemma LastsAgree(xs: seq<Candidate>, ys: seq<Candidate>)
    requires StrictByKey(xs) && SortedByKey(ys) && multiset(xs) == multiset(ys) && xs != [] && ys != []
    ensures xs[|xs| - 1] == ys[|ys| - 1]
  {
    var n := |xs| - 1;
    var x, y := xs[n], ys[|ys| - 1];
    StrictIsSorted(xs);
    assert y in multiset(ys) && y in xs;
    assert x in multiset(xs) && x in ys;
    LastIsGreatest(xs, y);
    LastIsGreatest(ys, x);
    var k :| 0 <= k < |xs| && xs[k] == y;
    assert k < n ==> KeyBefore(xs[k], x);
  }

  lemma DropLasts(xs: seq<Candidate>, ys: seq<Candidate>)
    requires multiset(xs) == multiset(ys) && xs != [] && ys != [] && xs[|xs| - 1] == ys[|ys| - 1]
    ensures multiset(xs[..|xs| - 1]) == multiset(ys[..|ys| - 1])
  {
    DropLast(xs);
    DropLast(ys);
  }

  lemma SameSize(xs: seq<Candidate>, ys: seq<Candidate>)
    requires multiset(xs) == multiset(ys)
    ensures |xs| == |ys|
  {
    assert |xs| == |multiset(xs)| == |multiset(ys)| == |ys|;
  }

  /** When keys do not repeat, sorting has one answer. */
  lemma {:induction false} SortIsUnique(xs: seq<Candidate>, ys: seq<Candidate>)
    requires StrictByKey(xs) && SortedByKey(ys) && multiset(xs) == multiset(ys)
    ensures xs == ys
    decreases |xs|
  {
    SameSize(xs, ys);
    if xs != [] {
      var n := |xs| - 1;
      LastsAgree(xs, ys);
      DropLasts(xs, ys);
      var xs', ys' := xs[..n], ys[..n];
      assert forall i, j :: 0 <= i < j < |xs'| ==> KeyBefore(xs'[i], xs'[j]);
      assert forall i, j :: 0 <= i < j < |ys'| ==> KeyNotAfter(ys'[i], ys'[j]);
      SortIsUnique(xs', ys');
      assert xs == xs' + [xs[n]] && ys == ys' + [ys[n]];
    }
  }

  // ---------- Greedy picking ----------

  predicate FarEnough(picked: seq<Candidate>, c: Candidate, separation: int) {
    picked == [] || c.time - picked[|picked| - 1].time >= separation
  }

  /** Candidates taken in order, each far enough from the last taken, stopping once the limit is reached. */
  function Picked(cs: seq<Candidate>, separation: int, limit: Option<nat>): seq<Candidate> {
    if cs == [] then []
    else
      var before, c := Picked(cs[..|cs| - 1], separation, limit), cs[|cs| - 1];
      if limit.Some? && |before| >= limit.value then before
      else if FarEnough(before, c, separation) then before + [c]
      else before
  }

  datatype SelectionError = InvalidLimits

  method SelectEpisodes(candidates: seq<Candidate>, maximum: int, separation: int)
    returns (r: Result<seq<Candidate>, SelectionError>, ghost sorted: seq<Candidate>)
    ensures r.Err? <==> maximum < 1 || separation < 0
    ensures r.Ok? ==> SortedByKey(sorted) && multiset(sorted) == multiset(candidates)
    ensures r.Ok? ==> r.value == Picked(sorted, separation, Some(maximum))
  {
    sorted := [];
    if maximum < 1 || separation < 0 {
      return Err(InvalidLimits), sorted;
    }
    var normalized := SortByKey(candidates);
    sorted := normalized;
    var selected: seq<Candidate> := [];
    var last: Option<int> := None;
    for k := 0 to |normalized|
      invariant selected == Picked(normalized[..k], separation, Some(maximum)) && |selected| < maximum
      invariant last == if selected == [] then None else Some(selected[|selected| - 1].time)
    {
      assert normalized[..k + 1][..k] == normalized[..k];
      var current := normalized[k].time;
      if last.Some? && current - last.value < separation {
        continue;
      }
      selected := selected + [normalized[k]];
      last := Some(current);
      if |selected| == maximum {
        FullStaysFull(normalized, k + 1, separation, maximum);
        return Ok(selected), sorted;
      }
    }
    assert normalized[..|normalized|] == normalized;
    return Ok(selected), sorted;
  }

  lemma {:induction false} FullStaysFull(cs: seq<Candidate>, k: nat, separation: int, maximum: nat)
    requires k <= |cs| && |Picked(cs[..k], separation, Some(maximum))| >= maximum
    ensures Picked(cs, separation, Some(maximum)) == Picked(cs[..k], separation, Some(maximum))
    decreases |cs|
  {
    if k == |cs| {
      assert cs[..k] == cs;
    } else {
      assert cs[..|cs| - 1][..k] == cs[..k];
      FullStaysFull(cs[..|cs| - 1], k, separation, maximum);
    }
  }

  // ---------- The greedy choice is separated and as large as possible ----------

  ghost predicate SortedByTime(cs: seq<Candidate>) {
    forall i, j :: 0 <= i < j < |cs| ==> cs[i].time <= cs[j].time
  }

  /** Every two picks are at least the separation apart. */
  ghost predicate Separated(cs: seq<Candidate>, separation: int) {
    forall i, j :: 0 <= i < j < |cs| ==> cs[j].time - cs[i].time >= separation
  }

  /** Picks in time order, far enough apart, drawn from the list and ending no later than it. */
  ghost predicate SoundPicks(cs: seq<Candidate>, separation: int, p: seq<Candidate>) {
    && Separated(p, separation) && SortedByTime(p)
    && (forall k :: 0 <= k < |p| ==> p[k] in cs)
    && (p != [] ==> cs != [] && p[|p| - 1].time <= cs[|cs| - 1].time)
  }

  lemma SoundLater(cs: seq<Candidate>, c: Candidate, separation: int, p: seq<Candidate>)
    requires SoundPicks(cs, separation, p) && (cs != [] ==> cs[|cs| - 1].time <= c.time)
    ensures SoundPicks(cs + [c], separation, p)
  {
  }

  lemma SoundTaking(cs: seq<Candidate>, c: Candidate, separation: int, p: seq<Candidate>)
    requires SoundPicks(cs, separation, p) && (cs != [] ==> cs[|cs| - 1].time <= c.time) && FarEnough(p, c, separation)
    ensures SoundPicks(cs + [c], separation, p + [c])
  {
    var longer := p + [c];
    assert p != [] ==> p[|p| - 1].time <= c.time;
    forall i | 0 <= i < |p| ensures p[i].time <= c.time && c.time - p[i].time >= separation {
      assert i < |p| - 1 ==> p[i].time <= p[|p| - 1].time;
    }
    assert c in cs + [c];
    forall k | 0 <= k < |longer| ensures longer[k] in cs + [c] {
    }
  }

  lemma PickedGrows(cs: seq<Candidate>, c: Candidate, separation: int, limit: Option<nat>)
    ensures var before, after := Picked(cs, separation, limit), Picked(cs + [c], separation, limit);
      after == before || (after == before + [c] && FarEnough(before, c, separation))
  {
    assert (cs + [c])[..|cs|] == cs;
  }

  lemma PickedStaysSound(cs: seq<Candidate>, c: Candidate, separation: int, limit: Option<nat>)
    requires SoundPicks(cs, separation, Picked(cs, separation, limit)) && (cs != [] ==> cs[|cs| - 1].time <= c.time)
    ensures SoundPicks(cs + [c], separation, Picked(cs + [c], separation, limit))
  {
    var before, after := Picked(cs, separation, limit), Picked(cs + [c], separation, limit);
    PickedGrows(cs, c, separation, limit);
    if after == before {
      SoundLater(cs, c, separation, before);
      return;
    }
    SoundTaking(cs, c, separation, before);
  }

  lemma {:induction false} PickedIsSound(cs: seq<Candidate>, separation: int, limit: Option<nat>)
    requires SortedByTime(cs)
    ensures SoundPicks(cs, separation, Picked(cs, separation, limit))
    decreases |cs|, 1
  {
    if cs == [] {
      return;
    }
    assert cs == cs[..|cs| - 1] + [cs[|cs| - 1]];
    PickedIsSoundWith(cs[..|cs| - 1], cs[|cs| - 1], separation, limit);
  }

  lemma {:induction false} PickedIsSoundWith(cs: seq<Candidate>, c: Candidate, separation: int, limit: Option<nat>)
    requires SortedByTime(cs + [c])
    ensures SoundPicks(cs + [c], separation, Picked(cs + [c], separation, limit))
    decreases |cs| + 1, 0
  {
    StillSorted(cs, c);
    PickedIsSound(cs, separation, limit);
    PickedStaysSound(cs, c, separation, limit);
  }

  /** With a limit the picks are the first ones of the unlimited pick. */
  lemma {:induction false} LimitTakesPrefix(cs: seq<Candidate>, separation: int, maximum: nat)
    ensures var all := Picked(cs, separation, None);
      Picked(cs, separation, Some(maximum)) == if |all| <= maximum then all else all[..maximum]
  {
    if cs != [] {
      LimitTakesPrefix(cs[..|cs| - 1], separation, maximum);
    }
  }

  /** Positions, in order, of a subset whose neighbours are far enough apart. */
  ghost predicate SeparatedAt(cs: seq<Candidate>, separation: int, ix: seq<nat>) {
    && (forall k :: 0 <= k < |ix| ==> ix[k] < |cs|)
    && (forall k :: 0 < k < |ix| ==> ix[k - 1] < ix[k] && cs[ix[k]].time - cs[ix[k - 1]].time >= separation)
  }

  /** The picks outnumber the subset, or match it and end no earlier. */
  ghost predicate Ahead(p: seq<Candidate>, size: nat, end: int) {
    size <= |p| && (size == |p| && size > 0 ==> p[|p| - 1].time <= end)
  }

  /** Taking the next candidate, the greedy list stays ahead of a subset that ends with it. */
  lemma AheadTaking(before: seq<Candidate>, c: Candidate, separation: int, m: nat, end: int)
    requires Ahead(before, m, end) && (before != [] ==> before[|before| - 1].time <= c.time)
    requires m > 0 ==> c.time - end >= separation
    ensures Ahead(if FarEnough(before, c, separation) then before + [c] else before, m + 1, c.time)
  {
  }

  /** Leaving the next candidate out, the greedy list stays ahead of a subset that ends sooner. */
  lemma AheadSkipping(before: seq<Candidate>, c: Candidate, separation: int, m: nat, end: int)
    requires Ahead(before, m, end)
    ensures Ahead(if FarEnough(before, c, separation) then before + [c] else before, m, end)
  {
  }

  function EndOf(cs: seq<Candidate>, ix: seq<nat>): int {
    if ix == [] || ix[|ix| - 1] >= |cs| then 0 else cs[ix[|ix| - 1]].time
  }

  lemma PicksEndByLast(cs: seq<Candidate>, separation: int, c: Candidate)
    requires SortedByTime(cs + [c])
    ensures var p := Picked(cs, separation, None); p != [] ==> p[|p| - 1].time <= c.time
  {
    StillSorted(cs, c);
    PickedIsSound(cs, separation, None);
  }

  lemma PickedAppend(cs: seq<Candidate>, separation: int, c: Candidate)
    ensures var before := Picked(cs, separation, None);
      Picked(cs + [c], separation, None) == if FarEnough(before, c, separation) then before + [c] else before
  {
    assert (cs + [c])[..|cs|] == cs;
  }

  lemma StillSorted(cs: seq<Candidate>, c: Candidate)
    requires SortedByTime(cs + [c])
    ensures SortedByTime(cs) && (cs != [] ==> cs[|cs| - 1].time <= c.time)
  {
    var longer := cs + [c];
    assert forall i :: 0 <= i < |cs| ==> longer[i] == cs[i];
    assert cs != [] ==> longer[|cs| - 1].time <= longer[|cs|].time;
  }

  /** A subset of the longer list either is one of the shorter list, or ends with the added candidate. */
  lemma LastTaken(cs: seq<Candidate>, c: Candidate, separation: int, ix: seq<nat>)
    requires SeparatedAt(cs + [c], separation, ix) && ix != []
    ensures ix[|ix| - 1] != |cs| ==> SeparatedAt(cs, separation, ix) && EndOf(cs + [c], ix) == EndOf(cs, ix)
    ensures ix[|ix| - 1] == |cs| ==>
      && SeparatedAt(cs, separation, ix[..|ix| - 1]) && EndOf(cs + [c], ix) == c.time
      && (|ix| > 1 ==> c.time - EndOf(cs, ix[..|ix| - 1]) >= separation)
  {
    var longer, m := cs + [c], |ix| - 1;
    assert longer[..|longer| - 1] == cs;
    if ix[m] < |cs| {
      EarlierPositions(longer, separation, ix, ix[m]);
    } else if m > 0 {
      EarlierPositions(longer, separation, ix[..m], ix[m - 1]);
    }
  }

  lemma AheadStep(shorter: seq<Candidate>, c: Candidate, separation: int, ix: seq<nat>)
    requires SortedByTime(shorter + [c]) && SeparatedAt(shorter + [c], separation, ix) && ix != []
    requires ix[|ix| - 1] != |shorter| ==> Ahead(Picked(shorter, separation, None), |ix|, EndOf(shorter, ix))
    requires ix[|ix| - 1] == |shorter| ==>
      Ahead(Picked(shorter, separation, None), |ix| - 1, EndOf(shorter, ix[..|ix| - 1]))
    ensures Ahead(Picked(shorter + [c], separation, None), |ix|, EndOf(shorter + [c], ix))
  {
    var before, m := Picked(shorter, separation, None), |ix| - 1;
    LastTaken(shorter, c, separation, ix);
    PickedAppend(shorter, separation, c);
    if ix[m] != |shorter| {
      AheadSkipping(before, c, separation, |ix|, EndOf(shorter, ix));
    } else {
      PicksEndByLast(shorter, separation, c);
      AheadTaking(before, c, separation, m, EndOf(shorter, ix[..m]));
    }
  }

  /** Greedy stays ahead: no separated subset is larger, and an equally large one ends no earlier. */
  lemma {:induction false} GreedyStaysAhead(cs: seq<Candidate>, separation: int, ix: seq<nat>)
    requires SortedByTime(cs) && SeparatedAt(cs, separation, ix)
    ensures Ahead(Picked(cs, separation, None), |ix|, EndOf(cs, ix))
    decreases |cs|, 1
  {
    if ix == [] {
      return;
    }
    assert ix[0] < |cs|;
    assert cs == cs[..|cs| - 1] + [cs[|cs| - 1]];
    GreedyStaysAheadWith(cs[..|cs| - 1], cs[|cs| - 1], separation, ix);
  }

  lemma {:induction false} GreedyStaysAheadWith(cs: seq<Candidate>, c: Candidate, separation: int, ix: seq<nat>)
    requires SortedByTime(cs + [c]) && SeparatedAt(cs + [c], separation, ix) && ix != []
    ensures Ahead(Picked(cs + [c], separation, None), |ix|, EndOf(cs + [c], ix))
    decreases |cs| + 1, 0
  {
    StillSorted(cs, c);
    LastTaken(cs, c, separation, ix);
    GreedyStaysAhead(cs, separation, if ix[|ix| - 1] != |cs| then ix else ix[..|ix| - 1]);
    AheadStep(cs, c, separation, ix);
  }

  lemma EarlierPositions(cs: seq<Candidate>, separation: int, ix: seq<nat>, last: nat)
    requires cs != [] && ix != [] && ix[|ix| - 1] == last < |cs| - 1
    requires forall k :: 0 <= k < |ix| ==> ix[k] < |cs|
    requires forall k :: 0 < k < |ix| ==> ix[k - 1] < ix[k] && cs[ix[k]].time - cs[ix[k - 1]].time >= separation
    ensures SeparatedAt(cs[..|cs| - 1], separation, ix)
  {
    IncreasingBelowLast(ix);
    forall k | 0 <= k < |ix| ensures ix[k] < |cs| - 1 {
    }
  }

  lemma {:induction false} IncreasingBelowLast(ix: seq<nat>)
    requires ix != [] && forall k :: 0 < k < |ix| ==> ix[k - 1] < ix[k]
    ensures forall k :: 0 <= k < |ix| ==> ix[k] <= ix[|ix| - 1]
  {
    if |ix| > 1 {
      IncreasingBelowLast(ix[..|ix| - 1]);
    }
  }

  /** Positions at which a list of picks was taken. */
  ghost predicate TakenAt(cs: seq<Candidate>, separation: int, ix: seq<nat>, picks: seq<Candidate>) {
    SeparatedAt(cs, separation, ix) && |ix| == |picks| && forall k :: 0 <= k < |ix| ==> cs[ix[k]] == picks[k]
  }

  lemma TakenLater(cs: seq<Candidate>, separation: int, ix: seq<nat>, picks: seq<Candidate>)
    requires cs != [] && TakenAt(cs[..|cs| - 1], separation, ix, picks)
    ensures TakenAt(cs, separation, ix, picks)
    ensures FarEnough(picks, cs[|cs| - 1], separation) ==>
      TakenAt(cs, separation, ix + [|cs| - 1], picks + [cs[|cs| - 1]])
  {
    assert forall k :: 0 <= k < |ix| ==> cs[..|cs| - 1][ix[k]] == cs[ix[k]];
  }

  /** The unlimited pick is itself a separated subset, so it is the largest. */
  lemma {:induction false} PickedPositions(cs: seq<Candidate>, separation: int) returns (ix: seq<nat>)
    ensures TakenAt(cs, separation, ix, Picked(cs, separation, None))
  {
    if cs == [] {
      ix := [];
    } else {
      var n := |cs| - 1;
      ix := PickedPositions(cs[..n], separation);
      TakenLater(cs, separation, ix, Picked(cs[..n], separation, None));
      if FarEnough(Picked(cs[..n], separation, None), cs[n], separation) {
        ix := ix + [n];
      }
    }
  }

  ghost predicate LargestSeparated(cs: seq<Candidate>, separation: int, size: nat) {
    && (exists ix :: SeparatedAt(cs, separation, ix) && |ix| == size)
    && (forall ix :: SeparatedAt(cs, separation, ix) ==> |ix| <= size)
  }

  /** The selection is pairwise separated and as large as any separated subset, up to the maximum. */
  lemma SelectionIsOptimal(cs: seq<Candidate>, separation: int, maximum: nat) returns (largest: nat)
    requires SortedByTime(cs)
    ensures LargestSeparated(cs, separation, largest)
    ensures var p := Picked(cs, separation, Some(maximum));
      Separated(p, separation) && |p| == if largest <= maximum then largest else maximum
  {
    largest := |Picked(cs, separation, None)|;
    var ix := PickedPositions(cs, separation);
    forall jx | SeparatedAt(cs, separation, jx) ensures |jx| <= largest {
      GreedyStaysAhead(cs, separation, jx);
    }
    LimitTakesPrefix(cs, separation, maximum);
    PickedIsSound(cs, separation, Some(maximum));
  }
}
