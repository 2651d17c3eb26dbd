/**
 * The long-lived session state and its per-tier counter accounting.
 *
 * The counter updates walk `config.tiers` in order; each is specified by a
 * function that performs the same walk over the tier list (one step per
 * tier, last tier last), and the lemmas below say what that walk amounts to.
 * The "next break" query for the menu bar is a pure function of the tiers,
 * the counters and the merge window.
 */
module AppStates {

  import opened Wrappers
  import opened BreakTiers
  import opened ExceptionRules
  import opened Configs
  import opened PauseStates
  import opened BreakPhases

  /** Active seconds per tier id. */
  type Counters = map<TierId, real>

  /** `tierCounters[id, default: 0]`: a missing entry reads as zero. */
  function CounterOf(c: Counters, id: TierId): real {
    if id in c then c[id] else 0.0
  }

  function Max0(x: real): (r: real)
    ensures r >= 0.0 && r >= x && (r == 0.0 || r == x)
  {
    if x > 0.0 then x else 0.0
  }

  predicate AllNonNegative(c: Counters) {
    forall k :: k in c ==> c[k] >= 0.0
  }

  // ---------------------------------------------------------------------
  // initializeCounters

  /** The first loop of `initializeCounters`: a zero entry for each configured tier that has none. */
  function Seeded(tiers: seq<BreakTier>, c: Counters): Counters {
    if tiers == [] then c
    else
      var before := Seeded(tiers[..|tiers| - 1], c);
      var id := tiers[|tiers| - 1].id;
      if id in before then before else before[id := 0.0]
  }

  /** `initializeCounters`: seed missing entries, then keep only the configured ids. */
  function Initialized(tiers: seq<BreakTier>, c: Counters): Counters {
    var seeded := Seeded(tiers, c);
    map k | k in seeded && k in TierIds(tiers) :: seeded[k]
  }

  lemma {:induction false} SeededSpec(tiers: seq<BreakTier>, c: Counters)
    ensures Seeded(tiers, c).Keys == c.Keys + TierIds(tiers)
    ensures forall k :: k in Seeded(tiers, c) ==> Seeded(tiers, c)[k] == CounterOf(c, k)
  {
    if tiers != [] {
      SeededSpec(tiers[..|tiers| - 1], c);
      TierIdsLast(tiers);
    }
  }

  /**
   * After `initializeCounters` the key set is exactly the configured ids;
   * surviving tiers keep their values and new tiers start at zero.
   */
  lemma InitializedSpec(tiers: seq<BreakTier>, c: Counters)
    ensures Initialized(tiers, c).Keys == TierIds(tiers)
    ensures forall k :: k in Initialized(tiers, c) && k in c ==> Initialized(tiers, c)[k] == c[k]
    ensures forall k :: k in Initialized(tiers, c) && k !in c ==> Initialized(tiers, c)[k] == 0.0
  {
    SeededSpec(tiers, c);
  }

  // ---------------------------------------------------------------------
  // incrementCounters / unwindCounters

  /** `incrementCounters(by: e)`: add `e` to each configured tier's counter in turn. */
  function Incremented(tiers: seq<BreakTier>, c: Counters, e: real): Counters {
    if tiers == [] then c
    else
      var before := Incremented(tiers[..|tiers| - 1], c, e);
      var id := tiers[|tiers| - 1].id;
      before[id := CounterOf(before, id) + e]
  }

  /**
   * With unique tier ids, incrementing adds `e` to every configured counter
   * (a missing entry counting as zero) and leaves every other key alone.
   */
  lemma {:induction false} IncrementedSpec(tiers: seq<BreakTier>, c: Counters, e: real)
    requires UniqueIds(tiers)
    ensures Incremented(tiers, c, e).Keys == c.Keys + TierIds(tiers)
    ensures forall k :: k in TierIds(tiers) ==> Incremented(tiers, c, e)[k] == CounterOf(c, k) + e
    ensures forall k :: k in c && k !in TierIds(tiers) ==> Incremented(tiers, c, e)[k] == c[k]
  {
    if tiers != [] {
      UniqueIdsLast(tiers);
      IncrementedSpec(tiers[..|tiers| - 1], c, e);
      TierIdsLast(tiers);
    }
  }

  /** `unwindCounters(by: e)`: lower each configured counter by `e`, floored at zero. */
  function Unwound(tiers: seq<BreakTier>, c: Counters, e: real): Counters {
    if tiers == [] then c
    else
      var before := Unwound(tiers[..|tiers| - 1], c, e);
      var id := tiers[|tiers| - 1].id;
      before[id := Max0(CounterOf(before, id) - e)]
  }

  /** With unique tier ids, unwinding sets every configured counter to `max(0, c - e)` and leaves other keys alone. */
  lemma {:induction false} UnwoundSpec(tiers: seq<BreakTier>, c: Counters, e: real)
    requires UniqueIds(tiers)
    ensures Unwound(tiers, c, e).Keys == c.Keys + TierIds(tiers)
    ensures forall k :: k in TierIds(tiers) ==> Unwound(tiers, c, e)[k] == Max0(CounterOf(c, k) - e)
    ensures forall k :: k in c && k !in TierIds(tiers) ==> Unwound(tiers, c, e)[k] == c[k]
  {
    if tiers != [] {
      UniqueIdsLast(tiers);
      UnwoundSpec(tiers[..|tiers| - 1], c, e);
      TierIdsLast(tiers);
    }
  }

  /** Unwinding never leaves a configured counter negative, whatever the ids and the amount. */
  lemma {:induction false} UnwoundNonNegative(tiers: seq<BreakTier>, c: Counters, e: real)
    ensures forall k :: k in TierIds(tiers) ==> k in Unwound(tiers, c, e) && Unwound(tiers, c, e)[k] >= 0.0
    ensures AllNonNegative(c) ==> AllNonNegative(Unwound(tiers, c, e))
  {
    if tiers != [] {
      UnwoundNonNegative(tiers[..|tiers| - 1], c, e);
      TierIdsLast(tiers);
    }
  }

  /** Incrementing by a non-negative amount keeps all counters non-negative. */
  lemma {:induction false} IncrementedNonNegative(tiers: seq<BreakTier>, c: Counters, e: real)
    requires AllNonNegative(c) && e >= 0.0
    ensures AllNonNegative(Incremented(tiers, c, e))
  {
    if tiers != [] {
      IncrementedNonNegative(tiers[..|tiers| - 1], c, e);
    }
  }

  // ---------------------------------------------------------------------
  // cascadeReset

  /** Ids of the configured tiers whose break is no longer than `d`: the tiers a cascade reset covers. */
  function ResetIds(tiers: seq<BreakTier>, d: real): set<TierId> {
    if tiers == [] then {}
    else
      ResetIds(tiers[..|tiers| - 1], d)
      + (if tiers[|tiers| - 1].breakDuration <= d then {tiers[|tiers| - 1].id} else {})
  }

  lemma {:induction false} ResetIdsSpec(tiers: seq<BreakTier>, d: real)
    ensures forall id :: id in ResetIds(tiers, d) <==>
      exists i :: 0 <= i < |tiers| && tiers[i].id == id && tiers[i].breakDuration <= d
  {
    if tiers != [] {
      var front := tiers[..|tiers| - 1];
      ResetIdsSpec(front, d);
      forall id ensures id in ResetIds(tiers, d) <==>
        exists i :: 0 <= i < |tiers| && tiers[i].id == id && tiers[i].breakDuration <= d
      {
        if exists i :: 0 <= i < |tiers| && tiers[i].id == id && tiers[i].breakDuration <= d {
          var i :| 0 <= i < |tiers| && tiers[i].id == id && tiers[i].breakDuration <= d;
          if i < |front| { assert front[i] == tiers[i]; }
        }
      }
    }
  }

  /** The counter loop of `cascadeReset`: zero each covered tier's counter in turn. */
  function Zeroed(tiers: seq<BreakTier>, c: Counters, d: real): Counters {
    if tiers == [] then c
    else
      var before := Zeroed(tiers[..|tiers| - 1], c, d);
      var t := tiers[|tiers| - 1];
      if t.breakDuration <= d then before[t.id := 0.0] else before
  }

  /** The counter part of a cascade reset zeroes exactly the covered ids and leaves every other entry as it was. */
  lemma {:induction false} ZeroedSpec(tiers: seq<BreakTier>, c: Counters, d: real)
    ensures Zeroed(tiers, c, d).Keys == c.Keys + ResetIds(tiers, d)
    ensures forall k :: k in ResetIds(tiers, d) ==> Zeroed(tiers, c, d)[k] == 0.0
    ensures forall k :: k in c && k !in ResetIds(tiers, d) ==> Zeroed(tiers, c, d)[k] == c[k]
  {
    if tiers != [] {
      ZeroedSpec(tiers[..|tiers| - 1], c, d);
    }
  }

  /** A configured triggering tier is always covered by its own cascade reset. */
  lemma TriggerCoversItself(tiers: seq<BreakTier>, t: BreakTier)
    requires t in tiers
    ensures t.id in ResetIds(tiers, t.breakDuration)
  {
    ResetIdsSpec(tiers, t.breakDuration);
    var i :| 0 <= i < |tiers| && tiers[i] == t;
  }

  // ---------------------------------------------------------------------
  // isPostponed

  /** `isPostponed`: a postponement entry exists for the tier and its end is still in the future. */
  predicate IsPostponed(postponements: map<TierId, real>, tier: BreakTier, now: real) {
    tier.id in postponements && now < postponements[tier.id]
  }

  /**
   * A postponement holds while its entry exists and its end is in the
   * future: a tier without an entry is never postponed, one whose end has
   * passed is not postponed, and once it lapses it stays lapsed at every
   * later time.
   */
  lemma IsPostponedSpec(postponements: map<TierId, real>, tier: BreakTier, now: real, later: real)
    ensures tier.id !in postponements ==> !IsPostponed(postponements, tier, now)
    ensures tier.id in postponements ==> (IsPostponed(postponements, tier, now) <==> now < postponements[tier.id])
    ensures now <= later && !IsPostponed(postponements, tier, now) ==> !IsPostponed(postponements, tier, later)
  {
  }

  /**
   * Removing ids from the postponements, as a cascade reset does, lifts the
   * postponement of exactly those tiers and leaves every other tier's as it was.
   */
  lemma IsPostponedAfterRemoval(postponements: map<TierId, real>, ids: set<TierId>, tier: BreakTier, now: real)
    ensures tier.id in ids ==> !IsPostponed(postponements - ids, tier, now)
    ensures tier.id !in ids ==> (IsPostponed(postponements - ids, tier, now) <==> IsPostponed(postponements, tier, now))
  {
  }

  // ---------------------------------------------------------------------
  // nextBreakTier / nextBreakCountdown

  /** Seconds of activity left before a tier is due (zero or negative once it is due). */
  function Remaining(c: Counters, t: BreakTier): real {
    t.activeInterval - CounterOf(c, t.id)
  }

  /** A tier whose counter has reached its threshold. */
  predicate Due(c: Counters, t: BreakTier) {
    CounterOf(c, t.id) >= t.activeInterval
  }

  /** A tier paired with its positive remaining time. */
  datatype Pending = Pending(tier: BreakTier, remaining: real)

  /** The `compactMap` step: the tiers with time still to go, in configuration order. */
  function Upcoming(tiers: seq<BreakTier>, c: Counters): seq<Pending> {
    if tiers == [] then []
    else
      var rem := Remaining(c, tiers[0]);
      (if rem > 0.0 then [Pending(tiers[0], rem)] else []) + Upcoming(tiers[1..], c)
  }

  /** The entries are exactly the configured tiers with positive remaining time. */
  lemma {:induction false} UpcomingSpec(tiers: seq<BreakTier>, c: Counters)
    ensures forall p :: p in Upcoming(tiers, c) ==>
      p.tier in tiers && p.remaining == Remaining(c, p.tier) && p.remaining > 0.0
    ensures forall t :: t in tiers && Remaining(c, t) > 0.0 ==> Pending(t, Remaining(c, t)) in Upcoming(tiers, c)
  {
    if tiers != [] {
      UpcomingSpec(tiers[1..], c);
      assert tiers == [tiers[0]] + tiers[1..];
    }
  }

  predicate SortedByRemaining(s: seq<Pending>) {
    forall i, j :: 0 <= i < j < |s| ==> s[i].remaining <= s[j].remaining
  }

  /** Insert after every element whose remaining time is not greater, so equal keys keep their order. */
  function InsertByRemaining(s: seq<Pending>, x: Pending): seq<Pending> {
    if s == [] then [x]
    else if x.remaining < s[0].remaining then [x] + s
    else [s[0]] + InsertByRemaining(s[1..], x)
  }

  /** Inserting adds exactly the one entry. */
  lemma {:induction false} InsertByRemainingPerm(s: seq<Pending>, x: Pending)
    ensures multiset(InsertByRemaining(s, x)) == multiset(s) + multiset{x}
  {
    if s != [] && x.remaining >= s[0].remaining {
      InsertByRemainingPerm(s[1..], x);
      assert s == [s[0]] + s[1..];
    }
  }

  /** Every entry has at least `lo` remaining. */
  predicate AllAtLeast(s: seq<Pending>, lo: real) {
    forall i :: 0 <= i < |s| ==> lo <= s[i].remaining
  }

  /** Inserting an entry with at least `lo` remaining into entries with at least `lo` remaining keeps that bound. */
  lemma {:induction false} InsertByRemainingAtLeast(s: seq<Pending>, x: Pending, lo: real)
    requires AllAtLeast(s, lo) && lo <= x.remaining
    ensures AllAtLeast(InsertByRemaining(s, x), lo)
  {
    if s != [] && x.remaining >= s[0].remaining {
      InsertByRemainingAtLeast(s[1..], x, lo);
      var rest := InsertByRemaining(s[1..], x);
      assert InsertByRemaining(s, x) == [s[0]] + rest;
    }
  }

  /** Inserting into a sorted sequence keeps it sorted. */
  lemma {:induction false} InsertByRemainingSorted(s: seq<Pending>, x: Pending)
    requires SortedByRemaining(s)
    ensures SortedByRemaining(InsertByRemaining(s, x))
  {
    if s != [] && x.remaining >= s[0].remaining {
      var tail := s[1..];
      var rest := InsertByRemaining(tail, x);
      InsertByRemainingSorted(tail, x);
      assert AllAtLeast(tail, s[0].remaining) by {
        forall k | 0 <= k < |tail| ensures s[0].remaining <= tail[k].remaining {
          assert tail[k] == s[k + 1];
        }
      }
      InsertByRemainingAtLeast(tail, x, s[0].remaining);
      var r := [s[0]] + rest;
      forall i, j | 0 <= i < j < |r| ensures r[i].remaining <= r[j].remaining {
        assert r[j] == rest[j - 1];
        if i > 0 {
          assert r[i] == rest[i - 1];
        }
      }
    }
  }

  /** `sorted { $0.1 < $1.1 }`, taken to be stable: an insertion sort on the remaining time. */
  function SortByRemaining(s: seq<Pending>): seq<Pending> {
    if s == [] then []
    else InsertByRemaining(SortByRemaining(s[..|s| - 1]), s[|s| - 1])
  }

  /** The sort orders by remaining time and keeps exactly the same entries. */
  lemma {:induction false} SortByRemainingSpec(s: seq<Pending>)
    ensures SortedByRemaining(SortByRemaining(s))
    ensures multiset(SortByRemaining(s)) == multiset(s)
  {
    if s != [] {
      SortByRemainingSpec(s[..|s| - 1]);
      InsertByRemainingPerm(SortByRemaining(s[..|s| - 1]), s[|s| - 1]);
      InsertByRemainingSorted(SortByRemaining(s[..|s| - 1]), s[|s| - 1]);
      assert s == s[..|s| - 1] + [s[|s| - 1]];
    }
  }

  /** `sorted.first`: the entry with the least remaining time, if any tier has time to go. */
  function Nearest(tiers: seq<BreakTier>, c: Counters): Option<Pending> {
    var sorted := SortByRemaining(Upcoming(tiers, c));
    if sorted == [] then None else Some(sorted[0])
  }

  /**
   * There is a nearest entry exactly when some configured tier has positive
   * remaining time; it is such a tier, with the least remaining time of all.
   */
  lemma NearestSpec(tiers: seq<BreakTier>, c: Counters)
    ensures Nearest(tiers, c).None? <==> forall t :: t in tiers ==> Remaining(c, t) <= 0.0
    ensures Nearest(tiers, c).Some? ==>
      var n := Nearest(tiers, c).value;
      && n.tier in tiers && n.remaining == Remaining(c, n.tier) && n.remaining > 0.0
      && forall t :: t in tiers && Remaining(c, t) > 0.0 ==> n.remaining <= Remaining(c, t)
  {
    var up := Upcoming(tiers, c);
    var sorted := SortByRemaining(up);
    UpcomingSpec(tiers, c);
    SortByRemainingSpec(up);
    if sorted != [] {
      assert sorted[0] in multiset(up);
      forall t | t in tiers && Remaining(c, t) > 0.0 ensures sorted[0].remaining <= Remaining(c, t) {
        var p := Pending(t, Remaining(c, t));
        assert p in multiset(sorted);
        var k :| 0 <= k < |sorted| && sorted[k] == p;
        if k > 0 { assert sorted[0].remaining <= sorted[k].remaining; }
      }
    }
  }

  /** `max(by: breakDuration)`: the first tier in order whose break is longest; nil for no tiers. */
  function LongestFirst(tiers: seq<BreakTier>): (r: Option<BreakTier>)
    ensures r.None? <==> tiers == []
  {
    if tiers == [] then None
    else
      match LongestFirst(tiers[..|tiers| - 1])
      case None => Some(tiers[|tiers| - 1])
      case Some(m) => if m.breakDuration < tiers[|tiers| - 1].breakDuration then Some(tiers[|tiers| - 1]) else Some(m)
  }

  /** `tiers[i]` has a break no other tier exceeds, and every tier before it has a strictly shorter one. */
  predicate IsFirstLongest(tiers: seq<BreakTier>, i: int) {
    && 0 <= i < |tiers|
    && (forall j :: 0 <= j < |tiers| ==> tiers[j].breakDuration <= tiers[i].breakDuration)
    && (forall j :: 0 <= j < i ==> tiers[j].breakDuration < tiers[i].breakDuration)
  }

  /** A first-longest tier of the front stays first-longest when the appended tier's break is no longer. */
  lemma IsFirstLongestExtend(tiers: seq<BreakTier>, i: int)
    requires tiers != [] && IsFirstLongest(tiers[..|tiers| - 1], i)
    requires tiers[|tiers| - 1].breakDuration <= tiers[i].breakDuration
    ensures IsFirstLongest(tiers, i)
  {
    assert forall j :: 0 <= j < |tiers| - 1 ==> tiers[j] == tiers[..|tiers| - 1][j];
  }

  /** The appended tier is first-longest when its break is strictly longer than all before it. */
  lemma IsFirstLongestLast(tiers: seq<BreakTier>)
    requires tiers != []
    requires forall j :: 0 <= j < |tiers| - 1 ==> tiers[j].breakDuration < tiers[|tiers| - 1].breakDuration
    ensures IsFirstLongest(tiers, |tiers| - 1)
  {
  }

  /** The longest-first choice, for a non-empty list, is the first tier with a maximal break. */
  lemma {:induction false} LongestFirstSpec(tiers: seq<BreakTier>)
    ensures LongestFirst(tiers).Some? ==>
      exists i :: IsFirstLongest(tiers, i) && tiers[i] == LongestFirst(tiers).value
  {
    if tiers != [] {
      var n := |tiers| - 1;
      var front := tiers[..n];
      var last := tiers[n];
      LongestFirstSpec(front);
      match LongestFirst(front)
      case None =>
        IsFirstLongestLast(tiers);
      case Some(m) =>
        var i :| IsFirstLongest(front, i) && front[i] == m;
        if m.breakDuration < last.breakDuration {
          assert forall j :: 0 <= j < n ==> tiers[j] == front[j];
          IsFirstLongestLast(tiers);
        } else {
          IsFirstLongestExtend(tiers, i);
        }
    }
  }

  /** The display's merge test: a strictly longer break due within the merge window of the nearest. */
  predicate DisplayMerges(p: Pending, nearest: Pending, mergeWindow: real) {
    && p.tier.breakDuration > nearest.tier.breakDuration
    && p.remaining - nearest.remaining <= mergeWindow
    && p.remaining <= nearest.remaining + mergeWindow
  }

  /** The first entry, in the given order, that the display merges into. */
  function FirstMerging(s: seq<Pending>, nearest: Pending, mergeWindow: real): (r: Option<Pending>)
    ensures r.Some? ==> r.value in s && DisplayMerges(r.value, nearest, mergeWindow)
    ensures r.None? ==> forall p :: p in s ==> !DisplayMerges(p, nearest, mergeWindow)
    ensures r.Some? ==> exists k :: (0 <= k < |s| && s[k] == r.value
      && forall j :: 0 <= j < k ==> !DisplayMerges(s[j], nearest, mergeWindow))
  {
    if s == [] then None
    else if DisplayMerges(s[0], nearest, mergeWindow) then Some(s[0])
    else
      var r := FirstMerging(s[1..], nearest, mergeWindow);
      assert r.Some? ==> exists k :: (0 <= k < |s| && s[k] == r.value
        && forall j :: 0 <= j < k ==> !DisplayMerges(s[j], nearest, mergeWindow)) by {
        if r.Some? {
          var k :| 0 <= k < |s[1..]| && s[1..][k] == r.value
            && forall j :: 0 <= j < k ==> !DisplayMerges(s[1..][j], nearest, mergeWindow);
          assert s[k + 1] == r.value;
          assert forall j :: 1 <= j < k + 1 ==> s[j] == s[1..][j - 1];
        }
      }
      r
  }

  /** `nextBreakTier`: the tier whose break the menu bar counts down to. */
  function NextBreakTier(tiers: seq<BreakTier>, c: Counters, mergeWindow: real): Option<BreakTier> {
    match Nearest(tiers, c)
    case None => LongestFirst(tiers)
    case Some(nearest) =>
      match FirstMerging(SortByRemaining(Upcoming(tiers, c)), nearest, mergeWindow)
      case Some(p) => Some(p.tier)
      case None => Some(nearest.tier)
  }

  /** `nextBreakCountdown`: the chosen tier's remaining time, floored at zero. */
  function NextBreakCountdown(tiers: seq<BreakTier>, c: Counters, mergeWindow: real): Option<real> {
    match NextBreakTier(tiers, c, mergeWindow)
    case None => None
    case Some(t) => Some(Max0(Remaining(c, t)))
  }

  /** The next break exists exactly when some tier is configured, and it is one of them. */
  lemma NextBreakTierExists(tiers: seq<BreakTier>, c: Counters, mergeWindow: real)
    ensures NextBreakTier(tiers, c, mergeWindow).None? <==> tiers == []
    ensures NextBreakTier(tiers, c, mergeWindow).Some? ==> NextBreakTier(tiers, c, mergeWindow).value in tiers
  {
    var up := Upcoming(tiers, c);
    LongestFirstSpec(tiers);
    NearestSpec(tiers, c);
    UpcomingSpec(tiers, c);
    SortByRemainingSpec(up);
    match FirstMerging(SortByRemaining(up), Nearest(tiers, c).GetOr(Pending(DefaultShort, 0.0)), mergeWindow)
    case Some(p) => assert p in multiset(up);
    case None =>
  }

  /** When every tier is at or past its threshold, the next break is the first tier with the longest break. */
  lemma NextBreakTierAllDue(tiers: seq<BreakTier>, c: Counters, mergeWindow: real)
    requires forall t :: t in tiers ==> Remaining(c, t) <= 0.0
    ensures NextBreakTier(tiers, c, mergeWindow) == LongestFirst(tiers)
  {
    NearestSpec(tiers, c);
  }

  /**
   * Otherwise the answer is the first entry, in ascending-remaining order,
   * with a strictly longer break than the nearest tier and a remaining time
   * within the merge window of the nearest one; failing that, the nearest tier.
   */
  lemma NextBreakTierMerge(tiers: seq<BreakTier>, c: Counters, mergeWindow: real)
    requires Nearest(tiers, c).Some?
    ensures NextBreakTier(tiers, c, mergeWindow).Some?
    ensures var near := Nearest(tiers, c).value;
      var sorted := SortByRemaining(Upcoming(tiers, c));
      var r := NextBreakTier(tiers, c, mergeWindow).value;
      r == near.tier
      || exists k :: 0 <= k < |sorted| && sorted[k].tier == r
           && DisplayMerges(sorted[k], near, mergeWindow)
           && forall j :: 0 <= j < k ==> !DisplayMerges(sorted[j], near, mergeWindow)
    ensures var near := Nearest(tiers, c).value;
      var sorted := SortByRemaining(Upcoming(tiers, c));
      var r := NextBreakTier(tiers, c, mergeWindow).value;
      r == near.tier <==> forall p :: p in sorted ==> !DisplayMerges(p, near, mergeWindow)
  {
    var near := Nearest(tiers, c).value;
    var sorted := SortByRemaining(Upcoming(tiers, c));
    match FirstMerging(sorted, near, mergeWindow)
    case Some(p) =>
      var k :| 0 <= k < |sorted| && sorted[k] == p
        && forall j :: 0 <= j < k ==> !DisplayMerges(sorted[j], near, mergeWindow);
      var r := NextBreakTier(tiers, c, mergeWindow).value;
      assert r == sorted[k].tier;
      assert p.tier.breakDuration > near.tier.breakDuration;
      assert exists k' :: (0 <= k' < |sorted| && sorted[k'].tier == r && DisplayMerges(sorted[k'], near, mergeWindow)
        && forall j :: 0 <= j < k' ==> !DisplayMerges(sorted[j], near, mergeWindow));
      assert near == Nearest(tiers, c).value;
      assert sorted == SortByRemaining(Upcoming(tiers, c));
    case None =>
      assert NextBreakTier(tiers, c, mergeWindow) == Some(near.tier);
  }

  /** The chosen tier then still has time to go. */
  lemma NextBreakTierUpcoming(tiers: seq<BreakTier>, c: Counters, mergeWindow: real)
    requires Nearest(tiers, c).Some?
    ensures NextBreakTier(tiers, c, mergeWindow).Some?
    ensures NextBreakTier(tiers, c, mergeWindow).value in tiers
    ensures Remaining(c, NextBreakTier(tiers, c, mergeWindow).value) > 0.0
  {
    var up := Upcoming(tiers, c);
    var near := Nearest(tiers, c).value;
    NearestSpec(tiers, c);
    UpcomingSpec(tiers, c);
    SortByRemainingSpec(up);
    match FirstMerging(SortByRemaining(up), near, mergeWindow)
    case Some(p) => assert p in multiset(up);
    case None =>
  }

  /** The countdown is nil exactly when no tier is configured; otherwise it is the chosen tier's remaining time, floored at zero. */
  lemma NextBreakCountdownSpec(tiers: seq<BreakTier>, c: Counters, mergeWindow: real)
    ensures NextBreakCountdown(tiers, c, mergeWindow).None? <==> tiers == []
    ensures NextBreakCountdown(tiers, c, mergeWindow).Some? ==>
      var t := NextBreakTier(tiers, c, mergeWindow).value;
      var n := NextBreakCountdown(tiers, c, mergeWindow).value;
      n >= 0.0 && n >= Remaining(c, t) && (n == 0.0 || n == Remaining(c, t))
  {
    NextBreakTierExists(tiers, c, mergeWindow);
  }

  // ---------------------------------------------------------------------
  // The session object

  /** The shared session state every component reads and updates. */
  class AppState {
    var config: Config
    var tierCounters: Counters
    var pauseState: PauseState
    var breakPhase: BreakPhase
    var overlayState: Option<OverlayState>
    var queuedBreaks: set<TierId>
    var postponements: map<TierId, real>
    var exceptionsActive: bool
    var exceptionReason: Option<string>

    constructor (config: Config)
      ensures this.config == config
      ensures tierCounters == Initialized(config.tiers, map[])
      ensures pauseState == NotPaused && breakPhase == Idle && overlayState == None
      ensures queuedBreaks == {} && postponements == map[]
      ensures !exceptionsActive && exceptionReason == None
    {
      this.config := config;
      tierCounters := map[];
      pauseState := NotPaused;
      breakPhase := Idle;
      overlayState := None;
      queuedBreaks := {};
      postponements := map[];
      exceptionsActive := false;
      exceptionReason := None;
      new;
      InitializeCounters();
    }

    method InitializeCounters()
      modifies this`tierCounters
      ensures tierCounters == Initialized(config.tiers, old(tierCounters))
    {
      var tiers := config.tiers;
      for i := 0 to |tiers|
        invariant tierCounters == Seeded(tiers[..i], old(tierCounters))
      {
        assert tiers[..i + 1][..i] == tiers[..i];
        if tiers[i].id !in tierCounters {
          tierCounters := tierCounters[tiers[i].id := 0.0];
        }
      }
      assert tiers[..|tiers|] == tiers;
      var validIds := TierIds(tiers);
      tierCounters := map k | k in tierCounters && k in validIds :: tierCounters[k];
    }

    method IncrementCounters(elapsed: real)
      modifies this`tierCounters
      ensures tierCounters == Incremented(config.tiers, old(tierCounters), elapsed)
    {
      var tiers := config.tiers;
      for i := 0 to |tiers|
        invariant tierCounters == Incremented(tiers[..i], old(tierCounters), elapsed)
      {
        assert tiers[..i + 1][..i] == tiers[..i];
        tierCounters := tierCounters[tiers[i].id := CounterOf(tierCounters, tiers[i].id) + elapsed];
      }
      assert tiers[..|tiers|] == tiers;
    }

    method UnwindCounters(elapsed: real)
      modifies this`tierCounters
      ensures tierCounters == Unwound(config.tiers, old(tierCounters), elapsed)
    {
      var tiers := config.tiers;
      for i := 0 to |tiers|
        invariant tierCounters == Unwound(tiers[..i], old(tierCounters), elapsed)
      {
        assert tiers[..i + 1][..i] == tiers[..i];
        var current := CounterOf(tierCounters, tiers[i].id);
        tierCounters := tierCounters[tiers[i].id := Max0(current - elapsed)];
      }
      assert tiers[..|tiers|] == tiers;
    }

    /** Zero, un-postpone and un-queue every configured tier whose break is no longer than the trigger's. */
    method CascadeReset(triggeringTier: BreakTier)
      modifies this`tierCounters, this`postponements, this`queuedBreaks
      ensures tierCounters == Zeroed(config.tiers, old(tierCounters), triggeringTier.breakDuration)
      ensures postponements == old(postponements) - ResetIds(config.tiers, triggeringTier.breakDuration)
      ensures queuedBreaks == old(queuedBreaks) - ResetIds(config.tiers, triggeringTier.breakDuration)
    {
      ZeroCovered(triggeringTier.breakDuration);
      UnpostponeCovered(triggeringTier.breakDuration);
      UnqueueCovered(triggeringTier.breakDuration);
    }

    /** The first loop of a cascade reset: zero the counter of every tier with a break of at most `d`. */
    method ZeroCovered(d: real)
      modifies this`tierCounters
      ensures tierCounters == Zeroed(config.tiers, old(tierCounters), d)
    {
      var tiers := config.tiers;
      for i := 0 to |tiers|
        invariant tierCounters == Zeroed(tiers[..i], old(tierCounters), d)
      {
        assert tiers[..i + 1][..i] == tiers[..i];
        if tiers[i].breakDuration <= d {
          tierCounters := tierCounters[tiers[i].id := 0.0];
        }
      }
      assert tiers[..|tiers|] == tiers;
    }

    /** The second loop: drop the postponement of every tier with a break of at most `d`. */
    method UnpostponeCovered(d: real)
      modifies this`postponements
      ensures postponements == old(postponements) - ResetIds(config.tiers, d)
    {
      var tiers := config.tiers;
      assert tiers[..0] == [];
      for i := 0 to |tiers|
        invariant postponements == old(postponements) - ResetIds(tiers[..i], d)
      {
        assert tiers[..i + 1][..i] == tiers[..i];
        if tiers[i].breakDuration <= d {
          postponements := postponements - {tiers[i].id};
        }
      }
      assert tiers[..|tiers|] == tiers;
    }

    /** The third loop: take every tier with a break of at most `d` out of the queue. */
    method UnqueueCovered(d: real)
      modifies this`queuedBreaks
      ensures queuedBreaks == old(queuedBreaks) - ResetIds(config.tiers, d)
    {
      var tiers := config.tiers;
      assert tiers[..0] == [];
      for i := 0 to |tiers|
        invariant queuedBreaks == old(queuedBreaks) - ResetIds(tiers[..i], d)
      {
        assert tiers[..i + 1][..i] == tiers[..i];
        if tiers[i].breakDuration <= d {
          queuedBreaks := queuedBreaks - {tiers[i].id};
        }
      }
      assert tiers[..|tiers|] == tiers;
    }
  }
}
