/**
 * The break-tier settings pane: a list of the configured tiers with a
 * selection, an add button that appends a fresh tier and selects it, a
 * delete action that removes the selected tier, and a compact rendering of
 * each tier's active interval.
 */
module TiersSettings {

  import opened Wrappers
  import opened SwiftText
  import opened BreakTiers
  import opened Configs
  import opened AppStates

  // ---------------------------------------------------------------------
  // formatDuration

  /** `formatDuration`: whole minutes of the truncated seconds, as "Xh Ym" from an hour on and "Xm" below. */
  function FormatDuration(seconds: real): string {
    var minutes := Quot(Trunc(seconds), 60);
    if minutes >= 60 then IntText(Quot(minutes, 60)) + "h " + IntText(Rem(minutes, 60)) + "m"
    else IntText(minutes) + "m"
  }

  /**
   * A reader for the rendering, independent of it: "<digits>m" is that many
   * minutes, "<digits>h <digits>m" is sixty times the first plus the
   * second, and anything else is not a duration.
   */
  function ReadDuration(text: string): Option<int> {
    if |text| == 0 || text[|text| - 1] != 'm' then None
    else
      var body := text[..|text| - 1];
      var parts := Split(body, 'h');
      if |parts| == 1 && AllDigits(body) && |body| > 0 then Some(DigitsValue(body))
      else if |parts| == 2 && AllDigits(parts[0]) && |parts[0]| > 0
        && |parts[1]| > 1 && parts[1][0] == ' ' && AllDigits(parts[1][1..])
      then Some(60 * DigitsValue(parts[0]) + DigitsValue(parts[1][1..]))
      else None
  }

  /** Below an hour the rendering is the minutes alone, and it reads back as those minutes. */
  lemma ShortDurationReadsBack(minutes: int)
    requires 0 <= minutes
    ensures ReadDuration(IntText(minutes) + "m") == Some(minutes)
  {
    var text := IntText(minutes) + "m";
    IntTextRoundTrip(minutes);
    DigitsHaveNoSeparator(IntText(minutes), 'h');
    assert text[..|text| - 1] == IntText(minutes);
    SplitNoSeparator(IntText(minutes), 'h');
  }

  /** "<h>h <m>" splits at its one 'h' into the hours and the space-led minutes. */
  lemma HoursMinutesSplit(h: int, m: int)
    requires 0 <= h && 0 <= m
    ensures Split(IntText(h) + "h " + IntText(m), 'h') == [IntText(h), " " + IntText(m)]
  {
    var rest := " " + IntText(m);
    IntTextRoundTrip(h);
    IntTextRoundTrip(m);
    DigitsHaveNoSeparator(IntText(h), 'h');
    DigitsHaveNoSeparator(IntText(m), 'h');
    assert IntText(h) + "h " + IntText(m) == IntText(h) + ['h'] + rest;
    assert 'h' !in rest;
    SplitNoSeparator(rest, 'h');
    SplitAt(IntText(h), 'h', rest);
  }

  /** From an hour on the rendering is hours and minutes, and it reads back as `60 * h + m`. */
  lemma LongDurationReadsBack(h: int, m: int)
    requires 0 <= h && 0 <= m
    ensures ReadDuration(IntText(h) + "h " + IntText(m) + "m") == Some(60 * h + m)
  {
    var text := IntText(h) + "h " + IntText(m) + "m";
    var body := IntText(h) + "h " + IntText(m);
    IntTextRoundTrip(h);
    IntTextRoundTrip(m);
    assert text[..|text| - 1] == body;
    HoursMinutesSplit(h, m);
    assert (" " + IntText(m))[1..] == IntText(m);
  }

  /**
   * For a non-negative interval the rendering reads back as its whole
   * minutes; it uses the hours form exactly from 60 minutes on, and then
   * the minutes shown are below 60.
   */
  lemma FormatDurationReadsBack(seconds: real)
    requires seconds >= 0.0
    ensures ReadDuration(FormatDuration(seconds)) == Some(Quot(Trunc(seconds), 60))
    ensures Quot(Trunc(seconds), 60) >= 60 <==>
      exists h: int, m: int :: 1 <= h && 0 <= m < 60 && FormatDuration(seconds) == IntText(h) + "h " + IntText(m) + "m"
  {
    var minutes := Quot(Trunc(seconds), 60);
    if minutes >= 60 {
      var h := Quot(minutes, 60);
      var m := Rem(minutes, 60);
      LongDurationReadsBack(h, m);
      assert 1 <= h && 0 <= m < 60 && FormatDuration(seconds) == IntText(h) + "h " + IntText(m) + "m";
    } else {
      ShortDurationReadsBack(minutes);
      if exists h: int, m: int :: 1 <= h && 0 <= m < 60 && FormatDuration(seconds) == IntText(h) + "h " + IntText(m) + "m" {
        var h: int, m: int :| 1 <= h && 0 <= m < 60 && FormatDuration(seconds) == IntText(h) + "h " + IntText(m) + "m";
        LongDurationReadsBack(h, m);
      }
    }
  }

  // ---------------------------------------------------------------------
  // addTier / deleteTier

  /** The tier the add button appends: "New Break", blue, every 30 minutes for 30 seconds, short screen. */
  function NewTier(id: TierId): (t: BreakTier)
    ensures t.id == id && t.name == "New Break" && t.color == Blue
    ensures t.activeInterval == 1800.0 && t.breakDuration == 30.0 && t.screenType == Short
  {
    BreakTier(id, "New Break", Blue, 30.0 * 60.0, 30.0, Short)
  }

  /** `removeAll { $0.id == id }`: the tiers without those carrying `id`, in their order. */
  function WithoutId(tiers: seq<BreakTier>, id: TierId): seq<BreakTier> {
    if tiers == [] then []
    else
      var front := WithoutId(tiers[..|tiers| - 1], id);
      var last := tiers[|tiers| - 1];
      if last.id == id then front else front + [last]
  }

  /** Removing by id keeps exactly the tiers with another id, and never grows the list. */
  lemma {:induction false} WithoutIdMembers(tiers: seq<BreakTier>, id: TierId)
    ensures forall t :: t in WithoutId(tiers, id) <==> t in tiers && t.id != id
    ensures |WithoutId(tiers, id)| <= |tiers|
  {
    if tiers != [] {
      var front := tiers[..|tiers| - 1];
      WithoutIdMembers(front, id);
      assert tiers == front + [tiers[|tiers| - 1]];
    }
  }

  /** Removing by id takes that id out of the id set and no other, and keeps the ids unique. */
  lemma WithoutIdSpec(tiers: seq<BreakTier>, id: TierId)
    ensures TierIds(WithoutId(tiers, id)) == TierIds(tiers) - {id}
    ensures UniqueIds(tiers) ==> UniqueIds(WithoutId(tiers, id))
  {
    WithoutIdMembers(tiers, id);
    if UniqueIds(tiers) {
      WithoutIdUnique(tiers, id);
    }
  }

  /** Removing by id keeps the ids unique. */
  lemma {:induction false} WithoutIdUnique(tiers: seq<BreakTier>, id: TierId)
    requires UniqueIds(tiers)
    ensures UniqueIds(WithoutId(tiers, id))
  {
    if tiers != [] {
      var front := tiers[..|tiers| - 1];
      var last := tiers[|tiers| - 1];
      UniqueIdsLast(tiers);
      WithoutIdUnique(front, id);
      if last.id != id {
        var r := WithoutId(tiers, id);
        var rf := WithoutId(front, id);
        assert r == rf + [last];
        WithoutIdMembers(front, id);
        forall i, j | 0 <= i < j < |r| ensures r[i].id != r[j].id {
          if j == |r| - 1 {
            assert r[i] == rf[i] && rf[i] in rf;
          } else {
            assert r[i] == rf[i] && r[j] == rf[j];
          }
        }
      }
    }
  }

  /** The first tier's id, or none for an empty list. */
  function FirstId(tiers: seq<BreakTier>): (r: Option<TierId>)
    ensures r.None? <==> tiers == []
  {
    if tiers == [] then None else Some(tiers[0].id)
  }

  /**
   * After an add with an id no counter carries, the new id has counter 0,
   * every other configured tier keeps its counter, and the counters cover
   * exactly the old ids and the new one.
   */
  lemma AddedTierCounters(tiers: seq<BreakTier>, c: Counters, id: TierId)
    requires id !in c
    ensures var after := Initialized(tiers + [NewTier(id)], c);
      && after.Keys == TierIds(tiers) + {id}
      && after[id] == 0.0
      && forall k :: k in TierIds(tiers) && k in c ==> after[k] == c[k]
  {
    var added := tiers + [NewTier(id)];
    assert added[..|added| - 1] == tiers;
    TierIdsLast(added);
    InitializedSpec(added, c);
  }

  /**
   * After a delete the removed id has no counter, the counters cover
   * exactly the remaining ids, and every remaining tier keeps its counter.
   */
  lemma DeletedTierCounters(tiers: seq<BreakTier>, c: Counters, id: TierId)
    ensures var after := Initialized(WithoutId(tiers, id), c);
      && id !in after
      && after.Keys == TierIds(tiers) - {id}
      && forall k :: k in after && k in c ==> after[k] == c[k]
  {
    WithoutIdSpec(tiers, id);
    InitializedSpec(WithoutId(tiers, id), c);
  }

  /** The pane's own state: the session it edits and the selected tier's id. */
  class TiersPane {
    const app: AppState
    var selectedTierId: Option<TierId>

    /** `onAppear`: with no selection yet, the first configured tier is selected. */
    constructor (app: AppState)
      ensures this.app == app && selectedTierId == FirstId(app.config.tiers)
    {
      this.app := app;
      selectedTierId := FirstId(app.config.tiers);
    }

    /**
     * `addTier`: append one new tier under the fresh id `newId`, re-seed
     * the counters for the new tier list, and select the new tier.
     */
    method AddTier(newId: TierId)
      modifies app`config, app`tierCounters, this`selectedTierId
      ensures app.config == old(app.config).(tiers := old(app.config.tiers) + [NewTier(newId)])
      ensures app.tierCounters == Initialized(app.config.tiers, old(app.tierCounters))
      ensures selectedTierId == Some(newId)
    {
      var newTier := NewTier(newId);
      app.config := app.config.(tiers := app.config.tiers + [newTier]);
      app.InitializeCounters();
      selectedTierId := Some(newTier.id);
    }

    /**
     * `deleteTier`: with nothing selected nothing happens; otherwise every
     * tier with the selected id is removed, the counters are re-initialised,
     * and the first remaining tier, if any, becomes the selection.
     */
    method DeleteTier()
      modifies app`config, app`tierCounters, this`selectedTierId
      ensures old(selectedTierId).None? ==>
        app.config == old(app.config) && app.tierCounters == old(app.tierCounters) && selectedTierId == None
      ensures old(selectedTierId).Some? ==>
        && app.config == old(app.config).(tiers := WithoutId(old(app.config.tiers), old(selectedTierId).value))
        && app.tierCounters == Initialized(app.config.tiers, old(app.tierCounters))
        && selectedTierId == FirstId(app.config.tiers)
    {
      if selectedTierId.None? {
        return;
      }
      var id := selectedTierId.value;
      app.config := app.config.(tiers := WithoutId(app.config.tiers, id));
      app.InitializeCounters();
      selectedTierId := FirstId(app.config.tiers);
    }
  }
}
