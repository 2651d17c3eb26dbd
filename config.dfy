/** The user's configuration, read by the timing core and re-read after a "config changed" event. */
module Configs {

  import opened Wrappers
  import opened BreakTiers
  import opened ExceptionRules

  /** Which input events count as activity. */
  datatype InputMonitoring = Keyboard | Mouse | Both

  /**
   * The configuration record.  `warningDuration` and `slackToken` are used by
   * the scheduler and the application delegate although the record as shown
   * does not declare them; they are fields here.
   */
  datatype Config = Config(
    tiers: seq<BreakTier>,
    idleThreshold: real,        // seconds of inactivity after which counters unwind
    inputMonitoring: InputMonitoring,
    mergeWindow: real,          // seconds
    exceptionRules: seq<ExceptionRule>,
    autoExceptionMicrophone: bool,
    autoExceptionScreenSharing: bool,
    warningDuration: real,      // seconds of warning before the overlay
    slackToken: Option<string>
  )

  /** The warning length the scheduler falls back to when no configuration is at hand. */
  const FallbackWarningDuration: real := 30.0

  const DefaultConfig: Config := Config(
    [DefaultShort, DefaultLong],
    180.0,
    Keyboard,
    300.0,
    [],
    true,
    true,
    FallbackWarningDuration,
    None
  )

  /** The ids of the configured tiers. */
  function TierIds(tiers: seq<BreakTier>): (ids: set<TierId>)
    ensures forall i :: 0 <= i < |tiers| ==> tiers[i].id in ids
    ensures forall id :: id in ids ==> exists i :: 0 <= i < |tiers| && tiers[i].id == id
  {
    set t | t in tiers :: t.id
  }

  /** The ids of a non-empty tier list: those of all but the last tier, and the last tier's. */
  lemma TierIdsLast(tiers: seq<BreakTier>)
    requires tiers != []
    ensures TierIds(tiers) == TierIds(tiers[..|tiers| - 1]) + {tiers[|tiers| - 1].id}
  {
    var front := tiers[..|tiers| - 1];
    forall id | id in TierIds(tiers) ensures id in TierIds(front) + {tiers[|tiers| - 1].id} {
      var i :| 0 <= i < |tiers| && tiers[i].id == id;
      if i < |tiers| - 1 { assert front[i] == tiers[i]; }
    }
  }

  /** No two configured tiers share an id. */
  predicate UniqueIds(tiers: seq<BreakTier>) {
    forall i, j :: 0 <= i < j < |tiers| ==> tiers[i].id != tiers[j].id
  }

  /** Without its last tier, a list of unique ids stays unique, and the last id is not among the others. */
  lemma UniqueIdsLast(tiers: seq<BreakTier>)
    requires tiers != [] && UniqueIds(tiers)
    ensures UniqueIds(tiers[..|tiers| - 1])
    ensures tiers[|tiers| - 1].id !in TierIds(tiers[..|tiers| - 1])
  {
  }

  /** The constants of the default configuration. */
  lemma DefaultConfigFacts()
    ensures DefaultConfig.tiers == [DefaultShort, DefaultLong]
    ensures DefaultConfig.idleThreshold == 180.0
    ensures DefaultConfig.inputMonitoring == Keyboard
    ensures DefaultConfig.mergeWindow == 300.0
    ensures DefaultConfig.exceptionRules == []
    ensures DefaultConfig.autoExceptionMicrophone && DefaultConfig.autoExceptionScreenSharing
    ensures UniqueIds(DefaultConfig.tiers)
    ensures TierIds(DefaultConfig.tiers) == {DefaultShort.id, DefaultLong.id}
  {
    assert DefaultConfig.tiers[0] == DefaultShort;
    assert DefaultConfig.tiers[1] == DefaultLong;
  }
}
