/** The break phase machine's states and the per-overlay state. */
module BreakPhases {

  import opened BreakTiers

  /**
   * Exactly one phase at a time.  Datatype equality compares every argument,
   * so two warnings for the same tier started at different times differ.
   */
  datatype BreakPhase = Idle | Warning(tier: BreakTier, startedAt: real) | Overlay(tier: BreakTier)

  /** State kept while the break overlay is shown. */
  datatype OverlayState = OverlayState(
    tier: BreakTier,
    remainingBreakTime: real,
    isGracePeriod: bool,
    lockAfterBreak: bool,
    lastInputTime: real
  )

  /** A fresh overlay: the whole break still to go, in its grace period, no lock requested. */
  function NewOverlayState(tier: BreakTier, now: real): (o: OverlayState)
    ensures o.tier == tier
    ensures o.remainingBreakTime == tier.breakDuration
    ensures o.isGracePeriod && !o.lockAfterBreak
    ensures o.lastInputTime == now
  {
    OverlayState(tier, tier.breakDuration, true, false, now)
  }

  /** The tier a non-idle phase is about. */
  function PhaseTier(p: BreakPhase): (t: BreakTier)
    requires !p.Idle?
    ensures p.Warning? ==> t == p.tier
    ensures p.Overlay? ==> t == p.tier
  {
    p.tier
  }

  /** Warning equality includes the start time, not just the tier. */
  lemma WarningEqualityIncludesStart(t: BreakTier, s1: real, s2: real)
    ensures Warning(t, s1) == Warning(t, s2) <==> s1 == s2
  {
  }

  /** The three phases are pairwise distinct kinds. */
  lemma PhaseCasesExclusive(p: BreakPhase)
    ensures p.Idle? || p.Warning? || p.Overlay?
    ensures !(p.Idle? && p.Warning?) && !(p.Idle? && p.Overlay?) && !(p.Warning? && p.Overlay?)
  {
  }
}
