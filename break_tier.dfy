/** Break tiers: one configured break level with its own active-time threshold and break length. */
module BreakTiers {

  import opened Wrappers

  /** Tier identity (a UUID in the application). */
  type TierId = nat

  /** The eight display colours; the raw value of each is its own name. */
  datatype TierColor = Yellow | Red | Blue | Green | Orange | Purple | Teal | Pink

  /** The raw value of a colour, used as the colour tag of log entries. */
  function RawName(c: TierColor): (name: string)
    ensures 3 <= |name| <= 6
  {
    match c
    case Yellow => "yellow"
    case Red => "red"
    case Blue => "blue"
    case Green => "green"
    case Orange => "orange"
    case Purple => "purple"
    case Teal => "teal"
    case Pink => "pink"
  }

  /** Every colour, in declaration order. */
  const AllColors: seq<TierColor> := [Yellow, Red, Blue, Green, Orange, Purple, Teal, Pink]

  /** The colour of a raw name, if it names one. */
  function ColorNamed(name: string): Option<TierColor> {
    if name == "yellow" then Some(Yellow)
    else if name == "red" then Some(Red)
    else if name == "blue" then Some(Blue)
    else if name == "green" then Some(Green)
    else if name == "orange" then Some(Orange)
    else if name == "purple" then Some(Purple)
    else if name == "teal" then Some(Teal)
    else if name == "pink" then Some(Pink)
    else None
  }

  /** The raw names are distinct: reading a colour's name back gives the colour. */
  lemma RawNameRoundTrip(c: TierColor)
    ensures ColorNamed(RawName(c)) == Some(c)
  {
  }

  /** The colour list has exactly eight distinct entries and covers every colour. */
  lemma AllColorsComplete()
    ensures |AllColors| == 8
    ensures forall c: TierColor :: c in AllColors
    ensures forall i, j :: 0 <= i < j < |AllColors| ==> AllColors[i] != AllColors[j]
  {
    forall c: TierColor ensures c in AllColors {
      match c
      case Yellow => assert AllColors[0] == c;
      case Red => assert AllColors[1] == c;
      case Blue => assert AllColors[2] == c;
      case Green => assert AllColors[3] == c;
      case Orange => assert AllColors[4] == c;
      case Purple => assert AllColors[5] == c;
      case Teal => assert AllColors[6] == c;
      case Pink => assert AllColors[7] == c;
    }
  }

  /** Which break screen the overlay shows; opaque to the timing core. */
  datatype ScreenType = Short | Long

  /**
   * A break tier.  Datatype equality is field-wise over all six fields,
   * which is the synthesized `Equatable` conformance of the record.
   */
  datatype BreakTier = BreakTier(
    id: TierId,
    name: string,
    color: TierColor,
    activeInterval: real,   // seconds of active time before the break is due
    breakDuration: real,    // seconds the break lasts
    screenType: ScreenType
  )

  /** The short default tier: a 15-second stretch every 20 minutes of activity. */
  const DefaultShort: BreakTier := BreakTier(1, "Stretch", Yellow, 20.0 * 60.0, 15.0, Short)

  /** The long default tier: a 5-minute walk every 60 minutes of activity. */
  const DefaultLong: BreakTier := BreakTier(2, "Walk", Red, 60.0 * 60.0, 5.0 * 60.0, Long)

  /** The defaults' constants, and the fact that the long break covers the short one in a cascade reset. */
  lemma DefaultTierFacts()
    ensures DefaultShort.activeInterval == 1200.0 && DefaultShort.breakDuration == 15.0
    ensures DefaultShort.screenType == Short && DefaultShort.name == "Stretch"
    ensures DefaultLong.activeInterval == 3600.0 && DefaultLong.breakDuration == 300.0
    ensures DefaultLong.screenType == Long && DefaultLong.name == "Walk"
    ensures DefaultShort.breakDuration < DefaultLong.breakDuration
    ensures DefaultShort.id != DefaultLong.id
  {
  }
}
