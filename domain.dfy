/** The entities shared by the steps of the wizard: day types, platform keys,
    a platform's fee profile, the five-platform configuration, a price-table row
    and the per-day-type night counts of a season. */
module Domain {

  datatype DayType = Weekday | Weekend | Holiday

  /** The inner loop order of every table: weekday, weekend, holiday. */
  const DayTypes: seq<DayType> := [Weekday, Weekend, Holiday]

  function DayName(d: DayType): string {
    match d
    case Weekday => "weekday"
    case Weekend => "weekend"
    case Holiday => "holiday"
  }

  datatype PlatformKey = Airbnb | Booking | Vrbo | Website | DTravel

  /** `Object.keys(platforms)`: the configuration lists the platforms in this order
      and every update keeps it. */
  const AllPlatforms: seq<PlatformKey> := [Airbnb, Booking, Vrbo, Website, DTravel]

  /** The internal key, the first component of an override key. */
  function PlatformName(pk: PlatformKey): string {
    match pk
    case Airbnb => "airbnb"
    case Booking => "booking"
    case Vrbo => "vrbo"
    case Website => "website"
    case DTravel => "dtravel"
  }

  /** The human label shown in the UI and written to the export. */
  function LabelFor(pk: PlatformKey): (name: string)
    ensures pk == Airbnb ==> name == "Airbnb"
    ensures pk == Booking ==> name == "Booking.com"
    ensures pk == Vrbo ==> name == "VRBO"
    ensures pk == Website ==> name == "My Website"
    ensures pk == DTravel ==> name == "DTravel"
    ensures name != [] && ',' !in name && '\n' !in name
  {
    match pk
    case Airbnb => "Airbnb"
    case Booking => "Booking.com"
    case Vrbo => "VRBO"
    case Website => "My Website"
    case DTravel => "DTravel"
  }

  /** Percentages as entered, each nominally in [0, 100]. */
  datatype FeeProfile = FeeProfile(
    guestFeePct: real,
    hostCommissionPct: real,
    vatPct: real,
    incomeTaxPct: real,
    discountPaddingPct: real)

  datatype Platforms = Platforms(
    airbnb: FeeProfile,
    booking: FeeProfile,
    vrbo: FeeProfile,
    website: FeeProfile,
    dtravel: FeeProfile)

  /** `platforms[pk]` */
  function Profile(ps: Platforms, pk: PlatformKey): FeeProfile {
    match pk
    case Airbnb => ps.airbnb
    case Booking => ps.booking
    case Vrbo => ps.vrbo
    case Website => ps.website
    case DTravel => ps.dtravel
  }

  /** One cell of the price table. */
  datatype PriceRow = PriceRow(
    season: string,
    dayType: DayType,
    platform: PlatformKey,
    dp: int,
    gross: int,
    guestPrice: int,
    net: int)

  /** Booked nights (or per-night targets) of one season, by day type. */
  datatype DayCounts = DayCounts(weekday: int, weekend: int, holiday: int) {
    function Get(d: DayType): int {
      match d
      case Weekday => weekday
      case Weekend => weekend
      case Holiday => holiday
    }

    function With(d: DayType, v: int): (r: DayCounts)
      ensures r.Get(d) == v
      ensures forall e :: e != d ==> r.Get(e) == Get(e)
    {
      match d
      case Weekday => this.(weekday := v)
      case Weekend => this.(weekend := v)
      case Holiday => this.(holiday := v)
    }

    function Total(): int {
      weekday + weekend + holiday
    }
  }

  /** Day-type multipliers of the seasonality configuration. */
  datatype Multipliers = Multipliers(weekday: real, weekend: real, holiday: real)
}
