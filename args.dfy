/** The search arguments and their wire codes: the `as_u32`/`as_str` code tables and the
    `Default` values the request encoder falls back on. */
module Args {
  import opened Wrappers
  import opened Text
  import opened Calendar

  /** Ticket mode: IC card or cash ("normal"). */
  datatype TicketPreference = IC | Normal {
    function AsStr(): (r: string)
      ensures r in {"normal", "ic"} && (r == "ic" <==> this == IC)
    {
      match this
      case Normal => "normal"
      case IC => "ic"
    }
  }

  /** Seat class, with its enum discriminant as code. */
  datatype SeatPreference = NonReserved | Reserved | GreenCar {
    function AsU32(): (r: nat)
      ensures 1 <= r <= 3
    {
      match this
      case NonReserved => 1
      case Reserved => 2
      case GreenCar => 3
    }
  }

  /** Walking speed at transfers, with its enum discriminant as code. */
  datatype WalkingSpeed = Fast | Brisk | Leisurely | Slow {
    function AsU32(): (r: nat)
      ensures 1 <= r <= 4
    {
      match this
      case Fast => 1
      case Brisk => 2
      case Leisurely => 3
      case Slow => 4
    }
  }

  /** The six transport means the search can allow or exclude. */
  datatype AvailableMeans = Airlane | Shinkansen | PaidExpress | HighwayBus | Bus | Ferry {
    function AsStr(): (r: string)
      ensures r in {"al", "shin", "ex", "hb", "lb", "sr"}
    {
      match this
      case Airlane => "al"
      case Shinkansen => "shin"
      case PaidExpress => "ex"
      case HighwayBus => "hb"
      case Bus => "lb"
      case Ferry => "sr"
    }
  }

  /** How the search date-time is to be read. */
  datatype DateKind = DepartureTime | LastTrain | FirstTrain | ArrivalTime | NotSpecified {
    function AsU32(): (r: nat)
      ensures 1 <= r <= 5
    {
      match this
      case DepartureTime => 1
      case LastTrain => 2
      case FirstTrain => 3
      case ArrivalTime => 4
      case NotSpecified => 5
    }
  }

  /** The ranking criteria the provider sorts by. */
  datatype TransitCriteria = EarliestArrival | LowestCost | FewestTransfers {
    function AsU32(): (r: nat)
      ensures r <= 2 && (r == 0 <==> this == EarliestArrival)
    {
      match this
      case EarliestArrival => 0
      case LowestCost => 1
      case FewestTransfers => 2
    }
  }

  datatype TransitOptions = TransitOptions(
    ticketPreference: Option<TicketPreference>,
    seatPreference: Option<SeatPreference>,
    walkingSpeed: Option<WalkingSpeed>,
    availableMeans: seq<AvailableMeans>)

  /** A search request. `date` is a chrono `DateTime<FixedOffset>`, so it is always a valid
      date-time; `rank` is a `u32`. */
  datatype TransitArgs = TransitArgs(
    from: string,
    to: string,
    date: DateTime,
    dateKind: DateKind,
    criteria: Option<TransitCriteria>,
    rank: nat,
    options: Option<TransitOptions>)

  predicate ValidArgs(args: TransitArgs) {
    ValidDateTime(args.date) && args.rank <= U32Max
  }

  function DefaultTicketPreference(): TicketPreference { Normal }

  function DefaultSeatPreference(): SeatPreference { NonReserved }

  function DefaultWalkingSpeed(): WalkingSpeed { Leisurely }

  function DefaultCriteria(): TransitCriteria { EarliestArrival }

  /** `default_rank`. */
  function DefaultRank(): nat { 1 }

  /** `default_available_means`: every mean, in declaration order. */
  function DefaultAvailableMeans(): seq<AvailableMeans> {
    [Airlane, Shinkansen, PaidExpress, HighwayBus, Bus, Ferry]
  }

  /** `TransitOptions::default`. */
  function DefaultTransitOptions(): TransitOptions {
    TransitOptions(
      Some(DefaultTicketPreference()),
      Some(DefaultSeatPreference()),
      Some(DefaultWalkingSpeed()),
      DefaultAvailableMeans())
  }

  // ---------------------------------------------------------------- the code tables

  /** The date kinds have the distinct codes 1 (departure) through 5 (unspecified). */
  lemma DateKindCodes(k: DateKind, k': DateKind)
    ensures 1 <= k.AsU32() <= 5
    ensures k.AsU32() == k'.AsU32() ==> k == k'
    ensures DepartureTime.AsU32() == 1 && LastTrain.AsU32() == 2 && FirstTrain.AsU32() == 3
    ensures ArrivalTime.AsU32() == 4 && NotSpecified.AsU32() == 5
  {
  }

  /** The criteria have the distinct codes 0, 1, 2; the default is earliest arrival, code 0. */
  lemma CriteriaCodes(c: TransitCriteria, c': TransitCriteria)
    ensures c.AsU32() <= 2
    ensures c.AsU32() == c'.AsU32() ==> c == c'
    ensures DefaultCriteria() == EarliestArrival && DefaultCriteria().AsU32() == 0
  {
  }

  /** Seat codes are 1 to 3, walking-speed codes 1 to 4, each table injective; the defaults are
      non-reserved (1) and leisurely (3). */
  lemma SeatAndWalkingCodes(s: SeatPreference, s': SeatPreference, w: WalkingSpeed, w': WalkingSpeed)
    ensures 1 <= s.AsU32() <= 3 && (s.AsU32() == s'.AsU32() ==> s == s')
    ensures 1 <= w.AsU32() <= 4 && (w.AsU32() == w'.AsU32() ==> w == w')
    ensures DefaultSeatPreference().AsU32() == 1 && DefaultWalkingSpeed().AsU32() == 3
  {
  }

  /** Tickets are "normal" or "ic", distinct, with "normal" the default. */
  lemma TicketStrings(t: TicketPreference, t': TicketPreference)
    ensures t.AsStr() in {"normal", "ic"}
    ensures t.AsStr() == t'.AsStr() ==> t == t'
    ensures DefaultTicketPreference().AsStr() == "normal"
  {
  }

  /** The means keys are exactly the six wire keys, one per mean. */
  lemma MeansKeys(m: AvailableMeans, m': AvailableMeans)
    ensures m.AsStr() in {"al", "shin", "ex", "hb", "lb", "sr"}
    ensures m.AsStr() == m'.AsStr() ==> m == m'
  {
  }

  /** The defaults: every mean allowed, every preference present and at its default. */
  lemma OptionDefaults(m: AvailableMeans)
    ensures m in DefaultAvailableMeans() && |DefaultAvailableMeans()| == 6
    ensures DefaultTransitOptions().ticketPreference == Some(Normal)
    ensures DefaultTransitOptions().seatPreference == Some(NonReserved)
    ensures DefaultTransitOptions().walkingSpeed == Some(Leisurely)
    ensures DefaultRank() == 1
  {
  }
}
