/**
 * The records of the events API that the model reads. Nullable fields are `Option`s;
 * numbers are `real`s. Fields no modelled operation reads are omitted.
 */
module Types {
  import opened Wrappers

  datatype City = City(id: string, name: Option<string>, coordinates: Option<string>)

  datatype Location = Location(
    id: string,
    name: Option<string>,
    address: Option<string>,
    city: Option<City>,
    latitude: Option<real>,
    longitude: Option<real>)

  /** `location.city?.name`. */
  function CityName(l: Location): Option<string> {
    if l.city.Some? then l.city.value.name else None
  }

  datatype EventTarget = EventTarget(id: string, name: Option<string>)

  datatype EventFormat = EventFormat(id: string, name: Option<string>)

  datatype SocialNetwork = SocialNetwork(link: Option<string>)

  datatype Organiser = Organiser(name: Option<string>, socialNetworks: Option<seq<SocialNetwork>>)

  datatype ProgramItem = ProgramItem(name: Option<string>, speaker: Option<string>)

  datatype Event = Event(
    id: string,
    name: Option<string>,
    slug: Option<string>,
    term: Option<string>,
    startTime: Option<string>,
    endTime: Option<string>,
    content: Option<string>,
    price: Option<real>,
    maxPrice: Option<real>,
    attend: Option<real>,
    registrationLink: Option<string>,
    languages: Option<seq<string>>,
    targets: Option<seq<EventTarget>>,
    formats: Option<seq<EventFormat>>,
    tags: Option<seq<string>>,
    organisers: Option<seq<Organiser>>,
    program: Option<seq<ProgramItem>>,
    location: Option<Location>)

  /** The price filter of the query variables: `"all" | "free" | "paid"`. */
  datatype PriceFilter = All | Free | Paid

  /** `EventsQueryVariables`: every field is optional. */
  datatype Filters = Filters(
    cities: Option<seq<string>>,
    dates: Option<seq<string>>,
    topic: Option<seq<string>>,
    targets: Option<seq<string>>,
    formats: Option<seq<string>>,
    year: Option<seq<string>>,
    languages: Option<seq<string>>,
    priceFilter: Option<PriceFilter>)

  const NoFilters := Filters(None, None, None, None, None, None, None, None)

  /** The wire spelling of a price filter. */
  function PriceFilterName(p: PriceFilter): (r: string)
    ensures r in {"all", "free", "paid"}
  {
    match p
    case All => "all"
    case Free => "free"
    case Paid => "paid"
  }
}
