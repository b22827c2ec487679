/**
 * The schema.org structured data of the site: the `Event` object of an event page, the
 * `ItemList` of the listing page and a `BreadcrumbList`. Each object is a datatype whose
 * `Option` fields are the properties that may be left `undefined`. The site address
 * (`NEXT_PUBLIC_SITE_URL` or its default), the current time and `addUtmParams` are
 * parameters.
 */
module JsonLd {
  import opened Wrappers
  import Strs
  import Seqs
  import Types

  const DefaultSiteUrl := "https://dny.ai"
  const OrganizationId := "https://withseismic.com/#organization"
  const OrganizationName := "Withseismic"
  const OrganizationUrl := "https://withseismic.com"
  const InStock := "https://schema.org/InStock"
  const OnlineMode := "https://schema.org/OnlineEventAttendanceMode"
  const OfflineMode := "https://schema.org/OfflineEventAttendanceMode"
  const Scheduled := "https://schema.org/EventScheduled"

  /** `process.env.NEXT_PUBLIC_SITE_URL || "https://dny.ai"`. */
  function SiteUrl(configured: Option<string>): (r: string)
    ensures r != ""
    ensures Truthy(configured) ==> r == configured.value
  {
    if Truthy(configured) then configured.value else DefaultSiteUrl
  }

  /** A nullable string inside a template literal: `null` prints as "null". */
  function Interpolated(s: Option<string>): string {
    if s.Some? then s.value else "null"
  }

  /** `${SITE_URL}/${event.slug}`. */
  function EventUrl(site: string, e: Types.Event): string {
    site + "/" + Interpolated(e.slug)
  }

  /** `x || undefined` for a nullable string. */
  function OrUndefined(s: Option<string>): (r: Option<string>)
    ensures r.Some? <==> Truthy(s)
    ensures r.Some? ==> r == s
  {
    if Truthy(s) then s else None
  }

  // ---------------------------------------------------------------------------
  // The objects

  datatype PostalAddress = PostalAddress(streetAddress: string, addressLocality: Option<string>, addressCountry: string)

  datatype GeoCoordinates = GeoCoordinates(latitude: real, longitude: real)

  datatype Place = Place(name: Option<string>, address: Option<PostalAddress>, geo: Option<GeoCoordinates>)

  datatype Offer = Offer(price: real, priceCurrency: string, url: string, availability: string, validFrom: string)

  /** An `Organization`; `id` is `@id`, present only on the platform's own entry. */
  datatype Organization = Organization(id: Option<string>, name: Option<string>, url: Option<string>)

  datatype Person = Person(name: string)

  /** The `Event` object; `publisher` is the `@id` its publisher reference points at. */
  datatype EventSchema = EventSchema(
    id: string, name: string, url: string, description: string,
    startDate: Option<string>, endDate: Option<string>, eventStatus: string, eventAttendanceMode: string,
    location: Option<Place>, organizer: Organization, offers: Option<Offer>, performer: Option<seq<Person>>,
    inLanguage: Option<seq<string>>, keywords: string, publisher: string, isAccessibleForFree: bool,
    maximumAttendeeCapacity: Option<real>, typicalAgeRange: Option<string>)

  /** The platform itself, the organiser used when an event lists none. */
  const Withseismic := Organization(Some(OrganizationId), Some(OrganizationName), Some(OrganizationUrl))

  // ---------------------------------------------------------------------------
  // The parts of an event's schema

  /** `location`: the venue's name, its postal address and its coordinates when they are known. */
  function PlaceOf(l: Types.Location): (p: Place)
    ensures p.name == OrUndefined(l.name)
    ensures p.address.Some? <==> Truthy(l.address)
    ensures p.address.Some? ==>
      p.address.value == PostalAddress(l.address.value, OrUndefined(Types.CityName(l)), "BE")
    ensures p.geo.Some? <==> NumTruthy(l.latitude) && NumTruthy(l.longitude)
    ensures p.geo.Some? ==> p.geo.value == GeoCoordinates(l.latitude.value, l.longitude.value)
  {
    Place(
      OrUndefined(l.name),
      if Truthy(l.address) then Some(PostalAddress(l.address.value, OrUndefined(Types.CityName(l)), "BE")) else None,
      if NumTruthy(l.latitude) && NumTruthy(l.longitude) then Some(GeoCoordinates(l.latitude.value, l.longitude.value))
      else None)
  }

  /** `offers`, for an event with a price; the address is the UTM-tagged registration link, or the event page. */
  function OfferOf(e: Types.Event, site: string, addUtm: string -> string, now: string): (o: Option<Offer>)
    ensures o.Some? <==> e.price.Some?
    ensures o.Some? ==> (o.value.price == e.price.value && o.value.priceCurrency == "EUR" &&
                         o.value.availability == InStock && o.value.validFrom == now)
    ensures o.Some? && !Truthy(e.registrationLink) ==> o.value.url == EventUrl(site, e)
    ensures o.Some? && Truthy(e.registrationLink) ==>
      o.value.url == if addUtm(e.registrationLink.value) != "" then addUtm(e.registrationLink.value) else e.registrationLink.value
  {
    if e.price.None? then None
    else
      var url := if Truthy(e.registrationLink) then
          (if addUtm(e.registrationLink.value) != "" then addUtm(e.registrationLink.value) else e.registrationLink.value)
        else EventUrl(site, e);
      // both branches of the source's availability choice give "InStock"
      var availability := if e.price == Some(0.0) then InStock else InStock;
      Some(Offer(e.price.value, "EUR", url, availability, now))
  }

  /** One listed organiser: its name and its first social network's link, when truthy. */
  function OrganizationOf(org: Types.Organiser): (r: Organization)
    ensures r.id.None? && r.name == OrUndefined(org.name)
    ensures r.url.Some? <==> NonEmpty(org.socialNetworks) && Truthy(org.socialNetworks.value[0].link)
  {
    Organization(
      None, OrUndefined(org.name),
      if NonEmpty(org.socialNetworks) then OrUndefined(org.socialNetworks.value[0].link) else None)
  }

  /** `organizer`: the first of the mapped organisers, or the platform when there are none. */
  function OrganizerOf(e: Types.Event): (r: Organization)
    ensures NonEmpty(e.organisers) ==> r == OrganizationOf(e.organisers.value[0])
    ensures !NonEmpty(e.organisers) ==> r == Withseismic
  {
    var organizers :=
      if NonEmpty(e.organisers) then Seqs.Map(OrganizationOf, e.organisers.value) else [Withseismic];
    organizers[0]
  }

  predicate HasSpeaker(p: Types.ProgramItem) {
    Truthy(p.speaker)
  }

  function PersonOf(p: Types.ProgramItem): Person
    requires HasSpeaker(p)
  {
    Person(p.speaker.value)
  }

  /** `performers`: the program entries with a speaker, in order, as people. */
  function Performers(program: seq<Types.ProgramItem>): (r: seq<Person>)
    ensures |r| == Seqs.Count(HasSpeaker, program)
    ensures forall i :: 0 <= i < |r| ==> r[i] == PersonOf(Seqs.Filter(HasSpeaker, program)[i])
  {
    var speakers := Seqs.Filter(HasSpeaker, program);
    seq(|speakers|, i requires 0 <= i < |speakers| => PersonOf(speakers[i]))
  }

  /** `performer`: the performers, left out when there are none. */
  function PerformerOf(e: Types.Event): (r: Option<seq<Person>>)
    ensures r.Some? <==> e.program.Some? && Seqs.Count(HasSpeaker, e.program.value) > 0
    ensures r.Some? ==> r.value == Performers(e.program.value)
  {
    if e.program.Some? && |Performers(e.program.value)| > 0 then Some(Performers(e.program.value)) else None
  }

  /** `keywords`: the tags, the target names (`null` printed empty), then the three fixed words. */
  const FixedKeywords: seq<string> := ["Belgium", "DNY.AI", "Withseismic"]

  function TargetName(t: Types.EventTarget): string {
    OrEmpty(t.name)
  }

  function KeywordList(e: Types.Event): seq<string> {
    e.tags.GetOr([]) + (if e.targets.Some? then Seqs.Map(TargetName, e.targets.value) else []) + FixedKeywords
  }

  function Keywords(e: Types.Event): string {
    Strs.Join(KeywordList(e), ", ")
  }

  // ---------------------------------------------------------------------------
  // The description

  /** The position of the first `c` in `s`. */
  function IndexOf(s: string, c: char): (r: Option<nat>)
    ensures r.Some? ==> r.value < |s| && s[r.value] == c && c !in s[..r.value]
    ensures r.None? <==> c !in s
  {
    if s == [] then None
    else if s[0] == c then Some(0)
    else
      var rest := IndexOf(s[1..], c);
      assert s == [s[0]] + s[1..];
      if rest.None? then None
      else
        assert s[..rest.value + 1] == [s[0]] + s[1..][..rest.value];
        Some(rest.value + 1)
  }

  /**
   * `replace(/<[^>]*>/g, "")`: each `<` up to the next `>` is removed; a `<` with no `>`
   * after it stays.
   */
  function StripTags(s: string): (r: string)
    ensures |r| <= |s|
    decreases |s|
  {
    if s == [] then []
    else if s[0] == '<' && IndexOf(s[1..], '>').Some? then StripTags(s[1..][IndexOf(s[1..], '>').value + 1..])
    else [s[0]] + StripTags(s[1..])
  }

  /** `text.substring(0, n)`. */
  function Substring(text: string, n: nat): (r: string)
    ensures |r| <= n && r <= text
    ensures |text| >= n ==> |r| == n
  {
    if |text| <= n then text else text[..n]
  }

  /** `description`: the first 500 characters of the text without its tags, or a stock sentence. */
  function Description(e: Types.Event): (r: string)
    ensures r != ""
    ensures e.content.Some? && Substring(StripTags(e.content.value), 500) != "" ==>
      r == Substring(StripTags(e.content.value), 500) && |r| <= 500
    ensures e.content.None? || Substring(StripTags(e.content.value), 500) == "" ==>
      r == "Join us for " + Interpolated(e.name) + " in Belgium. Discover this event on DNY.AI, powered by Withseismic."
  {
    var stripped := if e.content.Some? then Substring(StripTags(e.content.value), 500) else "";
    if stripped != "" then stripped
    else "Join us for " + Interpolated(e.name) + " in Belgium. Discover this event on DNY.AI, powered by Withseismic."
  }

  /** `eventAttendanceMode`: online when the lower-cased venue name mentions "online" or "virtual". */
  function AttendanceMode(e: Types.Event): (r: string)
    ensures r == OnlineMode || r == OfflineMode
    ensures r == OnlineMode <==> (e.location.Some? && e.location.value.name.Some? &&
                                  (Strs.Contains(Strs.Lower(e.location.value.name.value), "online") ||
                                   Strs.Contains(Strs.Lower(e.location.value.name.value), "virtual")))
  {
    if e.location.Some? && e.location.value.name.Some? &&
       (Strs.Contains(Strs.Lower(e.location.value.name.value), "online") ||
        Strs.Contains(Strs.Lower(e.location.value.name.value), "virtual"))
    then OnlineMode
    else OfflineMode
  }

  /** The lower-cased, non-empty target names. */
  function LowerTargetNames(targets: seq<Types.EventTarget>): seq<string> {
    Seqs.Filter(Strs.NonEmptyString, Seqs.Map((t: Types.EventTarget) => Strs.Lower(OrEmpty(t.name)), targets))
  }

  predicate YouthName(name: string) {
    Strs.Contains(name, "student") || Strs.Contains(name, "youth")
  }

  // ---------------------------------------------------------------------------
  // generateEventSchema

  /** The object literal of `generateEventSchema`, before the two optional properties. */
  function SchemaLiteral(e: Types.Event, site: string, addUtm: string -> string, now: string): EventSchema {
    var eventUrl := EventUrl(site, e);
    EventSchema(
      eventUrl, OrEmpty(e.name), eventUrl, Description(e), OrUndefined(e.term), OrUndefined(e.term),
      Scheduled, AttendanceMode(e), if e.location.Some? then Some(PlaceOf(e.location.value)) else None,
      OrganizerOf(e), OfferOf(e, site, addUtm, now), PerformerOf(e),
      e.languages, Keywords(e), OrganizationId, e.price == Some(0.0) || e.price == None, None, None)
  }

  /**
   * `generateEventSchema`: the object literal, then the two properties the source adds to
   * it when they apply.
   */
  method GenerateEventSchema(e: Types.Event, site: string, addUtm: string -> string, now: string)
    returns (schema: EventSchema)
    ensures schema.id == schema.url == EventUrl(site, e)
    ensures schema.name == OrEmpty(e.name) && schema.description == Description(e)
    ensures schema.startDate == schema.endDate == OrUndefined(e.term)
    ensures schema.eventStatus == Scheduled && schema.eventAttendanceMode == AttendanceMode(e)
    ensures schema.location.Some? <==> e.location.Some?
    ensures schema.location.Some? ==> schema.location.value == PlaceOf(e.location.value)
    ensures schema.organizer == OrganizerOf(e)
    ensures schema.offers == OfferOf(e, site, addUtm, now)
    ensures schema.offers.Some? <==> e.price.Some?
    ensures schema.performer == PerformerOf(e)
    ensures schema.inLanguage == e.languages
    ensures schema.keywords == Keywords(e)
    ensures schema.publisher == "https://withseismic.com/#organization"
    ensures schema.isAccessibleForFree <==> e.price == Some(0.0) || e.price.None?
    ensures schema.maximumAttendeeCapacity.Some? <==> NumTruthy(e.attend)
    ensures schema.maximumAttendeeCapacity.Some? ==> schema.maximumAttendeeCapacity == e.attend
    ensures schema.typicalAgeRange.Some? <==>
      e.targets.Some? && exists t :: t in e.targets.value && YouthName(Strs.Lower(OrEmpty(t.name)))
    ensures schema.typicalAgeRange.Some? ==> schema.typicalAgeRange.value == "18-25"
  {
    schema := SchemaLiteral(e, site, addUtm, now);
    if NumTruthy(e.attend) {
      schema := schema.(maximumAttendeeCapacity := e.attend);
    }
    if e.targets.Some? && |e.targets.value| > 0 {
      var targetNames := LowerTargetNames(e.targets.value);
      if exists i :: 0 <= i < |targetNames| && YouthName(targetNames[i]) {
        schema := schema.(typicalAgeRange := Some("18-25"));
      }
      YouthTargets(e.targets.value);
    }
  }

  // ---------------------------------------------------------------------------
  // generateEventsListSchema and generateBreadcrumbSchema

  datatype ListedPlace = ListedPlace(name: Option<string>, addressLocality: Option<string>)

  datatype ListedEvent = ListedEvent(
    id: string, name: Option<string>, url: string, startDate: Option<string>, location: Option<ListedPlace>)

  datatype ListItem = ListItem(position: nat, item: ListedEvent)

  function ListedEventOf(site: string, e: Types.Event): ListedEvent {
    ListedEvent(
      EventUrl(site, e), e.name, EventUrl(site, e), e.term,
      if e.location.Some? then Some(ListedPlace(e.location.value.name, Types.CityName(e.location.value))) else None)
  }

  /** `itemListElement` of `generateEventsListSchema`: one item per event, numbered from 1, in order. */
  function EventsListSchema(site: string, events: seq<Types.Event>): (r: seq<ListItem>)
    ensures |r| == |events|
    ensures forall i :: 0 <= i < |r| ==> r[i] == ListItem(i + 1, ListedEventOf(site, events[i]))
  {
    seq(|events|, i requires 0 <= i < |events| => ListItem(i + 1, ListedEventOf(site, events[i])))
  }

  datatype Crumb = Crumb(name: string, url: string)

  datatype BreadcrumbItem = BreadcrumbItem(position: nat, name: string, item: string)

  /** `itemListElement` of `generateBreadcrumbSchema`: the crumbs numbered from 1, with absolute addresses. */
  function BreadcrumbSchema(site: string, items: seq<Crumb>): (r: seq<BreadcrumbItem>)
    ensures |r| == |items|
    ensures forall i :: 0 <= i < |r| ==> r[i] == BreadcrumbItem(i + 1, items[i].name, site + items[i].url)
  {
    seq(|items|, i requires 0 <= i < |items| => BreadcrumbItem(i + 1, items[i].name, site + items[i].url))
  }

  // ---------------------------------------------------------------------------
  // Facts

  /** Some lower-cased non-empty name mentions a youth audience exactly when some target's name does. */
  lemma YouthTargets(targets: seq<Types.EventTarget>)
    ensures (exists i :: 0 <= i < |LowerTargetNames(targets)| && YouthName(LowerTargetNames(targets)[i])) <==>
            (exists t :: t in targets && YouthName(Strs.Lower(OrEmpty(t.name))))
  {
    var lowered := Seqs.Map((t: Types.EventTarget) => Strs.Lower(OrEmpty(t.name)), targets);
    var names := LowerTargetNames(targets);
    assert (exists i :: 0 <= i < |names| && YouthName(names[i])) ==>
           (exists t :: t in targets && YouthName(Strs.Lower(OrEmpty(t.name)))) by {
      if exists i :: 0 <= i < |names| && YouthName(names[i]) {
        var i :| 0 <= i < |names| && YouthName(names[i]);
        Seqs.FilterMembers(Strs.NonEmptyString, lowered);
        assert names[i] in lowered;
        var j :| 0 <= j < |lowered| && lowered[j] == names[i];
        assert targets[j] in targets;
      }
    }
    assert (exists t :: t in targets && YouthName(Strs.Lower(OrEmpty(t.name)))) ==>
           (exists i :: 0 <= i < |names| && YouthName(names[i])) by {
      if exists t :: t in targets && YouthName(Strs.Lower(OrEmpty(t.name))) {
        var t :| t in targets && YouthName(Strs.Lower(OrEmpty(t.name)));
        var j :| 0 <= j < |targets| && targets[j] == t;
        assert lowered[j] in lowered;
        Strs.ContainsAt(lowered[j], "youth");
        Strs.ContainsAt(lowered[j], "student");
        assert lowered[j] != "";
        Seqs.FilterMembers(Strs.NonEmptyString, lowered);
        assert lowered[j] in names;
        var i :| 0 <= i < |names| && names[i] == lowered[j];
      }
    }
  }

  /** The characters left by `StripTags` are characters of its input. */
  lemma {:induction false} StripTagsKeepsCharacters(s: string, c: char)
    requires c in StripTags(s)
    ensures c in s
    decreases |s|
  {
    if s[0] == '<' && IndexOf(s[1..], '>').Some? {
      var k := IndexOf(s[1..], '>').value;
      StripTagsKeepsCharacters(s[1..][k + 1..], c);
      assert s[1..][k + 1..] == s[k + 2..];
    } else if c != s[0] {
      StripTagsKeepsCharacters(s[1..], c);
    }
  }

  /** No tag survives: after a `<` of the result there is no `>`. */
  lemma {:induction false} StripTagsRemovesTags(s: string, i: nat, j: nat)
    requires i < j < |StripTags(s)| && StripTags(s)[i] == '<'
    ensures StripTags(s)[j] != '>'
    decreases |s|
  {
    var r := StripTags(s);
    if s[0] == '<' && IndexOf(s[1..], '>').Some? {
      StripTagsRemovesTags(s[1..][IndexOf(s[1..], '>').value + 1..], i, j);
    } else if i > 0 {
      StripTagsRemovesTags(s[1..], i - 1, j - 1);
    } else {
      // s[0] is a '<' with no '>' after it
      assert r[j] == StripTags(s[1..])[j - 1];
      if r[j] == '>' {
        assert r[j] in StripTags(s[1..]);
        StripTagsKeepsCharacters(s[1..], '>');
      }
    }
  }

  /** Text without `<` is left as it is. */
  lemma {:induction false} StripTagsPlainText(s: string)
    requires '<' !in s
    ensures StripTags(s) == s
    decreases |s|
  {
    if s != [] {
      assert s[0] in s;
      assert '<' !in s[1..];
      StripTagsPlainText(s[1..]);
    }
  }

  /** The three fixed words, joined. */
  lemma FixedKeywordsText()
    ensures Strs.Join(FixedKeywords, ", ") == "Belgium, DNY.AI, Withseismic"
  {
    assert FixedKeywords[1..] == ["DNY.AI", "Withseismic"];
    assert FixedKeywords[1..][1..] == ["Withseismic"];
  }

  /** The keywords always end with the three fixed words, after the tags and target names. */
  lemma KeywordsEndWithPlatform(e: Types.Event)
    ensures var prefix := e.tags.GetOr([]) + (if e.targets.Some? then Seqs.Map(TargetName, e.targets.value) else []);
      (prefix == [] ==> Keywords(e) == Strs.Join(FixedKeywords, ", ")) &&
      (prefix != [] ==> Keywords(e) == Strs.Join(prefix, ", ") + ", " + Strs.Join(FixedKeywords, ", "))
  {
    var prefix := e.tags.GetOr([]) + (if e.targets.Some? then Seqs.Map(TargetName, e.targets.value) else []);
    if prefix != [] {
      Strs.JoinAppend(prefix, FixedKeywords, ", ");
    } else {
      assert KeywordList(e) == FixedKeywords;
    }
  }

  /** The performers are exactly the speakers of the program entries that have one. */
  lemma PerformersAreSpeakers(program: seq<Types.ProgramItem>, name: string)
    ensures Person(name) in Performers(program) <==>
            exists item :: item in program && HasSpeaker(item) && item.speaker.value == name
  {
    var speakers := Seqs.Filter(HasSpeaker, program);
    Seqs.FilterMembers(HasSpeaker, program);
    if Person(name) in Performers(program) {
      var i :| 0 <= i < |Performers(program)| && Performers(program)[i] == Person(name);
      assert speakers[i] in speakers;
    }
    if exists item :: item in program && HasSpeaker(item) && item.speaker.value == name {
      var item :| item in program && HasSpeaker(item) && item.speaker.value == name;
      var i :| 0 <= i < |speakers| && speakers[i] == item;
      assert Performers(program)[i] == Person(name);
    }
  }
}
