/** The Event entity shared by client and server, and the closed set of event
    categories (`EventTypeEnum`, declared identically in the store and in the
    form's type module). */
module EventModel {
  import opened Wrappers

  /** The ten event categories, in declaration order. */
  datatype EventType =
    | Wedding | Birthday | Conference | Concert | Festival
    | Workshop | Seminar | Meetup | Fundraiser | Exhibition

  /** The string value of each enum member (equal to its key). */
  function TypeName(t: EventType): string {
    match t
    case Wedding => "Wedding"
    case Birthday => "Birthday"
    case Conference => "Conference"
    case Concert => "Concert"
    case Festival => "Festival"
    case Workshop => "Workshop"
    case Seminar => "Seminar"
    case Meetup => "Meetup"
    case Fundraiser => "Fundraiser"
    case Exhibition => "Exhibition"
  }

  /** The enum member whose value is `s`, if any (the value of a `<select>` option). */
  function ParseType(s: string): (r: Option<EventType>)
    ensures r.Some? ==> TypeName(r.value) == s
  {
    if s == "Wedding" then Some(Wedding)
    else if s == "Birthday" then Some(Birthday)
    else if s == "Conference" then Some(Conference)
    else if s == "Concert" then Some(Concert)
    else if s == "Festival" then Some(Festival)
    else if s == "Workshop" then Some(Workshop)
    else if s == "Seminar" then Some(Seminar)
    else if s == "Meetup" then Some(Meetup)
    else if s == "Fundraiser" then Some(Fundraiser)
    else if s == "Exhibition" then Some(Exhibition)
    else None
  }

  /** `Object.values(EventTypeEnum)`: every member once, in declaration order. */
  const AllTypes: seq<EventType> :=
    [Wedding, Birthday, Conference, Concert, Festival,
     Workshop, Seminar, Meetup, Fundraiser, Exhibition]

  /** Every enum value reads back as its member, and no value is empty, so a
      chosen type is always truthy; the value list is complete and repeats nothing. */
  lemma TypeNameRoundTrip(t: EventType)
    ensures ParseType(TypeName(t)) == Some(t)
    ensures TypeName(t) != ""
    ensures t in AllTypes
    ensures |AllTypes| == 10
    ensures forall i, j | 0 <= i < j < |AllTypes| :: AllTypes[i] != AllTypes[j]
  {
    AllTypesDistinct();
    match t
    case Wedding =>
    case Birthday =>
    case Conference =>
    case Concert =>
    case Festival =>
    case Workshop =>
    case Seminar =>
    case Meetup =>
    case Fundraiser =>
    case Exhibition =>
  }

  /** No category is listed twice. */
  lemma AllTypesDistinct()
    ensures forall i, j | 0 <= i < j < |AllTypes| :: AllTypes[i] != AllTypes[j]
  {
  }

  /** The form's placeholder option "" names no member. */
  lemma PlaceholderIsNoType()
    ensures ParseType("") == None
  {
  }

  /** Event identifiers: a number in the client's interface, a UUID string in
      the server. Treated as opaque values. */
  datatype EventId = EventId(raw: string)

  /** The free-form `payload` object, kept as its JSON text. */
  datatype Payload = Payload(json: string)

  /** The empty object `{}`. */
  const EmptyPayload: Payload := Payload("{}")

  /** A stored event as the list view and the server see it. `eventType` is a
      plain string: neither the server nor the list view restricts it to the enum. */
  datatype Event = Event(
    id: EventId,
    eventType: string,
    description: string,
    budget: real,
    numberOfPersons: int,
    date: string,
    payload: Payload,
    createdAt: Option<string>)

  /** The body of a create request: an event without `id` and `createdAt`. */
  datatype NewEvent = NewEvent(
    eventType: string,
    description: string,
    budget: real,
    numberOfPersons: int,
    date: string,
    payload: Payload)
}
