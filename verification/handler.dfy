/** The server's two event endpoints, with the request decoding, the payload
    marshalling and the storage service abstracted into their outcomes. */
module Handler {
  import opened Wrappers
  import opened EventModel

  /** The decoded body of `POST /events`. Absent JSON members decode to the
      zero value ("" or 0). */
  datatype RequestBody = RequestBody(
    eventType: string,
    description: string,
    budget: real,
    numberOfPersons: int,
    date: string,
    payload: Payload)

  /** What the storage service does with a new event: it stores it under a
      fresh id and timestamp, or fails. */
  datatype StoreOutcome = Stored(id: EventId, createdAt: string) | StoreFailed

  /** What listing the stored events yields: a slice (nil as `None`) or an error. */
  datatype ListOutcome = Listed(events: Option<seq<Event>>) | ListFailed

  /** A response body: the plain text of `http.Error`, one event as JSON, or
      the `{"events": [...]}` wrapper. */
  datatype Body = Text(text: string) | EventJson(event: Event) | EventsJson(events: seq<Event>)

  datatype Reply = Reply(status: nat, body: Body)

  /** A handler's reply, and whether it called the storage service. */
  datatype Handled = Handled(reply: Reply, serviceCalled: bool)

  const StatusOK: nat := 200
  const StatusCreated: nat := 201
  const StatusBadRequest: nat := 400
  const StatusInternalServerError: nat := 500

  /** `http.Error(w, msg, code)`: the message followed by a newline. */
  function ErrorReply(msg: string, code: nat): Reply {
    Reply(code, Text(msg + "\n"))
  }

  /** The required-field check: type, description or date is empty. Budget
      and head count are not checked. */
  predicate MissingFields(req: RequestBody) {
    req.eventType == "" || req.description == "" || req.date == ""
  }

  /** The event handed to the service, as the service fills it in. */
  function StoredEvent(req: RequestBody, payload: Payload, id: EventId, createdAt: string): Event {
    Event(id, req.eventType, req.description, req.budget, req.numberOfPersons,
          req.date, payload, Some(createdAt))
  }

  /** `CreateEvent`: decode, check the three string fields, marshal the
      payload, store, and answer 201 with the stored event. */
  function CreateEvent(decoded: Option<RequestBody>, marshalled: Option<Payload>, service: StoreOutcome): (h: Handled)
    ensures h.serviceCalled <==> decoded.Some? && !MissingFields(decoded.value) && marshalled.Some?
    ensures !h.serviceCalled ==> h.reply.status == StatusBadRequest
    ensures h.reply.status == StatusCreated <==> h.serviceCalled && service.Stored?
    ensures h.reply.status in {StatusCreated, StatusBadRequest, StatusInternalServerError}
    ensures h.reply.status == StatusCreated ==>
              h.reply.body == EventJson(StoredEvent(decoded.value, marshalled.value, service.id, service.createdAt))
  {
    match decoded
    case None => Handled(ErrorReply("Invalid request body", StatusBadRequest), false)
    case Some(req) =>
      if MissingFields(req) then Handled(ErrorReply("Missing required fields", StatusBadRequest), false)
      else
        match marshalled
        case None => Handled(ErrorReply("Invalid payload format", StatusBadRequest), false)
        case Some(payload) =>
          match service
          case StoreFailed => Handled(ErrorReply("Failed to create event", StatusInternalServerError), true)
          case Stored(id, createdAt) =>
            Handled(Reply(StatusCreated, EventJson(StoredEvent(req, payload, id, createdAt))), true)
  }

  /** The rejections before the service: which message each one carries, and
      that the reply then does not depend on what the service would have done. */
  lemma RejectedBeforeService(decoded: Option<RequestBody>, marshalled: Option<Payload>, s1: StoreOutcome, s2: StoreOutcome)
    ensures decoded.None? ==>
              CreateEvent(decoded, marshalled, s1).reply == ErrorReply("Invalid request body", 400)
    ensures decoded.Some? && MissingFields(decoded.value) ==>
              CreateEvent(decoded, marshalled, s1).reply == ErrorReply("Missing required fields", 400)
    ensures decoded.Some? && !MissingFields(decoded.value) && marshalled.None? ==>
              CreateEvent(decoded, marshalled, s1).reply == ErrorReply("Invalid payload format", 400)
    ensures !CreateEvent(decoded, marshalled, s1).serviceCalled ==>
              CreateEvent(decoded, marshalled, s1) == CreateEvent(decoded, marshalled, s2)
  {
  }

  /** A storage failure is answered with 500 "Failed to create event". */
  lemma StoreFailureIs500(req: RequestBody, payload: Payload)
    requires !MissingFields(req)
    ensures CreateEvent(Some(req), Some(payload), StoreFailed).reply
            == ErrorReply("Failed to create event", 500)
  {
  }

  /** Budget and head count are never validated: changing them never changes
      the status, whatever their sign. */
  lemma NumbersNotValidated(req: RequestBody, budget: real, persons: int, m: Option<Payload>, s: StoreOutcome)
    ensures CreateEvent(Some(req.(budget := budget, numberOfPersons := persons)), m, s).reply.status
            == CreateEvent(Some(req), m, s).reply.status
  {
  }

  /** The created event carries every request field except the payload
      unchanged (the payload is stored in its marshalled form), with the id
      and timestamp the service assigned. */
  lemma CreatedEchoesRequest(req: RequestBody, payload: Payload, id: EventId, createdAt: string)
    requires !MissingFields(req)
    ensures var r := CreateEvent(Some(req), Some(payload), Stored(id, createdAt)).reply;
            && r.status == 201 && r.body.EventJson?
            && r.body.event.eventType == req.eventType
            && r.body.event.description == req.description
            && r.body.event.budget == req.budget
            && r.body.event.numberOfPersons == req.numberOfPersons
            && r.body.event.date == req.date
            && r.body.event.id == id
            && r.body.event.createdAt == Some(createdAt)
  {
  }

  /** `GetEvents`: 500 on a service error; otherwise 200 with the events
      wrapped in `{"events": ...}`, a nil slice written as an empty list. */
  function GetEvents(list: ListOutcome): (r: Reply)
    ensures r.status == StatusOK <==> list.Listed?
    ensures list.ListFailed? ==> r == ErrorReply("Failed to fetch events", StatusInternalServerError)
    ensures list.Listed? ==> r.body.EventsJson? && r.body.events == ValueOr(list.events, [])
  {
    match list
    case ListFailed => ErrorReply("Failed to fetch events", StatusInternalServerError)
    case Listed(events) =>
      var evs := if events.None? then [] else events.value;
      Reply(StatusOK, EventsJson(evs))
  }

  /** A nil slice and an empty slice produce the same reply. */
  lemma NilListIsEmptyList()
    ensures GetEvents(Listed(None)) == GetEvents(Listed(Some([])))
    ensures GetEvents(Listed(None)).body == EventsJson([])
  {
  }
}
