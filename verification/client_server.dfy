/** The client and the server end to end: the server's replies as the
    client's fetch outcomes, and what they make of the store. Every reply is
    taken to reach the client as a response, which holds when the page is
    served from one of the origins the CORS middleware allows; from any other
    origin the browser rejects the fetch whatever the handler answered. */
module ClientServer {
  import opened Wrappers
  import opened Text
  import opened EventModel
  import opened EventsSlice
  import opened EventsSaga
  import EventForm
  import Handler

  /** A reply as the client's `fetch` of `GET /events` sees it. A JSON list
      body decodes to its events; a plain-text body makes `response.json()`
      throw a SyntaxError with message `syntaxError`. */
  function AsFetchOutcome(r: Handler.Reply, syntaxError: string): HttpOutcome<EventsBody> {
    match r.body
    case EventsJson(evs) => Response(r.status, Parsed(EventsBody(Some(evs))))
    case _ => Response(r.status, JsonThrows(ErrorThrown(syntaxError)))
  }

  /** A reply as the client's `fetch` of `POST /events` sees it. */
  function AsCreateOutcome(r: Handler.Reply, syntaxError: string): HttpOutcome<Event> {
    match r.body
    case EventJson(e) => Response(r.status, Parsed(e))
    case _ => Response(r.status, JsonThrows(ErrorThrown(syntaxError)))
  }

  /** The JSON body the client posts, as the server decodes it. */
  function RequestBodyOf(n: NewEvent): Handler.RequestBody {
    Handler.RequestBody(n.eventType, n.description, n.budget, n.numberOfPersons, n.date, n.payload)
  }

  /** Listing the events end to end: a server failure reaches the store as
      "HTTP error! status: 500"; otherwise the store holds exactly the stored
      events (none for a nil slice), and the error is cleared. */
  lemma ListingReachesStore(s: State, list: Handler.ListOutcome, syntaxError: string)
    ensures list.ListFailed? ==>
              Reduce(s, FetchEventsWorker(AsFetchOutcome(Handler.GetEvents(list), syntaxError)))
              == s.(loading := false, error := Some("HTTP error! status: 500"))
    ensures list.Listed? ==>
              Reduce(s, FetchEventsWorker(AsFetchOutcome(Handler.GetEvents(list), syntaxError)))
              == s.(loading := false, events := ValueOr(list.events, []), error := None)
  {
    if list.ListFailed? {
      var o := AsFetchOutcome(Handler.GetEvents(list), syntaxError);
      assert o == Response(500, JsonThrows(ErrorThrown(syntaxError)));
      assert Decimal(500) == Decimal(50) + ['0'];
      assert Decimal(50) == Decimal(5) + ['0'];
      assert FetchEventsWorker(o) == FetchEventsFailure("HTTP error! status: 500");
    }
  }

  /** Creating an event end to end: a stored event is prepended to the store's
      list with exactly the fields that were posted; a rejected or failed
      create leaves the list alone and records the HTTP status. */
  lemma CreationReachesStore(s: State, n: NewEvent, marshalled: Option<Payload>,
                             service: Handler.StoreOutcome, syntaxError: string)
    ensures
      var h := Handler.CreateEvent(Some(RequestBodyOf(n)), marshalled, service);
      var s' := Reduce(s, CreateEventWorker(AsCreateOutcome(h.reply, syntaxError)));
      && (h.reply.status == 201 ==>
            && s'.submitStatus == Succeeded
            && |s'.events| == |s.events| + 1 && s'.events[1..] == s.events
            && s'.events[0].eventType == n.eventType
            && s'.events[0].description == n.description
            && s'.events[0].budget == n.budget
            && s'.events[0].numberOfPersons == n.numberOfPersons
            && s'.events[0].date == n.date)
      && (h.reply.status != 201 ==>
            && s'.submitStatus == Failed
            && s'.events == s.events
            && s'.error == Some(HttpErrorMessage(h.reply.status)))
  {
  }

  /** Every request the form dispatches passes the server's required-field
      check: the form's own checks are strictly stronger. */
  lemma FormRequestsPassServerCheck(d: EventForm.Draft)
    requires EventForm.Valid(d)
    ensures EventForm.HandleSubmit(d).Dispatched?
    ensures !Handler.MissingFields(RequestBodyOf(EventForm.HandleSubmit(d).request))
  {
    TypeNameRoundTrip(d.eventType.value);
    assert !Blank(d.description.value);
  }
}
