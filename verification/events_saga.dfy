/** The asynchronous side of the store: the two API calls, the two worker
    sagas that turn their outcome into exactly one success or failure action,
    and the `takeLatest` watchers, modelled sequentially with request tokens. */
module EventsSaga {
  import opened Wrappers
  import opened Text
  import opened EventModel
  import opened EventsSlice

  // ---------------------------------------------------------------------------
  // Abstract HTTP outcomes
  // ---------------------------------------------------------------------------

  /** A thrown value: an `Error` instance with its message, or anything else. */
  datatype Thrown = ErrorThrown(message: string) | OtherThrown

  /** What reading the body produces: the decoded body, or a thrown value.
      `response.json()` throws on a body that is not JSON, and a body that
      parses to `null` throws a TypeError when `data.events` is read. */
  datatype Json<T> = Parsed(value: T) | JsonThrows(thrown: Thrown)

  /** The decoded body of `GET /events`; a missing or null `events` member is `None`. */
  datatype EventsBody = EventsBody(events: Option<seq<Event>>)

  /** What a `fetch` call leads to: a response with its status and body, or a
      rejected promise (network failure). */
  datatype HttpOutcome<T> = Response(status: nat, body: Json<T>) | Rejected(thrown: Thrown)

  /** `response.ok`: the status is in the range 200-299. */
  predicate IsOk(status: nat) {
    200 <= status <= 299
  }

  const HttpErrorPrefix: string := "HTTP error! status: "

  /** The message of the Error thrown for a non-ok response. */
  function HttpErrorMessage(status: nat): string {
    HttpErrorPrefix + Decimal(status)
  }

  /** The status is spelled out in the message and can be read back from it,
      so two different statuses never produce the same message. */
  lemma HttpErrorMessageNamesStatus(status: nat)
    ensures |HttpErrorMessage(status)| > |HttpErrorPrefix|
    ensures HttpErrorMessage(status)[..|HttpErrorPrefix|] == HttpErrorPrefix
    ensures AllDigits(HttpErrorMessage(status)[|HttpErrorPrefix|..])
    ensures ParseDecimal(HttpErrorMessage(status)[|HttpErrorPrefix|..]) == status
  {
    assert HttpErrorMessage(status)[|HttpErrorPrefix|..] == Decimal(status);
    DecimalRoundTrip(status);
  }

  // ---------------------------------------------------------------------------
  // API calls
  // ---------------------------------------------------------------------------

  /** `fetchEventsApi`: the events of an ok response (an absent list reads as
      empty); otherwise the value thrown. */
  function FetchEventsApi(o: HttpOutcome<EventsBody>): (r: Result<seq<Event>, Thrown>)
    ensures r.Success? <==> o.Response? && IsOk(o.status) && o.body.Parsed?
    ensures o.Response? && !IsOk(o.status) ==> r == Failure(ErrorThrown(HttpErrorMessage(o.status)))
    ensures r.Success? && o.body.value.events.None? ==> r.value == []
    ensures r.Success? && o.body.value.events.Some? ==> r.value == o.body.value.events.value
  {
    match o
    case Rejected(t) => Failure(t)
    case Response(status, body) =>
      if !IsOk(status) then Failure(ErrorThrown(HttpErrorMessage(status)))
      else
        match body
        case JsonThrows(t) => Failure(t)
        case Parsed(data) => Success(ValueOr(data.events, []))
  }

  /** `createEventApi`: the decoded event of an ok response, unchanged;
      otherwise the value thrown. The request body is not part of the outcome:
      posting it is the I/O this model abstracts. */
  function CreateEventApi(o: HttpOutcome<Event>): (r: Result<Event, Thrown>)
    ensures r.Success? <==> o.Response? && IsOk(o.status) && o.body.Parsed?
    ensures o.Response? && !IsOk(o.status) ==> r == Failure(ErrorThrown(HttpErrorMessage(o.status)))
    ensures r.Success? ==> r.value == o.body.value
  {
    match o
    case Rejected(t) => Failure(t)
    case Response(status, body) =>
      if !IsOk(status) then Failure(ErrorThrown(HttpErrorMessage(status)))
      else
        match body
        case JsonThrows(t) => Failure(t)
        case Parsed(e) => Success(e)
  }

  // ---------------------------------------------------------------------------
  // Worker sagas
  // ---------------------------------------------------------------------------

  const FetchFallback: string := "Failed to fetch events"
  const CreateFallback: string := "Failed to create event"

  /** `error instanceof Error ? error.message : fallback`. */
  function FailureMessage(t: Thrown, fallback: string): string {
    match t
    case ErrorThrown(m) => m
    case OtherThrown => fallback
  }

  /** `fetchEventsSaga`: the one action it puts once its call settles. */
  function FetchEventsWorker(o: HttpOutcome<EventsBody>): (a: Action)
    ensures a.FetchEventsSuccess? || a.FetchEventsFailure?
    ensures a.FetchEventsSuccess? <==> FetchEventsApi(o).Success?
  {
    match FetchEventsApi(o)
    case Success(evs) => FetchEventsSuccess(evs)
    case Failure(t) => FetchEventsFailure(FailureMessage(t, FetchFallback))
  }

  /** `createEventSaga`: the one action it puts once its call settles. */
  function CreateEventWorker(o: HttpOutcome<Event>): (a: Action)
    ensures a.CreateEventSuccess? || a.CreateEventFailure?
    ensures a.CreateEventSuccess? <==> CreateEventApi(o).Success?
  {
    match CreateEventApi(o)
    case Success(e) => CreateEventSuccess(e)
    case Failure(t) => CreateEventFailure(FailureMessage(t, CreateFallback))
  }

  /** How each kind of outcome reaches the store through the fetch worker:
      the fetched list on success, the HTTP status in the message of a non-ok
      response, the Error's own message when one was thrown, and the fallback
      only for a thrown non-Error. */
  lemma FetchWorkerOutcomes(o: HttpOutcome<EventsBody>)
    ensures o.Response? && IsOk(o.status) && o.body.Parsed? ==>
              FetchEventsWorker(o) == FetchEventsSuccess(ValueOr(o.body.value.events, []))
    ensures o.Response? && !IsOk(o.status) ==>
              FetchEventsWorker(o) == FetchEventsFailure(HttpErrorMessage(o.status))
    ensures o.Rejected? && o.thrown.ErrorThrown? ==>
              FetchEventsWorker(o) == FetchEventsFailure(o.thrown.message)
    ensures o.Response? && IsOk(o.status) && o.body.JsonThrows? ==>
              FetchEventsWorker(o) == FetchEventsFailure(FailureMessage(o.body.thrown, FetchFallback))
    ensures FetchEventsWorker(o) == FetchEventsFailure(FetchFallback) <==>
              (o.Rejected? && o.thrown.OtherThrown?) ||
              (o.Rejected? && o.thrown == ErrorThrown(FetchFallback)) ||
              (o.Response? && IsOk(o.status) && o.body.JsonThrows? &&
               FailureMessage(o.body.thrown, FetchFallback) == FetchFallback)
  {
    if o.Response? && !IsOk(o.status) {
      HttpErrorMessageNamesStatus(o.status);
      assert HttpErrorMessage(o.status)[0] == 'H' != FetchFallback[0];
    }
  }

  /** The same for the create worker. */
  lemma CreateWorkerOutcomes(o: HttpOutcome<Event>)
    ensures o.Response? && IsOk(o.status) && o.body.Parsed? ==>
              CreateEventWorker(o) == CreateEventSuccess(o.body.value)
    ensures o.Response? && !IsOk(o.status) ==>
              CreateEventWorker(o) == CreateEventFailure(HttpErrorMessage(o.status))
    ensures o.Rejected? && o.thrown.ErrorThrown? ==>
              CreateEventWorker(o) == CreateEventFailure(o.thrown.message)
    ensures o.Rejected? && o.thrown.OtherThrown? ==>
              CreateEventWorker(o) == CreateEventFailure(CreateFallback)
    ensures o.Response? && IsOk(o.status) && o.body.JsonThrows? ==>
              CreateEventWorker(o) == CreateEventFailure(FailureMessage(o.body.thrown, CreateFallback))
  {
  }

  /** A create call answered with status 500: the failure action carries
      "HTTP error! status: 500"; the store records the failure and keeps its list. */
  lemma CreateServerErrorReachesStore(s: State, body: Json<Event>)
    ensures CreateEventWorker(Response(500, body)) == CreateEventFailure("HTTP error! status: 500")
    ensures Reduce(s, CreateEventWorker(Response(500, body)))
            == s.(submitStatus := Failed, error := Some("HTTP error! status: 500"))
  {
    assert Decimal(500) == Decimal(50) + ['0'];
    assert Decimal(50) == Decimal(5) + ['0'];
  }

  // ---------------------------------------------------------------------------
  // takeLatest watchers
  // ---------------------------------------------------------------------------

  /** The watchers' bookkeeping: the next fresh token and, per kind, the token
      of the task still allowed to put its result (None when no task is live). */
  datatype Watcher = Watcher(nextToken: nat, fetchTask: Option<nat>, createTask: Option<nat>)

  const InitialWatcher: Watcher := Watcher(0, None, None)

  /** The store together with its watchers. */
  datatype Sys = Sys(store: State, watcher: Watcher)

  const InitialSys: Sys := Sys(InitialState, InitialWatcher)

  /** What can happen next: an action is dispatched, or the call of the task
      holding `token` settles with an outcome. */
  datatype Input =
    | Dispatch(action: Action)
    | FetchSettled(token: nat, fetchOutcome: HttpOutcome<EventsBody>)
    | CreateSettled(token: nat, createOutcome: HttpOutcome<Event>)

  /** `takeLatest`: a request action cancels the live task of its own kind and
      forks a new one under a fresh token; other actions leave the watchers alone. */
  function Watch(w: Watcher, a: Action): (r: Watcher)
    ensures a.FetchEventsRequest? ==>
              r.fetchTask == Some(w.nextToken) && r.createTask == w.createTask
    ensures a.CreateEventRequest? ==>
              r.createTask == Some(w.nextToken) && r.fetchTask == w.fetchTask
    ensures !a.FetchEventsRequest? && !a.CreateEventRequest? ==> r == w
    ensures a.FetchEventsRequest? || a.CreateEventRequest? ==> r.nextToken == w.nextToken + 1
    ensures r.nextToken >= w.nextToken
  {
    match a
    case FetchEventsRequest => w.(nextToken := w.nextToken + 1, fetchTask := Some(w.nextToken))
    case CreateEventRequest(_) => w.(nextToken := w.nextToken + 1, createTask := Some(w.nextToken))
    case _ => w
  }

  /** `put` / `dispatch`: the reducer runs, then the watchers see the action. */
  function Put(sys: Sys, a: Action): Sys {
    Sys(Reduce(sys.store, a), Watch(sys.watcher, a))
  }

  /** One step of the system. A settled call is applied only if its task is
      still the live one of its kind; the task then ends. */
  function Step(sys: Sys, i: Input): (r: Sys)
    ensures i.Dispatch? ==> r.store == Reduce(sys.store, i.action) && r.watcher == Watch(sys.watcher, i.action)
    ensures i.FetchSettled? && sys.watcher.fetchTask != Some(i.token) ==> r == sys
    ensures i.FetchSettled? && sys.watcher.fetchTask == Some(i.token) ==>
              && r.store == Reduce(sys.store, FetchEventsWorker(i.fetchOutcome))
              && r.watcher == sys.watcher.(fetchTask := None)
    ensures i.CreateSettled? && sys.watcher.createTask != Some(i.token) ==> r == sys
    ensures i.CreateSettled? && sys.watcher.createTask == Some(i.token) ==>
              && r.store == Reduce(sys.store, CreateEventWorker(i.createOutcome))
              && r.watcher == sys.watcher.(createTask := None)
  {
    match i
    case Dispatch(a) => Put(sys, a)
    case FetchSettled(t, o) =>
      if sys.watcher.fetchTask == Some(t) then
        Put(sys.(watcher := sys.watcher.(fetchTask := None)), FetchEventsWorker(o))
      else sys
    case CreateSettled(t, o) =>
      if sys.watcher.createTask == Some(t) then
        Put(sys.(watcher := sys.watcher.(createTask := None)), CreateEventWorker(o))
      else sys
  }

  function Run(sys: Sys, inputs: seq<Input>): Sys
    decreases |inputs|
  {
    if inputs == [] then sys else Run(Step(sys, inputs[0]), inputs[1..])
  }

  /** Live tokens were handed out already. */
  predicate Inv(sys: Sys) {
    && (sys.watcher.fetchTask.Some? ==> sys.watcher.fetchTask.value < sys.watcher.nextToken)
    && (sys.watcher.createTask.Some? ==> sys.watcher.createTask.value < sys.watcher.nextToken)
  }

  lemma StepPreservesInv(sys: Sys, i: Input)
    requires Inv(sys)
    ensures Inv(Step(sys, i))
    ensures Step(sys, i).watcher.nextToken >= sys.watcher.nextToken
  {
  }

  /** Token `t` was handed out for a fetch and its task is no longer live. */
  predicate FetchStale(sys: Sys, t: nat) {
    t < sys.watcher.nextToken && sys.watcher.fetchTask != Some(t)
  }

  predicate CreateStale(sys: Sys, t: nat) {
    t < sys.watcher.nextToken && sys.watcher.createTask != Some(t)
  }

  /** A settlement carrying a stale token changes nothing at all. */
  lemma StaleSettlementIgnored(sys: Sys, t: nat, fo: HttpOutcome<EventsBody>, co: HttpOutcome<Event>)
    ensures FetchStale(sys, t) ==> Step(sys, FetchSettled(t, fo)) == sys
    ensures CreateStale(sys, t) ==> Step(sys, CreateSettled(t, co)) == sys
  {
  }

  /** A newer request of the same kind supersedes the live task. */
  lemma NewerRequestSupersedes(sys: Sys, t: nat, req: NewEvent)
    requires Inv(sys)
    ensures sys.watcher.fetchTask == Some(t) ==> FetchStale(Step(sys, Dispatch(FetchEventsRequest)), t)
    ensures sys.watcher.createTask == Some(t) ==> CreateStale(Step(sys, Dispatch(CreateEventRequest(req))), t)
  {
  }

  /** Once stale, a token stays stale whatever happens next: no later step
      ever revives it, so its outcome can never reach the store. */
  lemma {:induction false} StaleForever(sys: Sys, inputs: seq<Input>, t: nat)
    ensures FetchStale(sys, t) ==> FetchStale(Run(sys, inputs), t)
    ensures CreateStale(sys, t) ==> CreateStale(Run(sys, inputs), t)
    decreases |inputs|
  {
    if inputs != [] {
      StaleForever(Step(sys, inputs[0]), inputs[1..], t);
    }
  }

  /** The live task's settlement puts its worker's action, exactly once: the
      store receives that action and the task ends, so settling again is ignored. */
  lemma LiveSettlementAppliedOnce(sys: Sys, t: nat, o: HttpOutcome<EventsBody>, o2: HttpOutcome<EventsBody>)
    requires Inv(sys) && sys.watcher.fetchTask == Some(t)
    ensures Step(sys, FetchSettled(t, o)).store == Reduce(sys.store, FetchEventsWorker(o))
    ensures Step(sys, FetchSettled(t, o)).watcher.createTask == sys.watcher.createTask
    ensures Step(Step(sys, FetchSettled(t, o)), FetchSettled(t, o2)) == Step(sys, FetchSettled(t, o))
  {
  }

  lemma LiveCreateSettlementAppliedOnce(sys: Sys, t: nat, o: HttpOutcome<Event>, o2: HttpOutcome<Event>)
    requires Inv(sys) && sys.watcher.createTask == Some(t)
    ensures Step(sys, CreateSettled(t, o)).store == Reduce(sys.store, CreateEventWorker(o))
    ensures Step(sys, CreateSettled(t, o)).watcher.fetchTask == sys.watcher.fetchTask
    ensures Step(Step(sys, CreateSettled(t, o)), CreateSettled(t, o2)) == Step(sys, CreateSettled(t, o))
  {
  }

  /** Fetch and create are tracked independently: a request of one kind does
      not supersede the live task of the other. */
  lemma KindsIndependent(sys: Sys, req: NewEvent)
    ensures Step(sys, Dispatch(FetchEventsRequest)).watcher.createTask == sys.watcher.createTask
    ensures Step(sys, Dispatch(CreateEventRequest(req))).watcher.fetchTask == sys.watcher.fetchTask
  {
  }

  /** Two fetch requests in a row, then both calls settle, the older first:
      the older outcome is discarded and the list is exactly what the newer
      call returned. */
  lemma LatestFetchWins(o1: HttpOutcome<EventsBody>, evs: seq<Event>)
    ensures
      var inputs := [Dispatch(FetchEventsRequest), Dispatch(FetchEventsRequest),
                     FetchSettled(0, o1), FetchSettled(1, Response(200, Parsed(EventsBody(Some(evs)))))];
      Run(InitialSys, inputs).store == State(evs, false, None, Idle)
  {
    var o2 := Response(200, Parsed(EventsBody(Some(evs))));
    var inputs := [Dispatch(FetchEventsRequest), Dispatch(FetchEventsRequest),
                   FetchSettled(0, o1), FetchSettled(1, o2)];
    var s1 := Step(InitialSys, inputs[0]);
    var s2 := Step(s1, inputs[1]);
    var s3 := Step(s2, inputs[2]);
    assert s3 == s2;
    var s4 := Step(s3, inputs[3]);
    assert s4.store == State(evs, false, None, Idle);
    assert inputs[1..][1..][1..][1..] == [];
    assert Run(InitialSys, inputs) == Run(s1, inputs[1..]);
    assert Run(s1, inputs[1..]) == Run(s2, inputs[1..][1..]);
    assert Run(s2, inputs[1..][1..]) == Run(s3, inputs[1..][1..][1..]);
    assert Run(s3, inputs[1..][1..][1..]) == Run(s4, []);
  }
}
