/** The client's event store: its state, the ten actions of the `events` slice
    and the reducer that applies them. */
module EventsSlice {
  import opened Wrappers
  import opened EventModel

  /** Lifecycle of the most recent create operation. */
  datatype SubmitStatus = Idle | Loading | Succeeded | Failed

  datatype State = State(
    events: seq<Event>,
    loading: bool,
    error: Option<string>,
    submitStatus: SubmitStatus)

  /** The state the store is created with. */
  const InitialState: State := State([], false, None, Idle)

  /** The slice's action vocabulary, one constructor per reducer. */
  datatype Action =
    | FetchEventsRequest
    | FetchEventsSuccess(events: seq<Event>)
    | FetchEventsFailure(message: string)
    | CreateEventRequest(request: NewEvent)
    | CreateEventSuccess(event: Event)
    | CreateEventFailure(message: string)
    | SetEvents(events: seq<Event>)
    | AddEvent(event: Event)
    | ClearError
    | ResetSubmitStatus

  /** The four fields of the state, for stating which ones an action may write. */
  datatype Field = EventsField | LoadingField | ErrorField | StatusField

  /** `s` and `t` hold the same value in field `f`. */
  predicate Agree(s: State, t: State, f: Field) {
    match f
    case EventsField => s.events == t.events
    case LoadingField => s.loading == t.loading
    case ErrorField => s.error == t.error
    case StatusField => s.submitStatus == t.submitStatus
  }

  /** The fields each action is allowed to write; every other field is left alone. */
  function Writes(a: Action): set<Field> {
    match a
    case FetchEventsRequest => {LoadingField, ErrorField}
    case FetchEventsSuccess(_) => {LoadingField, EventsField, ErrorField}
    case FetchEventsFailure(_) => {LoadingField, ErrorField}
    case CreateEventRequest(_) => {StatusField, ErrorField}
    case CreateEventSuccess(_) => {StatusField, EventsField, ErrorField}
    case CreateEventFailure(_) => {StatusField, ErrorField}
    case SetEvents(_) => {EventsField}
    case AddEvent(_) => {EventsField}
    case ClearError => {ErrorField}
    case ResetSubmitStatus => {StatusField}
  }

  /** The transition table of the store, action by action: what each action
      makes of the fields it writes. Together with `Writes` it pins the next
      state down completely (`TransitionDeterminesState`). */
  predicate Effect(s: State, a: Action, r: State) {
    match a
    case FetchEventsRequest => r.loading && r.error == None
    case FetchEventsSuccess(evs) => !r.loading && r.events == evs && r.error == None
    case FetchEventsFailure(m) => !r.loading && r.error == Some(m)
    case CreateEventRequest(_) => r.submitStatus == Loading && r.error == None
    case CreateEventSuccess(e) =>
      r.submitStatus == Succeeded && r.events == [e] + s.events && r.error == None
    case CreateEventFailure(m) => r.submitStatus == Failed && r.error == Some(m)
    case SetEvents(evs) => r.events == evs
    case AddEvent(e) => r.events == [e] + s.events
    case ClearError => r.error == None
    case ResetSubmitStatus => r.submitStatus == Idle
  }

  /** `r` is a legal successor of `s` under `a`: the action's effect holds and
      no field outside `Writes(a)` moved. */
  predicate Transition(s: State, a: Action, r: State) {
    && Effect(s, a, r)
    && forall f :: f !in Writes(a) ==> Agree(s, r, f)
  }

  /** The reducer. Total: every action has an effect on every state. */
  function Reduce(s: State, a: Action): (r: State)
    ensures Transition(s, a, r)
  {
    match a
    case FetchEventsRequest => s.(loading := true, error := None)
    case FetchEventsSuccess(evs) => s.(loading := false, events := evs, error := None)
    case FetchEventsFailure(m) => s.(loading := false, error := Some(m))
    case CreateEventRequest(_) => s.(submitStatus := Loading, error := None)
    case CreateEventSuccess(e) => s.(submitStatus := Succeeded, events := [e] + s.events, error := None)
    case CreateEventFailure(m) => s.(submitStatus := Failed, error := Some(m))
    case SetEvents(evs) => s.(events := evs)
    case AddEvent(e) => s.(events := [e] + s.events)
    case ClearError => s.(error := None)
    case ResetSubmitStatus => s.(submitStatus := Idle)
  }

  /** The transition table admits exactly one successor state, so the reducer
      is deterministic and `Reduce` is the only function meeting its contract. */
  lemma TransitionDeterminesState(s: State, a: Action, r1: State, r2: State)
    requires Transition(s, a, r1) && Transition(s, a, r2)
    ensures r1 == r2
  {
    assert forall f :: f !in Writes(a) ==> Agree(s, r1, f) && Agree(s, r2, f);
    assert EventsField !in Writes(a) ==> Agree(s, r1, EventsField) && Agree(s, r2, EventsField);
    assert LoadingField !in Writes(a) ==> Agree(s, r1, LoadingField) && Agree(s, r2, LoadingField);
    assert ErrorField !in Writes(a) ==> Agree(s, r1, ErrorField) && Agree(s, r2, ErrorField);
    assert StatusField !in Writes(a) ==> Agree(s, r1, StatusField) && Agree(s, r2, StatusField);
  }

  /** Applies a sequence of actions, first to last. */
  function ReduceAll(s: State, actions: seq<Action>): State
    decreases |actions|
  {
    if actions == [] then s else ReduceAll(Reduce(s, actions[0]), actions[1..])
  }

  /** Dispatching a batch is dispatching its parts one after the other. */
  lemma {:induction false} ReduceAllSplit(s: State, xs: seq<Action>, ys: seq<Action>)
    ensures ReduceAll(s, xs + ys) == ReduceAll(ReduceAll(s, xs), ys)
    decreases |xs|
  {
    if xs == [] {
      assert xs + ys == ys;
    } else {
      assert (xs + ys)[0] == xs[0];
      assert (xs + ys)[1..] == xs[1..] + ys;
      ReduceAllSplit(Reduce(s, xs[0]), xs[1..], ys);
    }
  }

  /** A field that no action of a sequence writes keeps its value through the
      whole sequence. */
  lemma {:induction false} UnwrittenFieldKept(s: State, xs: seq<Action>, f: Field)
    requires forall i | 0 <= i < |xs| :: f !in Writes(xs[i])
    ensures Agree(s, ReduceAll(s, xs), f)
    decreases |xs|
  {
    if xs != [] {
      var s1 := Reduce(s, xs[0]);
      assert f !in Writes(xs[0]);
      UnwrittenFieldKept(s1, xs[1..], f);
    }
  }

  /** The events a single action prepends: one for a create success or an
      `addEvent`, none otherwise. */
  function Prepended(a: Action): seq<Event> {
    if a.CreateEventSuccess? || a.AddEvent? then [a.event] else []
  }

  /** All events prepended by a sequence, newest first. */
  function PrependedAll(xs: seq<Action>): seq<Event>
    decreases |xs|
  {
    if xs == [] then [] else PrependedAll(xs[1..]) + Prepended(xs[0])
  }

  /** An action that replaces the whole list. */
  predicate Replaces(a: Action) {
    a.FetchEventsSuccess? || a.SetEvents?
  }

  /** Without a full replace, the store never removes or rewrites an event:
      the final list is the events created along the way, newest first,
      followed by the original list unchanged. */
  lemma {:induction false} EventsOnlyGrow(s: State, xs: seq<Action>)
    requires forall i | 0 <= i < |xs| :: !Replaces(xs[i])
    ensures ReduceAll(s, xs).events == PrependedAll(xs) + s.events
    decreases |xs|
  {
    if xs != [] {
      var s1 := Reduce(s, xs[0]);
      assert !Replaces(xs[0]);
      assert s1.events == Prepended(xs[0]) + s.events;
      EventsOnlyGrow(s1, xs[1..]);
    }
  }

  /** The last full replace decides the list: after it, only events created
      later are in front of its payload. */
  lemma LastReplaceWins(s: State, xs: seq<Action>, evs: seq<Event>, ys: seq<Action>)
    requires forall i | 0 <= i < |ys| :: !Replaces(ys[i])
    ensures ReduceAll(s, xs + [SetEvents(evs)] + ys).events == PrependedAll(ys) + evs
    ensures ReduceAll(s, xs + [FetchEventsSuccess(evs)] + ys).events == PrependedAll(ys) + evs
  {
    ReduceAllSplit(s, xs + [SetEvents(evs)], ys);
    ReduceAllSplit(s, xs, [SetEvents(evs)]);
    EventsOnlyGrow(ReduceAll(s, xs + [SetEvents(evs)]), ys);
    ReduceAllSplit(s, xs + [FetchEventsSuccess(evs)], ys);
    ReduceAllSplit(s, xs, [FetchEventsSuccess(evs)]);
    EventsOnlyGrow(ReduceAll(s, xs + [FetchEventsSuccess(evs)]), ys);
  }

  /** The actions that only reset a flag are idempotent, and `clearError` and
      `resetSubmitStatus` commute. */
  lemma ResetActionsIdempotent(s: State)
    ensures Reduce(Reduce(s, ClearError), ClearError) == Reduce(s, ClearError)
    ensures Reduce(Reduce(s, ResetSubmitStatus), ResetSubmitStatus) == Reduce(s, ResetSubmitStatus)
    ensures Reduce(Reduce(s, FetchEventsRequest), FetchEventsRequest) == Reduce(s, FetchEventsRequest)
    ensures Reduce(Reduce(s, ClearError), ResetSubmitStatus) == Reduce(Reduce(s, ResetSubmitStatus), ClearError)
  {
  }

  /** A new request clears the error left by a failure of either kind. */
  lemma RequestClearsError(s: State, m: string, req: NewEvent)
    ensures Reduce(Reduce(s, FetchEventsFailure(m)), FetchEventsRequest).error == None
    ensures Reduce(Reduce(s, CreateEventFailure(m)), CreateEventRequest(req)).error == None
    ensures Reduce(Reduce(s, CreateEventFailure(m)), FetchEventsRequest).submitStatus == Failed
  {
  }

  /** A fetch round trip from the initial state: the request raises `loading`,
      the success lowers it and installs exactly the fetched list. */
  lemma FetchRoundTrip(evs: seq<Event>)
    ensures Reduce(InitialState, FetchEventsRequest).loading
    ensures ReduceAll(InitialState, [FetchEventsRequest, FetchEventsSuccess(evs)])
            == State(evs, false, None, Idle)
  {
    var xs := [FetchEventsRequest, FetchEventsSuccess(evs)];
    var s1 := Reduce(InitialState, FetchEventsRequest);
    assert xs[1..] == [FetchEventsSuccess(evs)] && xs[1..][1..] == [];
    assert ReduceAll(s1, xs[1..]) == ReduceAll(Reduce(s1, FetchEventsSuccess(evs)), []);
  }

  /** A create round trip on an empty list: the request sets status `loading`,
      the success sets `succeeded` and the list becomes the one stored event. */
  lemma CreateRoundTrip(req: NewEvent, e: Event)
    ensures Reduce(InitialState, CreateEventRequest(req)).submitStatus == Loading
    ensures ReduceAll(InitialState, [CreateEventRequest(req), CreateEventSuccess(e)])
            == State([e], false, None, Succeeded)
  {
    var xs := [CreateEventRequest(req), CreateEventSuccess(e)];
    var s1 := Reduce(InitialState, CreateEventRequest(req));
    assert xs[1..] == [CreateEventSuccess(e)] && xs[1..][1..] == [];
    assert ReduceAll(s1, xs[1..]) == ReduceAll(Reduce(s1, CreateEventSuccess(e)), []);
  }
}
