# Event planner: store, sagas, form, listing and server

This project models the core of a small event-planning application and proves
properties of that model in Dafny. The client is a React application. A Redux
slice (`eventsSlice`) holds the events, a loading flag, an error message and a
submit status. Two sagas call the server: `fetchEventsSaga` and
`createEventSaga`, each started by `takeLatest`. The event form
(`EventForm`) validates a draft before it dispatches a create request, and it
resets itself after a successful submit. The listing page (`EventListPage`)
filters the events by type and date, and it lists the distinct event types in
sorted order. The server is written in Go. It answers `POST /events` and
`GET /events` (`handler.go`) behind a CORS middleware, and it reads its
database settings from the environment (`main.go`).

Modules:

- `Wrappers`: `Option` and `Result`.
- `Text`: the JavaScript string operations the client relies on: `trim`,
  ASCII `toLowerCase`, `includes`, decimal rendering of a status code, and
  code-point ordering for `sort`.
- `EventModel`: the event types, events and create requests.
- `EventsSlice`: the reducer, stated as a transition table and a frame rule.
- `EventsSaga`: the API calls, the worker sagas and `takeLatest`.
  `takeLatest` is modelled with request tokens. Each request forks a task
  under a fresh token. A settlement whose task is no longer live is ignored.
- `EventForm`: the validation chain of `handleSubmit`, the reaction to the
  submit status, and the submit button's `disabled`.
- `EventListPage`: `filteredEvents`, `eventTypes` and `handleClearFilters`.
- `Handler`: `CreateEvent` and `GetEvents`. The JSON decoding, the payload
  marshalling and the storage service are given as their outcomes.
- `Server`: `corsMiddleware`, `getEnv` and the connection string.
- `ClientServer`: the server's replies, as the client's fetch calls see them.

Inputs that come from I/O are parameters of the model:

- the HTTP outcome of each `fetch` (a status and a body that parses or
  throws, or a rejected promise);
- the decoded request body and the marshalled payload on the server;
- the storage service's result;
- the request headers and method;
- the environment.

Facts from the code that shape the model:

- Event ids are a `number` in the client's interface
  (`frontend/src/store/eventsSlice.ts:5`) and a UUID `string` in the server
  (`backend/repository/repository.go:12`). The model treats them as opaque
  values.
- `setEvents` and `addEvent` are two of the slice's ten reducers
  (`frontend/src/store/eventsSlice.ts:78-83`). Both are modelled.
- The form's empty-object payload survives only as the commented-out
  `payload: "{}"` (`frontend/src/components/EventForm.tsx:16` and `:109`).
  The dispatch at `:95` reads an undeclared `parsedPayload` instead (see
  Findings).

## Model

| member | source | states |
|---|---|---|
| Text.TrimStart | frontend/src/components/EventForm.tsx:58 | leading whitespace removal: the result is a suffix of the input, everything removed is JavaScript whitespace, and the result does not start with whitespace |
| Text.TrimEnd | frontend/src/components/EventForm.tsx:58 | trailing whitespace removal: the result is a prefix of the input, everything removed is whitespace, and the result does not end with whitespace |
| Text.TrimEmptyIffBlank | frontend/src/pages/EventListPage.tsx:35 | `trim()` is empty exactly when every character of the string is whitespace, which is the condition under which the type filter is off |
| Text.Lower | frontend/src/pages/EventListPage.tsx:37 | lower-casing keeps the length and maps each character on its own, ASCII capitals to small letters |
| Text.LowerIdempotent | frontend/src/pages/EventListPage.tsx:37 | lower-casing twice is lower-casing once |
| Text.IncludesIffOccurs | frontend/src/pages/EventListPage.tsx:37 | the scanning `includes` is true exactly when the needle occurs at some position of the haystack |
| Text.Decimal | frontend/src/store/sagas/eventsSaga.ts:19 | a status renders as a non-empty string of digits with no leading zero |
| Text.DecimalRoundTrip | frontend/src/store/sagas/eventsSaga.ts:19 | parsing the rendered digits gives back the number |
| Text.DecimalInjective | frontend/src/store/sagas/eventsSaga.ts:19 | different numbers render differently |
| Text.BelowIrreflexive | frontend/src/pages/EventListPage.tsx:52 | the string order used by `sort` is irreflexive |
| Text.BelowTransitive | frontend/src/pages/EventListPage.tsx:52 | the sort order is transitive |
| Text.BelowTotal | frontend/src/pages/EventListPage.tsx:52 | any two different strings are ordered one way or the other |
| Text.BelowAsymmetric | frontend/src/pages/EventListPage.tsx:52 | two strings are never each below the other |
| EventModel.ParseType | frontend/src/store/eventsSlice.ts:15-26 | reading a type name gives the member whose name it is, and nothing for other strings |
| EventModel.TypeNameRoundTrip | frontend/src/store/eventsSlice.ts:15-26 | every type's name reads back as that type; the ten names are distinct and non-empty |
| EventModel.PlaceholderIsNoType | frontend/src/components/EventForm.tsx:52 | the empty select value names no event type |
| EventsSlice.Reduce | frontend/src/store/eventsSlice.ts:43-90 | each of the ten actions sets exactly the fields in its row of the transition table and leaves every other field unchanged |
| EventsSlice.TransitionDeterminesState | frontend/src/store/eventsSlice.ts:43-90 | the transition table admits one successor state only, so the reducer is deterministic |
| EventsSlice.ReduceAllSplit | frontend/src/store/eventsSlice.ts:43-90 | reducing a concatenation of action sequences is reducing one sequence and then the other |
| EventsSlice.UnwrittenFieldKept | frontend/src/store/eventsSlice.ts:43-90 | a field that no action of a sequence writes keeps its value through the whole sequence |
| EventsSlice.EventsOnlyGrow | frontend/src/store/eventsSlice.ts:67-83 | without `fetchEventsSuccess` or `setEvents`, the list is the created or added events, newest first, in front of the original list |
| EventsSlice.LastReplaceWins | frontend/src/store/eventsSlice.ts:52-56 | after the last full replace, the list is its payload with only later created events in front |
| EventsSlice.ResetActionsIdempotent | frontend/src/store/eventsSlice.ts:48-89 | `clearError`, `resetSubmitStatus` and `fetchEventsRequest` are idempotent, and `clearError` and `resetSubmitStatus` commute |
| EventsSlice.RequestClearsError | frontend/src/store/eventsSlice.ts:48-66 | a new request of either kind, whatever the create request carries, clears the error a failure left, and a fetch request leaves the submit status alone |
| EventsSlice.FetchRoundTrip | frontend/src/store/eventsSlice.ts:48-56 | from the initial state, request then success yields `loading` false, no error and exactly the fetched list |
| EventsSlice.CreateRoundTrip | frontend/src/store/eventsSlice.ts:63-71 | from the initial state, request then success yields status `succeeded` and the one stored event |
| EventsSaga.HttpErrorMessageNamesStatus | frontend/src/store/sagas/eventsSaga.ts:18-20 | the non-ok error message is the fixed prefix followed by the status digits, and the status reads back from it |
| EventsSaga.FetchEventsApi | frontend/src/store/sagas/eventsSaga.ts:16-23 | success exactly on an ok status with a parsed body; a missing list reads as empty; a non-ok status throws "HTTP error! status: N" |
| EventsSaga.CreateEventApi | frontend/src/store/sagas/eventsSaga.ts:25-47 | success exactly on an ok status with a parsed body, returning the decoded event unchanged; a non-ok status throws the HTTP error |
| EventsSaga.FetchEventsWorker | frontend/src/store/sagas/eventsSaga.ts:50-59 | puts exactly one of success or failure, and success exactly when the API call succeeds |
| EventsSaga.CreateEventWorker | frontend/src/store/sagas/eventsSaga.ts:61-79 | puts exactly one of success or failure, and success exactly when the API call succeeds |
| EventsSaga.FetchWorkerOutcomes | frontend/src/store/sagas/eventsSaga.ts:50-59 | the failure message is an Error's own message; the fallback text appears exactly when a non-Error was thrown or the message happens to equal it |
| EventsSaga.CreateWorkerOutcomes | frontend/src/store/sagas/eventsSaga.ts:61-79 | the create worker's action for each kind of outcome, with the fallback for a thrown non-Error |
| EventsSaga.CreateServerErrorReachesStore | frontend/src/store/sagas/eventsSaga.ts:41-43 | a 500 answer reaches the store as "HTTP error! status: 500", status `failed` and the list unchanged |
| EventsSaga.Watch | frontend/src/store/sagas/eventsSaga.ts:82-85 | a request action makes a fresh task, under a token never handed out before, the live one of its kind and leaves the other kind's task alone; other actions change nothing |
| EventsSaga.Step | frontend/src/store/sagas/eventsSaga.ts:50-85 | a dispatch runs the reducer and then the watchers; a settlement of a task that is no longer live changes nothing; the live task's settlement puts its worker's action into the store and ends the task |
| EventsSaga.StepPreservesInv | frontend/src/store/sagas/eventsSaga.ts:82-85 | live tokens are always tokens already handed out, and the token counter never decreases |
| EventsSaga.StaleSettlementIgnored | frontend/src/store/sagas/eventsSaga.ts:83-84 | the settlement of a cancelled task changes neither the store nor the watchers |
| EventsSaga.NewerRequestSupersedes | frontend/src/store/sagas/eventsSaga.ts:83-84 | a newer request of the same kind makes the previously live task stale |
| EventsSaga.StaleForever | frontend/src/store/sagas/eventsSaga.ts:83-84 | once stale, a task stays stale whatever happens next |
| EventsSaga.LiveSettlementAppliedOnce | frontend/src/store/sagas/eventsSaga.ts:50-59 | the live fetch task's result reaches the store once, through its worker's action, and the task then ends |
| EventsSaga.LiveCreateSettlementAppliedOnce | frontend/src/store/sagas/eventsSaga.ts:61-79 | the same for the live create task |
| EventsSaga.KindsIndependent | frontend/src/store/sagas/eventsSaga.ts:83-84 | a fetch request does not cancel a live create task, and a create request does not cancel a live fetch task |
| EventsSaga.LatestFetchWins | frontend/src/store/sagas/eventsSaga.ts:83 | with two fetches in flight, the older settling first is discarded and the store shows exactly the newer result |
| EventForm.ValidIffEveryCheckPasses | frontend/src/components/EventForm.tsx:51-85 | a draft is valid exactly when each of the five checks passes on it |
| EventForm.HandleSubmit | frontend/src/components/EventForm.tsx:48-98 | dispatches exactly when the draft is valid, with the draft's fields as the request; a draft without a type is rejected with "Event type is required" |
| EventForm.HandleSubmitIsOrderedChain | frontend/src/components/EventForm.tsx:51-85 | the submit outcome is the chain of checks type, description, budget, persons, date, in that order |
| EventForm.RejectionNamesFirstFailure | frontend/src/components/EventForm.tsx:51-85 | the chain rejects with a message exactly when some check with that message fails and every earlier check passes |
| EventForm.RejectionByCheck | frontend/src/components/EventForm.tsx:51-85 | each alert text, under the conditions of its check; a budget of 0 is accepted and an empty date is not |
| EventForm.DescriptionSentUntrimmed | frontend/src/components/EventForm.tsx:58-94 | a valid description trims to something non-empty, yet it is sent untrimmed, and the type name sent reads back as the selected type |
| EventForm.HandleSubmitAsWritten | frontend/src/components/EventForm.tsx:88-97 | the code as written never dispatches, and it agrees with the intended code on every invalid draft |
| EventForm.AsWrittenNeverDispatchesValidDraft | frontend/src/components/EventForm.tsx:95 | a concrete valid draft is dispatched by the intended code and throws in the code as written |
| EventForm.OnSubmitStatus | frontend/src/components/EventForm.tsx:101-116 | on `succeeded` the form is cleared and a status reset is scheduled; any other status leaves the form alone |
| EventForm.ResetDraftIsRejected | frontend/src/components/EventForm.tsx:101-110 | the cleared form is rejected by the first check, so it cannot be re-sent as it stands |
| EventForm.SubmitDisabledWhileLoading | frontend/src/components/EventForm.tsx:118 | the submit button is disabled exactly while the status is `loading`: from a create request until its success or failure |
| EventListPage.Keep | frontend/src/pages/EventListPage.tsx:36-43 | `filter` keeps every occurrence of each element satisfying the predicate and no occurrence of any other, and never lengthens the list |
| EventListPage.SubsequenceDropFirst | frontend/src/pages/EventListPage.tsx:36-43 | dropping the first element of a subsequence leaves a subsequence |
| EventListPage.SubsequenceExtend | frontend/src/pages/EventListPage.tsx:36-43 | a subsequence stays one when the larger list gains an element in front |
| EventListPage.KeepIsSubsequence | frontend/src/pages/EventListPage.tsx:36-43 | filtering keeps the original relative order |
| EventListPage.KeepTwice | frontend/src/pages/EventListPage.tsx:36-43 | filtering twice is filtering once by the conjunction |
| EventListPage.KeepAll | frontend/src/pages/EventListPage.tsx:32-46 | filtering by a predicate every element satisfies changes nothing |
| EventListPage.FilteredEvents | frontend/src/pages/EventListPage.tsx:31-47 | an event is shown exactly when it passes every active filter, as often as it occurs in the list; the shown events keep their order; with both filters blank every event is shown |
| EventListPage.FiltersCompose | frontend/src/pages/EventListPage.tsx:31-47 | the two filter passes equal a single pass with the combined condition |
| EventListPage.BlankTypeQueryIgnored | frontend/src/pages/EventListPage.tsx:35 | any whitespace-only type query gives the listing of the empty query, whatever the date filter, and the whole list when no date is set |
| EventListPage.TypeQueryUntrimmed | frontend/src/pages/EventListPage.tsx:35-37 | the query is trimmed only to decide whether to filter: "wed" matches a Wedding and " wed" does not |
| EventListPage.LeadingSpaceNeverMatches | frontend/src/pages/EventListPage.tsx:37 | a needle that starts with a space is never found in a haystack without spaces, so a query with a leading space matches no space-free type name |
| EventListPage.ClearFilters | frontend/src/pages/EventListPage.tsx:25-28 | clearing leaves both filters inactive |
| EventListPage.ClearedFiltersShowAll | frontend/src/pages/EventListPage.tsx:25-47 | after clearing, the listing is the whole list |
| EventListPage.Insert | frontend/src/pages/EventListPage.tsx:51-52 | inserting into a set listing adds exactly the new element |
| EventListPage.InsertKeepsSorted | frontend/src/pages/EventListPage.tsx:51-52 | inserting keeps the listing strictly sorted |
| EventListPage.EventTypes | frontend/src/pages/EventListPage.tsx:50-53 | the type listing is strictly sorted and holds exactly the types that occur among the events |
| EventListPage.SortedListingUnique | frontend/src/pages/EventListPage.tsx:51-52 | two strictly sorted listings with the same elements are equal |
| EventListPage.EventTypesIgnoresOrder | frontend/src/pages/EventListPage.tsx:50-53 | lists with the same set of types give the same type listing, whatever their events' order, repetitions or other fields |
| Handler.CreateEvent | backend/handler/handler.go:41-78 | the service is called exactly when the body decodes, the three strings are non-empty and the payload marshals; 400 otherwise; 201 exactly when the service stores the event, with the stored event as the body |
| Handler.RejectedBeforeService | backend/handler/handler.go:43-58 | the 400 messages for an undecodable body, for missing fields and for a payload that does not marshal, and a rejected request's reply does not depend on the service |
| Handler.StoreFailureIs500 | backend/handler/handler.go:70-73 | a storage failure is answered with 500 "Failed to create event" |
| Handler.NumbersNotValidated | backend/handler/handler.go:49 | budget and head count never change the status, whatever their sign |
| Handler.CreatedEchoesRequest | backend/handler/handler.go:61-77 | the created event carries every request field except the payload unchanged (the payload is stored in its marshalled form), plus the id and timestamp the service assigned |
| Handler.GetEvents | backend/handler/handler.go:80-95 | 200 exactly when listing succeeds, with the events wrapped and a nil slice as an empty list; 500 "Failed to fetch events" otherwise |
| Handler.NilListIsEmptyList | backend/handler/handler.go:87-89 | a nil slice and an empty slice give the same reply |
| Server.CorsMiddleware | backend/main.go:69-95 | the origin is echoed exactly when it is one of the two allowed ones; the three fixed headers are always set and nothing else is; OPTIONS is answered 204 and anything else is forwarded |
| Server.GetEnv | backend/main.go:97-102 | a set, non-empty variable wins; unset or empty gives the default |
| Server.GetEnvNonEmpty | backend/main.go:97-102 | with a non-empty default the value is never empty, and it is either the default or the variable |
| Server.ConnStringDefaults | backend/main.go:19-28 | with nothing set the connection string uses the documented defaults, and setting `DB_HOST` changes only the host |
| ClientServer.ListingReachesStore | frontend/src/store/sagas/eventsSaga.ts:16-23 | a server listing error reaches the store as "HTTP error! status: 500"; a listing reaches it as exactly the stored events |
| ClientServer.CreationReachesStore | frontend/src/store/sagas/eventsSaga.ts:25-47 | a 201 prepends an event carrying the posted fields; any other status records the failure and keeps the list |
| ClientServer.FormRequestsPassServerCheck | backend/handler/handler.go:49 | every request the form dispatches passes the server's required-field check |

## Left out

- Network, JSON and storage: `fetch`, `response.json()`, `json.NewDecoder`, `json.Marshal`, the repository and the SQL are not modelled. Their outcomes are inputs to the model.
- The request that `createEventApi` posts is not part of its outcome. `ClientServer.RequestBodyOf` gives the server's view of it.
- The health-check route, route registration, `main`'s database connection, schema set-up and logging are not modelled. They are wiring and I/O.
- redux-saga's cancellation and scheduling are not modelled. `takeLatest` is modelled only as which task may still put its result.
- The three-second timer that dispatches `resetSubmitStatus` after a success is not modelled as a clock. It appears only as a `schedulesReset` flag.
- The form's change handlers (`parseFloat`, `parseInt`, `NaN`) are not modelled. A draft holds the already parsed values, and a value that does not parse is absent.
- The JSX rendering, the status banners and the presentation components are not modelled.
- The browser's own form validation is not modelled. The `required`, `min` and `step` attributes (`frontend/src/components/EventForm.tsx:152-238`) can block a submit before `handleSubmit` runs, for example for a budget of 0.005 that `handleSubmit` itself accepts. The model covers `handleSubmit` alone.
- Text.Lower: folds ASCII capitals only, because full Unicode case mapping is outside the model.
- Text.BelowTotal: the order compares code points, whereas JavaScript's default `sort` compares UTF-16 code units. The two differ only for characters beyond the Basic Multilingual Plane.
- Handler.CreateEvent: the budget is a real rather than a float64, and the head count is an unbounded integer rather than Go's `int`. The JSON decoder rejects overflowing numbers as an undecodable body.
- Server.CorsMiddleware: header names are compared exactly. Go's canonicalisation of header keys is not modelled.
- A draft whose description is `null` makes `trim` throw. It is modelled as the `Threw` outcome.

## Findings

| source | as written | input that shows it | evidently intended | confidence | as-written member | corrected member |
|---|---|---|---|---|---|---|
| frontend/src/components/EventForm.tsx:95 | the create request's `payload` is `parsedPayload`, a name declared nowhere in the component, so evaluating it throws a ReferenceError once every check passes | type Birthday, description "Party", budget 100, 5 persons, date "2024-06-01" | dispatch `createEventRequest` with the empty payload `{}` | not executed | EventForm.HandleSubmitAsWritten, EventForm.AsWrittenNeverDispatchesValidDraft | EventForm.HandleSubmit |
