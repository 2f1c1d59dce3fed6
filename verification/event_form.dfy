/** The create form: its draft, the ordered validation chain of `handleSubmit`,
    the reset-on-success effect and the submitting flag. */
module EventForm {
  import opened Wrappers
  import opened Text
  import opened EventModel
  import EventsSlice

  /** The form state. Every field may be null; numbers are already parsed
      (`parseFloat` / `parseInt` of the input text). */
  datatype Draft = Draft(
    eventType: Option<EventType>,
    description: Option<string>,
    budget: Option<real>,
    numberOfPersons: Option<int>,
    date: Option<string>)

  /** The state the form starts in and is reset to. */
  const EmptyDraft: Draft := Draft(None, Some(""), None, None, Some(""))

  /** The outcome of one submit: the request action is dispatched, an alert
      rejects the draft, or evaluation throws (nothing is dispatched either way
      but the first). */
  datatype SubmitOutcome =
    | Dispatched(request: NewEvent)
    | Rejected(message: string)
    | Threw

  /** The five checks, in the order `handleSubmit` runs them. */
  datatype Check = TypeCheck | DescriptionCheck | BudgetCheck | PersonsCheck | DateCheck

  const CheckOrder: seq<Check> := [TypeCheck, DescriptionCheck, BudgetCheck, PersonsCheck, DateCheck]

  /** The alert each check raises when it fails. */
  function CheckMessage(c: Check): string {
    match c
    case TypeCheck => "Event type is required"
    case DescriptionCheck => "Description is required"
    case BudgetCheck => "Please enter a valid budget"
    case PersonsCheck => "Please enter a valid number of persons (at least 1)"
    case DateCheck => "Date is required"
  }

  /** The verdict of a single check on a draft. */
  datatype Verdict = Pass | Fail | Crash

  /** Each check on its own: a missing type, a blank description, a missing or
      negative budget, a missing or sub-1 head count, a missing or empty date
      fail; calling `trim` on a null description throws. */
  function Judge(c: Check, d: Draft): Verdict {
    match c
    case TypeCheck => if d.eventType.None? then Fail else Pass
    case DescriptionCheck =>
      if d.description.None? then Crash
      else if Blank(d.description.value) then Fail else Pass
    case BudgetCheck => if d.budget.None? || d.budget.value < 0.0 then Fail else Pass
    case PersonsCheck =>
      if d.numberOfPersons.None? || d.numberOfPersons.value < 1 then Fail else Pass
    case DateCheck => if d.date.None? || d.date.value == "" then Fail else Pass
  }

  /** A draft every check passes. */
  predicate Valid(d: Draft) {
    && Judge(TypeCheck, d) == Pass
    && Judge(DescriptionCheck, d) == Pass
    && Judge(BudgetCheck, d) == Pass
    && Judge(PersonsCheck, d) == Pass
    && Judge(DateCheck, d) == Pass
  }

  /** `Valid` lists every check. */
  lemma ValidIffEveryCheckPasses(d: Draft)
    ensures Valid(d) <==> forall c :: Judge(c, d) == Pass
  {
    if Valid(d) {
      forall c ensures Judge(c, d) == Pass {
        match c
        case TypeCheck =>
        case DescriptionCheck =>
        case BudgetCheck =>
        case PersonsCheck =>
        case DateCheck =>
      }
    }
  }

  /** The request a valid draft is sent as: its fields unchanged (the
      description is not trimmed) and an empty payload. */
  function RequestOf(d: Draft): NewEvent
    requires Valid(d)
  {
    NewEvent(TypeName(d.eventType.value), d.description.value, d.budget.value,
             d.numberOfPersons.value, d.date.value, EmptyPayload)
  }

  /** The reference reading of an ordered chain: the first check that does not
      pass decides (an alert with its message, or a throw); when all pass,
      `allPass` is the outcome. */
  function RunChecks(checks: seq<Check>, d: Draft, allPass: SubmitOutcome): SubmitOutcome
    decreases |checks|
  {
    if checks == [] then allPass
    else
      match Judge(checks[0], d)
      case Pass => RunChecks(checks[1..], d, allPass)
      case Fail => Rejected(CheckMessage(checks[0]))
      case Crash => Threw
  }

  /** `handleSubmit`, as the evidently intended code: the five guards in
      source order, then the dispatch of the request with an empty payload. */
  function HandleSubmit(d: Draft): (o: SubmitOutcome)
    ensures o.Dispatched? <==> Valid(d)
    ensures o.Dispatched? ==> o.request == RequestOf(d)
    ensures d.eventType.None? ==> o == Rejected("Event type is required")
  {
    if d.eventType.None? then Rejected("Event type is required")
    else if d.description.None? then Threw
    else if Blank(d.description.value) then Rejected("Description is required")
    else if d.budget.None? || d.budget.value < 0.0 then Rejected("Please enter a valid budget")
    else if d.numberOfPersons.None? || d.numberOfPersons.value < 1 then
      Rejected("Please enter a valid number of persons (at least 1)")
    else if d.date.None? || d.date.value == "" then Rejected("Date is required")
    else Dispatched(RequestOf(d))
  }

  /** `handleSubmit` runs exactly the chain type, description, budget,
      persons, date: the first failing check alone decides the outcome. */
  lemma HandleSubmitIsOrderedChain(d: Draft)
    ensures HandleSubmit(d) == RunChecks(CheckOrder, d, if Valid(d) then Dispatched(RequestOf(d)) else Threw)
  {
    var ks := CheckOrder;
    assert ks[1..] == [DescriptionCheck, BudgetCheck, PersonsCheck, DateCheck];
    assert ks[1..][1..] == [BudgetCheck, PersonsCheck, DateCheck];
    assert ks[1..][1..][1..] == [PersonsCheck, DateCheck];
    assert ks[1..][1..][1..][1..] == [DateCheck];
    assert ks[1..][1..][1..][1..][1..] == [];
  }

  /** A draft is rejected with a check's message exactly when that check fails
      and every check before it passes; a later failure never overrides an
      earlier one. */
  lemma {:induction false} RejectionNamesFirstFailure(checks: seq<Check>, d: Draft, allPass: SubmitOutcome, m: string)
    requires !allPass.Rejected?
    ensures RunChecks(checks, d, allPass) == Rejected(m) <==>
            exists i | 0 <= i < |checks| ::
              && Judge(checks[i], d) == Fail
              && CheckMessage(checks[i]) == m
              && forall j | 0 <= j < i :: Judge(checks[j], d) == Pass
    decreases |checks|
  {
    if checks != [] {
      RejectionNamesFirstFailure(checks[1..], d, allPass, m);
      var v := Judge(checks[0], d);
      if v == Pass {
        if RunChecks(checks, d, allPass) == Rejected(m) {
          var i :| 0 <= i < |checks[1..]| && Judge(checks[1..][i], d) == Fail
                   && CheckMessage(checks[1..][i]) == m
                   && forall j | 0 <= j < i :: Judge(checks[1..][j], d) == Pass;
          assert forall j | 0 <= j < i + 1 :: Judge(checks[j], d) == Pass by {
            forall j | 0 <= j < i + 1 ensures Judge(checks[j], d) == Pass {
              if j > 0 {
                assert checks[j] == checks[1..][j - 1];
              }
            }
          }
          assert checks[i + 1] == checks[1..][i];
        }
        if exists i | 0 <= i < |checks| :: Judge(checks[i], d) == Fail && CheckMessage(checks[i]) == m
              && forall j | 0 <= j < i :: Judge(checks[j], d) == Pass {
          var i :| 0 <= i < |checks| && Judge(checks[i], d) == Fail && CheckMessage(checks[i]) == m
                   && forall j | 0 <= j < i :: Judge(checks[j], d) == Pass;
          assert i > 0;
          assert checks[1..][i - 1] == checks[i];
          assert forall j | 0 <= j < i - 1 :: Judge(checks[1..][j], d) == Pass by {
            forall j | 0 <= j < i - 1 ensures Judge(checks[1..][j], d) == Pass {
              assert checks[1..][j] == checks[j + 1];
            }
          }
        }
      } else {
        if exists i | 0 <= i < |checks| :: Judge(checks[i], d) == Fail && CheckMessage(checks[i]) == m
              && forall j | 0 <= j < i :: Judge(checks[j], d) == Pass {
          var i :| 0 <= i < |checks| && Judge(checks[i], d) == Fail && CheckMessage(checks[i]) == m
                   && forall j | 0 <= j < i :: Judge(checks[j], d) == Pass;
        }
      }
    }
  }

  /** Each check's rejection on its own terms: with every earlier check
      passing, the draft is rejected with that check's message exactly when
      the check fails. A budget of 0 is accepted. */
  lemma RejectionByCheck(d: Draft)
    ensures d.eventType.None? <==> HandleSubmit(d) == Rejected("Event type is required")
    ensures d.eventType.Some? && d.description.Some? && Blank(d.description.value) ==>
              HandleSubmit(d) == Rejected("Description is required")
    ensures d.eventType.Some? && d.description.Some? && !Blank(d.description.value) &&
            (d.budget.None? || d.budget.value < 0.0) ==>
              HandleSubmit(d) == Rejected("Please enter a valid budget")
    ensures d.eventType.Some? && d.description.Some? && !Blank(d.description.value) &&
            d.budget.Some? && d.budget.value >= 0.0 &&
            (d.numberOfPersons.None? || d.numberOfPersons.value < 1) ==>
              HandleSubmit(d) == Rejected("Please enter a valid number of persons (at least 1)")
    ensures Valid(d.(date := Some(""))) == false
    ensures Valid(d) ==> Valid(d.(budget := Some(0.0)))
    ensures d.eventType.Some? && d.description.Some? && !Blank(d.description.value) &&
            d.budget.Some? && d.budget.value >= 0.0 &&
            d.numberOfPersons.Some? && d.numberOfPersons.value >= 1 &&
            (d.date.None? || d.date.value == "") ==>
              HandleSubmit(d) == Rejected("Date is required")
  {
    assert Judge(DateCheck, d.(date := Some(""))) == Fail;
  }

  /** The description is blank for the check exactly when `trim` leaves nothing,
      and a description with surrounding spaces is sent with them. */
  lemma DescriptionSentUntrimmed(d: Draft)
    requires Valid(d)
    ensures Trim(d.description.value) != []
    ensures HandleSubmit(d).request.description == d.description.value
    ensures ParseType(HandleSubmit(d).request.eventType) == d.eventType
  {
    assert Judge(DescriptionCheck, d) == Pass;
    TrimEmptyIffBlank(d.description.value);
    TypeNameRoundTrip(d.eventType.value);
  }

  /** `handleSubmit` as written: the dispatch reads `parsedPayload`, which is
      never declared, so once every check passes evaluation throws a
      ReferenceError before anything is dispatched. */
  function HandleSubmitAsWritten(d: Draft): (o: SubmitOutcome)
    ensures !o.Dispatched?
    ensures !Valid(d) ==> o == HandleSubmit(d)
  {
    match RunChecks(CheckOrder, d, Threw)
    case Rejected(m) => Rejected(m)
    case _ => HandleSubmitIsOrderedChain(d); Threw
  }

  /** A concrete witness of the discrepancy: a fully valid draft is dispatched
      by the intended code and never by the code as written. */
  lemma AsWrittenNeverDispatchesValidDraft()
    ensures var d := Draft(Some(Birthday), Some("Party"), Some(100.0), Some(5), Some("2024-06-01"));
            && Valid(d)
            && HandleSubmit(d) == Dispatched(NewEvent("Birthday", "Party", 100.0, 5, "2024-06-01", EmptyPayload))
            && HandleSubmitAsWritten(d) == Threw
  {
    var d := Draft(Some(Birthday), Some("Party"), Some(100.0), Some(5), Some("2024-06-01"));
    assert d.description.value[0] == 'P' && !IsSpace('P');
  }

  // ---------------------------------------------------------------------------
  // Reaction to the store's submit status
  // ---------------------------------------------------------------------------

  /** What the form does when `submitStatus` changes: the draft it keeps and
      whether it schedules a `resetSubmitStatus` (after a delay). */
  datatype StatusReaction = StatusReaction(draft: Draft, schedulesReset: bool)

  /** The effect on `submitStatus`: on success the form is cleared and a status
      reset is scheduled; any other status leaves the form alone. */
  function OnSubmitStatus(d: Draft, status: EventsSlice.SubmitStatus): (r: StatusReaction)
    ensures r.schedulesReset <==> status == EventsSlice.Succeeded
    ensures r.schedulesReset ==> r.draft == EmptyDraft
    ensures !r.schedulesReset ==> r.draft == d
  {
    if status == EventsSlice.Succeeded then StatusReaction(EmptyDraft, true)
    else StatusReaction(d, false)
  }

  /** After a successful submit the form cannot be re-sent as it stands: the
      reset draft is rejected by the first check. */
  lemma ResetDraftIsRejected(d: Draft)
    ensures HandleSubmit(OnSubmitStatus(d, EventsSlice.Succeeded).draft) == Rejected("Event type is required")
  {
  }

  /** `isSubmitting`. */
  function IsSubmitting(status: EventsSlice.SubmitStatus): bool {
    status == EventsSlice.Loading
  }

  /** The submit button's `disabled`: submitting, or a JSON error shown. */
  function SubmitDisabled(status: EventsSlice.SubmitStatus, jsonError: string): bool {
    IsSubmitting(status) || jsonError != ""
  }

  /** `jsonError` keeps its initial "" (nothing ever sets it), so the submit
      control is disabled exactly while a create request is in flight, which
      is exactly from a create request until its success or failure. */
  lemma SubmitDisabledWhileLoading(s: EventsSlice.State, req: NewEvent, e: Event, m: string)
    ensures SubmitDisabled(s.submitStatus, "") <==> s.submitStatus == EventsSlice.Loading
    ensures SubmitDisabled(EventsSlice.Reduce(s, EventsSlice.CreateEventRequest(req)).submitStatus, "")
    ensures !SubmitDisabled(EventsSlice.Reduce(s, EventsSlice.CreateEventSuccess(e)).submitStatus, "")
    ensures !SubmitDisabled(EventsSlice.Reduce(s, EventsSlice.CreateEventFailure(m)).submitStatus, "")
  {
  }
}
