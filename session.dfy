/**
 * A session of the application: the store starts in its initial record and
 * every user action replaces the record through one of the handlers of the
 * pages. Every record reachable this way satisfies the store invariant and
 * holds only non-empty strings, so the welcome screen is shown exactly when
 * no characters are loaded.
 */
module Session {
  import opened JsText
  import opened HanziStore
  import opened PresetData
  import opened CustomRoute
  import opened PresetsRoute
  import opened IndexRoute

  /** The user actions that change the store. */
  datatype Event =
    | ChoosePreset(presetId: JsString)
    | SubmitCustom(input: JsString)
    | ClickPrevious
    | ClickNext
    | ClickReturnHome
    | ChooseMode(mode: Mode)

  /** The record after one action. The navigation buttons make the same
      update as the store's own `Retreat` and `Advance`. */
  function Step(s: HanziState, e: Event): (r: HanziState)
    ensures r.isLoading == s.isLoading
    ensures Invariant(s) ==> Invariant(r)
  {
    match e
    case ChoosePreset(id) => SelectPreset(s, id)
    case SubmitCustom(input) => Submit(s, input)
    case ClickPrevious => Retreat(s)
    case ClickNext => Advance(s)
    case ClickReturnHome => ReturnHome(s)
    case ChooseMode(m) => WithMode(s, m)
  }

  /** The record after a sequence of actions, taken in order. */
  function Run(s: HanziState, events: seq<Event>): (r: HanziState)
    decreases |events|
  {
    if events == [] then s else Run(Step(s, events[0]), events[1..])
  }

  predicate SessionInvariant(s: HanziState)
  {
    Invariant(s) && NonEmptyEntries(s.characters)
  }

  lemma StepPreservesInvariant(s: HanziState, e: Event)
    requires SessionInvariant(s)
    ensures SessionInvariant(Step(s, e))
  {
    match e
    case ChoosePreset(id) =>
      PresetsWellFormed();
    case SubmitCustom(input) =>
    case ClickPrevious =>
    case ClickNext =>
    case ClickReturnHome =>
    case ChooseMode(m) =>
  }

  lemma {:induction false} RunPreservesInvariant(s: HanziState, events: seq<Event>)
    requires SessionInvariant(s)
    ensures SessionInvariant(Run(s, events))
    decreases |events|
  {
    if events != [] {
      StepPreservesInvariant(s, events[0]);
      RunPreservesInvariant(Step(s, events[0]), events[1..]);
    }
  }

  /** Every record reachable from the initial one satisfies the store
      invariant, and there the welcome screen is shown exactly when the
      list is empty. */
  lemma ReachableStates(events: seq<Event>)
    ensures Invariant(Run(Initial, events))
    ensures ShowsWelcome(Run(Initial, events)) <==> Run(Initial, events).characters == []
  {
    RunPreservesInvariant(Initial, events);
    WelcomeIffEmpty(Run(Initial, events));
  }
}
