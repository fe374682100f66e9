/** The application's screen flow (`App`): four state fields, four
    handlers and the two render guards that decide whether the slot
    machine and the results modal are on screen. */
module ScreenFlow {
  import opened Wrappers
  import opened Domain

  datatype AppState = AppState(
    showEntryForm: bool,
    userData: Option<UserData>,
    wonPrize: Option<Prize>,
    showResults: bool)

  /** The state on load: the form is up, nothing else is known. */
  const Initial: AppState := AppState(true, None, None, false)

  /** `handleEntrySubmit`: stores the user and hides the form. */
  function EntrySubmit(s: AppState, data: UserData): (s': AppState)
    ensures s'.userData == Some(data) && !s'.showEntryForm
    ensures s'.wonPrize == s.wonPrize && s'.showResults == s.showResults
  {
    s.(userData := Some(data), showEntryForm := false)
  }

  /** `handlePrizeWon`: stores the prize and opens the results. */
  function PrizeWon(s: AppState, prize: Prize): (s': AppState)
    ensures s'.wonPrize == Some(prize) && s'.showResults
    ensures s'.showEntryForm == s.showEntryForm && s'.userData == s.userData
  {
    s.(wonPrize := Some(prize), showResults := true)
  }

  /** `handleCloseResults`: closes the results and forgets the prize. */
  function CloseResults(s: AppState): (s': AppState)
    ensures !s'.showResults && s'.wonPrize == None
    ensures s'.showEntryForm == s.showEntryForm && s'.userData == s.userData
  {
    s.(showResults := false, wonPrize := None)
  }

  /** `handleRestart`: back to the state on load. */
  function Restart(s: AppState): (s': AppState)
    ensures s' == Initial
  {
    AppState(true, None, None, false)
  }

  /** Render guard of the slot machine. */
  predicate ShowsSlotMachine(s: AppState) {
    !s.showEntryForm && s.userData.Some?
  }

  /** Render guard of the entry form. */
  predicate ShowsEntryForm(s: AppState) {
    s.showEntryForm
  }

  /** Render guard of the results modal. */
  predicate ShowsResults(s: AppState) {
    s.showResults && s.wonPrize.Some?
  }

  /** Anything that can happen to the application: the form submits, a
      spin reports its prize, the modal is closed, or "Start Over" is
      pressed. A prize report can come at any time, since the slot
      machine's timers are not cancelled when the application restarts. */
  datatype Action = Submit(data: UserData) | Won(prize: Prize) | Close | StartOver

  function Step(s: AppState, a: Action): AppState {
    match a
    case Submit(data) => EntrySubmit(s, data)
    case Won(prize) => PrizeWon(s, prize)
    case Close => CloseResults(s)
    case StartOver => Restart(s)
  }

  function Replay(s: AppState, actions: seq<Action>): AppState {
    if actions == [] then s else Step(Replay(s, actions[..|actions| - 1]), actions[|actions| - 1])
  }

  /** The results flag and the stored prize go together. */
  predicate Consistent(s: AppState) {
    s.showResults <==> s.wonPrize.Some?
  }

  /** Every state reachable from the initial one is consistent, so the
      results modal is on screen exactly when `showResults` is set. */
  lemma {:induction false} ReachableConsistent(actions: seq<Action>)
    ensures Consistent(Replay(Initial, actions))
    ensures ShowsResults(Replay(Initial, actions)) <==> Replay(Initial, actions).showResults
  {
    if actions != [] {
      ReachableConsistent(actions[..|actions| - 1]);
    }
  }

  /** After a restart only the entry form is on screen, and a second
      restart changes nothing. */
  lemma RestartClearsScreen(s: AppState)
    ensures ShowsEntryForm(Restart(s))
    ensures !ShowsSlotMachine(Restart(s)) && !ShowsResults(Restart(s))
    ensures Restart(Restart(s)) == Restart(s)
  {
  }

  /** The entry form and the slot machine are never on screen together. */
  lemma FormAndMachineExclusive(s: AppState)
    ensures !(ShowsEntryForm(s) && ShowsSlotMachine(s))
    ensures ShowsSlotMachine(s) <==> !ShowsEntryForm(s) && s.userData.Some?
  {
  }

  /** A report arriving after "Start Over" opens the results modal over
      the entry form, with no user stored. */
  lemma LateReportAfterRestart(data: UserData, prize: Prize)
    ensures var s := Replay(Initial, [Submit(data), StartOver, Won(prize)]);
      ShowsEntryForm(s) && ShowsResults(s) && s.userData == None
  {
  }
}
