/** One visit end to end: a valid form is submitted, the lever is pulled
    with random number `r`, every timer fires, the save runs against any
    backend, and the reported prize is handed to the application. */
module Widget {
  import opened Wrappers
  import opened Domain
  import opened PrizeCatalog
  import opened WeightedDraw
  import ReelSequencer
  import EntrySaving
  import EntryForm
  import ScreenFlow

  /** The application after one full visit, or `None` when the form was
      refused. */
  function Visit(form: UserData, r: real, backend: EntrySaving.Backend, ts: string, ua: string): (s: Option<ScreenFlow.AppState>)
    ensures s.Some? <==> EntryForm.Acceptable(form)
    ensures s.Some? ==>
      && ScreenFlow.ShowsSlotMachine(s.value)
      && ScreenFlow.ShowsResults(s.value)
      && s.value.userData == Some(form)
      && s.value.wonPrize == Some(Prizes[DrawPrize(r)])
      && s.value.wonPrize.value.id == DrawPrize(r) + 1
  {
    CatalogueIds();
    var sub := EntryForm.HandleSubmit(EntryForm.FormState(form, map[]));
    match sub.submitted
    case None => None
    case Some(user) =>
      var app := ScreenFlow.EntrySubmit(ScreenFlow.Initial, user);
      var spun := ReelSequencer.Spin(ReelSequencer.Initial, r);
      var done := EntrySaving.Complete(spun.winner.value, user, backend, ts, ua);
      Some(ScreenFlow.PrizeWon(app, done.reported))
  }

  /** The reels of that visit end on the reported prize with the glow on,
      whatever the backend did. */
  lemma VisitReels(r: real, t: nat)
    requires t >= ReelSequencer.CompletionDelay
    ensures var spun := ReelSequencer.Spin(ReelSequencer.Initial, r);
      var w := DrawPrize(r);
      && spun.winner == Some(w)
      && ReelSequencer.StateAt(spun, t).reels == [w, w, w]
      && ReelSequencer.Glowing(ReelSequencer.StateAt(spun, t))
  {
    ReelSequencer.SpinTimeline(ReelSequencer.Initial, r, t);
  }
}
