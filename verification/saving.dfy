/** What the completion timer of a spin does: it takes the winning prize
    from the catalogue, tries to save a participant row, and reports the
    prize to the application 500 ms later whatever the save did. The
    backend is a parameter describing how the insert behaves; the clock
    and the browser's user-agent string are parameters too. */
module EntrySaving {
  import opened Wrappers
  import opened Domain
  import opened PrizeCatalog

  /** How the database client behaves for this one save. */
  datatype Backend =
    | Disconnected                  // no client: the environment lacked its settings
    | Accepts                       // the insert succeeds
    | Rejects(message: string)      // the insert returns an error value
    | Throws(message: string)       // the insert raises

  /** The console line the save leaves behind. */
  datatype SaveLog = NotConnectedWarning | SavedInfo | SaveError(message: string)

  /** The result of one save: the row handed to the insert (none when
      there is no client), whether it was stored, and the log line. */
  datatype SaveReport = SaveReport(attempted: Option<ParticipantEntry>, stored: bool, log: SaveLog)

  /** The row `saveParticipantEntry` builds: the user's fields, and the
      prize's name and id. */
  function BuildEntry(user: UserData, prize: Prize, timestamp: string, userAgent: string): (e: ParticipantEntry)
    ensures e.firstName == user.firstName && e.lastName == user.lastName
    ensures e.email == user.email && e.phone == user.phone
    ensures e.marketingOptIn == user.marketingOptIn
    ensures e.prizeWon == prize.name && e.prizeId == prize.id
  {
    ParticipantEntry(user.firstName, user.lastName, user.email, user.phone,
      user.marketingOptIn, prize.name, prize.id, timestamp, userAgent)
  }

  /** `saveParticipantEntry`: never fails, only logs. */
  function Save(backend: Backend, user: UserData, prize: Prize, timestamp: string, userAgent: string): (rep: SaveReport)
    ensures rep.stored <==> backend.Accepts?
    ensures rep.attempted.None? <==> backend.Disconnected?
    ensures rep.attempted.Some? ==> rep.attempted.value == BuildEntry(user, prize, timestamp, userAgent)
    ensures backend.Disconnected? ==> rep.log == NotConnectedWarning
    ensures backend.Accepts? ==> rep.log == SavedInfo
    ensures (backend.Rejects? || backend.Throws?) ==> rep.log == SaveError(backend.message)
  {
    match backend
    case Disconnected => SaveReport(None, false, NotConnectedWarning)
    case Accepts => SaveReport(Some(BuildEntry(user, prize, timestamp, userAgent)), true, SavedInfo)
    case Rejects(msg) => SaveReport(Some(BuildEntry(user, prize, timestamp, userAgent)), false, SaveError(msg))
    case Throws(msg) => SaveReport(Some(BuildEntry(user, prize, timestamp, userAgent)), false, SaveError(msg))
  }

  /** Delay between the end of the save and the call to `onPrizeWon`. */
  const ReportDelay: nat := 500

  /** Everything the completion timer produces for winner index `w`. */
  datatype Completion = Completion(save: SaveReport, reported: Prize, reportDelay: nat)

  function Complete(w: nat, user: UserData, backend: Backend, timestamp: string, userAgent: string): (c: Completion)
    requires w < |Prizes|
    ensures c.reported == Prizes[w] && c.reportDelay == ReportDelay
    ensures c.save.attempted.Some? ==>
      c.save.attempted.value.prizeId == w + 1 && c.save.attempted.value.prizeWon == Prizes[w].name
  {
    CatalogueIds();
    var prize := Prizes[w];
    Completion(Save(backend, user, prize, timestamp, userAgent), prize, ReportDelay)
  }

  /** The save never changes what is reported: a missing client or a
      failed insert reports the same prize, after the same delay, as a
      successful one. */
  lemma ReportIndependentOfBackend(w: nat, user: UserData, b1: Backend, b2: Backend, ts: string, ua: string)
    requires w < |Prizes|
    ensures Complete(w, user, b1, ts, ua).reported == Complete(w, user, b2, ts, ua).reported
    ensures Complete(w, user, b1, ts, ua).reportDelay == Complete(w, user, b2, ts, ua).reportDelay
  {
  }
}
