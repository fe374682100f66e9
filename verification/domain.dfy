/** The records shared by the widget's components: the identity data the
    entry form collects, a prize of the static catalogue, and the
    participant row the backend stores. */
module Domain {

  /** The identity fields collected by the entry form (`UserData`). */
  datatype UserData = UserData(
    firstName: string,
    lastName: string,
    email: string,
    phone: string,
    marketingOptIn: bool)

  /** One outcome of the prize catalogue. */
  datatype Prize = Prize(
    id: nat,
    name: string,
    description: string,
    color: string,
    textColor: string)

  /** A participant row as stored by the backend and read back by the
      dashboard (the optional `id` and `ip_address` columns are not used
      by the modelled code). */
  datatype ParticipantEntry = ParticipantEntry(
    firstName: string,
    lastName: string,
    email: string,
    phone: string,
    marketingOptIn: bool,
    prizeWon: string,
    prizeId: nat,
    entryTimestamp: string,
    userAgent: string)
}
