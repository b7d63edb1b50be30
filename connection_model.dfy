/**
 * The connection record (backend/app/models/connection.py): a directed
 * proposal from `userId` (the initiator) to `connectedUserId` (the target).
 */
module ConnectionModel {
  import opened Wrappers

  /** The four values of `ConnectionStatus`; nothing else is a status. */
  datatype Status = Pending | Accepted | Rejected | Blocked

  /** Width of the `recommendation_message` column. */
  const MessageWidth: nat := 500

  /**
   * A row of the connections table. Both user ids are mandatory; the score,
   * the recommended song and the message are nullable. `createdAt` stands
   * for the server-side creation timestamp as a store clock reading.
   */
  datatype Connection = Connection(
    id: int,
    userId: int,
    connectedUserId: int,
    similarityScore: Option<real>,
    status: Status,
    recommendedSongId: Option<int>,
    recommendationMessage: Option<string>,
    createdAt: nat)

  /** Whether a message fits the `String(500)` column. */
  predicate MessageFits(m: Option<string>)
  {
    m == None || |m.value| <= MessageWidth
  }
}
