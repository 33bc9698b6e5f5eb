/** Values the distributed layer passes around without looking inside them. */
module Identities {

  /** A cluster node (ONodeIdentity). */
  datatype NodeId = NodeId(name: string)

  /** The client-session operation a submission belongs to (OSessionOperationId). */
  datatype SessionOperationId = SessionOperationId(token: string)

  /**
   * The message-type constants of OCoordinateMessagesFactory that the modelled
   * messages return; only their identity matters, not their numeric values.
   */
  datatype MessageType = SyncSubmitRequest | DatabaseLastOplogIdResponse
}
