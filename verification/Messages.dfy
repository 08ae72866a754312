/** The message kinds that travel between processors (commons/message.py). */
module Messages {

  newtype byte = b: int | 0 <= b < 256

  /** A log record found for a searched id: was its output already sent? */
  datatype ProcessedMessage = ProcessedMessage(id: nat, sent: bool)

  datatype Message =
    | Protocol(clientId: nat, messageId: nat, payload: seq<byte>)
    | ProtocolResult(clientId: nat, tagId: nat, messageId: nat, payload: seq<byte>)
    | Eof(clientId: nat, messagesSent: int, possibleDuplicates: seq<nat>)
    | EofDiscovery(clientId: nat,
                   originalMessagesSent: int, originalPossibleDuplicates: seq<nat>,
                   messagesReceived: int, messagesSent: int,
                   possibleDuplicates: seq<nat>, replicaIdSeen: seq<nat>)
    | EofAggregation(clientId: nat,
                     originalMessagesSent: int, originalPossibleDuplicates: seq<nat>,
                     messagesReceived: int, messagesSent: int,
                     possibleDuplicates: seq<nat>, replicaIdSeen: seq<nat>,
                     processedBy: seq<ProcessedMessage>)
    | EofFinish(clientId: nat, replicaIdSeen: seq<nat>)
    | EofResult(clientId: nat, tagId: nat, messagesSent: int)
}
