/**
 * The frontend message types a Backend can receive, the errors receiving can
 * report, and the per-type `Decode` methods, which are not part of this model.
 */
module Messages {
  import opened Wire
  import opened Results
  import opened Reading

  /** One case per Go message type that has a flyweight field in `Backend`. */
  datatype MessageType =
    | Bind | CancelRequest | Close | CopyData | CopyDone | CopyFail | Describe | Execute | Flush
    | GSSEncRequest | Parse | PasswordMessage | Query | SSLRequest | StartupMessage | Sync | Terminate

  const AllTypes: set<MessageType> := {
    Bind, CancelRequest, Close, CopyData, CopyDone, CopyFail, Describe, Execute, Flush,
    GSSEncRequest, Parse, PasswordMessage, Query, SSLRequest, StartupMessage, Sync, Terminate
  }

  lemma AllTypesComplete(t: MessageType)
    ensures t in AllTypes
  {
  }

  /** Why a Go runtime panic would end the receive (the code does not guard these inputs). */
  datatype Panic =
    | NegativeBodyLength(bodyLen: int)   // `make([]byte, n)` with `n < 0`
    | ShortStartupBody(length: nat)      // `binary.BigEndian.Uint32` on fewer than 4 bytes

  datatype Error =
    | Io(io: IoError)                                                  // passed on from `io.ReadFull`
    | UnknownMessageType(tag: byte)                                    // "unknown message type: %c"
    | UnknownStartupCode(code: uint32)                                 // "unknown startup message code: %d"
    | InvalidMessageLen(messageType: string, expectedLen: nat, actualLen: nat)
    | DecodeError(decoding: MessageType)                              // any other error a type's Decode reports
    | Panicked(reason: Panic)                                          // a runtime panic, not an error return

  /**
   * The `Decode` methods of the message types, which are not part of this
   * model: for each type and body, the error it reports (None for nil).
   */
  type Codec = (MessageType, seq<byte>) -> Option<Error>
}
