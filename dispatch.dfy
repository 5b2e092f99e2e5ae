/**
 * The two closed tables of the Backend: message-type tag to message type
 * (`Receive`) and startup code to startup message type (`ReceiveStartupMessage`).
 */
module Dispatch {
  import opened Wire
  import opened Results
  import opened Messages

  /** The tags `Receive` knows, one per frontend message type. */
  const FrontendTags: set<byte> := {
    Ascii('B'), Ascii('C'), Ascii('c'), Ascii('D'), Ascii('d'), Ascii('E'), Ascii('f'),
    Ascii('H'), Ascii('P'), Ascii('p'), Ascii('Q'), Ascii('S'), Ascii('X')
  }

  /**
   * The tag each frontend message type is framed with (section 55.7 of the
   * PostgreSQL 16 documentation); None for the four startup-phase types,
   * which have no tag.
   */
  function TagOf(t: MessageType): (tag: Option<byte>)
  {
    match t
    case Bind => Some(Ascii('B'))
    case Close => Some(Ascii('C'))
    case CopyDone => Some(Ascii('c'))
    case Describe => Some(Ascii('D'))
    case CopyData => Some(Ascii('d'))
    case Execute => Some(Ascii('E'))
    case CopyFail => Some(Ascii('f'))
    case Flush => Some(Ascii('H'))
    case Parse => Some(Ascii('P'))
    case PasswordMessage => Some(Ascii('p'))
    case Query => Some(Ascii('Q'))
    case Sync => Some(Ascii('S'))
    case Terminate => Some(Ascii('X'))
    case StartupMessage | SSLRequest | CancelRequest | GSSEncRequest => None
  }

  /** The `switch b.msgType` of `Receive`: which flyweight a tag selects, if any. */
  function FrontendMessageType(tag: byte): (t: Option<MessageType>)
    ensures t.Some? <==> tag in FrontendTags
    ensures t.Some? ==> TagOf(t.value) == Some(tag)
  {
    if tag == Ascii('B') then Some(Bind)
    else if tag == Ascii('C') then Some(Close)
    else if tag == Ascii('c') then Some(CopyDone)
    else if tag == Ascii('D') then Some(Describe)
    else if tag == Ascii('d') then Some(CopyData)
    else if tag == Ascii('E') then Some(Execute)
    else if tag == Ascii('f') then Some(CopyFail)
    else if tag == Ascii('H') then Some(Flush)
    else if tag == Ascii('P') then Some(Parse)
    else if tag == Ascii('p') then Some(PasswordMessage)
    else if tag == Ascii('Q') then Some(Query)
    else if tag == Ascii('S') then Some(Sync)
    else if tag == Ascii('X') then Some(Terminate)
    else None
  }

  /** Every type that has a tag is selected by that tag, so the table misses no frontend type. */
  lemma TagTableComplete(t: MessageType)
    requires TagOf(t).Some?
    ensures FrontendMessageType(TagOf(t).value) == Some(t)
  {
  }

  /** Distinct known tags select distinct message types. */
  lemma TagTableInjective(tag1: byte, tag2: byte)
    requires FrontendMessageType(tag1).Some? && tag1 != tag2
    ensures FrontendMessageType(tag1) != FrontendMessageType(tag2)
  {
  }

  // The startup codes, defined with these values in files that are not part of this model.
  const ProtocolVersionNumber: uint32 := 196608   // protocol 3.0
  const sslRequestNumber: uint32 := 80877103
  const cancelRequestCode: uint32 := 80877102
  const gssEncReqNumber: uint32 := 80877104

  const StartupCodes: set<uint32> := {ProtocolVersionNumber, sslRequestNumber, cancelRequestCode, gssEncReqNumber}

  /** The code each startup-phase message type carries; None for the tagged types. */
  function StartupCodeOf(t: MessageType): (code: Option<uint32>)
  {
    match t
    case StartupMessage => Some(ProtocolVersionNumber)
    case SSLRequest => Some(sslRequestNumber)
    case CancelRequest => Some(cancelRequestCode)
    case GSSEncRequest => Some(gssEncReqNumber)
    case _ => None
  }

  /** The `switch code` of `ReceiveStartupMessage`: which flyweight a startup code selects, if any. */
  function StartupMessageType(code: uint32): (t: Option<MessageType>)
    ensures t.Some? <==> code in StartupCodes
    ensures t.Some? ==> StartupCodeOf(t.value) == Some(code)
  {
    if code == ProtocolVersionNumber then Some(StartupMessage)
    else if code == sslRequestNumber then Some(SSLRequest)
    else if code == cancelRequestCode then Some(CancelRequest)
    else if code == gssEncReqNumber then Some(GSSEncRequest)
    else None
  }

  /** Every startup type is selected by its code. */
  lemma StartupTableComplete(t: MessageType)
    requires StartupCodeOf(t).Some?
    ensures StartupMessageType(StartupCodeOf(t).value) == Some(t)
  {
  }

  /** No type is reachable both by a tag and by a startup code. */
  lemma TablesDisjoint(tag: byte, code: uint32)
    ensures FrontendMessageType(tag).Some? && StartupMessageType(code).Some? ==>
              FrontendMessageType(tag) != StartupMessageType(code)
  {
  }
}
