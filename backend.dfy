/**
 * The receive side of `Backend`: the framer fields that persist between
 * calls, the per-type flyweight fields that decoding overwrites in place, and
 * the two receive operations.
 */
module Backend {
  import opened Wire
  import opened Results
  import opened Reading
  import opened Messages
  import opened Dispatch
  import opened Framing

  class Backend {
    const r: Reader
    const codec: Codec

    /**
     * The frontend message flyweights, one field per message type, embedded
     * in the Backend. Each field's decoded contents are represented by the
     * bytes they were last decoded from. A received message is a reference
     * to one of these fields, given here by its message type: what it shows
     * is `flyweights[t]`, which the next decode of the same type overwrites.
     */
    var flyweights: map<MessageType, seq<byte>>

    var bodyLen: int
    var msgType: byte
    var partialMsg: bool

    /** There is a flyweight field for every message type. */
    ghost predicate Valid()
      reads this
    {
      forall t: MessageType :: t in flyweights
    }

    function State(): FramerState
      reads this
    {
      FramerState(partialMsg, msgType, bodyLen)
    }

    /** `NewBackend`: no header pending, every flyweight at its zero value. */
    constructor (r: Reader, codec: Codec)
      ensures Valid() && this.r == r && this.codec == codec && State() == Idle
      ensures forall t: MessageType :: flyweights[t] == []
    {
      this.r := r;
      this.codec := codec;
      flyweights := map t | t in AllTypes :: [];
      bodyLen, msgType, partialMsg := 0, 0, false;
      new;
      forall t: MessageType ensures t in flyweights {
        AllTypesComplete(t);
      }
    }

    /** `b.<field>.Decode(src)` on the flyweight field of type `t`: overwrites it in place. */
    method Decode(t: MessageType, src: seq<byte>) returns (err: Option<Error>)
      requires Valid()
      modifies this`flyweights
      ensures Valid() && flyweights == old(flyweights)[t := src]
      ensures err == codec(t, src)
    {
      flyweights := flyweights[t := src];
      err := codec(t, src);
    }

    /**
     * Receives one message. The framer step is `ReceiveFrame`; a known tag
     * returns a reference to its flyweight, overwritten with the body,
     * together with the error its Decode reports (even when there is one);
     * an unknown tag returns no message and decodes nothing.
     */
    method Receive() returns (msg: Option<MessageType>, err: Option<Error>)
      requires Valid()
      modifies this, r
      ensures Valid()
      ensures var step := ReceiveFrame(old(State()), old(r.stream));
              State() == step.state && r.stream == step.stream && r.requests == old(r.requests) + step.requested
      ensures var step := ReceiveFrame(old(State()), old(r.stream));
              match step.result
              case Err(e) => msg == None && err == Some(e) && flyweights == old(flyweights)
              case Ok(frame) =>
                match FrontendMessageType(frame.tag)
                case None => msg == None && err == Some(UnknownMessageType(frame.tag)) && flyweights == old(flyweights)
                case Some(t) =>
                  msg == Some(t) && flyweights == old(flyweights)[t := frame.body] && err == codec(t, frame.body)
    {
      if !partialMsg {
        var header := r.ReadFull(5);
        if header.Err? {
          return None, Some(Io(header.error));
        }
        msgType := header.value[0];
        bodyLen := DeclaredBodyLen(header.value);
        partialMsg := true;
      }

      if bodyLen < 0 {
        return None, Some(Panicked(NegativeBodyLength(bodyLen)));
      }
      var body := r.ReadFull(bodyLen);
      if body.Err? {
        return None, Some(Io(body.error));
      }

      partialMsg := false;

      var t := FrontendMessageType(msgType);
      if t.None? {
        return None, Some(UnknownMessageType(msgType));
      }
      msg := t;
      err := Decode(t.value, body.value);
    }

    /**
     * Receives the untagged first message of a connection and routes it by
     * its code. A message is returned only when its Decode succeeds, though
     * the flyweight is overwritten either way. The framer fields are neither
     * read nor written.
     */
    method ReceiveStartupMessage() returns (msg: Option<MessageType>, err: Option<Error>)
      requires Valid()
      modifies this`flyweights, r
      ensures Valid() && State() == old(State())
      ensures var step := ReceiveStartupFrame(old(r.stream));
              r.stream == step.stream && r.requests == old(r.requests) + step.requested
      ensures var step := ReceiveStartupFrame(old(r.stream));
              match step.result
              case Err(e) => msg == None && err == Some(e) && flyweights == old(flyweights)
              case Ok(frame) =>
                match StartupMessageType(frame.code)
                case None => msg == None && err == Some(UnknownStartupCode(frame.code)) && flyweights == old(flyweights)
                case Some(t) =>
                  // GSSEncRequest is decoded from the 4-byte length header, the others from the body.
                  var input := if t == GSSEncRequest then frame.header else frame.body;
                  flyweights == old(flyweights)[t := input] &&
                  (if codec(t, input).Some? then msg == None && err == codec(t, input)
                   else msg == Some(t) && err == None)
      ensures msg.Some? ==> StartupCodeOf(msg.value).Some? && err == None
    {
      var buf := r.ReadFull(4);
      if buf.Err? {
        return None, Some(Io(buf.error));
      }

      var msgSize := StartupBodyLen(buf.value);

      var msgBody := r.ReadFull(msgSize);
      if msgBody.Err? {
        return None, Some(Io(msgBody.error));
      }

      if |msgBody.value| < 4 {
        return None, Some(Panicked(ShortStartupBody(|msgBody.value|)));
      }
      var code := BE32(msgBody.value);

      var t := StartupMessageType(code);
      if t.None? {
        return None, Some(UnknownStartupCode(code));
      }
      var e;
      if t.value == GSSEncRequest {
        e := Decode(t.value, buf.value);
      } else {
        e := Decode(t.value, msgBody.value);
      }
      if e.Some? {
        return None, e;
      }
      return t, None;
    }
  }

  /**
   * A first message written as a length, a startup code and the rest of the
   * body is read back with that code, which routes to the message type it belongs to.
   */
  lemma StartupRoundTrip(t: MessageType, rest: seq<byte>)
    requires StartupCodeOf(t).Some? && |rest| + 8 < 0x1_0000_0000
    ensures var code := StartupCodeOf(t).value;
            var step := ReceiveStartupFrame(Stream(PutBE32((|rest| + 8) as uint32) + PutBE32(code) + rest, []));
            step.result.Ok? && step.result.value.code == code &&
            step.result.value.body == PutBE32(code) + rest &&
            StartupMessageType(step.result.value.code) == Some(t)
  {
    var code := StartupCodeOf(t).value;
    var header := PutBE32((|rest| + 8) as uint32);
    var body := PutBE32(code) + rest;
    var input := header + body;
    assert PutBE32((|rest| + 8) as uint32) + PutBE32(code) + rest == input;
    assert input[..4] == header && input[4..] == body;
    DecodeEncodeBE32((|rest| + 8) as uint32);
    assert StartupBodyLen(header) == |body|;
    assert body[..|body|] == body;
    DecodeEncodeBE32(code);
    assert BE32(body) == BE32(PutBE32(code));
    StartupTableComplete(t);
  }

  /** The query `SELECT 1` framed with tag 'Q' and length 13 is read as one frame that selects Query. */
  lemma SimpleQueryScenario()
    ensures var body := [Ascii('S'), Ascii('E'), Ascii('L'), Ascii('E'), Ascii('C'), Ascii('T'), Ascii(' '), Ascii('1'), 0];
            var step := ReceiveFrame(Idle, Stream([Ascii('Q'), 0, 0, 0, 13] + body, []));
            step.result == Ok(Frame(Ascii('Q'), body)) && FrontendMessageType(step.result.value.tag) == Some(Query)
  {
    var body: seq<byte> := [Ascii('S'), Ascii('E'), Ascii('L'), Ascii('E'), Ascii('C'), Ascii('T'), Ascii(' '), Ascii('1'), 0];
    assert [Ascii('Q'), 0, 0, 0, 13] == FrameHeader(Ascii('Q'), |body|);
    FrameRoundTrip(Ascii('Q'), body, []);
    assert FrameHeader(Ascii('Q'), |body|) + body + [] == [Ascii('Q'), 0, 0, 0, 13] + body;
  }
}
