/**
 * The framing half of the Backend as pure functions: what one call of
 * `Receive` does to the framer state and the reader before dispatch, and
 * what `ReceiveStartupMessage` reads before it classifies the code.
 */
module Framing {
  import opened Wire
  import opened Results
  import opened Reading
  import opened Messages

  /** The fields `partialMsg`, `msgType` and `bodyLen` of a Backend, which persist between calls. */
  datatype FramerState = FramerState(partialMsg: bool, msgType: byte, bodyLen: int)

  /** Go's zero value: no header pending. */
  const Idle := FramerState(false, 0, 0)

  /** A tag and the body read for it. */
  datatype Frame = Frame(tag: byte, body: seq<byte>)

  /** The effect of one receive: new framer state, reader state, the sizes passed to `ReadFull`, and the outcome. */
  datatype FrameStep = FrameStep(state: FramerState, stream: Stream, requested: seq<nat>, result: Result<Frame, Error>)

  /** The body length a 5-byte header declares: its length field counts itself, not the tag. */
  function DeclaredBodyLen(header: seq<byte>): (n: int)
    requires |header| == 5
  {
    BE32(header[1..]) as int - 4
  }

  /** The 5-byte header a frontend writes for a body of `bodyLen` bytes. */
  function FrameHeader(tag: byte, bodyLen: nat): (h: seq<byte>)
    requires bodyLen + 4 < 0x1_0000_0000
    ensures |h| == 5 && h[0] == tag
  {
    [tag] + PutBE32((bodyLen + 4) as uint32)
  }

  /** Reading a header back yields the tag and body length it was written with. */
  lemma FrameHeaderParses(tag: byte, bodyLen: nat)
    requires bodyLen + 4 < 0x1_0000_0000
    ensures DeclaredBodyLen(FrameHeader(tag, bodyLen)) == bodyLen
  {
    DecodeEncodeBE32((bodyLen + 4) as uint32);
    assert FrameHeader(tag, bodyLen)[1..] == PutBE32((bodyLen + 4) as uint32);
  }

  /** The body step of `Receive`, entered with a header pending. */
  function ReceiveBody(f: FramerState, s: Stream, requested: seq<nat>): (r: FrameStep)
    requires f.partialMsg
  {
    if f.bodyLen < 0 then FrameStep(f, s, requested, Err(Panicked(NegativeBodyLength(f.bodyLen))))
    else
      var body := FullRead(s, f.bodyLen);
      match body.data
      case Err(e) => FrameStep(f, body.after, requested + [f.bodyLen], Err(Io(e)))
      case Ok(b) => FrameStep(f.(partialMsg := false), body.after, requested + [f.bodyLen], Ok(Frame(f.msgType, b)))
  }

  /**
   * One call of `Receive` up to the dispatch: read a 5-byte header unless
   * one is pending, then read the body it declares.
   */
  function ReceiveFrame(f: FramerState, s: Stream): (r: FrameStep)
    // With no header pending, the first request is for the 5-byte header.
    ensures !f.partialMsg ==> r.requested != [] && r.requested[0] == 5
    // A failed header read reports the reader's error and changes no framer field.
    ensures !f.partialMsg && FullRead(s, 5).data.Err? ==>
              r.state == f && r.requested == [5] && r.result == Err(Io(FullRead(s, 5).data.error)) &&
              r.stream == FullRead(s, 5).after
    // With a header just read, the requests are the header and then the body it declares (none if negative).
    ensures !f.partialMsg && FullRead(s, 5).data.Ok? ==>
              r.requested == [5] + (if r.state.bodyLen < 0 then [] else [r.state.bodyLen])
    // A header that was read is recorded: its tag, and its length field less 4.
    ensures !f.partialMsg && FullRead(s, 5).data.Ok? ==>
              r.state.msgType == FullRead(s, 5).data.value[0] &&
              r.state.bodyLen == DeclaredBodyLen(FullRead(s, 5).data.value)
    // With a header pending, no header is read: the request is for the stored body length alone.
    ensures f.partialMsg ==>
              r.state.msgType == f.msgType && r.state.bodyLen == f.bodyLen &&
              r.requested == (if f.bodyLen < 0 then [] else [f.bodyLen])
    // A body that was read has exactly the recorded length and clears the pending flag.
    ensures r.result.Ok? ==>
              !r.state.partialMsg && r.result.value.tag == r.state.msgType &&
              |r.result.value.body| == r.state.bodyLen
    // Any failure after the header keeps the header pending, so the next call retries the same body.
    ensures r.result.Err? && (f.partialMsg || FullRead(s, 5).data.Ok?) ==> r.state.partialMsg
    // The body read decides the outcome: its error, or a frame of the recorded tag and exactly the bytes read.
    ensures f.partialMsg && f.bodyLen >= 0 ==>
              var b := FullRead(s, f.bodyLen);
              r.stream == b.after &&
              (b.data.Err? ==> r.result == Err(Io(b.data.error))) &&
              (b.data.Ok? ==> r.result == Ok(Frame(f.msgType, b.data.value)))
    ensures !f.partialMsg && FullRead(s, 5).data.Ok? && r.state.bodyLen >= 0 ==>
              var b := FullRead(FullRead(s, 5).after, r.state.bodyLen);
              r.stream == b.after &&
              (b.data.Err? ==> r.result == Err(Io(b.data.error))) &&
              (b.data.Ok? ==> r.result == Ok(Frame(r.state.msgType, b.data.value)))
    // A negative declared body length reaches `make` and panics.
    ensures r.state.partialMsg && r.state.bodyLen < 0 ==>
              r.result == Err(Panicked(NegativeBodyLength(r.state.bodyLen))) &&
              r.stream == (if f.partialMsg then s else FullRead(s, 5).after)
  {
    if f.partialMsg then ReceiveBody(f, s, [])
    else
      var header := FullRead(s, 5);
      match header.data
      case Err(e) => FrameStep(f, header.after, [5], Err(Io(e)))
      case Ok(h) => ReceiveBody(FramerState(true, h[0], DeclaredBodyLen(h)), header.after, [5])
  }

  /** `k` calls of `Receive` in a row: the final framer state and reader, and every outcome. */
  function ReceiveRepeatedly(f: FramerState, s: Stream, k: nat): (r: (FramerState, Stream, seq<Result<Frame, Error>>))
    ensures |r.2| == k
    decreases k
  {
    if k == 0 then (f, s, [])
    else
      var step := ReceiveFrame(f, s);
      var rest := ReceiveRepeatedly(step.state, step.stream, k - 1);
      (rest.0, rest.1, [step.result] + rest.2)
  }

  /**
   * However many calls fail in a row, a pending header stays exactly as it
   * was stored: a failed body read never lets a later call read body bytes as a header.
   */
  lemma {:induction false} PendingHeaderSurvivesFailures(f: FramerState, s: Stream, k: nat)
    requires f.partialMsg
    requires forall i :: 0 <= i < k ==> ReceiveRepeatedly(f, s, k).2[i].Err?
    ensures ReceiveRepeatedly(f, s, k).0 == f
    decreases k
  {
    if k > 0 {
      var step := ReceiveFrame(f, s);
      var rest := ReceiveRepeatedly(step.state, step.stream, k - 1);
      assert ReceiveRepeatedly(f, s, k).2 == [step.result] + rest.2;
      assert step.result.Err? by { assert ReceiveRepeatedly(f, s, k).2[0].Err?; }
      assert step.state == f;
      forall i | 0 <= i < k - 1 ensures rest.2[i].Err? {
        assert rest.2[i] == ReceiveRepeatedly(f, s, k).2[i + 1];
      }
      PendingHeaderSurvivesFailures(f, step.stream, k - 1);
    }
  }

  /**
   * A frame written as header then body is read back as the same tag and
   * body, taking exactly its bytes off the input and leaving no header pending.
   */
  lemma FrameRoundTrip(tag: byte, body: seq<byte>, after: seq<byte>)
    requires |body| + 4 < 0x1_0000_0000
    ensures var r := ReceiveFrame(Idle, Stream(FrameHeader(tag, |body|) + body + after, []));
            r.result == Ok(Frame(tag, body)) && r.state == Idle.(msgType := tag, bodyLen := |body|) &&
            r.stream == Stream(after, []) && r.requested == [5, |body|]
  {
    var input := FrameHeader(tag, |body|) + body + after;
    FrameHeaderParses(tag, |body|);
    assert input[..5] == FrameHeader(tag, |body|);
    assert input[5..] == body + after;
    assert (body + after)[..|body|] == body;
    assert (body + after)[|body|..] == after;
  }

  /**
   * The retry the pending header exists for: the header arrives, the body
   * read fails before any body byte arrives, and the next call reads only the
   * body and returns the frame. (A read that fails part-way through the body
   * loses the bytes it took, and a retry then reads a shifted body.)
   */
  lemma ResumeAfterFailedBody(tag: byte, body: seq<byte>, e: IoError)
    requires 0 < |body| && |body| + 4 < 0x1_0000_0000
    ensures var first := ReceiveFrame(Idle, Stream(FrameHeader(tag, |body|) + body, [Proceed, Fail(e)]));
            first.result == Err(Io(e)) && first.state == FramerState(true, tag, |body|) &&
            first.stream == Stream(body, []) &&
            var second := ReceiveFrame(first.state, first.stream);
            second.requested == [|body|] && second.result == Ok(Frame(tag, body)) && !second.state.partialMsg
  {
    var input := FrameHeader(tag, |body|) + body;
    FrameHeaderParses(tag, |body|);
    assert input[..5] == FrameHeader(tag, |body|);
    assert input[5..] == body;
    assert body[..|body|] == body;
  }

  /** What `ReceiveStartupMessage` has read when it reaches the `switch`. */
  datatype StartupFrame = StartupFrame(header: seq<byte>, body: seq<byte>, code: uint32)

  datatype StartupStep = StartupStep(stream: Stream, requested: seq<nat>, result: Result<StartupFrame, Error>)

  /** `int(binary.BigEndian.Uint32(buf) - 4)`: the subtraction wraps around in 32 bits. */
  function StartupBodyLen(header: seq<byte>): (n: nat)
    requires |header| == 4
  {
    (BE32(header) as int - 4) % 0x1_0000_0000
  }

  /** The reads of `ReceiveStartupMessage`: a 4-byte length, the body it declares, and the code that opens the body. */
  function ReceiveStartupFrame(s: Stream): (r: StartupStep)
    ensures r.requested != [] && r.requested[0] == 4
    ensures FullRead(s, 4).data.Err? ==>
              r.requested == [4] && r.result == Err(Io(FullRead(s, 4).data.error)) && r.stream == FullRead(s, 4).after
    ensures FullRead(s, 4).data.Ok? ==> r.requested == [4, StartupBodyLen(FullRead(s, 4).data.value)]
    ensures r.result.Ok? ==>
              r.result.value.header == FullRead(s, 4).data.value &&
              |r.result.value.body| == StartupBodyLen(r.result.value.header) >= 4 &&
              r.result.value.code == BE32(r.result.value.body)
    // Once the length was read, the body read decides: its error, a panic on a body too short
    // to hold a code, or a frame holding exactly the bytes read.
    ensures var h := FullRead(s, 4);
            h.data.Ok? ==>
              var b := FullRead(h.after, StartupBodyLen(h.data.value));
              r.stream == b.after &&
              (b.data.Err? ==> r.result == Err(Io(b.data.error))) &&
              (b.data.Ok? && |b.data.value| < 4 ==> r.result == Err(Panicked(ShortStartupBody(|b.data.value|)))) &&
              (b.data.Ok? && |b.data.value| >= 4 ==> r.result.Ok? && r.result.value.body == b.data.value)
  {
    var header := FullRead(s, 4);
    match header.data
    case Err(e) => StartupStep(header.after, [4], Err(Io(e)))
    case Ok(h) =>
      var size := StartupBodyLen(h);
      var body := FullRead(header.after, size);
      match body.data
      case Err(e) => StartupStep(body.after, [4, size], Err(Io(e)))
      case Ok(b) =>
        if |b| < 4 then StartupStep(body.after, [4, size], Err(Panicked(ShortStartupBody(|b|))))
        else StartupStep(body.after, [4, size], Ok(StartupFrame(h, b, BE32(b))))
  }

  /**
   * The length field is not checked: one below 4 wraps to a request of just
   * under 4 GiB (2^32-4 to 2^32-1 bytes), so on any shorter input the startup
   * read fails with a reader error instead of a length error.
   */
  lemma StartupShortLengthWraps(header: seq<byte>, rest: seq<byte>)
    requires |header| == 4 && BE32(header) < 4 && |rest| < 0x1_0000_0000 - 4
    ensures 0x1_0000_0000 - 4 <= StartupBodyLen(header) < 0x1_0000_0000
    ensures ReceiveStartupFrame(Stream(header + rest, [])).result.Err?
    ensures ReceiveStartupFrame(Stream(header + rest, [])).result.error.Io?
  {
    assert (header + rest)[..4] == header;
    assert (header + rest)[4..] == rest;
  }

  /**
   * A length of 4 to 7 declares a body too short to hold a code: the body is
   * read, and then reading the code panics.
   */
  lemma StartupShortBodyPanics(header: seq<byte>, body: seq<byte>, rest: seq<byte>)
    requires |header| == 4 && 4 <= BE32(header) < 8 && |body| == BE32(header) as int - 4
    ensures ReceiveStartupFrame(Stream(header + body + rest, [])).result == Err(Panicked(ShortStartupBody(|body|)))
  {
    var input := header + body + rest;
    assert input[..4] == header;
    assert input[4..] == body + rest;
    assert (body + rest)[..|body|] == body;
  }
}
