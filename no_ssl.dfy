/**
 * `NoSSL`: a message with no fields, whose body is empty and whose encoding
 * is a fixed 5-byte frame.
 */
module NoSsl {
  import opened Wire
  import opened Results
  import opened Reading
  import opened Messages
  import opened Framing

  /** The Go struct has no fields, so it has a single value. */
  datatype NoSSL = NoSSL {

    /** Accepts only an empty body; anything else is a length error naming the type. */
    function Decode(src: seq<byte>): (err: Option<Error>)
      ensures err == None <==> src == []
      ensures err.Some? ==> err.value == InvalidMessageLen("NoSSL", 0, |src|)
    {
      if |src| != 0 then Some(InvalidMessageLen("NoSSL", 0, |src|)) else None
    }

    /** Appends the tag 'N' and a length field of 4, which declares an empty body. */
    function Encode(dst: seq<byte>): (r: seq<byte>)
      ensures |r| == |dst| + 5 && r[..|dst|] == dst
      ensures r[|dst|] == Ascii('N')
      ensures BE32(r[|dst| + 1..]) == 4 && DeclaredBodyLen(r[|dst|..]) == 0
    {
      dst + [Ascii('N'), 0, 0, 0, 4]
    }
  }

  /** The frame `Encode` writes is the general frame header for tag 'N' and an empty body. */
  lemma EncodeIsFrame(m: NoSSL, dst: seq<byte>)
    ensures m.Encode(dst) == dst + FrameHeader(Ascii('N'), 0)
  {
  }

  /** Stripping the 5-byte header from what `Encode` wrote leaves a body `Decode` accepts. */
  lemma RoundTrip(m: NoSSL)
    ensures m.Decode(m.Encode([])[5..]) == None
  {
  }

  /**
   * Read back through the framer, the encoded message is one frame with tag
   * 'N' and an empty body, and nothing after it is consumed.
   */
  lemma FramedRoundTrip(m: NoSSL, after: seq<byte>)
    ensures var step := ReceiveFrame(Idle, Stream(m.Encode([]) + after, []));
            step.result == Ok(Frame(Ascii('N'), [])) && step.stream.input == after &&
            m.Decode(step.result.value.body) == None
  {
    EncodeIsFrame(m, []);
    FrameRoundTrip(Ascii('N'), [], after);
  }

  /** `NoSSL` has no fields, so what `Encode` writes cannot depend on the receiver. */
  lemma EncodeIgnoresReceiver(m1: NoSSL, m2: NoSSL, dst: seq<byte>)
    ensures m1.Encode(dst) == m2.Encode(dst)
  {
  }
}
