/**
 * The connection's `io.Reader` as seen through `io.ReadFull`: the bytes the
 * peer sends, in order, and a script saying which read attempts fail before
 * delivering anything (a deadline, a reset connection).
 */
module Reading {
  import opened Wire
  import opened Results

  /** The errors `io.ReadFull` can report. */
  datatype IoError =
    | EOF                      // the stream ended before the first requested byte
    | UnexpectedEOF            // the stream ended part-way through the requested bytes
    | ReaderError(code: nat)   // a failure of the underlying reader itself

  /** What the underlying reader does on one `ReadFull` that asks for at least one byte. */
  datatype Attempt =
    | Proceed          // deliver from the input, as far as it goes
    | Fail(err: IoError)  // fail before delivering any byte

  /** The reader's state: what the peer has still to send, and the scripted attempts still to come. */
  datatype Stream = Stream(input: seq<byte>, script: seq<Attempt>)

  datatype ReadResult = ReadResult(data: Result<seq<byte>, IoError>, after: Stream)

  /**
   * `io.ReadFull(r, buf)` with `len(buf) == n`. A request for zero bytes
   * succeeds without touching the reader. Otherwise one scripted attempt is
   * used up (an empty script means every attempt proceeds); a proceeding
   * attempt takes exactly `n` bytes when the input holds that many, and
   * otherwise drains the input and reports EOF or UnexpectedEOF.
   */
  function FullRead(s: Stream, n: nat): (r: ReadResult)
    ensures r.data.Ok? ==> |r.data.value| == n && s.input == r.data.value + r.after.input
    ensures r.data.Err? ==> r.after.input == s.input || r.after.input == []
    ensures n == 0 ==> r == ReadResult(Ok([]), s)
    ensures n > 0 && (s.script == [] || s.script[0] == Proceed) ==> (r.data.Ok? <==> n <= |s.input|)
    ensures n > 0 && s.script != [] && s.script[0].Fail? ==> r == ReadResult(Err(s.script[0].err), Stream(s.input, s.script[1..]))
    ensures n > 0 ==> r.after.script == if s.script == [] then [] else s.script[1..]
  {
    if n == 0 then ReadResult(Ok([]), s)
    else
      var rest := if s.script == [] then [] else s.script[1..];
      if s.script != [] && s.script[0].Fail? then ReadResult(Err(s.script[0].err), Stream(s.input, rest))
      else if n <= |s.input| then ReadResult(Ok(s.input[..n]), Stream(s.input[n..], rest))
      else if s.input == [] then ReadResult(Err(EOF), Stream([], rest))
      else ReadResult(Err(UnexpectedEOF), Stream([], rest))
  }

  /** The reader a Backend was created with. `requests` records the size of every `ReadFull` made on it. */
  class Reader {
    var stream: Stream
    ghost var requests: seq<nat>

    constructor (input: seq<byte>, script: seq<Attempt>)
      ensures stream == Stream(input, script) && requests == []
    {
      stream := Stream(input, script);
      requests := [];
    }

    method ReadFull(n: nat) returns (data: Result<seq<byte>, IoError>)
      modifies this
      ensures data == FullRead(old(stream), n).data
      ensures stream == FullRead(old(stream), n).after
      ensures requests == old(requests) + [n]
    {
      var r := FullRead(stream, n);
      data, stream := r.data, r.after;
      requests := requests + [n];
    }
  }
}
