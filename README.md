# pgproto3 Backend receive side and NoSSL, modelled in Dafny

This project models two pieces of the Go package `pgproto3`, which implements
the server side of the PostgreSQL frontend/backend protocol, version 3
(message layouts in section 55.7, "Message Formats", of the PostgreSQL 16
documentation).

* **`Backend` receive side** (`backend.go`). `Receive` is a two-step framer
  over the persistent fields `partialMsg`, `msgType` and `bodyLen`. It reads a
  5-byte header (tag plus a big-endian length that counts itself) unless one is
  pending, then reads the body. A failed body read leaves the header pending,
  so the next call reads only the body. That retry gives the right body only
  when the failed read took no body byte. The tag then selects one of 13
  flyweight fields; the body is decoded into it in place and a reference to it
  is returned. `ReceiveStartupMessage` reads the untagged first message (a
  4-byte length, then the body) and routes it on the 4-byte code that opens the
  body to one of four startup flyweights.
* **`NoSSL`** (`no_ssl.go`). A fieldless message: `Decode` accepts only an
  empty body and `Encode` appends the fixed frame `'N',0,0,0,4`.

Layout:

| file | module | contents |
|---|---|---|
| results.dfy | `Results` | `Option`, `Result` |
| wire.dfy | `Wire` | `byte`, `uint32`, the big-endian 32-bit field and its round trip |
| reading.dfy | `Reading` | `io.ReadFull` over a scripted reader: the class `Reader` and the pure `FullRead` |
| messages.dfy | `Messages` | message types, errors, and `Codec`, which stands for the Decode methods of the message types |
| dispatch.dfy | `Dispatch` | the tag table of `Receive` and the startup code table of `ReceiveStartupMessage` |
| framing.dfy | `Framing` | one `Receive` up to dispatch (`ReceiveFrame`) and the reads of `ReceiveStartupMessage` as pure functions, with lemmas about several calls |
| backend.dfy | `Backend` | the class `Backend`, whose methods are proved against `Framing` and `Dispatch` |
| no_ssl.dfy | `NoSsl` | the `NoSSL` codec |

Modelling choices:

* **The reader** is a class holding the bytes the peer has still to send and a
  script of read attempts (`Proceed`, or `Fail(e)` before any byte arrives).
  `ReadFull(n)` returns exactly `n` bytes or an error. At end of input it
  reports `EOF` if no bytes were read and `UnexpectedEOF` if some were, and the
  partial bytes are lost. A request for zero bytes succeeds without touching
  the reader, as Go's `io.ReadFull` does. The reader also records every
  requested size, so contracts can say exactly what was requested.
* **The flyweights** are struct values embedded in the Go `Backend`. Here they
  are the Backend field `flyweights`, one entry per message type. Each entry's
  decoded fields are represented by the bytes they were last decoded from. A
  returned message is `Some(t)`: a reference to the field of type `t`, whose
  contents are `flyweights[t]`. The empty sequence stands both for a field's
  zero value and for a field decoded from an empty body: the model does not
  tell a never-decoded flyweight from one decoded from no bytes. It is the same field on every call, and the
  next decode of that type overwrites it.
* **Decode of the message types** (Bind, Query, StartupMessage, ...) is not part of
  this model. It is the function value `codec`, given to the constructor,
  which maps a type and a body to the error it reports.
* **Startup codes** use the values from the protocol documentation. The
  routing proofs rely only on the four being distinct.
* **Go runtime panics** the code does not guard against become an explicit
  outcome, `Err(Panicked(..))`, with the state as it was when the panic hit:
  a declared length below 4 in `Receive` (a negative `make` size, with the
  header already pending), and a startup body shorter than 4 bytes.
  `ReceiveStartupMessage` computes its body length in wrapping 32-bit
  arithmetic, exactly as the code does.

Where the code and the protocol's description disagree, the model follows the
code:
* A declared length below 4 is not rejected. `Receive` panics, and
  `ReceiveStartupMessage` wraps it to a read of just under 4 GiB,
  2^32-4 to 2^32-1 bytes (`StartupShortLengthWraps`).
* `GSSEncRequest` is decoded from the 4-byte length header, not from the body.
* `NoSSL.Encode` writes a 5-byte frame, not the single bare byte the protocol
  uses to refuse SSL.

## Model

| member | source | states |
|---|---|---|
| `Wire.DecodeEncodeBE32` | backend.go:118 | reading back a 4-byte big-endian field gives the value it encoded |
| `Wire.EncodeDecodeBE32` | backend.go:118 | re-encoding a field that was read gives its four bytes back |
| `Reading.FullRead` | backend.go:123 | `io.ReadFull`: a success has exactly `n` bytes, taken off the front of the input; a zero-byte request succeeds and changes nothing; a proceeding attempt succeeds exactly when the input holds `n` bytes; a scripted failure returns its error and consumes no input |
| `Reading.Reader.ReadFull` | backend.go:109 | the reader's state and result are those of `FullRead`, and the request size is recorded |
| `Dispatch.FrontendMessageType` | backend.go:133-163 | a tag selects a message type exactly when it is one of `B C c D d E f H P p Q S X`, and the type selected is the one framed with that tag |
| `Dispatch.TagTableComplete` | backend.go:134-160 | every tagged message type is selected by its tag |
| `Dispatch.TagTableInjective` | backend.go:134-160 | two different known tags select two different message types |
| `Dispatch.StartupMessageType` | backend.go:75-101 | a code selects a startup type exactly when it is one of the four startup codes, and the type selected is the one carrying that code |
| `Dispatch.StartupTableComplete` | backend.go:75-99 | each of the four startup types is selected by its code |
| `Dispatch.TablesDisjoint` | backend.go:75-163 | no type is reachable both by a tag and by a startup code |
| `Framing.FrameHeaderParses` | backend.go:117-118 | the body length read from a header is the length field minus 4, so it gives back the body length the header was written for |
| `Framing.ReceiveFrame` | backend.go:106-131 | with no header pending, 5 bytes are requested first, and the tag and the length less 4 are stored; a failed header read returns the reader's error, changes no framer field and leaves the reader as that read left it; with a header just read, the requests are 5 and then the declared body length (none if negative); with a header pending, no header is read and only the stored body length is requested; a failed body read returns that read's error, and a successful one returns the stored tag with exactly the bytes read; a body that was read has exactly the stored length and clears `partialMsg`; any failure after the header keeps it pending; a negative length panics, leaving the reader after the header |
| `Framing.PendingHeaderSurvivesFailures` | backend.go:107-126 | after any number of failed calls with a header pending, the stored tag and length are unchanged, so no body byte is read as a header |
| `Framing.FrameRoundTrip` | backend.go:107-131 | a frame written as header plus body is read back as the same tag and body, consuming exactly its bytes and leaving no header pending |
| `Framing.ResumeAfterFailedBody` | backend.go:107-131 | when the header arrives and the body read fails before any body byte arrives, the next call requests only the body and returns the frame |
| `Framing.ReceiveStartupFrame` | backend.go:53-73 | 4 bytes are requested first, and a failed length read returns its error and leaves the reader as that read left it; otherwise the wrapped 32-bit length less 4 is requested; a failed body read returns its error; a body shorter than 4 bytes panics at the code read; any other body is returned as exactly the bytes read, with the code taken from its first 4 bytes |
| `Framing.StartupShortLengthWraps` | backend.go:62-67 | a startup length below 4 wraps to a request of 2^32-4 to 2^32-1 bytes, and the read then fails with a reader error, not a length error |
| `Framing.StartupShortBodyPanics` | backend.go:62-73 | a startup length of 4 to 7 reads a body too short to hold a code, and the code read panics |
| `Backend.Backend.constructor` | backend.go:39-41 | a new Backend has no header pending and a zero-value flyweight for every message type |
| `Backend.Backend.Decode` | backend.go:165 | decoding overwrites exactly one flyweight field in place and returns that type's Decode error |
| `Backend.Backend.Receive` | backend.go:106-167 | framer fields and reader as `ReceiveFrame` gives them; a read error returns no message; an unknown tag returns no message and decodes nothing; a known tag returns a reference to its own flyweight, overwritten with the body, together with its Decode error even when there is one; no other flyweight changes |
| `Backend.Backend.ReceiveStartupMessage` | backend.go:52-103 | reads as `ReceiveStartupFrame`; an unknown code returns no message; a known code overwrites its own startup flyweight (`GSSEncRequest` from the length header, the others from the body) and returns a reference to it only if Decode succeeds; `partialMsg`, `msgType` and `bodyLen` are unchanged |
| `Backend.StartupRoundTrip` | backend.go:62-99 | a first message written as length, code and body is read with that code, which routes to the startup type it belongs to |
| `Backend.SimpleQueryScenario` | backend.go:107-156 | the bytes `Q 0 0 0 13 "SELECT 1\0"` are read as one frame that selects Query |
| `NoSsl.NoSSL.Decode` | no_ssl.go:14-19 | succeeds exactly on an empty body; otherwise a length error naming "NoSSL" with expected length 0 and the actual length |
| `NoSsl.NoSSL.Encode` | no_ssl.go:23-25 | `dst` followed by five bytes: the tag 'N' and a length field of 4, which declares an empty body |
| `NoSsl.EncodeIsFrame` | no_ssl.go:24 | the five bytes are the general frame header for tag 'N' and an empty body |
| `NoSsl.RoundTrip` | no_ssl.go:14-25 | removing the 5-byte header from the encoding leaves a body that `Decode` accepts |
| `NoSsl.FramedRoundTrip` | no_ssl.go:14-25 | read back through the framer, the encoding is one frame with tag 'N' and an empty body that `Decode` accepts, and nothing after it is consumed |
| `NoSsl.EncodeIgnoresReceiver` | no_ssl.go:23-24 | the encoding does not depend on the receiver |

## Left out

- `Send` and the writer `w`: sending is a write of `Encode(nil)` to an `io.Writer`, which is I/O.
- The `Decode` and `Encode` bodies of Bind, Query, Parse, StartupMessage, CancelRequest, SSLRequest, GSSEncRequest and the other message types: they are not part of this model and stand behind `codec`.
- Backend.Backend.Decode: a flyweight's contents after a failed Decode are modelled as fully overwritten by the body, because the per-type decoders that might leave them partly written are not part of this model.
- The checks `n != 4`, `n != msgSize`, `n != 5` and `n != bodyLen`: they cannot fail, because `io.ReadFull` returns an error whenever it reads fewer bytes than requested.
- The error texts of `fmt.Errorf`: they become the cases of `Error`.
- Reader failures that happen after some bytes have arrived, other than end of input: a scripted failure consumes no input. In Go such a failure (a deadline hit part-way through the body) loses the bytes it read, and a retry of `Receive` then reads a shifted body; the model does not show this.
- Go's `int` is taken to be 64 bits: on 32-bit targets `int(...)` at backend.go:62 and backend.go:118 can be negative (a startup length below 4, a declared length of 2^31 or more), and `make` then panics; `StartupBodyLen` and `DeclaredBodyLen` do not model that.
- `NoSSL.MarshalJSON` and the marker method `NoSSL.Backend`: JSON output for debugging, and a method with no behaviour.
- Concurrency: a Backend is used by one caller at a time.
