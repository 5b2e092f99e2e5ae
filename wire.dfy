/**
 * Fixed-width integers of the wire format and the 4-byte big-endian field
 * (`binary.BigEndian.Uint32`) that every frame header carries.
 */
module Wire {

  newtype byte = x: int | 0 <= x < 0x100

  newtype uint32 = x: int | 0 <= x < 0x1_0000_0000

  /** The byte that encodes an ASCII character, as Go's `'B'` byte literals do. */
  function Ascii(c: char): (b: byte)
    requires c as int < 0x80
  {
    c as int as byte
  }

  /** `binary.BigEndian.Uint32(b)`: the first four bytes of `b`, most significant first; later bytes are ignored. */
  function BE32(b: seq<byte>): (v: uint32)
    requires |b| >= 4
  {
    (b[0] as int * 0x100_0000 + b[1] as int * 0x1_0000 + b[2] as int * 0x100 + b[3] as int) as uint32
  }

  /** `binary.BigEndian.PutUint32`: the four bytes that encode `v`, most significant first. */
  function PutBE32(v: uint32): (b: seq<byte>)
    ensures |b| == 4
  {
    var n := v as int;
    [(n / 0x100_0000) as byte, (n / 0x1_0000 % 0x100) as byte, (n / 0x100 % 0x100) as byte, (n % 0x100) as byte]
  }

  /** Decoding what was encoded gives the value back. */
  lemma DecodeEncodeBE32(v: uint32)
    ensures BE32(PutBE32(v)) == v
  {
    var n := v as int;
    var b := PutBE32(v);
    assert n == (n / 0x100_0000) * 0x100_0000 + (n % 0x100_0000);
    assert n % 0x100_0000 == (n / 0x1_0000 % 0x100) * 0x1_0000 + n % 0x1_0000;
    assert n % 0x1_0000 == (n / 0x100 % 0x100) * 0x100 + n % 0x100;
  }

  /** Encoding what was decoded gives the four field bytes back. */
  lemma EncodeDecodeBE32(b: seq<byte>)
    requires |b| >= 4
    ensures PutBE32(BE32(b)) == b[..4]
  {
    var n := BE32(b) as int;
    var lo := b[1] as int * 0x1_0000 + b[2] as int * 0x100 + b[3] as int;
    assert n == b[0] as int * 0x100_0000 + lo && 0 <= lo < 0x100_0000;
    assert n / 0x100_0000 == b[0] as int;
    assert n / 0x1_0000 == b[0] as int * 0x100 + b[1] as int;
    assert n / 0x100 == (b[0] as int * 0x100 + b[1] as int) * 0x100 + b[2] as int;
  }
}
