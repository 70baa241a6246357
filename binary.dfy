/** The slice of Go's `encoding/binary`, `bytes` and `io` packages that the
    message codec and the server use: fixed-width unsigned integers, float32
    bit patterns, little-endian 32-bit words, an append-only byte buffer
    (`bytes.Buffer`) and a sequential reader over a byte slice
    (`bytes.Reader` read through `io.ReadFull`). */
module Binary {

  const TWO_32: int := 0x1_0000_0000

  type uint8 = x: int | 0 <= x < 0x100
  type uint32 = x: int | 0 <= x < 0x1_0000_0000

  /** A Go `float32`, kept only as its IEEE-754 bit pattern (what
      `math.Float32bits` returns). The codec copies floats onto the wire and
      never computes with them. */
  datatype Float32 = Float32(bits: uint32)

  /** The errors the modelled code can return. `EOF` and `UnexpectedEOF` are
      `io.EOF` and `io.ErrUnexpectedEOF`; `MsgTypeMismatch` is the
      "msg type not ..." error of a decoder that meets the wrong tag;
      `Unsupported` is a fixed error of a method that is not implemented for
      its direction of traffic. */
  datatype Error =
    | EOF
    | UnexpectedEOF
    | MsgTypeMismatch(expected: uint8, kind: uint8)
    | Unsupported(text: string)

  /** A value or an error, as a Go `(T, error)` pair. */
  datatype Result<T> = Ok(value: T) | Err(error: Error)

  datatype Option<T> = None | Some(value: T)

  /** A Go `error` return: nil (`Pass`) or an error. */
  datatype Outcome = Pass | Fail(error: Error)

  /** The four bytes `binary.LittleEndian.PutUint32` writes for `v`. */
  function LE32(v: uint32): (r: seq<uint8>)
    ensures |r| == 4
  {
    [v % 0x100, v / 0x100 % 0x100, v / 0x1_0000 % 0x100, v / 0x100_0000]
  }

  /** The word `binary.LittleEndian.Uint32` reads from four bytes. */
  function FromLE32(b: seq<uint8>): (v: uint32)
    requires |b| == 4
  {
    b[0] as int + 0x100 * b[1] as int + 0x1_0000 * b[2] as int + 0x100_0000 * b[3] as int
  }

  lemma DivMod256(q: int, r: int)
    requires 0 <= q && 0 <= r < 0x100
    ensures (0x100 * q + r) / 0x100 == q && (0x100 * q + r) % 0x100 == r
  {
  }

  /** Reading back what was written gives the word again. */
  lemma LE32RoundTrip(v: uint32)
    ensures FromLE32(LE32(v)) == v
  {
    var a := v / 0x100;
    var b := a / 0x100;
    var c := b / 0x100;
    assert v == 0x100 * a + v % 0x100;
    assert a == 0x100 * b + a % 0x100;
    assert b == 0x100 * c + b % 0x100;
    assert v / 0x1_0000 == b;
    assert v / 0x100_0000 == c;
  }

  /** Writing what was read gives the four bytes again, so `LE32` is a
      bijection between words and four-byte strings. */
  lemma FromLE32RoundTrip(b: seq<uint8>)
    requires |b| == 4
    ensures LE32(FromLE32(b)) == b
  {
    var v := FromLE32(b);
    var c: int := b[1] as int + 0x100 * b[2] as int + 0x1_0000 * b[3] as int;
    var d: int := b[2] as int + 0x100 * b[3] as int;
    assert v == 0x100 * c + b[0] as int;
    DivMod256(c, b[0]);
    assert c == 0x100 * d + b[1];
    DivMod256(d, b[1]);
    DivMod256(b[3], b[2]);
    assert v / 0x1_0000 == d;
    assert v / 0x100_0000 == b[3];
  }

  /** Two words with the same encoding are equal. */
  lemma LE32Injective(v: uint32, w: uint32)
    requires LE32(v) == LE32(w)
    ensures v == w
  {
    LE32RoundTrip(v);
    LE32RoundTrip(w);
  }

  /** A `bytes.Buffer` that is only ever appended to. `binary.Write` of a
      fixed-size value into it never fails, so its writers return nothing. */
  class Buffer {
    var bytes: seq<uint8>

    constructor ()
      ensures bytes == []
    {
      bytes := [];
    }

    /** `buf.WriteByte(b)`, and `binary.Write` of a `uint8`. */
    method WriteByte(b: uint8)
      modifies this
      ensures bytes == old(bytes) + [b]
    {
      bytes := bytes + [b];
    }

    /** `binary.Write(buf, binary.LittleEndian, v)` for a `uint32`. */
    method WriteUint32(v: uint32)
      modifies this
      ensures bytes == old(bytes) + LE32(v)
    {
      bytes := bytes + LE32(v);
    }

    /** `binary.Write(buf, binary.LittleEndian, f)` for a `float32`: the word
        `math.Float32bits(f)`, little-endian. */
    method WriteFloat32(f: Float32)
      modifies this
      ensures bytes == old(bytes) + LE32(f.bits)
    {
      bytes := bytes + LE32(f.bits);
    }

    /** `buf.Bytes()`. */
    function Bytes(): seq<uint8>
      reads this
    {
      bytes
    }
  }

  /** The outcome of one read: what it produced and where the reader stands
      afterwards. */
  datatype Read<T> = Read(result: Result<T>, pos: nat)

  /** `binary.Read` of a `uint8` at `pos`: `io.ReadFull` of one byte. */
  function ReadUint8At(data: seq<uint8>, pos: nat): (r: Read<uint8>)
    requires pos <= |data|
    ensures r.pos <= |data|
    ensures r.result.Ok? <==> pos < |data|
    ensures r.result.Ok? ==> r.result.value == data[pos] && r.pos == pos + 1
    ensures r.result.Err? ==> r.result.error == EOF && r.pos == pos
  {
    if pos < |data| then Read(Ok(data[pos]), pos + 1) else Read(Err(EOF), pos)
  }

  /** `binary.Read` of a little-endian `uint32` at `pos`: `io.ReadFull` of
      four bytes, which reports `EOF` when nothing is left and
      `UnexpectedEOF` when only part of the word is there, consuming that
      part. */
  function ReadUint32At(data: seq<uint8>, pos: nat): (r: Read<uint32>)
    requires pos <= |data|
    ensures r.pos <= |data|
    ensures r.result.Ok? <==> pos + 4 <= |data|
    ensures r.result.Ok? ==> r.result.value == FromLE32(data[pos..pos + 4]) && r.pos == pos + 4
    ensures pos == |data| ==> r == Read(Err(EOF), pos)
    ensures pos < |data| < pos + 4 ==> r == Read(Err(UnexpectedEOF), |data|)
  {
    var available := |data| - pos;
    if available >= 4 then Read(Ok(FromLE32(data[pos..pos + 4])), pos + 4)
    else if available == 0 then Read(Err(EOF), pos)
    else Read(Err(UnexpectedEOF), |data|)
  }

  /** A `bytes.Reader` over a byte slice, read field by field. */
  class Reader {
    const data: seq<uint8>
    var pos: nat

    ghost predicate Valid()
      reads this
    {
      pos <= |data|
    }

    /** `bytes.NewReader(data)`. */
    constructor (data: seq<uint8>)
      ensures Valid() && this.data == data && pos == 0
    {
      this.data := data;
      pos := 0;
    }

    method ReadUint8() returns (r: Result<uint8>)
      requires Valid()
      modifies this
      ensures Valid()
      ensures Read(r, pos) == ReadUint8At(data, old(pos))
    {
      if pos < |data| {
        r := Ok(data[pos]);
        pos := pos + 1;
      } else {
        r := Err(EOF);
      }
    }

    method ReadUint32() returns (r: Result<uint32>)
      requires Valid()
      modifies this
      ensures Valid()
      ensures Read(r, pos) == ReadUint32At(data, old(pos))
    {
      if |data| - pos >= 4 {
        r := Ok(FromLE32(data[pos..pos + 4]));
        pos := pos + 4;
      } else if pos == |data| {
        r := Err(EOF);
      } else {
        r := Err(UnexpectedEOF);
        pos := |data|;
      }
    }
  }
}
