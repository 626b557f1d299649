/**
 * A minimal model of the byte reader the decoder runs on: a fixed byte
 * buffer, a cursor, and the byte order that the next multi-byte read uses.
 */
module ByteReader {

  import opened Wrappers
  import opened WkbErrors

  /** One byte of the buffer. */
  type Byte = b: int | 0 <= b < 256

  type UInt32 = n: int | 0 <= n < 0x1_0000_0000

  /** The raw bit pattern of an IEEE-754 double; the model never decodes it. */
  type Word64 = n: int | 0 <= n < 0x1_0000_0000_0000_0000

  datatype ByteOrder = BigEndian | LittleEndian

  /** A value decoded from the buffer and the position just after it. */
  datatype Parsed<+T> = Parsed(value: T, end: nat)

  function Pow256(n: nat): (p: nat)
    ensures p > 0
  {
    if n == 0 then 1 else 256 * Pow256(n - 1)
  }

  /** The unsigned value of the `n` bytes at `pos`, most significant byte first. */
  function BigEndianAt(data: seq<Byte>, pos: nat, n: nat): nat
    requires pos + n <= |data|
    decreases |data| - pos + n
  {
    if n == 0 then 0 else BigEndianAt(data, pos, n - 1) * 256 + data[pos + n - 1]
  }

  /** The unsigned value of the `n` bytes at `pos`, least significant byte first. */
  function LittleEndianAt(data: seq<Byte>, pos: nat, n: nat): nat
    requires pos + n <= |data|
    decreases |data| - pos + n
  {
    if n == 0 then 0 else data[pos] + 256 * LittleEndianAt(data, pos + 1, n - 1)
  }

  /** The unsigned value of the `n` bytes at `pos`, in byte order `order`. */
  function UIntAt(data: seq<Byte>, pos: nat, n: nat, order: ByteOrder): nat
    requires pos + n <= |data|
  {
    if order == BigEndian then BigEndianAt(data, pos, n) else LittleEndianAt(data, pos, n)
  }

  /** `n` bytes hold a value below 256 to the power `n`, in either order. */
  lemma UIntAtBound(data: seq<Byte>, pos: nat, n: nat, order: ByteOrder)
    requires pos + n <= |data|
    ensures UIntAt(data, pos, n, order) < Pow256(n)
  {
    if order == BigEndian { BigEndianBound(data, pos, n); } else { LittleEndianBound(data, pos, n); }
  }

  lemma {:induction false} BigEndianBound(data: seq<Byte>, pos: nat, n: nat)
    requires pos + n <= |data|
    ensures BigEndianAt(data, pos, n) < Pow256(n)
    decreases n
  {
    if n > 0 {
      BigEndianBound(data, pos, n - 1);
    }
  }

  lemma {:induction false} LittleEndianBound(data: seq<Byte>, pos: nat, n: nat)
    requires pos + n <= |data|
    ensures LittleEndianAt(data, pos, n) < Pow256(n)
    decreases n
  {
    if n > 0 {
      LittleEndianBound(data, pos + 1, n - 1);
    }
  }

  /** Java's `(int)` narrowing of an unsigned 32-bit value: two's complement. */
  function ToInt32(u: UInt32): (i: int)
    ensures -0x8000_0000 <= i < 0x8000_0000
    ensures i >= 0 ==> i == u
    ensures i < 0 ==> i == u - 0x1_0000_0000
  {
    if u < 0x8000_0000 then u else u - 0x1_0000_0000
  }

  /** A read sees only its own `n` bytes: the rest of the buffer does not matter. */
  lemma {:induction false} BigEndianWindow(data: seq<Byte>, pos: nat, n: nat)
    requires pos + n <= |data|
    ensures BigEndianAt(data, pos, n) == BigEndianAt(data[pos..pos + n], 0, n)
    decreases n
  {
    if n > 0 {
      BigEndianWindow(data, pos, n - 1);
      BigEndianWindow(data[pos..pos + n], 0, n - 1);
      assert data[pos..pos + n][0..n - 1] == data[pos..pos + n - 1];
    }
  }

  lemma {:induction false} LittleEndianWindow(data: seq<Byte>, pos: nat, n: nat)
    requires pos + n <= |data|
    ensures LittleEndianAt(data, pos, n) == LittleEndianAt(data[pos..pos + n], 0, n)
    decreases n
  {
    if n > 0 {
      LittleEndianWindow(data, pos + 1, n - 1);
      LittleEndianWindow(data[pos..pos + n], 1, n - 1);
      assert data[pos..pos + n][1..n] == data[pos + 1..pos + n];
    }
  }

  // The writer's side of a multi-byte value, as the inverse the reads are checked against.

  function BigEndianBytes(v: nat, n: nat): (bs: seq<Byte>)
    requires v < Pow256(n)
    ensures |bs| == n
  {
    if n == 0 then [] else BigEndianBytes(v / 256, n - 1) + [v % 256]
  }

  function LittleEndianBytes(v: nat, n: nat): (bs: seq<Byte>)
    requires v < Pow256(n)
    ensures |bs| == n
  {
    if n == 0 then [] else [v % 256] + LittleEndianBytes(v / 256, n - 1)
  }

  function EncodeUInt(v: nat, n: nat, order: ByteOrder): (bs: seq<Byte>)
    requires v < Pow256(n)
    ensures |bs| == n
  {
    if order == BigEndian then BigEndianBytes(v, n) else LittleEndianBytes(v, n)
  }

  lemma {:induction false} BigEndianRoundTrip(v: nat, n: nat)
    requires v < Pow256(n)
    ensures BigEndianAt(BigEndianBytes(v, n), 0, n) == v
  {
    if n > 0 {
      var bs := BigEndianBytes(v, n);
      BigEndianRoundTrip(v / 256, n - 1);
      BigEndianWindow(bs, 0, n - 1);
      assert bs[0..n - 1] == BigEndianBytes(v / 256, n - 1);
    }
  }

  lemma {:induction false} LittleEndianRoundTrip(v: nat, n: nat)
    requires v < Pow256(n)
    ensures LittleEndianAt(LittleEndianBytes(v, n), 0, n) == v
  {
    if n > 0 {
      var bs := LittleEndianBytes(v, n);
      LittleEndianRoundTrip(v / 256, n - 1);
      LittleEndianWindow(bs, 1, n - 1);
      assert bs[1..n] == LittleEndianBytes(v / 256, n - 1);
    }
  }

  /** Reading back a value written in either byte order gives the value. */
  lemma UIntRoundTrip(v: nat, n: nat, order: ByteOrder)
    requires v < Pow256(n)
    ensures UIntAt(EncodeUInt(v, n, order), 0, n, order) == v
  {
    if order == BigEndian { BigEndianRoundTrip(v, n); } else { LittleEndianRoundTrip(v, n); }
  }

  /** The bytes a read consumed encode the value it returned: the reverse round trip. */
  lemma {:induction false} BigEndianBytesOfRead(data: seq<Byte>, pos: nat, n: nat)
    requires pos + n <= |data|
    ensures BigEndianAt(data, pos, n) < Pow256(n)
    ensures BigEndianBytes(BigEndianAt(data, pos, n), n) == data[pos..pos + n]
    decreases n
  {
    BigEndianBound(data, pos, n);
    if n > 0 {
      var v, w := BigEndianAt(data, pos, n), BigEndianAt(data, pos, n - 1);
      BigEndianBound(data, pos, n - 1);
      assert v / 256 == w && v % 256 == data[pos + n - 1];
      BigEndianBytesOfRead(data, pos, n - 1);
      assert data[pos..pos + n] == data[pos..pos + n - 1] + [data[pos + n - 1]];
    }
  }

  lemma {:induction false} LittleEndianBytesOfRead(data: seq<Byte>, pos: nat, n: nat)
    requires pos + n <= |data|
    ensures LittleEndianAt(data, pos, n) < Pow256(n)
    ensures LittleEndianBytes(LittleEndianAt(data, pos, n), n) == data[pos..pos + n]
    decreases n
  {
    LittleEndianBound(data, pos, n);
    if n > 0 {
      var v, w := LittleEndianAt(data, pos, n), LittleEndianAt(data, pos + 1, n - 1);
      LittleEndianBound(data, pos + 1, n - 1);
      assert v / 256 == w && v % 256 == data[pos];
      LittleEndianBytesOfRead(data, pos + 1, n - 1);
      assert data[pos..pos + n] == [data[pos]] + data[pos + 1..pos + n];
    }
  }

  /** Writing back the value a read returned gives the bytes it read. */
  lemma ReadBytesRoundTrip(data: seq<Byte>, pos: nat, n: nat, order: ByteOrder)
    requires pos + n <= |data|
    ensures UIntAt(data, pos, n, order) < Pow256(n)
    ensures EncodeUInt(UIntAt(data, pos, n, order), n, order) == data[pos..pos + n]
  {
    if order == BigEndian { BigEndianBytesOfRead(data, pos, n); } else { LittleEndianBytesOfRead(data, pos, n); }
  }

  // The primitive reads, as functions of the buffer and the cursor.

  function ReadByteAt(data: seq<Byte>, pos: nat): Result<Parsed<Byte>, WkbError> {
    if pos + 1 <= |data| then Ok(Parsed(data[pos], pos + 1)) else Err(Truncated)
  }

  function ReadUnsignedIntAt(data: seq<Byte>, pos: nat, order: ByteOrder): Result<Parsed<UInt32>, WkbError> {
    if pos + 4 <= |data| then
      UIntAtBound(data, pos, 4, order);
      assert Pow256(4) == 0x1_0000_0000;
      Ok(Parsed(UIntAt(data, pos, 4, order), pos + 4))
    else Err(Truncated)
  }

  function ReadIntAt(data: seq<Byte>, pos: nat, order: ByteOrder): Result<Parsed<int>, WkbError> {
    var u :- ReadUnsignedIntAt(data, pos, order);
    Ok(Parsed(ToInt32(u.value), u.end))
  }

  function ReadDoubleAt(data: seq<Byte>, pos: nat, order: ByteOrder): Result<Parsed<Word64>, WkbError> {
    if pos + 8 <= |data| then
      UIntAtBound(data, pos, 8, order);
      assert Pow256(8) == 0x1_0000_0000_0000_0000;
      Ok(Parsed(UIntAt(data, pos, 8, order), pos + 8))
    else Err(Truncated)
  }

  /** The reader over one immutable buffer; every read advances `pos`. */
  class Reader {
    const data: seq<Byte>
    var pos: nat
    var byteOrder: ByteOrder

    ghost predicate Valid()
      reads this
    {
      pos <= |data|
    }

    /** A new reader starts at the first byte, in big-endian order. */
    constructor (bytes: seq<Byte>)
      ensures Valid()
      ensures data == bytes && pos == 0 && byteOrder == BigEndian
    {
      data := bytes;
      pos := 0;
      byteOrder := BigEndian;
    }

    method SetByteOrder(order: ByteOrder)
      modifies this`byteOrder
      ensures byteOrder == order
    {
      byteOrder := order;
    }

    method ReadByte() returns (r: Result<Byte, WkbError>)
      requires Valid()
      modifies this`pos
      ensures Valid()
      ensures match ReadByteAt(data, old(pos))
        case Ok(p) => r == Ok(p.value) && pos == p.end
        case Err(e) => r == Err(e) && pos == old(pos)
    {
      if pos + 1 <= |data| {
        r := Ok(data[pos]);
        pos := pos + 1;
      } else {
        r := Err(Truncated);
      }
    }

    method ReadUnsignedInt() returns (r: Result<UInt32, WkbError>)
      requires Valid()
      modifies this`pos
      ensures Valid()
      ensures match ReadUnsignedIntAt(data, old(pos), byteOrder)
        case Ok(p) => r == Ok(p.value) && pos == p.end
        case Err(e) => r == Err(e) && pos == old(pos)
    {
      if pos + 4 <= |data| {
        UIntAtBound(data, pos, 4, byteOrder);
        assert Pow256(4) == 0x1_0000_0000;
        r := Ok(UIntAt(data, pos, 4, byteOrder));
        pos := pos + 4;
      } else {
        r := Err(Truncated);
      }
    }

    method ReadInt() returns (r: Result<int, WkbError>)
      requires Valid()
      modifies this`pos
      ensures Valid()
      ensures match ReadIntAt(data, old(pos), byteOrder)
        case Ok(p) => r == Ok(p.value) && pos == p.end
        case Err(e) => r == Err(e) && pos == old(pos)
    {
      var u :- ReadUnsignedInt();
      r := Ok(ToInt32(u));
    }

    method ReadDouble() returns (r: Result<Word64, WkbError>)
      requires Valid()
      modifies this`pos
      ensures Valid()
      ensures match ReadDoubleAt(data, old(pos), byteOrder)
        case Ok(p) => r == Ok(p.value) && pos == p.end
        case Err(e) => r == Err(e) && pos == old(pos)
    {
      if pos + 8 <= |data| {
        UIntAtBound(data, pos, 8, byteOrder);
        assert Pow256(8) == 0x1_0000_0000_0000_0000;
        r := Ok(UIntAt(data, pos, 8, byteOrder));
        pos := pos + 8;
      } else {
        r := Err(Truncated);
      }
    }
  }
}
