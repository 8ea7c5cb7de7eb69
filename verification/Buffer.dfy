/**
 The byte buffer: one array, a read index and a write index.

 Each method says what it does to the readable bytes.  `ok` reports whether
 every assertion of the source on the path holds; where it does not (in-place
 compaction, a peek at exactly its own width) the source is not defined to do
 anything further, and nothing is promised.
 */
module Buffers {

  type byte = x: int | 0 <= x < 256

  const CHEAP_PREPEND: nat := 8
  const INITIAL_SIZE: nat := 1024
  const EXTRA_BUFFER: nat := 65535

  // ------------------------------------------------------- integers on the wire

  function Pow256(k: nat): nat {
    if k == 0 then 1 else 256 * Pow256(k - 1)
  }

  /** `k` bytes of `u`, most significant first. */
  function ToBytes(k: nat, u: nat): (b: seq<byte>)
    ensures |b| == k
  {
    if k == 0 then [] else ToBytes(k - 1, u / 256) + [u % 256]
  }

  function FromBytes(b: seq<byte>): nat {
    if b == [] then 0 else FromBytes(b[..|b| - 1]) * 256 + b[|b| - 1]
  }

  // htobeN and beNtoh on a signed integer of `k` bytes, in two's complement.

  predicate InRange(k: nat, x: int) { -(Pow256(k) as int) <= 2 * x < Pow256(k) }

  function Encode(k: nat, x: int): (b: seq<byte>)
    requires InRange(k, x)
    ensures |b| == k
  {
    ToBytes(k, if x < 0 then x + Pow256(k) else x)
  }

  function Decode(b: seq<byte>): int {
    var u := FromBytes(b);
    if 2 * u < Pow256(|b|) then u else u - Pow256(|b|)
  }

  lemma {:induction false} FromToBytes(k: nat, u: nat)
    requires u < Pow256(k)
    ensures FromBytes(ToBytes(k, u)) == u
  {
    if k > 0 {
      var b := ToBytes(k, u);
      assert b[..|b| - 1] == ToBytes(k - 1, u / 256);
      FromToBytes(k - 1, u / 256);
    }
  }

  /** Every signed value of `k` bytes survives encoding and decoding. */
  lemma DecodeEncode(k: nat, x: int)
    requires InRange(k, x)
    ensures Decode(Encode(k, x)) == x
  {
    FromToBytes(k, if x < 0 then x + Pow256(k) else x);
  }

  /** The most significant byte comes first. */
  lemma BigEndian(b: seq<byte>)
    ensures |b| == 1 ==> FromBytes(b) == b[0]
    ensures |b| == 2 ==> FromBytes(b) == 0x100 * (b[0] as int) + b[1] as int
    ensures |b| == 4 ==> FromBytes(b) == 0x100_0000 * (b[0] as int) + 0x1_0000 * (b[1] as int) + 0x100 * (b[2] as int) + b[3] as int
  {
    if |b| == 4 {
      var (b3, b2) := (b[..3], b[..2]);
      assert b3[..2] == b2 && b2[..1] == [b[0]] && [b[0]][..0] == [];
    } else if |b| == 2 {
      assert b[..1] == [b[0]] && [b[0]][..0] == [];
    }
  }

  lemma Pow256Values()
    ensures Pow256(1) == 0x100 && Pow256(2) == 0x1_0000 && Pow256(4) == 0x1_0000_0000
    ensures Pow256(6) == 0x1_0000_0000_0000 && Pow256(8) == 0x1_0000_0000_0000_0000
  {
    assert Pow256(1) == 0x100 && Pow256(2) == 0x1_0000;
    assert Pow256(3) == 0x100_0000 && Pow256(4) == 0x1_0000_0000;
    assert Pow256(5) == 0x100_0000_0000 && Pow256(6) == 0x1_0000_0000_0000;
    assert Pow256(7) == 0x100_0000_0000_0000 && Pow256(8) == 0x1_0000_0000_0000_0000;
  }

  /** readInt64 peeks only two bytes: of an encoded value it returns the top 16 bits.  It
      returns the value itself exactly for 0 and -1. */
  lemma TopTwoBytes(x: int)
    requires InRange(8, x)
    ensures Decode(Encode(8, x)[..2]) == x <==> x == 0 || x == -1
  {
    Pow256Values();
    var u := if x < 0 then x + Pow256(8) else x;
    Prefix2(u);
    assert Encode(8, x)[..2] == ToBytes(2, u / 0x1_0000_0000_0000);
    TopBits(x, u);
  }

  lemma TopBits(x: int, u: nat)
    requires -0x8000_0000_0000_0000 <= x < 0x8000_0000_0000_0000
    requires u == if x < 0 then x + 0x1_0000_0000_0000_0000 else x
    ensures Decode(ToBytes(2, u / 0x1_0000_0000_0000)) == x <==> x == 0 || x == -1
  {
    var t := u / 0x1_0000_0000_0000;
    assert 0 <= t < 0x1_0000;
    Pow256Values();
    FromToBytes(2, t);
    assert Decode(ToBytes(2, t)) == if 2 * t < 0x1_0000 then t else t - 0x1_0000;
  }

  lemma Prefix2(u: nat)
    ensures ToBytes(8, u)[..2] == ToBytes(2, u / 0x1_0000_0000_0000)
  {
    assert ToBytes(8, u)[..7] == ToBytes(7, u / 0x100);
    assert ToBytes(7, u / 0x100)[..6] == ToBytes(6, u / 0x100 / 0x100);
    assert ToBytes(6, u / 0x1_0000)[..5] == ToBytes(5, u / 0x1_0000 / 0x100);
    assert ToBytes(5, u / 0x100_0000)[..4] == ToBytes(4, u / 0x100_0000 / 0x100);
    assert ToBytes(4, u / 0x1_0000_0000)[..3] == ToBytes(3, u / 0x1_0000_0000 / 0x100);
    assert ToBytes(3, u / 0x100_0000_0000)[..2] == ToBytes(2, u / 0x100_0000_0000 / 0x100);
    assert u / 0x100_0000_0000 / 0x100 == u / 0x1_0000_0000_0000;
  }

  // ------------------------------------------------------------------ the buffer

  /** Space for `len` more bytes is found without moving bytes: there is enough behind the
      write index, or too little in all, so that the array is enlarged. */
  predicate GrowsInPlace(size: nat, readIndex: nat, writeIndex: nat, len: nat) {
    size - writeIndex >= len || size - writeIndex + readIndex < len + CHEAP_PREPEND
  }

  /** The size of the array that then holds them. */
  function Grown(size: nat, writeIndex: nat, len: nat): nat {
    if size - writeIndex >= len then size else writeIndex + len
  }

  // Where space is made by moving bytes instead, they are meant to end up behind the
  // reserve in front, in the same array.

  function IntendedRead(size: nat, readIndex: nat, writeIndex: nat, len: nat): nat {
    if GrowsInPlace(size, readIndex, writeIndex, len) then readIndex else CHEAP_PREPEND
  }

  function IntendedSize(size: nat, readIndex: nat, writeIndex: nat, len: nat): nat {
    if GrowsInPlace(size, readIndex, writeIndex, len) then Grown(size, writeIndex, len) else size
  }

  class Buffer {
    var data: array<byte>
    var readIndex: nat
    var writeIndex: nat

    constructor (initialSize: nat)
      ensures Valid() && Contents() == [] && fresh(data)
      ensures readIndex == CHEAP_PREPEND && data.Length == CHEAP_PREPEND + initialSize
    {
      data := new byte[CHEAP_PREPEND + initialSize];
      readIndex, writeIndex := CHEAP_PREPEND, CHEAP_PREPEND;
    }

    predicate Valid()
      reads this
    {
      readIndex <= writeIndex <= data.Length && CHEAP_PREPEND <= data.Length
    }

    /** The readable bytes. */
    ghost function Contents(): seq<byte>
      reads this, data
      requires Valid()
    {
      data[readIndex..writeIndex]
    }

    predicate CanAppend(len: nat)
      reads this
      requires Valid()
    {
      GrowsInPlace(data.Length, readIndex, writeIndex, len)
    }

    function Readable(): nat
      reads this
      requires Valid()
    {
      writeIndex - readIndex
    }

    function Writeable(): nat
      reads this
      requires Valid()
    {
      data.Length - writeIndex
    }

    /** Space runs out: enlarge, or move the readable bytes down to the front.  As written,
        the second index is reduced by the already reduced first one, so the move always
        fails its assertion; with the assertion compiled out it leaves other bytes readable. */
    method MakeSpace(len: nat) returns (ok: bool)
      requires Valid() && Writeable() < len
      modifies this, data
      ensures ok == old(CanAppend(len))
      ensures data == old(data) || fresh(data)
      ensures Valid() && writeIndex == old(writeIndex)
      ensures ok ==> Contents() == old(Contents()) && Writeable() >= len && readIndex == old(readIndex)
      ensures ok ==> data.Length == Grown(old(data.Length), writeIndex, len)
      ensures !ok ==> Contents() != old(Contents()) && readIndex == 0 && data == old(data)
    {
      if Writeable() + readIndex < len + CHEAP_PREPEND {
        var larger := new byte[writeIndex + len];
        forall i | 0 <= i < data.Length {
          larger[i] := data[i];
        }
        data := larger;
        ok := true;
      } else {
        var readable := Readable();
        forall i | 0 <= i < readable {
          data[CHEAP_PREPEND + i] := data[readIndex + i];
        }
        readIndex := readIndex - readIndex;
        writeIndex := writeIndex - readIndex;
        ok := writeIndex - readIndex == readable;
        assert |Contents()| != readable;
      }
    }

    method EnsureWritableBytes(len: nat) returns (ok: bool)
      requires Valid()
      modifies this, data
      ensures ok == old(CanAppend(len))
      ensures data == old(data) || fresh(data)
      ensures ok ==> Valid() && Contents() == old(Contents()) && Writeable() >= len && readIndex == old(readIndex)
      ensures ok ==> writeIndex == old(writeIndex) && data.Length == Grown(old(data.Length), writeIndex, len)
      ensures old(Writeable()) >= len ==> data == old(data)
    {
      ok := true;
      if Writeable() < len {
        ok := MakeSpace(len);
      }
    }

    /** The same with both indices reduced by the distance the bytes were moved: it never
        fails, and no readable byte is lost. */
    method MakeSpaceIntended(len: nat)
      requires Valid() && Writeable() < len
      modifies this, data
      ensures data == old(data) || fresh(data)
      ensures Valid() && Contents() == old(Contents()) && Writeable() >= len
      ensures readIndex == IntendedRead(old(data.Length), old(readIndex), old(writeIndex), len)
      ensures data.Length == IntendedSize(old(data.Length), old(readIndex), old(writeIndex), len)
    {
      if Writeable() + readIndex < len + CHEAP_PREPEND {
        var ok := MakeSpace(len);
      } else {
        ghost var before := Contents();
        var readable := Readable();
        assert forall i :: 0 <= i < readable ==> data[readIndex + i] == before[i];
        forall i | 0 <= i < readable {
          data[CHEAP_PREPEND + i] := data[readIndex + i];
        }
        assert forall i :: 0 <= i < readable ==> data[CHEAP_PREPEND + i] == before[i];
        readIndex := CHEAP_PREPEND;
        writeIndex := readIndex + readable;
        assert Contents() == before;
      }
    }

    /** append on a buffer that makes space so. */
    method AppendIntended(bytes: seq<byte>)
      requires Valid()
      modifies this, data
      ensures data == old(data) || fresh(data)
      ensures Valid() && Contents() == old(Contents()) + bytes
      ensures readIndex == IntendedRead(old(data.Length), old(readIndex), old(writeIndex), |bytes|)
      ensures data.Length == IntendedSize(old(data.Length), old(readIndex), old(writeIndex), |bytes|)
    {
      if Writeable() < |bytes| {
        MakeSpaceIntended(|bytes|);
      }
      Write(bytes);
    }

    /** memcpy behind the readable bytes, then hasWritten. */
    method Write(bytes: seq<byte>)
      requires Valid() && |bytes| <= Writeable()
      modifies this`writeIndex, data
      ensures Valid() && Contents() == old(Contents()) + bytes && writeIndex == old(writeIndex) + |bytes|
    {
      ghost var before := Contents();
      var at := writeIndex;
      forall i | 0 <= i < |bytes| {
        data[at + i] := bytes[i];
      }
      writeIndex := writeIndex + |bytes|;
      assert data[readIndex..at] == before;
      assert data[at..writeIndex] == bytes;
    }

    method Append(bytes: seq<byte>) returns (ok: bool)
      requires Valid()
      modifies this, data
      ensures ok == old(CanAppend(|bytes|))
      ensures data == old(data) || fresh(data)
      ensures ok ==> Valid() && Contents() == old(Contents()) + bytes && readIndex == old(readIndex)
      ensures ok ==> data.Length == Grown(old(data.Length), old(writeIndex), |bytes|)
    {
      ok := EnsureWritableBytes(|bytes|);
      if ok {
        Write(bytes);
      }
    }

    /** Put in front of the readable bytes, in the reserved space. */
    method Prepend(bytes: seq<byte>) returns (ok: bool)
      requires Valid()
      modifies this, data
      ensures ok == (old(readIndex) >= |bytes|) && data == old(data)
      ensures ok ==> Valid() && Contents() == bytes + old(Contents()) && writeIndex == old(writeIndex)
    {
      ok := readIndex >= |bytes|;
      if ok {
        ghost var before := Contents();
        var at := readIndex - |bytes|;
        forall i | 0 <= i < |bytes| {
          data[at + i] := bytes[i];
        }
        readIndex := at;
        assert data[at + |bytes|..writeIndex] == before;
        assert data[at..at + |bytes|] == bytes;
      }
    }

    method RetrieveAll()
      requires Valid()
      modifies this`readIndex, this`writeIndex
      ensures Valid() && Contents() == [] && readIndex == CHEAP_PREPEND
    {
      readIndex, writeIndex := CHEAP_PREPEND, CHEAP_PREPEND;
    }

    method Retrieve(len: nat) returns (ok: bool)
      requires Valid()
      modifies this`readIndex, this`writeIndex
      ensures ok == (len <= old(Readable())) && Valid()
      ensures ok ==> Contents() == old(Contents())[len..]
      ensures ok ==> readIndex == if len < old(Readable()) then old(readIndex) + len else CHEAP_PREPEND
    {
      ok := len <= Readable();
      if len < Readable() {
        readIndex := readIndex + len;
      } else {
        RetrieveAll();
      }
    }

    method RetrieveAsString(len: nat) returns (ok: bool, result: seq<byte>)
      requires Valid()
      modifies this`readIndex, this`writeIndex
      ensures ok == (len <= old(Readable())) && Valid()
      ensures ok ==> result == old(Contents())[..len] && Contents() == old(Contents())[len..]
      ensures ok ==> readIndex == if len < old(Readable()) then old(readIndex) + len else CHEAP_PREPEND
    {
      ok, result := false, [];
      if len <= Readable() {
        result := data[readIndex..readIndex + len];
        assert result == Contents()[..len];
        ok := Retrieve(len);
      }
    }

    method UnWrite(len: nat) returns (ok: bool)
      requires Valid()
      modifies this`writeIndex
      ensures ok == (len <= old(Readable())) && Valid()
      ensures ok ==> Contents() == old(Contents())[..old(Readable()) - len]
    {
      ok := len <= Readable();
      if ok {
        ghost var before := Contents();
        writeIndex := writeIndex - len;
        assert Contents() == before[..|before| - len];
      }
    }

    method Swap(rhs: Buffer)
      requires Valid() && rhs.Valid()
      modifies this, rhs
      ensures Valid() && rhs.Valid()
      ensures data == old(rhs.data) && rhs.data == old(data)
      ensures Contents() == old(rhs.Contents()) && rhs.Contents() == old(Contents())
      ensures readIndex == old(rhs.readIndex) && rhs.readIndex == old(readIndex)
    {
      data, rhs.data := rhs.data, data;
      readIndex, rhs.readIndex := rhs.readIndex, readIndex;
      writeIndex, rhs.writeIndex := rhs.writeIndex, writeIndex;
    }

    /** Copies into a fresh buffer with room for `reserve` more; a fresh buffer never moves. */
    method Shrink(reserve: nat) returns (ok: bool)
      requires Valid()
      modifies this
      ensures ok && Valid() && fresh(data)
      ensures Contents() == old(Contents()) && Writeable() >= reserve && readIndex == CHEAP_PREPEND
      ensures data.Length == Grown(CHEAP_PREPEND + INITIAL_SIZE, CHEAP_PREPEND, |Contents()| + reserve)
    {
      var other := new Buffer(INITIAL_SIZE);
      var bytes := data[readIndex..writeIndex];
      ok := other.EnsureWritableBytes(Readable() + reserve);
      var appended := other.Append(bytes);
      ok := ok && appended;
      Swap(other);
    }

    /** `arrived`: what readv delivers, at most the free space and the extra buffer; or an error. */
    method ReadFd(failed: bool, arrived: seq<byte>) returns (n: int, ok: bool)
      requires Valid() && |arrived| <= Writeable() + EXTRA_BUFFER
      modifies this, data
      ensures n == if failed then -1 else |arrived|
      ensures ok == (failed || |arrived| <= old(Writeable()) ||
                     old(readIndex) < |arrived| - old(Writeable()) + CHEAP_PREPEND)
      ensures data == old(data) || fresh(data)
      ensures ok ==> Valid() && Contents() == old(Contents()) + (if failed then [] else arrived)
      ensures ok ==> readIndex == old(readIndex)
      ensures ok ==> data.Length == Grown(old(data.Length), old(writeIndex), if failed then 0 else |arrived|)
    {
      ok := true;
      if failed {
        return -1, true;
      }
      n := |arrived|;
      var writeable := Writeable();
      if n <= writeable {
        Write(arrived);
      } else {
        // readv fills the free space, the rest arrives in the extra buffer
        Write(arrived[..writeable]);
        ok := Append(arrived[writeable..]);
        assert arrived == arrived[..writeable] + arrived[writeable..];
      }
    }

    // Big-endian integers of 1, 2, 4 or 8 bytes.

    method AppendInt(width: nat, x: int) returns (ok: bool)
      requires Valid() && InRange(width, x)
      modifies this, data
      ensures ok == old(CanAppend(width))
      ensures data == old(data) || fresh(data)
      ensures ok ==> Valid() && Contents() == old(Contents()) + Encode(width, x) && readIndex == old(readIndex)
      ensures ok ==> data.Length == Grown(old(data.Length), old(writeIndex), width)
    {
      ok := Append(Encode(width, x));
    }

    /** The peeks of 1, 2 and 4 bytes insist on one byte more than they read. */
    method PeekInt(width: nat) returns (ok: bool, x: int)
      requires Valid() && width in {1, 2, 4, 8}
      ensures ok == if width == 8 then Readable() >= width else Readable() > width
      ensures ok ==> x == Decode(Contents()[..width])
    {
      ok, x := if width == 8 then Readable() >= width else Readable() > width, 0;
      if ok {
        x := Decode(data[readIndex..readIndex + width]);
        assert data[readIndex..readIndex + width] == Contents()[..width];
      }
    }

    /** readInt64 peeks as readInt16 does. */
    method ReadInt(width: nat) returns (ok: bool, x: int)
      requires Valid() && width in {1, 2, 4, 8}
      modifies this`readIndex, this`writeIndex
      ensures Valid() && ok == if width == 8 then old(Readable()) >= width else old(Readable()) > width
      ensures ok ==> x == Decode(old(Contents())[..if width == 8 then 2 else width])
      ensures ok ==> Contents() == old(Contents())[width..]
      ensures ok ==> readIndex == if width < old(Readable()) then old(readIndex) + width else CHEAP_PREPEND
    {
      ok, x := PeekInt(if width == 8 then 2 else width);
      if ok {
        ok := Retrieve(width);
      }
    }
  }

  /** What compaction is meant to do: with both indices set back by the same distance the
      window holds the readable bytes; as written the window starts at 0 and ends where it
      ended before, which is right only when nothing was in front of it. */
  lemma CompactionIntended(data: seq<byte>, readIndex: nat, writeIndex: nat)
    requires CHEAP_PREPEND <= readIndex <= writeIndex <= |data|
    ensures var n := writeIndex - readIndex;
      var moved := data[..CHEAP_PREPEND] + data[readIndex..writeIndex] + data[CHEAP_PREPEND + n..];
      && |moved| == |data|
      && moved[CHEAP_PREPEND..CHEAP_PREPEND + n] == data[readIndex..writeIndex]
      && moved[0..writeIndex] != data[readIndex..writeIndex]
  {
    var n := writeIndex - readIndex;
    var moved := data[..CHEAP_PREPEND] + data[readIndex..writeIndex] + data[CHEAP_PREPEND + n..];
    assert |moved[0..writeIndex]| != |data[readIndex..writeIndex]|;
  }
}
