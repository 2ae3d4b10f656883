// The PXX2 frame writer of pulses/pxx2.h: a 64-byte transport buffer,
// the subtractive 16-bit checksum mixed into it, and the framing rules
// (sync byte, reserved LEN byte, checksum trailer) shared by every frame.

module Pxx2Frame {
  import opened Pxx2Types

  /** DataBuffer<uint8_t, 64>: capacity of the transport buffer. */
  const CAPACITY: nat := 64
  /** Frame start byte, never checksummed. */
  const SYNC: uint8 := 0x7E
  /** Value the checksum starts from for every frame. */
  const CRC_INIT: uint16 := 0xFFFF
  /** Largest payload a closed frame can carry: capacity minus the two
      head bytes and the two checksum bytes. */
  const MAX_PAYLOAD: nat := CAPACITY - 4

  datatype Option<T> = None | Some(value: T)

  // ---------------------------------------------------------------------
  // Byte-level specification

  /** The checksum after subtracting every byte of s, in order, from init
      (uint16_t arithmetic, so the subtraction wraps). */
  function CrcAfter(init: uint16, s: seq<uint8>): uint16
  {
    if s == [] then init else (CrcAfter(init, s[..|s| - 1]) - s[|s| - 1]) % 0x1_0000
  }

  /** The checksum of a frame whose checksummed bytes are payload. */
  function Checksum(payload: seq<uint8>): uint16
  {
    CrcAfter(CRC_INIT, payload)
  }

  /** crc is the checksum of payload. Stated for every sequence equal to
      payload, so that a proof which only hands a frame along never has to
      unfold the checksum; one that needs the value asserts it for the
      payload it has. */
  ghost predicate ChecksumIs(crc: uint16, payload: seq<uint8>)
  {
    forall p :: p == payload ==> crc == Checksum(p)
  }

  /** Subtracting one more byte extends the checksum by that byte. */
  lemma ChecksumSnoc(payload: seq<uint8>, b: uint8)
    ensures Checksum(payload + [b]) == (Checksum(payload) - b) % 0x1_0000
  {
    assert (payload + [b])[..|payload|] == payload;
  }

  /** Arithmetic sum of the bytes of s. */
  function ByteSum(s: seq<uint8>): int
  {
    if s == [] then 0 else ByteSum(s[..|s| - 1]) + s[|s| - 1]
  }

  /** The checksum trailer: high byte first. */
  function CrcBytes(crc: uint16): (r: seq<uint8>)
    ensures |r| == 2 && r[0] as int * 0x100 + r[1] == crc
  {
    [crc / 0x100, crc % 0x100]
  }

  /** A 32-bit word as four bytes, least significant first. */
  function LE32(w: uint32): (r: seq<uint8>)
    ensures |r| == 4
  {
    [w % 0x100, (w / 0x100) % 0x100, (w / 0x1_0000) % 0x100, (w / 0x100_0000) % 0x100]
  }

  /** Reassembles a little-endian 32-bit word. */
  function ReadLE32(b: seq<uint8>): uint32
    requires |b| == 4
  {
    b[0] as int + b[1] as int * 0x100 + b[2] as int * 0x1_0000 + b[3] as int * 0x100_0000
  }

  /** The bytes that leave the buffer for a given payload (everything
      between LEN and the checksum): nothing at all when the payload is
      empty, otherwise sync, LEN, payload and the checksum of the payload. */
  function ClosedFrame(payload: seq<uint8>): (f: seq<uint8>)
    requires |payload| <= MAX_PAYLOAD
    ensures |f| == if payload == [] then 0 else |payload| + 4
    ensures |f| <= CAPACITY
  {
    if payload == [] then []
    else [SYNC, |payload|] + payload + CrcBytes(Checksum(payload))
  }

  /** How a receiver reads a frame: sync, a non-zero LEN that matches the
      frame's size, and a checksum trailer that matches the bytes it covers. */
  function ParseFrame(f: seq<uint8>): (r: Option<seq<uint8>>)
    ensures r.Some? ==> 0 < |r.value| <= MAX_PAYLOAD && |f| == |r.value| + 4
  {
    if 4 < |f| <= CAPACITY && f[0] == SYNC && f[1] == |f| - 4
       && f[|f| - 2..] == CrcBytes(Checksum(f[2..|f| - 2]))
    then Some(f[2..|f| - 2])
    else None
  }

  /** What endFrame makes of an open frame holding bytes with running
      checksum crc. */
  function Close(bytes: seq<uint8>, crc: uint16): seq<uint8>
    requires 2 <= |bytes| <= CAPACITY - 2
  {
    if |bytes| == 2 then []
    else bytes[..1] + [|bytes| - 2] + bytes[2..] + CrcBytes(crc)
  }

  // ---------------------------------------------------------------------
  // Lemmas

  /** Checksumming s then t is checksumming s + t. */
  lemma {:induction false} CrcAfterConcat(c: uint16, s: seq<uint8>, t: seq<uint8>)
    ensures CrcAfter(c, s + t) == CrcAfter(CrcAfter(c, s), t)
    decreases |t|
  {
    if t == [] {
      assert s + t == s;
    } else {
      assert (s + t)[..|s + t| - 1] == s + t[..|t| - 1];
      CrcAfterConcat(c, s, t[..|t| - 1]);
    }
  }

  /** Reading back a written word gives the word. */
  lemma ReadLE32OfLE32(w: uint32)
    ensures ReadLE32(LE32(w)) == w
  {
    var b := LE32(w);
    assert w == b[0] + 0x100 * (w / 0x100);
    assert w / 0x100 == b[1] + 0x100 * (w / 0x1_0000);
    assert w / 0x1_0000 == b[2] + 0x100 * (w / 0x100_0000);
  }

  /** Writing a read word gives back the four bytes. */
  lemma LE32OfReadLE32(b: seq<uint8>)
    requires |b| == 4
    ensures LE32(ReadLE32(b)) == b
  {
    var w := ReadLE32(b);
    assert w / 0x100 == b[1] as int + b[2] as int * 0x100 + b[3] as int * 0x1_0000;
    assert w / 0x1_0000 == b[2] as int + b[3] as int * 0x100;
    assert w / 0x100_0000 == b[3] as int;
  }

  /** Reducing modulo 2^16 before a further subtraction changes nothing. */
  lemma ModSub(a: int, b: int)
    ensures (a % 0x1_0000 - b) % 0x1_0000 == (a - b) % 0x1_0000
  {
    var q := a / 0x1_0000;
    assert a == q * 0x1_0000 + a % 0x1_0000;
    assert a - b == (a % 0x1_0000 - b) + q * 0x1_0000;
  }

  /** The running checksum is the start value minus the byte sum, mod 2^16. */
  lemma {:induction false} CrcAfterIsSubtractedSum(c: uint16, s: seq<uint8>)
    ensures CrcAfter(c, s) == (c - ByteSum(s)) % 0x1_0000
    decreases |s|
  {
    if s != [] {
      var init := s[..|s| - 1];
      var b := s[|s| - 1];
      CrcAfterIsSubtractedSum(c, init);
      ModSub(c - ByteSum(init), b);
    }
  }

  /** The checksum of every closed frame: the last two bytes, read
      big-endian, equal 0xFFFF minus the sum of the bytes after LEN and
      before the trailer, modulo 2^16. Sync and LEN are not summed. */
  lemma ClosedFrameChecksum(payload: seq<uint8>)
    requires 0 < |payload| <= MAX_PAYLOAD
    ensures var f := ClosedFrame(payload);
      f[2..|f| - 2] == payload &&
      f[|f| - 2] as int * 0x100 + f[|f| - 1] == (0xFFFF - ByteSum(f[2..|f| - 2])) % 0x1_0000
  {
    var f := ClosedFrame(payload);
    assert f[2..|f| - 2] == payload;
    assert f[|f| - 2..] == CrcBytes(Checksum(payload));
    CrcAfterIsSubtractedSum(CRC_INIT, payload);
  }

  /** A receiver reads back exactly the payload of every non-empty frame. */
  lemma ParseClosedFrame(payload: seq<uint8>)
    requires 0 < |payload| <= MAX_PAYLOAD
    ensures ParseFrame(ClosedFrame(payload)) == Some(payload)
  {
    var f := ClosedFrame(payload);
    assert f[2..|f| - 2] == payload;
    assert f[|f| - 2..] == CrcBytes(Checksum(payload));
  }

  /** Conversely, every frame a receiver accepts is the closed frame of
      what it reads from it. */
  lemma ParsedFrameIsClosed(f: seq<uint8>)
    requires ParseFrame(f).Some?
    ensures ClosedFrame(ParseFrame(f).value) == f
  {
    var p := f[2..|f| - 2];
    assert f == [f[0], f[1]] + p + f[|f| - 2..];
  }

  /** endFrame turns an open frame [SYNC, 0] + payload, whose running
      checksum is that of the payload, into the closed frame. */
  lemma CloseOpenFrame(payload: seq<uint8>)
    requires |payload| <= MAX_PAYLOAD
    ensures Close([SYNC, 0] + payload, Checksum(payload)) == ClosedFrame(payload)
  {
    var b := [SYNC, 0] + payload;
    assert b[2..] == payload;
    assert b[..1] == [SYNC];
  }

  // ---------------------------------------------------------------------
  // The transport buffer and its checksum (Pxx2CrcMixin, Pxx2Transport and
  // the framing members of Pxx2Pulses), combined into one writer.

  class FrameWriter {
    /** DataBuffer::data */
    const data: array<uint8>
    /** ptr - data: how many bytes the frame holds so far. */
    var len: nat
    /** Pxx2CrcMixin::crc */
    var crc: uint16
    /** data[..len], the bytes written so far. */
    ghost var bytes: seq<uint8>

    ghost predicate Valid()
      reads this, data
    {
      data.Length == CAPACITY && len <= CAPACITY &&
      |bytes| == len && forall i {:trigger data[i]} :: 0 <= i < len ==> data[i] == bytes[i]
    }

    /** A frame is being built: the head is in place and crc is the
        checksum of every byte after it. */
    ghost predicate Open()
      reads this, data
    {
      Valid() && 2 <= len && ChecksumIs(crc, bytes[2..])
    }

    constructor ()
      ensures Valid() && fresh(data) && bytes == []
    {
      data := new uint8[CAPACITY](_ => 0);
      len := 0;
      crc := CRC_INIT;
      bytes := [];
    }

    /** Pxx2CrcMixin::initCrc */
    method InitCrc()
      modifies this`crc
      ensures crc == CRC_INIT
    {
      crc := CRC_INIT;
    }

    /** Pxx2CrcMixin::addToCrc: subtracts the byte, wrapping at 16 bits. */
    method AddToCrc(b: uint8)
      modifies this`crc
      ensures crc == (old(crc) - b) % 0x1_0000
    {
      crc := (crc - b) % 0x1_0000;
    }

    /** DataBuffer::initBuffer: rewinds the write pointer. */
    method InitBuffer()
      requires Valid()
      modifies this`len, this`bytes
      ensures Valid() && bytes == []
    {
      len := 0;
      bytes := [];
    }

    /** Pxx2Transport::addByteWithoutCrc. The source writes through the
        pointer unchecked; here the caller must leave room. */
    method AddByteWithoutCrc(b: uint8)
      requires Valid() && len < CAPACITY
      modifies this`len, this`bytes, data
      ensures Valid() && bytes == old(bytes) + [b]
    {
      data[len] := b;
      len := len + 1;
      bytes := bytes + [b];
    }

    /** Pxx2Transport::addByte: checksums the byte, then appends it. In an
        open frame the checksum stays that of the bytes after the head. */
    method AddByte(b: uint8)
      requires Valid() && len < CAPACITY
      modifies this`len, this`crc, this`bytes, data
      ensures Valid() && bytes == old(bytes) + [b] && crc == (old(crc) - b) % 0x1_0000
      ensures old(Open()) ==> Open()
    {
      ghost var wasOpen := Open();
      AddToCrc(b);
      AddByteWithoutCrc(b);
      if wasOpen {
        var p0 := old(bytes)[2..];
        assert old(crc) == Checksum(p0);
        ChecksumSnoc(p0, b);
        assert bytes[2..] == p0 + [b];
      }
    }

    /** Pxx2Transport::addWord: four checksummed bytes, little-endian. */
    method AddWord(w: uint32)
      requires Open() && len + 4 <= CAPACITY
      modifies this`len, this`crc, this`bytes, data
      ensures Open() && bytes == old(bytes) + LE32(w)
    {
      AddByte(w % 0x100);
      AddByte((w / 0x100) % 0x100);
      AddByte((w / 0x1_0000) % 0x100);
      AddByte((w / 0x100_0000) % 0x100);
    }

    /** Pxx2Pulses::addHead: the sync byte and a reserved LEN byte, neither
        checksummed. */
    method AddHead()
      requires Valid() && len + 2 <= CAPACITY
      modifies this`len, this`bytes, data
      ensures Valid() && bytes == old(bytes) + [SYNC, 0]
    {
      AddByteWithoutCrc(SYNC);
      AddByteWithoutCrc(0x00);
    }

    /** Pxx2Pulses::addFrameType: category then identifier, both checksummed. */
    method AddFrameType(typeC: uint8, typeId: uint8)
      requires Open() && len + 2 <= CAPACITY
      modifies this`len, this`crc, this`bytes, data
      ensures Open() && bytes == old(bytes) + [typeC, typeId]
    {
      AddByte(typeC);
      AddByte(typeId);
    }

    /** Pxx2Pulses::addCrc: the checksum trailer, high byte first, not
        itself checksummed. */
    method AddCrc()
      requires Valid() && len + 2 <= CAPACITY
      modifies this`len, this`bytes, data
      ensures Valid() && bytes == old(bytes) + CrcBytes(crc)
    {
      AddByteWithoutCrc(crc / 0x100);
      AddByteWithoutCrc(crc % 0x100);
    }

    /** Pxx2Pulses::initFrame: a fresh checksum and a buffer holding only
        the head, which opens a frame. */
    method InitFrame()
      requires Valid()
      modifies this`len, this`crc, this`bytes, data
      ensures Open() && bytes == [SYNC, 0] && crc == CRC_INIT
    {
      InitCrc();
      InitBuffer();
      AddHead();
    }

    /** Pxx2Pulses::endFrame: with no bytes past the head the buffer is
        emptied; otherwise LEN is patched to the byte count after the head
        and the checksum trailer is appended. */
    method EndFrame()
      requires Valid() && 2 <= len <= CAPACITY - 2
      modifies this`len, this`bytes, data
      ensures Valid() && bytes == Close(old(bytes), crc)
    {
      var size := len - 2;
      if size > 0 {
        data[1] := size;
        bytes := bytes[1 := size];
        assert bytes == old(bytes)[..1] + [size] + old(bytes)[2..];
        AddCrc();
      } else {
        InitBuffer();
      }
    }
  }
}
