/**
 Frames of the broadcast ring (common/shared_memory/broadcast_ring_buffer.h): 32-bit size arithmetic, little-endian
 header fields, and a byte ring addressed modulo its capacity, as the double mapping of
 common/shared_memory/memory_map.cc makes it.
 */
module BroadcastFrame {
  import opened Modular

  const HEADER: nat := 24             // version @0, length @4, type @8, timestamp @16
  const U32: nat := 0x1_0000_0000

  type Byte = b: nat | b < 256

  // ---------------------------------------------------------------- sizes

  /** (length + 7) & ~7 in 32 bits. */
  function AlignedPayloadSize(length: nat): nat {
    var padded := (length + 7) % U32;
    padded - padded % 8
  }

  function TotalFrameSize(length: nat): nat { (HEADER + AlignedPayloadSize(length)) % U32 }

  /** The padded payload holds the payload, with fewer than eight bytes to spare, exactly up to 2^32 - 8 bytes. */
  lemma AlignedHolds(length: nat)
    requires length < U32
    ensures AlignedPayloadSize(length) % 8 == 0
    ensures length <= AlignedPayloadSize(length) < length + 8 <==> length <= U32 - 8
  {
    if length + 7 >= U32 { ModIs(length + 7, U32, 1, length + 7 - U32); }
  }

  /** A reader that skips TotalFrameSize() bytes lands behind what Reserve claimed exactly up to 2^32 - 32 bytes. */
  lemma TotalExact(length: nat)
    requires length < U32
    ensures TotalFrameSize(length) == HEADER + AlignedPayloadSize(length) && length <= AlignedPayloadSize(length)
            <==> length <= U32 - 32
  {
    AlignedHolds(length);
  }

  /** The longest payload whose frame size does not wrap around. */
  const LONGEST: nat := U32 - 32

  // ---------------------------------------------------------------- little-endian fields

  function Pow256(n: nat): nat { if n == 0 then 1 else 256 * Pow256(n - 1) }

  function Encoded(v: nat, n: nat): (bs: seq<Byte>)
    ensures |bs| == n
  {
    if n == 0 then [] else [v % 256] + Encoded(v / 256, n - 1)
  }

  function Decoded(bs: seq<Byte>): nat { if bs == [] then 0 else bs[0] + 256 * Decoded(bs[1..]) }

  lemma {:induction false} DecodeEncode(v: nat, n: nat)
    requires v < Pow256(n)
    ensures Decoded(Encoded(v, n)) == v
  {
    if n > 0 {
      DecodeEncode(v / 256, n - 1);
      assert Encoded(v, n)[1..] == Encoded(v / 256, n - 1);
    }
  }

  // ---------------------------------------------------------------- the byte ring

  type Ring = seq<Byte>

  function Spot(ring: Ring, at: nat): (i: nat)
    requires ring != []
    ensures i < |ring|
  {
    at % |ring|
  }

  /** `n` bytes from cursor `at` on. */
  function Get(ring: Ring, at: nat, n: nat): (bs: seq<Byte>)
    requires ring != []
    ensures |bs| == n
  {
    seq(n, i requires 0 <= i < n => ring[Spot(ring, at + i)])
  }

  function Put(ring: Ring, at: nat, bs: seq<Byte>): (r: Ring)
    requires ring != []
    ensures |r| == |ring|
    decreases |bs|
  {
    if bs == [] then ring else Put(ring[Spot(ring, at) := bs[0]], at + 1, bs[1..])
  }

  /** Bytes stored at cursors [at, at + |bs|) leave a cursor alone that they do not wrap onto. */
  lemma {:induction false} PutElsewhere(ring: Ring, at: nat, bs: seq<Byte>, x: nat)
    requires ring != []
    requires at + |bs| <= x < at + |ring| || at + |bs| - |ring| <= x < at
    ensures Put(ring, at, bs)[Spot(ring, x)] == ring[Spot(ring, x)]
    decreases |bs|
  {
    if bs != [] {
      if x < at { SameResidue(x, at, |ring|); } else { SameResidue(at, x, |ring|); }
      PutElsewhere(ring[Spot(ring, at) := bs[0]], at + 1, bs[1..], x);
    }
  }

  /** What was stored is read back. */
  lemma {:induction false} PutGet(ring: Ring, at: nat, bs: seq<Byte>)
    requires ring != [] && |bs| <= |ring|
    ensures Get(Put(ring, at, bs), at, |bs|) == bs
    decreases |bs|
  {
    if bs != [] {
      var rest := ring[Spot(ring, at) := bs[0]];
      PutGet(rest, at + 1, bs[1..]);
      PutElsewhere(rest, at + 1, bs[1..], at);
      var done := Put(rest, at + 1, bs[1..]);
      var got, tail := Get(done, at, |bs|), Get(done, at + 1, |bs| - 1);
      forall i | 0 <= i < |bs| ensures got[i] == bs[i] {
        assert got[i] == done[Spot(done, at + i)];
        if i == 0 {
          assert done[Spot(done, at)] == rest[Spot(rest, at)] == bs[0];
        } else {
          assert tail[i - 1] == done[Spot(done, at + 1 + (i - 1))] && at + i == at + 1 + (i - 1);
          assert tail[i - 1] == bs[1..][i - 1];
        }
      }
    }
  }

  /** Reading beside what is stored, within one capacity, gives what was there. */
  lemma PutKeeps(ring: Ring, at: nat, bs: seq<Byte>, from: nat, n: nat)
    requires ring != []
    requires (from + n <= at && at + |bs| <= from + |ring|) || (at + |bs| <= from && from + n <= at + |ring|)
    ensures Get(Put(ring, at, bs), from, n) == Get(ring, from, n)
  {
    var r := Put(ring, at, bs);
    var now, was := Get(r, from, n), Get(ring, from, n);
    forall i | 0 <= i < n ensures now[i] == was[i] {
      PutElsewhere(ring, at, bs, from + i);
      assert now[i] == r[Spot(r, from + i)] && was[i] == ring[Spot(ring, from + i)];
    }
  }

  // ---------------------------------------------------------------- messages

  datatype Message = Message(kind: nat, time: nat, payload: seq<Byte>)

  // A message and the cursor its frame starts at.
  datatype Frame = Frame(at: nat, msg: Message)

  /** Bytes claimed for a payload of `size` bytes. */
  function Required(size: nat): nat { HEADER + AlignedPayloadSize(size) }

  /** Header fields and payload of the frame at `at`, as they sit in the ring. */
  function LengthAt(ring: Ring, at: nat): nat requires ring != [] { Decoded(Get(ring, at + 4, 4)) }
  function KindAt(ring: Ring, at: nat): nat requires ring != [] { Decoded(Get(ring, at + 8, 4)) }
  function TimeAt(ring: Ring, at: nat): nat requires ring != [] { Decoded(Get(ring, at + 16, 8)) }
  function VersionAt(ring: Ring, at: nat): nat requires ring != [] { Decoded(Get(ring, at, 4)) }

  /** The frame is in the ring as it was committed. */
  ghost predicate Intact(ring: Ring, f: Frame)
    requires ring != []
  {
    && VersionAt(ring, f.at) % 2 == 0
    && LengthAt(ring, f.at) == |f.msg.payload| && KindAt(ring, f.at) == f.msg.kind && TimeAt(ring, f.at) == f.msg.time
    && Get(ring, f.at + HEADER, |f.msg.payload|) == f.msg.payload
  }

  /** Stores into a region that starts behind a frame and ends within one capacity of its start spare the frame. */
  lemma IntactKept(ring: Ring, f: Frame, at: nat, bs: seq<Byte>)
    requires ring != [] && Intact(ring, f) && f.at + HEADER + |f.msg.payload| <= at && at + |bs| <= f.at + |ring|
    ensures Intact(Put(ring, at, bs), f) && VersionAt(Put(ring, at, bs), f.at) == VersionAt(ring, f.at)
  {
    PutKeeps(ring, at, bs, f.at, 4);
    PutKeeps(ring, at, bs, f.at + 4, 4);
    PutKeeps(ring, at, bs, f.at + 8, 4);
    PutKeeps(ring, at, bs, f.at + 16, 8);
    PutKeeps(ring, at, bs, f.at + HEADER, |f.msg.payload|);
  }
}
