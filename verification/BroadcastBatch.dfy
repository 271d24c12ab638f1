/**
 PollCopy, Advance and PollCopyBatch (common/shared_memory/broadcast_ring_buffer.cc) run by one reader while the
 producer takes no step: a batch does what as many single polls do.
 */
module BroadcastBatch {
  import opened Prelude
  import opened BroadcastFrame
  import opened BroadcastRing
  import S = BroadcastSafety

  const MAX_RETRIES: nat := 1000

  class Shared {
    const data: array<Byte>
    const slots: array<Slot>
    var prod: nat
    var commit: nat

    constructor (data: array<Byte>, slots: array<Slot>)
      ensures this.data == data && this.slots == slots && prod == 0 && commit == 0
    {
      this.data, this.slots := data, slots;
      prod, commit := 0, 0;
    }
  }

  class BroadcastReader {
    var cursor: nat
    var slot: int             // -1 when not registered
    var generation: nat

    constructor (start: nat)
      ensures cursor == start && slot == -1 && generation == 0
    {
      cursor, slot, generation := start, -1, 0;
    }
  }

  /** Where the reader stands after `n` of the pending frames. */
  function After(frames: seq<Frame>, n: nat, cursor: nat): nat
    requires n <= |frames|
  {
    if n == 0 then cursor else frames[n - 1].at + Required(|frames[n - 1].msg.payload|)
  }

  /** `frames` are the committed frames from the cursor on; they are intact unless the reader has been lapped. */
  ghost predicate Pending(ring: Ring, prod: nat, commit: nat, cursor: nat, frames: seq<Frame>) {
    && ring != [] && commit <= prod
    && (if frames == [] then cursor >= commit else After(frames, |frames|, cursor) == commit)
    && forall n :: 0 <= n < |frames| ==> PendingAt(ring, prod, cursor, frames, n)
  }

  ghost predicate PendingAt(ring: Ring, prod: nat, cursor: nat, frames: seq<Frame>, n: nat)
    requires ring != [] && n < |frames|
  {
    && frames[n].at == After(frames, n, cursor)
    && |frames[n].msg.payload| <= LONGEST && Required(|frames[n].msg.payload|) <= |ring|
    && (prod - cursor <= |ring| ==> Intact(ring, frames[n]))
  }

  /** What `n` frames leave in the caller's vector: their messages, then whatever longer contents it had. */
  function Filled(frames: seq<Frame>, n: nat, was: seq<Message>): seq<Message>
    requires n <= |frames|
  {
    S.Messages(frames, 0, n) + if n <= |was| then was[n..] else []
  }

  /** The first `n` elements are the messages of the frames; what was behind them stays. */
  lemma FilledIs(frames: seq<Frame>, n: nat, was: seq<Message>)
    requires n <= |frames|
    ensures |Filled(frames, n, was)| == if n <= |was| then |was| else n
    ensures forall i :: 0 <= i < n ==> Filled(frames, n, was)[i] == frames[i].msg
    ensures forall i :: n <= i < |was| ==> Filled(frames, n, was)[i] == was[i]
  {
  }

  lemma PendingFacts(ring: Ring, prod: nat, commit: nat, cursor: nat, frames: seq<Frame>, n: nat)
    requires Pending(ring, prod, commit, cursor, frames) && n < |frames|
    ensures cursor <= After(frames, n, cursor) < After(frames, n + 1, cursor) <= commit
    ensures TotalFrameSize(|frames[n].msg.payload|) == Required(|frames[n].msg.payload|)
    ensures |frames[n].msg.payload| <= |ring|
  {
    Grows(ring, prod, cursor, frames, 0, n, commit);
    Grows(ring, prod, cursor, frames, n + 1, |frames|, commit);
    assert PendingAt(ring, prod, cursor, frames, n);
    TotalExact(|frames[n].msg.payload|);
  }

  lemma {:induction false} Grows(ring: Ring, prod: nat, cursor: nat, frames: seq<Frame>, i: nat, j: nat, commit: nat)
    requires Pending(ring, prod, commit, cursor, frames) && i <= j <= |frames|
    ensures After(frames, i, cursor) <= After(frames, j, cursor)
    decreases j - i
  {
    if i < j {
      assert PendingAt(ring, prod, cursor, frames, i);
      Grows(ring, prod, cursor, frames, i + 1, j, commit);
    }
  }

  /** A protected reader of the concurrent ring is in this situation whenever the producer pauses. */
  lemma ProtectedPending(s: State, t: nat)
    requires S.Inv(s) && S.Protected(s, t)
    ensures s.readers[t].next <= |s.frames|
    ensures Pending(s.ring, s.prod, s.commit, s.readers[t].cursor, s.frames[s.readers[t].next..])
  {
    assert S.ReaderOk(s, t);
    var rd := s.readers[t];
    var frames := s.frames[rd.next..];
    S.AtMono(s, rd.next, |s.frames|);
    if frames != [] { assert S.FrameOk(s, |s.frames| - 1); }
    forall n | 0 <= n < |frames| ensures PendingAt(s.ring, s.prod, rd.cursor, frames, n) {
      var k := rd.next + n;
      assert S.FrameOk(s, k) && S.InWindow(s, k);
      S.AtMono(s, rd.next, k);
      if n > 0 { assert S.FrameOk(s, k - 1); }
    }
  }

  // ---------------------------------------------------------------- the three calls

  method PollCopy(sh: Shared, rd: BroadcastReader, ghost frames: seq<Frame>)
    returns (r: Option<Message>, st: Option<Status>)
    requires Pending(sh.data[..], sh.prod, sh.commit, rd.cursor, frames)
    ensures st == if frames == [] then Some(NotFound) else if sh.prod - rd.cursor > sh.data.Length then Some(Lapped)
            else None
    ensures st == None ==> frames != [] && r == Some(frames[0].msg)
  {
    r := None;
    var current := rd.cursor;
    if frames != [] { PendingFacts(sh.data[..], sh.prod, sh.commit, current, frames, 0); }
    if current >= sh.commit { return None, Some(NotFound); }
    assert PendingAt(sh.data[..], sh.prod, current, frames, 0);
    var ring := sh.data[..];
    var done := false;
    while !done
      invariant done ==> r == Some(frames[0].msg) && sh.prod - current <= sh.data.Length
      decreases !done
    {
      if sh.prod - current > sh.data.Length { return None, Some(Lapped); }
      var before := VersionAt(ring, current);
      if before % 2 == 0 {                              // odd: a store is under way, try again
        var length := LengthAt(ring, current);
        if length > sh.data.Length { return None, Some(DataLoss); }
        var msg := Message(KindAt(ring, current), TimeAt(ring, current), Get(ring, current + HEADER, length));
        var after := VersionAt(ring, current);
        if before == after { r, done := Some(msg), true; }
      }
    }
    st := None;
  }

  // What a call leaves of a reader and of the shared slots.
  datatype Trail = Trail(cursor: nat, slot: int, slots: seq<Slot>)

  ghost function Where(sh: Shared, rd: BroadcastReader): Trail
    reads rd`cursor, rd`slot, sh.slots
  {
    Trail(rd.cursor, rd.slot, sh.slots[..])
  }

  /** The reader moves on by `bytes`.  Its slot shows the new cursor if the generation is still the reader's; if it is
      not, no slot changes and the reader lets go of the one it had. */
  predicate Advanced(was: Trail, now: Trail, generation: nat, bytes: int)
    requires 0 <= was.slot ==> was.slot < |was.slots|
  {
    && now.cursor == was.cursor + bytes
    && (if was.slot < 0 then now.slot == was.slot && now.slots == was.slots
        else if was.slots[was.slot].gen == generation then
          now.slot == was.slot && now.slots == was.slots[was.slot := was.slots[was.slot].(cursor := now.cursor)]
        else now.slot == -1 && now.slots == was.slots)
  }

  /** Two moves are one move of their sum. */
  lemma AdvancedTwice(a: Trail, b: Trail, c: Trail, generation: nat, x: int, y: int)
    requires (0 <= a.slot ==> a.slot < |a.slots|) && Advanced(a, b, generation, x) && Advanced(b, c, generation, y)
    ensures Advanced(a, c, generation, x + y)
  {
  }

  method Advance(sh: Shared, rd: BroadcastReader, bytes: nat)
    requires 0 <= rd.slot ==> rd.slot < sh.slots.Length
    modifies rd`cursor, rd`slot, sh.slots
    ensures Advanced(old(Where(sh, rd)), Where(sh, rd), rd.generation, bytes)
  {
    rd.cursor := rd.cursor + bytes;
    if rd.slot >= 0 {
      if sh.slots[rd.slot].gen == rd.generation {
        sh.slots[rd.slot] := sh.slots[rd.slot].(cursor := rd.cursor);
      } else {
        rd.slot := -1;
      }
    }
  }

  method PollCopyBatch(sh: Shared, rd: BroadcastReader, max: nat, messages: seq<Message>, ghost frames: seq<Frame>)
    returns (n: nat, out: seq<Message>, st: Option<Status>)
    requires Pending(sh.data[..], sh.prod, sh.commit, rd.cursor, frames)
    requires 0 <= rd.slot ==> rd.slot < sh.slots.Length
    modifies rd`cursor, rd`slot, sh.slots
    ensures n == if sh.prod - old(rd.cursor) > sh.data.Length then 0 else if max <= |frames| then max else |frames|
    ensures st == if n > 0 then None
                  else if frames != [] && max > 0 then Some(Lapped) else Some(NotFound)
    ensures n <= |frames| && out == Filled(frames, n, messages) && |out| == if n <= |messages| then |messages| else n
    ensures forall i :: 0 <= i < |out| ==> out[i] == if i < n then frames[i].msg else messages[i]
    ensures Trails(old(Where(sh, rd)), Where(sh, rd), rd.generation, frames, n)
  {
    if frames != [] { PendingFacts(sh.data[..], sh.prod, sh.commit, rd.cursor, frames, 0); }
    assert Filled(frames, 0, messages) == messages;
    FilledIs(frames, 0, messages);
    if rd.cursor >= sh.commit { return 0, messages, Some(NotFound); }
    var total;
    n, out, total, st := CopyFrames(sh.data[..], sh.prod, sh.commit, rd.cursor, max, messages, frames);
    FilledIs(frames, n, messages);
    if n > 0 { Advance(sh, rd, total); }
  }

  /** The loop of a batch, up to the Advance at its end. */
  method CopyFrames(ring: Ring, prod: nat, commit: nat, start: nat, max: nat, messages: seq<Message>,
                    ghost frames: seq<Frame>)
    returns (n: nat, out: seq<Message>, total: nat, st: Option<Status>)
    requires Pending(ring, prod, commit, start, frames) && frames != []
    ensures n == if prod - start > |ring| then 0 else if max <= |frames| then max else |frames|
    ensures st == if n > 0 then None else if max > 0 then Some(Lapped) else Some(NotFound)
    ensures n <= |frames| && out == Filled(frames, n, messages) && start + total == After(frames, n, start)
  {
    n, out, total := 0, messages, 0;
    assert Filled(frames, 0, messages) == messages;
    var current := start;
    while n < max && current < commit
      invariant n <= |frames| && n <= max && current == After(frames, n, start) == start + total
      invariant out == Filled(frames, n, messages)
      invariant n > 0 ==> prod - start <= |ring|
      decreases max - n
    {
      if n == |frames| { assert false; }
      PendingFacts(ring, prod, commit, start, frames, n);
      assert PendingAt(ring, prod, start, frames, n);
      var msg, size, failed := CopyFrame(ring, prod, current, frames[n]);
      if failed.Some? {
        if n > 0 { break; }
        return 0, out, 0, failed;
      }
      if size == 0 { break; }
      AppendFilled(frames, n, messages, msg);
      out := if n < |out| then out[n := msg] else out + [msg];
      current, total, n := current + size, total + size, n + 1;
    }
    if n < |frames| { PendingFacts(ring, prod, commit, start, frames, n); }
    st := if n > 0 then None else Some(NotFound);
  }

  /** The retry loop of a batch: with nobody writing, the first try succeeds unless the reader has been lapped.
      A size of 0 says that the retries ran out. */
  method CopyFrame(ring: Ring, prod: nat, current: nat, ghost f: Frame)
    returns (msg: Message, size: nat, failed: Option<Status>)
    requires ring != [] && f.at == current && |f.msg.payload| <= |ring|
             && (prod - current <= |ring| ==> Intact(ring, f))
    ensures failed == if prod - current > |ring| then Some(Lapped) else None
    ensures failed == None ==> msg == f.msg && size == TotalFrameSize(|f.msg.payload|)
  {
    msg, size, failed := Message(0, 0, []), 0, None;
    var success, retries := false, 0;
    while !success
      invariant failed == None && (success ==> prod - current <= |ring|)
      invariant success ==> msg == f.msg && size == TotalFrameSize(|f.msg.payload|)
      decreases !success
    {
      if prod - current > |ring| { failed := Some(Lapped); return; }
      var before := VersionAt(ring, current);
      if before % 2 != 0 {
        retries := retries + 1;
        if retries > MAX_RETRIES { break; }
      } else {
        var length := LengthAt(ring, current);
        if length > |ring| { failed := Some(DataLoss); return; }
        msg := Message(KindAt(ring, current), TimeAt(ring, current), Get(ring, current + HEADER, length));
        var after := VersionAt(ring, current);
        if before == after { success, size := true, TotalFrameSize(LengthAt(ring, current)); }
        else { retries := retries + 1; }
      }
    }
  }

  lemma AppendFilled(frames: seq<Frame>, n: nat, was: seq<Message>, msg: Message)
    requires n < |frames| && msg == frames[n].msg
    ensures var out := Filled(frames, n, was);
            Filled(frames, n + 1, was) == if n < |out| then out[n := msg] else out + [msg]
  {
    assert S.Messages(frames, 0, n + 1) == S.Messages(frames, 0, n) + [msg];
  }

  /** PollCopy, and Advance past the message if there is one. */
  method PollNext(sh: Shared, rd: BroadcastReader, ghost frames: seq<Frame>) returns (r: Option<Message>)
    requires Pending(sh.data[..], sh.prod, sh.commit, rd.cursor, frames)
    requires 0 <= rd.slot ==> rd.slot < sh.slots.Length
    modifies rd`cursor, rd`slot, sh.slots
    ensures r == None <==> frames == [] || sh.prod - old(rd.cursor) > sh.data.Length
    ensures r.Some? ==> r.value == frames[0].msg
    ensures r.Some? ==> Pending(sh.data[..], sh.prod, sh.commit, rd.cursor, frames[1..])
                        && rd.cursor == After(frames, 1, old(rd.cursor)) && sh.prod - rd.cursor <= sh.data.Length
    ensures if r == None then Where(sh, rd) == old(Where(sh, rd))
            else Advanced(old(Where(sh, rd)), Where(sh, rd), rd.generation, rd.cursor - old(rd.cursor))
  {
    ghost var ring := sh.data[..];
    var st;
    r, st := PollCopy(sh, rd, frames);
    if st.Some? { return None; }
    StepPending(ring, sh.prod, sh.commit, rd.cursor, frames);
    Advance(sh, rd, TotalFrameSize(|r.value.payload|));
    assert sh.data[..] == ring;
  }

  /** What `n` polls leave, each with its Advance: the reader stands behind `n` frames. */
  ghost predicate Trails(start: Trail, now: Trail, generation: nat, frames: seq<Frame>, n: nat)
    requires 0 <= start.slot ==> start.slot < |start.slots|
  {
    && n <= |frames| && now.cursor == After(frames, n, start.cursor)
    && if n == 0 then now == start else Advanced(start, now, generation, now.cursor - start.cursor)
  }

  lemma TrailsOn(start: Trail, was: Trail, now: Trail, generation: nat, frames: seq<Frame>, n: nat)
    requires 0 <= start.slot ==> start.slot < |start.slots|
    requires Trails(start, was, generation, frames, n) && n < |frames|
    requires now.cursor == After(frames[n..], 1, was.cursor)
    requires Advanced(was, now, generation, now.cursor - was.cursor)
    ensures Trails(start, now, generation, frames, n + 1)
  {
    if n > 0 {
      AdvancedTwice(start, was, now, generation, was.cursor - start.cursor, now.cursor - was.cursor);
    }
  }

  /** Polling and advancing one message at a time, up to `max` of them: message by message, cursor, slot and
      published cursor end up as PollCopyBatch leaves them. */
  method PollOneByOne(sh: Shared, rd: BroadcastReader, max: nat, messages: seq<Message>, ghost frames: seq<Frame>)
    returns (n: nat, out: seq<Message>)
    requires Pending(sh.data[..], sh.prod, sh.commit, rd.cursor, frames)
    requires 0 <= rd.slot ==> rd.slot < sh.slots.Length
    modifies rd`cursor, rd`slot, sh.slots
    ensures n == if sh.prod - old(rd.cursor) > sh.data.Length then 0 else if max <= |frames| then max else |frames|
    ensures n <= |frames| && out == Filled(frames, n, messages)
    ensures Trails(old(Where(sh, rd)), Where(sh, rd), rd.generation, frames, n)
  {
    n, out := 0, messages;
    assert Filled(frames, 0, messages) == messages && frames[0..] == frames;
    ghost var start := Where(sh, rd);
    var more := true;
    while n < max && more
      invariant n <= max && Trails(start, Where(sh, rd), rd.generation, frames, n)
      invariant 0 <= rd.slot ==> rd.slot < sh.slots.Length
      invariant Pending(sh.data[..], sh.prod, sh.commit, rd.cursor, frames[n..])
      invariant out == Filled(frames, n, messages)
      invariant n > 0 ==> sh.prod - start.cursor <= sh.data.Length && sh.prod - rd.cursor <= sh.data.Length
      invariant !more ==> n == |frames| || sh.prod - rd.cursor > sh.data.Length
      decreases max - n, more
    {
      more, out := PollTurn(sh, rd, frames, start, n, messages, out);
      if more { n := n + 1; }
    }
  }

  /** One round of it. */
  method PollTurn(sh: Shared, rd: BroadcastReader, ghost frames: seq<Frame>, ghost start: Trail, n: nat,
                  ghost messages: seq<Message>, out: seq<Message>)
    returns (more: bool, next: seq<Message>)
    requires 0 <= start.slot ==> start.slot < |start.slots|
    requires Trails(start, Where(sh, rd), rd.generation, frames, n)
    requires 0 <= rd.slot ==> rd.slot < sh.slots.Length
    requires Pending(sh.data[..], sh.prod, sh.commit, rd.cursor, frames[n..])
    requires out == Filled(frames, n, messages)
    modifies rd`cursor, rd`slot, sh.slots
    ensures !more <==> n == |frames| || sh.prod - old(rd.cursor) > sh.data.Length
    ensures 0 <= rd.slot ==> rd.slot < sh.slots.Length
    ensures !more ==> next == out && Where(sh, rd) == old(Where(sh, rd))
    ensures more ==>
      && Trails(start, Where(sh, rd), rd.generation, frames, n + 1)
      && Pending(sh.data[..], sh.prod, sh.commit, rd.cursor, frames[n + 1..])
      && next == Filled(frames, n + 1, messages) && sh.prod - rd.cursor <= sh.data.Length
  {
    ghost var was := Where(sh, rd);
    next := out;
    var r := PollNext(sh, rd, frames[n..]);
    more := r.Some?;
    if more {
      TrailsOn(start, was, Where(sh, rd), rd.generation, frames, n);
      AppendFilled(frames, n, messages, r.value);
      next := if n < |out| then out[n := r.value] else out + [r.value];
      assert frames[n..][1..] == frames[n + 1..];
    }
  }

  /** After one frame the rest is pending, and a reader that was not lapped still is not. */
  lemma StepPending(ring: Ring, prod: nat, commit: nat, cursor: nat, frames: seq<Frame>)
    requires Pending(ring, prod, commit, cursor, frames) && frames != [] && prod - cursor <= |ring|
    ensures Pending(ring, prod, commit, After(frames, 1, cursor), frames[1..])
    ensures After(frames, 1, cursor) == cursor + TotalFrameSize(|frames[0].msg.payload|)
    ensures prod - After(frames, 1, cursor) <= |ring|
  {
    PendingFacts(ring, prod, commit, cursor, frames, 0);
    var rest, next := frames[1..], After(frames, 1, cursor);
    assert PendingAt(ring, prod, cursor, frames, 0);
    forall n | 0 <= n < |rest| ensures PendingAt(ring, prod, next, rest, n) {
      assert PendingAt(ring, prod, cursor, frames, n + 1);
    }
  }
}
