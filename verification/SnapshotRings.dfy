/** The two sides of a snapshot in place: the loops of Sv_BuildClientFrame, Sv_EmitEntities and Sv_WriteFrame
    (src/server/sv_entity.c) over the server's rings, and of Cl_ParseEntities and Cl_ParseFrame
    (src/client/cl_entity.c), which read old entities out of the very ring they write new ones into.  Each
    method is tied to the function of Snapshots that says what it is for. */
module SnapshotRings {
  import opened Sequences
  import opened MemBuf
  import opened NetMessage
  import opened EntityDelta
  import opened EntityList
  import PlayerDelta
  import opened Rings
  import opened Snapshots

  class FrameServer {
    var frameNum: nat
    const ring: array<EntityState>
    var next: nat
    const frames: array<SvFrame>
    var lastFrame: int
    const base: seq<EntityState>
    const maxClients: nat

    ghost predicate Valid()
      reads this, ring, frames
    {
      ServerShape(View())
    }

    ghost function View(): Server
      reads this, ring, frames
    {
      Server(frameNum, ring[..], next, frames[..], lastFrame, base, maxClients)
    }

    constructor (maxClients: nat, base: seq<EntityState>)
      requires maxClients >= 1 && |base| == MAX_EDICTS
      ensures Valid() && frameNum == next == 0 && lastFrame == -1
      ensures this.maxClients == maxClients && this.base == base
    {
      this.maxClients := maxClients;
      this.base := base;
      ring := new EntityState[maxClients * ENTITY_STATE_BACKUP](_ => NULL_STATE);
      frames := new SvFrame[PACKET_BACKUP](_ => SvFrame([], PlayerDelta.CLEAN, 0, 0));
      frameNum, next, lastFrame := 0, 0, -1;
    }

    /** The chosen entities go into the ring one by one. */
    method BuildFrame(area: seq<byte>, ps: PlayerDelta.PlayerState, entities: seq<EntityState>)
      requires Valid()
      modifies this`next, ring, frames
      ensures Valid() && View() == Snapshots.BuildFrame(old(View()), area, ps, entities)
    {
      ghost var ring0 := ring[..];
      var first := next;
      var i := 0;
      while i < |entities|
        invariant i <= |entities| && next == first + i
        invariant ring[..] == PushAll(ring0, first, entities[..i])
        invariant frames[..] == old(frames[..])
      {
        ring[Slot(next, ring.Length)] := entities[i];
        next := next + 1;
        PushLast(ring0, first, entities[..i], entities[i]);
        assert entities[..i] + [entities[i]] == entities[..i + 1];
        i := i + 1;
      }
      assert entities[..|entities|] == entities;
      frames[Slot(frameNum, PACKET_BACKUP)] := SvFrame(area, ps, |entities|, first);
    }

    function Entities(f: Option<SvFrame>): (list: seq<EntityState>)
      reads ring
      requires ring.Length > 0
    {
      match f
      case None => []
      case Some(f) => Window(ring[..], f.firstEntity, f.numEntities)
    }

    /** One record of the merge. */
    method EmitRecord(from: Option<SvFrame>, to: SvFrame, o: nat, n: nat, msg: MemBuf) returns (o': nat, n': nat)
      requires Valid() && msg.Valid() && msg.allowOverflow && 4 <= msg.data.Length
      requires o <= |Entities(from)| && n <= |Entities(Some(to))| && (o < |Entities(from)| || n < |Entities(Some(to))|)
      requires AllInRange(Entities(from)) && AllInRange(Entities(Some(to)))
      modifies msg, msg.data
      ensures msg.Valid() && msg.allowOverflow && msg.read == old(msg.read)
      ensures var (record, o1, n1) := NextRecord(base, Entities(from), Entities(Some(to)), maxClients, o, n);
        o' == o1 && n' == n1 && Wrote(old(msg.View()), msg.View(), record)
    {
      hide EncodeEntity, HeadBytes, Slot;
      ghost var olds, news := Entities(from), Entities(Some(to));
      var oldNum, newNum: u16 := NO_ENTITY, NO_ENTITY;
      var oldState, newState := NULL_STATE, NULL_STATE;
      if n < to.numEntities {
        newState := ring[Slot(to.firstEntity + n, ring.Length)];
        newNum := newState.number;
        assert newState == news[n] && InRange(news[n]);
      }
      if from.Some? && o < from.value.numEntities {
        oldState := ring[Slot(from.value.firstEntity + o, ring.Length)];
        oldNum := oldState.number;
        assert oldState == olds[o] && InRange(olds[o]);
      }
      if newNum == oldNum {
        WriteDeltaEntity(msg, oldState, newState, false, newNum <= maxClients);
        return o + 1, n + 1;
      }
      if newNum < oldNum {
        WriteDeltaEntity(msg, base[newNum], newState, true, true);
        return o, n + 1;
      }
      WriteHead(msg, oldNum, U_REMOVE);
      return o + 1, n;
    }

    method EmitEntities(from: Option<SvFrame>, to: SvFrame, msg: MemBuf)
      requires Valid() && msg.Valid() && msg.allowOverflow && 4 <= msg.data.Length
      requires AllInRange(Entities(from)) && AllInRange(Entities(Some(to)))
      modifies msg, msg.data
      ensures msg.Valid() && msg.allowOverflow && msg.read == old(msg.read)
      ensures Wrote(old(msg.View()), msg.View(), Emitted(base, Entities(from), Entities(Some(to)), maxClients, 0, 0))
    {
      hide Merging, NextRecord, Wrote, ShortBytes, Emitted, AllInRange;
      ghost var olds, news := Entities(from), Entities(Some(to));
      ghost var b0, done := msg.View(), [];
      var oldCount := if from.Some? then from.value.numEntities else 0;
      var o: nat, n: nat := 0, 0;
      MergeStarts(b0, base, olds, news, maxClients);
      while n < to.numEntities || o < oldCount
        invariant o <= oldCount && n <= to.numEntities
        invariant msg.Valid() && msg.allowOverflow && msg.read == old(msg.read)
        invariant Merging(b0, msg.View(), done, base, olds, news, maxClients, o, n)
        decreases oldCount - o + to.numEntities - n
      {
        ghost var b := msg.View();
        MergeGoesOn(b0, b, done, base, olds, news, maxClients, o, n);
        ghost var record := NextRecord(base, olds, news, maxClients, o, n).0;
        o, n := EmitRecord(from, to, o, n, msg);
        MergeTakes(b0, b, msg.View(), done, record, base, olds, news, maxClients, o, n);
        done := done + record;
      }
      ghost var b := msg.View();
      WriteShortTo(msg, 0);
      MergeEnds(b0, b, msg.View(), done, base, olds, news, maxClients);
    }

    /** The frame to delta from, if any, and its number. */
    method ChooseDelta() returns (delta: Option<SvFrame>, deltaNum: int)
      requires Valid()
      ensures deltaNum == DeltaNum(View()) && (delta.None? <==> deltaNum < 0)
      ensures Entities(delta) == DeltaEntities(View())
      ensures (if delta.None? then PlayerDelta.CLEAN else delta.value.ps) == DeltaPs(View())
    {
      hide Slot, Window;
      if lastFrame < 0 {
        return None, -1;
      }
      if frameNum - lastFrame >= PACKET_BACKUP - 3 {
        return None, -1;
      }
      return Some(frames[Slot(lastFrame, PACKET_BACKUP)]), lastFrame;
    }

    method WriteFrame(msg: MemBuf, suppressed: nat)
      requires Valid() && Sendable(View())
      requires msg.Valid() && msg.allowOverflow && 4 <= msg.data.Length
      requires |CurrentFrame(View()).area| <= msg.data.Length
      modifies msg, msg.data
      ensures msg.Valid() && msg.allowOverflow && msg.read == old(msg.read)
      ensures Wrote(old(msg.View()), msg.View(), Snapshots.WriteFrame(View(), suppressed))
    {
      hide Wrote, Emitted, LongBytes, ByteBytes, AllInRange, PlayerDelta.EncodePlayer, Slot, Window, DeltaNum;
      var frame := frames[Slot(frameNum, PACKET_BACKUP)];
      var delta, deltaNum := ChooseDelta();
      ghost var b0 := msg.View();
      WriteByteTo(msg, SV_CMD_FRAME);
      ghost var b1 := msg.View();
      WriteLongTo(msg, frameNum);
      ghost var b2 := msg.View();
      WriteLongTo(msg, deltaNum);
      ghost var b3 := msg.View();
      WriteByteTo(msg, suppressed);
      ghost var b4 := msg.View();
      WriteByteTo(msg, |frame.area|);
      ghost var b5 := msg.View();
      WriteArea(msg, frame.area);
      ghost var b6 := msg.View();
      var oldPs := if delta.None? then PlayerDelta.CLEAN else delta.value.ps;
      PlayerDelta.WritePlayerstate(msg, oldPs, frame.ps);
      ghost var b7 := msg.View();
      EmitEntities(delta, frame, msg);
      ghost var p7 := Emitted(base, Entities(delta), Entities(Some(frame)), maxClients, 0, 0);
      ghost var p6 := PlayerDelta.EncodePlayer(oldPs, frame.ps) + p7;
      ghost var p5 := frame.area + p6;
      ghost var p4 := ByteBytes(|frame.area|) + p5;
      ghost var p3 := ByteBytes(suppressed) + p4;
      ghost var p2 := LongBytes(deltaNum) + p3;
      ghost var p1 := LongBytes(frameNum) + p2;
      WroteTwice(b6, b7, msg.View(), PlayerDelta.EncodePlayer(oldPs, frame.ps), p7);
      WroteTwice(b5, b6, msg.View(), frame.area, p6);
      WroteTwice(b4, b5, msg.View(), ByteBytes(|frame.area|), p5);
      WroteTwice(b3, b4, msg.View(), ByteBytes(suppressed), p4);
      WroteTwice(b2, b3, msg.View(), LongBytes(deltaNum), p3);
      WroteTwice(b1, b2, msg.View(), LongBytes(frameNum), p2);
      WroteTwice(b0, b1, msg.View(), ByteBytes(SV_CMD_FRAME), p1);
    }
  }

  method WriteArea(msg: MemBuf, area: seq<byte>)
    requires msg.Valid() && msg.allowOverflow && |area| <= msg.data.Length
    modifies msg, msg.data
    ensures msg.Valid() && msg.allowOverflow && msg.read == old(msg.read)
    ensures Wrote(old(msg.View()), msg.View(), area)
  {
    msg.Write(area);
  }

  /** The merge has written `done` and stands at `o` and `n`. */
  ghost predicate Merging(b0: Buf, b: Buf, done: seq<byte>, base: seq<EntityState>, from: seq<EntityState>,
                          to: seq<EntityState>, maxClients: nat, o: nat, n: nat)
  {
    && |base| == MAX_EDICTS && AllInRange(from) && AllInRange(to) && o <= |from| && n <= |to|
    && Wrote(b0, b, done)
    && done + Emitted(base, from, to, maxClients, o, n) == Emitted(base, from, to, maxClients, 0, 0)
  }

  lemma MergeStarts(b0: Buf, base: seq<EntityState>, from: seq<EntityState>, to: seq<EntityState>, maxClients: nat)
    requires |base| == MAX_EDICTS && AllInRange(from) && AllInRange(to) && |b0.bytes| <= b0.cap
    ensures Merging(b0, b0, [], base, from, to, maxClients, 0, 0)
  {
    WroteNothing(b0);
  }

  lemma MergeGoesOn(b0: Buf, b: Buf, done: seq<byte>, base: seq<EntityState>, from: seq<EntityState>,
                    to: seq<EntityState>, maxClients: nat, o: nat, n: nat)
    requires Merging(b0, b, done, base, from, to, maxClients, o, n) && (o < |from| || n < |to|)
    ensures |base| == MAX_EDICTS && AllInRange(from) && AllInRange(to) && o <= |from| && n <= |to|
    ensures var (record, o', n') := NextRecord(base, from, to, maxClients, o, n);
      && o' <= |from| && n' <= |to| && |from| - o' + |to| - n' < |from| - o + |to| - n
      && done + (record + Emitted(base, from, to, maxClients, o', n')) == Emitted(base, from, to, maxClients, 0, 0)
      && Wrote(b0, b, done)
  {
    hide Emitted, NextRecord, Wrote, AllInRange;
    EmitsNext(base, from, to, maxClients, o, n);
  }

  lemma MergeTakes(b0: Buf, b: Buf, c: Buf, done: seq<byte>, record: seq<byte>, base: seq<EntityState>,
                   from: seq<EntityState>, to: seq<EntityState>, maxClients: nat, o': nat, n': nat)
    requires |base| == MAX_EDICTS && AllInRange(from) && AllInRange(to) && o' <= |from| && n' <= |to|
    requires Wrote(b0, b, done) && Wrote(b, c, record)
    requires done + (record + Emitted(base, from, to, maxClients, o', n')) == Emitted(base, from, to, maxClients, 0, 0)
    ensures Merging(b0, c, done + record, base, from, to, maxClients, o', n')
  {
    hide Emitted, Wrote, AllInRange;
    WroteOn(b0, b, c, done, record, Emitted(base, from, to, maxClients, o', n'));
  }

  lemma MergeEnds(b0: Buf, b: Buf, c: Buf, done: seq<byte>, base: seq<EntityState>,
                  from: seq<EntityState>, to: seq<EntityState>, maxClients: nat)
    requires Merging(b0, b, done, base, from, to, maxClients, |from|, |to|) && Wrote(b, c, ShortBytes(0))
    ensures Wrote(b0, c, Emitted(base, from, to, maxClients, 0, 0))
  {
    hide Wrote, AllInRange, ShortBytes;
    EmitsEnd(base, from, to, maxClients);
    WroteTwice(b0, b, c, done, ShortBytes(0));
  }

  lemma PushLast<T>(ring: seq<T>, at: nat, xs: seq<T>, x: T)
    requires |ring| > 0
    ensures PushAll(ring, at, xs + [x]) == Push(PushAll(ring, at, xs), at + |xs|, x)
  {
    assert (xs + [x])[..|xs|] == xs;
  }

  // ----- the client

  /** `n` more entities fit into the ring without touching an old one that is still to be read. */
  ghost predicate Room(entityState: nat, d: ClFrame, haveFrame: bool, n: nat)
  {
    && n <= ENTITY_STATE_BACKUP
    && (haveFrame ==> d.entityState + d.numEntities <= entityState
                      && entityState + n <= d.entityState + ENTITY_STATE_BACKUP)
  }

  lemma RoomForLess(entityState: nat, d: ClFrame, haveFrame: bool, n: nat, m: nat)
    requires m <= n
    ensures Room(entityState, d, haveFrame, n) ==> Room(entityState, d, haveFrame, m)
  {
  }

  /** The entity list of the frame whose area bits stand at `at`. */
  function ListAt(cl: Snapshots.Client, s: seq<byte>, at: nat, deltaNum: int, demo: bool): Parsed
    requires ClientShape(cl)
  {
    var n := if ByteAt(s, at) < 0 then 0 else ByteAt(s, at);
    var player := PlayerDelta.DecodePlayer(s, at + 1 + n, OldPs(cl, deltaNum), demo);
    Parse(s, Reader(player.1, 0, []), cl.base, OldEntities(cl, deltaNum), deltaNum > 0)
  }

  /** There is room for them. */
  ghost predicate RoomFor(cl: Snapshots.Client, s: seq<byte>, at: nat, deltaNum: int, demo: bool)
    requires ClientShape(cl)
  {
    var d := if deltaNum > 0 then cl.frames[Slot(deltaNum, PACKET_BACKUP)] else NO_FRAME;
    Room(cl.entityState, d, deltaNum > 0, |ListAt(cl, s, at, deltaNum, demo).entities|)
  }

  class FrameClient {
    const ring: array<EntityState>
    var entityState: nat
    var frame: ClFrame
    const frames: array<ClFrame>
    const base: seq<EntityState>

    ghost predicate Valid()
      reads this, ring, frames
    {
      ClientShape(View())
    }

    ghost function View(): Snapshots.Client
      reads this, ring, frames
    {
      Client.Client(ring[..], entityState, frame, frames[..], base)
    }

    constructor (base: seq<EntityState>)
      requires |base| == MAX_EDICTS
      ensures Valid() && this.base == base && entityState == 0 && frame == NO_FRAME
      ensures forall i :: 0 <= i < frames.Length ==> frames[i] == NO_FRAME
    {
      this.base := base;
      ring := new EntityState[ENTITY_STATE_BACKUP](_ => NULL_STATE);
      frames := new ClFrame[PACKET_BACKUP](_ => NO_FRAME);
      entityState, frame := 0, NO_FRAME;
    }

    /** Cl_ParseDeltaEntity: the next slot of the ring is filled from an old state and the message. */
    method ParseDeltaEntity(msg: MemBuf, from: EntityState, number: u16, bits: bv16)
      requires Valid() && msg.Valid()
      modifies this`entityState, ring, msg`read
      ensures Valid() && entityState == old(entityState) + 1
      ensures var r := DecodeEntity(msg.View().bytes, old(msg.read), from, number, bits);
        ring[..] == Push(old(ring[..]), old(entityState), r.0) && msg.read == r.1
    {
      hide DecodeEntity, Slot;
      var to := ReadDeltaEntity(msg, from, number, bits);
      ring[Slot(entityState, ring.Length)] := to;
      entityState := entityState + 1;
    }

    /** The number of the old entity at `o`, or the one no entity has. */
    method OldNumber(d: ClFrame, haveFrame: bool, o: nat) returns (number: u16, state: EntityState)
      requires Valid()
      ensures haveFrame && o < d.numEntities ==>
        state == ring[Slot(d.entityState + o, ring.Length)] && number == state.number
      ensures !(haveFrame && o < d.numEntities) ==> number == NO_ENTITY
    {
      hide Slot;
      if haveFrame && o < d.numEntities {
        state := ring[Slot(d.entityState + o, ring.Length)];
        number := state.number;
      } else {
        state := NULL_STATE;
        number := NO_ENTITY;
      }
    }

    /** Since the counter stood at `e0` and the ring held `ring0`, exactly `out` has been appended. */
    ghost predicate Appended(ring0: seq<EntityState>, e0: nat, out: seq<EntityState>)
      reads this, ring
    {
      |ring0| == ENTITY_STATE_BACKUP && ring[..] == PushAll(ring0, e0, out) && entityState == e0 + |out|
    }

    /** As long as there is room, the old entities read the same as before anything was appended. */
    lemma OldStillThere(ring0: seq<EntityState>, e0: nat, d: ClFrame, haveFrame: bool, o: nat, out: seq<EntityState>)
      requires Valid() && Appended(ring0, e0, out) && Room(e0, d, haveFrame, |out|) && haveFrame && o < d.numEntities
      ensures ring[Slot(d.entityState + o, ring.Length)] == Window(ring0, d.entityState, d.numEntities)[o]
    {
      hide Slot, PushAll;
      PushAllKeeps(ring0, d.entityState, d.numEntities, e0, out);
      assert Window(ring[..], d.entityState, d.numEntities)[o] == ring[..][Slot(d.entityState + o, |ring[..]|)];
    }

    /** Copies one old entity over, as it is but for its event. */
    method CarryOne(msg: MemBuf, old_: EntityState,
                    ghost ring0: seq<EntityState>, ghost e0: nat, ghost out0: seq<EntityState>)
      returns (ghost out: seq<EntityState>)
      requires Valid() && msg.Valid()
      modifies this`entityState, ring, msg`read
      ensures Valid() && msg.read == old(msg.read)
      ensures out == out0 + [Unchanged(msg.View().bytes, old(msg.read), old_)]
      ensures old(Appended(ring0, e0, out0)) ==> Appended(ring0, e0, out)
    {
      hide Slot, PushAll, DecodeFrom;
      ghost var s, at := msg.View().bytes, msg.read;
      out := out0 + [Unchanged(s, at, old_)];
      if Appended(ring0, e0, out0) { PushLast(ring0, e0, out0, Unchanged(s, at, old_)); }
      NothingRead(0, s, at, old_.(number := old_.number));
      ParseDeltaEntity(msg, old_, old_.number, 0);
    }

    /** The old entity at `o`, with what is known of it while there is room. */
    method LookAt(d: ClFrame, haveFrame: bool, o: nat, ghost ring0: seq<EntityState>, ghost e0: nat,
                  ghost from: seq<EntityState>, ghost out: seq<EntityState>) returns (number: u16, state: EntityState)
      requires Valid() && |ring0| == ENTITY_STATE_BACKUP
      requires from == if haveFrame then Window(ring0, d.entityState, d.numEntities) else []
      ensures haveFrame && o < d.numEntities ==> number == state.number
      ensures !(haveFrame && o < d.numEntities) ==> number == NO_ENTITY
      ensures Appended(ring0, e0, out) && Room(e0, d, haveFrame, |out|) ==>
        number == NumberAt(from, o) && (o < |from| ==> state == from[o])
    {
      hide Slot, Window, PushAll;
      number, state := OldNumber(d, haveFrame, o);
      if haveFrame && o < d.numEntities && Appended(ring0, e0, out) && Room(e0, d, haveFrame, |out|) {
        OldStillThere(ring0, e0, d, haveFrame, o, out);
      }
    }

    /** Copies old entities over while their numbers are below `number`. */
    method CarryBelow(msg: MemBuf, d: ClFrame, haveFrame: bool, o0: nat, number: u16, ghost ring0: seq<EntityState>,
                      ghost e0: nat, ghost from: seq<EntityState>, ghost out0: seq<EntityState>)
      returns (o: nat, ghost out: seq<EntityState>)
      requires Valid() && msg.Valid()
      requires |ring0| == ENTITY_STATE_BACKUP
      requires from == if haveFrame then Window(ring0, d.entityState, d.numEntities) else []
      modifies this`entityState, ring, msg`read
      ensures Valid() && msg.read == old(msg.read) && o0 <= o
      ensures var (o1, out1) := EntityList.CarryBelow(msg.View().bytes, old(msg.read), from, o0, number, out0);
        old(Appended(ring0, e0, out0)) && Room(e0, d, haveFrame, |out1|)
        ==> o == o1 && out == out1 && Appended(ring0, e0, out)
    {
      hide Slot, Window, PushAll, Unchanged, Appended;
      o, out := o0, out0;
      ghost var s, at := msg.View().bytes, msg.read;
      ghost var goal := EntityList.CarryBelow(s, at, from, o0, number, out0);
      ghost var fine := Appended(ring0, e0, out0) && Room(e0, d, haveFrame, |goal.1|);
      var oldNumber: u16, oldState: EntityState := LookAt(d, haveFrame, o, ring0, e0, from, out);
      while oldNumber < number
        invariant Valid() && msg.read == at && msg.View().bytes == s && o0 <= o
        invariant oldNumber < number ==> haveFrame && o < d.numEntities && oldNumber == oldState.number
        invariant fine ==> Appended(ring0, e0, out) && goal == EntityList.CarryBelow(s, at, from, o, number, out)
        invariant fine ==> oldNumber == NumberAt(from, o) && (o < |from| ==> oldState == from[o])
        decreases if haveFrame && o < d.numEntities then d.numEntities - o else 0
      {
        CarriedOn(s, at, from, o, number, out, oldState);
        out := CarryOne(msg, oldState, ring0, e0, out);
        o := o + 1;
        oldNumber, oldState := LookAt(d, haveFrame, o, ring0, e0, from, out);
      }
    }

    /** What a record does once its number and bits are known and the old entities below it are dealt with. */
    method TakeRecord(msg: MemBuf, d: ClFrame, haveFrame: bool, o: nat, number: u16, bits: bv16,
                      ghost ring0: seq<EntityState>, ghost e0: nat, ghost from: seq<EntityState>,
                      ghost out: seq<EntityState>)
      returns (e: Option<ParseError>, o': nat, ghost out': seq<EntityState>)
      requires Valid() && msg.Valid() && number < MAX_EDICTS && |ring0| == ENTITY_STATE_BACKUP
      requires from == if haveFrame then Window(ring0, d.entityState, d.numEntities) else []
      modifies this`entityState, ring, msg`read
      ensures Valid() && msg.read >= old(msg.read)
      ensures var t :=
        EntityList.TakeRecord(msg.View().bytes, old(msg.read), number, bits, o, out, base, from, haveFrame);
        && (old(Appended(ring0, e0, out)) && Room(e0, d, haveFrame, |out|) ==>
              && (e.None? <==> t.Goes?)
              && (t.Goes? ==> t.reader == Reader(msg.read, o', out') && Appended(ring0, e0, out'))
              && (t.Breaks? ==> e == Some(t.error) && t.out == out))
    {
      hide Slot, Window, PushAll, DecodeEntity;
      if Has(bits, U_REMOVE) {
        if !haveFrame {
          return Some(NoDeltaFrame), o, out;
        }
        return None, o + 1, out;
      }
      var oldNumber, oldState := LookAt(d, haveFrame, o, ring0, e0, from, out);
      ghost var s, at := msg.View().bytes, msg.read;
      var same := oldNumber == number;
      var known := if same then oldState else base[number];
      ghost var next := DecodeEntity(s, at, known, number, bits).0;
      if Appended(ring0, e0, out) { PushLast(ring0, e0, out, next); }
      ParseDeltaEntity(msg, known, number, bits);
      return None, if same then o + 1 else o, out + [next];
    }

    /** The old entities below a record, then the record. */
    method CarryAndTake(msg: MemBuf, d: ClFrame, haveFrame: bool, o: nat, number: u16, bits: bv16,
                        ghost ring0: seq<EntityState>, ghost e0: nat, ghost from: seq<EntityState>,
                        ghost out: seq<EntityState>)
      returns (e: Option<ParseError>, o': nat, ghost out': seq<EntityState>)
      requires Valid() && msg.Valid() && |ring0| == ENTITY_STATE_BACKUP && number < MAX_EDICTS
      requires from == if haveFrame then Window(ring0, d.entityState, d.numEntities) else []
      modifies this`entityState, ring, msg`read
      ensures Valid() && msg.read >= old(msg.read)
      ensures var t :=
        EntityList.CarryAndTake(msg.View().bytes, old(msg.read), number, bits, o, out, base, from, haveFrame);
        && !t.Ends?
        && (old(Appended(ring0, e0, out)) && Room(e0, d, haveFrame, |TurnOut(t, out)|) ==>
              && (t.Goes? <==> e.None?)
              && (t.Goes? ==> t.reader == Reader(msg.read, o', out') && Appended(ring0, e0, out'))
              && (t.Breaks? ==> e == Some(t.error)))
    {
      hide Slot, Window, PushAll, EntityList.CarryBelow, EntityList.TakeRecord, Appended, TurnOut, Room;
      ghost var s, at := msg.View().bytes, msg.read;
      ghost var goal := EntityList.CarryBelow(s, at, from, o, number, out);
      ghost var t := EntityList.TakeRecord(s, at, number, bits, goal.0, goal.1, base, from, haveFrame);
      TurnGrows(s, at, number, bits, goal.0, goal.1, base, from, haveFrame, out);
      RoomForLess(e0, d, haveFrame, |TurnOut(t, out)|, |goal.1|);
      ghost var mid;
      o', mid := CarryBelow(msg, d, haveFrame, o, number, ring0, e0, from, out);
      e, o', out' := TakeRecord(msg, d, haveFrame, o', number, bits, ring0, e0, from, mid);
    }

    /** A record, from behind its number. */
    method ReadRest(msg: MemBuf, d: ClFrame, haveFrame: bool, o: nat, number: u16, ghost at: nat,
                    ghost ring0: seq<EntityState>, ghost e0: nat, ghost from: seq<EntityState>,
                    ghost out: seq<EntityState>)
      returns (e: Option<ParseError>, o': nat, ghost out': seq<EntityState>)
      requires Valid() && msg.Valid() && |ring0| == ENTITY_STATE_BACKUP && number < MAX_EDICTS && msg.read == at + 2
      requires from == if haveFrame then Window(ring0, d.entityState, d.numEntities) else []
      modifies this`entityState, ring, msg`read
      ensures Valid() && at < msg.read
      ensures var t := RestOfRecord(msg.View().bytes, Reader(at, o, out), number, base, from, haveFrame);
        && !t.Ends?
        && (old(Appended(ring0, e0, out)) && Room(e0, d, haveFrame, |TurnOut(t, out)|) ==>
              && (t.Goes? <==> e.None?)
              && (t.Goes? ==> t.reader == Reader(msg.read, o', out') && Appended(ring0, e0, out'))
              && (t.Breaks? ==> e == Some(t.error)))
    {
      hide Slot, Window, PushAll, BitsAt, EntityList.CarryAndTake, Appended, TurnOut, Room;
      var bits := ReadBits(msg);
      e, o', out' := CarryAndTake(msg, d, haveFrame, o, number, bits, ring0, e0, from, out);
    }

    /** One turn of the reading loop.  `ends` says that the end of the list was met. */
    method ReadRecord(msg: MemBuf, d: ClFrame, haveFrame: bool, o: nat, ghost ring0: seq<EntityState>, ghost e0: nat,
                      ghost from: seq<EntityState>, ghost out: seq<EntityState>)
      returns (e: Option<ParseError>, ends: bool, o': nat, ghost out': seq<EntityState>)
      requires Valid() && msg.Valid() && |ring0| == ENTITY_STATE_BACKUP
      requires from == if haveFrame then Window(ring0, d.entityState, d.numEntities) else []
      modifies this`entityState, ring, msg`read
      ensures Valid()
      ensures e.None? && !ends ==> old(msg.read) < msg.read && old(msg.read) < msg.size
      ensures var t := EntityList.ReadRecord(msg.View().bytes, Reader(old(msg.read), o, out), base, from, haveFrame);
        old(Appended(ring0, e0, out)) && Room(e0, d, haveFrame, |TurnOut(t, out)|) ==>
          && (t.Goes? <==> e.None? && !ends) && (t.Ends? <==> e.None? && ends)
          && (t.Goes? ==> t.reader == Reader(msg.read, o', out') && Appended(ring0, e0, out'))
          && (t.Ends? ==> t.at == msg.read && o' == o && out' == out && Appended(ring0, e0, out))
          && (t.Breaks? ==> e == Some(t.error))
    {
      hide Slot, Window, PushAll, ShortAt, RestOfRecord, Room;
      ghost var at := msg.read;
      var c := ReadShort(msg);
      var number := U16(c);
      if number >= MAX_EDICTS {
        return Some(BadNumber), false, o, out;
      }
      if msg.read > msg.size {
        return Some(EndOfMessage), false, o, out;
      }
      if number == 0 {
        return None, true, o, out;
      }
      e, o', out' := ReadRest(msg, d, haveFrame, o, number, at, ring0, e0, from, out);
      ends := false;
    }

    /** Cl_ParseEntities.  As long as there is room for all that is read, the entities appended to the ring,
        the place where reading stops and the error are those of the list read against the old frame. */
    method ParseEntities(msg: MemBuf, d: ClFrame, haveFrame: bool) returns (e: Option<ParseError>, numEntities: nat)
      requires Valid() && msg.Valid()
      modifies this`entityState, ring, msg`read
      ensures Valid()
      ensures var from := if haveFrame then Window(old(ring[..]), d.entityState, d.numEntities) else [];
        var list := Parse(msg.View().bytes, Reader(old(msg.read), 0, []), base, from, haveFrame);
        Room(old(entityState), d, haveFrame, |list.entities|) ==>
          && (e.None? <==> list.Parsed?)
          && (list.Failed? ==> e == Some(list.error))
          && (list.Parsed? ==> msg.read == list.at && numEntities == |list.entities|
                               && ring[..] == PushAll(old(ring[..]), old(entityState), list.entities)
                               && entityState == old(entityState) + |list.entities|)
    {
      hide Slot, Window, PushAll, Parse, EntityList.ReadRecord, EntityList.CarryBelow;
      ghost var ring0, e0, s := ring[..], entityState, msg.View().bytes;
      ghost var from := if haveFrame then Window(ring0, d.entityState, d.numEntities) else [];
      ghost var list := Parse(s, Reader(msg.read, 0, []), base, from, haveFrame);
      ghost var fine := Room(e0, d, haveFrame, |list.entities|);
      var first := entityState;
      var o: nat := 0;
      ghost var out: seq<EntityState> := [];
      NothingAppended(ring0, e0);
      var ends := false;
      while !ends
        invariant Valid() && msg.Valid() && msg.View().bytes == s
        invariant fine ==> Appended(ring0, e0, out)
        invariant fine && !ends ==> Parse(s, Reader(msg.read, o, out), base, from, haveFrame) == list
        invariant fine && ends ==>
          list == Parsed(EntityList.CarryBelow(s, msg.read, from, o, NO_ENTITY, out).1, msg.read)
        decreases !ends, if msg.read < msg.size then msg.size - msg.read else 0
      {
        ParseTurns(s, Reader(msg.read, o, out), base, from, haveFrame);
        e, ends, o, out := ReadRecord(msg, d, haveFrame, o, ring0, e0, from, out);
        if e.Some? {
          return e, 0;
        }
      }
      o, out := CarryBelow(msg, d, haveFrame, o, NO_ENTITY, ring0, e0, from, out);
      return None, if entityState >= first then entityState - first else 0;
    }

    method ReadArea(msg: MemBuf, n: nat) returns (area: seq<byte>)
      requires msg.Valid()
      modifies msg`read
      ensures area == AreaAt(msg.View().bytes, old(msg.read), n) && msg.read == old(msg.read) + n
    {
      hide ByteAt;
      area := [];
      var i := 0;
      while i < n
        invariant i <= n && msg.read == old(msg.read) + i && area == AreaAt(msg.View().bytes, old(msg.read), i)
      {
        var c := ReadByte(msg);
        area := area + [U8(c)];
        i := i + 1;
      }
    }

    /** The frame a delta is based on, unless it is gone. */
    method CheckDelta(deltaNum: int) returns (e: Option<FrameError>, d: ClFrame)
      requires Valid()
      ensures e == match Snapshots.CheckDelta(View(), deltaNum) case Fine => None case Complains(error) => Some(error)
      ensures d == if deltaNum > 0 then frames[Slot(deltaNum, PACKET_BACKUP)] else NO_FRAME
      ensures (if deltaNum > 0 then d.ps else PlayerDelta.CLEAN) == OldPs(View(), deltaNum)
    {
      hide Slot;
      e, d := None, NO_FRAME;
      if deltaNum > 0 {
        d := frames[Slot(deltaNum, PACKET_BACKUP)];
        if !d.valid {
          e := Some(InvalidDelta);
        } else if d.frameNum != deltaNum {
          e := Some(DeltaTooOld);
        } else if entityState - d.entityState > ENTITY_STATE_BACKUP - PACKET_BACKUP {
          e := Some(DeltaEntitiesTooOld);
        }
      }
    }

    /** Area bits, player state and entities; then the new frame is put away. */
    method ParseBody(msg: MemBuf, num: int, deltaNum: int, d: ClFrame, demo: bool) returns (e: Option<FrameError>)
      requires Valid() && msg.Valid()
      requires d == if deltaNum > 0 then frames[Slot(deltaNum, PACKET_BACKUP)] else NO_FRAME
      modifies this, ring, frames, msg`read
      ensures Valid()
      ensures var received := Snapshots.ParseBody(old(View()), msg.View().bytes, old(msg.read), num, deltaNum, demo);
        RoomFor(old(View()), msg.View().bytes, old(msg.read), deltaNum, demo) ==>
          && (received.Accepted? ==> e == None && View() == received.client && msg.read == received.at)
          && (received.Rejected? ==> e == Some(received.error))
    {
      hide Slot, Window, PushAll, Parse, PlayerDelta.DecodePlayer, ByteAt, AreaAt, Room;
      var c := ReadByte(msg);
      var n := if c < 0 then 0 else c;
      var area := ReadArea(msg, n);
      var ps := PlayerDelta.ParsePlayerstate(msg, if deltaNum > 0 then d.ps else PlayerDelta.CLEAN, demo);
      var first := entityState;
      var failed, numEntities := ParseEntities(msg, d, deltaNum > 0);
      if failed.Some? {
        return Some(BadList(failed.value));
      }
      frame := ClFrame(true, num, deltaNum, area, ps, numEntities, first);
      frames[Slot(num, PACKET_BACKUP)] := frame;
      e := None;
    }

    /** Cl_ParseFrame, from behind the command byte.  As long as there is room for the entities of the frame,
        the client in place becomes what reading against the frame as it was makes of it. */
    method ParseFrame(msg: MemBuf, demo: bool) returns (e: Option<FrameError>)
      requires Valid() && msg.Valid()
      modifies this, ring, frames, msg`read
      ensures Valid()
      ensures var s, at := msg.View().bytes, old(msg.read);
        var received := Snapshots.ParseFrame(old(View()), s, at, demo);
        RoomFor(old(View()), s, at + 9, LongAt(s, at + 4), demo) ==>
          && (received.Accepted? ==> e == None && View() == received.client && msg.read == received.at)
          && (received.Rejected? ==> e == Some(received.error))
    {
      hide Slot, LongAt, ByteAt, Snapshots.ParseBody, Snapshots.CheckDelta, RoomFor;
      var num := ReadLong(msg);
      var deltaNum := ReadLong(msg);
      var suppressed := ReadByte(msg);
      var d;
      e, d := CheckDelta(deltaNum);
      if e.None? {
        e := ParseBody(msg, num, deltaNum, d, demo);
      }
    }

    lemma NothingAppended(ring0: seq<EntityState>, e0: nat)
      requires Valid() && ring0 == ring[..] && e0 == entityState
      ensures Appended(ring0, e0, [])
    {
    }
  }

  /** What has been read when a turn is over. */
  function TurnOut(t: Turn, out: seq<EntityState>): seq<EntityState>
  {
    match t
    case Goes(r) => r.out
    case Ends(_) => out
    case Breaks(_, out') => out'
  }

  lemma TurnGrows(s: seq<byte>, at: nat, number: u16, bits: bv16, o: nat, out: seq<EntityState>,
                  base: seq<EntityState>, from: seq<EntityState>, haveFrame: bool, out0: seq<EntityState>)
    requires |base| == MAX_EDICTS && number < MAX_EDICTS
    ensures var t := EntityList.TakeRecord(s, at, number, bits, o, out, base, from, haveFrame);
      !t.Ends? && |out| <= |TurnOut(t, out0)|
  {
    hide DecodeEntity;
  }

  /** How a whole reading hangs on its first turn. */
  lemma ParseTurns(s: seq<byte>, r: Reader, base: seq<EntityState>, from: seq<EntityState>, haveFrame: bool)
    requires |base| == MAX_EDICTS
    ensures var t, list := EntityList.ReadRecord(s, r, base, from, haveFrame), Parse(s, r, base, from, haveFrame);
      && |TurnOut(t, r.out)| <= |list.entities|
      && (t.Goes? ==> list == Parse(s, t.reader, base, from, haveFrame))
      && (t.Ends? ==> list == Parsed(EntityList.CarryBelow(s, t.at, from, r.o, NO_ENTITY, r.out).1, t.at))
      && (t.Breaks? ==> list == Failed(t.error, t.out))
  {
    hide EntityList.ReadRecord;
    ParseGrows(s, r, base, from, haveFrame);
    var t := EntityList.ReadRecord(s, r, base, from, haveFrame);
    if t.Goes? { ParseGrows(s, t.reader, base, from, haveFrame); }
  }

  lemma CarriedOn(s: seq<byte>, at: nat, from: seq<EntityState>, o: nat, number: u16, out: seq<EntityState>,
                  e: EntityState)
    ensures o < |from| && e == from[o] && e.number < number ==>
      EntityList.CarryBelow(s, at, from, o, number, out)
      == EntityList.CarryBelow(s, at, from, o + 1, number, out + [Unchanged(s, at, e)])
  {
    hide DecodeEntity;
  }
}
