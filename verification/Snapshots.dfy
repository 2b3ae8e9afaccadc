/** Snapshot frames on both sides as values: Sv_BuildClientFrame's bookkeeping and Sv_WriteFrame of
    src/server/sv_entity.c, Cl_ParseFrame of src/client/cl_entity.c.  Each side keeps the last frames in a
    ring of frames and the entities of those frames in a ring of entity states. */
module Snapshots {
  import opened MemBuf
  import opened NetMessage
  import opened EntityDelta
  import opened EntityList
  import opened PlayerDelta
  import opened Rings

  const PACKET_BACKUP: nat := 32
  const MAX_PACKET_ENTITIES: nat := 64
  const ENTITY_STATE_BACKUP: nat := PACKET_BACKUP * MAX_PACKET_ENTITIES
  const SV_CMD_FRAME: byte := 6

  // ----- the server's side

  datatype SvFrame = SvFrame(area: seq<byte>, ps: PlayerState, numEntities: nat, firstEntity: nat)

  /** What the server keeps for one client, and the ring of entity states it shares among all of them. */
  datatype Server = Server(
    frameNum: nat,
    ring: seq<EntityState>,
    next: nat,
    frames: seq<SvFrame>,
    lastFrame: int,
    base: seq<EntityState>,
    maxClients: nat)

  ghost predicate ServerShape(sv: Server)
  {
    && sv.maxClients >= 1
    && 0 < |sv.ring| == sv.maxClients * ENTITY_STATE_BACKUP
    && |sv.frames| == PACKET_BACKUP
    && |sv.base| == MAX_EDICTS
  }

  function EntitiesOf(sv: Server, f: SvFrame): seq<EntityState>
    requires |sv.ring| > 0
  {
    Window(sv.ring, f.firstEntity, f.numEntities)
  }

  function CurrentFrame(sv: Server): SvFrame
    requires |sv.frames| == PACKET_BACKUP
  {
    sv.frames[Slot(sv.frameNum, PACKET_BACKUP)]
  }

  /** Copies the chosen entities into the ring and notes the frame. */
  function BuildFrame(sv: Server, area: seq<byte>, ps: PlayerState, entities: seq<EntityState>): Server
    requires |sv.ring| > 0 && |sv.frames| == PACKET_BACKUP
  {
    sv.(ring := PushAll(sv.ring, sv.next, entities),
        next := sv.next + |entities|,
        frames := sv.frames[Slot(sv.frameNum, PACKET_BACKUP) := SvFrame(area, ps, |entities|, sv.next)])
  }

  /** The frame to delta from, or -1 when the client asks for none or has been silent for too long. */
  function DeltaNum(sv: Server): int
  {
    if sv.lastFrame < 0 then -1
    else if sv.frameNum - sv.lastFrame >= PACKET_BACKUP - 3 then -1
    else sv.lastFrame
  }

  /** The bytes of a frame, given the contents of the frame and of the one it is a delta from. */
  function FrameBytes(num: nat, deltaNum: int, suppressed: nat, area: seq<byte>, oldPs: PlayerState, ps: PlayerState,
                      base: seq<EntityState>, from: seq<EntityState>, to: seq<EntityState>, maxClients: nat): seq<byte>
    requires |base| == MAX_EDICTS
    requires AllInRange(from) && AllInRange(to)
  {
    ByteBytes(SV_CMD_FRAME) + (LongBytes(num) + (LongBytes(deltaNum) + (ByteBytes(suppressed) + (ByteBytes(|area|)
      + (area + (EncodePlayer(oldPs, ps) + Emitted(base, from, to, maxClients, 0, 0)))))))
  }

  function DeltaPs(sv: Server): PlayerState
    requires |sv.frames| == PACKET_BACKUP
  {
    if DeltaNum(sv) < 0 then CLEAN else sv.frames[Slot(DeltaNum(sv), PACKET_BACKUP)].ps
  }

  function DeltaEntities(sv: Server): seq<EntityState>
    requires |sv.ring| > 0 && |sv.frames| == PACKET_BACKUP
  {
    if DeltaNum(sv) < 0 then [] else EntitiesOf(sv, sv.frames[Slot(DeltaNum(sv), PACKET_BACKUP)])
  }

  /** Every number to be written is one the protocol has room for; any other is a fatal error. */
  ghost predicate Sendable(sv: Server)
  {
    && ServerShape(sv)
    && AllInRange(DeltaEntities(sv))
    && AllInRange(EntitiesOf(sv, CurrentFrame(sv)))
  }

  /** Sv_WriteFrame. */
  function WriteFrame(sv: Server, suppressed: nat): seq<byte>
    requires Sendable(sv)
  {
    var f := CurrentFrame(sv);
    FrameBytes(sv.frameNum, DeltaNum(sv), suppressed, f.area, DeltaPs(sv), f.ps, sv.base, DeltaEntities(sv),
               EntitiesOf(sv, f), sv.maxClients)
  }

  // ----- the client's side

  datatype ClFrame = ClFrame(
    valid: bool,
    frameNum: int,
    deltaFrameNum: int,
    area: seq<byte>,
    ps: PlayerState,
    numEntities: nat,
    entityState: nat)

  const NO_FRAME := ClFrame(false, 0, 0, [], CLEAN, 0, 0)

  datatype Client = Client(ring: seq<EntityState>, entityState: nat, frame: ClFrame, frames: seq<ClFrame>,
                           base: seq<EntityState>)

  ghost predicate ClientShape(cl: Client)
  {
    |cl.ring| == ENTITY_STATE_BACKUP && |cl.frames| == PACKET_BACKUP && |cl.base| == MAX_EDICTS
  }

  datatype FrameError = InvalidDelta | DeltaTooOld | DeltaEntitiesTooOld | BadList(error: ParseError)

  datatype Received = Accepted(client: Client, at: nat) | Rejected(error: FrameError)

  datatype Check = Fine | Complains(error: FrameError)

  /** The three complaints about the frame a delta is based on. */
  function CheckDelta(cl: Client, deltaNum: int): Check
    requires |cl.frames| == PACKET_BACKUP
  {
    if deltaNum <= 0 then Fine
    else
      var d := cl.frames[Slot(deltaNum, PACKET_BACKUP)];
      if !d.valid then Complains(InvalidDelta)
      else if d.frameNum != deltaNum then Complains(DeltaTooOld)
      else if cl.entityState - d.entityState > ENTITY_STATE_BACKUP - PACKET_BACKUP then Complains(DeltaEntitiesTooOld)
      else Fine
  }

  function OldPs(cl: Client, deltaNum: int): PlayerState
    requires |cl.frames| == PACKET_BACKUP
  {
    if deltaNum <= 0 then CLEAN else cl.frames[Slot(deltaNum, PACKET_BACKUP)].ps
  }

  function OldEntities(cl: Client, deltaNum: int): seq<EntityState>
    requires |cl.ring| > 0 && |cl.frames| == PACKET_BACKUP
  {
    if deltaNum <= 0 then []
    else
      var d := cl.frames[Slot(deltaNum, PACKET_BACKUP)];
      Window(cl.ring, d.entityState, d.numEntities)
  }

  /** The area bits as read: as many bytes as announced. */
  function AreaAt(s: seq<byte>, at: nat, n: nat): seq<byte>
  {
    if n == 0 then [] else AreaAt(s, at, n - 1) + [U8(ByteAt(s, at + n - 1))]
  }

  /** The new frame and the entities read for it are put away. */
  function StoreFrame(cl: Client, num: int, deltaNum: int, area: seq<byte>, ps: PlayerState, entities: seq<EntityState>)
    : Client
    requires ClientShape(cl)
  {
    var f := ClFrame(true, num, deltaNum, area, ps, |entities|, cl.entityState);
    cl.(ring := PushAll(cl.ring, cl.entityState, entities),
        entityState := cl.entityState + |entities|,
        frame := f,
        frames := cl.frames[Slot(num, PACKET_BACKUP) := f])
  }

  /** Cl_ParseFrame, from behind the command byte.  The entities are read against the old frame and then
      appended to the ring. */
  function ParseFrame(cl: Client, s: seq<byte>, at: nat, demo: bool): Received
    requires ClientShape(cl)
  {
    var num, deltaNum := LongAt(s, at), LongAt(s, at + 4);
    var check := CheckDelta(cl, deltaNum);
    if check.Complains? then Rejected(check.error)
    else ParseBody(cl, s, at + 9, num, deltaNum, demo)
  }

  /** The area bits, the player state and the entity list. */
  function ParseBody(cl: Client, s: seq<byte>, at: nat, num: int, deltaNum: int, demo: bool): Received
    requires ClientShape(cl)
  {
    var n := if ByteAt(s, at) < 0 then 0 else ByteAt(s, at);
    var player := DecodePlayer(s, at + 1 + n, OldPs(cl, deltaNum), demo);
    var list := Parse(s, Reader(player.1, 0, []), cl.base, OldEntities(cl, deltaNum), deltaNum > 0);
    if list.Failed? then Rejected(BadList(list.error))
    else Accepted(StoreFrame(cl, num, deltaNum, AreaAt(s, at + 1, n), player.0, list.entities), list.at)
  }

  // ----- what the complaints are good for

  /** A frame that a client took in. */
  datatype Taken = Taken(num: int, deltaNum: int, area: seq<byte>, ps: PlayerState, entities: seq<EntityState>)

  /** A client that has taken in these frames, whatever their numbers and sizes. */
  function TakeAll(base: seq<EntityState>, taken: seq<Taken>): (cl: Client)
    requires |base| == MAX_EDICTS
    ensures |cl.ring| == ENTITY_STATE_BACKUP && |cl.frames| == PACKET_BACKUP && |cl.base| == MAX_EDICTS
  {
    if taken == [] then
      Client.Client(seq(ENTITY_STATE_BACKUP, _ => NULL_STATE), 0, NO_FRAME, seq(PACKET_BACKUP, _ => NO_FRAME), base)
    else
      var t := taken[|taken| - 1];
      StoreFrame(TakeAll(base, taken[..|taken| - 1]), t.num, t.deltaNum, t.area, t.ps, t.entities)
  }

  /** The frame in slot `i` is the newest one with a number for it, taken in as the `k`-th, and its entities are
      there as long as no more than a lap of the ring has gone by. */
  ghost predicate Keeps(cl: Client, taken: seq<Taken>, i: nat, k: int)
    requires ClientShape(cl) && i < PACKET_BACKUP
  {
    var f := cl.frames[i];
    && 0 <= k < |taken| && Slot(taken[k].num, PACKET_BACKUP) == i
    && (forall j {:trigger taken[j]} :: k < j < |taken| ==> Slot(taken[j].num, PACKET_BACKUP) != i)
    && f.frameNum == taken[k].num && f.ps == taken[k].ps && f.numEntities == |taken[k].entities|
    && f.entityState + f.numEntities <= cl.entityState
    && (cl.entityState - f.entityState <= ENTITY_STATE_BACKUP ==>
          Window(cl.ring, f.entityState, f.numEntities) == taken[k].entities)
  }

  lemma {:induction false} TakenIsKept(base: seq<EntityState>, taken: seq<Taken>, i: nat) returns (k: int)
    requires |base| == MAX_EDICTS && i < PACKET_BACKUP
    ensures TakeAll(base, taken).frames[i].valid ==> Keeps(TakeAll(base, taken), taken, i, k)
  {
    hide Slot, PushAll, Window;
    k := -1;
    if taken != [] {
      var n := |taken| - 1;
      var t, was := taken[n], TakeAll(base, taken[..n]);
      if Slot(t.num, PACKET_BACKUP) == i {
        k := n;
        if |t.entities| <= ENTITY_STATE_BACKUP { PushAllWindow(was.ring, was.entityState, t.entities); }
      } else {
        k := TakenIsKept(base, taken[..n], i);
        var f := was.frames[i];
        if f.valid && was.entityState + |t.entities| - f.entityState <= ENTITY_STATE_BACKUP {
          PushAllKeeps(was.ring, f.entityState, f.numEntities, was.entityState, t.entities);
        }
      }
    }
  }

  /** A delta that the checks let pass is read against the very frame it names: the newest one taken in with a
      number for that slot, whole, whatever has been taken in since. */
  lemma CheckProtects(base: seq<EntityState>, taken: seq<Taken>, deltaNum: int) returns (k: int)
    requires |base| == MAX_EDICTS && deltaNum > 0 && CheckDelta(TakeAll(base, taken), deltaNum).Fine?
    ensures 0 <= k < |taken| && taken[k].num == deltaNum
    ensures forall j :: k < j < |taken| ==> Slot(taken[j].num, PACKET_BACKUP) != Slot(deltaNum, PACKET_BACKUP)
    ensures OldPs(TakeAll(base, taken), deltaNum) == taken[k].ps
    ensures OldEntities(TakeAll(base, taken), deltaNum) == taken[k].entities
  {
    hide Slot, Window, TakeAll;
    k := TakenIsKept(base, taken, Slot(deltaNum, PACKET_BACKUP));
  }

  // ----- the round trip of one frame

  lemma LastArrives(s: seq<byte>, at: nat, b: byte)
    requires Stands(s, at, [b])
    ensures U8(ByteAt(s, at)) == b
  {
    assert s[at] == s[at..at + 1][0];
  }

  lemma {:induction false} AreaArrives(s: seq<byte>, at: nat, area: seq<byte>)
    requires Stands(s, at, area)
    ensures AreaAt(s, at, |area|) == area
    decreases |area|
  {
    hide ByteAt, U8;
    if area != [] {
      var m := |area| - 1;
      assert area == area[..m] + [area[m]];
      StandsSplit(s, at, area[..m], [area[m]]);
      AreaArrives(s, at, area[..m]);
      LastArrives(s, at + m, area[m]);
    }
  }

  lemma SizeArrives(s: seq<byte>, at: nat, n: nat)
    requires n < 0x100 && Stands(s, at, ByteBytes(n))
    ensures ByteAt(s, at) == n
  {
    CharRoundTrip(s, at, n);
  }

  /** The end of the frame: area bits, player state and entities, read against what the sender deltaed from. */
  lemma BodyRoundTrip(cl: Client, s: seq<byte>, at: nat, num: nat, deltaNum: int, area: seq<byte>,
                      oldPs: PlayerState, ps: PlayerState, base: seq<EntityState>, from: seq<EntityState>,
                      to: seq<EntityState>, maxClients: nat)
    requires ClientShape(cl) && |base| == MAX_EDICTS && Ordered(from) && Ordered(to) && |area| < 0x100
    requires Stands(s, at, ByteBytes(|area|)
      + (area + (EncodePlayer(oldPs, ps) + Emitted(base, from, to, maxClients, 0, 0))))
    requires OldPs(cl, deltaNum) == oldPs && OldEntities(cl, deltaNum) == QuantisedList(from)
    requires cl.base == QuantisedList(base) && (deltaNum <= 0 ==> from == [])
    ensures ParseBody(cl, s, at, num, deltaNum, false) ==
      Accepted(StoreFrame(cl, num, deltaNum, area, ps, QuantisedList(to)),
               at + 1 + |area| + |EncodePlayer(oldPs, ps)| + |Emitted(base, from, to, maxClients, 0, 0)|)
  {
    hide EncodePlayer, DecodePlayer, Emitted, Parse, OldPs, OldEntities, ByteAt, StoreFrame, AreaAt, QuantisedList;
    var player, list := EncodePlayer(oldPs, ps), Emitted(base, from, to, maxClients, 0, 0);
    StandsSplit(s, at, ByteBytes(|area|), area + (player + list));
    SizeArrives(s, at, |area|);
    StandsSplit(s, at + 1, area, player + list);
    AreaArrives(s, at + 1, area);
    StandsSplit(s, at + 1 + |area|, player, list);
    PlayerRoundTrip(s, at + 1 + |area|, oldPs, ps, false);
    EntityListRoundTrip(s, at + 1 + |area| + |player|, base, from, to, maxClients, deltaNum > 0);
  }

  /** A client that holds, quantised, the frame a delta is based on stores the new frame, quantised, and reads
      on right behind its message. */
  lemma FrameRoundTrip(cl: Client, s: seq<byte>, at: nat, num: nat, deltaNum: int, suppressed: nat, area: seq<byte>,
                       oldPs: PlayerState, ps: PlayerState, base: seq<EntityState>, from: seq<EntityState>,
                       to: seq<EntityState>, maxClients: nat)
    requires ClientShape(cl) && |base| == MAX_EDICTS && Ordered(from) && Ordered(to) && |area| < 0x100
    requires num < 0x8000_0000 && -1 <= deltaNum < 0x8000_0000
    requires CheckDelta(cl, deltaNum).Fine?
    requires OldPs(cl, deltaNum) == oldPs && OldEntities(cl, deltaNum) == QuantisedList(from)
    requires cl.base == QuantisedList(base) && (deltaNum <= 0 ==> from == [])
    requires Stands(s, at, FrameBytes(num, deltaNum, suppressed, area, oldPs, ps, base, from, to, maxClients))
    ensures ParseFrame(cl, s, at + 1, false) ==
      Accepted(StoreFrame(cl, num, deltaNum, area, ps, QuantisedList(to)),
               at + |FrameBytes(num, deltaNum, suppressed, area, oldPs, ps, base, from, to, maxClients)|)
  {
    hide EncodePlayer, Emitted, LongBytes, LongAt, ByteAt, OldPs, OldEntities, ParseBody, StoreFrame, CheckDelta,
      QuantisedList;
    var body := ByteBytes(|area|) + (area + (EncodePlayer(oldPs, ps) + Emitted(base, from, to, maxClients, 0, 0)));
    var tail1 := ByteBytes(suppressed) + body;
    var tail2 := LongBytes(deltaNum) + tail1;
    var tail3 := LongBytes(num) + tail2;
    StandsSplit(s, at, ByteBytes(SV_CMD_FRAME), tail3);
    StandsSplit(s, at + 1, LongBytes(num), tail2);
    LongLength(num);
    LongLength(deltaNum);
    StandsSplit(s, at + 5, LongBytes(deltaNum), tail1);
    StandsSplit(s, at + 9, ByteBytes(suppressed), body);
    SignedLongArrives(s, at + 1, num);
    SignedLongArrives(s, at + 5, deltaNum);
    BodyRoundTrip(cl, s, at + 10, num, deltaNum, area, oldPs, ps, base, from, to, maxClients);
  }

  lemma LongLength(n: int)
    ensures |LongBytes(n)| == 4
  {
  }
}
