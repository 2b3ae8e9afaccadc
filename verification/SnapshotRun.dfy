/** Whole runs of snapshots between the server and one client, over channels that lose and delay packets: the
    server builds frames against the newest frame the client has told it about, the rings of both sides go
    round, and still every frame that the client's channel lets through decodes to what the server meant. */
module SnapshotRun {
  import opened MemBuf
  import opened NetMessage
  import opened EntityDelta
  import opened EntityList
  import opened PlayerDelta
  import opened Rings
  import opened Snapshots
  import SnapshotRings
  import NetChan

  /** What the game shows this client in one frame. */
  datatype Scene = Scene(area: seq<byte>, ps: PlayerState, entities: seq<EntityState>)

  /** A frame on its way, with its history: the datagram that carries its message behind a reliable block of that
      size, the number of that packet, the scene it shows, where the server put the entities, and which earlier
      frame (or none, -1) it is a delta from. */
  datatype SentFrame = SentFrame(bytes: seq<byte>, datagram: seq<byte>, block: nat, sequence: nat, num: nat,
                                 suppressed: nat, scene: Scene, first: nat, delta: int)

  /** An acknowledgement on its way: the frame number it carries and the frame it stands for. */
  datatype AckMessage = AckMessage(num: int, k: int)

  /** `outgoing` is the number of the server's next packet and `chan` the client's end of the channel.  `starts`
      maps the frames the client has taken in to where it put their entities; `latest` is the newest of them
      and `acked` the one the server believes to be the newest, or -1. */
  datatype Sys = Sys(sv: Server, cl: Client, sent: seq<SentFrame>, outgoing: nat, chan: NetChan.Chan,
                     starts: map<nat, nat>, latest: int, acks: seq<AckMessage>, acked: int)

  datatype Action =
    | Skip(others: seq<EntityState>)  // a server frame that leaves this client out
    // `end` is the server's end of the channel, whatever else goes through it; more may follow the frame
    | Send(before: seq<EntityState>, scene: Scene, after: seq<EntityState>, suppressed: nat, end: NetChan.Chan,
           extra: seq<byte>)
    | SendOther                       // a packet without a frame
    | Arrive(k: nat)
    | ArriveOther(h: NetChan.Header)
    | Ack
    | ReadAck(j: nat)

  /** Other clients' frames, built before or after this client's, take their entities from the same ring. */
  function Others(sv: Server, entities: seq<EntityState>): Server
    requires |sv.ring| > 0
  {
    sv.(ring := PushAll(sv.ring, sv.next, entities), next := sv.next + |entities|)
  }

  function Tick(sv: Server): Server { sv.(frameNum := sv.frameNum + 1) }

  /** Each client's frame has at most MAX_PACKET_ENTITIES entities. */
  ghost predicate Fits(sv: Server, before: seq<EntityState>, entities: seq<EntityState>, after: seq<EntityState>)
  {
    && |entities| <= MAX_PACKET_ENTITIES
    && |before| + |after| <= (sv.maxClients - 1) * MAX_PACKET_ENTITIES
  }

  function Built(sv: Server, before: seq<EntityState>, scene: Scene): (b: Server)
    requires |sv.ring| > 0 && |sv.frames| == PACKET_BACKUP
    ensures |b.ring| == |sv.ring| && |b.frames| == PACKET_BACKUP
  {
    BuildFrame(Others(Tick(sv), before), scene.area, scene.ps, scene.entities)
  }

  /** The server's end of the channel when it is about to send its next packet. */
  function EndOf(s: Sys, end: NetChan.Chan): NetChan.Chan
  {
    end.(client := false, outgoingSequence := s.outgoing)
  }

  /** The channel can be used, and block and data go into one packet. */
  ghost predicate Roomy(s: Sys, end: NetChan.Chan, data: seq<byte>)
  {
    && s.outgoing < NetChan.HIGH_BIT && !end.message.overflowed
    && 8 + |NetChan.Due(EndOf(s, end))| + |data| <= MAX_MSG_SIZE
  }

  /** The datagram that Netchan_Transmit makes of the data. */
  function Datagram(c: NetChan.Chan, data: seq<byte>): seq<byte>
  {
    match NetChan.AfterTransmit(c, data).1
    case Some(p) => NetChan.Encode(c, p)
    case None => []
  }

  ghost predicate Next(s: Sys, a: Action, s': Sys)
    requires ServerShape(s.sv) && ClientShape(s.cl)
  {
    match a
    case Skip(others) =>
      && |others| <= s.sv.maxClients * MAX_PACKET_ENTITIES && s.sv.frameNum + 1 < 0x8000_0000
      && s' == s.(sv := Others(Tick(s.sv), others))
    case Send(before, scene, after, suppressed, end, extra) =>
      && Fits(s.sv, before, scene.entities, after) && s.sv.frameNum + 1 < 0x8000_0000
      && Ordered(scene.entities) && |scene.area| < 0x100
      && var sv := Built(s.sv, before, scene);
      && Sendable(sv)
      && var bytes, c := WriteFrame(sv, suppressed), EndOf(s, end);
      && s.outgoing < NetChan.HIGH_BIT
      && s' ==
           if Roomy(s, end, bytes + extra) then
             s.(sv := Others(sv, after),
                sent := s.sent + [SentFrame(bytes, Datagram(c, bytes + extra), |NetChan.Due(c)|, s.outgoing,
                                            sv.frameNum, suppressed, scene, s.sv.next + |before|,
                                            if DeltaNum(sv) < 0 then -1 else s.acked)],
                outgoing := s.outgoing + 1)
           else
             // without room the packet goes out without the frame; after an overflow none does
             s.(sv := Others(sv, after), outgoing := if end.message.overflowed then s.outgoing else s.outgoing + 1)
    case SendOther => s' == s.(outgoing := s.outgoing + 1)
    case Arrive(k) =>
      && k < |s.sent|
      && var (chan, accepted) := NetChan.AfterProcess(s.chan, NetChan.DecodeHeader(s.sent[k].datagram));
      if !accepted then s' == s
      else
        // from behind the header, the block and the command byte
        var received := ParseFrame(s.cl, s.sent[k].datagram, 9 + s.sent[k].block, false);
        && received.Accepted?
        && s' == s.(cl := received.client, chan := chan, starts := s.starts[k := s.cl.entityState], latest := k)
    case ArriveOther(h) =>
      // whatever has a number that the server has used, a copy of it included
      h.sequence < s.outgoing && s' == s.(chan := NetChan.AfterProcess(s.chan, h).0)
    case Ack =>
      s' == s.(acks := s.acks + [AckMessage(if s.cl.frame.valid then s.cl.frame.frameNum else -1, s.latest)])
    case ReadAck(j) =>
      // in any order, which is more than the server's end of the channel allows
      j < |s.acks| && s' == s.(sv := s.sv.(lastFrame := s.acks[j].num), acked := s.acks[j].k)
  }

  // ----- the invariant

  function NumOf(s: Sys, k: int): int { if 0 <= k < |s.sent| then s.sent[k].num else -1 }

  function PsOf(s: Sys, k: int): PlayerState { if 0 <= k < |s.sent| then s.sent[k].scene.ps else CLEAN }

  function SceneOf(s: Sys, k: int): seq<EntityState> { if 0 <= k < |s.sent| then s.sent[k].scene.entities else [] }

  /** The datagram has its number, and the frame's message behind the header and the block. */
  ghost predicate Carries(f: SentFrame)
  {
    Stands(f.datagram, 8 + f.block, f.bytes) && NetChan.DecodeHeader(f.datagram).sequence == f.sequence
  }

  lemma DatagramCarries(s: Sys, end: NetChan.Chan, bytes: seq<byte>, extra: seq<byte>)
    requires Roomy(s, end, bytes + extra)
    ensures var c := EndOf(s, end); var d := Datagram(c, bytes + extra);
      Stands(d, 8 + |NetChan.Due(c)|, bytes) && NetChan.DecodeHeader(d).sequence == s.outgoing
  {
    hide NetChan.Due, NetChan.DecodeHeader, NetChan.Encode, NetChan.AfterTransmit;
    var c := EndOf(s, end);
    NetChan.DataStands(c, bytes + extra);
    StandsSplit(Datagram(c, bytes + extra), 8 + |NetChan.Due(c)|, bytes, extra);
  }

  /** A frame says which earlier frame it builds on, one the client has and not too old. */
  ghost predicate FrameOk(s: Sys, k: nat)
    requires k < |s.sent| && ServerShape(s.sv)
  {
    var f := s.sent[k];
    && 1 <= f.num <= s.sv.frameNum
    && Ordered(f.scene.entities) && |f.scene.entities| <= MAX_PACKET_ENTITIES && |f.scene.area| < 0x100
    && -1 <= f.delta < k
    && (f.delta >= 0 ==> f.delta in s.starts && f.num - NumOf(s, f.delta) < PACKET_BACKUP - 3)
    && AllInRange(SceneOf(s, f.delta))
    && Carries(f)
    && f.bytes == FrameBytes(f.num, NumOf(s, f.delta), f.suppressed, f.scene.area, PsOf(s, f.delta), f.scene.ps,
                             s.sv.base, SceneOf(s, f.delta), f.scene.entities, s.sv.maxClients)
  }

  ghost predicate FramesOk(s: Sys)
    requires ServerShape(s.sv)
  {
    && (forall k {:trigger s.sent[k]} {:trigger FrameOk(s, k)} :: 0 <= k < |s.sent| ==> FrameOk(s, k))
    && (forall i, j :: 0 <= i < j < |s.sent| ==>
          s.sent[i].num < s.sent[j].num && s.sent[i].sequence < s.sent[j].sequence)
    && (forall k {:trigger s.sent[k]} :: 0 <= k < |s.sent| ==> s.sent[k].sequence < s.outgoing)
  }

  /** The client's channel lets the packet of that frame through. */
  predicate Passes(s: Sys, k: nat)
    requires k < |s.sent|
  {
    NetChan.AfterProcess(s.chan, NetChan.DecodeHeader(s.sent[k].datagram)).1
  }

  /** The server still holds frame k, whole. */
  ghost predicate ServerHolds(sv: Server, f: SentFrame)
    requires ServerShape(sv)
  {
    && sv.frames[Slot(f.num, PACKET_BACKUP)] == SvFrame(f.scene.area, f.scene.ps, |f.scene.entities|, f.first)
    && Window(sv.ring, f.first, |f.scene.entities|) == f.scene.entities
    && f.first + |f.scene.entities| <= sv.next
    && sv.next - f.first <= (sv.frameNum - f.num + 1) * (sv.maxClients * MAX_PACKET_ENTITIES)
  }

  ghost predicate ServerOk(s: Sys)
    requires ServerShape(s.sv)
  {
    forall k {:trigger s.sent[k]} :: 0 <= k < |s.sent| && s.sv.frameNum - s.sent[k].num < PACKET_BACKUP
      ==> ServerHolds(s.sv, s.sent[k])
  }

  /** The client still holds frame k, whole and quantised, with its entities from `start` on. */
  ghost predicate ClientHolds(cl: Client, f: SentFrame, start: nat, latest: int)
    requires ClientShape(cl)
  {
    var g := cl.frames[Slot(f.num, PACKET_BACKUP)];
    && g.valid && g.frameNum == f.num && g.area == f.scene.area && g.ps == f.scene.ps
    && g.numEntities == |f.scene.entities| && g.entityState == start
    && Window(cl.ring, start, |f.scene.entities|) == QuantisedList(f.scene.entities)
    && start + |f.scene.entities| <= cl.entityState
    && cl.entityState - start <= (latest - f.num + 1) * MAX_PACKET_ENTITIES
  }

  ghost predicate ClientOk(s: Sys)
    requires ClientShape(s.cl)
  {
    && -1 <= s.latest < |s.sent| && s.chan.incomingSequence < s.outgoing
    && (s.latest >= 0 ==> s.sent[s.latest].sequence <= s.chan.incomingSequence)
    && (s.latest >= 0 ==> s.latest in s.starts && s.cl.frame.valid && s.cl.frame.frameNum == s.sent[s.latest].num)
    && (s.latest < 0 ==> !s.cl.frame.valid)
    && (forall k {:trigger k in s.starts} :: k in s.starts ==> k <= s.latest)
    && (forall k {:trigger k in s.starts} :: k in s.starts && NumOf(s, s.latest) - NumOf(s, k) < PACKET_BACKUP
          ==> ClientHolds(s.cl, s.sent[k], s.starts[k], NumOf(s, s.latest)))
  }

  /** A frame number that was acknowledged stands for a frame the client took in. */
  ghost predicate Known(s: Sys, num: int, k: int)
  {
    num == NumOf(s, k) && (k == -1 || (k >= 0 && k in s.starts))
  }

  ghost predicate AcksOk(s: Sys)
  {
    && Known(s, s.sv.lastFrame, s.acked)
    && forall j :: 0 <= j < |s.acks| ==> Known(s, s.acks[j].num, s.acks[j].k)
  }

  ghost predicate Inv(s: Sys)
  {
    && ServerShape(s.sv) && ClientShape(s.cl) && s.cl.base == QuantisedList(s.sv.base)
    && s.sv.frameNum < 0x8000_0000
    && FramesOk(s) && ServerOk(s) && ClientOk(s) && AcksOk(s)
  }

  function Init(maxClients: nat, base: seq<EntityState>, outgoing: nat, chan: NetChan.Chan): Sys
    requires maxClients >= 1 && |base| == MAX_EDICTS
  {
    Sys(Server(0, seq(maxClients * ENTITY_STATE_BACKUP, _ => NULL_STATE), 0,
               seq(PACKET_BACKUP, _ => SvFrame([], CLEAN, 0, 0)), -1, base, maxClients),
        Client.Client(seq(ENTITY_STATE_BACKUP, _ => NULL_STATE), 0, NO_FRAME, seq(PACKET_BACKUP, _ => NO_FRAME),
               QuantisedList(base)),
        [], outgoing, chan, map[], -1, [], -1)
  }

  // ----- every step keeps it

  lemma LapArithmetic(maxClients: nat, age: int)
    requires maxClients >= 1 && age <= PACKET_BACKUP
    ensures age * (maxClients * MAX_PACKET_ENTITIES) <= maxClients * ENTITY_STATE_BACKUP
    ensures (age + 1) * (maxClients * MAX_PACKET_ENTITIES)
            == age * (maxClients * MAX_PACKET_ENTITIES) + maxClients * MAX_PACKET_ENTITIES
  {
  }

  /** A frame the server holds survives one more server frame in which no client's frame is too big. */
  lemma HoldsThroughTick(sv: Server, sv': Server, f: SentFrame, pushed: seq<EntityState>)
    requires ServerShape(sv) && ServerHolds(sv, f) && |pushed| <= sv.maxClients * MAX_PACKET_ENTITIES
    requires f.num <= sv.frameNum && sv.frameNum + 1 - f.num < PACKET_BACKUP
    requires ServerShape(sv') && sv'.maxClients == sv.maxClients && sv'.frameNum == sv.frameNum + 1
    requires sv'.ring == PushAll(sv.ring, sv.next, pushed) && sv'.next == sv.next + |pushed|
    requires sv'.frames[Slot(f.num, PACKET_BACKUP)] == sv.frames[Slot(f.num, PACKET_BACKUP)]
    ensures ServerHolds(sv', f)
  {
    hide Slot, Window, PushAll;
    var age := sv.frameNum - f.num + 1;
    LapArithmetic(sv.maxClients, age);
    LapArithmetic(sv.maxClients, age + 1);
    PushAllKeeps(sv.ring, f.first, |f.scene.entities|, sv.next, pushed);
  }

  /** What the server builds for a scene. */
  lemma BuildShape(sv: Server, before: seq<EntityState>, scene: Scene)
    requires ServerShape(sv)
    ensures var b := Built(sv, before, scene);
      && ServerShape(b) && b.maxClients == sv.maxClients && b.base == sv.base && b.lastFrame == sv.lastFrame
      && b.frameNum == sv.frameNum + 1
      && b.ring == PushAll(sv.ring, sv.next, before + scene.entities)
      && b.next == sv.next + |before + scene.entities|
      && b.frames == sv.frames[Slot(sv.frameNum + 1, PACKET_BACKUP)
                              := SvFrame(scene.area, scene.ps, |scene.entities|, sv.next + |before|)]
  {
    PushAllAppend(sv.ring, sv.next, before, scene.entities);
  }

  lemma BuiltFrame(sv: Server, before: seq<EntityState>, scene: Scene, after: seq<EntityState>)
    requires ServerShape(sv) && Fits(sv, before, scene.entities, after)
    ensures var b := Built(sv, before, scene);
      && CurrentFrame(b) == SvFrame(scene.area, scene.ps, |scene.entities|, sv.next + |before|)
      && EntitiesOf(b, CurrentFrame(b)) == scene.entities
  {
    hide Slot, Window, PushAll;
    BuildShape(sv, before, scene);
    assert |scene.entities| <= |sv.ring|;
    PushAllWindow(PushAll(sv.ring, sv.next, before), sv.next + |before|, scene.entities);
  }

  lemma FrameBounds(s: Sys, k: nat)
    requires ServerShape(s.sv) && FramesOk(s) && k < |s.sent|
    ensures 1 <= s.sent[k].num <= s.sv.frameNum && Ordered(s.sent[k].scene.entities)
    ensures |s.sent[k].scene.entities| <= MAX_PACKET_ENTITIES
  {
    assert FrameOk(s, k);
  }

  /** The frame an acknowledged, recent number stands for is still there to delta from. */
  lemma DeltaIsHeld(s: Sys, before: seq<EntityState>, scene: Scene, after: seq<EntityState>)
    requires Inv(s) && Fits(s.sv, before, scene.entities, after)
    requires DeltaNum(Built(s.sv, before, scene)) >= 0
    ensures var b := Built(s.sv, before, scene);
      && 0 <= s.acked < |s.sent| && s.acked in s.starts
      && DeltaNum(b) == s.sent[s.acked].num && b.frameNum - s.sent[s.acked].num < PACKET_BACKUP - 3
      && DeltaPs(b) == s.sent[s.acked].scene.ps && DeltaEntities(b) == s.sent[s.acked].scene.entities
  {
    hide Slot, Window, PushAll, FrameOk, ClientHolds;
    BuildShape(s.sv, before, scene);
    var b := Built(s.sv, before, scene);
    assert Known(s, s.sv.lastFrame, s.acked);
    var f := s.sent[s.acked];
    FrameBounds(s, s.acked);
    SlotsDiffer(f.num, s.sv.frameNum + 1, PACKET_BACKUP);
    HoldsThroughTick(s.sv, b, f, before + scene.entities);
  }

  /** The server never meets a number it cannot send, and what it writes says which frame it builds on. */
  lemma SendWrites(s: Sys, before: seq<EntityState>, scene: Scene, after: seq<EntityState>, suppressed: nat)
    requires Inv(s) && Fits(s.sv, before, scene.entities, after) && Ordered(scene.entities)
    ensures var b := Built(s.sv, before, scene);
      var delta := if DeltaNum(b) < 0 then -1 else s.acked;
      && Sendable(b)
      && AllInRange(SceneOf(s, delta))
      && DeltaNum(b) == NumOf(s, delta)
      && WriteFrame(b, suppressed)
         == FrameBytes(b.frameNum, NumOf(s, delta), suppressed, scene.area, PsOf(s, delta), scene.ps, s.sv.base,
                       SceneOf(s, delta), scene.entities, s.sv.maxClients)
  {
    hide Slot, Window, PushAll, FrameOk, FrameBytes, ClientHolds, ServerHolds;
    BuildShape(s.sv, before, scene);
    BuiltFrame(s.sv, before, scene, after);
    if DeltaNum(Built(s.sv, before, scene)) >= 0 {
      DeltaIsHeld(s, before, scene, after);
      FrameBounds(s, s.acked);
    }
  }

  /** What a step that leaves the sent frames alone, or only adds one, leaves alone. */
  ghost predicate Extends(s: Sys, s': Sys)
    requires ServerShape(s.sv)
  {
    && ServerShape(s'.sv) && s'.sv.base == s.sv.base && s'.sv.maxClients == s.sv.maxClients
    && s.sv.frameNum <= s'.sv.frameNum
    && s.sent <= s'.sent
    && s.starts.Keys <= s'.starts.Keys
  }

  lemma FramesStayOk(s: Sys, s': Sys)
    requires ServerShape(s.sv) && FramesOk(s) && Extends(s, s')
    ensures forall k {:trigger FrameOk(s', k)} :: 0 <= k < |s.sent| ==> FrameOk(s', k)
  {
    hide FrameBytes;
    forall k | 0 <= k < |s.sent|
      ensures FrameOk(s', k)
    {
      assert FrameOk(s, k) && s'.sent[k] == s.sent[k];
      var d := s.sent[k].delta;
      assert NumOf(s', d) == NumOf(s, d) && PsOf(s', d) == PsOf(s, d) && SceneOf(s', d) == SceneOf(s, d);
    }
  }

  lemma AcksStayOk(s: Sys, s': Sys)
    requires ServerShape(s.sv) && Extends(s, s') && AcksOk(s)
    requires s'.acks == s.acks && s'.sv.lastFrame == s.sv.lastFrame && s'.acked == s.acked
    requires forall k :: k in s.starts ==> k < |s.sent|
    ensures AcksOk(s')
  {
    assert Known(s', s'.sv.lastFrame, s'.acked);
    forall j | 0 <= j < |s'.acks| ensures Known(s', s'.acks[j].num, s'.acks[j].k) {
      assert Known(s, s.acks[j].num, s.acks[j].k);
    }
  }

  lemma ClientStaysOk(s: Sys, s': Sys)
    requires ServerShape(s.sv) && Extends(s, s') && ClientShape(s.cl) && ClientOk(s)
    requires s'.cl == s.cl && s'.starts == s.starts && s'.latest == s.latest
    requires s'.outgoing >= s.outgoing && s.chan.incomingSequence <= s'.chan.incomingSequence < s'.outgoing
    ensures ClientOk(s')
  {
    hide ClientHolds;
    assert forall k :: k in s.starts ==> s'.sent[k] == s.sent[k];
  }

  lemma SkipKeeps(s: Sys, others: seq<EntityState>)
    requires Inv(s) && |others| <= s.sv.maxClients * MAX_PACKET_ENTITIES && s.sv.frameNum + 1 < 0x8000_0000
    ensures Inv(s.(sv := Others(Tick(s.sv), others)))
  {
    hide FrameOk, ClientHolds, ServerHolds, FrameBytes;
    var s' := s.(sv := Others(Tick(s.sv), others));
    FramesStayOk(s, s');
    ClientStaysOk(s, s');
    AcksStayOk(s, s');
    forall k | 0 <= k < |s.sent| && s'.sv.frameNum - s.sent[k].num < PACKET_BACKUP
      ensures ServerHolds(s'.sv, s.sent[k])
    {
      FrameBounds(s, k);
      HoldsThroughTick(s.sv, s'.sv, s.sent[k], others);
    }
  }

  /** Nothing else the server does within the frame touches the new frame. */
  lemma NewFrameHeld(sv: Server, before: seq<EntityState>, scene: Scene, after: seq<EntityState>, f: SentFrame)
    requires ServerShape(sv) && Fits(sv, before, scene.entities, after)
    requires f.num == sv.frameNum + 1 && f.scene == scene && f.first == sv.next + |before|
    ensures ServerShape(Others(Built(sv, before, scene), after))
    ensures ServerHolds(Others(Built(sv, before, scene), after), f)
  {
    hide Slot, Window, PushAll;
    BuildShape(sv, before, scene);
    BuiltFrame(sv, before, scene, after);
    var b := Built(sv, before, scene);
    LapArithmetic(sv.maxClients, 1);
    PushAllKeeps(b.ring, f.first, |scene.entities|, b.next, after);
  }

  lemma OldFrameHeld(s: Sys, before: seq<EntityState>, scene: Scene, after: seq<EntityState>, k: nat, sv: Server)
    requires Inv(s) && Fits(s.sv, before, scene.entities, after) && k < |s.sent|
    requires s.sv.frameNum + 1 - s.sent[k].num < PACKET_BACKUP
    requires ServerShape(sv) && sv == Others(Built(s.sv, before, scene), after)
    ensures ServerHolds(sv, s.sent[k])
  {
    hide Slot, Window, PushAll, FrameOk, ClientHolds, ServerHolds;
    BuildShape(s.sv, before, scene);
    FrameBounds(s, k);
    SlotsDiffer(s.sent[k].num, s.sv.frameNum + 1, PACKET_BACKUP);
    PushAllAppend(s.sv.ring, s.sv.next, before + scene.entities, after);
    HoldsThroughTick(s.sv, sv, s.sent[k], (before + scene.entities) + after);
  }

  /** A frame that is built but finds no room in its packet leaves all that was sent in order. */
  lemma DumpKeeps(s: Sys, a: Action, s': Sys)
    requires Inv(s) && a.Send? && Next(s, a, s') && |s'.sent| == |s.sent|
    ensures Inv(s')
  {
    hide FrameOk, ClientHolds, ServerHolds, FrameBytes, Slot, PushAll, Sendable, WriteFrame, Datagram, Roomy, Known;
    BuildShape(s.sv, a.before, a.scene);
    FramesStayOk(s, s');
    ClientStaysOk(s, s');
    AcksStayOk(s, s');
    forall k | 0 <= k < |s.sent| && s'.sv.frameNum - s.sent[k].num < PACKET_BACKUP
      ensures ServerHolds(s'.sv, s.sent[k])
    {
      OldFrameHeld(s, a.before, a.scene, a.after, k, s'.sv);
    }
  }

  lemma SendKeeps(s: Sys, a: Action, s': Sys)
    requires Inv(s) && a.Send? && Next(s, a, s') && |s'.sent| > |s.sent|
    ensures Inv(s')
  {
    hide FrameOk, ClientHolds, ServerHolds, FrameBytes, Slot, PushAll, Sendable, WriteFrame, Datagram, Roomy, Known;
    var b := Built(s.sv, a.before, a.scene);
    BuildShape(s.sv, a.before, a.scene);
    FramesStayOk(s, s');
    ClientStaysOk(s, s');
    AcksStayOk(s, s');
    SendNewOk(s, a, s');
    forall k | 0 <= k < |s'.sent| && s'.sv.frameNum - s'.sent[k].num < PACKET_BACKUP
      ensures ServerHolds(s'.sv, s'.sent[k])
    {
      if k < |s.sent| {
        OldFrameHeld(s, a.before, a.scene, a.after, k, s'.sv);
      } else {
        NewFrameHeld(s.sv, a.before, a.scene, a.after, s'.sent[k]);
      }
    }
    forall i, j | 0 <= i < j < |s'.sent| ensures s'.sent[i].num < s'.sent[j].num {
      FrameBounds(s, i);
    }
  }

  /** The new frame is in order: it builds on a frame the client has, at most 28 frames back. */
  lemma SendNewOk(s: Sys, a: Action, s': Sys)
    requires Inv(s) && a.Send? && Next(s, a, s') && |s'.sent| > |s.sent|
    ensures ServerShape(s'.sv) && FrameOk(s', |s.sent|)
  {
    hide FrameBytes, ClientHolds, ServerHolds, Slot, PushAll, Window, Datagram, Roomy, FramesOk, ServerOk, AcksOk;
    BuildShape(s.sv, a.before, a.scene);
    SendWrites(s, a.before, a.scene, a.after, a.suppressed);
    hide WriteFrame, DeltaEntities, DeltaPs;
    DatagramCarries(s, a.end, WriteFrame(Built(s.sv, a.before, a.scene), a.suppressed), a.extra);
    hide Stands, NetChan.DecodeHeader, NetChan.Due;
    if DeltaNum(Built(s.sv, a.before, a.scene)) >= 0 {
      DeltaIsHeld(s, a.before, a.scene, a.after);
    }
    var d := s'.sent[|s.sent|].delta;
    assert NumOf(s', d) == NumOf(s, d) && PsOf(s', d) == PsOf(s, d) && SceneOf(s', d) == SceneOf(s, d);
  }

  // ----- receiving

  lemma FrameCarries(s: Sys, k: nat)
    requires ServerShape(s.sv) && FramesOk(s) && k < |s.sent|
    ensures Carries(s.sent[k])
    ensures Passes(s, k) <==> s.chan.incomingSequence < s.sent[k].sequence
  {
    hide NetChan.DecodeHeader, FrameBytes, Stands;
    assert FrameOk(s, k);
  }

  /** The client still has the frame that one still to arrive builds on. */
  lemma DeltaIsKnown(s: Sys, k: nat)
    requires Inv(s) && k < |s.sent| && Passes(s, k)
    ensures var d := s.sent[k].delta;
      && Ordered(SceneOf(s, d)) && -1 <= NumOf(s, d) < 0x8000_0000 && (NumOf(s, d) <= 0 ==> SceneOf(s, d) == [])
      && CheckDelta(s.cl, NumOf(s, d)).Fine?
      && OldPs(s.cl, NumOf(s, d)) == PsOf(s, d) && OldEntities(s.cl, NumOf(s, d)) == QuantisedList(SceneOf(s, d))
  {
    hide FrameBytes, Slot, QuantisedList, ServerHolds, Passes, Carries;
    var d := s.sent[k].delta;
    assert FrameOk(s, k);
    if d >= 0 {
      FrameBounds(s, d);
      DeltaStillHeld(s, k);
    } else {
      assert QuantisedList([]) == [];
    }
  }

  /** Every frame that can still arrive is accepted, and decodes to the scene it shows. */
  lemma ArriveDecodes(s: Sys, k: nat)
    requires Inv(s) && k < |s.sent| && Passes(s, k)
    ensures var f := s.sent[k]; var r := ParseFrame(s.cl, f.datagram, 9 + f.block, false);
      r == Accepted(StoreFrame(s.cl, f.num, NumOf(s, f.delta), f.scene.area, f.scene.ps,
                               QuantisedList(f.scene.entities)), 8 + f.block + |f.bytes|)
  {
    hide FrameBytes, ParseFrame, StoreFrame, QuantisedList, ServerHolds, ClientHolds, CheckDelta, OldPs, OldEntities;
    hide Passes, NetChan.DecodeHeader, Stands;
    var f := s.sent[k];
    assert FrameOk(s, k);
    DeltaIsKnown(s, k);
    FrameRoundTrip(s.cl, f.datagram, 8 + f.block, f.num, NumOf(s, f.delta), f.suppressed, f.scene.area,
                   PsOf(s, f.delta), f.scene.ps, s.sv.base, SceneOf(s, f.delta), f.scene.entities, s.sv.maxClients);
  }

  /** A frame the client holds survives the next one taken in. */
  lemma HoldsThroughStore(cl: Client, f: SentFrame, start: nat, latest: int, num: nat, deltaNum: int, area: seq<byte>,
                          ps: PlayerState, entities: seq<EntityState>)
    requires ClientShape(cl) && ClientHolds(cl, f, start, latest) && |entities| <= MAX_PACKET_ENTITIES
    requires f.num <= latest < num && num - f.num < PACKET_BACKUP
    ensures ClientHolds(StoreFrame(cl, num, deltaNum, area, ps, entities), f, start, num)
  {
    hide Slot, Window, PushAll, QuantisedList;
    SlotsDiffer(f.num, num, PACKET_BACKUP);
    PushAllKeeps(cl.ring, start, |f.scene.entities|, cl.entityState, entities);
  }

  lemma StoredIsHeld(cl: Client, f: SentFrame, deltaNum: int)
    requires ClientShape(cl) && |f.scene.entities| <= MAX_PACKET_ENTITIES
    ensures ClientHolds(StoreFrame(cl, f.num, deltaNum, f.scene.area, f.scene.ps, QuantisedList(f.scene.entities)), f,
                        cl.entityState, f.num)
  {
    hide Slot, Window, PushAll, QuantisedList;
    PushAllWindow(cl.ring, cl.entityState, QuantisedList(f.scene.entities));
  }

  lemma ArriveKeeps(s: Sys, a: Action, s': Sys)
    requires Inv(s) && a.Arrive? && Next(s, a, s') && Passes(s, a.k)
    ensures Inv(s')
  {
    hide FrameOk, ParseFrame, FrameBytes, ServerHolds, ClientHolds, QuantisedList, PushAll, Slot;
    hide NetChan.DecodeHeader, Stands, Known;
    var f := s.sent[a.k];
    FrameCarries(s, a.k);
    ArriveDecodes(s, a.k);
    FrameBounds(s, a.k);
    assert s'.starts.Keys == s.starts.Keys + {a.k};
    FramesStayOk(s, s');
    AcksStayOk(s, s');
    forall k | k in s'.starts && NumOf(s', s'.latest) - NumOf(s', k) < PACKET_BACKUP
      ensures ClientHolds(s'.cl, s'.sent[k], s'.starts[k], NumOf(s', s'.latest))
    {
      if k == a.k {
        StoredIsHeld(s.cl, f, NumOf(s, f.delta));
      } else {
        assert k <= s.latest;
        FrameBounds(s, k);
        FrameBounds(s, s.latest);
        HoldsThroughStore(s.cl, s.sent[k], s.starts[k], NumOf(s, s.latest), f.num, NumOf(s, f.delta), f.scene.area,
                          f.scene.ps, QuantisedList(f.scene.entities));
      }
    }
  }

  lemma NextKeeps(s: Sys, a: Action, s': Sys)
    requires Inv(s) && Next(s, a, s')
    ensures Inv(s')
  {
    match a
    case Skip(others) => SkipKeeps(s, others);
    case Send(_, _, _, _, _, _) => if |s'.sent| > |s.sent| { SendKeeps(s, a, s'); } else { DumpKeeps(s, a, s'); }
    case SendOther => SendOtherKeeps(s, s');
    case Arrive(k) => if Passes(s, k) { ArriveKeeps(s, a, s'); }
    case ArriveOther(h) => ArriveOtherKeeps(s, h, s');
    case Ack => AckKeeps(s, a, s');
    case ReadAck(_) => ReadAckKeeps(s, a, s');
  }

  lemma SendOtherKeeps(s: Sys, s': Sys)
    requires Inv(s) && s' == s.(outgoing := s.outgoing + 1)
    ensures Inv(s')
  {
    hide FrameOk, FrameBytes, ServerHolds, ClientHolds;
    FramesStayOk(s, s');
    ClientStaysOk(s, s');
    AcksStayOk(s, s');
  }

  lemma ArriveOtherKeeps(s: Sys, h: NetChan.Header, s': Sys)
    requires Inv(s) && h.sequence < s.outgoing && s' == s.(chan := NetChan.AfterProcess(s.chan, h).0)
    ensures Inv(s')
  {
    hide FrameOk, FrameBytes, ServerHolds, ClientHolds;
    FramesStayOk(s, s');
    ClientStaysOk(s, s');
    AcksStayOk(s, s');
  }

  lemma AckKeeps(s: Sys, a: Action, s': Sys)
    requires Inv(s) && a.Ack? && Next(s, a, s')
    ensures Inv(s')
  {
    hide FrameOk, FrameBytes, ServerHolds, ClientHolds;
    FramesStayOk(s, s');
    ClientStaysOk(s, s');
    assert Known(s, if s.cl.frame.valid then s.cl.frame.frameNum else -1, s.latest);
    assert Known(s', s'.sv.lastFrame, s'.acked);
    forall j | 0 <= j < |s'.acks| ensures Known(s', s'.acks[j].num, s'.acks[j].k) {
      if j < |s.acks| { assert Known(s, s.acks[j].num, s.acks[j].k); }
    }
  }

  lemma ReadAckKeeps(s: Sys, a: Action, s': Sys)
    requires Inv(s) && a.ReadAck? && Next(s, a, s')
    ensures Inv(s')
  {
    hide FrameOk, FrameBytes, ServerHolds, ClientHolds;
    FramesStayOk(s, s');
    ClientStaysOk(s, s');
    assert Known(s, s.acks[a.j].num, s.acks[a.j].k);
    forall j | 0 <= j < |s'.acks| ensures Known(s', s'.acks[j].num, s'.acks[j].k) {
      assert Known(s, s.acks[j].num, s.acks[j].k);
    }
    forall k | 0 <= k < |s.sent| && s.sv.frameNum - s.sent[k].num < PACKET_BACKUP
      ensures ServerHolds(s'.sv, s.sent[k])
    {
      HoldsRegardlessOfAck(s.sv, s.sent[k], s'.sv.lastFrame);
    }
  }

  lemma HoldsRegardlessOfAck(sv: Server, f: SentFrame, num: int)
    requires ServerShape(sv) && ServerHolds(sv, f)
    ensures ServerHolds(sv.(lastFrame := num), f)
  {
  }

  // ----- every run

  /** A run: states joined by actions, from the start. */
  ghost predicate IsRun(states: seq<Sys>, actions: seq<Action>, maxClients: nat, base: seq<EntityState>)
  {
    && maxClients >= 1 && |base| == MAX_EDICTS
    && |states| == |actions| + 1
    && states[0].chan.incomingSequence < states[0].outgoing
    && states[0] == Init(maxClients, base, states[0].outgoing, states[0].chan)
    && forall i :: 0 <= i < |actions| ==>
         ServerShape(states[i].sv) && ClientShape(states[i].cl) && Next(states[i], actions[i], states[i + 1])
  }

  lemma {:induction false} RunKeeps(states: seq<Sys>, actions: seq<Action>, maxClients: nat, base: seq<EntityState>,
                                    n: nat)
    requires IsRun(states, actions, maxClients, base) && n < |states|
    ensures Inv(states[n])
  {
    if n > 0 {
      RunKeeps(states, actions, maxClients, base, n - 1);
      NextKeeps(states[n - 1], actions[n - 1], states[n]);
    }
  }

  /** What the program lets happen next, whatever comes of it. */
  ghost predicate Possible(s: Sys, a: Action)
  {
    match a
    case Skip(others) => |others| <= s.sv.maxClients * MAX_PACKET_ENTITIES && s.sv.frameNum + 1 < 0x8000_0000
    case Send(before, scene, after, _, _, _) =>
      && Fits(s.sv, before, scene.entities, after) && s.sv.frameNum + 1 < 0x8000_0000
      && Ordered(scene.entities) && |scene.area| < 0x100 && s.outgoing < NetChan.HIGH_BIT
    case SendOther => true
    case Arrive(k) => k < |s.sent|
    case ArriveOther(h) => h.sequence < s.outgoing
    case Ack => true
    case ReadAck(j) => j < |s.acks|
  }

  /** No complaint ever ends a run: whatever is possible, the run goes on. */
  lemma RunGoesOn(states: seq<Sys>, actions: seq<Action>, maxClients: nat, base: seq<EntityState>, a: Action)
    requires IsRun(states, actions, maxClients, base) && Possible(states[|states| - 1], a)
    ensures exists s' :: IsRun(states + [s'], actions + [a], maxClients, base)
  {
    hide Next, Init, Possible, FrameOk;
    var n := |states| - 1;
    var s := states[n];
    RunKeeps(states, actions, maxClients, base, n);
    StepExists(s, a);
    var s' :| Next(s, a, s');
    var states', actions' := states + [s'], actions + [a];
    forall i | 0 <= i < |actions'|
      ensures ServerShape(states'[i].sv) && ClientShape(states'[i].cl) && Next(states'[i], actions'[i], states'[i + 1])
    {
      if i < n { assert states'[i] == states[i] && states'[i + 1] == states[i + 1] && actions'[i] == actions[i]; }
    }
    assert IsRun(states', actions', maxClients, base);
  }

  lemma StepExists(s: Sys, a: Action)
    requires Inv(s) && Possible(s, a)
    ensures exists s' :: Next(s, a, s')
  {
    hide Inv, FrameOk, Fits;
    ShapesOk(s);
    match a {
      case Skip(others) => assert Next(s, a, s.(sv := Others(Tick(s.sv), others)));
      case Send(before, scene, after, suppressed, end, extra) => SendExists(s, a);
      case SendOther => assert Next(s, a, s.(outgoing := s.outgoing + 1));
      case Arrive(k) => ArriveExists(s, a);
      case ArriveOther(h) => assert Next(s, a, s.(chan := NetChan.AfterProcess(s.chan, h).0));
      case Ack =>
        var num := if s.cl.frame.valid then s.cl.frame.frameNum else -1;
        assert Next(s, a, s.(acks := s.acks + [AckMessage(num, s.latest)]));
      case ReadAck(j) =>
        assert Next(s, a, s.(sv := s.sv.(lastFrame := s.acks[j].num), acked := s.acks[j].k));
    }
  }

  lemma ShapesOk(s: Sys)
    requires Inv(s)
    ensures ServerShape(s.sv) && ClientShape(s.cl)
  {
  }

  lemma SendExists(s: Sys, a: Action)
    requires Inv(s) && a.Send? && Possible(s, a)
    ensures exists s' :: Next(s, a, s')
  {
    hide FrameOk, FrameBytes, ServerHolds, ClientHolds, Slot, PushAll, Sendable, WriteFrame, Window, Datagram, Roomy;
    SendWrites(s, a.before, a.scene, a.after, a.suppressed);
    var sv := Built(s.sv, a.before, a.scene);
    var c := EndOf(s, a.end);
    var bytes := WriteFrame(sv, a.suppressed);
    var f := SentFrame(bytes, Datagram(c, bytes + a.extra), |NetChan.Due(c)|, s.outgoing, sv.frameNum, a.suppressed,
                       a.scene, s.sv.next + |a.before|, if DeltaNum(sv) < 0 then -1 else s.acked);
    var roomy := Roomy(s, a.end, bytes + a.extra);
    if roomy {
      assert Next(s, a, s.(sv := Others(sv, a.after), sent := s.sent + [f], outgoing := s.outgoing + 1));
    } else {
      var outgoing := if a.end.message.overflowed then s.outgoing else s.outgoing + 1;
      assert Next(s, a, s.(sv := Others(sv, a.after), outgoing := outgoing));
    }
  }

  lemma ArriveExists(s: Sys, a: Action)
    requires Inv(s) && a.Arrive? && a.k < |s.sent|
    ensures exists s' :: Next(s, a, s')
  {
    hide FrameOk, FrameBytes, ServerHolds, ClientHolds, ParseFrame, NetChan.DecodeHeader;
    var k, h := a.k, NetChan.DecodeHeader(s.sent[a.k].datagram);
    if Passes(s, k) {
      ArriveDecodes(s, k);
      var cl := ParseFrame(s.cl, s.sent[k].datagram, 9 + s.sent[k].block, false).client;
      var chan := NetChan.AfterProcess(s.chan, h).0;
      assert Next(s, a, s.(cl := cl, chan := chan, starts := s.starts[k := s.cl.entityState], latest := k));
    } else {
      assert Next(s, a, s);
    }
  }

  /** Parsing the frame's message where it stands in its datagram is accepted, ends right behind it, and leaves the
      client with what the frame shows. */
  ghost predicate TakesIn(cl: Client, f: SentFrame)
    requires ClientShape(cl)
  {
    var r := ParseFrame(cl, f.datagram, 9 + f.block, false);
    && r.Accepted? && r.at == 8 + f.block + |f.bytes|
    && r.client.frame.frameNum == f.num && r.client.frame.area == f.scene.area && r.client.frame.ps == f.scene.ps
    && |r.client.ring| > 0
    && Window(r.client.ring, r.client.frame.entityState, r.client.frame.numEntities)
       == QuantisedList(f.scene.entities)
  }

  /** In every run, at every moment, every frame that the client's channel lets through is accepted without a
      complaint, and leaves the client with the frame's area bits, its player state and its entities, quantised. */
  lemma EveryFrameDecodes(states: seq<Sys>, actions: seq<Action>, maxClients: nat, base: seq<EntityState>, n: nat,
                          k: nat)
    requires IsRun(states, actions, maxClients, base) && n < |states|
    requires k < |states[n].sent| && Passes(states[n], k)
    ensures ClientShape(states[n].cl) && TakesIn(states[n].cl, states[n].sent[k])
    ensures var e := states[n].sent[k].scene.entities;
      forall i {:trigger e[i]} :: 0 <= i < |e| ==> Arrived(e[i], QuantisedList(e)[i])
  {
    hide ParseFrame, FrameOk, PushAll, Arrived, Quantised, Passes;
    forall e: EntityState
      ensures Arrived(e, Quantised(e))
    {
      QuantisedArrives(e);
    }
    RunKeeps(states, actions, maxClients, base, n);
    var s := states[n];
    ArriveDecodes(s, k);
    FrameBounds(s, k);
    PushAllWindow(s.cl.ring, s.cl.entityState, QuantisedList(s.sent[k].scene.entities));
  }

  /** In every run the server can always send.  Once the next frame is built its entities are intact on the
      shared ring, and so are the player state and the entities of the frame it is a delta from, which is one
      that the client took in; no entity number is out of range. */
  lemma ServerNeverStuck(states: seq<Sys>, actions: seq<Action>, maxClients: nat, base: seq<EntityState>, n: nat,
                         before: seq<EntityState>, scene: Scene, after: seq<EntityState>)
    requires IsRun(states, actions, maxClients, base) && n < |states|
    requires Fits(states[n].sv, before, scene.entities, after) && Ordered(scene.entities)
    ensures ServerShape(states[n].sv) && Sendable(Built(states[n].sv, before, scene))
    ensures var b := Built(states[n].sv, before, scene);
      && CurrentFrame(b) == SvFrame(scene.area, scene.ps, |scene.entities|, states[n].sv.next + |before|)
      && EntitiesOf(b, CurrentFrame(b)) == scene.entities
    ensures var b, s := Built(states[n].sv, before, scene), states[n];
      DeltaNum(b) >= 0 ==>
        && 0 <= s.acked < |s.sent| && s.acked in s.starts && DeltaNum(b) == s.sent[s.acked].num
        && DeltaPs(b) == s.sent[s.acked].scene.ps && DeltaEntities(b) == s.sent[s.acked].scene.entities
  {
    hide Slot, Window, PushAll, FrameOk, ClientHolds, ServerHolds;
    RunKeeps(states, actions, maxClients, base, n);
    SendWrites(states[n], before, scene, after, 0);
    BuiltFrame(states[n].sv, before, scene, after);
    if DeltaNum(Built(states[n].sv, before, scene)) >= 0 {
      DeltaIsHeld(states[n], before, scene, after);
    }
  }

  /** In every run, the next frame is a delta from the frame last acknowledged exactly when there is one and it is
      less than 29 frames old; otherwise it is a delta from none. */
  lemma DeltaIsChosen(states: seq<Sys>, actions: seq<Action>, maxClients: nat, base: seq<EntityState>, n: nat,
                      before: seq<EntityState>, scene: Scene)
    requires IsRun(states, actions, maxClients, base) && n < |states|
    ensures ServerShape(states[n].sv)
    ensures var s, b := states[n], Built(states[n].sv, before, scene);
      && b.frameNum == s.sv.frameNum + 1 && -1 <= s.acked < |s.sent|
      && (s.acked >= 0 ==> s.sent[s.acked].num >= 1)
      && DeltaNum(b) == if s.acked >= 0 && b.frameNum - s.sent[s.acked].num < 29 then s.sent[s.acked].num else -1
  {
    hide FrameOk, ServerHolds, ClientHolds, PushAll, Slot;
    RunKeeps(states, actions, maxClients, base, n);
    var s := states[n];
    assert Known(s, s.sv.lastFrame, s.acked);
    if s.acked >= 0 { FrameBounds(s, s.acked); }
    BuildShape(s.sv, before, scene);
  }

  /** An accepted frame holds as many entities as its list. */
  lemma AcceptedList(cl: Snapshots.Client, s: seq<byte>, at: nat, demo: bool)
    requires ClientShape(cl) && ParseFrame(cl, s, at, demo).Accepted?
    ensures |SnapshotRings.ListAt(cl, s, at + 9, LongAt(s, at + 4), demo).entities|
      == ParseFrame(cl, s, at, demo).client.frame.numEntities
  {
    hide LongAt, ByteAt, Parse, DecodePlayer, OldPs, OldEntities, AreaAt, PushAll, Slot;
  }

  /** In every run the client's ring has room for whatever frame arrives: no slot that is still to be read
      is written while it is parsed in place. */
  lemma AlwaysRoom(states: seq<Sys>, actions: seq<Action>, maxClients: nat, base: seq<EntityState>, n: nat, k: nat)
    requires IsRun(states, actions, maxClients, base) && n < |states|
    requires k < |states[n].sent| && Passes(states[n], k)
    ensures ClientShape(states[n].cl)
    ensures var f := states[n].sent[k];
      SnapshotRings.RoomFor(states[n].cl, f.datagram, 18 + f.block, LongAt(f.datagram, 13 + f.block), false)
  {
    hide ParseFrame, FrameOk, SnapshotRings.ListAt, LongAt, Slot, FrameBytes, Passes;
    RunKeeps(states, actions, maxClients, base, n);
    var s := states[n];
    var f := s.sent[k];
    ArriveDecodes(s, k);
    AcceptedList(s.cl, f.datagram, 9 + f.block, false);
    FrameBounds(s, k);
    DeltaField(s, k);
    if f.delta >= 0 {
      assert FrameOk(s, k);
      DeltaStillHeld(s, k);
    }
  }

  lemma DeltaField(s: Sys, k: nat)
    requires Inv(s) && k < |s.sent|
    ensures LongAt(s.sent[k].datagram, 13 + s.sent[k].block) == NumOf(s, s.sent[k].delta)
    ensures s.sent[k].delta >= 0 ==> NumOf(s, s.sent[k].delta) > 0
  {
    hide LongAt, ServerHolds, ClientHolds;
    assert FrameOk(s, k);
    var f := s.sent[k];
    if f.delta >= 0 { FrameBounds(s, f.delta); }
    DeltaNumArrives(f.datagram, 8 + f.block, f.num, NumOf(s, f.delta), f.suppressed, f.scene.area, PsOf(s, f.delta),
                    f.scene.ps, s.sv.base, SceneOf(s, f.delta), f.scene.entities, s.sv.maxClients);
  }

  lemma DeltaNumArrives(s: seq<byte>, at: nat, num: nat, deltaNum: int, suppressed: nat, area: seq<byte>,
                        oldPs: PlayerState, ps: PlayerState, base: seq<EntityState>, from: seq<EntityState>,
                        to: seq<EntityState>, maxClients: nat)
    requires |base| == MAX_EDICTS && AllInRange(from) && AllInRange(to) && -1 <= deltaNum < 0x8000_0000
    requires Stands(s, at, FrameBytes(num, deltaNum, suppressed, area, oldPs, ps, base, from, to, maxClients))
    ensures LongAt(s, at + 5) == deltaNum
  {
    hide LongAt, LongBytes, ByteBytes, EncodePlayer, Emitted;
    var tail1 := ByteBytes(suppressed) + (ByteBytes(|area|) + (area + (EncodePlayer(oldPs, ps)
                   + Emitted(base, from, to, maxClients, 0, 0))));
    StandsSplit(s, at, ByteBytes(SV_CMD_FRAME), LongBytes(num) + (LongBytes(deltaNum) + tail1));
    ByteLength(SV_CMD_FRAME);
    LongLength(num);
    StandsSplit(s, at + 1, LongBytes(num), LongBytes(deltaNum) + tail1);
    StandsSplit(s, at + 5, LongBytes(deltaNum), tail1);
    SignedLongArrives(s, at + 5, deltaNum);
  }

  lemma ByteLength(c: int)
    ensures |ByteBytes(c)| == 1
  {
  }

  lemma DeltaStillHeld(s: Sys, k: nat)
    requires Inv(s) && k < |s.sent| && Passes(s, k) && s.sent[k].delta >= 0
    ensures var d := s.sent[k].delta;
      && 0 <= d < |s.sent| && d in s.starts
      && ClientHolds(s.cl, s.sent[d], s.starts[d], NumOf(s, s.latest))
      && NumOf(s, s.latest) - s.sent[d].num < PACKET_BACKUP - 3
  {
    hide ServerHolds, ClientHolds, FrameBytes, Passes, Carries;
    FrameCarries(s, k);
    assert FrameOk(s, k);
    FrameBounds(s, s.sent[k].delta);
    assert NumOf(s, s.latest) < s.sent[k].num;
  }
}
