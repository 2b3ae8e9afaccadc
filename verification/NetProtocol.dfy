/** Two channel ends of src/net_chan.c joined by a network that may lose, duplicate and reorder: a packet
    once sent may be handed over at any later moment, any number of times, or never.  Proved over every
    run: reliable blocks arrive exactly once and in order. */
module NetProtocol {
  import opened Sequences
  import opened MemBuf
  import opened NetChan

  /** A packet on the network.  `staged` and `accepted` are history: how many blocks its sender had staged
      and had accepted when it was sent. */
  datatype Sent = Sent(packet: Packet, staged: nat, accepted: nat)

  /** An end with its history: every packet it sent, every block it staged, every block it accepted from
      the other end, and every byte the program wrote to its message buffer. */
  datatype End = End(chan: Chan, log: seq<Sent>, staged: seq<seq<byte>>, accepted: seq<seq<byte>>, written: seq<byte>)

  datatype System = System(server: End, client: End)

  datatype Action =
    | Write(atClient: bool, bytes: seq<byte>)  // Net_Write* on the end's message buffer
    | Send(atClient: bool, data: seq<byte>)    // Netchan_Transmit
    | Receive(atClient: bool, k: nat)          // Netchan_Process of the k-th packet the other end sent

  function Start(client: bool, qport: byte): End { End(Setup(client, qport), [], [], [], []) }

  // ----- steps of one end

  function WriteTo(x: End, bytes: seq<byte>): End
  {
    x.(chan := x.chan.(message := Put(x.chan.message, bytes)), written := x.written + bytes)
  }

  function SendFrom(x: End, data: seq<byte>): End
  {
    var (chan, sent) := AfterTransmit(x.chan, data);
    match sent
    case None => x.(chan := chan)
    case Some(p) =>
      var staged := if Stages(x.chan) then x.staged + [x.chan.message.bytes] else x.staged;
      x.(chan := chan, log := x.log + [Sent(p, |staged|, |x.accepted|)], staged := staged)
  }

  function ReceiveAt(x: End, p: Packet): End
  {
    var (chan, ok) := AfterProcess(x.chan, p.header);
    if ok && p.header.reliable then x.(chan := chan, accepted := x.accepted + [p.block])
    else x.(chan := chan)
  }

  function Act(x: End, y: End, a: Action): End
  {
    match a
    case Write(_, bytes) => WriteTo(x, bytes)
    case Send(_, data) => SendFrom(x, data)
    case Receive(_, k) => if k < |y.log| then ReceiveAt(x, y.log[k].packet) else x
  }

  function Step(s: System, a: Action): System
  {
    if a.atClient then s.(client := Act(s.client, s.server, a)) else s.(server := Act(s.server, s.client, a))
  }

  function Run(s: System, actions: seq<Action>): System
    decreases |actions|
  {
    if actions == [] then s
    else Step(Run(s, actions[..|actions| - 1]), actions[|actions| - 1])
  }

  // ----- the invariant of one direction, from sender `x` to receiver `y`

  predicate Odd(n: nat) { n % 2 == 1 }

  /** What a packet that `x` sent says about the moment it was sent. */
  ghost predicate EntryOk(x: End, i: nat)
    requires i < |x.log|
  {
    var e := x.log[i]; var h := e.packet.header;
    && h.sequence == i + 1
    && h.ack <= x.chan.incomingSequence
    && e.staged <= |x.staged| && e.accepted <= |x.accepted|
    && h.reliableAck == Odd(e.accepted)
    && (h.reliable ==> 1 <= e.staged && e.packet.block == x.staged[e.staged - 1])
  }

  ghost predicate LogOk(x: End)
  {
    && x.chan.outgoingSequence == |x.log| + 1
    && forall i {:trigger EntryOk(x, i)} {:trigger x.log[i]} :: 0 <= i < |x.log| ==> EntryOk(x, i)
  }

  ghost predicate LogMonotone(x: End)
  {
    forall i, j :: 0 <= i <= j < |x.log| ==> x.log[i].accepted <= x.log[j].accepted
  }

  /** How many blocks of its own `x` knows to be accepted: as many as the newest packet it took in says. */
  function Known(x: End, y: End): nat
  {
    if 0 < x.chan.incomingSequence <= |y.log| then y.log[x.chan.incomingSequence - 1].accepted else 0
  }

  ghost predicate View(x: End, y: End)
  {
    && x.chan.incomingSequence <= |y.log|
    && x.chan.incomingReliableAcknowledged == Odd(Known(x, y))
    && x.chan.incomingAcknowledged
       == if x.chan.incomingSequence == 0 then 0 else y.log[x.chan.incomingSequence - 1].packet.header.ack
  }

  ghost predicate Direction(x: End, y: End)
  {
    var staged, accepted := |x.staged|, |y.accepted|;
    && accepted <= staged <= accepted + 1
    && y.accepted == x.staged[..accepted]
    && x.chan.reliableSequence == Odd(staged)
    && y.chan.incomingReliableSequence == Odd(accepted)
    && (if x.chan.reliable == [] then Known(x, y) == staged
        else 0 < staged && Known(x, y) == staged - 1 && x.chan.reliable == x.staged[staged - 1])
    && x.chan.lastReliableSequence <= |x.log| + 1
    // a reliable packet that can still be accepted is the newest copy of the block in flight
    && (forall i {:trigger x.log[i]} ::
         0 <= i < |x.log| && y.chan.incomingSequence < i + 1 && x.log[i].packet.header.reliable ==>
           i + 2 == x.chan.lastReliableSequence && x.log[i].staged == staged && accepted + 1 == staged)
    // whatever `y` sent after overtaking the newest copy counts every block accepted so far
    && (forall j {:trigger y.log[j]} ::
         0 <= j < |y.log| && x.chan.lastReliableSequence <= y.log[j].packet.header.ack + 1 ==>
           y.log[j].accepted == accepted)
  }

  /** While nothing has overflowed, staged blocks and pending message make up what was written. */
  ghost predicate Stream(x: End)
  {
    && (x.chan.message.overflowed || Flat(x.staged) + x.chan.message.bytes == x.written)
    && Flat(x.staged) <= x.written
    && |x.chan.message.bytes| <= x.chan.message.cap == MAX_RELIABLE
    && forall b :: b in x.staged ==> b != []
  }

  ghost predicate Inv(x: End, y: End)
  {
    && LogOk(x) && LogOk(y) && LogMonotone(x) && LogMonotone(y)
    && View(x, y) && View(y, x)
    && Direction(x, y) && Direction(y, x)
    && Stream(x) && Stream(y)
  }

  // ----- every step keeps it

  lemma SendKeepsLog(x: End, y: End, data: seq<byte>)
    requires Inv(x, y) && |x.log| + 1 < HIGH_BIT && |y.log| < HIGH_BIT
    ensures LogOk(SendFrom(x, data))
  {
    hide EntryOk, Stream, LogMonotone;
    var x' := SendFrom(x, data);
    if NeedReliable(x.chan) { OnlyDeadCopies(x, y); }
    forall i | 0 <= i < |x'.log|
      ensures EntryOk(x', i)
    {
      if i < |x.log| {
        SendKeepsEntry(x, data, i);
      } else {
        SendLogsNow(x, data);
      }
    }
  }

  lemma SendKeepsEntry(x: End, data: seq<byte>, i: nat)
    requires i < |x.log| && EntryOk(x, i)
    ensures EntryOk(SendFrom(x, data), i)
  {
    var x' := SendFrom(x, data);
    assert x'.log[i] == x.log[i] && x.staged <= x'.staged && x'.accepted == x.accepted;
  }

  lemma SendLogsNow(x: End, data: seq<byte>)
    requires x.chan.outgoingSequence == |x.log| + 1 < HIGH_BIT && x.chan.incomingSequence < HIGH_BIT
    requires x.chan.incomingReliableSequence == Odd(|x.accepted|)
    requires NeedReliable(x.chan) && !Stages(x.chan) ==> x.staged != [] && x.chan.reliable == x.staged[|x.staged| - 1]
    requires !x.chan.message.overflowed
    ensures EntryOk(SendFrom(x, data), |x.log|)
  {
  }

  lemma SendKeepsViews(x: End, y: End, data: seq<byte>)
    requires Inv(x, y)
    ensures var x' := SendFrom(x, data); LogMonotone(x') && View(x', y) && View(y, x')
  {
  }

  /** A new copy goes out only when no earlier one was accepted or still can be. */
  lemma OnlyDeadCopies(x: End, y: End)
    requires Inv(x, y) && NeedReliable(x.chan)
    ensures Stages(x.chan) ==> |x.staged| == |y.accepted|
    ensures !Stages(x.chan) ==> x.chan.reliable != [] && |x.staged| == |y.accepted| + 1
    ensures forall i :: 0 <= i < |x.log| && x.log[i].packet.header.reliable ==> i + 1 <= y.chan.incomingSequence
  {
    if !Stages(x.chan) {
      var k := x.chan.incomingSequence - 1;
      assert y.log[k].accepted == |y.accepted|;
      assert x.chan.reliable != [];
    }
  }

  lemma SendKeepsOutward(x: End, y: End, data: seq<byte>)
    requires Inv(x, y) && |x.log| + 1 < HIGH_BIT && |y.log| < HIGH_BIT
    ensures Direction(SendFrom(x, data), y)
  {
    forall j | 0 <= j < |y.log| ensures y.log[j].packet.header.ack <= |x.log| { assert EntryOk(y, j); }
    if NeedReliable(x.chan) {
      OnlyDeadCopies(x, y);
      if Stages(x.chan) { SendsNewBlock(x, y, data); } else { SendsCopy(x, y, data); }
    } else {
      SendsPlain(x, y, data);
    }
  }

  lemma SendsNewBlock(x: End, y: End, data: seq<byte>)
    requires Direction(x, y) && Stages(x.chan)
    requires x.chan.outgoingSequence == |x.log| + 1 && x.chan.incomingSequence <= |y.log|
    requires y.chan.incomingSequence <= |x.log|
    requires |x.staged| == |y.accepted|
    requires forall i :: 0 <= i < |x.log| && x.log[i].packet.header.reliable ==> i + 1 <= y.chan.incomingSequence
    requires forall j :: 0 <= j < |y.log| ==> y.log[j].packet.header.ack <= |x.log|
    ensures Direction(SendFrom(x, data), y)
  {
    var x' := SendFrom(x, data);
    assert Known(x', y) == Known(x, y) && x.log <= x'.log;
    hide Known, Odd;
  }

  lemma SendsCopy(x: End, y: End, data: seq<byte>)
    requires Direction(x, y) && NeedReliable(x.chan) && !Stages(x.chan)
    requires x.chan.outgoingSequence == |x.log| + 1 && x.chan.incomingSequence <= |y.log|
    requires y.chan.incomingSequence <= |x.log|
    requires |x.staged| == |y.accepted| + 1
    requires forall i :: 0 <= i < |x.log| && x.log[i].packet.header.reliable ==> i + 1 <= y.chan.incomingSequence
    requires forall j :: 0 <= j < |y.log| ==> y.log[j].packet.header.ack <= |x.log|
    ensures Direction(SendFrom(x, data), y)
  {
    var x' := SendFrom(x, data);
    assert Known(x', y) == Known(x, y) && x.log <= x'.log;
    hide Known, Odd;
  }

  lemma SendsPlain(x: End, y: End, data: seq<byte>)
    requires Direction(x, y) && !NeedReliable(x.chan)
    requires x.chan.outgoingSequence == |x.log| + 1
    ensures Direction(SendFrom(x, data), y)
  {
  }

  lemma SendKeepsInward(x: End, y: End, data: seq<byte>)
    requires Inv(x, y) && |x.log| + 1 < HIGH_BIT && |y.log| < HIGH_BIT
    ensures Direction(y, SendFrom(x, data))
  {
  }

  lemma FlatAppend(blocks: seq<seq<byte>>, b: seq<byte>)
    ensures Flat(blocks + [b]) == Flat(blocks) + b
  {
    assert (blocks + [b])[..|blocks|] == blocks;
  }

  lemma SendKeepsStream(x: End, data: seq<byte>)
    requires Stream(x)
    ensures Stream(SendFrom(x, data))
  {
    var x' := SendFrom(x, data);
    assert x'.written == x.written;
    FlatAppend(x.staged, x.chan.message.bytes);
  }

  lemma SendKeeps(x: End, y: End, data: seq<byte>)
    requires Inv(x, y) && |x.log| + 1 < HIGH_BIT && |y.log| < HIGH_BIT
    ensures Inv(SendFrom(x, data), y)
  {
    SendKeepsLog(x, y, data);
    SendKeepsViews(x, y, data);
    SendKeepsOutward(x, y, data);
    SendKeepsInward(x, y, data);
    SendKeepsStream(x, data);
  }

  lemma ReceiveKeepsLogs(x: End, y: End, k: nat)
    requires Inv(x, y) && k < |y.log|
    ensures var x' := ReceiveAt(x, y.log[k].packet); LogOk(x') && LogMonotone(x') && Stream(x')
  {
    hide Direction, View;
    var x' := ReceiveAt(x, y.log[k].packet);
    assert x'.log == x.log && x'.staged == x.staged && x.accepted <= x'.accepted;
    forall i | 0 <= i < |x.log|
      ensures EntryOk(x', i)
    {
      assert EntryOk(x, i);
    }
  }

  lemma ReceiveKeepsViews(x: End, y: End, k: nat)
    requires Inv(x, y) && k < |y.log|
    ensures var x' := ReceiveAt(x, y.log[k].packet); View(x', y) && View(y, x')
  {
    hide Direction, Stream;
    assert EntryOk(y, k);
  }

  /** Taking in a packet of `y` moves the news `x` has of its own blocks. */
  lemma ReceiveKeepsOutward(x: End, y: End, k: nat)
    requires Inv(x, y) && k < |y.log|
    ensures Direction(ReceiveAt(x, y.log[k].packet), y)
  {
    var x' := ReceiveAt(x, y.log[k].packet);
    if k + 1 > x.chan.incomingSequence {
      assert Known(x', y) == y.log[k].accepted;
      assert Known(x, y) <= Known(x', y) <= |y.accepted|;
      assert x'.chan.incomingReliableAcknowledged == Odd(y.log[k].accepted) && x'.log == x.log && x'.staged == x.staged;
      hide Stream, LogMonotone, LogOk, View, Inv, Known;
    }
  }

  /** Taking in a reliable packet of `y` accepts the one block in flight. */
  lemma ReceiveKeepsInward(x: End, y: End, k: nat)
    requires Inv(x, y) && k < |y.log|
    ensures Direction(y, ReceiveAt(x, y.log[k].packet))
  {
  }

  lemma ReceiveKeeps(x: End, y: End, k: nat)
    requires Inv(x, y) && k < |y.log|
    ensures Inv(ReceiveAt(x, y.log[k].packet), y)
  {
    ReceiveKeepsLogs(x, y, k);
    ReceiveKeepsViews(x, y, k);
    ReceiveKeepsOutward(x, y, k);
    ReceiveKeepsInward(x, y, k);
  }

  lemma WriteKeeps(x: End, y: End, bytes: seq<byte>)
    requires Inv(x, y) && |bytes| <= MAX_RELIABLE
    ensures Inv(WriteTo(x, bytes), y)
  {
    WriteKeepsStream(x, bytes);
    var x' := WriteTo(x, bytes);
    forall i | 0 <= i < |x.log|
      ensures EntryOk(x', i)
    {
      assert EntryOk(x, i);
    }
    assert Known(x', y) == Known(x, y) && Known(y, x') == Known(y, x);
  }

  lemma WriteKeepsStream(x: End, bytes: seq<byte>)
    requires Stream(x) && |bytes| <= MAX_RELIABLE
    ensures Stream(WriteTo(x, bytes))
  {
    assert (Flat(x.staged) + x.chan.message.bytes) + bytes == Flat(x.staged) + (x.chan.message.bytes + bytes);
  }

  // ----- every run

  /** Only a write larger than the whole buffer aborts the program; runs are without such writes. */
  ghost predicate Legal(actions: seq<Action>)
  {
    forall a :: a in actions && a.Write? ==> |a.bytes| <= MAX_RELIABLE
  }

  function Init(port: byte): System { System(Start(false, port), Start(true, port)) }

  lemma InvIsSymmetric(x: End, y: End)
    ensures Inv(x, y) <==> Inv(y, x)
  {
  }

  lemma ActKeeps(x: End, y: End, a: Action)
    requires Inv(x, y) && |x.log| + 1 < HIGH_BIT && |y.log| < HIGH_BIT
    requires a.Write? ==> |a.bytes| <= MAX_RELIABLE
    ensures Inv(Act(x, y, a), y) && |Act(x, y, a).log| <= |x.log| + 1
  {
    match a
    case Write(_, bytes) => WriteKeeps(x, y, bytes);
    case Send(_, data) => SendKeeps(x, y, data);
    case Receive(_, k) => if k < |y.log| { ReceiveKeeps(x, y, k); }
  }

  lemma BeginsWell(port: byte)
    ensures var s := Init(port); Inv(s.server, s.client) && s.server.log == s.client.log == []
  {
  }

  lemma {:induction false} RunKeeps(port: byte, actions: seq<Action>)
    requires Legal(actions) && |actions| < HIGH_BIT - 2
    ensures var s := Run(Init(port), actions);
      Inv(s.server, s.client) && |s.server.log| <= |actions| && |s.client.log| <= |actions|
    decreases |actions|
  {
    hide Inv, Act;
    if actions == [] {
      BeginsWell(port);
    } else {
      var n := |actions| - 1;
      RunKeeps(port, actions[..n]);
      var s, a := Run(Init(port), actions[..n]), actions[n];
      assert a in actions;
      if a.atClient {
        InvIsSymmetric(s.server, s.client);
        ActKeeps(s.client, s.server, a);
        InvIsSymmetric(Act(s.client, s.server, a), s.server);
      } else {
        ActKeeps(s.server, s.client, a);
      }
    }
  }

  /** What one end has accepted of what the other end has staged and its program has written. */
  ghost predicate InOrderOnce(x: End, y: End)
  {
    && y.accepted <= x.staged
    && |x.staged| <= |y.accepted| + 1
    && (x.chan.reliable == [] ==> y.accepted == x.staged)
    && Flat(y.accepted) <= x.written
    && (x.chan.reliable == [] && !x.chan.message.overflowed ==> Flat(y.accepted) + x.chan.message.bytes == x.written)
  }

  lemma FlatOfPrefix(xs: seq<seq<byte>>, n: nat)
    requires n <= |xs|
    ensures Flat(xs[..n]) <= Flat(xs)
    decreases |xs|
  {
    if n < |xs| {
      FlatOfPrefix(xs[..|xs| - 1], n);
      assert xs[..|xs| - 1][..n] == xs[..n];
    } else {
      assert xs[..n] == xs;
    }
  }

  lemma InvDelivers(x: End, y: End)
    requires Inv(x, y)
    ensures InOrderOnce(x, y)
  {
    FlatOfPrefix(x.staged, |y.accepted|);
    if x.chan.reliable == [] { assert |y.accepted| == |x.staged|; }
  }

  /** Over every run, in both directions: the accepted blocks are the staged ones, each once and in order,
      at most one short, none short when nothing is outstanding; and the bytes they carry are a prefix of
      everything written. */
  lemma ReliableDelivery(port: byte, actions: seq<Action>)
    requires Legal(actions) && |actions| < HIGH_BIT - 2
    ensures var s := Run(Init(port), actions); InOrderOnce(s.server, s.client) && InOrderOnce(s.client, s.server)
  {
    RunKeeps(port, actions);
    var s := Run(Init(port), actions);
    InvDelivers(s.server, s.client);
    InvDelivers(s.client, s.server);
  }

  /** What holds of both ends' histories never goes back. */
  ghost predicate Later(x: End, x': End)
  {
    && x.chan.incomingSequence <= x'.chan.incomingSequence
    && |x.log| <= |x'.log| && x'.log[..|x.log|] == x.log
    && x.staged <= x'.staged && x.accepted <= x'.accepted
  }

  lemma {:induction false} RunIsLater(s: System, actions: seq<Action>)
    ensures Later(s.server, Run(s, actions).server) && Later(s.client, Run(s, actions).client)
    decreases |actions|
  {
    if actions != [] {
      RunIsLater(s, actions[..|actions| - 1]);
      var t, a := Run(s, actions[..|actions| - 1]), actions[|actions| - 1];
      if a.atClient { ActIsLater(t.client, t.server, a); } else { ActIsLater(t.server, t.client, a); }
    }
  }

  lemma ActIsLater(x: End, y: End, a: Action)
    ensures Later(x, Act(x, y, a))
  {
    match a
    case Write(_, bytes) =>
    case Send(_, data) => SendIsLater(x, data);
    case Receive(_, k) => if k < |y.log| { ReceiveIsLater(x, y.log[k].packet); }
  }

  lemma SendIsLater(x: End, data: seq<byte>)
    ensures Later(x, SendFrom(x, data))
  {
  }

  lemma ReceiveIsLater(x: End, p: Packet)
    ensures Later(x, ReceiveAt(x, p))
  {
  }

  function EndOf(s: System, client: bool): End { if client then s.client else s.server }

  /** In every run, when an end is about to send a reliable packet, no reliable packet it sent before holds
      an unaccepted block that could still get through: if a block is being repeated, it was never
      accepted, and every earlier copy is discarded by the receiver now and after any further steps. */
  lemma RepeatsOnlyTheLost(port: byte, actions: seq<Action>, more: seq<Action>, client: bool, k: nat)
    requires Legal(actions) && |actions| < HIGH_BIT - 2
    requires var x := EndOf(Run(Init(port), actions), client);
      NeedReliable(x.chan) && k < |x.log| && x.log[k].packet.header.reliable
    ensures var s, t := Run(Init(port), actions), Run(Run(Init(port), actions), more);
      var x, y, x', y' := EndOf(s, client), EndOf(s, !client), EndOf(t, client), EndOf(t, !client);
      && |y.accepted| == |x.staged| - (if Stages(x.chan) then 0 else 1)
      && |x.log| <= |x'.log| && x'.log[k] == x.log[k]
      && !AfterProcess(y'.chan, x.log[k].packet.header).1
      && ReceiveAt(y', x.log[k].packet) == y'
  {
    RunKeeps(port, actions);
    var s := Run(Init(port), actions);
    var x, y := EndOf(s, client), EndOf(s, !client);
    InvIsSymmetric(s.server, s.client);
    OnlyDeadCopies(x, y);
    RunIsLater(s, more);
    assert EntryOk(x, k);
  }

  // ----- progress

  /** `x` sends and the packet arrives. */
  function Pass(x: End, y: End, data: seq<byte>): (End, End)
  {
    var x' := SendFrom(x, data);
    (x', if x'.log == [] then y else ReceiveAt(y, x'.log[|x'.log| - 1].packet))
  }

  /** Both ends send once and each packet arrives. */
  function Exchange(x: End, y: End, toY: seq<byte>, toX: seq<byte>): (End, End)
  {
    var (x1, y1) := Pass(x, y, toY);
    var (y2, x2) := Pass(y1, x1, toX);
    (x2, y2)
  }

  /** Neither end is stuck in a message overflow or about to run out of sequence numbers. */
  ghost predicate Healthy(x: End, y: End, rounds: nat)
  {
    && |x.log| + rounds < HIGH_BIT - 2 && |y.log| + rounds < HIGH_BIT - 2
    && !x.chan.message.overflowed && !y.chan.message.overflowed
  }

  lemma PassKeeps(x: End, y: End, data: seq<byte>)
    requires Inv(x, y) && Healthy(x, y, 0)
    ensures var (x', y') := Pass(x, y, data);
      && Inv(x', y') && |x'.log| == |x.log| + 1 && y'.log == y.log
      && !x'.chan.message.overflowed && !y'.chan.message.overflowed
      && Later(x, x') && Later(y, y')
  {
    hide Inv, Later;
    SendKeeps(x, y, data);
    var x' := SendFrom(x, data);
    SendIsLater(x, data);
    InvIsSymmetric(x', y);
    ReceiveKeeps(y, x', |x.log|);
    ReceiveIsLater(y, x'.log[|x.log|].packet);
    InvIsSymmetric(x', ReceiveAt(y, x'.log[|x.log|].packet));
  }

  /** A packet just sent is newer than what the peer has taken in, so it is accepted. */
  lemma SendLands(x: End, y: End, data: seq<byte>)
    requires x.chan.outgoingSequence == |x.log| + 1 && y.chan.incomingSequence <= |x.log|
    requires x.chan.incomingSequence < HIGH_BIT && |x.log| + 1 < HIGH_BIT && !x.chan.message.overflowed
    ensures var x' := SendFrom(x, data);
      && |x'.log| == |x.log| + 1 && x'.accepted == x.accepted
      && (!NeedReliable(x.chan) ==>
           x'.staged == x.staged && x'.chan.lastReliableSequence == x.chan.lastReliableSequence)
      && var y' := ReceiveAt(y, x'.log[|x.log|].packet);
      && y'.chan.incomingSequence == |x.log| + 1 && y'.chan.incomingAcknowledged == x.chan.incomingSequence
      && y'.staged == y.staged && y'.chan.lastReliableSequence == y.chan.lastReliableSequence
      && (if NeedReliable(x.chan) then |y'.accepted| == |y.accepted| + 1 else y'.accepted == y.accepted)
  {
  }

  lemma PassDelivers(x: End, y: End, data: seq<byte>)
    requires Inv(x, y) && Healthy(x, y, 0)
    ensures var (x', y') := Pass(x, y, data);
      && y'.chan.incomingSequence == |x.log| + 1
      && y'.chan.incomingAcknowledged == x.chan.incomingSequence
      && x'.accepted == x.accepted && y'.staged == y.staged
      && y'.chan.lastReliableSequence == y.chan.lastReliableSequence
      && (if NeedReliable(x.chan) then |y'.accepted| == |y.accepted| + 1
          else y'.accepted == y.accepted && x'.staged == x.staged
               && x'.chan.lastReliableSequence == x.chan.lastReliableSequence)
  {
    hide SendFrom, ReceiveAt, NeedReliable;
    SendLands(x, y, data);
  }

  /** One exchange gets the outstanding block accepted, or brings the news that it was lost. */
  ghost predicate Progress(x: End, y: End, x': End, y': End)
  {
    && Inv(x', y') && |x'.log| == |x.log| + 1 && |y'.log| == |y.log| + 1
    && !x'.chan.message.overflowed && !y'.chan.message.overflowed
    && Later(x, x') && Later(y, y')
    && (|x.staged| <= |y'.accepted|
        || (!NeedReliable(x.chan) && x'.chan.incomingAcknowledged == |x.log| + 1
            && |x'.staged| == |y'.accepted| + 1
            && x'.chan.lastReliableSequence == x.chan.lastReliableSequence))
  }

  lemma ExchangeStep(x: End, y: End, toY: seq<byte>, toX: seq<byte>)
    requires Inv(x, y) && Healthy(x, y, 1)
    ensures var (x', y') := Exchange(x, y, toY, toX); Progress(x, y, x', y')
  {
    var (x1, y1) := Pass(x, y, toY);
    PassKeeps(x, y, toY);
    PassDelivers(x, y, toY);
    InvIsSymmetric(x1, y1);
    PassKeeps(y1, x1, toX);
    PassDelivers(y1, x1, toX);
    var (y2, x2) := Pass(y1, x1, toX);
    InvIsSymmetric(x2, y2);
  }

  lemma KnownLost(x: End, y: End)
    requires Inv(x, y) && |x.staged| == |y.accepted| + 1
    requires x.chan.incomingAcknowledged > x.chan.lastReliableSequence
    ensures NeedReliable(x.chan)
  {
  }

  /** From any state a run can reach, three exchanges without loss get every staged block accepted. */
  lemma ThreeExchangesDeliver(x: End, y: End, d: seq<seq<byte>>)
    requires Inv(x, y) && Healthy(x, y, 3) && |d| == 6
    ensures var (x1, y1) := Exchange(x, y, d[0], d[1]);
      var (x2, y2) := Exchange(x1, y1, d[2], d[3]);
      var (x3, y3) := Exchange(x2, y2, d[4], d[5]);
      x.staged <= y3.accepted
  {
    ExchangeStep(x, y, d[0], d[1]);
    var (x1, y1) := Exchange(x, y, d[0], d[1]);
    ExchangeStep(x1, y1, d[2], d[3]);
    var (x2, y2) := Exchange(x1, y1, d[2], d[3]);
    ExchangeStep(x2, y2, d[4], d[5]);
    var (x3, y3) := Exchange(x2, y2, d[4], d[5]);
    ThreeProgress(x, y, x1, y1, x2, y2, x3, y3);
  }

  lemma ThreeProgress(x: End, y: End, x1: End, y1: End, x2: End, y2: End, x3: End, y3: End)
    requires Inv(x, y) && Progress(x, y, x1, y1) && Progress(x1, y1, x2, y2) && Progress(x2, y2, x3, y3)
    ensures x.staged <= y3.accepted
  {
    hide LogOk, LogMonotone, View, Stream;
    if |y3.accepted| < |x.staged| {
      KnownLost(x2, y2);
    }
    assert y3.accepted <= x3.staged && x.staged <= x3.staged;
  }
}
