/** Whole runs of movement commands from an active client to the server that runs it, over a channel that
    loses packets: what the player did goes into commands, commands into datagrams, and out of those that get
    through the server runs every command exactly once and in order, as long as no more than two in a row are
    lost. */
module UserCmdRun {
  import opened MemBuf
  import opened NetMessage
  import opened Rings
  import opened UserCmds
  import NetChan

  /** A datagram, with the size of the reliable block in it; `whole` if there was room for the move. */
  datatype Datagram = Datagram(bytes: seq<byte>, block: nat, whole: bool)

  /** What a command was made of: the input since the one before, and the time of its packet. */
  datatype Made = Made(inputs: seq<UserCmd>, packetDelta: int)

  /** How many packets were missing before one that was accepted, and whether that one held a move. */
  datatype Gap = Gap(drop: nat, moved: bool)

  /** `inputs` is the input since the last packet.  `commands` are the commands as sent, the first of them with
      the packet numbered `start`; `made` says of what each was made, `sent` are the datagrams.  The server's end
      of the channel had accepted `origin` when the client started; `gaps` are those before each packet accepted
      since. */
  datatype Sys = Sys(ring: CmdRing, inputs: seq<UserCmd>, start: nat, commands: seq<UserCmd>, made: seq<Made>,
                     sent: seq<Datagram>, chan: NetChan.Chan, origin: nat, lastCmd: UserCmd, thought: seq<UserCmd>,
                     gaps: seq<Gap>)

  /** `end` is the client's end of the channel, whatever else goes through it. */
  datatype Action =
    | Update(input: UserCmd)
    | Send(packetDelta: int, lastFrame: int, end: NetChan.Chan)
    | Receive(k: nat)

  /** The client's end of the channel when it is about to send its next packet. */
  function EndOfChannel(s: Sys, end: NetChan.Chan): NetChan.Chan
  {
    end.(client := true, outgoingSequence := s.ring.outgoing)
  }

  /** The datagram that Netchan_Transmit makes of a move. */
  function Transmitted(c: NetChan.Chan, data: seq<byte>): Datagram
    requires !c.message.overflowed
  {
    Datagram(NetChan.Encode(c, NetChan.AfterTransmit(c, data).1.value), |NetChan.Due(c)|,
             9 + |NetChan.Due(c)| + |data| <= MAX_MSG_SIZE)
  }

  /** Nothing goes out, and the command is lost. */
  function Wiped(r: CmdRing): CmdRing
    requires |r.cmds| == CMD_BACKUP
  {
    r.(cmds := r.cmds[Slot(r.outgoing, CMD_BACKUP) := NULL_CMD])
  }

  function Step(s: Sys, a: Action): Sys
    requires |s.ring.cmds| == CMD_BACKUP
  {
    match a
    case Update(input) => s.(ring := Updated(s.ring, input), inputs := s.inputs + [input])
    case Send(packetDelta, lastFrame, end) =>
      if end.message.overflowed then s.(ring := Wiped(s.ring), inputs := [])
      else
        s.(ring := AfterSend(s.ring, packetDelta),
           inputs := [],
           commands := s.commands + [Finalized(CmdFor(s.ring, s.ring.outgoing), packetDelta)],
           made := s.made + [Made(s.inputs, packetDelta)],
           sent := s.sent + [Transmitted(EndOfChannel(s, end), Payload(s.ring, packetDelta, lastFrame))])
    case Receive(k) =>
      if k >= |s.sent| then s
      else
        var (chan, accepted) := NetChan.AfterProcess(s.chan, NetChan.DecodeHeader(s.sent[k].bytes));
        var drop := if chan.dropped > 0 then chan.dropped else 0;
        if !accepted then s
        else if !s.sent[k].whole then s.(chan := chan, gaps := s.gaps + [Gap(drop, false)])
        else
          // from behind the header, the block and the command byte
          var m := MoveAt(s.sent[k].bytes, 10 + s.sent[k].block);
          s.(chan := chan, lastCmd := m.newest, thought := s.thought + Replay(chan.dropped, s.lastCmd, m),
             gaps := s.gaps + [Gap(drop, true)])
  }

  /** The command of a packet; before the client became active there was none. */
  function CmdOf(s: Sys, sequence: int): UserCmd
  {
    if s.start <= sequence < s.start + |s.commands| then s.commands[sequence - s.start] else NULL_CMD
  }

  /** The commands of the packets numbered from `low` up to but not including `high`. */
  function CmdsBetween(s: Sys, low: int, high: int): (r: seq<UserCmd>)
    requires low <= high
    ensures |r| == high - low
    ensures forall i {:trigger r[i]} :: 0 <= i < high - low ==> r[i] == CmdOf(s, low + i)
  {
    seq(high - low, i requires 0 <= i < high - low => CmdOf(s, low + i))
  }

  ghost predicate Small(gaps: seq<Gap>, bound: nat)
  {
    forall i {:trigger gaps[i]} :: 0 <= i < |gaps| ==> gaps[i].moved && gaps[i].drop <= bound
  }

  /** A datagram has its number, and its own command and the two before it if it is whole. */
  ghost predicate SentOk(s: Sys, k: nat)
    requires k < |s.sent|
  {
    var d := s.sent[k];
    && NetChan.DecodeHeader(d.bytes).sequence == s.start + k
    && (d.whole ==>
         && MoveAt(d.bytes, 10 + d.block).oldest == CmdOf(s, s.start + k - 2)
         && MoveAt(d.bytes, 10 + d.block).old_ == CmdOf(s, s.start + k - 1)
         && MoveAt(d.bytes, 10 + d.block).newest == CmdOf(s, s.start + k))
  }

  ghost predicate AllSentOk(s: Sys)
  {
    |s.sent| == |s.commands| && forall k {:trigger s.sent[k]} :: 0 <= k < |s.sent| ==> SentOk(s, k)
  }

  ghost predicate RingOk(s: Sys)
  {
    && |s.ring.cmds| == CMD_BACKUP
    && 1 <= s.start && s.ring.outgoing == s.start + |s.commands|
    && CmdFor(s.ring, s.ring.outgoing - 1) == CmdOf(s, s.ring.outgoing - 1)
    && CmdFor(s.ring, s.ring.outgoing - 2) == CmdOf(s, s.ring.outgoing - 2)
  }

  /** Commands are made of the input between them, the next one of the input so far. */
  ghost predicate MadeOk(s: Sys)
    requires |s.ring.cmds| == CMD_BACKUP
  {
    && CmdFor(s.ring, s.ring.outgoing) == Gathered(s.inputs)
    && |s.made| == |s.commands|
    && forall k {:trigger s.commands[k]} :: 0 <= k < |s.commands| ==>
         s.commands[k] == Finalized(Gathered(s.made[k].inputs), s.made[k].packetDelta)
  }

  /** The newest packet taken in, after these gaps. */
  function EndOf(origin: int, gaps: seq<Gap>): int
  {
    if gaps == [] then origin else EndOf(origin, gaps[..|gaps| - 1]) + gaps[|gaps| - 1].drop + 1
  }

  /** A packet with a move after a gap of fewer than twenty packets behind the one numbered `last`, in which
      every command but the two newest was the same as the command of `last`. */
  ghost predicate Filled(s: Sys, last: int, gap: Gap)
  {
    && gap.moved && gap.drop < 20
    && forall i {:trigger CmdOf(s, i)} :: last < i < last + gap.drop - 1 ==> CmdOf(s, i) == CmdOf(s, last)
  }

  ghost predicate AllFilled(s: Sys, gaps: seq<Gap>)
  {
    gaps == []
    || (AllFilled(s, gaps[..|gaps| - 1]) && Filled(s, EndOf(s.origin, gaps[..|gaps| - 1]), gaps[|gaps| - 1]))
  }

  ghost predicate AllMoved(gaps: seq<Gap>) { forall i {:trigger gaps[i]} :: 0 <= i < |gaps| ==> gaps[i].moved }

  ghost predicate ServerOk(s: Sys)
  {
    && s.origin < s.start && s.origin <= s.chan.incomingSequence < s.start + |s.commands|
    && s.chan.incomingSequence == EndOf(s.origin, s.gaps)
    && (AllMoved(s.gaps) ==> s.lastCmd == CmdOf(s, s.chan.incomingSequence))
    && (s.thought == CmdsBetween(s, s.origin + 1, s.chan.incomingSequence + 1) <==> AllFilled(s, s.gaps))
    && |s.thought| <= s.chan.incomingSequence - s.origin
    && (|s.thought| == s.chan.incomingSequence - s.origin <==> Small(s.gaps, 19))
  }

  ghost predicate Inv(s: Sys) { AllSentOk(s) && RingOk(s) && MadeOk(s) && ServerOk(s) }

  function Init(start: nat, chan: NetChan.Chan): Sys
  {
    Sys(CmdRing(seq(CMD_BACKUP, _ => NULL_CMD), start), [], start, [], [], [], chan, chan.incomingSequence, NULL_CMD,
        [], [])
  }

  // ----- every step keeps it

  lemma SentStays(s: Sys, s': Sys)
    requires AllSentOk(s) && s'.start == s.start && s.commands <= s'.commands && s.sent <= s'.sent
    ensures forall k {:trigger SentOk(s', k)} :: 0 <= k < |s.sent| ==> SentOk(s', k)
  {
    hide MoveAt, NetChan.DecodeHeader;
    forall k | 0 <= k < |s.sent|
      ensures SentOk(s', k)
    {
      assert SentOk(s, k) && s'.sent[k] == s.sent[k];
      assert forall i :: i <= s.start + k ==> CmdOf(s', i) == CmdOf(s, i);
    }
  }

  lemma UpdateKeeps(s: Sys, input: UserCmd)
    requires Inv(s)
    ensures Inv(Step(s, Update(input)))
  {
    hide ServerOk, Slot, MoveAt, Accumulated, NetChan.DecodeHeader;
    SlotsApart(s.ring.outgoing);
    var s' := Step(s, Update(input));
    assert s'.inputs[..|s.inputs|] == s.inputs;
    assert forall k :: CmdOf(s', k) == CmdOf(s, k);
    SentStays(s, s');
    SameCommands(s, s');
  }

  /** A channel that has overflowed sends nothing, and the command in the making is lost. */
  lemma WipeKeeps(s: Sys, packetDelta: int, lastFrame: int, end: NetChan.Chan)
    requires Inv(s) && end.message.overflowed
    ensures Inv(Step(s, Send(packetDelta, lastFrame, end)))
  {
    hide ServerOk, Slot, MoveAt, NetChan.DecodeHeader;
    SlotsApart(s.ring.outgoing);
    var s' := Step(s, Send(packetDelta, lastFrame, end));
    assert forall k :: CmdOf(s', k) == CmdOf(s, k);
    SentStays(s, s');
    SameCommands(s, s');
  }

  lemma SameCommands(s: Sys, s': Sys)
    requires Inv(s) && s'.start == s.start && s.commands <= s'.commands && s'.lastCmd == s.lastCmd
    requires s'.chan == s.chan && s'.thought == s.thought && s'.gaps == s.gaps && s'.origin == s.origin
    ensures ServerOk(s')
  {
    hide AllSentOk, RingOk, MadeOk, Small;
    var low, high := s.origin + 1, s.chan.incomingSequence + 1;
    assert CmdsBetween(s', low, high) == CmdsBetween(s, low, high);
    FilledStays(s, s', s.gaps);
  }

  lemma {:induction false} FilledStays(s: Sys, s': Sys, gaps: seq<Gap>)
    requires s'.start == s.start && s.commands <= s'.commands && s'.origin == s.origin
    requires EndOf(s.origin, gaps) < s.start + |s.commands|
    ensures AllFilled(s', gaps) <==> AllFilled(s, gaps)
  {
    if gaps != [] {
      var n := |gaps| - 1;
      FilledStays(s, s', gaps[..n]);
      var last := EndOf(s.origin, gaps[..n]);
      assert forall i :: i <= last + gaps[n].drop ==> CmdOf(s', i) == CmdOf(s, i);
    }
  }

  lemma MoveCarried(c: NetChan.Chan, lastFrame: int, oldest: UserCmd, old_: UserCmd, newest: UserCmd)
    requires c.client && !c.message.overflowed && -0x8000_0000 <= lastFrame < 0x8000_0000
    ensures var d := Transmitted(c, MoveBytes(lastFrame, oldest, old_, newest));
      && NetChan.DecodeHeader(d.bytes).sequence == c.outgoingSequence % NetChan.HIGH_BIT
      && (d.whole ==> MoveAt(d.bytes, 10 + d.block) == Move(lastFrame, oldest, old_, newest))
  {
    hide MoveAt, MoveBytes, NetChan.DecodeHeader, NetChan.Encode, NetChan.AfterTransmit, NetChan.Due;
    var p := MoveBytes(lastFrame, oldest, old_, newest);
    NetChan.TransmitCarries(c, p);
    if 9 + |NetChan.Due(c)| + |p| <= MAX_MSG_SIZE {
      NetChan.DataStands(c, p);
      MoveRoundTrip(Transmitted(c, p).bytes, 9 + |NetChan.Due(c)|, lastFrame, oldest, old_, newest);
    }
  }

  /** The datagram just made has its number, and if there is room the three newest commands, behind the header
      and the block. */
  lemma SendsThree(s: Sys, packetDelta: int, lastFrame: int, end: NetChan.Chan)
    requires Inv(s) && -0x8000_0000 <= lastFrame < 0x8000_0000 && !end.message.overflowed
    requires s.ring.outgoing < NetChan.HIGH_BIT
    ensures var s' := Step(s, Send(packetDelta, lastFrame, end)); var n, d := s.ring.outgoing, s'.sent[|s.sent|];
      && NetChan.DecodeHeader(d.bytes).sequence == n
      && (d.whole ==>
           MoveAt(d.bytes, 10 + d.block) == Move(lastFrame, CmdOf(s', n - 2), CmdOf(s', n - 1), CmdOf(s', n)))
  {
    hide AllSentOk, MadeOk, ServerOk, Slot, MoveAt, MoveBytes, Transmitted, NetChan.DecodeHeader;
    var n: int := s.ring.outgoing;
    MoveCarried(EndOfChannel(s, end), lastFrame, CmdFor(s.ring, n - 2), CmdFor(s.ring, n - 1),
                Finalized(CmdFor(s.ring, n), packetDelta));
  }

  lemma SendKeeps(s: Sys, packetDelta: int, lastFrame: int, end: NetChan.Chan)
    requires Inv(s) && -0x8000_0000 <= lastFrame < 0x8000_0000 && !end.message.overflowed
    requires s.ring.outgoing < NetChan.HIGH_BIT
    ensures Inv(Step(s, Send(packetDelta, lastFrame, end)))
  {
    hide ServerOk, Slot, MoveAt, Payload, Finalized, Transmitted, NetChan.DecodeHeader;
    var s' := Step(s, Send(packetDelta, lastFrame, end));
    SlotsApart(s.ring.outgoing);
    SlotsApart(s.ring.outgoing + 1);
    SendsThree(s, packetDelta, lastFrame, end);
    SameCommands(s, s');
    SentStays(s, s');
    assert SentOk(s', |s.sent|);
  }

  /** What runs for a packet is exactly the lost commands and its own when fewer than twenty were lost, and
      all of these but the two newest were the same as the last command run. */
  lemma ReplayIsExact(s: Sys, drop: nat, sequence: nat, m: Move)
    requires m.oldest == CmdOf(s, sequence - 2) && m.old_ == CmdOf(s, sequence - 1) && m.newest == CmdOf(s, sequence)
    ensures Replay(drop, s.lastCmd, m) == CmdsBetween(s, sequence - drop, sequence + 1) <==>
      drop < 20 && forall i {:trigger CmdOf(s, i)} :: sequence - drop <= i < sequence - 2 ==> CmdOf(s, i) == s.lastCmd
  {
    hide Replay, CmdOf, CmdsBetween;
    var r, c := Replay(drop, s.lastCmd, m), CmdsBetween(s, sequence - drop, sequence + 1);
    ReplayCounts(drop, s.lastCmd, m);
    if drop < 20 { ReplayLast(drop, s.lastCmd, m); }
    if r == c {
      forall i | sequence - drop <= i < sequence - 2
        ensures CmdOf(s, i) == s.lastCmd
      {
        assert c[i - (sequence - drop)] == CmdOf(s, i);
      }
    }
    if
      && drop < 20
      && forall i {:trigger CmdOf(s, i)} :: sequence - drop <= i < sequence - 2 ==> CmdOf(s, i) == s.lastCmd
    {
      forall j | 0 <= j < |c|
        ensures r[j] == c[j]
      {
        assert c[j] == CmdOf(s, sequence - drop + j);
      }
    }
  }

  lemma ReplayLast(drop: nat, last: UserCmd, m: Move)
    requires drop < 20
    ensures var r := Replay(drop, last, m);
      && |r| == drop + 1 && r[drop] == m.newest
      && (drop > 0 ==> r[drop - 1] == m.old_) && (drop > 1 ==> r[drop - 2] == m.oldest)
      && forall j :: 0 <= j < drop - 2 ==> r[j] == last
  {
  }

  /** The server always runs as many commands as packets have gone by, unless twenty or more are missing;
      then it runs one. */
  lemma ReplayCounts(drop: nat, last: UserCmd, m: Move)
    ensures |Replay(drop, last, m)| == if drop < 20 then drop + 1 else 1
    ensures drop > 2 ==> Replay(drop, last, m)[|Replay(drop, last, m)| - 1] == m.newest
    ensures 2 < drop < 20 ==> Replay(drop, last, m)[drop - 2..] == [m.oldest, m.old_, m.newest]
    ensures 2 < drop < 20 ==> forall i :: 0 <= i < drop - 2 ==> Replay(drop, last, m)[i] == last
  {
  }

  /** What the server has run after one more packet got through. */
  lemma ReceiveRuns(s: Sys, k: nat)
    requires Inv(s) && k < |s.sent| && s.start + k > s.chan.incomingSequence
    ensures ServerOk(Step(s, Receive(k)))
  {
    hide MoveAt, Replay, Small, AllFilled, AllMoved, CmdsBetween, RingOk, MadeOk, NetChan.DecodeHeader;
    assert |s.ring.cmds| == CMD_BACKUP by { Shaped(s); }
    assert SentOk(s, k);
    var d, last := s.sent[k], s.chan.incomingSequence;
    AfterReceive(s, k);
    hide Step;
    var drop := s.start + k - last - 1;
    if d.whole {
      RunsOn(s, Step(s, Receive(k)), drop, s.start + k, MoveAt(d.bytes, 10 + d.block));
    } else {
      RunsNone(s, Step(s, Receive(k)), drop);
    }
  }

  /** After a packet without a move the server is behind for good. */
  lemma RunsNone(s: Sys, s': Sys, drop: nat)
    requires ServerOk(s) && s.chan.incomingSequence + drop + 1 < s.start + |s.commands|
    requires s'.start == s.start && s'.origin == s.origin && s'.commands == s.commands
    requires s'.chan.incomingSequence == s.chan.incomingSequence + drop + 1
    requires s'.gaps == s.gaps + [Gap(drop, false)] && s'.thought == s.thought
    ensures ServerOk(s')
  {
    hide EndOf, CmdsBetween, CmdOf;
    GapAdded(s, s', Gap(drop, false));
    SmallGrows(s.gaps, Gap(drop, false), 19);
    assert !s'.gaps[|s.gaps|].moved;
  }

  lemma RunsOn(s: Sys, s': Sys, drop: nat, sequence: nat, m: Move)
    requires ServerOk(s) && s.chan.incomingSequence + drop + 1 == sequence < s.start + |s.commands|
    requires m.oldest == CmdOf(s, sequence - 2) && m.old_ == CmdOf(s, sequence - 1) && m.newest == CmdOf(s, sequence)
    requires s'.start == s.start && s'.origin == s.origin && s'.commands == s.commands
    requires s'.chan.incomingSequence == sequence
    requires s'.gaps == s.gaps + [Gap(drop, true)] && s'.thought == s.thought + Replay(drop, s.lastCmd, m)
    requires s'.lastCmd == m.newest
    ensures ServerOk(s')
  {
    hide Replay, Small, AllFilled, EndOf, CmdsBetween, Filled;
    assert CmdOf(s', sequence) == CmdOf(s, sequence);
    ReplayCounts(drop, s.lastCmd, m);
    SmallGrows(s.gaps, Gap(drop, true), 19);
    GapAdded(s, s', Gap(drop, true));
    if AllMoved(s.gaps) {
      RunsExactly(s, s', drop, sequence, m);
    } else {
      StillBehind(s, s', drop);
    }
  }

  /** Once a packet without a move was taken in, too few commands have been run. */
  lemma StillBehind(s: Sys, s': Sys, drop: nat)
    requires ServerOk(s) && !AllMoved(s.gaps) && s'.gaps == s.gaps + [Gap(drop, true)] && s'.origin == s.origin
    requires |s'.thought| <= |s.thought| + drop + 1 && s'.start == s.start && s'.commands == s.commands
    requires s'.chan.incomingSequence == s.chan.incomingSequence + drop + 1
    ensures !AllFilled(s', s'.gaps) && |s'.thought| < s'.chan.incomingSequence - s'.origin
  {
    hide CmdsBetween, EndOf, CmdOf;
    var i :| 0 <= i < |s.gaps| && !s.gaps[i].moved;
    assert !Small(s.gaps, 19) && s'.gaps[i] == s.gaps[i];
    if AllFilled(s', s'.gaps) { FilledIsMoved(s', s'.gaps); }
  }

  lemma {:induction false} FilledIsMoved(s: Sys, gaps: seq<Gap>)
    requires AllFilled(s, gaps)
    ensures AllMoved(gaps)
  {
    hide EndOf, CmdOf;
    if gaps != [] { FilledIsMoved(s, gaps[..|gaps| - 1]); }
  }

  lemma RunsExactly(s: Sys, s': Sys, drop: nat, sequence: nat, m: Move)
    requires ServerOk(s) && s.chan.incomingSequence + drop + 1 == sequence < s.start + |s.commands|
    requires AllMoved(s.gaps)
    requires m.oldest == CmdOf(s, sequence - 2) && m.old_ == CmdOf(s, sequence - 1) && m.newest == CmdOf(s, sequence)
    requires s'.start == s.start && s'.origin == s.origin && s'.commands == s.commands
    requires s'.gaps == s.gaps + [Gap(drop, true)] && s'.thought == s.thought + Replay(drop, s.lastCmd, m)
    ensures s'.thought == CmdsBetween(s', s'.origin + 1, sequence + 1) <==> AllFilled(s', s'.gaps)
  {
    hide Replay, Small, AllFilled, EndOf, CmdsBetween, Filled, AllMoved;
    var last := s.chan.incomingSequence;
    var was, lost := CmdsBetween(s, s.origin + 1, last + 1), CmdsBetween(s, last + 1, sequence + 1);
    ReplayIsExact(s, drop, sequence, m);
    FilledMeans(s, last, drop);
    assert Replay(drop, s.lastCmd, m) == lost <==> Filled(s, last, Gap(drop, true));
    GapAdded(s, s', Gap(drop, true));
    hide CmdOf;
    ReplayCounts(drop, s.lastCmd, m);
    Joined(s, s', s.origin + 1, last + 1, sequence + 1);
    Pieces(s.thought, Replay(drop, s.lastCmd, m), was, lost);
  }

  lemma FilledMeans(s: Sys, last: int, drop: nat)
    requires s.lastCmd == CmdOf(s, last)
    ensures Filled(s, last, Gap(drop, true)) <==>
      drop < 20 && forall i {:trigger CmdOf(s, i)} :: last + 1 <= i < last + drop - 1 ==> CmdOf(s, i) == s.lastCmd
  {
  }

  lemma AfterReceive(s: Sys, k: nat)
    requires |s.ring.cmds| == CMD_BACKUP && k < |s.sent|
    requires NetChan.DecodeHeader(s.sent[k].bytes).sequence == s.start + k && s.start + k > s.chan.incomingSequence
    ensures var s', d := Step(s, Receive(k)), s.sent[k];
      var drop, m := s.start + k - s.chan.incomingSequence - 1, MoveAt(d.bytes, 10 + d.block);
      && s'.start == s.start && s'.origin == s.origin && s'.commands == s.commands
      && s'.chan.incomingSequence == s.start + k && s'.gaps == s.gaps + [Gap(drop, d.whole)]
      && (if d.whole then s'.thought == s.thought + Replay(drop, s.lastCmd, m) && s'.lastCmd == m.newest
          else s'.thought == s.thought)
  {
    hide MoveAt, Replay, Slot, NetChan.DecodeHeader;
  }

  lemma Pieces<T>(a: seq<T>, b: seq<T>, c: seq<T>, d: seq<T>)
    requires |a| <= |c| && |b| <= |d|
    ensures a + b == c + d <==> a == c && b == d
  {
    if a + b == c + d {
      assert |a| == |c|;
      assert (a + b)[..|a|] == a && (c + d)[..|a|] == c && (a + b)[|a|..] == b && (c + d)[|a|..] == d;
    }
  }

  lemma GapAdded(s: Sys, s': Sys, gap: Gap)
    requires s'.start == s.start && s'.commands == s.commands && s'.origin == s.origin && s'.gaps == s.gaps + [gap]
    requires EndOf(s.origin, s.gaps) < s.start + |s.commands|
    ensures EndOf(s'.origin, s'.gaps) == EndOf(s.origin, s.gaps) + gap.drop + 1
    ensures AllFilled(s', s'.gaps) <==> AllFilled(s, s.gaps) && Filled(s, EndOf(s.origin, s.gaps), gap)
  {
    assert s'.gaps[..|s.gaps|] == s.gaps;
    FilledStays(s, s', s.gaps);
    assert forall i :: CmdOf(s', i) == CmdOf(s, i);
  }

  lemma Joined(s: Sys, s': Sys, low: int, mid: int, high: int)
    requires low <= mid <= high && s'.start == s.start && s'.commands == s.commands
    ensures CmdsBetween(s', low, high) == CmdsBetween(s, low, mid) + CmdsBetween(s, mid, high)
  {
    assert forall i :: CmdOf(s', i) == CmdOf(s, i);
  }

  lemma ReceiveKeeps(s: Sys, k: nat)
    requires Inv(s)
    ensures Inv(Step(s, Receive(k)))
  {
    hide MoveAt, Replay, ServerOk, NetChan.DecodeHeader, Gathered, Slot;
    var s' := Step(s, Receive(k));
    if k < |s.sent| {
      assert SentOk(s, k);
      if s.start + k > s.chan.incomingSequence { ReceiveRuns(s, k); }
      assert forall i :: CmdOf(s', i) == CmdOf(s, i);
      SentStays(s, s');
    }
  }

  lemma SmallGrows(gaps: seq<Gap>, gap: Gap, bound: nat)
    ensures Small(gaps + [gap], bound) <==> Small(gaps, bound) && gap.moved && gap.drop <= bound
  {
    assert (gaps + [gap])[|gaps|] == gap;
    assert forall i :: 0 <= i < |gaps| ==> (gaps + [gap])[i] == gaps[i];
  }

  // ----- every run

  /** Frame numbers fit their word, and the sequence numbers do not run out. */
  ghost predicate Legal(actions: seq<Action>, start: nat)
  {
    && start + |actions| < NetChan.HIGH_BIT
    && forall a :: a in actions && a.Send? ==> -0x8000_0000 <= a.lastFrame < 0x8000_0000
  }

  ghost predicate IsRun(states: seq<Sys>, actions: seq<Action>, start: nat, chan: NetChan.Chan)
  {
    && Legal(actions, start) && chan.incomingSequence < start
    && |states| == |actions| + 1 && states[0] == Init(start, chan)
    && forall i :: 0 <= i < |actions| ==>
         |states[i].ring.cmds| == CMD_BACKUP && states[i + 1] == Step(states[i], actions[i])
  }

  lemma InitOk(start: nat, chan: NetChan.Chan)
    requires chan.incomingSequence < start
    ensures Inv(Init(start, chan))
  {
  }

  lemma {:induction false} RunKeeps(states: seq<Sys>, actions: seq<Action>, start: nat, chan: NetChan.Chan, n: nat)
    requires IsRun(states, actions, start, chan) && n < |states|
    ensures Inv(states[n]) && states[n].ring.outgoing <= start + n
  {
    hide Inv;
    if n == 0 {
      InitOk(start, chan);
    } else {
      RunKeeps(states, actions, start, chan, n - 1);
      var s, a := states[n - 1], actions[n - 1];
      assert a in actions;
      OutgoingStep(s, a);
      match a
      case Update(input) => UpdateKeeps(s, input);
      case Send(packetDelta, lastFrame, end) =>
        if end.message.overflowed {
          WipeKeeps(s, packetDelta, lastFrame, end);
        } else {
          SendKeeps(s, packetDelta, lastFrame, end);
        }
      case Receive(k) => ReceiveKeeps(s, k);
    }
  }

  lemma OutgoingStep(s: Sys, a: Action)
    requires |s.ring.cmds| == CMD_BACKUP
    ensures s.ring.outgoing <= Step(s, a).ring.outgoing <= s.ring.outgoing + 1
  {
    hide Slot, MoveAt, NetChan.DecodeHeader, Accumulated, Payload, Transmitted;
  }

  lemma {:induction false} SmallIsFilled(s: Sys, gaps: seq<Gap>)
    requires Small(gaps, 2)
    ensures AllFilled(s, gaps)
  {
    if gaps != [] {
      assert gaps[|gaps| - 1].moved && gaps[|gaps| - 1].drop <= 2;
      SmallIsFilled(s, gaps[..|gaps| - 1]);
    }
  }

  /** In every run, every command sent is what the player did since the one before: all the buttons pressed, the
      angles looked at last, the movement summed up, and the time of the packet, at least one millisecond and at
      most 255. */
  lemma CommandsAreMade(states: seq<Sys>, actions: seq<Action>, start: nat, chan: NetChan.Chan, n: nat, k: nat)
    requires IsRun(states, actions, start, chan) && n < |states| && k < |states[n].commands|
    ensures |states[n].made| == |states[n].commands|
    ensures var cmd, of := states[n].commands[k], states[n].made[k];
      && MadeOf(cmd, of.inputs)
      && cmd.msec == if of.packetDelta < 1 then 1 else if of.packetDelta <= 255 then of.packetDelta else 255
  {
    RunKeeps(states, actions, start, chan, n);
    var s := states[n];
    assert s.commands[k] == Finalized(Gathered(s.made[k].inputs), s.made[k].packetDelta);
    hide Inv, IsRun, Gathered, MadeOf, Finalized;
    GatheredIsMade(s.made[k].inputs);
    FinalizedIsMade(Gathered(s.made[k].inputs), s.made[k].inputs, s.made[k].packetDelta);
  }

  lemma FinalizedIsMade(cmd: UserCmd, inputs: seq<UserCmd>, packetDelta: int)
    requires MadeOf(cmd, inputs)
    ensures MadeOf(Finalized(cmd, packetDelta), inputs)
    ensures Finalized(cmd, packetDelta).msec ==
      if packetDelta < 1 then 1 else if packetDelta <= 255 then packetDelta else 255
  {
    hide Down, Int16;
  }

  /** In every run, what the server has run is every command since it last heard from the client, each once
      and in order, up to the newest packet taken in, exactly when every gap is filled: its packet held a move,
      it is shorter than twenty, and its commands but the newest two equal the last one run before.  Gaps of at
      most two always are, if there was room for the moves.  And it has run as many commands as there were
      exactly when all had room and no gap reached twenty. */
  lemma EveryCommandOnce(states: seq<Sys>, actions: seq<Action>, start: nat, chan: NetChan.Chan, n: nat)
    requires IsRun(states, actions, start, chan) && n < |states|
    ensures var s := states[n];
      && s.origin == chan.incomingSequence && s.chan.incomingSequence == EndOf(s.origin, s.gaps) >= s.origin
      && (s.thought == CmdsBetween(s, s.origin + 1, s.chan.incomingSequence + 1) <==> AllFilled(s, s.gaps))
      && (Small(s.gaps, 2) ==> AllFilled(s, s.gaps))
      && (|s.thought| == s.chan.incomingSequence - s.origin <==> Small(s.gaps, 19))
  {
    hide AllSentOk, RingOk, MadeOk;
    RunKeeps(states, actions, start, chan, n);
    OriginStays(states, actions, start, chan, n);
    if Small(states[n].gaps, 2) { SmallIsFilled(states[n], states[n].gaps); }
  }

  lemma {:induction false} OriginStays(states: seq<Sys>, actions: seq<Action>, start: nat, chan: NetChan.Chan, n: nat)
    requires IsRun(states, actions, start, chan) && n < |states|
    ensures states[n].origin == chan.incomingSequence
  {
    hide Slot, MoveAt, NetChan.DecodeHeader, Accumulated, Payload, Transmitted;
    if n > 0 {
      OriginStays(states, actions, start, chan, n - 1);
      assert states[n] == Step(states[n - 1], actions[n - 1]);
    }
  }

  /** A client on a quiet channel sends four packets, and the first three are lost. */
  function ThreeLost(): seq<Action>
  {
    var a := Send(10, -1, NetChan.Setup(true, 0));
    [a, a, a, a, Receive(3)]
  }

  /** There is a run for any actions. */
  lemma {:induction false} RunExists(actions: seq<Action>, start: nat, chan: NetChan.Chan)
    requires Legal(actions, start) && chan.incomingSequence < start
    ensures exists states :: IsRun(states, actions, start, chan)
  {
    var n := |actions| - 1;
    if n < 0 {
      assert IsRun([Init(start, chan)], actions, start, chan);
    } else {
      RunExists(actions[..n], start, chan);
      var states :| IsRun(states, actions[..n], start, chan);
      RunKeeps(states, actions[..n], start, chan, n);
      Shaped(states[n]);
      RunGoesOn(states, actions, start, chan);
    }
  }

  lemma RunGoesOn(states: seq<Sys>, actions: seq<Action>, start: nat, chan: NetChan.Chan)
    requires actions != [] && Legal(actions, start) && IsRun(states, actions[..|actions| - 1], start, chan)
    requires |states[|actions| - 1].ring.cmds| == CMD_BACKUP
    ensures IsRun(states + [Step(states[|actions| - 1], actions[|actions| - 1])], actions, start, chan)
  {
    hide Step, Init;
    var n := |actions| - 1;
    assert forall i :: 0 <= i < n ==> actions[..n][i] == actions[i];
  }

  lemma Shaped(s: Sys)
    requires Inv(s)
    ensures |s.ring.cmds| == CMD_BACKUP && |s.sent| == |s.commands|
  {
  }

  lemma QuietBlock(sequence: nat)
    ensures NetChan.Due(NetChan.Setup(true, 0).(client := true, outgoingSequence := sequence)) == []
  {
  }

  lemma Sends(s: Sys, packetDelta: int, lastFrame: int)
    requires |s.ring.cmds| == CMD_BACKUP && |s.sent| == |s.commands| && 1 <= packetDelta <= 255
    ensures var s' := Step(s, Send(packetDelta, lastFrame, NetChan.Setup(true, 0)));
      && |s'.ring.cmds| == CMD_BACKUP
      && s'.chan == s.chan && s'.gaps == s.gaps && s'.start == s.start && s'.origin == s.origin
      && |s'.commands| == |s.commands| + 1 == |s'.sent| && s.commands <= s'.commands
      && s'.commands[|s.commands|].msec == packetDelta && s'.sent[|s.sent|].whole && s.sent <= s'.sent
  {
    QuietBlock(s.ring.outgoing);
    hide Slot, MoveBytes, NetChan.Due, NetChan.Encode, NetChan.AfterTransmit;
  }

  /** Two losses in a row are filled, three need not be: in every such run the first command of all is lost,
      and the server runs another in its place. */
  lemma ThirdLossIsGuessed(states: seq<Sys>, chan: NetChan.Chan)
    requires chan.incomingSequence == 0 && IsRun(states, ThreeLost(), 1, chan)
    ensures var s := states[5];
      s.gaps == [Gap(3, true)] && s.chan.incomingSequence == 4 && s.thought != CmdsBetween(s, 1, 5)
  {
    EveryCommandOnce(states, ThreeLost(), 1, chan, 5);
    var s := states[5];
    ThreeLostState(states, chan);
    hide Step;
    assert s.gaps[..0] == [] && s.gaps == [Gap(3, true)];
    assert CmdOf(s, 0) == NULL_CMD && CmdOf(s, 1) == s.commands[0];
    assert !Filled(s, 0, Gap(3, true));
  }

  lemma ThreeLostState(states: seq<Sys>, chan: NetChan.Chan)
    requires chan.incomingSequence == 0 && IsRun(states, ThreeLost(), 1, chan)
    ensures var s := states[5];
      && s.gaps == [Gap(3, true)] && s.start == 1 && s.origin == 0 && |s.commands| == 4
      && s.commands[0].msec == 10 && s.chan.incomingSequence == 4
  {
    hide Step, NetChan.DecodeHeader;
    Begins(states, ThreeLost(), 1, chan);
    StepOf(states, chan, 0);
    StepOf(states, chan, 1);
    StepOf(states, chan, 2);
    StepOf(states, chan, 3);
    StepOf(states, chan, 4);
    NumberOf(states, chan);
    hide IsRun, ThreeLost;
    Sends(states[0], 10, -1);
    Sends(states[1], 10, -1);
    Sends(states[2], 10, -1);
    Sends(states[3], 10, -1);
    AfterReceive(states[4], 3);
  }

  lemma NumberOf(states: seq<Sys>, chan: NetChan.Chan)
    requires chan.incomingSequence == 0 && IsRun(states, ThreeLost(), 1, chan)
    ensures |states[4].sent| > 3 ==> NetChan.DecodeHeader(states[4].sent[3].bytes).sequence == states[4].start + 3
  {
    hide Step, NetChan.DecodeHeader, RingOk, MadeOk, ServerOk;
    RunKeeps(states, ThreeLost(), 1, chan, 4);
    if |states[4].sent| > 3 { assert SentOk(states[4], 3); }
  }

  lemma StepOf(states: seq<Sys>, chan: NetChan.Chan, i: nat)
    requires IsRun(states, ThreeLost(), 1, chan) && i < 5
    ensures |states| == 6 && |states[i].ring.cmds| == CMD_BACKUP
    ensures states[i + 1] == Step(states[i], if i < 4 then Send(10, -1, NetChan.Setup(true, 0)) else Receive(3))
  {
    hide Step;
  }

  lemma Begins(states: seq<Sys>, actions: seq<Action>, start: nat, chan: NetChan.Chan)
    requires IsRun(states, actions, start, chan)
    ensures var s := states[0];
      s.chan == chan && s.gaps == [] && s.commands == [] && s.sent == [] && s.start == start
        && s.origin == chan.incomingSequence
  {
  }
}
