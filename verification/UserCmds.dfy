/** Movement commands: the codec of src/net_message.c, the client's ring of recent commands and its
    threefold sending (src/client/cl_cmd.c), and the server's replay of what got lost
    (src/server/sv_client.c).  Every packet carries the last three commands, so that up to two lost packets
    in a row cost nothing. */
module UserCmds {
  import opened MemBuf
  import opened NetMessage
  import opened Rings

  datatype UserCmd = UserCmd(
    msec: byte,
    buttons: bv8,
    angle1: i16,
    angle2: i16,
    angle3: i16,
    forward: i16,
    right: i16,
    up: i16)

  const NULL_CMD := UserCmd(0, 0, 0, 0, 0, 0, 0, 0)

  const CMD_BACKUP: nat := 64
  const CL_CMD_MOVE: byte := 1
  const CMD_ANGLE1: bv8 := 0x1
  const CMD_ANGLE2: bv8 := 0x2
  const CMD_ANGLE3: bv8 := 0x4
  const CMD_FORWARD: bv8 := 0x8
  const CMD_RIGHT: bv8 := 0x10
  const CMD_UP: bv8 := 0x20
  const CMD_BUTTONS: bv8 := 0x40

  // ----- the codec

  datatype Field = Angle1 | Angle2 | Angle3 | Forward | Right | Up | Buttons

  const FIELDS := [Angle1, Angle2, Angle3, Forward, Right, Up, Buttons]

  function Bit(f: Field): bv8
  {
    match f
    case Angle1 => CMD_ANGLE1
    case Angle2 => CMD_ANGLE2
    case Angle3 => CMD_ANGLE3
    case Forward => CMD_FORWARD
    case Right => CMD_RIGHT
    case Up => CMD_UP
    case Buttons => CMD_BUTTONS
  }

  predicate Has(bits: bv8, f: Field) { bits & Bit(f) != 0 }

  predicate Differs(f: Field, a: UserCmd, b: UserCmd)
  {
    match f
    case Angle1 => a.angle1 != b.angle1
    case Angle2 => a.angle2 != b.angle2
    case Angle3 => a.angle3 != b.angle3
    case Forward => a.forward != b.forward
    case Right => a.right != b.right
    case Up => a.up != b.up
    case Buttons => a.buttons != b.buttons
  }

  function BitIf(f: Field, a: UserCmd, b: UserCmd): bv8 { if Differs(f, a, b) then Bit(f) else 0 }

  function Both(x: bv8, y: bv8): bv8 { x | y }

  /** The bits of some fields. */
  function BitsOf(fields: seq<Field>, a: UserCmd, b: UserCmd): bv8
  {
    if fields == [] then 0
    else Both(BitsOf(fields[..|fields| - 1], a, b), BitIf(fields[|fields| - 1], a, b))
  }

  function CmdBits(a: UserCmd, b: UserCmd): bv8 { BitsOf(FIELDS, a, b) }

  lemma HasOr(x: bv8, y: bv8, f: Field)
    ensures Has(Both(x, y), f) <==> Has(x, f) || Has(y, f)
  {
    match f {
      case Angle1 =>
      case Angle2 =>
      case Angle3 =>
      case Forward =>
      case Right =>
      case Up =>
      case Buttons =>
    }
  }

  lemma HasIf(g: Field, f: Field, a: UserCmd, b: UserCmd)
    ensures Has(BitIf(g, a, b), f) <==> g == f && Differs(g, a, b)
  {
    hide Differs;
  }

  lemma {:induction false} BitsOfTell(fields: seq<Field>, f: Field, a: UserCmd, b: UserCmd)
    ensures Has(BitsOf(fields, a, b), f) <==> f in fields && Differs(f, a, b)
  {
    hide Has, Bit, BitIf, Differs, Both;
    if fields == [] {
      NoBits(f);
    } else {
      var front, g := fields[..|fields| - 1], fields[|fields| - 1];
      assert fields == front + [g];
      BitsOfTell(front, f, a, b);
      HasOr(BitsOf(front, a, b), BitIf(g, a, b), f);
      HasIf(g, f, a, b);
    }
  }

  lemma NoBits(f: Field)
    ensures !Has(0, f)
  {
  }

  /** Each bit says whether its field differs. */
  lemma BitsTell(f: Field, a: UserCmd, b: UserCmd)
    ensures Has(CmdBits(a, b), f) <==> Differs(f, a, b)
  {
    hide Has, Bit, BitIf, Differs, BitsOf;
    BitsOfTell(FIELDS, f, a, b);
    match f {
      case Angle1 => assert f == FIELDS[0];
      case Angle2 => assert f == FIELDS[1];
      case Angle3 => assert f == FIELDS[2];
      case Forward => assert f == FIELDS[3];
      case Right => assert f == FIELDS[4];
      case Up => assert f == FIELDS[5];
      case Buttons => assert f == FIELDS[6];
    }
  }

  function FieldBytes(f: Field, a: UserCmd): (r: seq<byte>)
    ensures |r| <= 2
  {
    match f
    case Angle1 => ShortBytes(a.angle1)
    case Angle2 => ShortBytes(a.angle2)
    case Angle3 => ShortBytes(a.angle3)
    case Forward => ShortBytes(a.forward)
    case Right => ShortBytes(a.right)
    case Up => ShortBytes(a.up)
    case Buttons => ByteBytes(a.buttons as int)
  }

  function SentBytes(f: Field, bits: bv8, a: UserCmd): (r: seq<byte>)
    ensures |r| <= 2
  {
    if Has(bits, f) then FieldBytes(f, a) else []
  }

  function BodyFrom(k: nat, bits: bv8, a: UserCmd): (r: seq<byte>)
    requires k <= |FIELDS|
    ensures |r| <= 2 * (|FIELDS| - k)
    decreases |FIELDS| - k
  {
    if k == |FIELDS| then [] else SentBytes(FIELDS[k], bits, a) + BodyFrom(k + 1, bits, a)
  }

  /** Net_WriteDeltaUserCmd: at most 16 bytes. */
  function EncodeCmd(from: UserCmd, to: UserCmd): (r: seq<byte>)
    ensures |r| <= 16
  {
    var bits := CmdBits(to, from);
    ByteBytes(bits as int) + (BodyFrom(0, bits, to) + ByteBytes(to.msec))
  }

  function FieldAt(f: Field, s: seq<byte>, at: nat, a: UserCmd): (UserCmd, nat)
  {
    match f
    case Angle1 => (a.(angle1 := ShortAt(s, at)), at + 2)
    case Angle2 => (a.(angle2 := ShortAt(s, at)), at + 2)
    case Angle3 => (a.(angle3 := ShortAt(s, at)), at + 2)
    case Forward => (a.(forward := ShortAt(s, at)), at + 2)
    case Right => (a.(right := ShortAt(s, at)), at + 2)
    case Up => (a.(up := ShortAt(s, at)), at + 2)
    case Buttons => (a.(buttons := U8(ByteAt(s, at)) as bv8), at + 1)
  }

  function DecodeField(f: Field, s: seq<byte>, at: nat, a: UserCmd, bits: bv8): (UserCmd, nat)
  {
    if Has(bits, f) then FieldAt(f, s, at, a) else (a, at)
  }

  function DecodeFrom(k: nat, s: seq<byte>, at: nat, a: UserCmd, bits: bv8): (UserCmd, nat)
    requires k <= |FIELDS|
    decreases |FIELDS| - k
  {
    if k == |FIELDS| then (a, at)
    else
      var (b, at') := DecodeField(FIELDS[k], s, at, a, bits);
      DecodeFrom(k + 1, s, at', b, bits)
  }

  function BitsAt(s: seq<byte>, at: nat): bv8 { U8(ByteAt(s, at)) as bv8 }

  /** Net_ReadDeltaUserCmd. */
  function DecodeCmd(s: seq<byte>, at: nat, from: UserCmd): (UserCmd, nat)
  {
    var (a, at') := DecodeFrom(0, s, at + 1, from, BitsAt(s, at));
    (a.(msec := U8(ByteAt(s, at'))), at' + 1)
  }

  function Mixed(a: UserCmd, b: UserCmd, k: nat): UserCmd
  {
    UserCmd(b.msec,
      if k > 6 then a.buttons else b.buttons,
      if k > 0 then a.angle1 else b.angle1,
      if k > 1 then a.angle2 else b.angle2,
      if k > 2 then a.angle3 else b.angle3,
      if k > 3 then a.forward else b.forward,
      if k > 4 then a.right else b.right,
      if k > 5 then a.up else b.up)
  }

  lemma BitsArrive(s: seq<byte>, at: nat, bits: bv8)
    requires Stands(s, at, ByteBytes(bits as int))
    ensures BitsAt(s, at) == bits && U8(ByteAt(s, at)) as bv8 == bits
  {
    hide ByteAt;
    ByteArrives(s, at, bits as int);
  }

  /** Sent or not, the next field comes out as the new command's. */
  lemma FieldStep(k: nat, s: seq<byte>, at: nat, from: UserCmd, to: UserCmd, bits: bv8)
    requires k < |FIELDS| && bits == CmdBits(to, from) && Stands(s, at, SentBytes(FIELDS[k], bits, to))
    ensures DecodeField(FIELDS[k], s, at, Mixed(to, from, k), bits)
      == (Mixed(to, from, k + 1), at + |SentBytes(FIELDS[k], bits, to)|)
  {
    hide CmdBits, ShortAt, ByteAt, ShortBytes, Has;
    var f := FIELDS[k];
    BitsTell(f, to, from);
    if Has(bits, f) {
      match f
      case Angle1 => SignedArrives(s, at, to.angle1);
      case Angle2 => SignedArrives(s, at, to.angle2);
      case Angle3 => SignedArrives(s, at, to.angle3);
      case Forward => SignedArrives(s, at, to.forward);
      case Right => SignedArrives(s, at, to.right);
      case Up => SignedArrives(s, at, to.up);
      case Buttons => BitsArrive(s, at, to.buttons);
    }
  }

  lemma MixedEnds(a: UserCmd, b: UserCmd)
    ensures Mixed(a, b, 0) == b && Mixed(a, b, |FIELDS|).(msec := a.msec) == a
  {
  }

  lemma {:induction false} BodyRoundTrip(k: nat, s: seq<byte>, at: nat, from: UserCmd, to: UserCmd, bits: bv8)
    requires k <= |FIELDS| && bits == CmdBits(to, from) && Stands(s, at, BodyFrom(k, bits, to))
    ensures DecodeFrom(k, s, at, Mixed(to, from, k), bits)
      == (Mixed(to, from, |FIELDS|), at + |BodyFrom(k, bits, to)|)
    decreases |FIELDS| - k
  {
    hide DecodeField, SentBytes, Mixed, CmdBits;
    if k < |FIELDS| {
      StandsSplit(s, at, SentBytes(FIELDS[k], bits, to), BodyFrom(k + 1, bits, to));
      FieldStep(k, s, at, from, to, bits);
      BodyRoundTrip(k + 1, s, at + |SentBytes(FIELDS[k], bits, to)|, from, to, bits);
    }
  }

  /** A command survives the trip exactly. */
  lemma CmdRoundTrip(s: seq<byte>, at: nat, from: UserCmd, to: UserCmd)
    requires Stands(s, at, EncodeCmd(from, to))
    ensures DecodeCmd(s, at, from) == (to, at + |EncodeCmd(from, to)|)
  {
    hide CmdBits, BodyFrom, DecodeFrom, Mixed, BitsAt, ByteAt;
    var bits := CmdBits(to, from);
    StandsSplit(s, at, ByteBytes(bits as int), BodyFrom(0, bits, to) + ByteBytes(to.msec));
    StandsSplit(s, at + 1, BodyFrom(0, bits, to), ByteBytes(to.msec));
    BitsArrive(s, at, bits);
    MixedEnds(to, from);
    BodyRoundTrip(0, s, at + 1, from, to, bits);
    ByteArrives(s, at + 1 + |BodyFrom(0, bits, to)|, to.msec);
  }

  // ----- the payload of one packet: the last frame received and three commands, each a delta of the one before

  function MoveBytes(lastFrame: int, oldest: UserCmd, old_: UserCmd, newest: UserCmd): (r: seq<byte>)
    ensures |r| <= 53
  {
    ByteBytes(CL_CMD_MOVE) + (LongBytes(lastFrame)
      + (EncodeCmd(NULL_CMD, oldest) + (EncodeCmd(oldest, old_) + EncodeCmd(old_, newest))))
  }

  datatype Move = Move(lastFrame: int, oldest: UserCmd, old_: UserCmd, newest: UserCmd)

  /** What the server reads behind the command byte. */
  function MoveAt(s: seq<byte>, at: nat): Move
  {
    var (oldest, at1) := DecodeCmd(s, at + 4, NULL_CMD);
    var (old_, at2) := DecodeCmd(s, at1, oldest);
    var (newest, _) := DecodeCmd(s, at2, old_);
    Move(LongAt(s, at), oldest, old_, newest)
  }

  lemma MoveRoundTrip(s: seq<byte>, at: nat, lastFrame: int, oldest: UserCmd, old_: UserCmd, newest: UserCmd)
    requires -0x8000_0000 <= lastFrame < 0x8000_0000 && Stands(s, at, MoveBytes(lastFrame, oldest, old_, newest))
    ensures MoveAt(s, at + 1) == Move(lastFrame, oldest, old_, newest)
  {
    hide EncodeCmd, DecodeCmd, LongBytes, LongAt;
    var p3 := EncodeCmd(old_, newest);
    var p2 := EncodeCmd(oldest, old_) + p3;
    var p1 := EncodeCmd(NULL_CMD, oldest) + p2;
    StandsSplit(s, at, ByteBytes(CL_CMD_MOVE), LongBytes(lastFrame) + p1);
    StandsSplit(s, at + 1, LongBytes(lastFrame), p1);
    LongRoundTrip(s, at + 1, lastFrame);
    FourBytes(lastFrame);
    StandsSplit(s, at + 5, EncodeCmd(NULL_CMD, oldest), p2);
    CmdRoundTrip(s, at + 5, NULL_CMD, oldest);
    var at1 := at + 5 + |EncodeCmd(NULL_CMD, oldest)|;
    StandsSplit(s, at1, EncodeCmd(oldest, old_), p3);
    CmdRoundTrip(s, at1, oldest, old_);
    CmdRoundTrip(s, at1 + |EncodeCmd(oldest, old_)|, old_, newest);
  }

  lemma FourBytes(c: int)
    ensures |LongBytes(c)| == 4
  {
  }

  // ----- the client's ring of commands

  /** The commands by sequence number, and the number of the packet to be sent next. */
  datatype CmdRing = CmdRing(cmds: seq<UserCmd>, outgoing: nat)

  function Clamp(x: int, low: int, high: int): int { if x < low then low else if x > high then high else x }

  function Either(a: bv8, b: bv8): bv8 { a | b }

  /** One of the buttons of the mask is down. */
  predicate Down(buttons: bv8, mask: bv8) { buttons & mask != 0 }

  /** One more bit of input joins the command in the making; the small fields wrap around. */
  function Accumulated(cmd: UserCmd, c: UserCmd): UserCmd
  {
    UserCmd(U8(cmd.msec + c.msec), Either(cmd.buttons, c.buttons), c.angle1, c.angle2, c.angle3,
            Int16(cmd.forward + c.forward), Int16(cmd.right + c.right), Int16(cmd.up + c.up))
  }

  /** What a cleared command comes to after some input. */
  function Gathered(inputs: seq<UserCmd>): UserCmd
  {
    if inputs == [] then NULL_CMD else Accumulated(Gathered(inputs[..|inputs| - 1]), inputs[|inputs| - 1])
  }

  function Forwards(inputs: seq<UserCmd>): int
  {
    if inputs == [] then 0 else Forwards(inputs[..|inputs| - 1]) + inputs[|inputs| - 1].forward
  }

  function Rights(inputs: seq<UserCmd>): int
  {
    if inputs == [] then 0 else Rights(inputs[..|inputs| - 1]) + inputs[|inputs| - 1].right
  }

  function Ups(inputs: seq<UserCmd>): int
  {
    if inputs == [] then 0 else Ups(inputs[..|inputs| - 1]) + inputs[|inputs| - 1].up
  }

  /** Any button that is down in some input. */
  ghost predicate Pressed(inputs: seq<UserCmd>, mask: bv8)
  {
    exists i :: 0 <= i < |inputs| && Down(inputs[i].buttons, mask)
  }

  /** A command made of some input: the buttons are all that were pressed, the angles those of the last input,
      and the movement what it all adds up to, wrapped to sixteen bits. */
  ghost predicate MadeOf(cmd: UserCmd, inputs: seq<UserCmd>)
  {
    && (forall mask: bv8 {:trigger Pressed(inputs, mask)} :: Down(cmd.buttons, mask) <==> Pressed(inputs, mask))
    && (if inputs == [] then cmd.angle1 == cmd.angle2 == cmd.angle3 == 0
        else
          var last := inputs[|inputs| - 1];
          cmd.angle1 == last.angle1 && cmd.angle2 == last.angle2 && cmd.angle3 == last.angle3)
    && cmd.forward == Int16(Forwards(inputs)) && cmd.right == Int16(Rights(inputs)) && cmd.up == Int16(Ups(inputs))
  }

  lemma EitherDown(a: bv8, b: bv8, mask: bv8)
    ensures Down(Either(a, b), mask) <==> Down(a, mask) || Down(b, mask)
  {
  }

  lemma Wraps(x: int, y: int)
    ensures Int16(Int16(x) + y) == Int16(x + y)
  {
  }

  lemma {:induction false} GatheredIsMade(inputs: seq<UserCmd>)
    ensures MadeOf(Gathered(inputs), inputs)
  {
    hide Int16, U8, Down, Either;
    if inputs != [] {
      var n := |inputs| - 1;
      var front, c, cmd := inputs[..n], inputs[n], Gathered(inputs[..n]);
      GatheredIsMade(front);
      Wraps(Forwards(front), c.forward);
      Wraps(Rights(front), c.right);
      Wraps(Ups(front), c.up);
      forall mask: bv8
        ensures Down(Gathered(inputs).buttons, mask) <==> Pressed(inputs, mask)
      {
        EitherDown(cmd.buttons, c.buttons, mask);
        PressedOn(inputs, mask);
      }
    } else {
      NoneMade();
    }
  }

  lemma NoneMade()
    ensures MadeOf(NULL_CMD, [])
  {
    forall mask: bv8
      ensures Down(NULL_CMD.buttons, mask) <==> Pressed([], mask)
    {
    }
  }

  lemma PressedOn(inputs: seq<UserCmd>, mask: bv8)
    requires inputs != []
    ensures var n := |inputs| - 1;
      Pressed(inputs, mask) <==> Pressed(inputs[..n], mask) || Down(inputs[n].buttons, mask)
  {
    hide Down;
    var n := |inputs| - 1;
    if Pressed(inputs, mask) && !Down(inputs[n].buttons, mask) {
      var i :| 0 <= i < |inputs| && Down(inputs[i].buttons, mask);
      assert inputs[..n][i] == inputs[i];
    }
    if Pressed(inputs[..n], mask) {
      var i :| 0 <= i < n && Down(inputs[..n][i].buttons, mask);
      assert Down(inputs[i].buttons, mask);
    }
  }

  function Finalized(cmd: UserCmd, packetDelta: int): UserCmd { cmd.(msec := Clamp(packetDelta, 1, 255)) }

  function CmdFor(r: CmdRing, sequence: int): UserCmd
    requires |r.cmds| == CMD_BACKUP
  {
    r.cmds[Slot(sequence, CMD_BACKUP)]
  }

  function Updated(r: CmdRing, c: UserCmd): CmdRing
    requires |r.cmds| == CMD_BACKUP
  {
    r.(cmds := r.cmds[Slot(r.outgoing, CMD_BACKUP) := Accumulated(CmdFor(r, r.outgoing), c)])
  }

  /** The command goes out and the next slot is wiped. */
  function AfterSend(r: CmdRing, packetDelta: int): CmdRing
    requires |r.cmds| == CMD_BACKUP
  {
    CmdRing(r.cmds[Slot(r.outgoing, CMD_BACKUP) := Finalized(CmdFor(r, r.outgoing), packetDelta)]
                  [Slot(r.outgoing + 1, CMD_BACKUP) := NULL_CMD],
            r.outgoing + 1)
  }

  function Payload(r: CmdRing, packetDelta: int, lastFrame: int): seq<byte>
    requires |r.cmds| == CMD_BACKUP
  {
    MoveBytes(lastFrame, CmdFor(r, r.outgoing - 2), CmdFor(r, r.outgoing - 1),
      Finalized(CmdFor(r, r.outgoing), packetDelta))
  }

  class CmdSender {
    const cmds: array<UserCmd>
    var outgoing: nat

    ghost predicate Valid() { cmds.Length == CMD_BACKUP }

    ghost function View(): CmdRing
      reads this, cmds
    {
      CmdRing(cmds[..], outgoing)
    }

    constructor (outgoing: nat)
      ensures Valid() && View() == CmdRing(seq(CMD_BACKUP, _ => NULL_CMD), outgoing)
    {
      cmds := new UserCmd[CMD_BACKUP](_ => NULL_CMD);
      this.outgoing := outgoing;
    }

    /** Cl_UpdateCmd, given what the input devices and the clock say. */
    method UpdateCmd(c: UserCmd)
      requires Valid()
      modifies cmds
      ensures View() == Updated(old(View()), c)
    {
      hide Slot;
      var k := Slot(outgoing, CMD_BACKUP);
      cmds[k] := Accumulated(cmds[k], c);
    }

    method FinalizeCmd(packetDelta: int)
      requires Valid()
      modifies cmds
      ensures cmds[..] ==
        old(cmds[..])[Slot(outgoing, CMD_BACKUP) := Finalized(CmdFor(old(View()), outgoing), packetDelta)]
    {
      hide Slot;
      var k := Slot(outgoing, CMD_BACKUP);
      cmds[k] := cmds[k].(msec := Clamp(packetDelta, 1, 255));
    }

    method InitCmd()
      requires Valid()
      modifies cmds
      ensures cmds[..] == old(cmds[..])[Slot(outgoing, CMD_BACKUP) := NULL_CMD]
    {
      hide Slot;
      cmds[Slot(outgoing, CMD_BACKUP)] := NULL_CMD;
    }

    /** Cl_SendCmd while the client is active: the payload handed to the channel, which counts the packet. */
    method SendCmd(packetDelta: int, lastFrame: int) returns (payload: seq<byte>)
      requires Valid()
      modifies this, cmds
      ensures payload == Payload(old(View()), packetDelta, lastFrame) && |payload| <= 128
      ensures View() == AfterSend(old(View()), packetDelta)
    {
      hide Slot, MoveBytes;
      ghost var was := View();
      SlotsApart(outgoing);
      FinalizeCmd(packetDelta);
      payload := MoveBytes(lastFrame, cmds[Slot(outgoing - 2, CMD_BACKUP)], cmds[Slot(outgoing - 1, CMD_BACKUP)],
                           cmds[Slot(outgoing, CMD_BACKUP)]);
      outgoing := outgoing + 1;
      InitCmd();
    }
  }

  /** Neighbouring sequence numbers have slots of their own. */
  lemma SlotsApart(k: int)
    ensures Slot(k, CMD_BACKUP) != Slot(k - 1, CMD_BACKUP) && Slot(k, CMD_BACKUP) != Slot(k - 2, CMD_BACKUP)
    ensures Slot(k - 1, CMD_BACKUP) != Slot(k - 2, CMD_BACKUP)
  {
  }

  // ----- the server's replay

  function Copies(n: nat, c: UserCmd): (r: seq<UserCmd>)
    ensures |r| == n
  {
    seq(n, _ => c)
  }

  /** The commands the server runs for a move that arrives after `drop` lost packets. */
  function Replay(drop: int, last: UserCmd, m: Move): seq<UserCmd>
  {
    (if drop < 20 then
       Copies(if drop > 2 then drop - 2 else 0, last)
       + (if drop > 1 then [m.oldest] else [])
       + (if drop > 0 then [m.old_] else [])
     else [])
    + [m.newest]
  }

  /** The milliseconds charged to a client after it has run some commands. */
  function Charged(msec: nat, cmds: seq<UserCmd>): (r: nat)
  {
    if cmds == [] then msec else U32(Charged(msec, cmds[..|cmds| - 1]) + cmds[|cmds| - 1].msec)
  }

  lemma ChargedOn(msec: nat, cmds: seq<UserCmd>, c: UserCmd)
    ensures Charged(msec, cmds + [c]) == U32(Charged(msec, cmds) + c.msec)
  {
    assert (cmds + [c])[..|cmds|] == cmds;
  }

  function TotalTime(cmds: seq<UserCmd>): nat
  {
    if cmds == [] then 0 else cmds[0].msec + TotalTime(cmds[1..])
  }

  lemma CounterOn(a: nat, b: nat)
    ensures U32(U32(a) + b) == U32(a + b) && (a < 0x1_0000_0000 ==> U32(a) == a)
  {
  }

  /** A client is charged for all the time of the commands run, in a counter of thirty-two bits. */
  lemma {:induction false} ChargedIsTotal(msec: nat, cmds: seq<UserCmd>)
    requires msec < 0x1_0000_0000
    ensures Charged(msec, cmds) == U32(msec + TotalTime(cmds))
  {
    hide TotalTime, U32;
    NoTime();
    if cmds == [] {
      CounterOn(msec, 0);
    } else {
      var n := |cmds| - 1;
      ChargedIsTotal(msec, cmds[..n]);
      TotalOn(cmds[..n], cmds[n]);
      CounterOn(msec + TotalTime(cmds[..n]), cmds[n].msec);
      assert cmds == cmds[..n] + [cmds[n]];
    }
  }

  lemma NoTime()
    ensures TotalTime([]) == 0
  {
  }

  lemma {:induction false} TotalOn(cmds: seq<UserCmd>, c: UserCmd)
    ensures TotalTime(cmds + [c]) == TotalTime(cmds) + c.msec
  {
    if cmds != [] {
      assert (cmds + [c])[1..] == cmds[1..] + [c];
      TotalOn(cmds[1..], c);
    } else {
      assert ([c])[1..] == [];
    }
  }

  lemma ChargedNone(msec: nat)
    ensures Charged(msec, []) == msec
  {
  }

  class MoveRunner {
    var lastFrame: int
    var lastCmd: UserCmd
    var thought: seq<UserCmd>
    var cmdMsec: nat

    constructor ()
      ensures lastFrame == -1 && lastCmd == NULL_CMD && thought == [] && cmdMsec == 0
    {
      lastFrame, lastCmd, thought, cmdMsec := -1, NULL_CMD, [], 0;
    }

    /** Sv_ClientThink. */
    method Think(c: UserCmd)
      modifies this`thought, this`cmdMsec
      ensures thought == old(thought) + [c] && cmdMsec == U32(old(cmdMsec) + c.msec)
    {
      cmdMsec := U32(cmdMsec + c.msec);
      thought := thought + [c];
    }

    /** The move command of Sv_ParseClientMessage, once its parts are read. */
    method RunMove(active: bool, dropped: int, m: Move)
      modifies this
      ensures active ==> lastCmd == m.newest && lastFrame == m.lastFrame
      ensures active ==> thought == old(thought) + Replay(dropped, old(lastCmd), m)
      ensures active ==> cmdMsec == Charged(old(cmdMsec), Replay(dropped, old(lastCmd), m))
      ensures !active ==>
        thought == old(thought) && lastCmd == old(lastCmd) && lastFrame == -1 && cmdMsec == old(cmdMsec)
    {
      hide Charged, U32;
      if m.lastFrame != lastFrame {
        lastFrame := m.lastFrame;
      }
      if !active {
        lastFrame := -1;
        return;
      }
      var drop := dropped;
      ghost var run: seq<UserCmd>, msec := [], cmdMsec;
      ChargedNone(msec);
      if drop < 20 {
        while drop > 2
          invariant thought == old(thought) + run && lastCmd == old(lastCmd) && lastFrame == m.lastFrame
          invariant dropped == drop + |run| && run == Copies(|run|, lastCmd) && (run != [] ==> drop >= 2)
          invariant cmdMsec == Charged(msec, run)
        {
          Think(lastCmd);
          ChargedOn(msec, run, lastCmd);
          assert Copies(|run| + 1, lastCmd) == Copies(|run|, lastCmd) + [lastCmd];
          run := run + [lastCmd];
          drop := drop - 1;
        }
        if drop > 1 {
          Think(m.oldest);
          ChargedOn(msec, run, m.oldest);
          run := run + [m.oldest];
        }
        if drop > 0 {
          Think(m.old_);
          ChargedOn(msec, run, m.old_);
          run := run + [m.old_];
        }
      }
      Think(m.newest);
      ChargedOn(msec, run, m.newest);
      run := run + [m.newest];
      assert run == Replay(dropped, old(lastCmd), m);
      lastCmd := m.newest;
    }
  }
}
