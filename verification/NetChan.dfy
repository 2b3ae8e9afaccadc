/** One end of a network channel, src/net_chan.c: the sequence numbers, the single outstanding reliable
    block with its even/odd bit, and the packet header.  `Chan` is the value of the end; the class
    `Channel` holds it in place the way the program does and follows the value step by step. */
module NetChan {
  import opened Sequences
  import opened MemBuf
  import opened NetMessage

  const MAX_RELIABLE: nat := MAX_MSG_SIZE - 16
  const HIGH_BIT: nat := 0x8000_0000

  datatype Chan = Chan(
    client: bool,
    qport: byte,
    fatalError: bool,
    dropped: int,
    incomingSequence: nat,
    incomingAcknowledged: nat,
    incomingReliableAcknowledged: bool,
    incomingReliableSequence: bool,
    outgoingSequence: nat,
    reliableSequence: bool,
    lastReliableSequence: nat,
    message: Buf,
    reliable: seq<byte>)

  /** The two header words, unpacked. */
  datatype Header = Header(sequence: nat, reliable: bool, ack: nat, reliableAck: bool)

  /** A datagram, with the border between the reliable block and the rest that only its sender knows. */
  datatype Packet = Packet(header: Header, block: seq<byte>, rest: seq<byte>)

  /** Netchan_Setup. */
  function Setup(client: bool, qport: byte): Chan
  {
    Chan(client, qport, false, 0, 0, 0, false, false, 1, false, 0, Buf([], false, MAX_RELIABLE), [])
  }

  // ----- the header on the wire

  function Word(low: nat, high: bool): nat
  {
    low % HIGH_BIT + if high then HIGH_BIT else 0
  }

  function HeaderBytes(h: Header): seq<byte>
  {
    LongBytes(Word(h.sequence, h.reliable)) + LongBytes(Word(h.ack, h.reliableAck))
  }

  function PortBytes(c: Chan): seq<byte> { if c.client then [c.qport] else [] }

  /** The bytes handed to the socket. */
  function Encode(c: Chan, p: Packet): seq<byte>
  {
    HeaderBytes(p.header) + PortBytes(c) + p.block + p.rest
  }

  function DecodeHeader(s: seq<byte>): Header
  {
    var w1, w2 := U32(LongAt(s, 0)), U32(LongAt(s, 4));
    Header(w1 % HIGH_BIT, w1 >= HIGH_BIT, w2 % HIGH_BIT, w2 >= HIGH_BIT)
  }

  /** Masking a sequence number before packing it changes nothing. */
  lemma SameHeader(sequence: nat, reliable: bool, ack: nat, reliableAck: bool)
    ensures HeaderBytes(Header(sequence % HIGH_BIT, reliable, ack % HIGH_BIT, reliableAck))
            == HeaderBytes(Header(sequence, reliable, ack, reliableAck))
  {
    assert sequence % HIGH_BIT % HIGH_BIT == sequence % HIGH_BIT && ack % HIGH_BIT % HIGH_BIT == ack % HIGH_BIT;
  }

  /** A datagram of one kind of end, read by the other kind, gives back the header that was sent, and
      what is left to read is exactly the block followed by the rest. */
  lemma PacketRoundTrip(c: Chan, p: Packet)
    requires p.header.sequence < HIGH_BIT && p.header.ack < HIGH_BIT
    ensures DecodeHeader(Encode(c, p)) == p.header
    ensures 8 + |PortBytes(c)| <= |Encode(c, p)|
    ensures Encode(c, p)[8 + |PortBytes(c)|..] == p.block + p.rest
  {
    var w1, w2 := Word(p.header.sequence, p.header.reliable), Word(p.header.ack, p.header.reliableAck);
    LayOut(LongBytes(w1), LongBytes(w2), PortBytes(c), p.block, p.rest);
    HeaderRoundTrip(Encode(c, p), p.header);
  }

  lemma HeaderRoundTrip(s: seq<byte>, h: Header)
    requires h.sequence < HIGH_BIT && h.ack < HIGH_BIT
    requires Stands(s, 0, LongBytes(Word(h.sequence, h.reliable)))
    requires Stands(s, 4, LongBytes(Word(h.ack, h.reliableAck)))
    ensures DecodeHeader(s) == h
  {
    LongWordRoundTrip(s, 0, Word(h.sequence, h.reliable));
    LongWordRoundTrip(s, 4, Word(h.ack, h.reliableAck));
    WordRoundTrip(h.sequence, h.reliable);
    WordRoundTrip(h.ack, h.reliableAck);
  }

  lemma LongWordRoundTrip(s: seq<byte>, at: nat, w: nat)
    requires w < 0x1_0000_0000 && Stands(s, at, LongBytes(w))
    ensures U32(LongAt(s, at)) == w
  {
    hide LongAt, LongBytes;
    LongRoundTrip(s, at, w);
  }

  lemma WordRoundTrip(low: nat, high: bool)
    requires low < HIGH_BIT
    ensures Word(low, high) < 0x1_0000_0000
    ensures Word(low, high) % HIGH_BIT == low && (Word(low, high) >= HIGH_BIT <==> high)
  {
  }

  lemma LayOut(w1: seq<byte>, w2: seq<byte>, port: seq<byte>, block: seq<byte>, rest: seq<byte>)
    ensures var s := w1 + w2 + port + block + rest;
      && Stands(s, 0, w1) && Stands(s, |w1|, w2)
      && s[|w1| + |w2| + |port|..] == block + rest
  {
    var s := w1 + w2 + port + block + rest;
    assert s == w1 + (w2 + (port + (block + rest)));
    assert s == (w1 + w2 + port) + (block + rest);
  }

  // ----- sending

  predicate NeedReliable(c: Chan)
  {
    || (c.incomingAcknowledged > c.lastReliableSequence && c.incomingReliableAcknowledged != c.reliableSequence)
    || Stages(c)
  }

  /** There is a pending message and nothing outstanding. */
  predicate Stages(c: Chan) { c.reliable == [] && c.message.bytes != [] }

  /** The pending message becomes the outstanding block as soon as there is none. */
  function Stage(c: Chan): Chan
  {
    if Stages(c) then
      c.(reliable := c.message.bytes, message := c.message.(bytes := []), reliableSequence := !c.reliableSequence)
    else c
  }

  function Outgoing(c: Chan, data: seq<byte>): Packet
  {
    var need := NeedReliable(c);
    var block := if need then Stage(c).reliable else [];
    Packet(Header(c.outgoingSequence % HIGH_BIT, need, c.incomingSequence % HIGH_BIT, c.incomingReliableSequence),
           block,
           if 8 + |PortBytes(c)| + |block| + |data| <= MAX_MSG_SIZE then data else [])
  }

  /** Netchan_Transmit: the end afterwards, and the packet unless the message buffer has overflowed. */
  function AfterTransmit(c: Chan, data: seq<byte>): (Chan, Option<Packet>)
  {
    if c.message.overflowed then (c.(fatalError := true), None)
    else
      (Stage(c).(outgoingSequence := c.outgoingSequence + 1,
                 lastReliableSequence := if NeedReliable(c) then c.outgoingSequence + 1 else c.lastReliableSequence),
       Some(Outgoing(c, data)))
  }

  /** The reliable block that the next packet is to carry: the outstanding one, or else the pending message. */
  function Due(c: Chan): seq<byte>
  {
    if !NeedReliable(c) then [] else if c.reliable == [] then c.message.bytes else c.reliable
  }

  /** Where the other end finds the payload. */
  function Behind(c: Chan): nat { if c.client then 9 else 8 }

  /** What goes out is what the other kind of end reads: the header with its sequence number, and behind it,
      where its cursor is left, the block that is due and then the data, or the block alone when both together
      do not fit. */
  lemma TransmitCarries(c: Chan, data: seq<byte>)
    requires !c.message.overflowed
    ensures var (c', sent) := AfterTransmit(c, data);
      && sent.Some? && c'.outgoingSequence == c.outgoingSequence + 1
      && var bytes := Encode(c, sent.value);
      && Behind(c) <= |bytes|
      && bytes[Behind(c)..] == (if Behind(c) + |Due(c)| + |data| <= 1400 then Due(c) + data else Due(c))
      && DecodeHeader(bytes) == Header(c.outgoingSequence % HIGH_BIT, NeedReliable(c), c.incomingSequence % HIGH_BIT,
                                       c.incomingReliableSequence)
  {
    hide DecodeHeader, Encode, NeedReliable;
    PacketRoundTrip(c, Outgoing(c, data));
  }

  /** Data that fits stands in the datagram right behind the block. */
  lemma DataStands(c: Chan, data: seq<byte>)
    requires !c.message.overflowed && Behind(c) + |Due(c)| + |data| <= 1400
    ensures var sent := AfterTransmit(c, data).1;
      && sent.Some? && Stands(Encode(c, sent.value), Behind(c) + |Due(c)|, data)
      && DecodeHeader(Encode(c, sent.value)).sequence == c.outgoingSequence % HIGH_BIT
  {
    hide DecodeHeader, Encode, NeedReliable, Due;
    TransmitCarries(c, data);
    var bytes, at := Encode(c, AfterTransmit(c, data).1.value), Behind(c);
    var rest := bytes[at..];
    assert rest[|Due(c)|..] == data;
    assert bytes[at + |Due(c)|..] == rest[|Due(c)|..];
  }

  // ----- receiving

  /** Netchan_Process: the end afterwards, and whether the packet was accepted. */
  function AfterProcess(c: Chan, h: Header): (Chan, bool)
  {
    if h.sequence <= c.incomingSequence then (c, false)
    else
      (c.(dropped := h.sequence - (c.incomingSequence + 1),
          reliable := if h.reliableAck == c.reliableSequence then [] else c.reliable,
          incomingSequence := h.sequence,
          incomingAcknowledged := h.ack,
          incomingReliableAcknowledged := h.reliableAck,
          incomingReliableSequence := if h.reliable then !c.incomingReliableSequence else c.incomingReliableSequence),
       true)
  }

  // ----- the end in place

  class Channel {
    const client: bool
    const qport: byte
    var fatalError: bool
    var dropped: int
    var incomingSequence: nat
    var incomingAcknowledged: nat
    var incomingReliableAcknowledged: bool
    var incomingReliableSequence: bool
    var outgoingSequence: nat
    var reliableSequence: bool
    var lastReliableSequence: nat
    const message: MemBuf
    var reliableSize: nat
    const reliableBuffer: array<byte>

    ghost predicate Valid()
      reads this, message, message.data
    {
      && message.Valid()
      && message.allowOverflow
      && message.data.Length == MAX_RELIABLE == reliableBuffer.Length
      && reliableSize <= MAX_RELIABLE
      && message.data != reliableBuffer
    }

    ghost function View(): (c: Chan)
      reads this, message, message.data, reliableBuffer
      requires Valid()
    {
      Chan(client, qport, fatalError, dropped, incomingSequence, incomingAcknowledged, incomingReliableAcknowledged,
           incomingReliableSequence, outgoingSequence, reliableSequence, lastReliableSequence, message.View(),
           reliableBuffer[..reliableSize])
    }

    constructor (client: bool, qport: byte)
      ensures Valid() && View() == Setup(client, qport)
      ensures fresh(message) && fresh(message.data) && fresh(reliableBuffer)
    {
      this.client := client;
      this.qport := qport;
      fatalError := false;
      dropped := 0;
      incomingSequence := 0;
      incomingAcknowledged := 0;
      incomingReliableAcknowledged := false;
      incomingReliableSequence := false;
      outgoingSequence := 1;
      reliableSequence := false;
      lastReliableSequence := 0;
      var messageBuffer := new byte[MAX_RELIABLE];
      message := new MemBuf(messageBuffer, true);
      reliableSize := 0;
      reliableBuffer := new byte[MAX_RELIABLE];
    }

    method CheckReliable() returns (sendReliable: bool)
      requires Valid()
      ensures sendReliable == NeedReliable(View())
    {
      sendReliable := false;
      if incomingAcknowledged > lastReliableSequence && incomingReliableAcknowledged != reliableSequence {
        sendReliable := true;
      }
      if reliableSize == 0 && message.size != 0 {
        sendReliable := true;
      }
    }

    /** Copies the pending message out when nothing is outstanding. */
    method StageMessage()
      requires Valid()
      modifies this`reliableSize, this`reliableSequence, message`size, reliableBuffer
      ensures Valid() && View() == Stage(old(View()))
    {
      if reliableSize == 0 && message.size != 0 {
        forall i | 0 <= i < message.size {
          reliableBuffer[i] := message.data[i];
        }
        reliableSize := message.size;
        message.size := 0;
        reliableSequence := !reliableSequence;
        assert reliableBuffer[..reliableSize] == old(message.data[..message.size]);
      }
    }

    /** The two header words, and the port number when this end is a client. */
    method WriteHeader(send: MemBuf, sendReliable: bool)
      requires Valid() && send.Valid() && send.size == 0 && send.data.Length == MAX_MSG_SIZE
      requires send != message && send.data != message.data && send.data != reliableBuffer
      modifies send, send.data
      ensures send.Valid() && send.allowOverflow == old(send.allowOverflow)
      ensures send.View().bytes == HeaderBytes(Header(outgoingSequence, sendReliable, incomingSequence,
                                                      incomingReliableSequence)) + PortBytes(View())
    {
      WriteLong(send, Word(outgoingSequence, sendReliable));
      assert |send.View().bytes| == send.size == 4;
      WriteLong(send, Word(incomingSequence, incomingReliableSequence));
      assert |send.View().bytes| == send.size == 8;
      if client {
        WriteByte(send, qport);
        assert ByteBytes(qport) == [qport];
      }
    }

    /** The datagram: header, reliable block if it is to go, and the rest when there is room. */
    method Assemble(sendReliable: bool, data: seq<byte>) returns (bytes: seq<byte>)
      requires Valid()
      ensures var block := if sendReliable then View().reliable else [];
        bytes == HeaderBytes(Header(outgoingSequence, sendReliable, incomingSequence, incomingReliableSequence))
                 + PortBytes(View()) + block
                 + if 8 + |PortBytes(View())| + |block| + |data| <= MAX_MSG_SIZE then data else []
    {
      assert forall h :: |HeaderBytes(h)| == 8;
      hide HeaderBytes;
      var sendBuffer := new byte[MAX_MSG_SIZE];
      var send := new MemBuf(sendBuffer, false);
      WriteHeader(send, sendReliable);
      assert send.size == |send.View().bytes| == 8 + |PortBytes(View())|;
      if sendReliable {
        send.Write(reliableBuffer[..reliableSize]);
        assert send.size == |send.View().bytes| == 8 + |PortBytes(View())| + reliableSize;
      }
      if send.data.Length - send.size >= |data| {
        send.Write(data);
      }
      bytes := send.data[..send.size];
      assert bytes == send.View().bytes;
    }

    method Transmit(data: seq<byte>) returns (sent: Option<seq<byte>>)
      requires Valid()
      modifies this, message, reliableBuffer
      ensures Valid() && View() == AfterTransmit(old(View()), data).0
      ensures sent == match AfterTransmit(old(View()), data).1
                      case None => None
                      case Some(p) => Some(Encode(old(View()), p))
    {
      hide HeaderBytes;
      if message.overflowed {
        fatalError := true;
        return None;
      }
      var sendReliable := CheckReliable();
      StageMessage();
      var bytes := Assemble(sendReliable, data);
      outgoingSequence := outgoingSequence + 1;
      if sendReliable {
        lastReliableSequence := outgoingSequence;
      }
      sent := Some(bytes);
      SameHeader(outgoingSequence - 1, sendReliable, incomingSequence, incomingReliableSequence);
    }

    /** The header of the datagram in `msg`; the cursor is left at the payload. */
    method ReadHeader(msg: MemBuf) returns (h: Header)
      requires msg.Valid()
      modifies msg`read
      ensures h == DecodeHeader(msg.View().bytes)
      ensures msg.read == if client then 8 else 9
    {
      msg.read := 0;
      var w1 := ReadLong(msg);
      var w2 := ReadLong(msg);
      if !client {
        var port := ReadByte(msg);
      }
      var sequence, sequenceAck := U32(w1), U32(w2);
      h := Header(sequence % HIGH_BIT, sequence >= HIGH_BIT, sequenceAck % HIGH_BIT, sequenceAck >= HIGH_BIT);
    }

    /** Takes the packet with this header in, or discards it. */
    method Accept(h: Header) returns (accepted: bool)
      requires Valid()
      modifies this
      ensures Valid() && (View(), accepted) == AfterProcess(old(View()), h)
    {
      if h.sequence <= incomingSequence {
        return false;
      }
      dropped := h.sequence - (incomingSequence + 1);
      if h.reliableAck == reliableSequence {
        reliableSize := 0;
      }
      incomingSequence := h.sequence;
      incomingAcknowledged := h.ack;
      incomingReliableAcknowledged := h.reliableAck;
      if h.reliable {
        incomingReliableSequence := !incomingReliableSequence;
      }
      accepted := true;
    }

    method Process(msg: MemBuf) returns (accepted: bool)
      requires Valid() && msg.Valid() && msg != message
      modifies this, msg`read
      ensures Valid()
      ensures (View(), accepted) == AfterProcess(old(View()), DecodeHeader(old(msg.View().bytes)))
      ensures msg.read == if client then 8 else 9
    {
      hide DecodeHeader, AfterProcess;
      var h := ReadHeader(msg);
      accepted := Accept(h);
    }
  }
}
