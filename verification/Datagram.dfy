/** The unreliable messages queued for a client, and how they are packed behind each frame
    (src/server/sv_send.c). */
module Datagram {
  import opened Sequences
  import opened MemBuf

  const MAX_FRAME_SIZE := 8192

  /** What a packet may carry: room is left for the channel's header. */
  const LIMIT := MAX_MSG_SIZE - 16

  type Message = seq<byte>

  lemma {:induction false} FlatFirst(messages: seq<Message>)
    requires messages != []
    ensures Flat(messages) == messages[0] + Flat(messages[1..])
  {
    var n := |messages| - 1;
    if n > 0 {
      FlatFirst(messages[..n]);
      assert messages[..n][1..] == messages[1..][..n - 1];
      assert messages[1..][n - 1] == messages[n];
      assert messages[0] + (Flat(messages[1..][..n - 1]) + messages[n]) ==
        (messages[0] + Flat(messages[1..][..n - 1])) + messages[n];
    }
  }

  // ----- packings

  /** Every way to pack messages behind what a packet already holds, in order and unsplit: `cuts` says before
      which messages a new packet is begun. */
  function Packets(cur: seq<byte>, messages: seq<Message>, cuts: seq<bool>): (r: seq<seq<byte>>)
    requires |cuts| == |messages|
    ensures r != []
    decreases |messages|
  {
    if messages == [] then [cur]
    else if cuts[0] then [cur] + Packets(messages[0], messages[1..], cuts[1..])
    else Packets(cur + messages[0], messages[1..], cuts[1..])
  }

  /** The cuts made: before each message that would not fit. */
  function Cuts(size: nat, messages: seq<Message>): (r: seq<bool>)
    ensures |r| == |messages|
    decreases |messages|
  {
    if messages == [] then []
    else if size + |messages[0]| > LIMIT then [true] + Cuts(|messages[0]|, messages[1..])
    else [false] + Cuts(size + |messages[0]|, messages[1..])
  }

  function Packed(cur: seq<byte>, messages: seq<Message>): seq<seq<byte>>
  {
    Packets(cur, messages, Cuts(|cur|, messages))
  }

  ghost predicate Fit(packets: seq<seq<byte>>)
  {
    forall i {:trigger packets[i]} :: 0 <= i < |packets| ==> |packets[i]| <= 1384
  }

  lemma PackedStep(cur: seq<byte>, messages: seq<Message>)
    requires messages != []
    ensures Packed(cur, messages) ==
      if |cur| + |messages[0]| > LIMIT then [cur] + Packed(messages[0], messages[1..])
      else Packed(cur + messages[0], messages[1..])
  {
    var cuts := Cuts(|cur|, messages);
    assert |cur| + |messages[0]| > LIMIT ==> cuts[1..] == Cuts(|messages[0]|, messages[1..]);
    assert |cur| + |messages[0]| <= LIMIT ==> cuts[1..] == Cuts(|cur + messages[0]|, messages[1..]);
  }

  lemma PackedNone(cur: seq<byte>)
    ensures Packed(cur, []) == [cur]
  {
  }

  /** However they are packed, the packets carry the same bytes in the same order. */
  lemma {:induction false} PacketsConserve(cur: seq<byte>, messages: seq<Message>, cuts: seq<bool>)
    requires |cuts| == |messages|
    ensures Flat(Packets(cur, messages, cuts)) == cur + Flat(messages)
    decreases |messages|
  {
    if messages != [] {
      FlatFirst(messages);
      if cuts[0] {
        PacketsConserve(messages[0], messages[1..], cuts[1..]);
        FlatFirst(Packets(cur, messages, cuts));
        assert Packets(cur, messages, cuts)[1..] == Packets(messages[0], messages[1..], cuts[1..]);
      } else {
        PacketsConserve(cur + messages[0], messages[1..], cuts[1..]);
        assert (cur + messages[0]) + Flat(messages[1..]) == cur + (messages[0] + Flat(messages[1..]));
      }
    }
  }

  /** The packets all fit exactly when the frame and every message alone would. */
  lemma {:induction false} PackedFits(cur: seq<byte>, messages: seq<Message>)
    ensures Fit(Packed(cur, messages)) <==> |cur| <= LIMIT && Fit(messages)
    decreases |messages|
  {
    if messages != [] {
      PackedStep(cur, messages);
      assert Fit(messages) <==> |messages[0]| <= LIMIT && Fit(messages[1..]) by { FitRest(messages); }
      if |cur| + |messages[0]| > LIMIT {
        PackedFits(messages[0], messages[1..]);
        var rest := Packed(messages[0], messages[1..]);
        assert ([cur] + rest)[1..] == rest;
        FitRest([cur] + rest);
      } else {
        PackedFits(cur + messages[0], messages[1..]);
      }
    } else {
      FitRest([cur]);
    }
  }

  lemma FitRest(packets: seq<seq<byte>>)
    requires packets != []
    ensures Fit(packets) <==> |packets[0]| <= LIMIT && Fit(packets[1..])
  {
    assert forall i :: 1 <= i < |packets| ==> packets[i] == packets[1..][i - 1];
  }

  /** No packing that fits takes fewer packets; one that starts with less in its first packet may do with one
      fewer at most. */
  lemma {:induction false} PackedIsLeast(cur: seq<byte>, other: seq<byte>, messages: seq<Message>, cuts: seq<bool>)
    requires |cuts| == |messages| && Fit(Packets(other, messages, cuts))
    ensures |cur| <= |other| ==> |Packed(cur, messages)| <= |Packets(other, messages, cuts)|
    ensures |Packed(cur, messages)| <= |Packets(other, messages, cuts)| + 1
    decreases |messages|
  {
    if messages != [] {
      var m := messages[0];
      PackedStep(cur, messages);
      if cuts[0] {
        var rest := Packets(m, messages[1..], cuts[1..]);
        FitRest([other] + rest);
        assert ([other] + rest)[1..] == rest;
        PackedIsLeast(m, m, messages[1..], cuts[1..]);
        PackedIsLeast(cur + m, m, messages[1..], cuts[1..]);
      } else {
        HeadFits(other + m, messages[1..], cuts[1..]);
        PackedIsLeast(m, other + m, messages[1..], cuts[1..]);
        PackedIsLeast(cur + m, other + m, messages[1..], cuts[1..]);
      }
    }
  }

  lemma {:induction false} HeadFits(cur: seq<byte>, messages: seq<Message>, cuts: seq<bool>)
    requires |cuts| == |messages| && Fit(Packets(cur, messages, cuts))
    ensures |cur| <= LIMIT
    decreases |messages|
  {
    if messages != [] && !cuts[0] {
      HeadFits(cur + messages[0], messages[1..], cuts[1..]);
    } else {
      assert Packets(cur, messages, cuts)[0] == cur;
    }
  }

  // ----- in place

  datatype Segment = Segment(offset: nat, len: nat)

  datatype Sent = Sent(packets: seq<seq<byte>>) | FrameTooLarge

  class ClientDatagram {
    const buffer: MemBuf
    var messages: seq<Segment>
    /** What has been queued since the last frame. */
    ghost var queue: seq<Message>

    /** Unless the buffer has overflowed, the segments tile it, each holding one queued message. */
    ghost predicate Valid()
      reads this, buffer, buffer.data
    {
      && buffer.Valid() && buffer.allowOverflow && buffer.data.Length == MAX_FRAME_SIZE
      && (!buffer.overflowed ==> Tiled(buffer.View().bytes, messages, queue))
      && forall i {:trigger queue[i]} :: 0 <= i < |queue| ==> |queue[i]| <= MAX_MSG_SIZE
    }

    constructor (data: array<byte>)
      requires data.Length == MAX_FRAME_SIZE
      ensures Valid() && queue == [] && fresh(buffer) && buffer.data == data && !buffer.overflowed
    {
      buffer := new MemBuf(data, true);
      messages, queue := [], [];
    }

    method DatagramMessage(m: Message) returns (tooLong: bool)
      requires Valid()
      modifies this, buffer, buffer.data
      ensures Valid() && tooLong == (|m| > MAX_MSG_SIZE)
      ensures tooLong ==> queue == old(queue) && buffer.View() == old(buffer.View())
      ensures !tooLong ==> queue == old(queue) + [m] && buffer.View() == Put(old(buffer.View()), m)
    {
      if |m| > MAX_MSG_SIZE {
        return true;
      }
      buffer.Write(m);
      if !buffer.overflowed {
        TiledOn(old(buffer.View().bytes), messages, queue, m);
      }
      messages := messages + [Segment(buffer.size - |m|, |m|)];
      queue := queue + [m];
      return false;
    }

    /** Sends a frame and, if the buffer held them all, the messages queued since the last, and starts over. */
    method SendClientDatagram(frame: seq<byte>) returns (sent: Sent)
      requires Valid() && |frame| <= MAX_FRAME_SIZE
      modifies this, buffer
      ensures Valid()
      ensures |frame| > LIMIT ==> sent == FrameTooLarge && queue == old(queue) && buffer.View() == old(buffer.View())
      ensures |frame| <= LIMIT ==> queue == [] && buffer.View() == Buf([], false, MAX_FRAME_SIZE)
      ensures |frame| <= LIMIT ==> sent == Sent(if old(buffer.overflowed) then [frame] else Packed(frame, old(queue)))
    {
      hide Packets, Cuts, Packed;
      var data := new byte[MAX_FRAME_SIZE];
      var msg := new MemBuf(data, true);
      msg.Write(frame);
      assert msg.View().bytes == [] + frame == frame;
      if msg.size > LIMIT {
        return FrameTooLarge;
      }
      var packets := [];
      if !buffer.overflowed {
        packets := PackMessages(msg);
      } else {
        PackedNone(frame);
      }
      packets := packets + [msg.data[..msg.size]];
      buffer.Clear();
      messages, queue := [], [];
      return Sent(packets);
    }

    /** All packets but the last, which is left in `msg`. */
    method PackMessages(msg: MemBuf) returns (packets: seq<seq<byte>>)
      requires Valid() && !buffer.overflowed
      requires msg.Valid() && msg.allowOverflow && msg.data.Length == MAX_FRAME_SIZE && msg.size <= LIMIT
      requires !msg.overflowed
      requires msg != buffer && msg.data != buffer.data
      modifies msg, msg.data
      ensures msg.Valid()
      ensures packets + [msg.View().bytes] == Packed(old(msg.View().bytes), queue)
    {
      hide Packets, Cuts, Packed, Flat;
      packets := [];
      ghost var frame, bytes := msg.View().bytes, buffer.View().bytes;
      assert queue[0..] == queue;
      var i := 0;
      while i < |messages|
        invariant 0 <= i <= |messages| && msg.Valid() && msg.allowOverflow && msg.size <= MAX_MSG_SIZE
        invariant !msg.overflowed
        invariant buffer.View().bytes == bytes && Tiled(bytes, messages, queue)
        invariant packets + Packed(msg.View().bytes, queue[i..]) == Packed(frame, queue)
      {
        SegmentIsMessage(bytes, queue, i);
        PackedStep(msg.View().bytes, queue[i..]);
        assert queue[i..][0] == queue[i] && queue[i..][1..] == queue[i + 1..];
        var segment := messages[i];
        var piece := buffer.data[segment.offset..segment.offset + segment.len];
        assert piece == bytes[segment.offset..segment.offset + segment.len];
        assert |queue[i]| <= MAX_MSG_SIZE;
        ghost var held := msg.View().bytes;
        if msg.size + segment.len > LIMIT {
          packets := packets + [msg.data[..msg.size]];
          msg.Clear();
        }
        msg.Write(piece);
        assert msg.View().bytes == if |held| + |piece| > LIMIT then [] + piece else held + piece;
        assert [] + piece == piece;
        i := i + 1;
      }
      assert queue[i..] == [];
      PackedNone(msg.View().bytes);
    }
  }

  ghost predicate Tiled(bytes: seq<byte>, segments: seq<Segment>, queue: seq<Message>)
  {
    && |segments| == |queue| && bytes == Flat(queue)
    && forall i {:trigger segments[i]} :: 0 <= i < |queue| ==>
         segments[i] == Segment(|Flat(queue[..i])|, |queue[i]|)
  }

  lemma TiledOn(bytes: seq<byte>, segments: seq<Segment>, queue: seq<Message>, m: Message)
    requires Tiled(bytes, segments, queue)
    ensures Tiled(bytes + m, segments + [Segment(|bytes|, |m|)], queue + [m])
  {
    assert (queue + [m])[..|queue|] == queue;
    assert forall i :: 0 <= i < |queue| ==> (queue + [m])[..i] == queue[..i];
  }

  /** A segment of the buffer is the message it stands for. */
  lemma {:induction false} SegmentIsMessage(bytes: seq<byte>, queue: seq<Message>, i: nat)
    requires bytes == Flat(queue) && i < |queue|
    ensures |Flat(queue[..i])| + |queue[i]| <= |bytes|
    ensures bytes[|Flat(queue[..i])|..|Flat(queue[..i])| + |queue[i]|] == queue[i]
    decreases |queue|
  {
    var n := |queue| - 1;
    if i < n {
      SegmentIsMessage(Flat(queue[..n]), queue[..n], i);
      assert queue[..n][..i] == queue[..i];
    }
  }
}
