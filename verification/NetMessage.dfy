/** The integer codec of src/net_message.c: little-endian writes that keep the low bytes, and reads that
    sign-extend, answer -1 past the end of the message, and advance the cursor in every case. */
module NetMessage {
  import opened MemBuf

  type u16 = x: int | 0 <= x < 0x1_0000
  type i16 = x: int | -0x8000 <= x < 0x8000

  // ----- the values on the wire

  function U8(c: int): byte { c % 0x100 }

  function U16(c: int): (r: nat)
    ensures r < 0x1_0000
  {
    c % 0x1_0000
  }

  function U32(c: int): (r: nat)
    ensures r < 0x1_0000_0000
  {
    c % 0x1_0000_0000
  }

  function Int8(c: int): int { if c % 0x100 < 0x80 then c % 0x100 else c % 0x100 - 0x100 }

  function Int16(c: int): int { if c % 0x1_0000 < 0x8000 then c % 0x1_0000 else c % 0x1_0000 - 0x1_0000 }

  function Int32(c: int): int
  {
    if c % 0x1_0000_0000 < 0x8000_0000 then c % 0x1_0000_0000 else c % 0x1_0000_0000 - 0x1_0000_0000
  }

  function ByteBytes(c: int): seq<byte> { [U8(c)] }

  function ShortBytes(c: int): seq<byte> { [U8(c), U8(c / 0x100)] }

  function LongBytes(c: int): seq<byte>
  {
    [U8(c), U8(c / 0x100), U8(c / 0x1_0000), U8(c / 0x100_0000)]
  }

  /** The number two, or four, little-endian bytes make up. */
  function Join2(b0: int, b1: int): int { b0 + b1 * 0x100 }

  function Join4(b0: int, b1: int, b2: int, b3: int): int
  {
    b0 + b1 * 0x100 + b2 * 0x1_0000 + b3 * 0x100_0000
  }

  // ----- reads: the value found at a position of a message

  function CharAt(s: seq<byte>, at: nat): int
  {
    if at + 1 > |s| then -1 else Int8(s[at])
  }

  function ByteAt(s: seq<byte>, at: nat): int
  {
    if at + 1 > |s| then -1 else s[at]
  }

  function ShortAt(s: seq<byte>, at: nat): int
  {
    if at + 2 > |s| then -1 else Int16(Join2(s[at], s[at + 1]))
  }

  function LongAt(s: seq<byte>, at: nat): int
  {
    if at + 4 > |s| then -1
    else Int32(Join4(s[at], s[at + 1], s[at + 2], s[at + 3]))
  }

  /** `piece` stands in `s` at position `at`. */
  ghost predicate Stands(s: seq<byte>, at: nat, piece: seq<byte>)
  {
    at + |piece| <= |s| && s[at..at + |piece|] == piece
  }

  lemma StandsSplit(s: seq<byte>, at: nat, x: seq<byte>, y: seq<byte>)
    requires Stands(s, at, x + y)
    ensures Stands(s, at, x) && Stands(s, at + |x|, y)
  {
    var w := s[at..at + |x + y|];
    assert w[..|x|] == x && w[|x|..] == y;
    assert s[at..at + |x|] == w[..|x|];
    assert s[at + |x|..at + |x| + |y|] == w[|x|..];
  }

  // ----- round trips

  lemma CharRoundTrip(s: seq<byte>, at: nat, c: int)
    requires Stands(s, at, ByteBytes(c))
    ensures CharAt(s, at) == Int8(c) && ByteAt(s, at) == U8(c)
  {
    assert s[at] == s[at..at + 1][0];
  }

  lemma ShortRoundTrip(s: seq<byte>, at: nat, c: int)
    requires Stands(s, at, ShortBytes(c))
    ensures ShortAt(s, at) == Int16(c) && U16(ShortAt(s, at)) == U16(c)
  {
    var w := s[at..at + 2];
    assert s[at] == w[0] && s[at + 1] == w[1];
    assert c % 0x1_0000 == c % 0x100 + (c / 0x100) % 0x100 * 0x100;
  }

  lemma LongRoundTrip(s: seq<byte>, at: nat, c: int)
    requires Stands(s, at, LongBytes(c))
    ensures LongAt(s, at) == Int32(c) && U32(LongAt(s, at)) == U32(c)
  {
    hide Join4, Int32, U32;
    var w := s[at..at + 4];
    assert s[at] == w[0] && s[at + 1] == w[1] && s[at + 2] == w[2] && s[at + 3] == w[3];
    FourDigits(c);
    LongSigned(c);
  }

  /** The low thirty-two bits decide, and reading them with a sign loses nothing. */
  lemma LongSigned(c: int)
    ensures Int32(c % 0x1_0000_0000) == Int32(c) && U32(Int32(c)) == U32(c)
  {
    var d := c % 0x1_0000_0000;
    assert d % 0x1_0000_0000 == d;
    assert d >= 0x8000_0000 ==> (d - 0x1_0000_0000) % 0x1_0000_0000 == d;
  }

  // ----- numbers that fit arrive as they are

  lemma ByteArrives(s: seq<byte>, at: nat, b: byte)
    requires Stands(s, at, ByteBytes(b))
    ensures U8(ByteAt(s, at)) == b
  {
    CharRoundTrip(s, at, b);
  }

  lemma SignedArrives(s: seq<byte>, at: nat, n: i16)
    requires Stands(s, at, ShortBytes(n))
    ensures ShortAt(s, at) == n && |ShortBytes(n)| == 2
  {
    ShortRoundTrip(s, at, n);
  }

  lemma UnsignedArrives(s: seq<byte>, at: nat, n: int)
    requires 0 <= n < 0x1_0000 && Stands(s, at, ShortBytes(n))
    ensures U16(ShortAt(s, at)) == n && |ShortBytes(n)| == 2
  {
    ShortRoundTrip(s, at, n);
  }

  lemma SignedLongArrives(s: seq<byte>, at: nat, n: int)
    requires -0x8000_0000 <= n < 0x8000_0000 && Stands(s, at, LongBytes(n))
    ensures LongAt(s, at) == n
  {
    hide LongAt, LongBytes;
    LongRoundTrip(s, at, n);
  }

  lemma UnsignedLongArrives(s: seq<byte>, at: nat, n: int)
    requires 0 <= n < 0x1_0000_0000 && Stands(s, at, LongBytes(n))
    ensures U32(LongAt(s, at)) == n && |LongBytes(n)| == 4
  {
    hide LongAt;
    LongRoundTrip(s, at, n);
  }

  // ----- digits

  lemma FourDigits(c: int)
    ensures Join4(c % 0x100, c / 0x100 % 0x100, c / 0x1_0000 % 0x100, c / 0x100_0000 % 0x100) == c % 0x1_0000_0000
  {
    var d := c / 0x1_0000;
    assert c == d * 0x1_0000 + c % 0x1_0000;
    TwoDigits(c);
    TwoDigits(d);
    assert d == d / 0x1_0000 * 0x1_0000 + d % 0x1_0000;
    assert d / 0x100 == c / 0x100_0000;
  }

  lemma TwoDigits(c: int)
    ensures Join2(c % 0x100, c / 0x100 % 0x100) == c % 0x1_0000
  {
  }

  // ----- the writers and readers themselves

  method WriteByte(sb: MemBuf, c: int)
    requires sb.Valid() && sb.Accepts(1)
    modifies sb, sb.data
    ensures sb.Valid() && sb.View() == Put(old(sb.View()), ByteBytes(c))
    ensures sb.read == old(sb.read) && sb.allowOverflow == old(sb.allowOverflow)
  {
    var at := sb.Alloc(1);
    sb.data[at] := U8(c);
    assert sb.data[..sb.size] == sb.data[..at] + [U8(c)];
  }

  method WriteShort(sb: MemBuf, c: int)
    requires sb.Valid() && sb.Accepts(2)
    modifies sb, sb.data
    ensures sb.Valid() && sb.View() == Put(old(sb.View()), ShortBytes(c))
    ensures sb.read == old(sb.read) && sb.allowOverflow == old(sb.allowOverflow)
  {
    var at := sb.Alloc(2);
    sb.data[at] := U8(c);
    sb.data[at + 1] := U8(c / 0x100);
    assert sb.data[..sb.size] == sb.data[..at] + [U8(c), U8(c / 0x100)];
  }

  method WriteLong(sb: MemBuf, c: int)
    requires sb.Valid() && sb.Accepts(4)
    modifies sb, sb.data
    ensures sb.Valid() && sb.View() == Put(old(sb.View()), LongBytes(c))
    ensures sb.read == old(sb.read) && sb.allowOverflow == old(sb.allowOverflow)
  {
    var at := sb.Alloc(4);
    sb.data[at] := U8(c);
    sb.data[at + 1] := U8(c / 0x100);
    sb.data[at + 2] := U8(c / 0x1_0000);
    sb.data[at + 3] := U8(c / 0x100_0000);
    assert sb.data[..sb.size] == sb.data[..at] + LongBytes(c);
  }

  // the same on a buffer that takes any message by dropping what it had, as messages with several pieces need

  method WriteByteTo(buf: MemBuf, c: int)
    requires buf.Valid() && buf.allowOverflow && 4 <= buf.data.Length
    modifies buf, buf.data
    ensures buf.Valid() && buf.allowOverflow && buf.read == old(buf.read)
    ensures Wrote(old(buf.View()), buf.View(), ByteBytes(c))
  {
    WriteByte(buf, c);
  }

  method WriteShortTo(buf: MemBuf, c: int)
    requires buf.Valid() && buf.allowOverflow && 4 <= buf.data.Length
    modifies buf, buf.data
    ensures buf.Valid() && buf.allowOverflow && buf.read == old(buf.read)
    ensures Wrote(old(buf.View()), buf.View(), ShortBytes(c))
  {
    WriteShort(buf, c);
  }

  method WriteLongTo(buf: MemBuf, c: int)
    requires buf.Valid() && buf.allowOverflow && 4 <= buf.data.Length
    modifies buf, buf.data
    ensures buf.Valid() && buf.allowOverflow && buf.read == old(buf.read)
    ensures Wrote(old(buf.View()), buf.View(), LongBytes(c))
  {
    WriteLong(buf, c);
  }

  method ReadChar(sb: MemBuf) returns (c: int)
    requires sb.Valid()
    modifies sb`read
    ensures c == CharAt(sb.View().bytes, old(sb.read)) && sb.read == old(sb.read) + 1
  {
    if sb.read + 1 > sb.size {
      c := -1;
    } else {
      c := Int8(sb.data[sb.read]);
    }
    sb.read := sb.read + 1;
  }

  method ReadByte(sb: MemBuf) returns (c: int)
    requires sb.Valid()
    modifies sb`read
    ensures c == ByteAt(sb.View().bytes, old(sb.read)) && sb.read == old(sb.read) + 1
  {
    if sb.read + 1 > sb.size {
      c := -1;
    } else {
      c := sb.data[sb.read];
    }
    sb.read := sb.read + 1;
  }

  method ReadShort(sb: MemBuf) returns (c: int)
    requires sb.Valid()
    modifies sb`read
    ensures c == ShortAt(sb.View().bytes, old(sb.read)) && sb.read == old(sb.read) + 2
  {
    if sb.read + 2 > sb.size {
      c := -1;
    } else {
      c := Int16(Join2(sb.data[sb.read], sb.data[sb.read + 1]));
    }
    sb.read := sb.read + 2;
  }

  method ReadLong(sb: MemBuf) returns (c: int)
    requires sb.Valid()
    modifies sb`read
    ensures c == LongAt(sb.View().bytes, old(sb.read)) && sb.read == old(sb.read) + 4
  {
    if sb.read + 4 > sb.size {
      c := -1;
    } else {
      c := Int32(Join4(sb.data[sb.read], sb.data[sb.read + 1], sb.data[sb.read + 2], sb.data[sb.read + 3]));
    }
    sb.read := sb.read + 4;
  }
}
