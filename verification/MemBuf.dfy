/** The bounded message buffer of src/mem_buf.c.  A buffer is a fixed array with a write size and a
    read cursor.  Writing past the end of a buffer that allows it drops everything written before,
    keeps the new piece and leaves a sticky flag behind. */
module MemBuf {

  type byte = x: int | 0 <= x < 256

  /** No packet is longer. */
  const MAX_MSG_SIZE: nat := 1400

  /** The value a buffer holds: what was written, and whether anything was lost on the way. */
  datatype Buf = Buf(bytes: seq<byte>, overflowed: bool, cap: nat)

  /** The value after one write of `piece`. */
  function Put(b: Buf, piece: seq<byte>): (r: Buf)
  {
    if |b.bytes| + |piece| <= b.cap then b.(bytes := b.bytes + piece)
    else b.(bytes := piece, overflowed := true)
  }

  /** What several writes adding up to `piece` amount to, however they were cut. */
  ghost predicate Wrote(b: Buf, c: Buf, piece: seq<byte>)
  {
    && c.cap == b.cap
    && (b.overflowed ==> c.overflowed)
    && if |b.bytes| + |piece| <= b.cap
       then c.bytes == b.bytes + piece && c.overflowed == b.overflowed
       else c.overflowed
  }

  /** Writing `x` and then `y` is writing their concatenation: nothing is lost while the whole fits,
      and when it does not fit the flag says so, whichever of the pieces overflowed. */
  lemma WroteTwice(b: Buf, c: Buf, d: Buf, x: seq<byte>, y: seq<byte>)
    requires Wrote(b, c, x) && Wrote(c, d, y)
    ensures Wrote(b, d, x + y)
  {
    assert (b.bytes + x) + y == b.bytes + (x + y);
  }

  lemma WroteNothing(b: Buf)
    requires |b.bytes| <= b.cap
    ensures Wrote(b, b, [])
  {
    assert b.bytes + [] == b.bytes;
  }

  /** A piece that was still to be written has been. */
  lemma WroteOn(b: Buf, c: Buf, d: Buf, done: seq<byte>, piece: seq<byte>, rest: seq<byte>)
    requires Wrote(b, c, done) && Wrote(c, d, piece)
    ensures Wrote(b, d, done + piece) && done + (piece + rest) == (done + piece) + rest
  {
    WroteTwice(b, c, d, done, piece);
  }

  class MemBuf {
    var allowOverflow: bool
    var overflowed: bool
    const data: array<byte>
    var size: nat
    var read: nat

    ghost predicate Valid()
      reads this
    {
      size <= data.Length
    }

    function View(): (b: Buf)
      reads this, data
      requires Valid()
    {
      Buf(data[..size], overflowed, data.Length)
    }

    /** A write of `len` bytes that does not abort the program. */
    predicate Accepts(len: nat)
      reads this
    {
      size + len <= data.Length || (allowOverflow && len <= data.Length)
    }

    /** Mem_InitBuffer, followed by the caller's choice of allow_overflow. */
    constructor (data: array<byte>, allowOverflow: bool)
      ensures Valid() && this.data == data && this.allowOverflow == allowOverflow && read == 0
      ensures View() == Buf([], false, data.Length)
    {
      this.data := data;
      this.allowOverflow := allowOverflow;
      overflowed := false;
      size := 0;
      read := 0;
    }

    method Clear()
      requires Valid()
      modifies this
      ensures Valid() && View() == Buf([], false, data.Length)
      ensures read == old(read) && allowOverflow == old(allowOverflow)
    {
      size := 0;
      overflowed := false;
    }

    /** Reserves `len` bytes and answers where they start. */
    method Alloc(len: nat) returns (at: nat)
      requires Valid() && Accepts(len)
      modifies this
      ensures Valid() && at + len == size
      ensures if old(size) + len <= data.Length
              then at == old(size) && overflowed == old(overflowed)
              else at == 0 && overflowed
      ensures read == old(read) && allowOverflow == old(allowOverflow)
    {
      if size + len > data.Length {
        Clear();
        overflowed := true;
      }
      at := size;
      size := size + len;
    }

    method Write(piece: seq<byte>)
      requires Valid() && Accepts(|piece|)
      modifies this, data
      ensures Valid() && View() == Put(old(View()), piece)
      ensures read == old(read) && allowOverflow == old(allowOverflow)
    {
      var at := Alloc(|piece|);
      forall i | 0 <= i < |piece| {
        data[at + i] := piece[i];
      }
      assert data[at..size] == piece;
      assert data[..at] == old(data[..])[..at];
      assert data[..size] == data[..at] + data[at..size];
    }
  }
}
