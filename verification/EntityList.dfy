/** The entity list of a snapshot: the merge Sv_EmitEntities of src/server/sv_entity.c writes and the
    replay Cl_ParseEntities of src/client/cl_entity.c reads, as functions of the two lists.  A reader that
    knows the old list and the baselines up to quantisation ends up with the new list up to quantisation. */
module EntityList {
  import opened MemBuf
  import opened NetMessage
  import opened EntityDelta

  const NO_ENTITY: u16 := 0xffff

  /** The number at a position of a list; a position past the end compares as larger than any number. */
  function NumberAt(list: seq<EntityState>, k: nat): u16
  {
    if k < |list| then list[k].number else NO_ENTITY
  }

  predicate InRange(e: EntityState) { 0 < e.number < MAX_EDICTS }

  ghost predicate AllInRange(list: seq<EntityState>)
  {
    forall i :: 0 <= i < |list| ==> InRange(list[i])
  }

  /** Lists come out of a scan of the edicts in index order. */
  ghost predicate Ordered(list: seq<EntityState>)
  {
    && AllInRange(list)
    && (forall i, j :: 0 <= i < j < |list| ==> list[i].number < list[j].number)
  }

  function QuantisedList(list: seq<EntityState>): (r: seq<EntityState>)
    ensures |r| == |list|
    ensures forall i :: 0 <= i < |list| ==> r[i] == Quantised(list[i])
  {
    seq(|list|, i requires 0 <= i < |list| => Quantised(list[i]))
  }

  // ----- writing

  /** What is still to be written when the merge stands at `o` in the old and `n` in the new list. */
  function Emitted(base: seq<EntityState>, from: seq<EntityState>, to: seq<EntityState>, maxClients: int, o: nat,
                   n: nat)
    : seq<byte>
    requires |base| == MAX_EDICTS && o <= |from| && n <= |to|
    requires AllInRange(from) && AllInRange(to)
    decreases |from| - o + |to| - n
  {
    var oldNumber, newNumber := NumberAt(from, o), NumberAt(to, n);
    assert o < |from| ==> InRange(from[o]);
    assert n < |to| ==> InRange(to[n]);
    if o == |from| && n == |to| then ShortBytes(0)
    else if newNumber == oldNumber then
      EncodeEntity(from[o], to[n], false, newNumber <= maxClients) + Emitted(base, from, to, maxClients, o + 1, n + 1)
    else if newNumber < oldNumber then
      EncodeEntity(base[newNumber], to[n], true, true) + Emitted(base, from, to, maxClients, o, n + 1)
    else
      HeadBytes(oldNumber, U_REMOVE) + Emitted(base, from, to, maxClients, o + 1, n)
  }

  // ----- reading

  datatype ParseError = BadNumber | EndOfMessage | NoDeltaFrame

  datatype Parsed = Parsed(entities: seq<EntityState>, at: nat) | Failed(error: ParseError, entities: seq<EntityState>)

  /** An old entity carried over without a record. */
  function Unchanged(s: seq<byte>, at: nat, e: EntityState): EntityState
  {
    DecodeEntity(s, at, e, e.number, 0).0
  }

  /** Carries over the old entities from `o` on whose numbers are below `number`. */
  function CarryBelow(s: seq<byte>, at: nat, from: seq<EntityState>, o: nat, number: u16, out: seq<EntityState>)
    : (r: (nat, seq<EntityState>))
    requires number <= NO_ENTITY
    ensures o <= r.0 && |r.1| == |out| + (r.0 - o)
    decreases |from| - o
  {
    if o < |from| && from[o].number < number then
      CarryBelow(s, at, from, o + 1, number, out + [Unchanged(s, at, from[o])])
    else (o, out)
  }

  /** Where the reader stands: position, index into the old list, entities read so far. */
  datatype Reader = Reader(at: nat, o: nat, out: seq<EntityState>)

  /** One turn of the reading loop: a record, the end of the list, or an error. */
  datatype Turn = Goes(reader: Reader) | Ends(at: nat) | Breaks(error: ParseError, out: seq<EntityState>)

  /** The rest of a turn once the number and the bits of a record are known. */
  function TakeRecord(s: seq<byte>, at: nat, number: u16, bits: bv16, o: nat, out: seq<EntityState>,
                      base: seq<EntityState>, from: seq<EntityState>, haveFrame: bool): (t: Turn)
    requires |base| == MAX_EDICTS && number < MAX_EDICTS
    ensures t.Goes? ==> at <= t.reader.at
  {
    if Has(bits, U_REMOVE) then
      if haveFrame then Goes(Reader(at, o + 1, out)) else Breaks(NoDeltaFrame, out)
    else if NumberAt(from, o) == number then
      var (e, at') := DecodeEntity(s, at, from[o], number, bits);
      Goes(Reader(at', o + 1, out + [e]))
    else
      var (e, at') := DecodeEntity(s, at, base[number], number, bits);
      Goes(Reader(at', o, out + [e]))
  }

  /** The bits; then the old entities below the number; then the record itself. */
  function RestOfRecord(s: seq<byte>, r: Reader, number: u16, base: seq<EntityState>, from: seq<EntityState>,
                        haveFrame: bool): (t: Turn)
    requires |base| == MAX_EDICTS && number < MAX_EDICTS
    ensures t.Goes? ==> r.at < t.reader.at
  {
    CarryAndTake(s, r.at + 4, number, BitsAt(s, r.at + 2), r.o, r.out, base, from, haveFrame)
  }

  function CarryAndTake(s: seq<byte>, at: nat, number: u16, bits: bv16, o: nat, out: seq<EntityState>,
                        base: seq<EntityState>, from: seq<EntityState>, haveFrame: bool): (t: Turn)
    requires |base| == MAX_EDICTS && number < MAX_EDICTS
    ensures t.Goes? ==> at <= t.reader.at
  {
    var carried := CarryBelow(s, at, from, o, number, out);
    TakeRecord(s, at, number, bits, carried.0, carried.1, base, from, haveFrame)
  }

  /** A record moves the reader on, so reading comes to an end. */
  function ReadRecord(s: seq<byte>, r: Reader, base: seq<EntityState>, from: seq<EntityState>,
                      haveFrame: bool): (t: Turn)
    requires |base| == MAX_EDICTS
    ensures t.Goes? ==> r.at < |s| && r.at < t.reader.at
  {
    var number := U16(ShortAt(s, r.at));
    if number >= MAX_EDICTS then Breaks(BadNumber, r.out)
    else if r.at + 2 > |s| then Breaks(EndOfMessage, r.out)
    else if number == 0 then Ends(r.at + 2)
    else RestOfRecord(s, r, number, base, from, haveFrame)
  }

  function Parse(s: seq<byte>, r: Reader, base: seq<EntityState>, from: seq<EntityState>, haveFrame: bool): Parsed
    requires |base| == MAX_EDICTS
    decreases if r.at < |s| then |s| - r.at else 0
  {
    match ReadRecord(s, r, base, from, haveFrame)
    case Breaks(error, out) => Failed(error, out)
    case Ends(at) => Parsed(CarryBelow(s, at, from, r.o, NO_ENTITY, r.out).1, at)
    case Goes(r') =>
      Parse(s, r', base, from, haveFrame)
  }

  /** Reading only ever adds entities. */
  lemma {:induction false} ParseGrows(s: seq<byte>, r: Reader, base: seq<EntityState>, from: seq<EntityState>,
                                      haveFrame: bool)
    requires |base| == MAX_EDICTS
    ensures |r.out| <= |Parse(s, r, base, from, haveFrame).entities|
    decreases if r.at < |s| then |s| - r.at else 0
  {
    hide ShortAt, BitsAt, DecodeEntity, CarryBelow;
    var t := ReadRecord(s, r, base, from, haveFrame);
    if t.Goes? { ParseGrows(s, t.reader, base, from, haveFrame); }
  }

  // ----- the round trip

  /** The last `pending` new entities equal, up to quantisation, the old ones the reader has yet to carry
      over: the writer sent nothing for them. */
  ghost predicate Pending(from: seq<EntityState>, to: seq<EntityState>, maxClients: int, oc: nat, o: nat, n: nat)
  {
    && oc <= o <= |from| && o - oc <= n <= |to|
    && forall j {:trigger from[j]} :: oc <= j < o ==>
         && from[j].number == to[n - o + j].number
         && EncodeEntity(from[j], to[n - o + j], false, to[n - o + j].number <= maxClients) == []
  }

  /** Carrying the pending entities over yields the quantised new ones. */
  lemma CarryPending(s: seq<byte>, at: nat, from: seq<EntityState>, to: seq<EntityState>, maxClients: int,
                     oc: nat, o: nat, n: nat, number: u16, out: seq<EntityState>)
    requires Pending(from, to, maxClients, oc, o, n)
    requires out == QuantisedList(to[..n - (o - oc)])
    requires forall j :: oc <= j < o ==> from[j].number < number
    requires o < |from| ==> number <= from[o].number
    ensures CarryBelow(s, at, QuantisedList(from), oc, number, out) == (o, QuantisedList(to[..n]))
    decreases o - oc
  {
    hide EncodeEntity, DecodeEntity, Quantised;
    QuantisedNumbers(from);
    if oc < o {
      var t := to[n - o + oc];
      UnsentEntity(s, at, from[oc], t, t.number <= maxClients);
      QuantisedNumber(from[oc]);
      assert Unchanged(s, at, QuantisedList(from)[oc]) == Quantised(t);
      assert out + [Quantised(t)] == QuantisedList(to[..n - (o - (oc + 1))]);
      CarryPending(s, at, from, to, maxClients, oc + 1, o, n, number, out + [Quantised(t)]);
    }
  }

  lemma QuantisedNumbers(list: seq<EntityState>)
    ensures forall i :: 0 <= i < |list| ==> QuantisedList(list)[i].number == list[i].number
  {
  }

  /** The writer stands at `o` and `n`, the reader's index lags at `oc`, and everything before is settled. */
  ghost predicate InStep(from: seq<EntityState>, to: seq<EntityState>, maxClients: int, oc: nat, o: nat, n: nat,
                         out: seq<EntityState>)
  {
    && Ordered(from) && Ordered(to)
    && oc <= o <= |from| && o - oc <= n <= |to|
    && Pending(from, to, maxClients, oc, o, n)
    && out == QuantisedList(to[..n - (o - oc)])
    && (o < |from| && n > 0 ==> to[n - 1].number < from[o].number)
    && (n < |to| && o > 0 ==> from[o - 1].number < to[n].number)
  }

  lemma ListGrows(to: seq<EntityState>, n: nat)
    requires n < |to|
    ensures QuantisedList(to[..n]) + [Quantised(to[n])] == QuantisedList(to[..n + 1])
  {
  }

  /** A record of an entity both lists hold. */
  lemma ReadsChanged(s: seq<byte>, at: nat, base: seq<EntityState>, from: seq<EntityState>, to: seq<EntityState>,
                     maxClients: int, oc: nat, o: nat, n: nat, out: seq<EntityState>, haveFrame: bool)
    requires |base| == MAX_EDICTS && InStep(from, to, maxClients, oc, o, n, out)
    requires o < |from| && n < |to| && from[o].number == to[n].number
    requires EncodeEntity(from[o], to[n], false, to[n].number <= maxClients) != []
    requires Stands(s, at, EncodeEntity(from[o], to[n], false, to[n].number <= maxClients))
    ensures ReadRecord(s, Reader(at, oc, out), QuantisedList(base), QuantisedList(from), haveFrame)
      == Goes(Reader(at + |EncodeEntity(from[o], to[n], false, to[n].number <= maxClients)|, o + 1,
                     QuantisedList(to[..n + 1])))
  {
    hide ShortAt, BitsAt, EncodeEntity, DecodeEntity, DeltaBits, Quantised, CarryBelow;
    EntityRoundTrip(s, at, from[o], to[n], false, to[n].number <= maxClients);
    CarryPending(s, at + 4, from, to, maxClients, oc, o, n, to[n].number, out);
    QuantisedNumbers(from);
    ListGrows(to, n);
    RecordInside(s, at, from[o], to[n], false, to[n].number <= maxClients);
  }

  lemma RecordInside(s: seq<byte>, at: nat, from: EntityState, to: EntityState, force: bool, isNew: bool)
    requires EncodeEntity(from, to, force, isNew) != [] && Stands(s, at, EncodeEntity(from, to, force, isNew))
    ensures at + 4 <= |s|
  {
    hide BodyFrom, DeltaBits;
  }

  /** A record of an entity only the new list holds. */
  lemma ReadsNew(s: seq<byte>, at: nat, base: seq<EntityState>, from: seq<EntityState>, to: seq<EntityState>,
                 maxClients: int, oc: nat, o: nat, n: nat, out: seq<EntityState>, haveFrame: bool)
    requires |base| == MAX_EDICTS && InStep(from, to, maxClients, oc, o, n, out)
    requires n < |to| && to[n].number < NumberAt(from, o)
    requires Stands(s, at, EncodeEntity(base[to[n].number], to[n], true, true))
    ensures ReadRecord(s, Reader(at, oc, out), QuantisedList(base), QuantisedList(from), haveFrame)
      == Goes(Reader(at + |EncodeEntity(base[to[n].number], to[n], true, true)|, o, QuantisedList(to[..n + 1])))
  {
    hide ShortAt, BitsAt, DecodeEntity, DeltaBits, Quantised, CarryBelow, BodyFrom;
    ForcedIsSent(base[to[n].number], to[n]);
    EntityRoundTrip(s, at, base[to[n].number], to[n], true, true);
    CarryPending(s, at + 4, from, to, maxClients, oc, o, n, to[n].number, out);
    QuantisedNumbers(from);
    ListGrows(to, n);
    RecordInside(s, at, base[to[n].number], to[n], true, true);
  }

  lemma ForcedIsSent(from: EntityState, to: EntityState)
    ensures EncodeEntity(from, to, true, true) != []
  {
    hide BodyFrom, DeltaBits;
  }

  /** A record that takes an old entity away. */
  lemma ReadsGone(s: seq<byte>, at: nat, base: seq<EntityState>, from: seq<EntityState>, to: seq<EntityState>,
                  maxClients: int, oc: nat, o: nat, n: nat, out: seq<EntityState>)
    requires |base| == MAX_EDICTS && InStep(from, to, maxClients, oc, o, n, out)
    requires o < |from| && from[o].number < NumberAt(to, n)
    requires Stands(s, at, HeadBytes(from[o].number, U_REMOVE))
    ensures ReadRecord(s, Reader(at, oc, out), QuantisedList(base), QuantisedList(from), true)
      == Goes(Reader(at + 4, o + 1, QuantisedList(to[..n])))
    ensures |HeadBytes(from[o].number, U_REMOVE)| == 4
  {
    hide ShortAt, BitsAt, DecodeEntity, Quantised, CarryBelow;
    HeadRoundTrip(s, at, from[o].number, U_REMOVE);
    CarryPending(s, at + 4, from, to, maxClients, oc, o, n, from[o].number, out);
  }

  lemma ReadsEnd(s: seq<byte>, at: nat, base: seq<EntityState>, from: seq<EntityState>, to: seq<EntityState>,
                 maxClients: int, oc: nat, out: seq<EntityState>, haveFrame: bool)
    requires |base| == MAX_EDICTS && InStep(from, to, maxClients, oc, |from|, |to|, out)
    requires Stands(s, at, ShortBytes(0))
    ensures Parse(s, Reader(at, oc, out), QuantisedList(base), QuantisedList(from), haveFrame)
      == Parsed(QuantisedList(to), at + 2)
  {
    hide ShortAt, BitsAt, DecodeEntity, Quantised, CarryBelow;
    UnsignedArrives(s, at, 0);
    CarryPending(s, at + 2, from, to, maxClients, oc, |from|, |to|, NO_ENTITY, out);
    assert to[..|to|] == to;
  }

  lemma StaysInStep(from: seq<EntityState>, to: seq<EntityState>, maxClients: int, oc: nat, o: nat, n: nat,
                    out: seq<EntityState>)
    requires InStep(from, to, maxClients, oc, o, n, out)
    ensures o < |from| && n < |to| && from[o].number == to[n].number ==>
      InStep(from, to, maxClients, o + 1, o + 1, n + 1, QuantisedList(to[..n + 1]))
    ensures n < |to| && to[n].number < NumberAt(from, o) ==>
      InStep(from, to, maxClients, o, o, n + 1, QuantisedList(to[..n + 1]))
    ensures o < |from| && from[o].number < NumberAt(to, n) ==>
      InStep(from, to, maxClients, o + 1, o + 1, n, QuantisedList(to[..n]))
  {
    hide EncodeEntity, Quantised;
  }

  lemma LagsInStep(from: seq<EntityState>, to: seq<EntityState>, maxClients: int, oc: nat, o: nat, n: nat,
                   out: seq<EntityState>)
    requires InStep(from, to, maxClients, oc, o, n, out)
    requires o < |from| && n < |to| && from[o].number == to[n].number
    requires EncodeEntity(from[o], to[n], false, to[n].number <= maxClients) == []
    ensures InStep(from, to, maxClients, oc, o + 1, n + 1, out)
  {
    hide EncodeEntity, Quantised;
  }

  /** The record the merge writes next, and where it stands afterwards. */
  function NextRecord(base: seq<EntityState>, from: seq<EntityState>, to: seq<EntityState>, maxClients: int, o: nat,
                      n: nat)
    : (seq<byte>, nat, nat)
    requires |base| == MAX_EDICTS && o <= |from| && n <= |to|
    requires AllInRange(from) && AllInRange(to)
    requires o < |from| || n < |to|
  {
    assert (o < |from| ==> InRange(from[o])) && (n < |to| ==> InRange(to[n]));
    if NumberAt(to, n) == NumberAt(from, o) then
      (EncodeEntity(from[o], to[n], false, to[n].number <= maxClients), o + 1, n + 1)
    else if NumberAt(to, n) < NumberAt(from, o) then
      (EncodeEntity(base[to[n].number], to[n], true, true), o, n + 1)
    else (HeadBytes(from[o].number, U_REMOVE), o + 1, n)
  }

  lemma EmitsNext(base: seq<EntityState>, from: seq<EntityState>, to: seq<EntityState>, maxClients: int, o: nat, n: nat)
    requires |base| == MAX_EDICTS && o <= |from| && n <= |to|
    requires AllInRange(from) && AllInRange(to)
    requires o < |from| || n < |to|
    ensures var (record, o', n') := NextRecord(base, from, to, maxClients, o, n);
      && o' <= |from| && n' <= |to| && |from| - o' + |to| - n' < |from| - o + |to| - n
      && Emitted(base, from, to, maxClients, o, n) == record + Emitted(base, from, to, maxClients, o', n')
  {
    hide EncodeEntity, HeadBytes;
    assert (o < |from| ==> InRange(from[o])) && (n < |to| ==> InRange(to[n]));
  }

  lemma EmitsEnd(base: seq<EntityState>, from: seq<EntityState>, to: seq<EntityState>, maxClients: int)
    requires |base| == MAX_EDICTS && AllInRange(from) && AllInRange(to)
    ensures Emitted(base, from, to, maxClients, |from|, |to|) == ShortBytes(0) && |ShortBytes(0)| == 2
  {
  }

  lemma ParseGoes(s: seq<byte>, r: Reader, base: seq<EntityState>, from: seq<EntityState>, haveFrame: bool)
    requires |base| == MAX_EDICTS
    ensures var t := ReadRecord(s, r, base, from, haveFrame);
      t.Goes? ==> Parse(s, r, base, from, haveFrame) == Parse(s, t.reader, base, from, haveFrame)
  {
    hide ReadRecord;
  }

  /** Whatever the merge writes next brings the reader in step with it again. */
  lemma ReadsNext(s: seq<byte>, at: nat, base: seq<EntityState>, from: seq<EntityState>, to: seq<EntityState>,
                  maxClients: int, oc: nat, o: nat, n: nat, out: seq<EntityState>, haveFrame: bool)
    requires |base| == MAX_EDICTS && InStep(from, to, maxClients, oc, o, n, out) && (from != [] ==> haveFrame)
    requires o < |from| || n < |to|
    requires Stands(s, at, NextRecord(base, from, to, maxClients, o, n).0)
    ensures var (record, o', n') := NextRecord(base, from, to, maxClients, o, n);
      if record == [] then InStep(from, to, maxClients, oc, o', n', out)
      else
        && n' <= |to| && InStep(from, to, maxClients, o', o', n', QuantisedList(to[..n']))
        && ReadRecord(s, Reader(at, oc, out), QuantisedList(base), QuantisedList(from), haveFrame)
           == Goes(Reader(at + |record|, o', QuantisedList(to[..n'])))
  {
    hide EncodeEntity, HeadBytes, ReadRecord, Quantised, QuantisedList, CarryBelow, Pending;
    StaysInStep(from, to, maxClients, oc, o, n, out);
    assert (o < |from| ==> InRange(from[o])) && (n < |to| ==> InRange(to[n]));
    var record := NextRecord(base, from, to, maxClients, o, n).0;
    if NumberAt(to, n) == NumberAt(from, o) {
      if record == [] {
        LagsInStep(from, to, maxClients, oc, o, n, out);
      } else {
        ReadsChanged(s, at, base, from, to, maxClients, oc, o, n, out, haveFrame);
      }
    } else if NumberAt(to, n) < NumberAt(from, o) {
      ReadsNew(s, at, base, from, to, maxClients, oc, o, n, out, haveFrame);
      ForcedIsSent(base[to[n].number], to[n]);
    } else {
      ReadsGone(s, at, base, from, to, maxClients, oc, o, n, out);
    }
  }

  lemma {:induction false} ReadsEmitted(
      s: seq<byte>, at: nat, base: seq<EntityState>, from: seq<EntityState>, to: seq<EntityState>, maxClients: int,
      oc: nat, o: nat, n: nat, out: seq<EntityState>, haveFrame: bool)
    requires |base| == MAX_EDICTS && InStep(from, to, maxClients, oc, o, n, out)
    requires from != [] ==> haveFrame
    requires Stands(s, at, Emitted(base, from, to, maxClients, o, n))
    ensures Parse(s, Reader(at, oc, out), QuantisedList(base), QuantisedList(from), haveFrame)
      == Parsed(QuantisedList(to), at + |Emitted(base, from, to, maxClients, o, n)|)
    decreases |from| - o + |to| - n
  {
    hide Emitted, Parse, NextRecord, ReadRecord, QuantisedList, Pending, ShortBytes, Stands;
    if o == |from| && n == |to| {
      EmitsEnd(base, from, to, maxClients);
      ReadsEnd(s, at, base, from, to, maxClients, oc, out, haveFrame);
    } else {
      EmitsNext(base, from, to, maxClients, o, n);
      var (record, o', n') := NextRecord(base, from, to, maxClients, o, n);
      StandsSplit(s, at, record, Emitted(base, from, to, maxClients, o', n'));
      ReadsNext(s, at, base, from, to, maxClients, oc, o, n, out, haveFrame);
      if record == [] {
        ReadsEmitted(s, at, base, from, to, maxClients, oc, o', n', out, haveFrame);
      } else {
        ParseGoes(s, Reader(at, oc, out), QuantisedList(base), QuantisedList(from), haveFrame);
        ReadsEmitted(s, at + |record|, base, from, to, maxClients, o', o', n', QuantisedList(to[..n']), haveFrame);
      }
    }
  }

  /** The entity-list round trip: for lists in number order, a reader that holds the quantised old list and
      baselines reads from the bytes exactly the quantised new list, and consumes exactly those bytes. */
  lemma EntityListRoundTrip(s: seq<byte>, at: nat, base: seq<EntityState>, from: seq<EntityState>, to: seq<EntityState>,
                            maxClients: int, haveFrame: bool)
    requires |base| == MAX_EDICTS && Ordered(from) && Ordered(to) && (from != [] ==> haveFrame)
    requires Stands(s, at, Emitted(base, from, to, maxClients, 0, 0))
    ensures Parse(s, Reader(at, 0, []), QuantisedList(base), QuantisedList(from), haveFrame)
      == Parsed(QuantisedList(to), at + |Emitted(base, from, to, maxClients, 0, 0)|)
  {
    ReadsEmitted(s, at, base, from, to, maxClients, 0, 0, 0, [], haveFrame);
  }

  /** A baseline travels as a forced delta from the null state, so the client holds it quantised. */
  lemma BaselineRoundTrip(s: seq<byte>, at: nat, e: EntityState)
    requires InRange(e) && Stands(s, at, EncodeEntity(NULL_STATE, e, true, true))
    ensures U16(ShortAt(s, at)) == e.number
    ensures DecodeEntity(s, at + 4, NULL_STATE, e.number, BitsAt(s, at + 2))
      == (Quantised(e), at + |EncodeEntity(NULL_STATE, e, true, true)|)
  {
    hide ShortAt, BitsAt, DecodeEntity, DeltaBits, BodyFrom;
    ForcedIsSent(NULL_STATE, e);
    EntityRoundTrip(s, at, NULL_STATE, e, true, true);
    assert Quantised(NULL_STATE) == NULL_STATE;
  }
}
