/** Delta compression of one entity_state_t, Net_WriteDeltaEntity and Net_ReadDeltaEntity of
    src/net_message.c.  Only the fields whose bits are set travel; `Quantised` is what a reader can know
    of a state, and a reader that knows the old state so far knows the new one so far afterwards. */
module EntityDelta {
  import opened MemBuf
  import opened NetMessage
  import opened Vectors

  const MAX_EDICTS: nat := 1024

  datatype EntityState = EntityState(
    number: u16,
    origin: Vec3,
    oldOrigin: Vec3,
    angles: Vec3,
    animation1: byte,
    animation2: byte,
    event: byte,
    effects: u16,
    model1: byte,
    model2: byte,
    model3: byte,
    model4: byte,
    client: byte,
    sound: byte,
    solid: u16)

  const NULL_STATE := EntityState(0, ORIGIN, ORIGIN, ORIGIN, 0, 0, 0, 0, 0, 0, 0, 0, 0, 0, 0)

  // ----- what the wire keeps of a coordinate and of an angle

  /** The C conversion from floating point to integer. */
  function Trunc(v: real): int { if v >= 0.0 then v.Floor else -((-v).Floor) }

  function CoordUnits(v: real): int { Trunc(v * 8.0) }

  function AngleUnits(v: real): int { Trunc(v * 255.0 / 360.0) }

  function CoordOf(c: int): real { c as real / 8.0 }

  function AngleOf(c: int): real { c as real * (360.0 / 255.0) }

  function QuantisedPosition(v: Vec3): Vec3
  {
    Vec3(CoordOf(Int16(CoordUnits(v.x))), CoordOf(Int16(CoordUnits(v.y))), CoordOf(Int16(CoordUnits(v.z))))
  }

  function QuantisedAngles(v: Vec3): Vec3
  {
    Vec3(AngleOf(Int8(AngleUnits(v.x))), AngleOf(Int8(AngleUnits(v.y))), AngleOf(Int8(AngleUnits(v.z))))
  }

  function Quantised(e: EntityState): EntityState
  {
    e.(origin := QuantisedPosition(e.origin), oldOrigin := QuantisedPosition(e.oldOrigin),
       angles := QuantisedAngles(e.angles))
  }

  /** Inside the world a coordinate loses less than an eighth of a unit, towards zero. */
  lemma QuantisationError(v: real)
    requires -4096.0 < v < 4096.0
    ensures var q := CoordOf(Int16(CoordUnits(v)));
      if v >= 0.0 then v - 0.125 < q <= v else v <= q < v + 0.125
  {
  }

  /** A truncated number is less than one off, towards zero. */
  lemma TruncError(v: real)
    ensures if v >= 0.0 then v - 1.0 < Trunc(v) as real <= v else v <= Trunc(v) as real < v + 1.0
  {
  }

  /** A coordinate that arrives, `laps` times around the world off. */
  ghost predicate CoordLaps(v: real, q: real, laps: int) { -0.125 < v - q - 8192.0 * laps as real < 0.125 }

  ghost predicate CoordNear(v: real, q: real)
  {
    (exists laps: int :: CoordLaps(v, q, laps)) && (-4096.0 < v < 4096.0 ==> CoordLaps(v, q, 0))
  }

  const ANGLE_STEP := 360.0 / 255.0

  /** An angle that arrives, `turns` times around; the wire has 256 steps to a turn of 255. */
  ghost predicate AngleTurns(v: real, a: real, turns: int)
  {
    Abs(v - a - 360.0 * turns as real) < ANGLE_STEP * (1.0 + Abs(turns as real))
  }

  ghost predicate AngleNear(v: real, a: real)
  {
    (exists turns: int :: AngleTurns(v, a, turns)) && (-180.0 <= v <= 180.0 ==> AngleTurns(v, a, 0))
  }

  lemma CoordArrives(v: real)
    ensures CoordNear(v, CoordOf(Int16(CoordUnits(v))))
  {
    TruncError(v * 8.0);
    var u := CoordUnits(v);
    var laps := (u - Int16(u)) / 0x1_0000;
    assert u == Int16(u) + 0x1_0000 * laps;
    assert CoordLaps(v, CoordOf(Int16(u)), laps);
    if -4096.0 < v < 4096.0 { QuantisationError(v); }
  }

  lemma AngleArrives(v: real)
    ensures AngleNear(v, AngleOf(Int8(AngleUnits(v))))
  {
    var x := v * 255.0 / 360.0;
    TruncError(x);
    var u := AngleUnits(v);
    var turns := (u - Int8(u)) / 0x100;
    assert u == Int8(u) + 0x100 * turns;
    AngleOff(v, x, u, Int8(u), turns);
    if -180.0 <= v <= 180.0 { assert -127.5 <= x <= 127.5 && turns == 0; }
  }

  lemma AngleOff(v: real, x: real, u: int, c: int, turns: int)
    requires x == v * 255.0 / 360.0 && Abs(x - u as real) < 1.0 && u == c + 0x100 * turns
    ensures AngleTurns(v, AngleOf(c), turns)
  {
    var w, f := turns as real, x - u as real;
    assert u as real == c as real + 256.0 * w;
    assert v == x * ANGLE_STEP;
    assert v - AngleOf(c) - 360.0 * w == (w + f) * ANGLE_STEP;
    assert Abs(w + f) < 1.0 + Abs(w);
  }

  ghost predicate PositionNear(v: Vec3, q: Vec3) { CoordNear(v.x, q.x) && CoordNear(v.y, q.y) && CoordNear(v.z, q.z) }

  ghost predicate AnglesNear(v: Vec3, a: Vec3) { AngleNear(v.x, a.x) && AngleNear(v.y, a.y) && AngleNear(v.z, a.z) }

  /** What arrives of a state: each coordinate and angle near the one sent, all else as it was. */
  ghost predicate Arrived(e: EntityState, r: EntityState)
  {
    && r.number == e.number
    && PositionNear(e.origin, r.origin) && PositionNear(e.oldOrigin, r.oldOrigin) && AnglesNear(e.angles, r.angles)
    && r.animation1 == e.animation1 && r.animation2 == e.animation2 && r.event == e.event && r.effects == e.effects
    && r.model1 == e.model1 && r.model2 == e.model2 && r.model3 == e.model3 && r.model4 == e.model4
    && r.client == e.client && r.sound == e.sound && r.solid == e.solid
  }

  lemma QuantisedArrives(e: EntityState)
    ensures Arrived(e, Quantised(e))
  {
    hide CoordNear, AngleNear, CoordOf, AngleOf, CoordUnits, AngleUnits, Int16, Int8;
    CoordArrives(e.origin.x);
    CoordArrives(e.origin.y);
    CoordArrives(e.origin.z);
    CoordArrives(e.oldOrigin.x);
    CoordArrives(e.oldOrigin.y);
    CoordArrives(e.oldOrigin.z);
    AngleArrives(e.angles.x);
    AngleArrives(e.angles.y);
    AngleArrives(e.angles.z);
  }

  // ----- the fields, in wire order, with their bits

  datatype Field = Origin | OldOrigin | Angles | Animations | Event | Effects | Models | Client | Sound | Solid

  const FIELDS := [Origin, OldOrigin, Angles, Animations, Event, Effects, Models, Client, Sound, Solid]

  const U_ORIGIN: bv16 := 0x1
  const U_OLD_ORIGIN: bv16 := 0x2
  const U_ANGLES: bv16 := 0x4
  const U_ANIMATIONS: bv16 := 0x8
  const U_EVENT: bv16 := 0x10
  const U_EFFECTS: bv16 := 0x20
  const U_MODELS: bv16 := 0x40
  const U_CLIENT: bv16 := 0x80
  const U_SOUND: bv16 := 0x100
  const U_SOLID: bv16 := 0x200
  const U_REMOVE: bv16 := 0x400

  function Bit(f: Field): bv16
  {
    match f
    case Origin => U_ORIGIN
    case OldOrigin => U_OLD_ORIGIN
    case Angles => U_ANGLES
    case Animations => U_ANIMATIONS
    case Event => U_EVENT
    case Effects => U_EFFECTS
    case Models => U_MODELS
    case Client => U_CLIENT
    case Sound => U_SOUND
    case Solid => U_SOLID
  }

  predicate Has(bits: bv16, mask: bv16) { bits & mask != 0 }

  /** The field must be sent. */
  predicate Differs(f: Field, from: EntityState, to: EntityState, isNew: bool)
  {
    match f
    case Origin => to.origin != from.origin
    case OldOrigin => isNew || from.oldOrigin != to.oldOrigin
    case Angles => to.angles != from.angles
    case Animations => to.animation1 != from.animation1 || to.animation2 != from.animation2
    case Event => to.event != 0
    case Effects => to.effects != from.effects
    case Models =>
      to.model1 != from.model1 || to.model2 != from.model2 || to.model3 != from.model3 || to.model4 != from.model4
    case Client => to.client != from.client
    case Sound => to.sound != from.sound
    case Solid => to.solid != from.solid
  }

  function BitIf(f: Field, from: EntityState, to: EntityState, isNew: bool): bv16
  {
    if Differs(f, from, to, isNew) then Bit(f) else 0
  }

  function Both(x: bv16, y: bv16): bv16 { x | y }

  /** The bits of some fields. */
  function BitsOf(fields: seq<Field>, from: EntityState, to: EntityState, isNew: bool): bv16
  {
    if fields == [] then 0
    else Both(BitsOf(fields[..|fields| - 1], from, to, isNew), BitIf(fields[|fields| - 1], from, to, isNew))
  }

  function DeltaBits(from: EntityState, to: EntityState, isNew: bool): bv16 { BitsOf(FIELDS, from, to, isNew) }

  lemma HasOr(x: bv16, y: bv16, f: Field)
    ensures Has(Both(x, y), Bit(f)) <==> Has(x, Bit(f)) || Has(y, Bit(f))
  {
    match f {
      case Origin =>
      case OldOrigin =>
      case Angles =>
      case Animations =>
      case Event =>
      case Effects =>
      case Models =>
      case Client =>
      case Sound =>
      case Solid =>
    }
  }

  lemma RemovesOr(x: bv16, y: bv16)
    ensures Has(Both(x, y), U_REMOVE) <==> Has(x, U_REMOVE) || Has(y, U_REMOVE)
  {
  }

  lemma HasIf(g: Field, f: Field, from: EntityState, to: EntityState, isNew: bool)
    ensures Has(BitIf(g, from, to, isNew), Bit(f)) <==> g == f && Differs(g, from, to, isNew)
  {
    hide Differs;
  }

  lemma NotRemoved(g: Field, from: EntityState, to: EntityState, isNew: bool)
    ensures !Has(BitIf(g, from, to, isNew), U_REMOVE)
  {
    hide Differs;
  }

  lemma {:induction false} BitsOfTell(fields: seq<Field>, f: Field, from: EntityState, to: EntityState, isNew: bool)
    ensures Has(BitsOf(fields, from, to, isNew), Bit(f)) <==> f in fields && Differs(f, from, to, isNew)
    ensures !Has(BitsOf(fields, from, to, isNew), U_REMOVE)
  {
    hide Has, Bit, BitIf, Differs, Both;
    if fields == [] {
      NoBits(f);
    } else {
      var front, g := fields[..|fields| - 1], fields[|fields| - 1];
      assert fields == front + [g];
      BitsOfTell(front, f, from, to, isNew);
      HasOr(BitsOf(front, from, to, isNew), BitIf(g, from, to, isNew), f);
      HasIf(g, f, from, to, isNew);
      RemovesOr(BitsOf(front, from, to, isNew), BitIf(g, from, to, isNew));
      NotRemoved(g, from, to, isNew);
    }
  }

  lemma NoBits(f: Field)
    ensures !Has(0, Bit(f)) && !Has(0, U_REMOVE)
  {
  }

  /** Each bit says whether its field differs, and a delta never looks like a removal. */
  lemma BitsTell(f: Field, from: EntityState, to: EntityState, isNew: bool)
    ensures Has(DeltaBits(from, to, isNew), Bit(f)) <==> Differs(f, from, to, isNew)
    ensures !Has(DeltaBits(from, to, isNew), U_REMOVE)
  {
    hide Has, Bit, BitIf, Differs, BitsOf;
    BitsOfTell(FIELDS, f, from, to, isNew);
    match f {
      case Origin => assert f == FIELDS[0];
      case OldOrigin => assert f == FIELDS[1];
      case Angles => assert f == FIELDS[2];
      case Animations => assert f == FIELDS[3];
      case Event => assert f == FIELDS[4];
      case Effects => assert f == FIELDS[5];
      case Models => assert f == FIELDS[6];
      case Client => assert f == FIELDS[7];
      case Sound => assert f == FIELDS[8];
      case Solid => assert f == FIELDS[9];
    }
  }

  // ----- writing

  function PositionBytes(v: Vec3): seq<byte>
  {
    ShortBytes(CoordUnits(v.x)) + (ShortBytes(CoordUnits(v.y)) + ShortBytes(CoordUnits(v.z)))
  }

  function AnglesBytes(v: Vec3): seq<byte>
  {
    ByteBytes(AngleUnits(v.x)) + (ByteBytes(AngleUnits(v.y)) + ByteBytes(AngleUnits(v.z)))
  }

  function FieldBytes(f: Field, e: EntityState): seq<byte>
  {
    match f
    case Origin => PositionBytes(e.origin)
    case OldOrigin => PositionBytes(e.oldOrigin)
    case Angles => AnglesBytes(e.angles)
    case Animations => ByteBytes(e.animation1) + ByteBytes(e.animation2)
    case Event => ByteBytes(e.event)
    case Effects => ShortBytes(e.effects)
    case Models =>
      ByteBytes(e.model1) + (ByteBytes(e.model2) + (ByteBytes(e.model3) + ByteBytes(e.model4)))
    case Client => ByteBytes(e.client)
    case Sound => ByteBytes(e.sound)
    case Solid => ShortBytes(e.solid)
  }

  function SentBytes(f: Field, bits: bv16, to: EntityState): seq<byte>
  {
    if Has(bits, Bit(f)) then FieldBytes(f, to) else []
  }

  /** The fields from the k-th on. */
  function BodyFrom(k: nat, bits: bv16, to: EntityState): seq<byte>
    requires k <= |FIELDS|
    decreases |FIELDS| - k
  {
    if k == |FIELDS| then [] else SentBytes(FIELDS[k], bits, to) + BodyFrom(k + 1, bits, to)
  }

  function HeadBytes(number: int, bits: bv16): seq<byte>
  {
    ShortBytes(number) + ShortBytes(bits as int)
  }

  /** Net_WriteDeltaEntity: nothing at all when no field is to be sent and the record is not forced. */
  function EncodeEntity(from: EntityState, to: EntityState, force: bool, isNew: bool): seq<byte>
  {
    var bits := DeltaBits(from, to, isNew);
    if bits == 0 && !force then [] else HeadBytes(to.number, bits) + BodyFrom(0, bits, to)
  }

  // ----- reading

  /** The bits of a record as the reader sees them. */
  function BitsAt(s: seq<byte>, at: nat): bv16 { U16(ShortAt(s, at)) as bv16 }

  function PositionAt(s: seq<byte>, at: nat): Vec3
  {
    Vec3(CoordOf(ShortAt(s, at)), CoordOf(ShortAt(s, at + 2)), CoordOf(ShortAt(s, at + 4)))
  }

  function AnglesAt(s: seq<byte>, at: nat): Vec3
  {
    Vec3(AngleOf(CharAt(s, at)), AngleOf(CharAt(s, at + 1)), AngleOf(CharAt(s, at + 2)))
  }

  function FieldSize(f: Field): nat
  {
    match f
    case Origin => 6
    case OldOrigin => 6
    case Angles => 3
    case Animations => 2
    case Effects => 2
    case Solid => 2
    case Models => 4
    case _ => 1
  }

  /** `e` with the field taken from the message. */
  function FieldAt(f: Field, s: seq<byte>, at: nat, e: EntityState): EntityState
  {
    match f
    case Origin => e.(origin := PositionAt(s, at))
    case OldOrigin => e.(oldOrigin := PositionAt(s, at))
    case Angles => e.(angles := AnglesAt(s, at))
    case Animations => e.(animation1 := U8(ByteAt(s, at)), animation2 := U8(ByteAt(s, at + 1)))
    case Event => e.(event := U8(ByteAt(s, at)))
    case Effects => e.(effects := U16(ShortAt(s, at)))
    case Models =>
      e.(model1 := U8(ByteAt(s, at)), model2 := U8(ByteAt(s, at + 1)), model3 := U8(ByteAt(s, at + 2)),
         model4 := U8(ByteAt(s, at + 3)))
    case Client => e.(client := U8(ByteAt(s, at)))
    case Sound => e.(sound := U8(ByteAt(s, at)))
    case Solid => e.(solid := U16(ShortAt(s, at)))
  }

  /** A field whose bit is clear keeps its old value, except that an event does not outlive its frame. */
  function Kept(f: Field, e: EntityState): EntityState { if f == Event then e.(event := 0) else e }

  function DecodeField(f: Field, s: seq<byte>, at: nat, e: EntityState, bits: bv16): (EntityState, nat)
  {
    if Has(bits, Bit(f)) then (FieldAt(f, s, at, e), at + FieldSize(f)) else (Kept(f, e), at)
  }

  function DecodeFrom(k: nat, s: seq<byte>, at: nat, e: EntityState, bits: bv16): (r: (EntityState, nat))
    requires k <= |FIELDS|
    ensures at <= r.1
    decreases |FIELDS| - k
  {
    if k == |FIELDS| then (e, at)
    else
      var (e', at') := DecodeField(FIELDS[k], s, at, e, bits);
      DecodeFrom(k + 1, s, at', e', bits)
  }

  /** Net_ReadDeltaEntity, after number and bits: the state, and where the message goes on. */
  function DecodeEntity(s: seq<byte>, at: nat, from: EntityState, number: u16, bits: bv16)
    : (r: (EntityState, nat))
    ensures at <= r.1
  {
    DecodeFrom(0, s, at, from.(number := number), bits)
  }

  // ----- the round trip

  /** `new` in the first k fields and `old` in the others. */
  function Mixed(new_: EntityState, old_: EntityState, k: nat): EntityState
  {
    EntityState(new_.number,
      if k > 0 then new_.origin else old_.origin,
      if k > 1 then new_.oldOrigin else old_.oldOrigin,
      if k > 2 then new_.angles else old_.angles,
      if k > 3 then new_.animation1 else old_.animation1,
      if k > 3 then new_.animation2 else old_.animation2,
      if k > 4 then new_.event else old_.event,
      if k > 5 then new_.effects else old_.effects,
      if k > 6 then new_.model1 else old_.model1,
      if k > 6 then new_.model2 else old_.model2,
      if k > 6 then new_.model3 else old_.model3,
      if k > 6 then new_.model4 else old_.model4,
      if k > 7 then new_.client else old_.client,
      if k > 8 then new_.sound else old_.sound,
      if k > 9 then new_.solid else old_.solid)
  }

  lemma MixedEnds(a: EntityState, b: EntityState)
    ensures Mixed(a, b, 0) == b.(number := a.number) && Mixed(a, b, |FIELDS|) == a
  {
  }

  lemma QuantisedNumber(e: EntityState)
    ensures Quantised(e).number == e.number
  {
  }

  lemma ShortsArrive(s: seq<byte>, at: nat, x: int, y: int, z: int)
    requires Stands(s, at, ShortBytes(x) + (ShortBytes(y) + ShortBytes(z)))
    ensures ShortAt(s, at) == Int16(x) && ShortAt(s, at + 2) == Int16(y) && ShortAt(s, at + 4) == Int16(z)
  {
    StandsSplit(s, at, ShortBytes(x), ShortBytes(y) + ShortBytes(z));
    StandsSplit(s, at + 2, ShortBytes(y), ShortBytes(z));
    ShortRoundTrip(s, at, x);
    ShortRoundTrip(s, at + 2, y);
    ShortRoundTrip(s, at + 4, z);
  }

  lemma AnglesRoundTrip(s: seq<byte>, at: nat, v: Vec3)
    requires Stands(s, at, AnglesBytes(v))
    ensures AnglesAt(s, at) == QuantisedAngles(v)
  {
    StandsSplit(s, at, ByteBytes(AngleUnits(v.x)), ByteBytes(AngleUnits(v.y)) + ByteBytes(AngleUnits(v.z)));
    StandsSplit(s, at + 1, ByteBytes(AngleUnits(v.y)), ByteBytes(AngleUnits(v.z)));
    CharRoundTrip(s, at, AngleUnits(v.x));
    CharRoundTrip(s, at + 1, AngleUnits(v.y));
    CharRoundTrip(s, at + 2, AngleUnits(v.z));
  }

  lemma BytesArrive(s: seq<byte>, at: nat, a: byte, b: byte)
    requires Stands(s, at, ByteBytes(a) + ByteBytes(b))
    ensures U8(ByteAt(s, at)) == a && U8(ByteAt(s, at + 1)) == b
  {
    StandsSplit(s, at, ByteBytes(a), ByteBytes(b));
    ByteArrives(s, at, a);
    ByteArrives(s, at + 1, b);
  }

  lemma ModelsRoundTrip(s: seq<byte>, at: nat, e: EntityState)
    requires Stands(s, at, FieldBytes(Models, e))
    ensures U8(ByteAt(s, at)) == e.model1 && U8(ByteAt(s, at + 1)) == e.model2
    ensures U8(ByteAt(s, at + 2)) == e.model3 && U8(ByteAt(s, at + 3)) == e.model4
  {
    StandsSplit(s, at, ByteBytes(e.model1), ByteBytes(e.model2) + (ByteBytes(e.model3) + ByteBytes(e.model4)));
    StandsSplit(s, at + 1, ByteBytes(e.model2), ByteBytes(e.model3) + ByteBytes(e.model4));
    ByteArrives(s, at, e.model1);
    ByteArrives(s, at + 1, e.model2);
    BytesArrive(s, at + 2, e.model3, e.model4);
  }

  /** `e` with one field of `a`. */
  function Copied(f: Field, a: EntityState, e: EntityState): EntityState
  {
    match f
    case Origin => e.(origin := a.origin)
    case OldOrigin => e.(oldOrigin := a.oldOrigin)
    case Angles => e.(angles := a.angles)
    case Animations => e.(animation1 := a.animation1, animation2 := a.animation2)
    case Event => e.(event := a.event)
    case Effects => e.(effects := a.effects)
    case Models => e.(model1 := a.model1, model2 := a.model2, model3 := a.model3, model4 := a.model4)
    case Client => e.(client := a.client)
    case Sound => e.(sound := a.sound)
    case Solid => e.(solid := a.solid)
  }

  lemma CopiedIsMixed(f: Field, a: EntityState, b: EntityState, k: nat)
    requires k < |FIELDS| && f == FIELDS[k]
    ensures Copied(f, a, Mixed(a, b, k)) == Mixed(a, b, k + 1)
  {
  }

  /** A sent field arrives as its quantised value. */
  lemma FieldArrives(f: Field, s: seq<byte>, at: nat, to: EntityState, e: EntityState)
    requires Stands(s, at, FieldBytes(f, to))
    ensures FieldAt(f, s, at, e) == Copied(f, Quantised(to), e)
    ensures |FieldBytes(f, to)| == FieldSize(f)
  {
    var a, b := to.origin, to.oldOrigin;
    match f
    case Origin => ShortsArrive(s, at, CoordUnits(a.x), CoordUnits(a.y), CoordUnits(a.z));
    case OldOrigin => ShortsArrive(s, at, CoordUnits(b.x), CoordUnits(b.y), CoordUnits(b.z));
    case Angles => AnglesRoundTrip(s, at, to.angles);
    case Animations => BytesArrive(s, at, to.animation1, to.animation2);
    case Event => ByteArrives(s, at, to.event);
    case Effects => UnsignedArrives(s, at, to.effects);
    case Models => ModelsRoundTrip(s, at, to);
    case Client => ByteArrives(s, at, to.client);
    case Sound => ByteArrives(s, at, to.sound);
    case Solid => UnsignedArrives(s, at, to.solid);
  }

  /** A field that is not sent is one the reader already has. */
  lemma FieldIsKnown(f: Field, from: EntityState, to: EntityState, isNew: bool, k: nat)
    requires k < |FIELDS| && f == FIELDS[k] && !Differs(f, from, to, isNew)
    ensures Kept(f, Mixed(Quantised(to), Quantised(from), k)) == Mixed(Quantised(to), Quantised(from), k + 1)
  {
  }

  /** Sent or not, the reader's next field comes out as the new state's. */
  lemma FieldStep(k: nat, s: seq<byte>, at: nat, from: EntityState, to: EntityState, isNew: bool, bits: bv16)
    requires k < |FIELDS| && bits == DeltaBits(from, to, isNew)
    requires Stands(s, at, SentBytes(FIELDS[k], bits, to))
    ensures DecodeField(FIELDS[k], s, at, Mixed(Quantised(to), Quantised(from), k), bits)
            == (Mixed(Quantised(to), Quantised(from), k + 1), at + |SentBytes(FIELDS[k], bits, to)|)
  {
    hide FieldAt, FieldBytes, Kept, Quantised, Mixed, DeltaBits, Differs;
    var f := FIELDS[k];
    BitsTell(f, from, to, isNew);
    if Has(bits, Bit(f)) {
      FieldArrives(f, s, at, to, Mixed(Quantised(to), Quantised(from), k));
      CopiedIsMixed(f, Quantised(to), Quantised(from), k);
    } else {
      FieldIsKnown(f, from, to, isNew, k);
    }
  }

  lemma {:induction false} BodyRoundTrip(k: nat, s: seq<byte>, at: nat, from: EntityState, to: EntityState, isNew: bool)
    requires k <= |FIELDS|
    requires Stands(s, at, BodyFrom(k, DeltaBits(from, to, isNew), to))
    ensures var bits := DeltaBits(from, to, isNew);
      DecodeFrom(k, s, at, Mixed(Quantised(to), Quantised(from), k), bits)
      == (Quantised(to), at + |BodyFrom(k, bits, to)|)
    decreases |FIELDS| - k
  {
    hide DecodeField, SentBytes, Quantised, Mixed, DeltaBits;
    var bits := DeltaBits(from, to, isNew);
    if k < |FIELDS| {
      StandsSplit(s, at, SentBytes(FIELDS[k], bits, to), BodyFrom(k + 1, bits, to));
      FieldStep(k, s, at, from, to, isNew, bits);
      BodyRoundTrip(k + 1, s, at + |SentBytes(FIELDS[k], bits, to)|, from, to, isNew);
    } else {
      MixedEnds(Quantised(to), Quantised(from));
    }
  }

  /** A reader that knows the quantised old state and meets the record learns the quantised new one, and
      stops right behind the record. */
  lemma EntityRoundTrip(s: seq<byte>, at: nat, from: EntityState, to: EntityState, force: bool, isNew: bool)
    requires EncodeEntity(from, to, force, isNew) != [] && Stands(s, at, EncodeEntity(from, to, force, isNew))
    ensures U16(ShortAt(s, at)) == to.number
    ensures BitsAt(s, at + 2) == DeltaBits(from, to, isNew)
    ensures !Has(DeltaBits(from, to, isNew), U_REMOVE)
    ensures DecodeEntity(s, at + 4, Quantised(from), to.number, DeltaBits(from, to, isNew))
            == (Quantised(to), at + |EncodeEntity(from, to, force, isNew)|)
  {
    hide ShortAt, BitsAt, DecodeEntity, DeltaBits, Quantised, BodyFrom;
    BitsTell(Origin, from, to, isNew);
    RecordRoundTrip(s, at, from, to, isNew, DeltaBits(from, to, isNew));
  }

  /** A record is written exactly when it must be: when some field differs, or always if it is forced. */
  lemma SentIfChanged(from: EntityState, to: EntityState, force: bool, isNew: bool)
    ensures EncodeEntity(from, to, force, isNew) != [] <==> force || exists f :: Differs(f, from, to, isNew)
  {
    hide Differs, HeadBytes, BodyFrom, DeltaBits;
    var bits := DeltaBits(from, to, isNew);
    HeadIsLong(to.number, bits);
    forall f: Field
      ensures Has(bits, Bit(f)) <==> Differs(f, from, to, isNew)
    {
      BitsTell(f, from, to, isNew);
    }
    BitsAreFields(from, to, isNew);
  }

  lemma HeadIsLong(number: u16, bits: bv16)
    ensures |HeadBytes(number, bits)| == 4
  {
  }

  lemma {:induction false} NoneIsZero(fields: seq<Field>, from: EntityState, to: EntityState, isNew: bool)
    requires forall f :: !Differs(f, from, to, isNew)
    ensures BitsOf(fields, from, to, isNew) == 0
  {
    hide Differs;
    if fields != [] { NoneIsZero(fields[..|fields| - 1], from, to, isNew); }
  }

  lemma BitsAreFields(from: EntityState, to: EntityState, isNew: bool)
    ensures DeltaBits(from, to, isNew) != 0 <==> exists f :: Differs(f, from, to, isNew)
  {
    hide Differs, BitsOf;
    if exists f :: Differs(f, from, to, isNew) {
      var f :| Differs(f, from, to, isNew);
      BitsTell(f, from, to, isNew);
      NoBits(f);
    } else {
      NoneIsZero(FIELDS, from, to, isNew);
    }
  }

  /** The state that a record decodes to is near the one sent, whatever the old state was. */
  lemma EntityArrives(s: seq<byte>, at: nat, from: EntityState, to: EntityState, force: bool, isNew: bool)
    requires EncodeEntity(from, to, force, isNew) != [] && Stands(s, at, EncodeEntity(from, to, force, isNew))
    ensures Arrived(to, DecodeEntity(s, at + 4, Quantised(from), U16(ShortAt(s, at)), BitsAt(s, at + 2)).0)
  {
    hide ShortAt, BitsAt, DecodeEntity, DeltaBits, Quantised, EncodeEntity, Arrived;
    EntityRoundTrip(s, at, from, to, force, isNew);
    QuantisedArrives(to);
  }

  lemma RecordRoundTrip(s: seq<byte>, at: nat, from: EntityState, to: EntityState, isNew: bool, bits: bv16)
    requires bits == DeltaBits(from, to, isNew)
    requires Stands(s, at, HeadBytes(to.number, bits) + BodyFrom(0, bits, to))
    ensures U16(ShortAt(s, at)) == to.number && BitsAt(s, at + 2) == bits
    ensures DecodeEntity(s, at + 4, Quantised(from), to.number, bits)
            == (Quantised(to), at + |HeadBytes(to.number, bits) + BodyFrom(0, bits, to)|)
  {
    hide ShortAt, ShortBytes, DecodeFrom, BodyFrom, DeltaBits, Quantised;
    StandsSplit(s, at, HeadBytes(to.number, bits), BodyFrom(0, bits, to));
    HeadRoundTrip(s, at, to.number, bits);
    BodyRoundTrip(0, s, at + 4, from, to, isNew);
    MixedEnds(Quantised(to), Quantised(from));
    QuantisedNumber(to);
  }

  lemma HeadRoundTrip(s: seq<byte>, at: nat, number: u16, bits: bv16)
    requires Stands(s, at, HeadBytes(number, bits))
    ensures U16(ShortAt(s, at)) == number && BitsAt(s, at + 2) == bits
    ensures |HeadBytes(number, bits)| == 4
  {
    StandsSplit(s, at, ShortBytes(number), ShortBytes(bits as int));
    UnsignedArrives(s, at, number);
    UnsignedArrives(s, at + 2, bits as int);
  }

  /** A record that is not written is not needed: reading the old state with no bits set gives the new one. */
  lemma UnsentEntity(s: seq<byte>, at: nat, from: EntityState, to: EntityState, isNew: bool)
    requires EncodeEntity(from, to, false, isNew) == []
    ensures DecodeEntity(s, at, Quantised(from), to.number, 0) == (Quantised(to), at)
  {
    assert DeltaBits(from, to, isNew) == 0;
    UnsentFrom(0, s, at, from, to, isNew);
  }

  lemma {:induction false} UnsentFrom(k: nat, s: seq<byte>, at: nat, from: EntityState, to: EntityState, isNew: bool)
    requires k <= |FIELDS| && DeltaBits(from, to, isNew) == 0
    ensures DecodeFrom(k, s, at, Mixed(Quantised(to), Quantised(from), k), 0) == (Quantised(to), at)
    decreases |FIELDS| - k
  {
    if k < |FIELDS| {
      BitsTell(FIELDS[k], from, to, isNew);
      FieldIsKnown(FIELDS[k], from, to, isNew, k);
      UnsentFrom(k + 1, s, at, from, to, isNew);
    }
  }

  /** With no bits set nothing is read. */
  lemma {:induction false} NothingRead(k: nat, s: seq<byte>, at: nat, e: EntityState)
    requires k <= |FIELDS|
    ensures DecodeFrom(k, s, at, e, 0).1 == at
    decreases |FIELDS| - k
  {
    hide Kept;
    if k < |FIELDS| { NothingRead(k + 1, s, at, Kept(FIELDS[k], e)); }
  }

  // ----- the writer and the reader

  method WritePosition(buf: MemBuf, v: Vec3)
    requires buf.Valid() && buf.allowOverflow && 4 <= buf.data.Length
    modifies buf, buf.data
    ensures buf.Valid() && buf.allowOverflow && buf.read == old(buf.read)
    ensures Wrote(old(buf.View()), buf.View(), PositionBytes(v))
  {
    ghost var b0 := buf.View();
    WriteShortTo(buf, CoordUnits(v.x));
    ghost var b1 := buf.View();
    WriteShortTo(buf, CoordUnits(v.y));
    ghost var b2 := buf.View();
    WriteShortTo(buf, CoordUnits(v.z));
    WroteTwice(b1, b2, buf.View(), ShortBytes(CoordUnits(v.y)), ShortBytes(CoordUnits(v.z)));
    WroteTwice(b0, b1, buf.View(), ShortBytes(CoordUnits(v.x)),
               ShortBytes(CoordUnits(v.y)) + ShortBytes(CoordUnits(v.z)));
  }

  method WriteAngles(buf: MemBuf, v: Vec3)
    requires buf.Valid() && buf.allowOverflow && 4 <= buf.data.Length
    modifies buf, buf.data
    ensures buf.Valid() && buf.allowOverflow && buf.read == old(buf.read)
    ensures Wrote(old(buf.View()), buf.View(), AnglesBytes(v))
  {
    ghost var b0 := buf.View();
    WriteByteTo(buf, AngleUnits(v.x));
    ghost var b1 := buf.View();
    WriteByteTo(buf, AngleUnits(v.y));
    ghost var b2 := buf.View();
    WriteByteTo(buf, AngleUnits(v.z));
    WroteTwice(b1, b2, buf.View(), ByteBytes(AngleUnits(v.y)), ByteBytes(AngleUnits(v.z)));
    WroteTwice(b0, b1, buf.View(), ByteBytes(AngleUnits(v.x)),
               ByteBytes(AngleUnits(v.y)) + ByteBytes(AngleUnits(v.z)));
  }

  method WritePair(buf: MemBuf, a: byte, b: byte)
    requires buf.Valid() && buf.allowOverflow && 4 <= buf.data.Length
    modifies buf, buf.data
    ensures buf.Valid() && buf.allowOverflow && buf.read == old(buf.read)
    ensures Wrote(old(buf.View()), buf.View(), ByteBytes(a) + ByteBytes(b))
  {
    ghost var b0 := buf.View();
    WriteByteTo(buf, a);
    ghost var b1 := buf.View();
    WriteByteTo(buf, b);
    WroteTwice(b0, b1, buf.View(), ByteBytes(a), ByteBytes(b));
  }

  method WriteModels(buf: MemBuf, to: EntityState)
    requires buf.Valid() && buf.allowOverflow && 4 <= buf.data.Length
    modifies buf, buf.data
    ensures buf.Valid() && buf.allowOverflow && buf.read == old(buf.read)
    ensures Wrote(old(buf.View()), buf.View(), FieldBytes(Models, to))
  {
    ghost var b0 := buf.View();
    WriteByteTo(buf, to.model1);
    ghost var b1 := buf.View();
    WriteByteTo(buf, to.model2);
    ghost var b2 := buf.View();
    WritePair(buf, to.model3, to.model4);
    ghost var tail := ByteBytes(to.model3) + ByteBytes(to.model4);
    WroteTwice(b1, b2, buf.View(), ByteBytes(to.model2), tail);
    WroteTwice(b0, b1, buf.View(), ByteBytes(to.model1), ByteBytes(to.model2) + tail);
  }

  method WriteField(buf: MemBuf, f: Field, bits: bv16, to: EntityState)
    requires buf.Valid() && buf.allowOverflow && 4 <= buf.data.Length
    modifies buf, buf.data
    ensures buf.Valid() && buf.allowOverflow && buf.read == old(buf.read)
    ensures Wrote(old(buf.View()), buf.View(), SentBytes(f, bits, to))
  {
    if Has(bits, Bit(f)) {
      match f
      case Origin => WritePosition(buf, to.origin);
      case OldOrigin => WritePosition(buf, to.oldOrigin);
      case Angles => WriteAngles(buf, to.angles);
      case Animations => WritePair(buf, to.animation1, to.animation2);
      case Event => WriteByteTo(buf, to.event);
      case Effects => WriteShortTo(buf, to.effects);
      case Models => WriteModels(buf, to);
      case Client => WriteByteTo(buf, to.client);
      case Sound => WriteByteTo(buf, to.sound);
      case Solid => WriteShortTo(buf, to.solid);
    }
  }

  /** The fields from the k-th on, in wire order. */
  method WriteFields(buf: MemBuf, bits: bv16, to: EntityState, k: nat)
    requires buf.Valid() && buf.allowOverflow && 4 <= buf.data.Length && k <= |FIELDS|
    modifies buf, buf.data
    ensures buf.Valid() && buf.allowOverflow && buf.read == old(buf.read)
    ensures Wrote(old(buf.View()), buf.View(), BodyFrom(k, bits, to))
    decreases |FIELDS| - k
  {
    if k < |FIELDS| {
      ghost var b0 := buf.View();
      WriteField(buf, FIELDS[k], bits, to);
      ghost var b1 := buf.View();
      WriteFields(buf, bits, to, k + 1);
      WroteTwice(b0, b1, buf.View(), SentBytes(FIELDS[k], bits, to), BodyFrom(k + 1, bits, to));
    }
  }

  method WriteHead(buf: MemBuf, number: int, bits: bv16)
    requires buf.Valid() && buf.allowOverflow && 4 <= buf.data.Length
    modifies buf, buf.data
    ensures buf.Valid() && buf.allowOverflow && buf.read == old(buf.read)
    ensures Wrote(old(buf.View()), buf.View(), HeadBytes(number, bits))
  {
    ghost var b0 := buf.View();
    WriteShortTo(buf, number);
    ghost var b1 := buf.View();
    WriteShortTo(buf, bits as int);
    WroteTwice(b0, b1, buf.View(), ShortBytes(number), ShortBytes(bits as int));
  }

  /** Net_WriteDeltaEntity.  A number out of range is a fatal error of the program. */
  method WriteDeltaEntity(buf: MemBuf, from: EntityState, to: EntityState, force: bool, isNew: bool)
    requires buf.Valid() && buf.allowOverflow && 4 <= buf.data.Length
    requires 0 < to.number < MAX_EDICTS
    modifies buf, buf.data
    ensures buf.Valid() && buf.allowOverflow && buf.read == old(buf.read)
    ensures Wrote(old(buf.View()), buf.View(), EncodeEntity(from, to, force, isNew))
  {
    var bits := DeltaBits(from, to, isNew);
    if bits == 0 && !force {
      return;
    }
    ghost var b0 := buf.View();
    WriteHead(buf, to.number, bits);
    ghost var b1 := buf.View();
    WriteFields(buf, bits, to, 0);
    WroteTwice(b0, b1, buf.View(), HeadBytes(to.number, bits), BodyFrom(0, bits, to));
  }

  method ReadPosition(sb: MemBuf) returns (v: Vec3)
    requires sb.Valid()
    modifies sb`read
    ensures v == PositionAt(sb.View().bytes, old(sb.read)) && sb.read == old(sb.read) + 6
  {
    var x := ReadShort(sb);
    var y := ReadShort(sb);
    var z := ReadShort(sb);
    v := Vec3(CoordOf(x), CoordOf(y), CoordOf(z));
  }

  method ReadAngles(sb: MemBuf) returns (v: Vec3)
    requires sb.Valid()
    modifies sb`read
    ensures v == AnglesAt(sb.View().bytes, old(sb.read)) && sb.read == old(sb.read) + 3
  {
    var x := ReadChar(sb);
    var y := ReadChar(sb);
    var z := ReadChar(sb);
    v := Vec3(AngleOf(x), AngleOf(y), AngleOf(z));
  }

  method ReadField(sb: MemBuf, f: Field, e: EntityState, bits: bv16) returns (r: EntityState)
    requires sb.Valid()
    modifies sb`read
    ensures (r, sb.read) == DecodeField(f, sb.View().bytes, old(sb.read), e, bits)
  {
    if !Has(bits, Bit(f)) {
      return Kept(f, e);
    }
    match f
    case Origin => var v := ReadPosition(sb); r := e.(origin := v);
    case OldOrigin => var v := ReadPosition(sb); r := e.(oldOrigin := v);
    case Angles => var v := ReadAngles(sb); r := e.(angles := v);
    case Animations =>
      var a := ReadByte(sb);
      var b := ReadByte(sb);
      r := e.(animation1 := U8(a), animation2 := U8(b));
    case Event => var c := ReadByte(sb); r := e.(event := U8(c));
    case Effects => var c := ReadShort(sb); r := e.(effects := U16(c));
    case Models =>
      var a := ReadByte(sb);
      var b := ReadByte(sb);
      var c := ReadByte(sb);
      var d := ReadByte(sb);
      r := e.(model1 := U8(a), model2 := U8(b), model3 := U8(c), model4 := U8(d));
    case Client => var c := ReadByte(sb); r := e.(client := U8(c));
    case Sound => var c := ReadByte(sb); r := e.(sound := U8(c));
    case Solid => var c := ReadShort(sb); r := e.(solid := U16(c));
  }

  method ReadFields(sb: MemBuf, k: nat, e: EntityState, bits: bv16) returns (r: EntityState)
    requires sb.Valid() && k <= |FIELDS|
    modifies sb`read
    ensures (r, sb.read) == DecodeFrom(k, sb.View().bytes, old(sb.read), e, bits)
    decreases |FIELDS| - k
  {
    if k == |FIELDS| {
      r := e;
    } else {
      r := ReadField(sb, FIELDS[k], e, bits);
      r := ReadFields(sb, k + 1, r, bits);
    }
  }

  method ReadBits(sb: MemBuf) returns (bits: bv16)
    requires sb.Valid()
    modifies sb`read
    ensures bits == BitsAt(sb.View().bytes, old(sb.read)) && sb.read == old(sb.read) + 2
  {
    hide ShortAt;
    var c := ReadShort(sb);
    bits := U16(c) as bv16;
  }

  /** Net_ReadDeltaEntity. */
  method ReadDeltaEntity(sb: MemBuf, from: EntityState, number: u16, bits: bv16) returns (to: EntityState)
    requires sb.Valid()
    modifies sb`read
    ensures (to, sb.read) == DecodeEntity(sb.View().bytes, old(sb.read), from, number, bits)
  {
    to := ReadFields(sb, 0, from.(number := number), bits);
  }
}
