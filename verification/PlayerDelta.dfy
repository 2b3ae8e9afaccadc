/** Delta compression of the player state, Sv_WritePlayerstate of src/server/sv_entity.c and
    Cl_ParsePlayerstate of src/client/cl_entity.c.  Everything in it is an integer that fits its place on
    the wire, so nothing is lost. */
module PlayerDelta {
  import opened MemBuf
  import opened NetMessage

  datatype Triple = Triple(x: i16, y: i16, z: i16)

  const MAX_STATS: nat := 32
  const PM_FREEZE: byte := 3

  datatype PmState = PmState(
    pmType: byte,
    origin: Triple,
    velocity: Triple,
    flags: u16,
    time: u16,
    gravity: i16,
    viewOffset: Triple,
    viewAngles: Triple,
    kickAngles: Triple,
    deltaAngles: Triple)

  const NO_STATS: seq<i16> := [0, 0, 0, 0, 0, 0, 0, 0, 0, 0, 0, 0, 0, 0, 0, 0,
                              0, 0, 0, 0, 0, 0, 0, 0, 0, 0, 0, 0, 0, 0, 0, 0]

  type Stats = s: seq<i16> | |s| == MAX_STATS witness NO_STATS

  datatype PlayerState = PlayerState(pm: PmState, stats: Stats)

  const NO_TRIPLE := Triple(0, 0, 0)
  const CLEAN := PlayerState(PmState(0, NO_TRIPLE, NO_TRIPLE, 0, 0, 0, NO_TRIPLE, NO_TRIPLE, NO_TRIPLE, NO_TRIPLE),
                             NO_STATS)

  // ----- the movement state

  datatype Field =
    Type | Origin | Velocity | Flags | Time | Gravity | ViewOffset | ViewAngles | KickAngles | DeltaAngles

  const FIELDS := [Type, Origin, Velocity, Flags, Time, Gravity, ViewOffset, ViewAngles, KickAngles, DeltaAngles]

  const PS_PM_TYPE: bv16 := 0x1
  const PS_PM_ORIGIN: bv16 := 0x2
  const PS_PM_VELOCITY: bv16 := 0x4
  const PS_PM_FLAGS: bv16 := 0x8
  const PS_PM_TIME: bv16 := 0x10
  const PS_PM_GRAVITY: bv16 := 0x20
  const PS_PM_VIEW_OFFSET: bv16 := 0x40
  const PS_PM_VIEW_ANGLES: bv16 := 0x80
  const PS_PM_KICK_ANGLES: bv16 := 0x100
  const PS_PM_DELTA_ANGLES: bv16 := 0x200

  function Bit(f: Field): bv16
  {
    match f
    case Type => PS_PM_TYPE
    case Origin => PS_PM_ORIGIN
    case Velocity => PS_PM_VELOCITY
    case Flags => PS_PM_FLAGS
    case Time => PS_PM_TIME
    case Gravity => PS_PM_GRAVITY
    case ViewOffset => PS_PM_VIEW_OFFSET
    case ViewAngles => PS_PM_VIEW_ANGLES
    case KickAngles => PS_PM_KICK_ANGLES
    case DeltaAngles => PS_PM_DELTA_ANGLES
  }

  predicate Has(bits: bv16, f: Field) { bits & Bit(f) != 0 }

  predicate Differs(f: Field, a: PmState, b: PmState)
  {
    match f
    case Type => a.pmType != b.pmType
    case Origin => a.origin != b.origin
    case Velocity => a.velocity != b.velocity
    case Flags => a.flags != b.flags
    case Time => a.time != b.time
    case Gravity => a.gravity != b.gravity
    case ViewOffset => a.viewOffset != b.viewOffset
    case ViewAngles => a.viewAngles != b.viewAngles
    case KickAngles => a.kickAngles != b.kickAngles
    case DeltaAngles => a.deltaAngles != b.deltaAngles
  }

  function BitIf(f: Field, a: PmState, b: PmState): bv16 { if Differs(f, a, b) then Bit(f) else 0 }

  function Both(x: bv16, y: bv16): bv16 { x | y }

  /** The bits of some fields. */
  function BitsOf(fields: seq<Field>, a: PmState, b: PmState): bv16
  {
    if fields == [] then 0
    else Both(BitsOf(fields[..|fields| - 1], a, b), BitIf(fields[|fields| - 1], a, b))
  }

  function PmBits(a: PmState, b: PmState): bv16 { BitsOf(FIELDS, a, b) }

  lemma HasOr(x: bv16, y: bv16, f: Field)
    ensures Has(Both(x, y), f) <==> Has(x, f) || Has(y, f)
  {
    match f {
      case Type =>
      case Origin =>
      case Velocity =>
      case Flags =>
      case Time =>
      case Gravity =>
      case ViewOffset =>
      case ViewAngles =>
      case KickAngles =>
      case DeltaAngles =>
    }
  }

  lemma HasIf(g: Field, f: Field, a: PmState, b: PmState)
    ensures Has(BitIf(g, a, b), f) <==> g == f && Differs(g, a, b)
  {
    hide Differs;
  }

  lemma {:induction false} BitsOfTell(fields: seq<Field>, f: Field, a: PmState, b: PmState)
    ensures Has(BitsOf(fields, a, b), f) <==> f in fields && Differs(f, a, b)
  {
    hide Has, Bit, BitIf, Differs, Both;
    if fields == [] {
      NoBits(f);
    } else {
      var front, g := fields[..|fields| - 1], fields[|fields| - 1];
      assert fields == front + [g];
      BitsOfTell(front, f, a, b);
      HasOr(BitsOf(front, a, b), BitIf(g, a, b), f);
      HasIf(g, f, a, b);
    }
  }

  lemma NoBits(f: Field)
    ensures !Has(0, f)
  {
  }

  /** Each bit says whether its field differs. */
  lemma BitsTell(f: Field, a: PmState, b: PmState)
    ensures Has(PmBits(a, b), f) <==> Differs(f, a, b)
  {
    hide Has, Bit, BitIf, Differs, BitsOf;
    BitsOfTell(FIELDS, f, a, b);
    match f {
      case Type => assert f == FIELDS[0];
      case Origin => assert f == FIELDS[1];
      case Velocity => assert f == FIELDS[2];
      case Flags => assert f == FIELDS[3];
      case Time => assert f == FIELDS[4];
      case Gravity => assert f == FIELDS[5];
      case ViewOffset => assert f == FIELDS[6];
      case ViewAngles => assert f == FIELDS[7];
      case KickAngles => assert f == FIELDS[8];
      case DeltaAngles => assert f == FIELDS[9];
    }
  }

  function TripleBytes(t: Triple): seq<byte> { ShortBytes(t.x) + (ShortBytes(t.y) + ShortBytes(t.z)) }

  function FieldBytes(f: Field, a: PmState): seq<byte>
  {
    match f
    case Type => ByteBytes(a.pmType)
    case Origin => TripleBytes(a.origin)
    case Velocity => TripleBytes(a.velocity)
    case Flags => ShortBytes(a.flags)
    case Time => ShortBytes(a.time)
    case Gravity => ShortBytes(a.gravity)
    case ViewOffset => TripleBytes(a.viewOffset)
    case ViewAngles => TripleBytes(a.viewAngles)
    case KickAngles => TripleBytes(a.kickAngles)
    case DeltaAngles => TripleBytes(a.deltaAngles)
  }

  function SentBytes(f: Field, bits: bv16, a: PmState): seq<byte> { if Has(bits, f) then FieldBytes(f, a) else [] }

  function PmBytesFrom(k: nat, bits: bv16, a: PmState): seq<byte>
    requires k <= |FIELDS|
    decreases |FIELDS| - k
  {
    if k == |FIELDS| then [] else SentBytes(FIELDS[k], bits, a) + PmBytesFrom(k + 1, bits, a)
  }

  function TripleAt(s: seq<byte>, at: nat): Triple
  {
    Triple(ShortAt(s, at), ShortAt(s, at + 2), ShortAt(s, at + 4))
  }

  function FieldSize(f: Field): nat
  {
    match f
    case Type => 1
    case Flags => 2
    case Time => 2
    case Gravity => 2
    case _ => 6
  }

  function FieldAt(f: Field, s: seq<byte>, at: nat, a: PmState): PmState
  {
    match f
    case Type => a.(pmType := U8(ByteAt(s, at)))
    case Origin => a.(origin := TripleAt(s, at))
    case Velocity => a.(velocity := TripleAt(s, at))
    case Flags => a.(flags := U16(ShortAt(s, at)))
    case Time => a.(time := U16(ShortAt(s, at)))
    case Gravity => a.(gravity := ShortAt(s, at))
    case ViewOffset => a.(viewOffset := TripleAt(s, at))
    case ViewAngles => a.(viewAngles := TripleAt(s, at))
    case KickAngles => a.(kickAngles := TripleAt(s, at))
    case DeltaAngles => a.(deltaAngles := TripleAt(s, at))
  }

  /** A demo server's players are frozen as soon as their type has been dealt with. */
  function Freeze(f: Field, demo: bool, a: PmState): PmState
  {
    if f == Type && demo then a.(pmType := PM_FREEZE) else a
  }

  function PmField(f: Field, s: seq<byte>, at: nat, a: PmState, bits: bv16): (PmState, nat)
  {
    if Has(bits, f) then (FieldAt(f, s, at, a), at + FieldSize(f)) else (a, at)
  }

  function PmFrom(k: nat, s: seq<byte>, at: nat, a: PmState, bits: bv16, demo: bool): (PmState, nat)
    requires k <= |FIELDS|
    decreases |FIELDS| - k
  {
    if k == |FIELDS| then (a, at)
    else
      var (b, at') := PmField(FIELDS[k], s, at, a, bits);
      PmFrom(k + 1, s, at', Freeze(FIELDS[k], demo, b), bits, demo)
  }

  // ----- the stats

  /** The mask of the stats that differ, from the i-th on: bit 0 of it speaks of stat i. */
  function StatBits(a: Stats, b: Stats, i: nat): nat
    requires i <= MAX_STATS
    decreases MAX_STATS - i
  {
    if i == MAX_STATS then 0 else (if a[i] != b[i] then 1 else 0) + 2 * StatBits(a, b, i + 1)
  }

  function StatBytes(a: Stats, bits: nat, i: nat): seq<byte>
    requires i <= MAX_STATS
    decreases MAX_STATS - i
  {
    if i == MAX_STATS then []
    else StatPiece(a, bits, i) + StatBytes(a, bits / 2, i + 1)
  }

  function StatPiece(a: Stats, bits: nat, i: nat): seq<byte>
    requires i < MAX_STATS
  {
    if bits % 2 == 1 then ShortBytes(a[i]) else []
  }

  function StatsFrom(s: seq<byte>, at: nat, bits: nat, i: nat, b: Stats): (Stats, nat)
    requires i <= MAX_STATS
    decreases MAX_STATS - i
  {
    if i == MAX_STATS then (b, at)
    else if bits % 2 == 1 then StatsFrom(s, at + 2, bits / 2, i + 1, b[i := ShortAt(s, at)])
    else StatsFrom(s, at, bits / 2, i + 1, b)
  }

  // ----- the whole state

  /** Sv_WritePlayerstate. */
  function EncodePlayer(from: PlayerState, to: PlayerState): seq<byte>
  {
    var bits, statBits := PmBits(to.pm, from.pm), StatBits(to.stats, from.stats, 0);
    ShortBytes(bits as int) + (PmBytesFrom(0, bits, to.pm) + (LongBytes(statBits) + StatBytes(to.stats, statBits, 0)))
  }

  /** Cl_ParsePlayerstate. */
  function DecodePlayer(s: seq<byte>, at: nat, from: PlayerState, demo: bool): (PlayerState, nat)
  {
    var (pm, at1) := PmFrom(0, s, at + 2, from.pm, U16(ShortAt(s, at)) as bv16, demo);
    var (stats, at2) := StatsFrom(s, at1 + 4, U32(LongAt(s, at1)), 0, from.stats);
    (PlayerState(pm, stats), at2)
  }

  // ----- the round trip

  function Mixed(a: PmState, b: PmState, k: nat): PmState
  {
    PmState(
      if k > 0 then a.pmType else b.pmType,
      if k > 1 then a.origin else b.origin,
      if k > 2 then a.velocity else b.velocity,
      if k > 3 then a.flags else b.flags,
      if k > 4 then a.time else b.time,
      if k > 5 then a.gravity else b.gravity,
      if k > 6 then a.viewOffset else b.viewOffset,
      if k > 7 then a.viewAngles else b.viewAngles,
      if k > 8 then a.kickAngles else b.kickAngles,
      if k > 9 then a.deltaAngles else b.deltaAngles)
  }

  function Copied(f: Field, a: PmState, e: PmState): PmState
  {
    match f
    case Type => e.(pmType := a.pmType)
    case Origin => e.(origin := a.origin)
    case Velocity => e.(velocity := a.velocity)
    case Flags => e.(flags := a.flags)
    case Time => e.(time := a.time)
    case Gravity => e.(gravity := a.gravity)
    case ViewOffset => e.(viewOffset := a.viewOffset)
    case ViewAngles => e.(viewAngles := a.viewAngles)
    case KickAngles => e.(kickAngles := a.kickAngles)
    case DeltaAngles => e.(deltaAngles := a.deltaAngles)
  }

  lemma TripleArrives(s: seq<byte>, at: nat, t: Triple)
    requires Stands(s, at, TripleBytes(t))
    ensures TripleAt(s, at) == t && |TripleBytes(t)| == 6
  {
    StandsSplit(s, at, ShortBytes(t.x), ShortBytes(t.y) + ShortBytes(t.z));
    StandsSplit(s, at + 2, ShortBytes(t.y), ShortBytes(t.z));
    SignedArrives(s, at, t.x);
    SignedArrives(s, at + 2, t.y);
    SignedArrives(s, at + 4, t.z);
  }

  lemma FieldArrives(f: Field, s: seq<byte>, at: nat, a: PmState, e: PmState)
    requires Stands(s, at, FieldBytes(f, a))
    ensures FieldAt(f, s, at, e) == Copied(f, a, e) && |FieldBytes(f, a)| == FieldSize(f)
  {
    hide ShortAt, ByteAt, TripleAt, TripleBytes;
    match f
    case Type => CharRoundTrip(s, at, a.pmType);
    case Origin => TripleArrives(s, at, a.origin);
    case Velocity => TripleArrives(s, at, a.velocity);
    case Flags => UnsignedArrives(s, at, a.flags);
    case Time => UnsignedArrives(s, at, a.time);
    case Gravity => SignedArrives(s, at, a.gravity);
    case ViewOffset => TripleArrives(s, at, a.viewOffset);
    case ViewAngles => TripleArrives(s, at, a.viewAngles);
    case KickAngles => TripleArrives(s, at, a.kickAngles);
    case DeltaAngles => TripleArrives(s, at, a.deltaAngles);
  }

  lemma CopiedIsMixed(f: Field, a: PmState, b: PmState, k: nat)
    requires k < |FIELDS| && f == FIELDS[k]
    ensures Copied(f, a, Mixed(a, b, k)) == Mixed(a, b, k + 1)
    ensures !Differs(f, a, b) ==> Mixed(a, b, k) == Mixed(a, b, k + 1)
  {
  }

  lemma MixedEnds(a: PmState, b: PmState)
    ensures Mixed(a, b, 0) == b && Mixed(a, b, |FIELDS|) == a
  {
  }

  /** Sent or not, the next field comes out as the new state's. */
  lemma FieldStep(k: nat, s: seq<byte>, at: nat, from: PmState, to: PmState, bits: bv16)
    requires k < |FIELDS| && bits == PmBits(to, from) && Stands(s, at, SentBytes(FIELDS[k], bits, to))
    ensures PmField(FIELDS[k], s, at, Mixed(to, from, k), bits)
      == (Mixed(to, from, k + 1), at + |SentBytes(FIELDS[k], bits, to)|)
    ensures Freeze(FIELDS[k], false, Mixed(to, from, k + 1)) == Mixed(to, from, k + 1)
  {
    hide FieldAt, FieldBytes, Mixed, PmBits, Differs;
    var f := FIELDS[k];
    BitsTell(f, to, from);
    if Has(bits, f) { FieldArrives(f, s, at, to, Mixed(to, from, k)); }
    CopiedIsMixed(f, to, from, k);
  }

  lemma {:induction false} PmRoundTrip(k: nat, s: seq<byte>, at: nat, from: PmState, to: PmState)
    requires k <= |FIELDS| && Stands(s, at, PmBytesFrom(k, PmBits(to, from), to))
    ensures PmFrom(k, s, at, Mixed(to, from, k), PmBits(to, from), false)
      == (to, at + |PmBytesFrom(k, PmBits(to, from), to)|)
    decreases |FIELDS| - k
  {
    hide PmField, SentBytes, Mixed, PmBits, Freeze;
    var bits := PmBits(to, from);
    if k < |FIELDS| {
      StandsSplit(s, at, SentBytes(FIELDS[k], bits, to), PmBytesFrom(k + 1, bits, to));
      FieldStep(k, s, at, from, to, bits);
      PmRoundTrip(k + 1, s, at + |SentBytes(FIELDS[k], bits, to)|, from, to);
    } else {
      MixedEnds(to, from);
    }
  }

  /** The type ends up as it was sent, or frozen; the rest of the state does not depend on that. */
  lemma {:induction false} FrozenElsewhere(k: nat, s: seq<byte>, at: nat, a: PmState, b: PmState, bits: bv16)
    requires 0 < k <= |FIELDS| && a.(pmType := PM_FREEZE) == b
    ensures var (a', at1) := PmFrom(k, s, at, a, bits, false);
      PmFrom(k, s, at, b, bits, true) == (a'.(pmType := PM_FREEZE), at1)
    decreases |FIELDS| - k
  {
    hide TripleAt, ShortAt;
    if k < |FIELDS| {
      var f := FIELDS[k];
      var (a', at') := PmField(f, s, at, a, bits);
      var b' := PmField(f, s, at, b, bits).0;
      assert a'.(pmType := PM_FREEZE) == b';
      FrozenElsewhere(k + 1, s, at', a', b', bits);
    }
  }

  function Pow2(n: nat): nat { if n == 0 then 1 else 2 * Pow2(n - 1) }

  lemma Pow2Sum(a: nat, b: nat)
    ensures Pow2(a + b) == Pow2(a) * Pow2(b)
    decreases b
  {
    if b > 0 { Pow2Sum(a, b - 1); }
  }

  lemma {:induction false} StatBitsFit(a: Stats, b: Stats, i: nat)
    requires i <= MAX_STATS
    ensures StatBits(a, b, i) < Pow2(MAX_STATS - i)
    decreases MAX_STATS - i
  {
    if i < MAX_STATS { StatBitsFit(a, b, i + 1); }
  }

  lemma StatBitsAreALong(a: Stats, b: Stats)
    ensures StatBits(a, b, 0) < 0x1_0000_0000
  {
    hide StatBits;
    StatBitsFit(a, b, 0);
    assert Pow2(8) == 0x100;
    assert Pow2(16) == 0x1_0000 by { Pow2Sum(8, 8); }
    Pow2Sum(16, 16);
  }

  /** Old and new stats agree from the i-th on except where the mask says so, and the shorts that follow
      fill exactly those places. */
  lemma {:induction false} StatsRoundTrip(s: seq<byte>, at: nat, from: Stats, to: Stats, i: nat, acc: Stats, bits: nat)
    requires i <= MAX_STATS && bits == StatBits(to, from, i)
    requires Stands(s, at, StatBytes(to, bits, i)) && acc == to[..i] + from[i..]
    ensures StatsFrom(s, at, bits, i, acc) == (to, at + |StatBytes(to, bits, i)|)
    decreases MAX_STATS - i
  {
    hide ShortAt, ShortBytes, StatBits;
    if i == MAX_STATS {
      assert acc == to;
    } else {
      StatBitFirst(to, from, i);
      TakeStat(from, to, i, acc);
      var first := if bits % 2 == 1 then ShortBytes(to[i]) else [];
      StandsSplit(s, at, first, StatBytes(to, bits / 2, i + 1));
      if bits % 2 == 1 { SignedArrives(s, at, to[i]); }
      ShortLength(to[i]);
      StatsRoundTrip(s, at + |first|, from, to, i + 1, acc[i := to[i]], bits / 2);
    }
  }

  lemma StatBitFirst(a: Stats, b: Stats, i: nat)
    requires i < MAX_STATS
    ensures StatBits(a, b, i) / 2 == StatBits(a, b, i + 1) && (StatBits(a, b, i) % 2 == 1 <==> a[i] != b[i])
  {
  }

  lemma TakeStat(from: Stats, to: Stats, i: nat, acc: Stats)
    requires i < MAX_STATS && acc == to[..i] + from[i..]
    ensures acc[i := to[i]] == to[..i + 1] + from[i + 1..]
    ensures to[i] == from[i] ==> acc[i := to[i]] == acc
  {
  }

  lemma ShortLength(c: int)
    ensures |ShortBytes(c)| == 2
  {
  }

  lemma BitsArrive(s: seq<byte>, at: nat, bits: bv16)
    requires Stands(s, at, ShortBytes(bits as int))
    ensures U16(ShortAt(s, at)) as bv16 == bits && |ShortBytes(bits as int)| == 2
  {
    UnsignedArrives(s, at, bits as int);
  }

  /** The player state survives the trip exactly; on a demo server's client only the type is overruled. */
  lemma PlayerRoundTrip(s: seq<byte>, at: nat, from: PlayerState, to: PlayerState, demo: bool)
    requires Stands(s, at, EncodePlayer(from, to))
    ensures DecodePlayer(s, at, from, demo)
      == (if demo then to.(pm := to.pm.(pmType := PM_FREEZE)) else to, at + |EncodePlayer(from, to)|)
  {
    hide ShortAt, LongAt, ShortBytes, LongBytes, PmBits, PmBytesFrom, PmFrom, StatBits, StatBytes, StatsFrom;
    var bits, statBits := PmBits(to.pm, from.pm), StatBits(to.stats, from.stats, 0);
    var pm, stats := PmBytesFrom(0, bits, to.pm), StatBytes(to.stats, statBits, 0);
    StandsSplit(s, at, ShortBytes(bits as int), pm + (LongBytes(statBits) + stats));
    BitsArrive(s, at, bits);
    StandsSplit(s, at + 2, pm, LongBytes(statBits) + stats);
    MixedEnds(to.pm, from.pm);
    PmRoundTrip(0, s, at + 2, from.pm, to.pm);
    FrozenOrNot(s, at + 2, from.pm, bits);
    var at1 := at + 2 + |pm|;
    StandsSplit(s, at1, LongBytes(statBits), stats);
    StatBitsAreALong(to.stats, from.stats);
    UnsignedLongArrives(s, at1, statBits);
    assert from.stats == to.stats[..0] + from.stats[0..];
    StatsRoundTrip(s, at1 + 4, from.stats, to.stats, 0, from.stats, statBits);
  }

  lemma FrozenOrNot(s: seq<byte>, at: nat, a: PmState, bits: bv16)
    ensures var (a', at') := PmFrom(0, s, at, a, bits, false);
      PmFrom(0, s, at, a, bits, true) == (a'.(pmType := PM_FREEZE), at')
  {
    hide PmField;
    var (b, at1) := PmField(Type, s, at, a, bits);
    FrozenElsewhere(1, s, at1, b, b.(pmType := PM_FREEZE), bits);
  }

  // ----- the writer and the reader

  method WriteTriple(buf: MemBuf, t: Triple)
    requires buf.Valid() && buf.allowOverflow && 4 <= buf.data.Length
    modifies buf, buf.data
    ensures buf.Valid() && buf.allowOverflow && buf.read == old(buf.read)
    ensures Wrote(old(buf.View()), buf.View(), TripleBytes(t))
  {
    ghost var b0 := buf.View();
    WriteShortTo(buf, t.x);
    ghost var b1 := buf.View();
    WriteShortTo(buf, t.y);
    ghost var b2 := buf.View();
    WriteShortTo(buf, t.z);
    WroteTwice(b1, b2, buf.View(), ShortBytes(t.y), ShortBytes(t.z));
    WroteTwice(b0, b1, buf.View(), ShortBytes(t.x), ShortBytes(t.y) + ShortBytes(t.z));
  }

  method WriteField(buf: MemBuf, f: Field, bits: bv16, a: PmState)
    requires buf.Valid() && buf.allowOverflow && 4 <= buf.data.Length
    modifies buf, buf.data
    ensures buf.Valid() && buf.allowOverflow && buf.read == old(buf.read)
    ensures Wrote(old(buf.View()), buf.View(), SentBytes(f, bits, a))
  {
    hide TripleBytes, ShortBytes, ByteBytes;
    if Has(bits, f) {
      match f
      case Type => WriteByteTo(buf, a.pmType);
      case Origin => WriteTriple(buf, a.origin);
      case Velocity => WriteTriple(buf, a.velocity);
      case Flags => WriteShortTo(buf, a.flags);
      case Time => WriteShortTo(buf, a.time);
      case Gravity => WriteShortTo(buf, a.gravity);
      case ViewOffset => WriteTriple(buf, a.viewOffset);
      case ViewAngles => WriteTriple(buf, a.viewAngles);
      case KickAngles => WriteTriple(buf, a.kickAngles);
      case DeltaAngles => WriteTriple(buf, a.deltaAngles);
    }
  }

  /** The fields from the k-th on, in wire order. */
  method WriteFields(buf: MemBuf, k: nat, bits: bv16, a: PmState)
    requires buf.Valid() && buf.allowOverflow && 4 <= buf.data.Length && k <= |FIELDS|
    modifies buf, buf.data
    ensures buf.Valid() && buf.allowOverflow && buf.read == old(buf.read)
    ensures Wrote(old(buf.View()), buf.View(), PmBytesFrom(k, bits, a))
    decreases |FIELDS| - k
  {
    hide SentBytes;
    if k < |FIELDS| {
      ghost var b0 := buf.View();
      WriteField(buf, FIELDS[k], bits, a);
      ghost var b1 := buf.View();
      WriteFields(buf, k + 1, bits, a);
      WroteTwice(b0, b1, buf.View(), SentBytes(FIELDS[k], bits, a), PmBytesFrom(k + 1, bits, a));
    }
  }

  method WriteStat(buf: MemBuf, stats: Stats, bits: nat, i: nat)
    requires buf.Valid() && buf.allowOverflow && 4 <= buf.data.Length && i < MAX_STATS
    modifies buf, buf.data
    ensures buf.Valid() && buf.allowOverflow && buf.read == old(buf.read)
    ensures Wrote(old(buf.View()), buf.View(), StatPiece(stats, bits, i))
  {
    hide ShortBytes;
    WroteNothing(buf.View());
    if bits % 2 == 1 {
      WriteShortTo(buf, stats[i]);
    }
  }

  lemma StatBytesStep(a: Stats, bits: nat, i: nat)
    requires i < MAX_STATS
    ensures StatBytes(a, bits, i) == StatPiece(a, bits, i) + StatBytes(a, bits / 2, i + 1)
  {
  }

  lemma StatBytesEnd(a: Stats, bits: nat)
    ensures StatBytes(a, bits, MAX_STATS) == []
  {
  }

  /** The first i stats are done, and the mask has been shifted as far. */
  method WriteStats(buf: MemBuf, stats: Stats, statBits: nat)
    requires buf.Valid() && buf.allowOverflow && 4 <= buf.data.Length
    modifies buf, buf.data
    ensures buf.Valid() && buf.allowOverflow && buf.read == old(buf.read)
    ensures Wrote(old(buf.View()), buf.View(), StatBytes(stats, statBits, 0))
  {
    hide ShortBytes, Wrote, StatPiece, StatBytes;
    ghost var b0, done := buf.View(), [];
    WroteNothing(b0);
    var i, bits := 0, statBits;
    while i < MAX_STATS
      invariant i <= MAX_STATS && buf.Valid() && buf.allowOverflow && buf.read == old(buf.read)
      invariant Wrote(b0, buf.View(), done)
      invariant done + StatBytes(stats, bits, i) == StatBytes(stats, statBits, 0)
    {
      ghost var b := buf.View();
      ghost var piece := StatPiece(stats, bits, i);
      StatBytesStep(stats, bits, i);
      WriteStat(buf, stats, bits, i);
      WroteOn(b0, b, buf.View(), done, piece, StatBytes(stats, bits / 2, i + 1));
      done := done + piece;
      i, bits := i + 1, bits / 2;
    }
    StatBytesEnd(stats, bits);
    assert done + [] == done;
  }

  /** Sv_WritePlayerstate. */
  method WritePlayerstate(buf: MemBuf, from: PlayerState, to: PlayerState)
    requires buf.Valid() && buf.allowOverflow && 4 <= buf.data.Length
    modifies buf, buf.data
    ensures buf.Valid() && buf.allowOverflow && buf.read == old(buf.read)
    ensures Wrote(old(buf.View()), buf.View(), EncodePlayer(from, to))
  {
    hide PmBits, PmBytesFrom, StatBits, StatBytes, ShortBytes, LongBytes;
    var bits := PmBits(to.pm, from.pm);
    var statBits := StatBits(to.stats, from.stats, 0);
    ghost var b0 := buf.View();
    WriteShortTo(buf, bits as int);
    ghost var b1 := buf.View();
    WriteFields(buf, 0, bits, to.pm);
    ghost var b2 := buf.View();
    WriteLongTo(buf, statBits);
    ghost var b3 := buf.View();
    WriteStats(buf, to.stats, statBits);
    ghost var pm, stats := PmBytesFrom(0, bits, to.pm), StatBytes(to.stats, statBits, 0);
    WroteTwice(b2, b3, buf.View(), LongBytes(statBits), stats);
    WroteTwice(b1, b2, buf.View(), pm, LongBytes(statBits) + stats);
    WroteTwice(b0, b1, buf.View(), ShortBytes(bits as int), pm + (LongBytes(statBits) + stats));
  }

  method ReadTriple(sb: MemBuf) returns (t: Triple)
    requires sb.Valid()
    modifies sb`read
    ensures t == TripleAt(sb.View().bytes, old(sb.read)) && sb.read == old(sb.read) + 6
  {
    var x := ReadShort(sb);
    var y := ReadShort(sb);
    var z := ReadShort(sb);
    t := Triple(x, y, z);
  }

  method ReadField(sb: MemBuf, f: Field, a: PmState, bits: bv16) returns (r: PmState)
    requires sb.Valid()
    modifies sb`read
    ensures (r, sb.read) == PmField(f, sb.View().bytes, old(sb.read), a, bits)
  {
    hide TripleAt, ShortAt, ByteAt;
    r := a;
    if Has(bits, f) {
      match f
      case Type => var c := ReadByte(sb); r := a.(pmType := U8(c));
      case Origin => var t := ReadTriple(sb); r := a.(origin := t);
      case Velocity => var t := ReadTriple(sb); r := a.(velocity := t);
      case Flags => var c := ReadShort(sb); r := a.(flags := U16(c));
      case Time => var c := ReadShort(sb); r := a.(time := U16(c));
      case Gravity => r := ReadGravity(sb, a);
      case ViewOffset => var t := ReadTriple(sb); r := a.(viewOffset := t);
      case ViewAngles => var t := ReadTriple(sb); r := a.(viewAngles := t);
      case KickAngles => var t := ReadTriple(sb); r := a.(kickAngles := t);
      case DeltaAngles => var t := ReadTriple(sb); r := a.(deltaAngles := t);
    }
  }

  method ReadGravity(sb: MemBuf, a: PmState) returns (r: PmState)
    requires sb.Valid()
    modifies sb`read
    ensures r == FieldAt(Gravity, sb.View().bytes, old(sb.read), a) && sb.read == old(sb.read) + 2
  {
    var c := ReadShort(sb);
    r := a.(gravity := c);
  }

  method ReadFields(sb: MemBuf, k: nat, a: PmState, bits: bv16, demo: bool) returns (r: PmState)
    requires sb.Valid() && k <= |FIELDS|
    modifies sb`read
    ensures (r, sb.read) == PmFrom(k, sb.View().bytes, old(sb.read), a, bits, demo)
    decreases |FIELDS| - k
  {
    hide PmField;
    r := a;
    if k < |FIELDS| {
      r := ReadField(sb, FIELDS[k], a, bits);
      r := Freeze(FIELDS[k], demo, r);
      r := ReadFields(sb, k + 1, r, bits, demo);
    }
  }

  method ReadStats(sb: MemBuf, from: Stats, statBits: nat) returns (stats: Stats)
    requires sb.Valid()
    modifies sb`read
    ensures (stats, sb.read) == StatsFrom(sb.View().bytes, old(sb.read), statBits, 0, from)
  {
    hide ShortAt;
    stats := from;
    var i, bits := 0, statBits;
    while i < MAX_STATS
      invariant i <= MAX_STATS
      invariant StatsFrom(sb.View().bytes, sb.read, bits, i, stats)
        == StatsFrom(sb.View().bytes, old(sb.read), statBits, 0, from)
    {
      if bits % 2 == 1 {
        var c := ReadStat(sb);
        stats := stats[i := c];
      }
      i, bits := i + 1, bits / 2;
    }
  }

  method ReadStat(sb: MemBuf) returns (c: i16)
    requires sb.Valid()
    modifies sb`read
    ensures c == ShortAt(sb.View().bytes, old(sb.read)) && sb.read == old(sb.read) + 2
  {
    c := ReadShort(sb);
  }

  /** Cl_ParsePlayerstate. */
  method ParsePlayerstate(sb: MemBuf, from: PlayerState, demo: bool) returns (ps: PlayerState)
    requires sb.Valid()
    modifies sb`read
    ensures (ps, sb.read) == DecodePlayer(sb.View().bytes, old(sb.read), from, demo)
  {
    hide ShortAt, LongAt, PmFrom, StatsFrom;
    var b := ReadShort(sb);
    var pm := ReadFields(sb, 0, from.pm, U16(b) as bv16, demo);
    var c := ReadLong(sb);
    var stats := ReadStats(sb, from.stats, U32(c));
    ps := PlayerState(pm, stats);
  }
}
