/** The callouts subsection of an SRC: its structures, their bytes, and the parser
    that reads them back. */
module CalloutFormat {
  import opened Wrappers
  import opened Bytes

  // ------------------------------------------------------------------ structures

  const FRU_TYPE: Word := 0x4944  // "ID"
  const PCE_TYPE: Word := 0x5045  // "PE"
  const MRU_TYPE: Word := 0x4D52  // "MR"

  const PN_SUPPLIED := 0x08
  const CCIN_SUPPLIED := 0x04
  const MAINT_PROC_SUPPLIED := 0x02
  const SN_SUPPLIED := 0x01

  /** A field the flags leave out is empty. */
  datatype FRUIdentity = FRUIdentity(
    kind: Word, size: Byte, flags: Byte, pnOrProcedureID: seq<Byte>, ccin: seq<Byte>, sn: seq<Byte>)

  datatype PCEIdentity = PCEIdentity(
    kind: Word, size: Byte, flags: Byte, mtm: seq<Byte>, sn: seq<Byte>, pceName: seq<Byte>)

  datatype MRUCallout = MRUCallout(priority: Long, id: Long)

  datatype MRU = MRU(kind: Word, size: Byte, flags: Byte, reserved4B: Long, mrus: seq<MRUCallout>)

  /** _locationCodeSize is the length of the location code. */
  datatype Callout = Callout(
    size: Byte, flags: Byte, priority: Byte, locationCode: seq<Byte>,
    fru: Option<FRUIdentity>, pce: Option<PCEIdentity>, mru: Option<MRU>)

  datatype Callouts = Callouts(subsectionID: Byte, subsectionFlags: Byte, wordLength: Word, callouts: seq<Callout>)

  predicate HasPN(flags: Byte) { Bit(flags, PN_SUPPLIED) }
  predicate HasMP(flags: Byte) { Bit(flags, MAINT_PROC_SUPPLIED) }
  predicate HasCCIN(flags: Byte) { Bit(flags, CCIN_SUPPLIED) }
  predicate HasSN(flags: Byte) { Bit(flags, SN_SUPPLIED) }

  function PnLength(flags: Byte): nat { if HasPN(flags) || HasMP(flags) then 8 else 0 }
  function CcinLength(flags: Byte): nat { if HasCCIN(flags) then 4 else 0 }
  function SnLength(flags: Byte): nat { if HasSN(flags) then 12 else 0 }

  // ----------------------------------------------------------------------- sizes

  function FRUSize(f: FRUIdentity): nat {
    4 + PnLength(f.flags) + CcinLength(f.flags) + SnLength(f.flags)
  }

  /** flattenedSize(): computed for the FRU, taken from the size fields otherwise. */
  function CalloutSize(c: Callout): nat {
    4 + |c.locationCode| + SizeOfFRU(c.fru) + SizeOfPCE(c.pce) + SizeOfMRU(c.mru)
  }

  function SizeOfFRU(f: Option<FRUIdentity>): nat { if f.Some? then FRUSize(f.value) else 0 }
  function SizeOfPCE(p: Option<PCEIdentity>): nat { if p.Some? then p.value.size else 0 }
  function SizeOfMRU(m: Option<MRU>): nat { if m.Some? then m.value.size else 0 }

  function SumOfSizes(cs: seq<Callout>): nat {
    if cs == [] then 0 else CalloutSize(cs[0]) + SumOfSizes(cs[1..])
  }

  // -------------------------------------------------------------------- printing

  function FlattenFRU(f: FRUIdentity): seq<Byte> {
    BigEndian16(f.kind) + [f.size, f.flags] + (f.pnOrProcedureID + (f.ccin + f.sn))
  }

  function FlattenPCE(p: PCEIdentity): seq<Byte> {
    BigEndian16(p.kind) + [p.size, p.flags] + (p.mtm + (p.sn + p.pceName))
  }

  function FlattenMRUs(ms: seq<MRUCallout>): seq<Byte> {
    if ms == [] then [] else BigEndian32(ms[0].priority) + (BigEndian32(ms[0].id) + FlattenMRUs(ms[1..]))
  }

  function FlattenMRU(m: MRU): seq<Byte> {
    BigEndian16(m.kind) + [m.size, m.flags] + (BigEndian32(m.reserved4B) + FlattenMRUs(m.mrus))
  }

  function BytesOfFRU(f: Option<FRUIdentity>): seq<Byte> { if f.Some? then FlattenFRU(f.value) else [] }
  function BytesOfPCE(p: Option<PCEIdentity>): seq<Byte> { if p.Some? then FlattenPCE(p.value) else [] }
  function BytesOfMRU(m: Option<MRU>): seq<Byte> { if m.Some? then FlattenMRU(m.value) else [] }

  function FlattenSubstructures(c: Callout): seq<Byte> {
    BytesOfFRU(c.fru) + (BytesOfPCE(c.pce) + BytesOfMRU(c.mru))
  }

  function FlattenCallout(c: Callout): seq<Byte> {
    [c.size, c.flags, c.priority, |c.locationCode| % 256] + (c.locationCode + FlattenSubstructures(c))
  }

  function FlattenAll(cs: seq<Callout>): seq<Byte> {
    if cs == [] then [] else FlattenCallout(cs[0]) + FlattenAll(cs[1..])
  }

  function FlattenCallouts(cs: Callouts): seq<Byte> {
    [cs.subsectionID, cs.subsectionFlags] + (BigEndian16(cs.wordLength) + FlattenAll(cs.callouts))
  }

  // --------------------------------------------------------------------- parsing

  /** The type, size and flags every substructure begins with. */
  datatype Head = Head(kind: Word, size: Byte, flags: Byte)

  function ParseHead(bs: seq<Byte>): Result<Read<Head>> {
    if |bs| < 4 then Thrown else Ok(Read(Head(FromBigEndian16(bs[..2]), bs[2], bs[3]), bs[4..]))
  }

  /** Three fields of known lengths, one after the other. */
  function TakeThree(bs: seq<Byte>, a: nat, b: nat, c: nat): Result<Read<(seq<Byte>, seq<Byte>, seq<Byte>)>> {
    if a + b + c <= |bs| then Ok(Read((bs[..a], bs[a..a + b], bs[a + b..a + b + c]), bs[a + b + c..])) else Thrown
  }

  function ParseFRU(bs: seq<Byte>): Result<Read<FRUIdentity>> {
    match ParseHead(bs)
    case Thrown => Thrown
    case Ok(Read(h, rest)) =>
      match TakeThree(rest, PnLength(h.flags), CcinLength(h.flags), SnLength(h.flags))
      case Thrown => Thrown
      case Ok(Read(fields, rest)) => Ok(Read(FRUIdentity(h.kind, h.size, h.flags, fields.0, fields.1, fields.2), rest))
  }

  function ParsePCE(bs: seq<Byte>): Result<Read<PCEIdentity>> {
    match ParseHead(bs)
    case Thrown => Thrown
    case Ok(Read(h, rest)) =>
      if h.size < 24 then Thrown
      else
        match TakeThree(rest, 8, 12, h.size - 24)
        case Thrown => Thrown
        case Ok(Read(fields, rest)) => Ok(Read(PCEIdentity(h.kind, h.size, h.flags, fields.0, fields.1, fields.2), rest))
  }

  function ParseMRUs(bs: seq<Byte>, n: nat): Result<Read<seq<MRUCallout>>>
    decreases n
  {
    if n == 0 then Ok(Read([], bs))
    else if |bs| < 8 then Thrown
    else After([MRUCallout(FromBigEndian32(bs[..4]), FromBigEndian32(bs[4..8]))], ParseMRUs(bs[8..], n - 1))
  }

  /** The number of MRUs is in the flags; a size that disagrees is only reported. */
  function ParseMRU(bs: seq<Byte>): Result<Read<MRU>> {
    match ParseHead(bs)
    case Thrown => Thrown
    case Ok(Read(h, rest)) =>
      if |rest| < 4 then Thrown
      else
        match ParseMRUs(rest[4..], h.flags % 16)
        case Thrown => Thrown
        case Ok(Read(ms, rest')) => Ok(Read(MRU(h.kind, h.size, h.flags, FromBigEndian32(rest[..4]), ms), rest'))
  }

  /** One substructure added to a callout, chosen by the type at the front. */
  function ParseSubstructure(bs: seq<Byte>, c: Callout): Result<Read<(Callout, nat)>> {
    if |bs| < 2 then Thrown
    else
      var kind := FromBigEndian16(bs[..2]);
      if kind == FRU_TYPE then
        match ParseFRU(bs)
        case Thrown => Thrown
        case Ok(Read(f, rest)) => Ok(Read((c.(fru := Some(f)), FRUSize(f)), rest))
      else if kind == PCE_TYPE then
        match ParsePCE(bs)
        case Thrown => Thrown
        case Ok(Read(p, rest)) => Ok(Read((c.(pce := Some(p)), p.size), rest))
      else if kind == MRU_TYPE then
        match ParseMRU(bs)
        case Thrown => Thrown
        case Ok(Read(m, rest)) => Ok(Read((c.(mru := Some(m)), m.size), rest))
      else Thrown
  }

  /** rest is what remains of bs once at least n bytes were read off its front. */
  predicate Consumed(bs: seq<Byte>, n: nat, rest: seq<Byte>) {
    |rest| + n <= |bs| && rest == bs[|bs| - |rest|..]
  }

  lemma ConsumedTwice(a: seq<Byte>, m: nat, b: seq<Byte>, n: nat, c: seq<Byte>)
    requires Consumed(a, m, b) && Consumed(b, n, c)
    ensures Consumed(a, m + n, c)
  {
    assert a[|a| - |b|..][|b| - |c|..] == a[|a| - |c|..];
  }

  lemma ConsumedDrop(bs: seq<Byte>, n: nat)
    requires n <= |bs|
    ensures Consumed(bs, n, bs[n..])
  {}

  lemma FRUConsumes(bs: seq<Byte>)
    requires ParseFRU(bs).Ok?
    ensures Consumed(bs, 4, ParseFRU(bs).value.rest)
  {
    ConsumedTwice(bs, 4, bs[4..], 0, ParseFRU(bs).value.rest);
  }

  lemma PCEConsumes(bs: seq<Byte>)
    requires ParsePCE(bs).Ok?
    ensures Consumed(bs, 4, ParsePCE(bs).value.rest)
  {
    ConsumedTwice(bs, 4, bs[4..], 0, ParsePCE(bs).value.rest);
  }

  lemma {:induction false} MRUsConsume(bs: seq<Byte>, n: nat)
    requires ParseMRUs(bs, n).Ok?
    ensures Consumed(bs, 0, ParseMRUs(bs, n).value.rest)
  {
    if n > 0 {
      MRUsConsume(bs[8..], n - 1);
      ConsumedTwice(bs, 8, bs[8..], 0, ParseMRUs(bs, n).value.rest);
    }
  }

  lemma MRUConsumes(bs: seq<Byte>)
    requires ParseMRU(bs).Ok?
    ensures Consumed(bs, 4, ParseMRU(bs).value.rest)
  {
    var rest := ParseHead(bs).value.rest;
    var mrus, rest' := rest[4..], ParseMRU(bs).value.rest;
    MRUsConsume(mrus, ParseHead(bs).value.value.flags % 16);
    ConsumedDrop(rest, 4);
    ConsumedTwice(rest, 4, mrus, 0, rest');
    ConsumedTwice(bs, 4, rest, 4, rest');
  }

  /** Every substructure takes bytes off the stream, whatever its size field says. */
  lemma SubstructureConsumes(bs: seq<Byte>, c: Callout)
    requires ParseSubstructure(bs, c).Ok?
    ensures Consumed(bs, 4, ParseSubstructure(bs, c).value.rest)
  {
    var kind := FromBigEndian16(bs[..2]);
    if kind == FRU_TYPE {
      FRUConsumes(bs);
    } else if kind == PCE_TYPE {
      PCEConsumes(bs);
    } else {
      MRUConsumes(bs);
    }
  }

  /** Substructures until the callout's size is reached. */
  function ParseSubstructures(bs: seq<Byte>, c: Callout, current: nat): Result<Read<Callout>>
    decreases |bs|
  {
    if c.size <= current then Ok(Read(c, bs))
    else
      match ParseSubstructure(bs, c)
      case Thrown => Thrown
      case Ok(Read((c', taken), rest)) =>
        SubstructureConsumes(bs, c);
        ParseSubstructures(rest, c', current + taken)
  }

  function ParseCallout(bs: seq<Byte>): Result<Read<Callout>> {
    if |bs| < 4 then Thrown
    else
      var n: nat := bs[3];
      if |bs| < n + 4 then Thrown
      else ParseSubstructures(bs[n + 4..], Callout(bs[0], bs[1], bs[2], bs[4..n + 4], None, None, None), n + 4)
  }

  lemma {:induction false} SubstructuresConsume(bs: seq<Byte>, c: Callout, current: nat)
    requires ParseSubstructures(bs, c, current).Ok?
    ensures Consumed(bs, 0, ParseSubstructures(bs, c, current).value.rest)
    decreases |bs|
  {
    hide ParseSubstructure;
    if c.size > current {
      SubstructureConsumes(bs, c);
      var r := ParseSubstructure(bs, c).value;
      SubstructuresConsume(r.rest, r.value.0, current + r.value.1);
      ConsumedTwice(bs, 4, r.rest, 0, ParseSubstructures(bs, c, current).value.rest);
    }
  }

  lemma CalloutConsumes(bs: seq<Byte>)
    requires ParseCallout(bs).Ok?
    ensures Consumed(bs, 4, ParseCallout(bs).value.rest)
  {
    var n: nat := bs[3];
    SubstructuresConsume(bs[n + 4..], Callout(bs[0], bs[1], bs[2], bs[4..n + 4], None, None, None), n + 4);
    ConsumedTwice(bs, 4, bs[n + 4..], 0, ParseCallout(bs).value.rest);
  }

  /** Callouts until the length of the subsection is reached. */
  function ParseList(bs: seq<Byte>, length: nat, current: nat): Result<Read<seq<Callout>>>
    decreases |bs|
  {
    if length <= current then Ok(Read([], bs))
    else
      match ParseCallout(bs)
      case Thrown => Thrown
      case Ok(Read(c, rest)) =>
        CalloutConsumes(bs);
        After([c], ParseList(rest, length, current + CalloutSize(c)))
  }

  function ParseCallouts(bs: seq<Byte>): Result<Read<Callouts>> {
    if |bs| < 4 then Thrown
    else
      var wordLength := FromBigEndian16(bs[2..4]);
      match ParseList(bs[4..], wordLength * 4, 4)
      case Thrown => Thrown
      case Ok(Read(cs, rest)) => Ok(Read(Callouts(bs[0], bs[1], wordLength, cs), rest))
  }

  // ----------------------------------------------------------------- well-formed

  predicate WellFormedFRU(f: FRUIdentity) {
    && f.kind == FRU_TYPE && f.size == FRUSize(f)
    && |f.pnOrProcedureID| == PnLength(f.flags) && |f.ccin| == CcinLength(f.flags) && |f.sn| == SnLength(f.flags)
  }

  predicate WellFormedPCE(p: PCEIdentity) {
    p.kind == PCE_TYPE && |p.mtm| == 8 && |p.sn| == 12 && p.size == 24 + |p.pceName|
  }

  predicate WellFormedMRU(m: MRU) {
    m.kind == MRU_TYPE && m.flags % 16 == |m.mrus| && m.size == 8 + 8 * |m.mrus|
  }

  /** The size field is the flattened size, which a byte can hold. */
  predicate WellFormed(c: Callout) {
    && |c.locationCode| < 256
    && c.size == CalloutSize(c)
    && (c.fru.Some? ==> WellFormedFRU(c.fru.value))
    && (c.pce.Some? ==> WellFormedPCE(c.pce.value))
    && (c.mru.Some? ==> WellFormedMRU(c.mru.value))
  }

  ghost predicate WellFormedCallouts(cs: Callouts) {
    && (forall c | c in cs.callouts :: WellFormed(c))
    && cs.wordLength * 4 == 4 + SumOfSizes(cs.callouts)
  }

  // ------------------------------------------------------------------ round trips

  lemma HeadRoundTrip(kind: Word, size: Byte, flags: Byte, fields: seq<Byte>, tail: seq<Byte>)
    ensures ParseHead(BigEndian16(kind) + [size, flags] + fields + tail)
         == Ok(Read(Head(kind, size, flags), fields + tail))
  {
    var bs := BigEndian16(kind) + [size, flags] + fields + tail;
    assert bs[..2] == BigEndian16(kind) && bs[4..] == fields + tail;
    BigEndian16Inverse(kind);
  }

  lemma TakeThreeFront(a: seq<Byte>, b: seq<Byte>, c: seq<Byte>, tail: seq<Byte>)
    ensures TakeThree(a + (b + c) + tail, |a|, |b|, |c|) == Ok(Read((a, b, c), tail))
  {
    var bs := a + (b + c) + tail;
    assert bs[..|a|] == a && bs[|a|..|a| + |b|] == b && bs[|a| + |b|..|a| + |b| + |c|] == c;
    assert bs[|a| + |b| + |c|..] == tail;
  }

  lemma FRURoundTrip(f: FRUIdentity, tail: seq<Byte>)
    requires WellFormedFRU(f)
    ensures ParseFRU(FlattenFRU(f) + tail) == Ok(Read(f, tail))
    ensures |FlattenFRU(f)| == FRUSize(f)
  {
    var fields := f.pnOrProcedureID + (f.ccin + f.sn);
    HeadRoundTrip(f.kind, f.size, f.flags, fields, tail);
    TakeThreeFront(f.pnOrProcedureID, f.ccin, f.sn, tail);
  }

  lemma PCERoundTrip(p: PCEIdentity, tail: seq<Byte>)
    requires WellFormedPCE(p)
    ensures ParsePCE(FlattenPCE(p) + tail) == Ok(Read(p, tail))
    ensures |FlattenPCE(p)| == p.size
  {
    var fields := p.mtm + (p.sn + p.pceName);
    HeadRoundTrip(p.kind, p.size, p.flags, fields, tail);
    TakeThreeFront(p.mtm, p.sn, p.pceName, tail);
  }

  lemma MRURead(m: MRUCallout, more: seq<Byte>)
    ensures var bs := BigEndian32(m.priority) + (BigEndian32(m.id) + more);
      && |bs| == 8 + |more| && bs[8..] == more
      && MRUCallout(FromBigEndian32(bs[..4]), FromBigEndian32(bs[4..8])) == m
  {
    var bs := BigEndian32(m.priority) + (BigEndian32(m.id) + more);
    BigEndian32Inverse(m.priority);
    BigEndian32Inverse(m.id);
    assert bs[..4] == BigEndian32(m.priority) && bs[4..8] == BigEndian32(m.id);
  }

  lemma {:induction false} MRUsRoundTrip(ms: seq<MRUCallout>, tail: seq<Byte>)
    ensures ParseMRUs(FlattenMRUs(ms) + tail, |ms|) == Ok(Read(ms, tail))
    ensures |FlattenMRUs(ms)| == 8 * |ms|
  {
    if ms == [] {
      assert FlattenMRUs(ms) + tail == tail;
    } else {
      MRUsRoundTrip(ms[1..], tail);
      MRURead(ms[0], FlattenMRUs(ms[1..]) + tail);
      MRURead(ms[0], FlattenMRUs(ms[1..]));
      assert FlattenMRUs(ms) + tail
          == BigEndian32(ms[0].priority) + (BigEndian32(ms[0].id) + (FlattenMRUs(ms[1..]) + tail));
      assert ms == [ms[0]] + ms[1..];
    }
  }

  lemma MRURoundTrip(m: MRU, tail: seq<Byte>)
    requires WellFormedMRU(m)
    ensures ParseMRU(FlattenMRU(m) + tail) == Ok(Read(m, tail))
    ensures |FlattenMRU(m)| == m.size
  {
    hide ParseMRUs, FlattenMRUs, BigEndian32, BigEndian16;
    BigEndian32Inverse(m.reserved4B);
    var fields := BigEndian32(m.reserved4B) + FlattenMRUs(m.mrus);
    var rest := fields + tail;
    HeadRoundTrip(m.kind, m.size, m.flags, fields, tail);
    assert rest[..4] == BigEndian32(m.reserved4B) && rest[4..] == FlattenMRUs(m.mrus) + tail;
    MRUsRoundTrip(m.mrus, tail);
  }

  lemma KindAtFront(kind: Word, size: Byte, flags: Byte, fields: seq<Byte>, tail: seq<Byte>)
    ensures var bs := BigEndian16(kind) + [size, flags] + fields + tail;
      |bs| >= 2 && FromBigEndian16(bs[..2]) == kind
  {
    var bs := BigEndian16(kind) + [size, flags] + fields + tail;
    assert bs[..2] == BigEndian16(kind);
    BigEndian16Inverse(kind);
  }

  lemma ParsesFRU(c: Callout, f: FRUIdentity, tail: seq<Byte>)
    requires WellFormedFRU(f)
    ensures ParseSubstructure(FlattenFRU(f) + tail, c) == Ok(Read((c.(fru := Some(f)), FRUSize(f)), tail))
  {
    FRURoundTrip(f, tail);
    KindAtFront(f.kind, f.size, f.flags, f.pnOrProcedureID + (f.ccin + f.sn), tail);
  }

  lemma ParsesPCE(c: Callout, p: PCEIdentity, tail: seq<Byte>)
    requires WellFormedPCE(p)
    ensures ParseSubstructure(FlattenPCE(p) + tail, c) == Ok(Read((c.(pce := Some(p)), p.size as nat), tail))
  {
    PCERoundTrip(p, tail);
    KindAtFront(p.kind, p.size, p.flags, p.mtm + (p.sn + p.pceName), tail);
  }

  lemma ParsesMRU(c: Callout, m: MRU, tail: seq<Byte>)
    requires WellFormedMRU(m)
    ensures ParseSubstructure(FlattenMRU(m) + tail, c) == Ok(Read((c.(mru := Some(m)), m.size as nat), tail))
  {
    MRURoundTrip(m, tail);
    KindAtFront(m.kind, m.size, m.flags, BigEndian32(m.reserved4B) + FlattenMRUs(m.mrus), tail);
  }

  function NoSubstructures(c: Callout): Callout { c.(fru := None, pce := None, mru := None) }

  /** bs stands for the substructure that takes c to c', or for none if they are the
      same. */
  ghost predicate StandsFor(bs: seq<Byte>, tail: seq<Byte>, c: Callout, c': Callout, taken: nat) {
    if taken == 0 then bs == [] && c == c' else ParseSubstructure(bs + tail, c) == Ok(Read((c', taken), tail))
  }

  /** One turn of the substructure loop. */
  lemma LoopTurn(bs: seq<Byte>, c: Callout, current: nat, c': Callout, taken: nat, rest: seq<Byte>)
    requires c.size > current && ParseSubstructure(bs, c) == Ok(Read((c', taken), rest))
    ensures ParseSubstructures(bs, c, current) == ParseSubstructures(rest, c', current + taken)
  {}

  /** One turn, or none when the substructure is not there. */
  lemma LoopStep(bs: seq<Byte>, tail: seq<Byte>, c: Callout, c': Callout, taken: nat, current: nat)
    requires StandsFor(bs, tail, c, c', taken) && (taken > 0 ==> c.size > current)
    ensures ParseSubstructures(bs + tail, c, current) == ParseSubstructures(tail, c', current + taken)
  {
    if taken == 0 {
      assert bs + tail == tail;
    } else {
      LoopTurn(bs + tail, c, current, c', taken, tail);
    }
  }

  lemma LoopEnds(bs: seq<Byte>, c: Callout)
    ensures ParseSubstructures(bs, c, c.size) == Ok(Read(c, bs))
  {}

  lemma LoopReadsTwo(c1: Callout, c2: Callout, c3: Callout, p: seq<Byte>, m: seq<Byte>,
                     tail: seq<Byte>, current: nat, j: nat, k: nat)
    requires c1.size == c2.size == c3.size == current + j + k
    requires StandsFor(p, m + tail, c1, c2, j) && StandsFor(m, tail, c2, c3, k)
    ensures ParseSubstructures(p + (m + tail), c1, current) == Ok(Read(c3, tail))
  {
    hide StandsFor, ParseSubstructures;
    LoopStep(p, m + tail, c1, c2, j, current);
    LoopStep(m, tail, c2, c3, k, current + j);
    LoopEnds(tail, c3);
  }

  /** Three substructures, each of them optional, read by three turns of the loop. */
  lemma LoopReadsThree(c0: Callout, c1: Callout, c2: Callout, c3: Callout, f: seq<Byte>, p: seq<Byte>, m: seq<Byte>,
                       tail: seq<Byte>, current: nat, i: nat, j: nat, k: nat)
    requires c0.size == c1.size == c2.size == c3.size == current + i + j + k
    requires StandsFor(f, p + (m + tail), c0, c1, i) && StandsFor(p, m + tail, c1, c2, j) && StandsFor(m, tail, c2, c3, k)
    ensures ParseSubstructures(f + (p + (m + tail)), c0, current) == Ok(Read(c3, tail))
  {
    hide StandsFor, ParseSubstructures;
    var rest := p + (m + tail);
    LoopStep(f, rest, c0, c1, i, current);
    LoopReadsTwo(c1, c2, c3, p, m, tail, current + i, j, k);
  }

  lemma FRUStands(c: Callout, f: Option<FRUIdentity>, tail: seq<Byte>)
    requires (f.Some? ==> WellFormedFRU(f.value)) && c.fru.None?
    ensures StandsFor(BytesOfFRU(f), tail, c, c.(fru := f), SizeOfFRU(f))
  {
    if f.Some? { ParsesFRU(c, f.value, tail); }
  }

  lemma PCEStands(c: Callout, p: Option<PCEIdentity>, tail: seq<Byte>)
    requires (p.Some? ==> WellFormedPCE(p.value)) && c.pce.None?
    ensures StandsFor(BytesOfPCE(p), tail, c, c.(pce := p), SizeOfPCE(p))
  {
    if p.Some? { ParsesPCE(c, p.value, tail); }
  }

  lemma MRUStands(c: Callout, m: Option<MRU>, tail: seq<Byte>)
    requires (m.Some? ==> WellFormedMRU(m.value)) && c.mru.None?
    ensures StandsFor(BytesOfMRU(m), tail, c, c.(mru := m), SizeOfMRU(m))
  {
    if m.Some? { ParsesMRU(c, m.value, tail); }
  }

  /** The optional substructures are read back in the order they were written. */
  lemma SubstructuresRoundTrip(c: Callout, tail: seq<Byte>)
    requires WellFormed(c)
    ensures ParseSubstructures(BytesOfFRU(c.fru) + (BytesOfPCE(c.pce) + (BytesOfMRU(c.mru) + tail)),
                               NoSubstructures(c), 4 + |c.locationCode|) == Ok(Read(c, tail))
  {
    var c0 := NoSubstructures(c);
    var c1, c2 := c0.(fru := c.fru), c0.(fru := c.fru, pce := c.pce);
    FRUStands(c0, c.fru, BytesOfPCE(c.pce) + (BytesOfMRU(c.mru) + tail));
    PCEStands(c1, c.pce, BytesOfMRU(c.mru) + tail);
    MRUStands(c2, c.mru, tail);
    assert c2.(mru := c.mru) == c;
    LoopReadsThree(c0, c1, c2, c, BytesOfFRU(c.fru), BytesOfPCE(c.pce), BytesOfMRU(c.mru), tail,
                   4 + |c.locationCode|, SizeOfFRU(c.fru), SizeOfPCE(c.pce), SizeOfMRU(c.mru));
  }

  lemma SubstructuresLength(c: Callout)
    requires WellFormed(c)
    ensures |FlattenCallout(c)| == CalloutSize(c)
  {
    if c.fru.Some? { FRURoundTrip(c.fru.value, []); }
    if c.pce.Some? { PCERoundTrip(c.pce.value, []); }
    if c.mru.Some? { MRURoundTrip(c.mru.value, []); }
  }

  lemma Regroup(a: seq<Byte>, b: seq<Byte>, c: seq<Byte>, tail: seq<Byte>)
    ensures (a + (b + c)) + tail == a + (b + (c + tail))
  {}

  /** Where the fields of a callout lie. */
  lemma FrontOf(a: Byte, b: Byte, c: Byte, location: seq<Byte>, rest: seq<Byte>, tail: seq<Byte>)
    requires |location| < 256
    ensures var bs, n := [a, b, c, |location| % 256] + (location + rest) + tail, |location|;
      && |bs| >= n + 4 && bs[0] == a && bs[1] == b && bs[2] == c && bs[3] == n
      && bs[4..n + 4] == location && bs[n + 4..] == rest + tail
  {
    var bs, n := [a, b, c, |location| % 256] + (location + rest) + tail, |location|;
    assert bs[4..n + 4] == location;
    assert bs[n + 4..] == rest + tail;
  }

  lemma CalloutFront(c: Callout, tail: seq<Byte>)
    requires |c.locationCode| < 256
    ensures var bs, n := FlattenCallout(c) + tail, |c.locationCode|;
      && |bs| >= n + 4 && bs[3] == n && bs[4..n + 4] == c.locationCode
      && bs[0] == c.size && bs[1] == c.flags && bs[2] == c.priority
      && bs[n + 4..] == BytesOfFRU(c.fru) + (BytesOfPCE(c.pce) + (BytesOfMRU(c.mru) + tail))
  {
    FrontOf(c.size, c.flags, c.priority, c.locationCode, FlattenSubstructures(c), tail);
    Regroup(BytesOfFRU(c.fru), BytesOfPCE(c.pce), BytesOfMRU(c.mru), tail);
  }

  lemma CalloutRoundTrip(c: Callout, tail: seq<Byte>)
    requires WellFormed(c)
    ensures ParseCallout(FlattenCallout(c) + tail) == Ok(Read(c, tail))
  {
    SubstructuresRoundTrip(c, tail);
    CalloutFront(c, tail);
  }

  /** One turn of the callouts loop. */
  lemma ListTurn(bs: seq<Byte>, length: nat, current: nat, c: Callout, rest: seq<Byte>)
    requires length > current && ParseCallout(bs) == Ok(Read(c, rest))
    ensures ParseList(bs, length, current) == After([c], ParseList(rest, length, current + CalloutSize(c)))
  {}

  lemma ReadsCallout(c: Callout, more: seq<Byte>, length: nat, current: nat)
    requires WellFormed(c) && length > current
    ensures ParseList(FlattenCallout(c) + more, length, current)
         == After([c], ParseList(more, length, current + CalloutSize(c)))
  {
    CalloutRoundTrip(c, more);
    ListTurn(FlattenCallout(c) + more, length, current, c, more);
  }

  lemma {:induction false} FlattenAllSize(cs: seq<Callout>)
    requires forall c | c in cs :: WellFormed(c)
    ensures |FlattenAll(cs)| == SumOfSizes(cs)
  {
    if cs != [] {
      assert cs[0] in cs;
      SubstructuresLength(cs[0]);
      FlattenAllSize(cs[1..]);
    }
  }

  lemma FlattenAllFront(cs: seq<Callout>, tail: seq<Byte>)
    requires cs != []
    ensures FlattenAll(cs) + tail == FlattenCallout(cs[0]) + (FlattenAll(cs[1..]) + tail)
    ensures cs == [cs[0]] + cs[1..]
  {
    hide FlattenCallout;
    var a, b := FlattenCallout(cs[0]), FlattenAll(cs[1..]);
    assert (a + b) + tail == a + (b + tail);
  }

  lemma {:induction false} ListRoundTrip(cs: seq<Callout>, tail: seq<Byte>, length: nat, current: nat)
    requires forall c | c in cs :: WellFormed(c)
    requires length == current + SumOfSizes(cs)
    ensures ParseList(FlattenAll(cs) + tail, length, current) == Ok(Read(cs, tail))
  {
    hide ParseCallout, FlattenCallout;
    if cs == [] {
      assert FlattenAll(cs) + tail == tail;
    } else {
      var c, rest := cs[0], cs[1..];
      assert c in cs;
      ListRoundTrip(rest, tail, length, current + CalloutSize(c));
      ReadsCallout(c, FlattenAll(rest) + tail, length, current);
      FlattenAllFront(cs, tail);
    }
  }

  /** Parsing undoes printing, whatever follows, and consumes exactly the length
      the subsection states. */
  lemma CalloutsRoundTrip(cs: Callouts, tail: seq<Byte>)
    requires WellFormedCallouts(cs)
    ensures ParseCallouts(FlattenCallouts(cs) + tail) == Ok(Read(cs, tail))
    ensures |FlattenCallouts(cs)| == cs.wordLength * 4
  {
    ListRoundTrip(cs.callouts, tail, cs.wordLength * 4, 4);
    FlattenAllSize(cs.callouts);
    CalloutsFront(cs, tail);
  }

  lemma HeaderFront(a: Byte, b: Byte, w: Word, rest: seq<Byte>, tail: seq<Byte>)
    ensures var bs := [a, b] + (BigEndian16(w) + rest) + tail;
      && |bs| == 4 + |rest| + |tail| && bs[0] == a && bs[1] == b
      && FromBigEndian16(bs[2..4]) == w && bs[4..] == rest + tail
  {
    var bs := [a, b] + (BigEndian16(w) + rest) + tail;
    BigEndian16Inverse(w);
    assert bs[2..4] == BigEndian16(w);
    assert bs[4..] == rest + tail;
  }

  lemma CalloutsFront(cs: Callouts, tail: seq<Byte>)
    ensures var bs := FlattenCallouts(cs) + tail;
      && |bs| >= 4 && bs[0] == cs.subsectionID && bs[1] == cs.subsectionFlags
      && FromBigEndian16(bs[2..4]) == cs.wordLength && bs[4..] == FlattenAll(cs.callouts) + tail
    ensures |FlattenCallouts(cs)| == 4 + |FlattenAll(cs.callouts)|
  {
    HeaderFront(cs.subsectionID, cs.subsectionFlags, cs.wordLength, FlattenAll(cs.callouts), tail);
  }

  // ------------------------------------------------------------- arbitrary bytes

  lemma {:induction false} ListConsumes(bs: seq<Byte>, length: nat, current: nat)
    requires ParseList(bs, length, current).Ok?
    ensures Consumed(bs, 4 * |ParseList(bs, length, current).value.value|, ParseList(bs, length, current).value.rest)
    decreases |bs|
  {
    hide ParseCallout, CalloutSize;
    if length > current {
      CalloutConsumes(bs);
      var r := ParseCallout(bs).value;
      ListConsumes(r.rest, length, current + CalloutSize(r.value));
      var tail := ParseList(r.rest, length, current + CalloutSize(r.value)).value;
      ConsumedTwice(bs, 4, r.rest, 4 * |tail.value|, tail.rest);
    }
  }

  /** On any bytes at all the parser ends, by throwing or with callouts read from
      the front of the bytes and nothing beyond their end, and each callout has
      used up at least four of them. */
  lemma ParserTotal(bs: seq<Byte>)
    ensures ParseCallouts(bs).Thrown? ||
      Consumed(bs, 4 + 4 * |ParseCallouts(bs).value.value.callouts|, ParseCallouts(bs).value.rest)
  {
    if ParseCallouts(bs).Ok? {
      ListConsumes(bs[4..], FromBigEndian16(bs[2..4]) * 4, 4);
      ConsumedTwice(bs, 4, bs[4..], 4 * |ParseCallouts(bs).value.value.callouts|, ParseCallouts(bs).value.rest);
    }
  }
}
