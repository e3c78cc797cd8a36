/** The sections of a PEL: their fields, their bytes, and the factory that reads a
    section back by the ID in front of it. */
module Sections {
  import opened Wrappers
  import opened Bytes
  import opened PelFields
  import C = CalloutFormat
  import R = CalloutReprint

  const PRIVATE_HEADER: Word := 0x5048
  const USER_HEADER: Word := 0x5548
  const PRIMARY_SRC: Word := 0x5053
  const SECONDARY_SRC: Word := 0x5353
  const EXTENDED_USER_HEADER: Word := 0x4548
  const FAILING_MTMS: Word := 0x4D54
  const USER_DATA: Word := 0x5544
  const EXT_USER_DATA: Word := 0x4544

  const ADDITIONAL_SECTIONS := 1

  datatype Header = Header(id: Word, size: Word, version: Byte, subType: Byte, componentID: Word)

  datatype Body =
    | PrivateHeader(createTimestamp: seq<Byte>, commitTimestamp: seq<Byte>, creatorID: Byte, logType: Byte,
                    reservedByte: Byte, sectionCount: Byte, obmcLogID: Long, creatorVersion: seq<Byte>,
                    plid: Long, logID: Long)
    | UserHeader(eventSubsystem: Byte, eventScope: Byte, eventSeverity: Byte, eventType: Byte, reserved4Byte1: Long,
                 problemDomain: Byte, problemVector: Byte, actionFlags: Word, states: Long)
    | SRC(srcVersion: Byte, flags: Byte, reserved1B: Byte, wordCount: Byte, reserved2B: Word, srcSize: Word,
          hexData: seq<Long>, asciiString: seq<Byte>, callouts: Option<C.Callouts>)
    | ExtendedUserHeader(mtm: seq<Byte>, sn: seq<Byte>, serverFWVersion: seq<Byte>, subsystemFWVersion: seq<Byte>,
                         reserved4B: Long, refTime: seq<Byte>, reserved1B1: Byte, reserved1B2: Byte, reserved1B3: Byte,
                         symptomID: seq<Byte>)
    | FailingMTMS(mtm: seq<Byte>, sn: seq<Byte>)
    | UserData(data: seq<Byte>)
    | ExtendedUserData(edCreatorID: Byte, edReserved1B: Byte, edReserved2B: Word, data: seq<Byte>)
    | Generic(data: seq<Byte>)

  datatype Section = Section(header: Header, body: Body)

  // -------------------------------------------------------------------- layout

  const HEADER_KINDS: seq<Kind> := [U16, U16, U8, U8, U16]

  function HeaderFields(h: Header): seq<Field> {
    [F16(h.id), F16(h.size), F8(h.version), F8(h.subType), F16(h.componentID)]
  }

  /** The fixed fields behind the section header. */
  function BodyKinds(id: Word): seq<Kind> {
    if id == PRIVATE_HEADER then [Raw(8), Raw(8), U8, U8, U8, U8, U32, Raw(8), U32, U32]
    else if id == USER_HEADER then [U8, U8, U8, U8, U32, U8, U8, U16, U32]
    else if id == PRIMARY_SRC || id == SECONDARY_SRC then
      [U8, U8, U8, U8, U16, U16, U32, U32, U32, U32, U32, U32, U32, U32, Raw(32)]
    else if id == EXTENDED_USER_HEADER then [Raw(8), Raw(12), Raw(16), Raw(16), U32, Raw(8), U8, U8, U8, U8]
    else if id == FAILING_MTMS then [Raw(8), Raw(12)]
    else if id == EXT_USER_DATA then [U8, U8, U16]
    else []
  }

  function BodyFields(b: Body): seq<Field>
    requires b.SRC? ==> |b.hexData| == 8
  {
    match b
    case PrivateHeader(create, commit, creator, logType, reserved, count, obmcLogID, version, plid, logID) =>
      [FRaw(create), FRaw(commit), F8(creator), F8(logType), F8(reserved), F8(count), F32(obmcLogID), FRaw(version),
       F32(plid), F32(logID)]
    case UserHeader(subsystem, scope, severity, eventType, reserved, domain, vector, actions, states) =>
      [F8(subsystem), F8(scope), F8(severity), F8(eventType), F32(reserved), F8(domain), F8(vector), F16(actions),
       F32(states)]
    case SRC(version, flags, reserved1, words, reserved2, size, hex, ascii, _) =>
      [F8(version), F8(flags), F8(reserved1), F8(words), F16(reserved2), F16(size), F32(hex[0]), F32(hex[1]),
       F32(hex[2]), F32(hex[3]), F32(hex[4]), F32(hex[5]), F32(hex[6]), F32(hex[7]), FRaw(ascii)]
    case ExtendedUserHeader(mtm, sn, server, subsystem, reserved, refTime, r1, r2, r3, symptomID) =>
      [FRaw(mtm), FRaw(sn), FRaw(server), FRaw(subsystem), F32(reserved), FRaw(refTime), F8(r1), F8(r2), F8(r3),
       F8(|symptomID| % 256)]
    case FailingMTMS(mtm, sn) => [FRaw(mtm), FRaw(sn)]
    case ExtendedUserData(creator, reserved1, reserved2, _) => [F8(creator), F8(reserved1), F16(reserved2)]
    case UserData(_) => []
    case Generic(_) => []
  }

  /** What is written behind the fixed fields. */
  function Trailer(b: Body): seq<Byte> {
    match b
    case UserData(data) => data
    case Generic(data) => data
    case ExtendedUserData(_, _, _, data) => data
    case ExtendedUserHeader(_, _, _, _, _, _, _, _, _, symptomID) => symptomID
    case SRC(_, _, _, _, _, _, _, _, callouts) => if callouts.Some? then C.FlattenCallouts(callouts.value) else []
    case _ => []
  }

  predicate Printable(s: Section) {
    s.body.SRC? ==> |s.body.hexData| == 8
  }

  /** flatten() */
  function Flatten(s: Section): seq<Byte>
    requires Printable(s)
  {
    PrintFields(HeaderFields(s.header)) + (PrintFields(BodyFields(s.body)) + Trailer(s.body))
  }

  // ------------------------------------------------------------------- reading

  function ToHeader(fs: seq<Field>): Header
    requires OfKinds(fs, HEADER_KINDS)
  {
    Header(fs[0].w, fs[1].w, fs[2].b, fs[3].b, fs[4].w)
  }

  datatype Tail = NoTail | Data(bytes: seq<Byte>) | CalloutTail(callouts: C.Callouts)

  /** The part whose length or presence another field decides. */
  function ParseTail(h: Header, fs: seq<Field>, bs: seq<Byte>): Result<Read<Tail>>
    requires OfKinds(fs, BodyKinds(h.id))
  {
    if h.id == PRIMARY_SRC || h.id == SECONDARY_SRC then
      if !Bit(fs[1].b, ADDITIONAL_SECTIONS) then Ok(Read(NoTail, bs))
      else
        match C.ParseCallouts(bs)
        case Thrown => Thrown
        case Ok(Read(cs, rest)) => Ok(Read(CalloutTail(cs), rest))
    else if h.id == EXTENDED_USER_HEADER then TakeData(bs, fs[9].b)
    else if h.id == EXT_USER_DATA then (if h.size <= 12 then Thrown else TakeData(bs, h.size - 12))
    else if h.id in {PRIVATE_HEADER, USER_HEADER, FAILING_MTMS} then Ok(Read(NoTail, bs))
    else if h.size <= 8 then Thrown
    else TakeData(bs, h.size - 8)
  }

  function TakeData(bs: seq<Byte>, n: nat): Result<Read<Tail>> {
    if n <= |bs| then Ok(Read(Data(bs[..n]), bs[n..])) else Thrown
  }

  predicate TailFits(h: Header, fs: seq<Field>, tail: Tail)
    requires OfKinds(fs, BodyKinds(h.id))
  {
    if h.id == PRIMARY_SRC || h.id == SECONDARY_SRC then
      (if Bit(fs[1].b, ADDITIONAL_SECTIONS) then tail.CalloutTail? else tail.NoTail?)
    else if h.id in {PRIVATE_HEADER, USER_HEADER, FAILING_MTMS} then tail.NoTail?
    else tail.Data?
  }

  function ToBody(h: Header, fs: seq<Field>, tail: Tail): Body
    requires OfKinds(fs, BodyKinds(h.id)) && TailFits(h, fs, tail)
  {
    if h.id == PRIVATE_HEADER then
      PrivateHeader(fs[0].bytes, fs[1].bytes, fs[2].b, fs[3].b, fs[4].b, fs[5].b, fs[6].l, fs[7].bytes, fs[8].l, fs[9].l)
    else if h.id == USER_HEADER then
      UserHeader(fs[0].b, fs[1].b, fs[2].b, fs[3].b, fs[4].l, fs[5].b, fs[6].b, fs[7].w, fs[8].l)
    else if h.id == PRIMARY_SRC || h.id == SECONDARY_SRC then
      SRC(fs[0].b, fs[1].b, fs[2].b, fs[3].b, fs[4].w, fs[5].w,
          [fs[6].l, fs[7].l, fs[8].l, fs[9].l, fs[10].l, fs[11].l, fs[12].l, fs[13].l], fs[14].bytes,
          if tail.CalloutTail? then Some(tail.callouts) else None)
    else if h.id == EXTENDED_USER_HEADER then
      ExtendedUserHeader(fs[0].bytes, fs[1].bytes, fs[2].bytes, fs[3].bytes, fs[4].l, fs[5].bytes, fs[6].b, fs[7].b,
                         fs[8].b, tail.bytes)
    else if h.id == FAILING_MTMS then FailingMTMS(fs[0].bytes, fs[1].bytes)
    else if h.id == EXT_USER_DATA then ExtendedUserData(fs[0].b, fs[1].b, fs[2].w, tail.bytes)
    else if h.id == USER_DATA then UserData(tail.bytes)
    else Generic(tail.bytes)
  }

  /** validate(): what a section has to hold beyond being readable. */
  predicate Validates(s: Section) {
    match s.body
    case PrivateHeader(_, _, _, _, _, count, _, _, _, _) => s.header.version == 1 && count >= 2
    case UserHeader(_, _, _, _, _, _, _, _, _) => s.header.version == 1
    case SRC(version, _, _, _, _, _, _, _, _) => version == 2
    case ExtendedUserHeader(_, _, _, _, _, _, _, _, _, _) => s.header.version == 1
    case FailingMTMS(_, _) => s.header.version == 1
    case _ => true
  }

  /** The section once its fixed fields are read; Thrown when it is not valid. */
  function Complete(h: Header, fs: seq<Field>, bs: seq<Byte>): Result<Read<Section>>
    requires OfKinds(fs, BodyKinds(h.id))
  {
    match ParseTail(h, fs, bs)
    case Thrown => Thrown
    case Ok(Read(tail, rest)) =>
      var s := Section(h, ToBody(h, fs, tail));
      if Validates(s) then Ok(Read(s, rest)) else Thrown
  }

  /** section_factory::create; Thrown when the section it makes is not valid. */
  function Parse(bs: seq<Byte>): Result<Read<Section>> {
    match ParseFields(bs, HEADER_KINDS)
    case Thrown => Thrown
    case Ok(Read(hs, behind)) =>
      var h := ToHeader(hs);
      match ParseFields(behind, BodyKinds(h.id))
      case Thrown => Thrown
      case Ok(Read(fs, more)) => Complete(h, fs, more)
  }

  // --------------------------------------------------------------- well-formed

  predicate IsSRC(id: Word) { id == PRIMARY_SRC || id == SECONDARY_SRC }

  predicate RightID(s: Section) {
    match s.body
    case PrivateHeader(_, _, _, _, _, _, _, _, _, _) => s.header.id == PRIVATE_HEADER
    case UserHeader(_, _, _, _, _, _, _, _, _) => s.header.id == USER_HEADER
    case SRC(_, _, _, _, _, _, _, _, _) => IsSRC(s.header.id)
    case ExtendedUserHeader(_, _, _, _, _, _, _, _, _, _) => s.header.id == EXTENDED_USER_HEADER
    case FailingMTMS(_, _) => s.header.id == FAILING_MTMS
    case UserData(_) => s.header.id == USER_DATA
    case ExtendedUserData(_, _, _, _) => s.header.id == EXT_USER_DATA
    case Generic(_) => s.header.id !in {PRIVATE_HEADER, USER_HEADER, PRIMARY_SRC, SECONDARY_SRC, EXTENDED_USER_HEADER,
                                        FAILING_MTMS, USER_DATA, EXT_USER_DATA}
  }

  /** The lengths that the parser relies on. */
  ghost predicate RightTail(s: Section) {
    match s.body
    case UserData(data) => 0 < |data| && s.header.size == 8 + |data|
    case Generic(data) => 0 < |data| && s.header.size == 8 + |data|
    case ExtendedUserData(_, _, _, data) => 0 < |data| && s.header.size == 12 + |data|
    case ExtendedUserHeader(_, _, _, _, _, _, _, _, _, symptomID) => |symptomID| < 256
    case SRC(_, flags, _, _, _, _, _, _, callouts) =>
      && callouts.Some? == Bit(flags, ADDITIONAL_SECTIONS)
      && (callouts.Some? ==> C.WellFormedCallouts(callouts.value))
    case _ => true
  }

  ghost predicate WellFormed(s: Section) {
    Printable(s) && RightID(s) && OfKinds(BodyFields(s.body), BodyKinds(s.header.id)) && RightTail(s) && Validates(s)
  }

  // ---------------------------------------------------------------- round trips

  /** The tail that a body has. */
  function TailOf(b: Body): Tail {
    match b
    case UserData(data) => Data(data)
    case Generic(data) => Data(data)
    case ExtendedUserData(_, _, _, data) => Data(data)
    case ExtendedUserHeader(_, _, _, _, _, _, _, _, _, symptomID) => Data(symptomID)
    case SRC(_, _, _, _, _, _, _, _, callouts) => if callouts.Some? then CalloutTail(callouts.value) else NoTail
    case _ => NoTail
  }

  lemma TailRoundTrip(s: Section, tail: seq<Byte>)
    requires WellFormed(s)
    ensures ParseTail(s.header, BodyFields(s.body), Trailer(s.body) + tail) == Ok(Read(TailOf(s.body), tail))
  {
    hide C.ParseCallouts, C.FlattenCallouts, C.WellFormedCallouts;
    FrontAndBack(Trailer(s.body), tail);
    if s.body.SRC? && s.body.callouts.Some? {
      C.CalloutsRoundTrip(s.body.callouts.value, tail);
    } else if TailOf(s.body).NoTail? {
      assert Trailer(s.body) + tail == tail;
    }
  }

  lemma BodyInverse(s: Section)
    requires WellFormed(s)
    ensures TailFits(s.header, BodyFields(s.body), TailOf(s.body))
    ensures ToBody(s.header, BodyFields(s.body), TailOf(s.body)) == s.body
  {
    hide C.WellFormedCallouts;
  }

  lemma CompleteRoundTrip(s: Section, tail: seq<Byte>)
    requires WellFormed(s)
    ensures Complete(s.header, BodyFields(s.body), Trailer(s.body) + tail) == Ok(Read(s, tail))
  {
    hide ParseTail, ToBody, BodyFields, BodyKinds, Trailer, TailOf, RightTail, RightID;
    BodyInverse(s);
    TailRoundTrip(s, tail);
  }

  /** The factory rebuilds any well-formed section from its bytes, whatever follows. */
  lemma SectionRoundTrip(s: Section, tail: seq<Byte>)
    requires WellFormed(s)
    ensures Parse(Flatten(s) + tail) == Ok(Read(s, tail))
  {
    var hs, fs, trailer := HeaderFields(s.header), BodyFields(s.body), Trailer(s.body);
    var kinds := BodyKinds(s.header.id);
    CompleteRoundTrip(s, tail);
    FieldsRoundTrip(hs, HEADER_KINDS, PrintFields(fs) + (trailer + tail));
    FieldsRoundTrip(fs, kinds, trailer + tail);
    Assoc(PrintFields(hs), PrintFields(fs) + trailer, tail);
    Assoc(PrintFields(fs), trailer, tail);
    assert ToHeader(hs) == s.header;
    hide BodyFields, ParseFields, PrintFields, Complete, Validates, BodyKinds, Trailer, RightTail, RightID;
  }

  /** The pieces a section was read from. */
  lemma Unpacked(bs: seq<Byte>) returns (hs: seq<Field>, behind: seq<Byte>, fs: seq<Field>, more: seq<Byte>, tail: Tail,
                                         rest: seq<Byte>)
    requires Parse(bs).Ok?
    ensures ParseFields(bs, HEADER_KINDS) == Ok(Read(hs, behind))
    ensures ParseFields(behind, BodyKinds(ToHeader(hs).id)) == Ok(Read(fs, more))
    ensures ParseTail(ToHeader(hs), fs, more) == Ok(Read(tail, rest))
    ensures TailFits(ToHeader(hs), fs, tail)
    ensures Parse(bs) == Ok(Read(Section(ToHeader(hs), ToBody(ToHeader(hs), fs, tail)), rest))
    ensures Validates(Parse(bs).value.value)
  {
    hide ToBody, BodyKinds, Validates, Complete, ToHeader;
    hs, behind := ParseFields(bs, HEADER_KINDS).value.value, ParseFields(bs, HEADER_KINDS).value.rest;
    var h := ToHeader(hs);
    var r := ParseFields(behind, BodyKinds(h.id)).value;
    fs, more := r.value, r.rest;
    tail, rest := Completed(h, fs, more);
  }

  lemma Completed(h: Header, fs: seq<Field>, bs: seq<Byte>) returns (tail: Tail, rest: seq<Byte>)
    requires OfKinds(fs, BodyKinds(h.id)) && Complete(h, fs, bs).Ok?
    ensures ParseTail(h, fs, bs) == Ok(Read(tail, rest)) && TailFits(h, fs, tail)
    ensures Complete(h, fs, bs) == Ok(Read(Section(h, ToBody(h, fs, tail)), rest))
    ensures Validates(Section(h, ToBody(h, fs, tail)))
  {
    hide ToBody, BodyKinds, Validates, C.ParseCallouts;
    tail, rest := ParseTail(h, fs, bs).value.value, ParseTail(h, fs, bs).value.rest;
  }

  /** The callouts of the section at the front, if it is an SRC with callouts, have their
      substructures in order. */
  predicate InOrder(bs: seq<Byte>) {
    match ParseFields(bs, HEADER_KINDS)
    case Thrown => true
    case Ok(Read(hs, behind)) =>
      match ParseFields(behind, BodyKinds(ToHeader(hs).id))
      case Thrown => true
      case Ok(Read(fs, more)) => TailInOrder(ToHeader(hs), fs, more)
  }

  predicate TailInOrder(h: Header, fs: seq<Field>, bs: seq<Byte>)
    requires OfKinds(fs, BodyKinds(h.id))
  {
    IsSRC(h.id) && Bit(fs[1].b, ADDITIONAL_SECTIONS) ==> R.CalloutsInOrder(bs)
  }

  lemma FieldsBack(h: Header, fs: seq<Field>, tail: Tail)
    requires OfKinds(fs, BodyKinds(h.id)) && TailFits(h, fs, tail)
    requires h.id == EXTENDED_USER_HEADER ==> fs[9].b == |tail.bytes|
    ensures var s := Section(h, ToBody(h, fs, tail)); Printable(s) && RightID(s) && BodyFields(s.body) == fs
  {}

  lemma TailReprinted(h: Header, fs: seq<Field>, bs: seq<Byte>)
    requires OfKinds(fs, BodyKinds(h.id)) && ParseTail(h, fs, bs).Ok?
    ensures TailFits(h, fs, ParseTail(h, fs, bs).value.value)
    ensures var r := ParseTail(h, fs, bs).value;
      var s := Section(h, ToBody(h, fs, r.value));
      && Printable(s) && RightID(s) && BodyFields(s.body) == fs
      && (r.value.CalloutTail? || RightTail(s))
      && |Trailer(s.body)| + |r.rest| <= |bs|
      && (Trailer(s.body) + r.rest == bs <==> TailInOrder(h, fs, bs))
  {
    hide C.ParseCallouts, C.FlattenCallouts, C.WellFormedCallouts, R.CalloutsInOrder, BodyFields;
    var r := ParseTail(h, fs, bs).value;
    if r.value.CalloutTail? {
      R.CalloutsReprintedIff(bs);
    } else if r.value.Data? {
      assert bs == r.value.bytes + r.rest;
    } else {
      assert bs == [] + bs;
    }
    FieldsBack(h, fs, r.value);
  }

  /** A section read from bytes prints these very bytes exactly when the callouts it has, if
      any, stood in order; and never more bytes than it was read from. */
  lemma ReprintedIffInOrder(bs: seq<Byte>)
    requires Parse(bs).Ok?
    ensures var r := Parse(bs).value;
      && Printable(r.value)
      && |Flatten(r.value)| + |r.rest| <= |bs|
      && (Flatten(r.value) + r.rest == bs <==> InOrder(bs))
    ensures var s := Parse(bs).value.value; !(s.body.SRC? && s.body.callouts.Some?) ==> WellFormed(s)
  {
    var hs, behind, fs, more, tail, rest := Unpacked(bs);
    var h := ToHeader(hs);
    assert HeaderFields(h) == hs;
    WithCallouts(h, fs, tail);
    hide ParseFields, PrintFields, ParseTail, ToBody, Parse, BodyFields, BodyKinds, Trailer, RightTail, RightID, Validates,
      TailInOrder;
    TailReprinted(h, fs, more);
    BytesRoundTrip(bs, HEADER_KINDS);
    BytesRoundTrip(behind, BodyKinds(h.id));
    AllReprintIff(PrintFields(hs), PrintFields(fs), Trailer(ToBody(h, fs, tail)), rest, more, behind, bs);
  }

  lemma WithCallouts(h: Header, fs: seq<Field>, tail: Tail)
    requires OfKinds(fs, BodyKinds(h.id)) && TailFits(h, fs, tail)
    ensures var b := ToBody(h, fs, tail); tail.CalloutTail? <==> b.SRC? && b.callouts.Some?
  {}

  lemma AllReprintIff(a: seq<Byte>, b: seq<Byte>, c: seq<Byte>, rest: seq<Byte>, more: seq<Byte>, behind: seq<Byte>,
                      bs: seq<Byte>)
    requires b + more == behind && a + behind == bs && |c| + |rest| <= |more|
    ensures a + (b + c) + rest == bs <==> c + rest == more
    ensures |a + (b + c)| + |rest| <= |bs|
  {
    Assoc(b, c, rest);
    Assoc(a, b + c, rest);
    FrontAndBack(a, b + (c + rest));
    FrontAndBack(a, behind);
    FrontAndBack(b, c + rest);
    FrontAndBack(b, more);
  }

  // --------------------------------------------------------------------- sizes

  lemma HeaderWidths(h: Header)
    ensures |PrintFields(HeaderFields(h))| == 8
  {
    hide Widths, PrintFields;
    FieldsRoundTrip(HeaderFields(h), HEADER_KINDS, []);
    WidthsOfHeader();
  }

  lemma WidthsOfHeader()
    ensures Widths(HEADER_KINDS) == 8
  {
    assert HEADER_KINDS[1..] == [U16, U8, U8, U16] && [U16, U8, U8, U16][1..] == [U8, U8, U16];
    assert [U8, U8, U16][1..] == [U8, U16] && [U8, U16][1..] == [U16] && [U16][1..] == [];
  }

  lemma FlattenedLength(s: Section)
    requires WellFormed(s)
    ensures |Flatten(s)| == 8 + Widths(BodyKinds(s.header.id)) + |Trailer(s.body)|
  {
    hide BodyFields, PrintFields, BodyKinds, Trailer, Widths, RightTail, RightID, Validates;
    HeaderWidths(s.header);
    FieldsRoundTrip(BodyFields(s.body), BodyKinds(s.header.id), []);
  }
}
