/** Where each field of a section stands among its bytes, by index. */
module PelLayout {
  import opened Wrappers
  import opened Bytes
  import opened PelFields
  import opened Sections
  import opened PelFormat
  import B = PelBuilding
  import C = CalloutFormat

  // -------------------------------------------------------------- numbers in the bytes

  /** Two bytes from o on, the high one first. */
  function Two(bs: seq<Byte>, o: nat): int
    requires o + 2 <= |bs|
  {
    bs[o] as int * 256 + bs[o + 1]
  }

  /** Four bytes from o on, the highest first. */
  function Four(bs: seq<Byte>, o: nat): int
    requires o + 4 <= |bs|
  {
    bs[o] as int * 0x100_0000 + bs[o + 1] as int * 0x1_0000 + bs[o + 2] as int * 0x100 + bs[o + 3]
  }

  predicate FieldAt(bs: seq<Byte>, o: nat, f: Field) {
    match f
    case F8(b) => o + 1 <= |bs| && bs[o] == b
    case F16(w) => o + 2 <= |bs| && Two(bs, o) == w
    case F32(l) => o + 4 <= |bs| && Four(bs, o) == l
    case FRaw(bytes) => o + |bytes| <= |bs| && bs[o..o + |bytes|] == bytes
  }

  predicate FieldsAt(bs: seq<Byte>, o: nat, fs: seq<Field>)
    decreases fs
  {
    fs == [] || (FieldAt(bs, o, fs[0]) && FieldsAt(bs, o + Width(KindOf(fs[0])), fs[1..]))
  }

  lemma PrintsTwo(w: Word, bs: seq<Byte>)
    requires |bs| == 2
    ensures bs == BigEndian16(w) <==> Two(bs, 0) == w
  {}

  lemma PrintsFour(l: Long, bs: seq<Byte>)
    requires |bs| == 4
    ensures bs == BigEndian32(l) <==> Four(bs, 0) == l
  {
    assert bs == bs[..2] + bs[2..];
    BigEndian32Inverse(l);
    PrintsTwo(l / 0x1_0000, bs[..2]);
    PrintsTwo(l % 0x1_0000, bs[2..]);
    assert Four(bs, 0) == Two(bs[..2], 0) * 0x1_0000 + Two(bs[2..], 0);
    assert BigEndian32(l)[..2] == BigEndian16(l / 0x1_0000) && BigEndian32(l)[2..] == BigEndian16(l % 0x1_0000);
  }

  lemma FieldAtIff(bs: seq<Byte>, o: nat, f: Field)
    requires o + Width(KindOf(f)) <= |bs|
    ensures |PrintField(f)| == Width(KindOf(f))
    ensures FieldAt(bs, o, f) <==> bs[o..o + Width(KindOf(f))] == PrintField(f)
  {
    FieldInverse(f);
    match f
    case F16(w) => PrintsTwo(w, bs[o..o + 2]);
    case F32(l) => PrintsFour(l, bs[o..o + 4]);
    case _ =>
  }

  lemma {:induction false} FieldsAtIff(bs: seq<Byte>, o: nat, fs: seq<Field>)
    requires o <= |bs|
    ensures FieldsAt(bs, o, fs) <==> o + |PrintFields(fs)| <= |bs| && bs[o..o + |PrintFields(fs)|] == PrintFields(fs)
    decreases fs
  {
    hide PrintField, FieldAt, KindOf, Width;
    if fs != [] {
      var w, n := Width(KindOf(fs[0])), |PrintFields(fs)|;
      FieldInverse(fs[0]);
      FieldAtInside(bs, o, fs[0]);
      if o + w <= |bs| {
        FieldAtIff(bs, o, fs[0]);
        FieldsAtIff(bs, o + w, fs[1..]);
        if o + n <= |bs| {
          assert bs[o..o + n] == bs[o..o + w] + bs[o + w..o + n];
          FrontAndBack(bs[o..o + w], bs[o + w..o + n]);
          FrontAndBack(PrintField(fs[0]), PrintFields(fs[1..]));
        }
      }
    }
  }

  lemma FieldAtInside(bs: seq<Byte>, o: nat, f: Field)
    ensures FieldAt(bs, o, f) ==> o + Width(KindOf(f)) <= |bs|
  {}

  lemma OneAt(bs: seq<Byte>, o: nat, f: Field, rest: seq<Field>)
    ensures FieldsAt(bs, o, [f] + rest) <==> FieldAt(bs, o, f) && FieldsAt(bs, o + Width(KindOf(f)), rest)
  {
    assert ([f] + rest)[1..] == rest;
  }

  lemma LastAt(bs: seq<Byte>, o: nat, f: Field)
    ensures FieldsAt(bs, o, [f]) <==> FieldAt(bs, o, f)
  {
    assert [f] == [f] + [];
    OneAt(bs, o, f, []);
  }

  lemma FourAt(bs: seq<Byte>, o: nat, a: Field, b: Field, c: Field, d: Field, rest: seq<Field>)
    ensures var o1 := o + Width(KindOf(a));
      var o2 := o1 + Width(KindOf(b));
      var o3 := o2 + Width(KindOf(c));
      FieldsAt(bs, o, [a, b, c, d] + rest) <==>
        && FieldAt(bs, o, a) && FieldAt(bs, o1, b) && FieldAt(bs, o2, c) && FieldAt(bs, o3, d)
        && FieldsAt(bs, o3 + Width(KindOf(d)), rest)
  {
    hide FieldAt, Width, KindOf, FieldsAt;
    assert [a, b, c, d] + rest == [a] + ([b] + ([c] + ([d] + rest)));
    var o1 := o + Width(KindOf(a));
    var o2 := o1 + Width(KindOf(b));
    var o3 := o2 + Width(KindOf(c));
    OneAt(bs, o, a, [b] + ([c] + ([d] + rest)));
    OneAt(bs, o1, b, [c] + ([d] + rest));
    OneAt(bs, o2, c, [d] + rest);
    OneAt(bs, o3, d, rest);
  }

  // ------------------------------------------------------------------------ the layout

  /** The eight bytes every section begins with. */
  predicate HeaderAt(bs: seq<Byte>, h: Header) {
    && 8 <= |bs| && Two(bs, 0) == h.id && Two(bs, 2) == h.size && bs[4] == h.version && bs[5] == h.subType
    && Two(bs, 6) == h.componentID
  }

  /** The two letters in front, by the kind of section. */
  predicate LettersOf(a: Byte, b: Byte, body: Body) {
    match body
    case PrivateHeader(_, _, _, _, _, _, _, _, _, _) => a == 0x50 && b == 0x48
    case UserHeader(_, _, _, _, _, _, _, _, _) => a == 0x55 && b == 0x48
    case SRC(_, _, _, _, _, _, _, _, _) => (a == 0x50 || a == 0x53) && b == 0x53
    case ExtendedUserHeader(_, _, _, _, _, _, _, _, _, _) => a == 0x45 && b == 0x48
    case FailingMTMS(_, _) => a == 0x4D && b == 0x54
    case UserData(_) => a == 0x55 && b == 0x44
    case ExtendedUserData(_, _, _, _) => a == 0x45 && b == 0x44
    case Generic(_) =>
      (a, b) !in {(0x50, 0x48), (0x55, 0x48), (0x50, 0x53), (0x53, 0x53), (0x45, 0x48), (0x4D, 0x54), (0x55, 0x44),
                  (0x45, 0x44)}
  }

  /** How far the fixed fields of a section reach. */
  function FixedLength(b: Body): nat {
    match b
    case PrivateHeader(_, _, _, _, _, _, _, _, _, _) => 48
    case UserHeader(_, _, _, _, _, _, _, _, _) => 24
    case SRC(_, _, _, _, _, _, _, _, _) => 80
    case ExtendedUserHeader(_, _, _, _, _, _, _, _, _, _) => 76
    case FailingMTMS(_, _) => 28
    case ExtendedUserData(_, _, _, _) => 12
    case UserData(_) => 8
    case Generic(_) => 8
  }

  /** Each fixed field at its place in the section. */
  predicate BodyAt(bs: seq<Byte>, body: Body)
    requires body.SRC? ==> |body.hexData| == 8
  {
    FixedLength(body) <= |bs| &&
    match body
    case PrivateHeader(create, commit, creator, logType, reserved, count, obmcLogID, version, plid, logID) =>
      && bs[8..16] == create && bs[16..24] == commit && bs[24] == creator && bs[25] == logType && bs[26] == reserved
      && bs[27] == count && Four(bs, 28) == obmcLogID && bs[32..40] == version
      && Four(bs, 40) == plid && Four(bs, 44) == logID
    case UserHeader(subsystem, scope, severity, eventType, reserved, domain, vector, actions, states) =>
      && bs[8] == subsystem && bs[9] == scope && bs[10] == severity && bs[11] == eventType && Four(bs, 12) == reserved
      && bs[16] == domain && bs[17] == vector && Two(bs, 18) == actions && Four(bs, 20) == states
    case SRC(version, flags, reserved1, words, reserved2, size, hex, ascii, _) =>
      && bs[8] == version && bs[9] == flags && bs[10] == reserved1 && bs[11] == words
      && Two(bs, 12) == reserved2 && Two(bs, 14) == size
      && Four(bs, 16) == hex[0] && Four(bs, 20) == hex[1] && Four(bs, 24) == hex[2] && Four(bs, 28) == hex[3]
      && Four(bs, 32) == hex[4] && Four(bs, 36) == hex[5] && Four(bs, 40) == hex[6] && Four(bs, 44) == hex[7]
      && bs[48..80] == ascii
    case ExtendedUserHeader(mtm, sn, server, subsystem, reserved, refTime, r1, r2, r3, symptomID) =>
      && bs[8..16] == mtm && bs[16..28] == sn && bs[28..44] == server && bs[44..60] == subsystem
      && Four(bs, 60) == reserved && bs[64..72] == refTime && bs[72] == r1 && bs[73] == r2 && bs[74] == r3
      && bs[75] as int == |symptomID| % 256
    case FailingMTMS(mtm, sn) => bs[8..16] == mtm && bs[16..28] == sn
    case ExtendedUserData(creator, reserved1, reserved2, _) =>
      bs[8] == creator && bs[9] == reserved1 && Two(bs, 10) == reserved2
    case UserData(_) => true
    case Generic(_) => true
  }

  /** What is behind the fixed fields: data, symptom ID, or the callouts. */
  function Behind(body: Body): seq<Byte> {
    match body
    case ExtendedUserHeader(_, _, _, _, _, _, _, _, _, symptomID) => symptomID
    case ExtendedUserData(_, _, _, data) => data
    case UserData(data) => data
    case Generic(data) => data
    case SRC(_, _, _, _, _, _, _, _, Some(callouts)) => C.FlattenCallouts(callouts)
    case _ => []
  }

  predicate LaidOut(bs: seq<Byte>, s: Section)
    requires Printable(s)
  {
    HeaderAt(bs, s.header) && BodyAt(bs, s.body) && bs[FixedLength(s.body)..] == Behind(s.body)
  }

  // ----------------------------------------------------------------- field by field

  lemma HeaderAtIff(bs: seq<Byte>, h: Header)
    ensures FieldsAt(bs, 0, HeaderFields(h)) <==> HeaderAt(bs, h)
  {
    hide FieldsAt;
    var fs := HeaderFields(h);
    assert fs == [fs[0], fs[1], fs[2], fs[3]] + [fs[4]];
    FourAt(bs, 0, fs[0], fs[1], fs[2], fs[3], [fs[4]]);
    LastAt(bs, 6, fs[4]);
  }

  lemma PrivateHeaderAt(bs: seq<Byte>, b: Body)
    requires b.PrivateHeader? && OfKinds(BodyFields(b), BodyKinds(PRIVATE_HEADER))
    ensures FieldsAt(bs, 8, BodyFields(b)) <==> BodyAt(bs, b)
  {
    hide FieldsAt;
    var fs := BodyFields(b);
    assert fs == [fs[0], fs[1], fs[2], fs[3]] + fs[4..] && fs[4..] == [fs[4], fs[5], fs[6], fs[7]] + fs[8..];
    assert fs[8..] == [fs[8]] + [fs[9]];
    assert KindOf(fs[0]) == Raw(8) && KindOf(fs[1]) == Raw(8) && KindOf(fs[7]) == Raw(8);
    FourAt(bs, 8, fs[0], fs[1], fs[2], fs[3], fs[4..]);
    FourAt(bs, 26, fs[4], fs[5], fs[6], fs[7], fs[8..]);
    OneAt(bs, 40, fs[8], [fs[9]]);
    LastAt(bs, 44, fs[9]);
  }

  lemma UserHeaderAt(bs: seq<Byte>, b: Body)
    requires b.UserHeader? && OfKinds(BodyFields(b), BodyKinds(USER_HEADER))
    ensures FieldsAt(bs, 8, BodyFields(b)) <==> BodyAt(bs, b)
  {
    hide FieldsAt;
    var fs := BodyFields(b);
    assert fs == [fs[0], fs[1], fs[2], fs[3]] + fs[4..] && fs[4..] == [fs[4], fs[5], fs[6], fs[7]] + [fs[8]];
    FourAt(bs, 8, fs[0], fs[1], fs[2], fs[3], fs[4..]);
    FourAt(bs, 12, fs[4], fs[5], fs[6], fs[7], [fs[8]]);
    LastAt(bs, 20, fs[8]);
  }

  lemma SRCAt(bs: seq<Byte>, b: Body)
    requires b.SRC? && |b.hexData| == 8 && OfKinds(BodyFields(b), BodyKinds(PRIMARY_SRC))
    ensures FieldsAt(bs, 8, BodyFields(b)) <==> BodyAt(bs, b)
  {
    hide FieldsAt;
    var fs := BodyFields(b);
    assert fs == [fs[0], fs[1], fs[2], fs[3]] + fs[4..] && fs[4..] == [fs[4]] + fs[5..] && fs[5..] == [fs[5]] + fs[6..];
    assert KindOf(fs[14]) == Raw(32);
    FourAt(bs, 8, fs[0], fs[1], fs[2], fs[3], fs[4..]);
    OneAt(bs, 12, fs[4], fs[5..]);
    OneAt(bs, 14, fs[5], fs[6..]);
    HexWordsAt(bs, b.hexData, b.asciiString, fs[6..]);
  }

  lemma HexWordsAt(bs: seq<Byte>, hex: seq<Long>, ascii: seq<Byte>, fs: seq<Field>)
    requires |hex| == 8 && |ascii| == 32
    requires fs == [F32(hex[0]), F32(hex[1]), F32(hex[2]), F32(hex[3]), F32(hex[4]), F32(hex[5]), F32(hex[6]), F32(hex[7]),
                    FRaw(ascii)]
    ensures FieldsAt(bs, 16, fs) <==>
      && 80 <= |bs|
      && Four(bs, 16) == hex[0] && Four(bs, 20) == hex[1] && Four(bs, 24) == hex[2] && Four(bs, 28) == hex[3]
      && Four(bs, 32) == hex[4] && Four(bs, 36) == hex[5] && Four(bs, 40) == hex[6] && Four(bs, 44) == hex[7]
      && bs[48..80] == ascii
  {
    hide FieldsAt;
    assert fs == [fs[0], fs[1], fs[2], fs[3]] + fs[4..] && fs[4..] == [fs[4], fs[5], fs[6], fs[7]] + [fs[8]];
    FourAt(bs, 16, fs[0], fs[1], fs[2], fs[3], fs[4..]);
    FourAt(bs, 32, fs[4], fs[5], fs[6], fs[7], [fs[8]]);
    LastAt(bs, 48, fs[8]);
  }

  lemma ExtendedUserHeaderAt(bs: seq<Byte>, b: Body)
    requires b.ExtendedUserHeader? && OfKinds(BodyFields(b), BodyKinds(EXTENDED_USER_HEADER))
    ensures FieldsAt(bs, 8, BodyFields(b)) <==> BodyAt(bs, b)
  {
    hide FieldsAt;
    var fs := BodyFields(b);
    assert KindOf(fs[0]) == Raw(8) && KindOf(fs[1]) == Raw(12) && KindOf(fs[2]) == Raw(16) && KindOf(fs[3]) == Raw(16);
    FirstOfExtendedUserHeader(bs, fs[0].bytes, fs[1].bytes, fs[2].bytes, fs[3].bytes, fs);
    LastOfExtendedUserHeader(bs, fs[4].l, fs[5].bytes, fs[6].b, fs[7].b, fs[8].b, fs[9].b, fs[4..]);
  }

  lemma FirstOfExtendedUserHeader(bs: seq<Byte>, mtm: seq<Byte>, sn: seq<Byte>, server: seq<Byte>, subsystem: seq<Byte>,
                                  fs: seq<Field>)
    requires |mtm| == 8 && |sn| == 12 && |server| == 16 && |subsystem| == 16 && 4 <= |fs|
    requires fs[0] == FRaw(mtm) && fs[1] == FRaw(sn) && fs[2] == FRaw(server) && fs[3] == FRaw(subsystem)
    ensures FieldsAt(bs, 8, fs) <==>
      && 60 <= |bs| && bs[8..16] == mtm && bs[16..28] == sn && bs[28..44] == server && bs[44..60] == subsystem
      && FieldsAt(bs, 60, fs[4..])
  {
    hide FieldsAt;
    assert fs == [fs[0], fs[1], fs[2], fs[3]] + fs[4..];
    FourAt(bs, 8, fs[0], fs[1], fs[2], fs[3], fs[4..]);
  }

  lemma LastOfExtendedUserHeader(bs: seq<Byte>, reserved: Long, refTime: seq<Byte>, r1: Byte, r2: Byte, r3: Byte,
                                 size: Byte, fs: seq<Field>)
    requires |refTime| == 8 && fs == [F32(reserved), FRaw(refTime), F8(r1), F8(r2), F8(r3), F8(size)]
    ensures FieldsAt(bs, 60, fs) <==>
      76 <= |bs| && Four(bs, 60) == reserved && bs[64..72] == refTime && bs[72] == r1 && bs[73] == r2 && bs[74] == r3
      && bs[75] == size
  {
    hide FieldsAt;
    assert fs == [fs[0], fs[1], fs[2], fs[3]] + ([fs[4]] + [fs[5]]);
    FourAt(bs, 60, fs[0], fs[1], fs[2], fs[3], [fs[4]] + [fs[5]]);
    OneAt(bs, 74, fs[4], [fs[5]]);
    LastAt(bs, 75, fs[5]);
  }

  lemma FailingMTMSAt(bs: seq<Byte>, b: Body)
    requires b.FailingMTMS? && OfKinds(BodyFields(b), BodyKinds(FAILING_MTMS))
    ensures FieldsAt(bs, 8, BodyFields(b)) <==> BodyAt(bs, b)
  {
    hide FieldsAt;
    var fs := BodyFields(b);
    assert fs == [fs[0]] + [fs[1]] && KindOf(fs[0]) == Raw(8) && KindOf(fs[1]) == Raw(12);
    OneAt(bs, 8, fs[0], [fs[1]]);
    LastAt(bs, 16, fs[1]);
  }

  lemma ExtendedUserDataAt(bs: seq<Byte>, b: Body)
    requires b.ExtendedUserData? && OfKinds(BodyFields(b), BodyKinds(EXT_USER_DATA))
    ensures FieldsAt(bs, 8, BodyFields(b)) <==> BodyAt(bs, b)
  {
    hide FieldsAt;
    var fs := BodyFields(b);
    assert fs == [fs[0]] + ([fs[1]] + [fs[2]]);
    OneAt(bs, 8, fs[0], [fs[1]] + [fs[2]]);
    OneAt(bs, 9, fs[1], [fs[2]]);
    LastAt(bs, 10, fs[2]);
  }

  /** The fixed fields of any section, at their places. */
  lemma FieldsAtIffBodyAt(bs: seq<Byte>, s: Section)
    requires 8 <= |bs| && Printable(s) && RightID(s) && OfKinds(BodyFields(s.body), BodyKinds(s.header.id))
    ensures FieldsAt(bs, 8, BodyFields(s.body)) <==> BodyAt(bs, s.body)
  {
    hide BodyAt, FieldsAt, BodyFields, OfKinds;
    match s.body
    case PrivateHeader(_, _, _, _, _, _, _, _, _, _) => PrivateHeaderAt(bs, s.body);
    case UserHeader(_, _, _, _, _, _, _, _, _) => UserHeaderAt(bs, s.body);
    case SRC(_, _, _, _, _, _, _, _, _) => SRCAt(bs, s.body);
    case ExtendedUserHeader(_, _, _, _, _, _, _, _, _, _) => ExtendedUserHeaderAt(bs, s.body);
    case FailingMTMS(_, _) => FailingMTMSAt(bs, s.body);
    case ExtendedUserData(_, _, _, _) => ExtendedUserDataAt(bs, s.body);
    case UserData(_) => NothingAt(bs, s.body);
    case Generic(_) => NothingAt(bs, s.body);
  }

  lemma NothingAt(bs: seq<Byte>, b: Body)
    requires 8 <= |bs| && (b.UserData? || b.Generic?)
    ensures FieldsAt(bs, 8, BodyFields(b)) <==> BodyAt(bs, b)
  {}

  lemma FixedWidths(s: Section)
    requires RightID(s)
    ensures 8 + Widths(BodyKinds(s.header.id)) == FixedLength(s.body)
  {
    hide Widths, BodyKinds;
    KindsOfSRC();
    match s.body
    case PrivateHeader(_, _, _, _, _, _, _, _, _, _) => B.WidthsOfPrivateHeader();
    case UserHeader(_, _, _, _, _, _, _, _, _) => B.WidthsOfUserHeader();
    case SRC(_, _, _, _, _, _, _, _, _) => B.WidthsOfSRC();
    case ExtendedUserHeader(_, _, _, _, _, _, _, _, _, _) => B.WidthsOfExtendedUserHeader();
    case FailingMTMS(_, _) => B.WidthsOfMTMS();
    case ExtendedUserData(_, _, _, _) => WidthsOfExtendedUserData();
    case UserData(_) => NoKinds(s.header.id);
    case Generic(_) => NoKinds(s.header.id);
  }

  lemma KindsOfSRC()
    ensures BodyKinds(PRIMARY_SRC) == BodyKinds(SECONDARY_SRC)
  {}

  predicate NoFixedFields(id: Word) {
    id !in {PRIVATE_HEADER, USER_HEADER, PRIMARY_SRC, SECONDARY_SRC, EXTENDED_USER_HEADER, FAILING_MTMS, EXT_USER_DATA}
  }

  lemma NoKinds(id: Word)
    requires NoFixedFields(id)
    ensures Widths(BodyKinds(id)) == 0
  {}

  lemma WidthsOfExtendedUserData()
    ensures Widths(BodyKinds(EXT_USER_DATA)) == 4
  {
    hide Widths;
    assert [U8, U8, U16] == [U8] + [U8, U16];
    B.OneMoreWidth(U8, [U8, U16]);
    B.TwoWidths(U8, U16);
  }

  // ---------------------------------------------------------------------- printing

  lemma LettersInFront(bs: seq<Byte>, s: Section)
    requires 8 <= |bs| && Two(bs, 0) == s.header.id
    ensures RightID(s) <==> LettersOf(bs[0], bs[1], s.body)
  {}

  lemma TrailerIsBehind(b: Body)
    ensures Trailer(b) == Behind(b)
  {
    hide C.FlattenCallouts;
  }

  /** The right ID and fields of the right widths, readable or not. */
  ghost predicate Shaped(s: Section) {
    Printable(s) && RightID(s) && OfKinds(BodyFields(s.body), BodyKinds(s.header.id))
  }

  lemma WellFormedShaped(s: Section)
    requires WellFormed(s)
    ensures Shaped(s)
  {}

  /** The bytes of a section are the ones with its two letters and every field at its
      place, and no others. */
  lemma FlattenIsLayout(bs: seq<Byte>, s: Section)
    requires Shaped(s)
    ensures bs == Flatten(s) <==> LaidOut(bs, s)
    ensures bs == Flatten(s) ==> LettersOf(bs[0], bs[1], s.body)
  {
    hide BodyAt, FieldsAt, BodyFields, BodyKinds, PrintFields, RightTail, RightID, Validates, OfKinds, HeaderAt, HeaderFields;
    hide Behind, Trailer, LettersOf, Widths, Two;
    var hs, fs := HeaderFields(s.header), BodyFields(s.body);
    var n := FixedLength(s.body);
    HeaderWidths(s.header);
    FieldsRoundTrip(fs, BodyKinds(s.header.id), []);
    FixedWidths(s);
    TrailerIsBehind(s.body);
    if n <= |bs| {
      FieldsAtIff(bs, 0, hs);
      FieldsAtIff(bs, 8, fs);
      HeaderAtIff(bs, s.header);
      FieldsAtIffBodyAt(bs, s);
      assert bs == bs[..8] + (bs[8..n] + bs[n..]);
      FrontAndBack(PrintFields(hs), PrintFields(fs) + Trailer(s.body));
      FrontAndBack(PrintFields(fs), Trailer(s.body));
      ThreeParts(bs, 8, n, PrintFields(hs), PrintFields(fs), Trailer(s.body));
      if HeaderAt(bs, s.header) { HeaderHasID(bs, s.header); LettersInFront(bs, s); }
    } else {
      BodyAtInside(bs, s.body);
    }
  }

  lemma HeaderHasID(bs: seq<Byte>, h: Header)
    requires HeaderAt(bs, h)
    ensures 8 <= |bs| && Two(bs, 0) == h.id
  {}

  lemma BodyAtInside(bs: seq<Byte>, b: Body)
    requires b.SRC? ==> |b.hexData| == 8
    ensures BodyAt(bs, b) ==> FixedLength(b) <= |bs|
  {}

  lemma ThreeParts(bs: seq<Byte>, m: nat, n: nat, a: seq<Byte>, b: seq<Byte>, c: seq<Byte>)
    requires m <= n <= |bs| && |a| == m && |b| == n - m
    ensures bs == a + (b + c) <==> bs[..m] == a && bs[m..n] == b && bs[n..] == c
  {
    assert bs == bs[..m] + (bs[m..n] + bs[n..]);
    if bs == a + (b + c) {
      assert bs[m..] == b + c;
      assert bs[m..n] == bs[m..][..n - m] && bs[n..] == bs[m..][n - m..];
    }
  }

  // ----------------------------------------------------------------------- reading

  function HeaderOf(bs: seq<Byte>): Header
    requires 8 <= |bs|
  {
    Header(Two(bs, 0), Two(bs, 2), bs[4], bs[5], Two(bs, 6))
  }

  function SRCOf(bs: seq<Byte>, callouts: Option<C.Callouts>): Body
    requires 80 <= |bs|
  {
    SRC(bs[8], bs[9], bs[10], bs[11], Two(bs, 12), Two(bs, 14),
        [Four(bs, 16), Four(bs, 20), Four(bs, 24), Four(bs, 28), Four(bs, 32), Four(bs, 36), Four(bs, 40), Four(bs, 44)],
        bs[48..80], callouts)
  }

  /** The section that bytes hold, each field picked by its index: what the first two letters
      call for, provided the bytes reach that far, the version is right, a private header
      counts at least itself and the user header, and data is not empty. */
  function BodyByIndex(bs: seq<Byte>): Result<Read<Body>>
    requires 8 <= |bs|
  {
    var size := Two(bs, 2);
    if bs[..2] == [0x50, 0x48] then
      if |bs| < 48 || bs[4] != 1 || bs[27] < 2 then Thrown
      else
        Ok(Read(PrivateHeader(bs[8..16], bs[16..24], bs[24], bs[25], bs[26], bs[27], Four(bs, 28), bs[32..40],
                              Four(bs, 40), Four(bs, 44)), bs[48..]))
    else if bs[..2] == [0x55, 0x48] then
      if |bs| < 24 || bs[4] != 1 then Thrown
      else
        Ok(Read(UserHeader(bs[8], bs[9], bs[10], bs[11], Four(bs, 12), bs[16], bs[17], Two(bs, 18), Four(bs, 20)), bs[24..]))
    else if bs[..2] == [0x50, 0x53] || bs[..2] == [0x53, 0x53] then
      if |bs| < 80 || bs[8] != 2 then Thrown
      else if bs[9] % 2 == 0 then Ok(Read(SRCOf(bs, None), bs[80..]))
      else
        match C.ParseCallouts(bs[80..])
        case Thrown => Thrown
        case Ok(Read(callouts, rest)) => Ok(Read(SRCOf(bs, Some(callouts)), rest))
    else if bs[..2] == [0x45, 0x48] then
      if |bs| < 76 || |bs| < 76 + bs[75] as int || bs[4] != 1 then Thrown
      else
        var end := 76 + bs[75] as int;
        Ok(Read(ExtendedUserHeader(bs[8..16], bs[16..28], bs[28..44], bs[44..60], Four(bs, 60), bs[64..72], bs[72], bs[73],
                                   bs[74], bs[76..end]), bs[end..]))
    else if bs[..2] == [0x4D, 0x54] then
      if |bs| < 28 || bs[4] != 1 then Thrown
      else Ok(Read(FailingMTMS(bs[8..16], bs[16..28]), bs[28..]))
    else if bs[..2] == [0x45, 0x44] then
      if size <= 12 || |bs| < size then Thrown
      else Ok(Read(ExtendedUserData(bs[8], bs[9], Two(bs, 10), bs[12..size]), bs[size..]))
    else if size <= 8 || |bs| < size then Thrown
    else Ok(Read(if bs[..2] == [0x55, 0x44] then UserData(bs[8..size]) else Generic(bs[8..size]), bs[size..]))
  }

  function ReadByIndex(bs: seq<Byte>): Result<Read<Section>> {
    if |bs| < 8 then Thrown else WithHeader(HeaderOf(bs), BodyByIndex(bs))
  }

  function WithHeader(h: Header, body: Result<Read<Body>>): Result<Read<Section>> {
    match body
    case Thrown => Thrown
    case Ok(Read(b, rest)) => Ok(Read(Section(h, b), rest))
  }

  lemma {:induction false} EnoughFor(bs: seq<Byte>, ks: seq<Kind>)
    ensures ParseFields(bs, ks).Ok? <==> Widths(ks) <= |bs|
    decreases ks
  {
    hide FieldOf, Width;
    if ks != [] && Width(ks[0]) <= |bs| {
      EnoughFor(bs[Width(ks[0])..], ks[1..]);
    }
  }

  /** The fields read from the front are the ones at their places there. */
  lemma FieldsRead(bs: seq<Byte>, o: nat, ks: seq<Kind>)
    requires o + Widths(ks) <= |bs|
    ensures var r := ParseFields(bs[o..], ks);
      && r.Ok? && FieldsAt(bs, o, r.value.value) && OfKinds(r.value.value, ks) && r.value.rest == bs[o + Widths(ks)..]
  {
    hide FieldsAt, PrintFields, ParseFields, Widths, OfKinds;
    EnoughFor(bs[o..], ks);
    var r := ParseFields(bs[o..], ks).value;
    BytesRoundTrip(bs[o..], ks);
    assert OfKinds(r.value, ks) by { KindsRead(bs[o..], ks); }
    FieldsRoundTrip(r.value, ks, r.rest);
    FieldsAtIff(bs, o, r.value);
    FrontAndBack(PrintFields(r.value), r.rest);
    assert bs[o..][..Widths(ks)] == bs[o..o + Widths(ks)] && bs[o..][Widths(ks)..] == bs[o + Widths(ks)..];
  }

  lemma KindsRead(bs: seq<Byte>, ks: seq<Kind>)
    requires ParseFields(bs, ks).Ok?
    ensures OfKinds(ParseFields(bs, ks).value.value, ks)
  {}

  lemma HeaderRead(bs: seq<Byte>)
    requires 8 <= |bs|
    ensures var r := ParseFields(bs, HEADER_KINDS);
      r.Ok? && ToHeader(r.value.value) == HeaderOf(bs) && r.value.rest == bs[8..]
  {
    hide FieldsAt, ParseFields, Widths;
    WidthsOfHeader();
    assert bs[0..] == bs;
    FieldsRead(bs, 0, HEADER_KINDS);
    var hs := ParseFields(bs, HEADER_KINDS).value.value;
    assert HeaderFields(ToHeader(hs)) == hs;
    HeaderAtIff(bs, ToHeader(hs));
  }

  /** What reading a section comes to once the header is read. */
  lemma ParseUnfolds(bs: seq<Byte>) returns (fs: seq<Field>)
    ensures |bs| < 8 ==> Parse(bs) == Thrown
    ensures 8 <= |bs| ==>
      var h := HeaderOf(bs);
      var n := 8 + Widths(BodyKinds(h.id));
      && (|bs| < n ==> Parse(bs) == Thrown)
      && (n <= |bs| ==> OfKinds(fs, BodyKinds(h.id)) && FieldsAt(bs, 8, fs) && Parse(bs) == Complete(h, fs, bs[n..]))
  {
    hide FieldsAt, ParseFields, Widths, BodyKinds, OfKinds, Complete, HeaderOf, ToHeader;
    WidthsOfHeader();
    EnoughFor(bs, HEADER_KINDS);
    fs := [];
    if 8 <= |bs| {
      HeaderRead(bs);
      var h := HeaderOf(bs);
      EnoughFor(bs[8..], BodyKinds(h.id));
      if 8 + Widths(BodyKinds(h.id)) <= |bs| {
        FieldsRead(bs, 8, BodyKinds(h.id));
        fs := ParseFields(bs[8..], BodyKinds(h.id)).value.value;
      }
    }
  }

  /** The two letters are the ID, and the constants are these letters. */
  lemma LettersAreID(bs: seq<Byte>)
    requires 8 <= |bs|
    ensures var id := HeaderOf(bs).id;
      && (bs[..2] == [0x50, 0x48] <==> id == PRIVATE_HEADER) && (bs[..2] == [0x55, 0x48] <==> id == USER_HEADER)
      && (bs[..2] == [0x50, 0x53] <==> id == PRIMARY_SRC) && (bs[..2] == [0x53, 0x53] <==> id == SECONDARY_SRC)
      && (bs[..2] == [0x45, 0x48] <==> id == EXTENDED_USER_HEADER) && (bs[..2] == [0x4D, 0x54] <==> id == FAILING_MTMS)
      && (bs[..2] == [0x55, 0x44] <==> id == USER_DATA) && (bs[..2] == [0x45, 0x44] <==> id == EXT_USER_DATA)
  {
    assert bs[..2] == [bs[0], bs[1]];
  }

  lemma PrivateHeaderRead(bs: seq<Byte>, fs: seq<Field>)
    requires 48 <= |bs| && HeaderOf(bs).id == PRIVATE_HEADER
    requires OfKinds(fs, BodyKinds(PRIVATE_HEADER)) && FieldsAt(bs, 8, fs)
    ensures Complete(HeaderOf(bs), fs, bs[48..]) == WithHeader(HeaderOf(bs), BodyByIndex(bs))
  {
    hide FieldsAt, BodyKinds, BodyFields, OfKinds;
    LettersAreID(bs);
    var b := ToBody(HeaderOf(bs), fs, NoTail);
    FieldsBack(HeaderOf(bs), fs, NoTail);
    PrivateHeaderAt(bs, b);
  }

  lemma UserHeaderRead(bs: seq<Byte>, fs: seq<Field>)
    requires 24 <= |bs| && HeaderOf(bs).id == USER_HEADER
    requires OfKinds(fs, BodyKinds(USER_HEADER)) && FieldsAt(bs, 8, fs)
    ensures Complete(HeaderOf(bs), fs, bs[24..]) == WithHeader(HeaderOf(bs), BodyByIndex(bs))
  {
    hide FieldsAt, BodyKinds, BodyFields, OfKinds;
    LettersAreID(bs);
    var b := ToBody(HeaderOf(bs), fs, NoTail);
    FieldsBack(HeaderOf(bs), fs, NoTail);
    UserHeaderAt(bs, b);
  }

  lemma FailingMTMSRead(bs: seq<Byte>, fs: seq<Field>)
    requires 28 <= |bs| && HeaderOf(bs).id == FAILING_MTMS
    requires OfKinds(fs, BodyKinds(FAILING_MTMS)) && FieldsAt(bs, 8, fs)
    ensures Complete(HeaderOf(bs), fs, bs[28..]) == WithHeader(HeaderOf(bs), BodyByIndex(bs))
  {
    hide FieldsAt, BodyKinds, BodyFields, OfKinds;
    LettersAreID(bs);
    var b := ToBody(HeaderOf(bs), fs, NoTail);
    FieldsBack(HeaderOf(bs), fs, NoTail);
    FailingMTMSAt(bs, b);
  }

  lemma SRCFlags(bs: seq<Byte>, fs: seq<Field>)
    requires 80 <= |bs| && OfKinds(fs, BodyKinds(PRIMARY_SRC)) && FieldsAt(bs, 8, fs)
    ensures fs[0].F8? && fs[1].F8? && fs[0].b == bs[8] && fs[1].b == bs[9]
  {
    hide FieldsAt;
    assert fs == [fs[0], fs[1], fs[2], fs[3]] + fs[4..];
    FourAt(bs, 8, fs[0], fs[1], fs[2], fs[3], fs[4..]);
  }

  lemma SRCRead(bs: seq<Byte>, fs: seq<Field>)
    requires 80 <= |bs| && IsSRC(HeaderOf(bs).id)
    requires OfKinds(fs, BodyKinds(PRIMARY_SRC)) && FieldsAt(bs, 8, fs)
    ensures OfKinds(fs, BodyKinds(HeaderOf(bs).id))
    ensures Complete(HeaderOf(bs), fs, bs[80..]) == WithHeader(HeaderOf(bs), BodyByIndex(bs))
  {
    hide FieldsAt, BodyKinds, OfKinds, ToBody, C.ParseCallouts;
    KindsOfSRC();
    SRCFlags(bs, fs);
    LettersAreID(bs);
    if bs[9] % 2 == 0 {
      SRCFields(bs, fs, NoTail);
    } else if C.ParseCallouts(bs[80..]).Ok? {
      SRCFields(bs, fs, CalloutTail(C.ParseCallouts(bs[80..]).value.value));
    }
  }

  lemma SRCFields(bs: seq<Byte>, fs: seq<Field>, tail: Tail)
    requires 80 <= |bs| && IsSRC(HeaderOf(bs).id)
    requires OfKinds(fs, BodyKinds(HeaderOf(bs).id)) && FieldsAt(bs, 8, fs) && TailFits(HeaderOf(bs), fs, tail)
    ensures ToBody(HeaderOf(bs), fs, tail) == SRCOf(bs, if tail.CalloutTail? then Some(tail.callouts) else None)
  {
    hide FieldsAt, BodyKinds, BodyFields, OfKinds;
    KindsOfSRC();
    var b := ToBody(HeaderOf(bs), fs, tail);
    FieldsBack(HeaderOf(bs), fs, tail);
    SRCAt(bs, b);
  }

  lemma ExtendedUserHeaderRead(bs: seq<Byte>, fs: seq<Field>)
    requires 76 <= |bs| && HeaderOf(bs).id == EXTENDED_USER_HEADER
    requires OfKinds(fs, BodyKinds(EXTENDED_USER_HEADER)) && FieldsAt(bs, 8, fs)
    ensures Complete(HeaderOf(bs), fs, bs[76..]) == WithHeader(HeaderOf(bs), BodyByIndex(bs))
  {
    hide FieldsAt, BodyKinds, OfKinds, ToBody;
    LettersAreID(bs);
    SymptomSize(bs, fs);
    var n: nat := bs[75];
    if 76 + n <= |bs| {
      assert bs[76..][..n] == bs[76..76 + n] && bs[76..][n..] == bs[76 + n..];
      ExtendedUserHeaderFields(bs, fs, bs[76..76 + n]);
    }
  }

  lemma SymptomSize(bs: seq<Byte>, fs: seq<Field>)
    requires 76 <= |bs| && OfKinds(fs, BodyKinds(EXTENDED_USER_HEADER)) && FieldsAt(bs, 8, fs)
    ensures fs[9].F8? && fs[9].b == bs[75]
  {
    hide FieldsAt;
    assert fs == [fs[0], fs[1], fs[2], fs[3]] + fs[4..];
    FourAt(bs, 8, fs[0], fs[1], fs[2], fs[3], fs[4..]);
    LastOfExtendedUserHeader(bs, fs[4].l, fs[5].bytes, fs[6].b, fs[7].b, fs[8].b, fs[9].b, fs[4..]);
  }

  lemma ExtendedUserHeaderFields(bs: seq<Byte>, fs: seq<Field>, symptomID: seq<Byte>)
    requires 76 <= |bs| && HeaderOf(bs).id == EXTENDED_USER_HEADER
    requires OfKinds(fs, BodyKinds(HeaderOf(bs).id)) && FieldsAt(bs, 8, fs)
    requires fs[9].F8? && fs[9].b == |symptomID|
    ensures ToBody(HeaderOf(bs), fs, Data(symptomID))
         == ExtendedUserHeader(bs[8..16], bs[16..28], bs[28..44], bs[44..60], Four(bs, 60), bs[64..72], bs[72], bs[73], bs[74],
                               symptomID)
  {
    hide FieldsAt, BodyKinds, BodyFields, OfKinds;
    var b := ToBody(HeaderOf(bs), fs, Data(symptomID));
    FieldsBack(HeaderOf(bs), fs, Data(symptomID));
    ExtendedUserHeaderAt(bs, b);
  }

  lemma ExtendedUserDataRead(bs: seq<Byte>, fs: seq<Field>)
    requires 12 <= |bs| && HeaderOf(bs).id == EXT_USER_DATA
    requires OfKinds(fs, BodyKinds(EXT_USER_DATA)) && FieldsAt(bs, 8, fs)
    ensures Complete(HeaderOf(bs), fs, bs[12..]) == WithHeader(HeaderOf(bs), BodyByIndex(bs))
  {
    hide FieldsAt, BodyKinds, OfKinds, ToBody;
    LettersAreID(bs);
    var size: nat := Two(bs, 2);
    if 12 < size <= |bs| {
      assert bs[12..][..size - 12] == bs[12..size] && bs[12..][size - 12..] == bs[size..];
      ExtendedUserDataFields(bs, fs, bs[12..size]);
    }
  }

  lemma ExtendedUserDataFields(bs: seq<Byte>, fs: seq<Field>, data: seq<Byte>)
    requires 12 <= |bs| && HeaderOf(bs).id == EXT_USER_DATA
    requires OfKinds(fs, BodyKinds(HeaderOf(bs).id)) && FieldsAt(bs, 8, fs)
    ensures ToBody(HeaderOf(bs), fs, Data(data)) == ExtendedUserData(bs[8], bs[9], Two(bs, 10), data)
  {
    hide FieldsAt, BodyKinds, BodyFields, OfKinds;
    var b := ToBody(HeaderOf(bs), fs, Data(data));
    FieldsBack(HeaderOf(bs), fs, Data(data));
    ExtendedUserDataAt(bs, b);
  }

  lemma DataRead(bs: seq<Byte>, fs: seq<Field>)
    requires 8 <= |bs| && NoFixedFields(HeaderOf(bs).id) && OfKinds(fs, BodyKinds(HeaderOf(bs).id))
    ensures Complete(HeaderOf(bs), fs, bs[8..]) == WithHeader(HeaderOf(bs), BodyByIndex(bs))
  {
    LettersAreID(bs);
    var size: nat := Two(bs, 2);
    if 8 < size <= |bs| {
      assert bs[8..][..size - 8] == bs[8..size] && bs[8..][size - 8..] == bs[size..];
    }
  }

  lemma TooShort(bs: seq<Byte>)
    requires 8 <= |bs| < 8 + Widths(BodyKinds(HeaderOf(bs).id))
    ensures BodyByIndex(bs) == Thrown
  {
    hide Widths, BodyKinds;
    LettersAreID(bs);
    KindsOfSRC();
    B.WidthsOfPrivateHeader();
    B.WidthsOfUserHeader();
    B.WidthsOfSRC();
    B.WidthsOfExtendedUserHeader();
    B.WidthsOfMTMS();
    WidthsOfExtendedUserData();
    if NoFixedFields(HeaderOf(bs).id) { NoKinds(HeaderOf(bs).id); }
  }

  /** Reading a section is reading it by index: the same section from the same bytes, and the
      same bytes refused. */
  lemma ParseIsByIndex(bs: seq<Byte>)
    ensures Parse(bs) == ReadByIndex(bs)
  {
    hide Widths, BodyKinds, BodyByIndex, Complete, FieldsAt, OfKinds, HeaderOf, Parse;
    var fs := ParseUnfolds(bs);
    if 8 <= |bs| {
      var id := HeaderOf(bs).id;
      if |bs| < 8 + Widths(BodyKinds(id)) {
        TooShort(bs);
      } else {
        AnyRead(bs, fs);
      }
    }
  }

  lemma AnyRead(bs: seq<Byte>, fs: seq<Field>)
    requires 8 <= |bs| && 8 + Widths(BodyKinds(HeaderOf(bs).id)) <= |bs|
    requires OfKinds(fs, BodyKinds(HeaderOf(bs).id)) && FieldsAt(bs, 8, fs)
    ensures var h := HeaderOf(bs);
      Complete(h, fs, bs[8 + Widths(BodyKinds(h.id))..]) == WithHeader(h, BodyByIndex(bs))
  {
    hide Widths, BodyKinds, BodyByIndex, Complete, FieldsAt, OfKinds, HeaderOf;
    var id := HeaderOf(bs).id;
    KindsOfSRC();
    if id == PRIVATE_HEADER {
      B.WidthsOfPrivateHeader();
      PrivateHeaderRead(bs, fs);
    } else if id == USER_HEADER {
      B.WidthsOfUserHeader();
      UserHeaderRead(bs, fs);
    } else if IsSRC(id) {
      B.WidthsOfSRC();
      SRCRead(bs, fs);
    } else if id == EXTENDED_USER_HEADER {
      B.WidthsOfExtendedUserHeader();
      ExtendedUserHeaderRead(bs, fs);
    } else if id == FAILING_MTMS {
      B.WidthsOfMTMS();
      FailingMTMSRead(bs, fs);
    } else if id == EXT_USER_DATA {
      WidthsOfExtendedUserData();
      ExtendedUserDataRead(bs, fs);
    } else {
      NoKinds(id);
      DataRead(bs, fs);
    }
  }

  // ----------------------------------------------------------------- the whole PEL

  /** A printed PEL: the private header in the first 48 bytes, with "PH" in front, the user
      header in the next 24, with "UH" in front, the section count in byte 27, and the
      other sections one after the other behind them. */
  lemma PelLaidOut(p: Pel)
    requires WellFormedPel(p)
    ensures PrintableAll(All(p)) && PrintableAll(p.optional)
    ensures var bs := FlattenPel(p);
      && 72 <= |bs| && LaidOut(bs[..48], p.ph) && LaidOut(bs[48..72], p.uh) && bs[72..] == FlattenSections(p.optional)
      && bs[0] == 0x50 && bs[1] == 0x48 && bs[48] == 0x55 && bs[49] == 0x48 && bs[27] as int == 2 + |p.optional|
  {
    hide WellFormed, Flatten, FlattenSections;
    AllSplit(p);
    WellFormedShaped(p.ph);
    WellFormedShaped(p.uh);
    var bs, ph, uh := FlattenPel(p), Flatten(p.ph), Flatten(p.uh);
    FlattenIsLayout(ph, p.ph);
    FlattenIsLayout(uh, p.uh);
    assert |ph| == 48 && |uh| == 24;
    assert bs[..48] == ph && bs[48..] == uh + FlattenSections(p.optional);
    assert bs[48..72] == uh && bs[72..] == FlattenSections(p.optional);
    assert bs[..48][0] == bs[0] && bs[..48][1] == bs[1] && bs[..48][27] == bs[27];
    assert bs[48..72][0] == bs[48] && bs[48..72][1] == bs[49];
  }

  lemma {:induction false} FrontOfSections(ss: seq<Section>, k: nat)
    requires PrintableAll(ss) && k < |ss|
    ensures PrintableAll(ss[..k]) && PrintableAll(ss[k + 1..]) && Printable(ss[k])
    ensures FlattenSections(ss) == FlattenSections(ss[..k]) + (Flatten(ss[k]) + FlattenSections(ss[k + 1..]))
  {
    hide Flatten, Printable;
    assert ss[0] in ss;
    assert forall s | s in ss[1..] :: s in ss;
    if k == 0 {
      assert ss[..0] == [];
    } else {
      FrontOfSections(ss[1..], k - 1);
      assert ss[..k] == [ss[0]] + ss[1..][..k - 1] && ss[1..][k..] == ss[k + 1..] && ss[1..][k - 1] == ss[k];
      FirstPrints(ss[0], ss[1..][..k - 1]);
      Assoc(Flatten(ss[0]), FlattenSections(ss[1..][..k - 1]), Flatten(ss[k]) + FlattenSections(ss[k + 1..]));
    }
  }

  /** Each further section, right behind the ones in front of it. */
  lemma SectionsLaidOut(ss: seq<Section>, k: nat)
    requires AllWellFormed(ss) && k < |ss|
    ensures Printable(ss[k]) && PrintableAll(ss) && PrintableAll(ss[..k])
    ensures var bs, o, n := FlattenSections(ss), |FlattenSections(ss[..k])|, |Flatten(ss[k])|;
      && 2 <= n && o + n <= |bs| && LaidOut(bs[o..o + n], ss[k]) && LettersOf(bs[o], bs[o + 1], ss[k].body)
  {
    hide Flatten, WellFormed, FlattenSections, HeaderAt, BodyAt, LettersOf, Behind, PrintableAll;
    WellFormedPrints(ss);
    WellFormedShaped(ss[k]);
    FrontOfSections(ss, k);
    var bs, o, n := FlattenSections(ss), |FlattenSections(ss[..k])|, |Flatten(ss[k])|;
    FrontAndBack(FlattenSections(ss[..k]), Flatten(ss[k]) + FlattenSections(ss[k + 1..]));
    FrontAndBack(Flatten(ss[k]), FlattenSections(ss[k + 1..]));
    assert bs[o..o + n] == bs[o..][..n] == Flatten(ss[k]);
    FlattenIsLayout(Flatten(ss[k]), ss[k]);
    HeaderInside(Flatten(ss[k]), ss[k].header);
    assert bs[o..o + n][0] == bs[o] && bs[o..o + n][1] == bs[o + 1];
  }

  lemma HeaderInside(bs: seq<Byte>, h: Header)
    ensures HeaderAt(bs, h) ==> 8 <= |bs|
  {}

  /** The bytes of both headers, good enough to go on to the other sections. */
  predicate HeadersGood(bs: seq<Byte>) {
    && 72 <= |bs| && bs[..2] == [0x50, 0x48] && bs[4] == 1 && bs[27] >= 2
    && bs[48..50] == [0x55, 0x48] && bs[52] == 1
  }

  /** The header sections, each field picked by its index among the bytes of the PEL. */
  predicate HeadersByIndex(bs: seq<Byte>, p: Pel)
    requires 72 <= |bs|
  {
    && p.ph.header == HeaderOf(bs) && p.uh.header == HeaderOf(bs[48..])
    && p.ph.body == PrivateHeader(bs[8..16], bs[16..24], bs[24], bs[25], bs[26], bs[27], Four(bs, 28), bs[32..40],
                                  Four(bs, 40), Four(bs, 44))
    && p.uh.body == UserHeader(bs[56], bs[57], bs[58], bs[59], Four(bs, 60), bs[64], bs[65], Two(bs, 66), Four(bs, 68))
  }

  lemma PrivateHeaderIff(bs: seq<Byte>)
    ensures Parse(bs).Ok? && Parse(bs).value.value.body.PrivateHeader?
       <==> 48 <= |bs| && bs[..2] == [0x50, 0x48] && bs[4] == 1 && bs[27] >= 2
    ensures Parse(bs).Ok? && Parse(bs).value.value.body.PrivateHeader? ==>
      var r := Parse(bs).value;
      && r.value.header == HeaderOf(bs) && r.rest == bs[48..]
      && r.value.body == PrivateHeader(bs[8..16], bs[16..24], bs[24], bs[25], bs[26], bs[27], Four(bs, 28), bs[32..40],
                                       Four(bs, 40), Four(bs, 44))
  {
    hide Parse, HeaderOf, C.ParseCallouts;
    ParseIsByIndex(bs);
  }

  lemma UserHeaderIff(bs: seq<Byte>)
    ensures Parse(bs).Ok? && Parse(bs).value.value.body.UserHeader?
       <==> 24 <= |bs| && bs[..2] == [0x55, 0x48] && bs[4] == 1
    ensures Parse(bs).Ok? && Parse(bs).value.value.body.UserHeader? ==>
      var r := Parse(bs).value;
      && r.value.header == HeaderOf(bs) && r.rest == bs[24..]
      && r.value.body == UserHeader(bs[8], bs[9], bs[10], bs[11], Four(bs, 12), bs[16], bs[17], Two(bs, 18), Four(bs, 20))
  {
    hide Parse, HeaderOf, C.ParseCallouts;
    ParseIsByIndex(bs);
  }

  /** A PEL is read from bytes exactly when both headers are good there and as many sections
      as byte 27 says can be read behind them; its header fields are the bytes at their
      places. */
  lemma PelReadByIndex(bs: seq<Byte>)
    ensures ParsePel(bs).Ok? <==> HeadersGood(bs) && ParseSections(bs[72..], bs[27] - 2).Ok?
    ensures ParsePel(bs).Ok? ==>
      var p, r := ParsePel(bs).value.value, ParseSections(bs[72..], bs[27] - 2).value;
      HeadersByIndex(bs, p) && p.optional == r.value && ParsePel(bs).value.rest == r.rest
  {
    hide Parse, ParseSections;
    PrivateHeaderIff(bs);
    if 48 <= |bs| {
      UserHeaderIff(bs[48..]);
      if 72 <= |bs| {
        assert bs[48..][24..] == bs[72..] && bs[48..][..2] == bs[48..50];
        ShiftedTwo(bs, 18);
        ShiftedFour(bs, 12);
        ShiftedFour(bs, 20);
      }
    }
  }

  lemma ShiftedTwo(bs: seq<Byte>, o: nat)
    requires 48 + o + 2 <= |bs|
    ensures Two(bs[48..], o) == Two(bs, 48 + o)
  {}

  lemma ShiftedFour(bs: seq<Byte>, o: nat)
    requires 48 + o + 4 <= |bs|
    ensures Four(bs[48..], o) == Four(bs, 48 + o)
  {}
}
