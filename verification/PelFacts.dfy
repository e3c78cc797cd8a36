/** What a PEL built by the BMC says, byte by byte: every fact of the event log in its own
    place, and the user data behind them. */
module PelFacts {
  import opened Wrappers
  import opened Bytes
  import opened PelFields
  import opened Sections
  import opened PelFormat
  import opened PelGrowth
  import opened PelBuilding
  import opened PelLayout
  import B = CalloutBuilding
  import C = CalloutFormat
  import L = CalloutList

  // ------------------------------------------------------------- what the bytes show

  /** The text from o on in a field of n bytes that takes at most so many of them, and NULs
      in the rest of it. */
  ghost predicate ShowsText(bs: seq<Byte>, o: nat, n: nat, most: nat, text: seq<Byte>) {
    o + n <= |bs| && forall i | 0 <= i < n :: bs[o + i] == if i < |text| && i < most then text[i] else 0
  }

  ghost predicate Zeroed(bs: seq<Byte>, from: nat, to: nat) {
    from <= to <= |bs| && forall i | from <= i < to :: bs[i] == 0
  }

  predicate Begins(bs: seq<Byte>, a: Byte, b: Byte, size: nat, version: Byte, subType: Byte, componentID: Word) {
    && 8 <= |bs| && bs[0] == a && bs[1] == b && Two(bs, 2) == size && bs[4] == version && bs[5] == subType
    && Two(bs, 6) == componentID
  }

  /** "PH", both times in this order, the creator 'O', the count, the log ID and the PEL ID
      twice. */
  ghost predicate PrivateHeaderShows(bs: seq<Byte>, f: Facts, count: int) {
    && |bs| == 48 && Begins(bs, 0x50, 0x48, 48, 1, 0, f.componentID)
    && bs[8..16] == f.created && bs[16..24] == f.committed && bs[24] as char == 'O' && Zeroed(bs, 25, 27)
    && bs[27] == count && Four(bs, 28) == f.obmcLogID && Zeroed(bs, 32, 40)
    && Four(bs, 40) == f.pelID && Four(bs, 44) == f.pelID
  }

  /** "UH", subsystem, scope, severity, event type and action flags. */
  ghost predicate UserHeaderShows(bs: seq<Byte>, f: Facts) {
    && |bs| == 24 && Begins(bs, 0x55, 0x48, 24, 1, 0, 0x2000)
    && bs[8] == f.subsystem && bs[9] == f.scope && bs[10] == f.severity && bs[11] == f.eventType && Zeroed(bs, 12, 18)
    && Two(bs, 18) == f.actionFlags && Zeroed(bs, 20, 24)
  }

  /** "PS", the eight hex words, the ASCII string and the callouts, whose presence bit 0 of
      the flags tells. */
  ghost predicate SRCShows(bs: seq<Byte>, f: Facts, callouts: seq<Byte>) {
    && |f.hexData| == 8 && |bs| == 80 + |callouts| && Begins(bs, 0x50, 0x53, |bs|, 1, 1, f.componentID)
    && bs[8] == 2 && bs[9] == (if f.callouts.Some? then 1 else 0) && bs[10] == 0 && bs[11] == 9 && Zeroed(bs, 12, 14)
    && Two(bs, 14) == |bs| - 8
    && Four(bs, 16) == f.hexData[0] && Four(bs, 20) == f.hexData[1] && Four(bs, 24) == f.hexData[2]
    && Four(bs, 28) == f.hexData[3] && Four(bs, 32) == f.hexData[4] && Four(bs, 36) == f.hexData[5]
    && Four(bs, 40) == f.hexData[6] && Four(bs, 44) == f.hexData[7]
    && bs[48..80] == f.asciiString && bs[80..] == callouts
  }

  /** "EH", machine type, serial number, both firmware versions, each with room for its NUL,
      and the symptom ID with its length. */
  ghost predicate ExtendedUserHeaderShows(bs: seq<Byte>, f: Facts, n: nat) {
    && |bs| == 76 + n && Begins(bs, 0x45, 0x48, |bs|, 1, 0, 0x2000)
    && ShowsText(bs, 8, 8, 8, f.machineType) && ShowsText(bs, 16, 12, 12, f.serialNumber)
    && ShowsText(bs, 28, 16, 15, f.serverFW) && ShowsText(bs, 44, 16, 15, f.bmcFW)
    && Zeroed(bs, 60, 75) && bs[75] == n && ShowsText(bs, 76, n, 79, f.symptom)
  }

  /** "MT", machine type and serial number again. */
  ghost predicate FailingMTMSShows(bs: seq<Byte>, f: Facts) {
    && |bs| == 28 && Begins(bs, 0x4D, 0x54, 28, 1, 0, 0x2000)
    && ShowsText(bs, 8, 8, 8, f.machineType) && ShowsText(bs, 16, 12, 12, f.serialNumber)
  }

  // -------------------------------------------------------------------- each section

  lemma FilledShows(bs: seq<Byte>, o: nat, n: nat, text: seq<Byte>)
    requires o + n <= |bs| && bs[o..o + n] == B.Filled(text, n)
    ensures ShowsText(bs, o, n, n, text)
  {
    forall i | 0 <= i < n ensures bs[o + i] == if i < |text| then text[i] else 0 {
      assert bs[o..o + n][i] == bs[o + i];
    }
  }

  lemma VersionShows(bs: seq<Byte>, o: nat, text: seq<Byte>)
    requires o + 16 <= |bs| && bs[o..o + 16] == VersionField(text)
    ensures ShowsText(bs, o, 16, 15, text)
  {
    FilledShows(bs, o, 16, B.Upto(text, 15));
  }

  /** The length of a symptom ID: at most 79 characters, a NUL, and NULs up to a whole word. */
  function SymptomLength(text: seq<Byte>): nat {
    if |text| >= 79 then 80 else (|text| / 4 + 1) * 4
  }

  lemma SymptomShows(bs: seq<Byte>, o: nat, text: seq<Byte>)
    requires o <= |bs| && bs[o..] == SymptomField(text)
    ensures |bs| == o + SymptomLength(text) && ShowsText(bs, o, SymptomLength(text), 79, text)
  {
    var field := SymptomField(text);
    assert |field| == SymptomLength(text);
    forall i | 0 <= i < |field| ensures bs[o + i] == if i < |text| && i < 79 then text[i] else 0 {
      assert bs[o..][i] == bs[o + i];
    }
  }

  lemma FourZeros(bs: seq<Byte>, o: nat)
    requires o + 4 <= |bs| && Four(bs, o) == 0
    ensures Zeroed(bs, o, o + 4)
  {}

  lemma ZerosShow(bs: seq<Byte>, o: nat, n: nat)
    requires o + n <= |bs| && bs[o..o + n] == B.Zeros(n)
    ensures Zeroed(bs, o, o + n)
  {
    forall i | o <= i < o + n ensures bs[i] == 0 {
      assert bs[o..o + n][i - o] == bs[i];
    }
  }

  lemma ShownPrivateHeader(f: Facts, count: Byte)
    requires Proper(f)
    ensures var ph := WithCount(StartPel(f), count).ph; Shaped(ph) && PrivateHeaderShows(Flatten(ph), f, count)
  {
    hide L.Inv, Flatten, BodyFields, OfKinds, NewSRC, NewExtendedUserHeader, NewUserHeader, NewFailingMTMS;
    var ph := WithCount(StartPel(f), count).ph;
    PrivateHeaderKinds(f, count);
    var bs := Flatten(ph);
    FlattenIsLayout(bs, ph);
    ZerosShow(bs, 32, 8);
  }

  lemma ShownUserHeader(f: Facts)
    ensures Shaped(NewUserHeader(f)) && UserHeaderShows(Flatten(NewUserHeader(f)), f)
  {
    hide Flatten, Widths;
    var uh := NewUserHeader(f);
    assert Shaped(uh);
    hide BodyFields, OfKinds;
    var bs := Flatten(uh);
    FlattenIsLayout(bs, uh);
    FourZeros(bs, 12);
    FourZeros(bs, 20);
  }

  lemma ShownFailingMTMS(f: Facts)
    ensures Shaped(NewFailingMTMS(f)) && FailingMTMSShows(Flatten(NewFailingMTMS(f)), f)
  {
    hide Flatten, Widths;
    var mt := NewFailingMTMS(f);
    assert Shaped(mt);
    hide BodyFields, OfKinds;
    var bs := Flatten(mt);
    FlattenIsLayout(bs, mt);
    FilledShows(bs, 8, 8, f.machineType);
    FilledShows(bs, 16, 12, f.serialNumber);
  }

  lemma ShapedExtendedUserHeader(f: Facts)
    ensures Shaped(NewExtendedUserHeader(f)) && Printable(NewExtendedUserHeader(f))
  {
    hide SymptomField;
  }

  /** The pieces of an extended user header. */
  ghost predicate ExtendedPieces(bs: seq<Byte>, f: Facts, n: nat) {
    && 76 <= |bs| && Begins(bs, 0x45, 0x48, (76 + n) % 0x1_0000, 1, 0, 0x2000)
    && bs[8..16] == B.Filled(f.machineType, 8) && bs[16..28] == B.Filled(f.serialNumber, 12)
    && bs[28..44] == VersionField(f.serverFW) && bs[44..60] == VersionField(f.bmcFW)
    && Four(bs, 60) == 0 && bs[64..72] == B.Zeros(8) && bs[72] == 0 && bs[73] == 0 && bs[74] == 0
    && bs[75] as int == n % 256 && bs[76..] == SymptomField(f.symptom)
  }

  lemma LaidOutPieces(bs: seq<Byte>, f: Facts)
    requires Printable(NewExtendedUserHeader(f)) && LaidOut(bs, NewExtendedUserHeader(f))
    ensures ExtendedPieces(bs, f, |SymptomField(f.symptom)|)
  {
    hide SymptomField, VersionField;
  }

  lemma ShownExtendedUserHeader(f: Facts)
    ensures Shaped(NewExtendedUserHeader(f))
    ensures ExtendedUserHeaderShows(Flatten(NewExtendedUserHeader(f)), f, SymptomLength(f.symptom))
  {
    hide Flatten, SymptomField, VersionField, Shaped, NewExtendedUserHeader, LaidOut, LettersOf;
    ShapedExtendedUserHeader(f);
    var bs := Flatten(NewExtendedUserHeader(f));
    FlattenIsLayout(bs, NewExtendedUserHeader(f));
    LaidOutPieces(bs, f);
    SymptomShows(bs, 76, f.symptom);
    FilledShows(bs, 8, 8, f.machineType);
    FilledShows(bs, 16, 12, f.serialNumber);
    VersionShows(bs, 28, f.serverFW);
    VersionShows(bs, 44, f.bmcFW);
    FourZeros(bs, 60);
    ZerosShow(bs, 64, 8);
  }

  /** The bytes of the callouts, none if there are none. */
  function CalloutBytes(f: Facts): seq<Byte> {
    if f.callouts.Some? then C.FlattenCallouts(f.callouts.value) else []
  }

  lemma ShownSRC(f: Facts)
    requires Proper(f)
    ensures Shaped(NewSRC(f)) && SRCShows(Flatten(NewSRC(f)), f, CalloutBytes(f))
  {
    hide L.Inv, Flatten, Widths, C.FlattenCallouts;
    var src := NewSRC(f);
    assert Shaped(src);
    hide BodyFields, OfKinds;
    if f.callouts.Some? { CalloutsFit(f.callouts.value); }
    var bs := Flatten(src);
    FlattenIsLayout(bs, src);
  }

  // --------------------------------------------------------------- the whole PEL

  lemma PrintableShaped(s: Section)
    requires Shaped(s)
    ensures Printable(s)
  {}

  /** The first five sections in front of the others. */
  lemma FiveInFront(p: Pel, more: seq<Section>)
    requires |p.optional| >= 3 && p.optional[3..] == more && PrintableAll(All(p))
    ensures var a, b, c, d, e := p.ph, p.uh, p.optional[0], p.optional[1], p.optional[2];
      && Printable(a) && Printable(b) && Printable(c) && Printable(d) && Printable(e) && PrintableAll(more)
      && FlattenPel(p) == Flatten(a) + (Flatten(b) + (Flatten(c) + (Flatten(d) + (Flatten(e) + FlattenSections(more)))))
  {
    hide Flatten, FlattenSections, Printable;
    var a, b, c, d, e := p.ph, p.uh, p.optional[0], p.optional[1], p.optional[2];
    var four := [b] + ([c] + ([d] + ([e] + more)));
    var three, two, one := [c] + ([d] + ([e] + more)), [d] + ([e] + more), [e] + more;
    assert p.optional == [c, d, e] + more;
    assert All(p) == [a] + four;
    TailPrints(a, four);
    TailPrints(b, three);
    TailPrints(c, two);
    TailPrints(d, one);
    TailPrints(e, more);
    FirstPrints(a, four);
    FirstPrints(b, three);
    FirstPrints(c, two);
    FirstPrints(d, one);
    FirstPrints(e, more);
  }

  /** Where the pieces of a concatenation begin, one behind the other. */
  lemma FivePieces(bs: seq<Byte>, a: seq<Byte>, b: seq<Byte>, c: seq<Byte>, d: seq<Byte>, e: seq<Byte>, rest: seq<Byte>,
                   i: nat, j: nat, k: nat, l: nat, m: nat)
    requires bs == a + (b + (c + (d + (e + rest))))
    requires i == |a| && j == i + |b| && k == j + |c| && l == k + |d| && m == l + |e|
    ensures m <= |bs| && bs[..i] == a && bs[i..j] == b && bs[j..k] == c && bs[k..l] == d && bs[l..m] == e && bs[m..] == rest
  {
    FirstPiece(bs, a, b + (c + (d + (e + rest))), 0);
    FirstPiece(bs, b, c + (d + (e + rest)), i);
    FirstPiece(bs, c, d + (e + rest), j);
    FirstPiece(bs, d, e + rest, k);
    FirstPiece(bs, e, rest, l);
  }

  lemma FirstPiece(bs: seq<Byte>, first: seq<Byte>, behind: seq<Byte>, o: nat)
    requires o <= |bs| && bs[o..] == first + behind
    ensures o + |first| <= |bs| && bs[o..o + |first|] == first && bs[o + |first|..] == behind
  {
    FrontAndBack(first, behind);
    assert bs[o..o + |first|] == bs[o..][..|first|] && bs[o + |first|..] == bs[o..][|first|..];
  }

  /** The bytes of a PEL as built for an event log, whatever is added to it. */
  ghost predicate BuiltShows(bs: seq<Byte>, f: Facts, sections: int) {
    var c, n := |CalloutBytes(f)|, SymptomLength(f.symptom);
    && 256 + c + n <= |bs|
    && PrivateHeaderShows(bs[..48], f, sections % 256)
    && UserHeaderShows(bs[48..72], f)
    && SRCShows(bs[72..152 + c], f, CalloutBytes(f))
    && ExtendedUserHeaderShows(bs[152 + c..228 + c + n], f, n)
    && FailingMTMSShows(bs[228 + c + n..256 + c + n], f)
  }

  /** Every fact of the event log is in its own place in the bytes of the PEL built for it,
      and behind these sections stand the ones that were added. */
  lemma BuiltPelShowsFacts(f: Facts, additions: seq<Addition>)
    requires Proper(f)
    ensures var p := AddAll(StartPel(f), additions);
      && p.ph == StartPel(f).ph && PrintableAll(All(Finish(p)))
      && |p.optional| >= 3 && PrintableAll(p.optional[3..])
      && BuiltShows(FlattenPel(Finish(p)), f, 2 + |p.optional|)
      && FlattenPel(Finish(p))[256 + |CalloutBytes(f)| + SymptomLength(f.symptom)..] == FlattenSections(p.optional[3..])
  {
    hide Flatten, FlattenSections, FlattenPel, L.Inv, PrintableAll, AddAll, StartPel, Finish, BuiltShows, All;
    StartKinds(f);
    BuiltPrints(f, additions);
    FixedInFront(f, additions);
    FiveShow(f, AddAll(StartPel(f), additions));
  }

  lemma BuiltPrints(f: Facts, additions: seq<Addition>)
    requires Proper(f)
    ensures var p := AddAll(StartPel(f), additions);
      p.ph == StartPel(f).ph && p.ph.body.PrivateHeader? && PrintableAll(All(Finish(p)))
  {
    hide L.Inv, AddAll, StartPel, Finish, PrintableAll, All, FlattenPel, ParsePel, NeverWraps, NeverUnreadable, Size;
    StartKinds(f);
    BuiltPelWithinCapAndRoundTrips(f, additions, []);
  }

  /** The five fixed sections stay in front of what is added. */
  ghost predicate FixedFirst(f: Facts, p: Pel) {
    && p.ph == StartPel(f).ph && p.uh == NewUserHeader(f) && 3 <= |p.optional|
    && p.optional[0] == NewSRC(f) && p.optional[1] == NewExtendedUserHeader(f) && p.optional[2] == NewFailingMTMS(f)
  }

  lemma FixedInFront(f: Facts, additions: seq<Addition>)
    requires Proper(f)
    ensures FixedFirst(f, AddAll(StartPel(f), additions))
  {
    hide L.Inv, AddAll, Size, NewSRC, NewUserHeader, NewExtendedUserHeader, NewFailingMTMS, NewPrivateHeader;
    StartSmall(f);
    AddAllAppends(StartPel(f), additions);
  }

  lemma FiveShow(f: Facts, p: Pel)
    requires Proper(f) && FixedFirst(f, p) && p.ph.body.PrivateHeader? && PrintableAll(All(Finish(p)))
    ensures PrintableAll(p.optional[3..])
    ensures BuiltShows(FlattenPel(Finish(p)), f, 2 + |p.optional|)
    ensures FlattenPel(Finish(p))[256 + |CalloutBytes(f)| + SymptomLength(f.symptom)..] == FlattenSections(p.optional[3..])
  {
    hide Flatten, FlattenSections, FlattenPel, L.Inv, PrintableAll, Printable, Shaped, All, NewSRC, NewUserHeader,
      NewExtendedUserHeader, NewFailingMTMS, NewPrivateHeader, CalloutBytes, SymptomLength, BuiltShows, PrivateHeaderShows,
      UserHeaderShows, SRCShows, ExtendedUserHeaderShows, FailingMTMSShows;
    var done, count := Finish(p), (2 + |p.optional|) % 256;
    FiveInFront(done, p.optional[3..]);
    ShownPrivateHeader(f, count);
    ShownUserHeader(f);
    ShownSRC(f);
    ShownExtendedUserHeader(f);
    ShownFailingMTMS(f);
    assert done.ph == WithCount(StartPel(f), count).ph;
    PiecesShow(FlattenPel(done), Flatten(done.ph), Flatten(done.uh), Flatten(done.optional[0]), Flatten(done.optional[1]),
               Flatten(done.optional[2]), FlattenSections(p.optional[3..]), f, 2 + |p.optional|);
  }

  lemma PiecesShow(bs: seq<Byte>, a: seq<Byte>, b: seq<Byte>, c: seq<Byte>, d: seq<Byte>, e: seq<Byte>, rest: seq<Byte>,
                   f: Facts, sections: int)
    requires bs == a + (b + (c + (d + (e + rest))))
    requires PrivateHeaderShows(a, f, sections % 256) && UserHeaderShows(b, f) && SRCShows(c, f, CalloutBytes(f))
    requires ExtendedUserHeaderShows(d, f, SymptomLength(f.symptom)) && FailingMTMSShows(e, f)
    ensures BuiltShows(bs, f, sections) && bs[256 + |CalloutBytes(f)| + SymptomLength(f.symptom)..] == rest
  {
    hide PrivateHeaderShows, UserHeaderShows, SRCShows, ExtendedUserHeaderShows, FailingMTMSShows, CalloutBytes, SymptomLength;
    ShownLengths(a, b, c, d, e, f, sections % 256);
    var k, n := |CalloutBytes(f)|, SymptomLength(f.symptom);
    FivePieces(bs, a, b, c, d, e, rest, 48, 72, 152 + k, 228 + k + n, 256 + k + n);
  }

  lemma ShownLengths(a: seq<Byte>, b: seq<Byte>, c: seq<Byte>, d: seq<Byte>, e: seq<Byte>, f: Facts, count: int)
    requires PrivateHeaderShows(a, f, count) && UserHeaderShows(b, f) && SRCShows(c, f, CalloutBytes(f))
    requires ExtendedUserHeaderShows(d, f, SymptomLength(f.symptom)) && FailingMTMSShows(e, f)
    ensures |a| == 48 && |b| == 24 && |c| == 80 + |CalloutBytes(f)| && |d| == 76 + SymptomLength(f.symptom) && |e| == 28
  {}

  lemma StartSmall(f: Facts)
    requires Proper(f)
    ensures Size(StartPel(f)) <= 2740
  {
    hide StartPel, Size, L.Inv, WellFormed;
    StartKinds(f);
    StartSound(f);
    SizeWithCount(StartPel(f), 2);
  }

  // ----------------------------------------------------------------- user data

  /** "UD", the length modulo the width of its field, version, subtype, component ID, and
      the data. */
  lemma UserDataShows(componentID: Word, subType: Byte, version: Byte, data: seq<Byte>)
    ensures var bs := Flatten(NewUserData(componentID, subType, version, data));
      && Begins(bs, 0x55, 0x44, (8 + |data|) % 0x1_0000, version, subType, componentID) && bs[8..] == data
  {
    var ud := NewUserData(componentID, subType, version, data);
    assert Shaped(ud);
    FlattenIsLayout(Flatten(ud), ud);
  }

  /** "ED", and the creator in front of the data. */
  lemma ExtendedUserDataShows(componentID: Word, subType: Byte, version: Byte, creatorID: Byte, data: seq<Byte>)
    ensures var bs := Flatten(NewExtendedUserData(componentID, subType, version, creatorID, data));
      && 12 <= |bs| && Begins(bs, 0x45, 0x44, (12 + |data|) % 0x1_0000, version, subType, componentID)
      && bs[8] == creatorID && Zeroed(bs, 9, 12) && bs[12..] == data
  {
    hide Flatten;
    var ed := NewExtendedUserData(componentID, subType, version, creatorID, data);
    assert Shaped(ed);
    FlattenIsLayout(Flatten(ed), ed);
  }

  /** A journal buffer is text of the logging component, padded with NULs to a whole word; it
      goes in when it fits as it is, and not at all otherwise. */
  lemma JournalShows(p: Pel, buffer: seq<Byte>) returns (s: Section)
    ensures var n := (|buffer| + 3) / 4 * 4;
      Printable(s) && JournalBytes(Flatten(s), buffer, n, (8 + n) % 0x1_0000)
    ensures var fits := |buffer| <= 16384 && Size(p) + s.header.size <= 16384;
      Add(p, Journal(buffer)) == if fits then p.(optional := p.optional + [s]) else p
  {
    hide Size, Flatten, Padded;
    s := NewUserData(JOURNAL_COMPONENT, TEXT_FORMAT, TEXT_VERSION, Padded(buffer));
    UserDataShows(JOURNAL_COMPONENT, TEXT_FORMAT, TEXT_VERSION, Padded(buffer));
    PaddedShows(Flatten(s), buffer);
  }

  ghost predicate JournalBytes(bs: seq<Byte>, buffer: seq<Byte>, n: nat, size: nat) {
    && |bs| == 8 + n && Begins(bs, 0x55, 0x44, size, 1, 3, 0x2000) && ShowsText(bs, 8, n, n, buffer)
  }

  lemma PaddedShows(bs: seq<Byte>, buffer: seq<Byte>)
    requires 8 <= |bs| && bs[8..] == Padded(buffer)
    ensures |bs| == 8 + (|buffer| + 3) / 4 * 4 && ShowsText(bs, 8, |bs| - 8, |bs| - 8, buffer)
  {
    forall i | 0 <= i < |bs| - 8 ensures bs[8 + i] == if i < |buffer| then buffer[i] else 0 {
      assert bs[8..][i] == bs[8 + i];
    }
  }
}
