/** A PEL as the BMC builds it for a new event log: the fixed sections, then the user
    data, then the section count. */
module PelBuilding {
  import opened Wrappers
  import opened Bytes
  import opened PelFields
  import opened Sections
  import opened PelFormat
  import opened PelGrowth
  import B = CalloutBuilding
  import C = CalloutFormat
  import L = CalloutList

  const PHOSPHOR_LOGGING: Word := 0x2000
  const SYMPTOM_ID_MAX_SIZE := 80

  /** What the event log, the registry and the system contribute. */
  datatype Facts = Facts(
    componentID: Word, obmcLogID: Long, pelID: Long, created: seq<Byte>, committed: seq<Byte>,
    subsystem: Byte, scope: Byte, severity: Byte, eventType: Byte, actionFlags: Word,
    hexData: seq<Long>, asciiString: seq<Byte>, callouts: Option<C.Callouts>,
    machineType: seq<Byte>, serialNumber: seq<Byte>, serverFW: seq<Byte>, bmcFW: seq<Byte>, symptom: seq<Byte>)

  /** The widths the types give, and callouts that came about by adding them. */
  ghost predicate Proper(f: Facts) {
    && |f.created| == 8 && |f.committed| == 8 && |f.hexData| == 8 && |f.asciiString| == 32
    && (f.callouts.Some? ==> L.Inv(f.callouts.value))
  }

  function NewPrivateHeader(f: Facts): Section {
    Section(Header(PRIVATE_HEADER, 48, 1, 0, f.componentID),
            PrivateHeader(f.created, f.committed, 79, 0, 0, 1, f.obmcLogID, B.Zeros(8), f.pelID, f.pelID))
  }

  function NewUserHeader(f: Facts): Section {
    Section(Header(USER_HEADER, 24, 1, 0, PHOSPHOR_LOGGING),
            UserHeader(f.subsystem, f.scope, f.severity, f.eventType, 0, 0, 0, f.actionFlags, 0))
  }

  function NewSRC(f: Facts): Section {
    var size := (72 + if f.callouts.Some? then 4 * f.callouts.value.wordLength as int else 0) % 0x1_0000;
    Section(Header(PRIMARY_SRC, (8 + size) % 0x1_0000, 1, 1, f.componentID),
            SRC(2, if f.callouts.Some? then ADDITIONAL_SECTIONS else 0, 0, 9, 0, size, f.hexData, f.asciiString, f.callouts))
  }

  /** As much of a version as leaves room for its NUL. */
  function VersionField(version: seq<Byte>): seq<Byte> { B.Filled(B.Upto(version, 15), 16) }

  /** At most 79 characters, a NUL, and NULs up to a whole word. */
  function SymptomField(text: seq<Byte>): seq<Byte> {
    var kept := B.Upto(text, SYMPTOM_ID_MAX_SIZE - 1);
    kept + B.Zeros(4 - |kept| % 4)
  }

  function NewExtendedUserHeader(f: Facts): Section {
    var symptom := SymptomField(f.symptom);
    Section(Header(EXTENDED_USER_HEADER, (76 + |symptom|) % 0x1_0000, 1, 0, PHOSPHOR_LOGGING),
            ExtendedUserHeader(B.Filled(f.machineType, 8), B.Filled(f.serialNumber, 12), VersionField(f.serverFW),
                               VersionField(f.bmcFW), 0, B.Zeros(8), 0, 0, 0, symptom))
  }

  function NewFailingMTMS(f: Facts): Section {
    Section(Header(FAILING_MTMS, 28, 1, 0, PHOSPHOR_LOGGING),
            FailingMTMS(B.Filled(f.machineType, 8), B.Filled(f.serialNumber, 12)))
  }

  /** The sections every PEL of the BMC begins with. */
  function StartPel(f: Facts): Pel {
    Pel(NewPrivateHeader(f), NewUserHeader(f), [NewSRC(f), NewExtendedUserHeader(f), NewFailingMTMS(f)])
  }

  /** createSymptomID, from the text it puts together. */
  method CreateSymptomID(text: seq<Byte>) returns (symptomID: seq<Byte>)
    ensures symptomID == SymptomField(text)
  {
    symptomID := text;
    if |symptomID| > SYMPTOM_ID_MAX_SIZE - 1 {
      symptomID := symptomID[..SYMPTOM_ID_MAX_SIZE - 1];
    }
    ghost var kept := symptomID;
    symptomID := symptomID + [0];
    while |symptomID| % 4 != 0
      invariant |kept| < |symptomID| <= |kept| + 4 - |kept| % 4
      invariant symptomID == kept + B.Zeros(|symptomID| - |kept|)
      decreases |kept| + 4 - |symptomID|
    {
      symptomID := symptomID + [0];
    }
  }

  // ------------------------------------------------------------- fixed sections

  lemma SymptomFits(text: seq<Byte>)
    ensures |SymptomField(text)| <= SYMPTOM_ID_MAX_SIZE && |SymptomField(text)| % 4 == 0
    ensures B.CString(SymptomField(text)) == B.CString(B.Upto(text, SYMPTOM_ID_MAX_SIZE - 1))
  {
    var kept := B.Upto(text, SYMPTOM_ID_MAX_SIZE - 1);
    B.CStringCut(kept, B.Zeros(4 - |kept| % 4));
  }

  /** What is well-formed and states its own length. */
  ghost predicate Sound(s: Section) { WellFormed(s) && RightSize(s) }

  lemma UserHeaderSound(f: Facts)
    ensures Sound(NewUserHeader(f))
  {
    FlattenedLength(NewUserHeader(f));
    WidthsOfUserHeader();
  }

  lemma MTMSSound(f: Facts)
    ensures Sound(NewFailingMTMS(f))
  {
    FlattenedLength(NewFailingMTMS(f));
    WidthsOfMTMS();
  }

  lemma ExtendedUserHeaderSound(f: Facts)
    requires Proper(f)
    ensures Sound(NewExtendedUserHeader(f)) && NewExtendedUserHeader(f).header.size <= 156
  {
    hide L.Inv, Flatten, SymptomField;
    SymptomFits(f.symptom);
    ExtendedUserHeaderWellFormed(f);
    FlattenedLength(NewExtendedUserHeader(f));
    hide WellFormed;
    WidthsOfExtendedUserHeader();
  }

  lemma ExtendedUserHeaderWellFormed(f: Facts)
    requires Proper(f) && |SymptomField(f.symptom)| <= SYMPTOM_ID_MAX_SIZE
    ensures WellFormed(NewExtendedUserHeader(f))
  {
    hide L.Inv, SymptomField;
  }

  /** The size field of the SRC covers the callouts, and never truncates. */
  lemma SRCSound(f: Facts)
    requires Proper(f)
    ensures Sound(NewSRC(f)) && NewSRC(f).header.size <= 80 + 2404
  {
    hide NewSRC, L.Inv, C.WellFormedCallouts, C.FlattenCallouts, Flatten, WellFormed, BodyKinds, Trailer, Widths;
    if f.callouts.Some? {
      CalloutsFit(f.callouts.value);
    }
    SRCWellFormed(f);
    FlattenedLength(NewSRC(f));
    SRCSizes(f);
    WidthsOfSRC();
    assert Printable(NewSRC(f)) by { WellFormedPrintable(NewSRC(f)); }
  }

  lemma WellFormedPrintable(s: Section)
    requires WellFormed(s)
    ensures Printable(s)
  {}

  lemma SRCSizes(f: Facts)
    requires f.callouts.Some? ==> |C.FlattenCallouts(f.callouts.value)| == 4 * f.callouts.value.wordLength <= 2404
    ensures var s := NewSRC(f);
      && s.header.id == PRIMARY_SRC && s.header.size == 80 + |Trailer(s.body)| && s.header.size <= 80 + 2404
  {
    hide C.FlattenCallouts;
  }

  lemma SRCWellFormed(f: Facts)
    requires Proper(f) && (f.callouts.Some? ==> C.WellFormedCallouts(f.callouts.value))
    ensures WellFormed(NewSRC(f))
  {
    hide L.Inv, C.WellFormedCallouts;
  }

  lemma CalloutsFit(cs: C.Callouts)
    requires L.Inv(cs)
    ensures C.WellFormedCallouts(cs) && |C.FlattenCallouts(cs)| == 4 * cs.wordLength <= 2404
  {
    assert C.WellFormedCallouts(cs) by { hide C.WellFormed, C.CalloutSize; }
    L.SumOfSizesBound(cs.callouts);
    C.CalloutsRoundTrip(cs, []);
  }

  lemma OneMoreWidth(a: Kind, rest: seq<Kind>)
    ensures Widths([a] + rest) == Width(a) + Widths(rest)
  {
    assert ([a] + rest)[1..] == rest;
  }

  lemma NoWidth()
    ensures Widths([]) == 0
  {}

  lemma TwoWidths(a: Kind, b: Kind)
    ensures Widths([a, b]) == Width(a) + Width(b)
  {
    assert [a, b] == [a] + ([b] + []);
    OneMoreWidth(a, [b] + []);
    OneMoreWidth(b, []);
  }

  lemma WidthsOfFour(a: Kind, b: Kind, c: Kind, d: Kind, rest: seq<Kind>)
    ensures Widths([a, b, c, d] + rest) == Width(a) + Width(b) + Width(c) + Width(d) + Widths(rest)
  {
    hide Widths, Width;
    assert [a, b, c, d] + rest == [a] + ([b] + ([c] + ([d] + rest)));
    OneMoreWidth(a, [b] + ([c] + ([d] + rest)));
    OneMoreWidth(b, [c] + ([d] + rest));
    OneMoreWidth(c, [d] + rest);
    OneMoreWidth(d, rest);
  }

  lemma WidthsOfUserHeader()
    ensures Widths(BodyKinds(USER_HEADER)) == 16
  {
    hide Widths;
    var ks := BodyKinds(USER_HEADER);
    WidthsOfFour(U8, U8, U8, U8, ks[4..]);
    WidthsOfFour(U32, U8, U8, U16, ks[8..]);
    OneMoreWidth(U32, []);
    NoWidth();
    assert [U32] + [] == [U32];
    assert ks[4..] == [U32, U8, U8, U16] + ks[8..] && ks[8..] == [U32] && ks == [U8, U8, U8, U8] + ks[4..];
  }

  lemma WidthsOfMTMS()
    ensures Widths(BodyKinds(FAILING_MTMS)) == 20
  {
    hide Widths;
    TwoWidths(Raw(8), Raw(12));
  }

  lemma WidthsOfExtendedUserHeader()
    ensures Widths(BodyKinds(EXTENDED_USER_HEADER)) == 68
  {
    hide Widths;
    var ks := BodyKinds(EXTENDED_USER_HEADER);
    WidthsOfFour(Raw(8), Raw(12), Raw(16), Raw(16), ks[4..]);
    WidthsOfFour(U32, Raw(8), U8, U8, ks[8..]);
    TwoWidths(U8, U8);
    assert ks[4..] == [U32, Raw(8), U8, U8] + ks[8..] && ks[8..] == [U8, U8];
    assert ks == [Raw(8), Raw(12), Raw(16), Raw(16)] + ks[4..];
  }

  lemma WidthsOfSRC()
    ensures Widths(BodyKinds(PRIMARY_SRC)) == 72
  {
    hide Widths;
    var ks := BodyKinds(PRIMARY_SRC);
    WidthsOfFour(U8, U8, U8, U8, ks[4..]);
    WidthsOfFour(U16, U16, U32, U32, ks[8..]);
    WidthsOfFour(U32, U32, U32, U32, ks[12..]);
    assert ks == [U8, U8, U8, U8] + ks[4..] && ks[4..] == [U16, U16, U32, U32] + ks[8..];
    assert ks[8..] == [U32, U32, U32, U32] + ks[12..] && ks[12..] == [U32] + [U32, Raw(32)];
    OneMoreWidth(U32, [U32, Raw(32)]);
    TwoWidths(U32, Raw(32));
  }

  lemma WidthsOfPrivateHeader()
    ensures Widths(BodyKinds(PRIVATE_HEADER)) == 40
  {
    hide Widths;
    var ks := BodyKinds(PRIVATE_HEADER);
    WidthsOfFour(Raw(8), Raw(8), U8, U8, ks[4..]);
    WidthsOfFour(U8, U8, U32, Raw(8), ks[8..]);
    TwoWidths(U32, U32);
    assert ks == [Raw(8), Raw(8), U8, U8] + ks[4..] && ks[4..] == [U8, U8, U32, Raw(8)] + ks[8..];
    assert ks[8..] == [U32, U32];
  }

  // --------------------------------------------------------------- the whole PEL

  lemma PrivateHeaderKinds(f: Facts, count: Byte)
    requires Proper(f)
    ensures var ph := WithCount(StartPel(f), count).ph;
      && OfKinds(BodyFields(ph.body), BodyKinds(PRIVATE_HEADER)) && (count >= 2 ==> WellFormed(ph))
  {
    hide L.Inv, NewSRC, NewExtendedUserHeader, NewUserHeader, NewFailingMTMS;
  }

  lemma PrivateHeaderSound(f: Facts, count: Byte)
    requires Proper(f)
    ensures var ph := WithCount(StartPel(f), count).ph; RightSize(ph) && (count >= 2 ==> WellFormed(ph))
  {
    hide L.Inv, WellFormed, OfKinds, NewSRC, NewExtendedUserHeader, NewUserHeader, NewFailingMTMS, PrintFields, Widths;
    var ph := WithCount(StartPel(f), count).ph;
    PrivateHeaderKinds(f, count);
    HeaderWidths(ph.header);
    FieldsRoundTrip(BodyFields(ph.body), BodyKinds(PRIVATE_HEADER), []);
    WidthsOfPrivateHeader();
  }

  lemma FiveSections(a: Section, b: Section, c: Section, d: Section, e: Section)
    ensures SumOfHeaderSizes([a, b, c, d, e])
         == a.header.size + b.header.size + c.header.size + d.header.size + e.header.size
  {
    assert [a, b, c, d, e] == [a] + ([b] + ([c] + ([d] + [e])));
    SumOfHeaderSizesSplit([a], [b] + ([c] + ([d] + [e])));
    SumOfHeaderSizesSplit([b], [c] + ([d] + [e]));
    SumOfHeaderSizesSplit([c], [d] + [e]);
    SumOfHeaderSizesSplit([d], [e]);
  }

  /** The fixed sections are well-formed, state their lengths, and leave room: with
      all the callouts there can be they take no more than 2740 bytes. */
  lemma StartSound(f: Facts)
    requires Proper(f)
    ensures var p := WithCount(StartPel(f), 2);
      AllWellFormed(All(p)) && AllRightSize(All(p)) && Size(p) <= 2740
  {
    hide WellFormed, RightSize, L.Inv, NewSRC, NewExtendedUserHeader, SumOfHeaderSizes;
    PrivateHeaderSound(f, 2);
    UserHeaderSound(f);
    SRCSound(f);
    ExtendedUserHeaderSound(f);
    MTMSSound(f);
    var p := WithCount(StartPel(f), 2);
    assert All(p) == [p.ph, p.uh, NewSRC(f), NewExtendedUserHeader(f), NewFailingMTMS(f)];
    FiveSections(p.ph, p.uh, NewSRC(f), NewExtendedUserHeader(f), NewFailingMTMS(f));
  }

  /** The section count plays no part in adding sections. */
  lemma AddKeepsCount(p: Pel, a: Addition, count: Byte)
    requires p.ph.body.PrivateHeader?
    ensures Add(p, a).ph == p.ph
    ensures Add(WithCount(p, count), a) == WithCount(Add(p, a), count)
  {
    assert All(WithCount(p, count))[1..] == All(p)[1..];
    assert Size(WithCount(p, count)) == Size(p);
    hide Size;
  }

  lemma {:induction false} AddAllKeepsCount(p: Pel, additions: seq<Addition>, count: Byte)
    requires p.ph.body.PrivateHeader?
    ensures AddAll(p, additions).ph == p.ph
    ensures AddAll(WithCount(p, count), additions) == WithCount(AddAll(p, additions), count)
    ensures NeverWraps(WithCount(p, count), additions) == NeverWraps(p, additions)
    decreases |additions|
  {
    hide Add, Size;
    SizeWithCount(p, count);
    if additions != [] {
      AddKeepsCount(p, additions[0], count);
      AddAllKeepsCount(Add(p, additions[0]), additions[1..], count);
    }
  }

  lemma SizeWithCount(p: Pel, count: Byte)
    requires p.ph.body.PrivateHeader?
    ensures Size(WithCount(p, count)) == Size(p)
  {
    assert All(WithCount(p, count))[1..] == All(p)[1..];
  }

  /** Counting the sections last leaves sizes and lengths as they are. */
  lemma FinishLength(f: Facts, p: Pel)
    requires Proper(f) && p.ph == StartPel(f).ph && PrintableAll(All(WithCount(p, 2)))
    ensures PrintableAll(All(Finish(p))) && |FlattenPel(Finish(p))| == |FlattenPel(WithCount(p, 2))|
    ensures Size(Finish(p)) == Size(WithCount(p, 2))
  {
    hide Flatten, FlattenPel, FlattenSections, PrintableAll, Printable, L.Inv, StartPel, WellFormed, Size, All;
    StartKinds(f);
    SizeWithCount(p, 2);
    SizeWithCount(p, (2 + |p.optional|) % 256);
    CountedHeader(f, p, 2);
    CountedHeader(f, p, (2 + |p.optional|) % 256);
    LengthBehindHeader(WithCount(p, 2), Finish(p));
  }

  lemma CountedHeader(f: Facts, p: Pel, count: Byte)
    requires Proper(f) && p.ph == StartPel(f).ph && p.ph.body.PrivateHeader?
    ensures var ph := WithCount(p, count).ph; Printable(ph) && |Flatten(ph)| == p.ph.header.size
  {
    hide L.Inv, StartPel, WellFormed, Flatten;
    StartKinds(f);
    PrivateHeaderSound(f, count);
  }

  /** Two PELs that differ in a private header of the same length. */
  lemma LengthBehindHeader(p: Pel, q: Pel)
    requires PrintableAll(All(p)) && q == p.(ph := q.ph)
    requires Printable(p.ph) && Printable(q.ph) && |Flatten(p.ph)| == |Flatten(q.ph)|
    ensures PrintableAll(All(q)) && |FlattenPel(p)| == |FlattenPel(q)|
  {
    hide Flatten, FlattenSections, PrintableAll, Printable;
    var more := [p.uh] + p.optional;
    assert All(p) == [p.ph] + more && All(q) == [q.ph] + more;
    TailPrints(p.ph, more);
    FirstPrints(p.ph, more);
    FirstPrints(q.ph, more);
  }

  lemma TailPrints(s: Section, more: seq<Section>)
    requires PrintableAll([s] + more)
    ensures Printable(s) && PrintableAll(more)
  {
    hide Printable;
    assert s in [s] + more && forall t | t in more :: t in [s] + more;
  }

  /** Whatever an event log brings, callouts and data included: the PEL built for it
      prints to at most 16384 bytes, and then to exactly size(), if and only if no size field
      wrapped on the way. Reading these bytes gives the very same PEL back if and only if
      no addition left an empty section or a wrapped size, and no more than 253 sections
      follow the headers. When every addition has some data, as those of the constructor
      have, it comes to the size alone. */
  lemma BuiltPelWithinCapAndRoundTrips(f: Facts, additions: seq<Addition>, tail: seq<Byte>)
    requires Proper(f)
    ensures var start, p := StartPel(f), AddAll(StartPel(f), additions);
      && p.ph == start.ph && PrintableAll(All(Finish(p)))
      && (|FlattenPel(Finish(p))| <= MAX_PEL_SIZE <==> NeverWraps(start, additions))
      && (NeverWraps(start, additions) ==> |FlattenPel(Finish(p))| == Size(Finish(p)))
      && (ParsePel(FlattenPel(Finish(p)) + tail) == Ok(Read(Finish(p), tail))
          <==> NeverUnreadable(start, additions) && |p.optional| <= 253)
    ensures (forall a | a in additions :: !Empty(a)) ==>
      (NeverUnreadable(StartPel(f), additions) <==> NeverWraps(StartPel(f), additions))
  {
    hide StartPel, ParsePel, FlattenPel, AddAll, Size, AllRightSize, PrintableAll, All, L.Inv, NeverWraps,
      NeverUnreadable, WellFormed;
    if forall a | a in additions :: !Empty(a) { NonemptyUnreadableIffWraps(StartPel(f), additions); }
    var start := StartPel(f);
    StartKinds(f);
    StartSound(f);
    StartCountable(f);
    AddAllKeepsCount(start, additions, 2);
    SizeWithCount(start, 2);
    AddAllWithinCapIff(WithCount(start, 2), additions);
    BuiltPelRoundTrips(start, additions, tail);
    FinishLength(f, AddAll(start, additions));
  }

  lemma StartKinds(f: Facts)
    ensures StartPel(f).ph.body.PrivateHeader? && StartPel(f).uh.body.UserHeader?
  {}

  lemma StartCountable(f: Facts)
    requires Proper(f)
    ensures Countable(StartPel(f)) && AllWellFormed(StartPel(f).optional)
  {
    hide StartPel, WellFormed, L.Inv;
    StartKinds(f);
    StartSound(f);
    var p := StartPel(f);
    AllSplit(WithCount(p, 2));
  }
}
