/** A whole PEL: its bytes, its size, the 16 KB cap kept by adding sections, and
    what reading it back gives. */
module PelFormat {
  import opened Wrappers
  import opened Bytes
  import opened PelFields
  import opened Sections
  import C = CalloutFormat
  import R = CalloutReprint

  const MAX_PEL_SIZE := 16384

  datatype Pel = Pel(ph: Section, uh: Section, optional: seq<Section>)

  ghost predicate PrintableAll(ss: seq<Section>) { forall s | s in ss :: Printable(s) }

  function FlattenSections(ss: seq<Section>): seq<Byte>
    requires PrintableAll(ss)
  {
    if ss == [] then [] else assert ss[0] in ss; Flatten(ss[0]) + FlattenSections(ss[1..])
  }

  function All(p: Pel): seq<Section> { [p.ph, p.uh] + p.optional }

  function FlattenPel(p: Pel): seq<Byte>
    requires PrintableAll(All(p))
  {
    FlattenSections(All(p))
  }

  function SumOfHeaderSizes(ss: seq<Section>): nat {
    if ss == [] then 0 else ss[0].header.size + SumOfHeaderSizes(ss[1..])
  }

  /** size(): what the section headers claim. */
  function Size(p: Pel): nat { SumOfHeaderSizes(All(p)) }

  // ------------------------------------------------------------------- reading

  function ParseSections(bs: seq<Byte>, n: nat): Result<Read<seq<Section>>>
    decreases n
  {
    if n == 0 then Ok(Read([], bs))
    else
      match Parse(bs)
      case Thrown => Thrown
      case Ok(Read(s, rest)) => After([s], ParseSections(rest, n - 1))
  }

  /** populateFromRawData; Thrown when the PEL it makes is not valid(). The first two
      sections have to be the private and the user header. */
  function ParsePel(bs: seq<Byte>): Result<Read<Pel>> {
    match Parse(bs)
    case Thrown => Thrown
    case Ok(Read(ph, behind)) =>
      match Parse(behind)
      case Thrown => Thrown
      case Ok(Read(uh, more)) =>
        if !ph.body.PrivateHeader? || !uh.body.UserHeader? || ph.body.sectionCount < 2 then Thrown
        else
          match ParseSections(more, ph.body.sectionCount - 2)
          case Thrown => Thrown
          case Ok(Read(optional, rest)) => Ok(Read(Pel(ph, uh, optional), rest))
  }

  ghost predicate AllWellFormed(ss: seq<Section>) { forall s | s in ss :: WellFormed(s) }

  lemma WellFormedPrints(ss: seq<Section>)
    requires AllWellFormed(ss)
    ensures PrintableAll(ss)
  {}

  lemma NoSections()
    ensures AllWellFormed([]) && PrintableAll([]) && FlattenSections([]) == []
  {}

  lemma FirstOfSections(s: Section, more: seq<Section>)
    requires WellFormed(s) && AllWellFormed(more)
    ensures AllWellFormed([s] + more) && PrintableAll([s] + more) && PrintableAll(more) && Printable(s)
    ensures FlattenSections([s] + more) == Flatten(s) + FlattenSections(more)
  {
    assert Printable(s);
    hide WellFormed, Flatten;
    WellFormedPrints([s] + more);
    WellFormedPrints(more);
    assert ([s] + more)[1..] == more;
  }

  lemma FirstWellFormed(s: Section, more: seq<Section>)
    requires AllWellFormed([s] + more)
    ensures WellFormed(s) && AllWellFormed(more)
  {
    hide WellFormed;
    assert s in [s] + more && forall t | t in more :: t in [s] + more;
  }

  lemma {:induction false} SectionsRoundTrip(ss: seq<Section>, tail: seq<Byte>)
    requires AllWellFormed(ss)
    ensures PrintableAll(ss) && ParseSections(FlattenSections(ss) + tail, |ss|) == Ok(Read(ss, tail))
  {
    hide Parse, Flatten, WellFormed, AllWellFormed, PrintableAll;
    if ss == [] {
      NoSections();
      assert [] + tail == tail;
    } else {
      var s, more := ss[0], ss[1..];
      assert ss == [s] + more;
      FirstWellFormed(s, more);
      SectionsRoundTrip(more, tail);
      FirstOfSections(s, more);
      SectionRoundTrip(s, FlattenSections(more) + tail);
      Assoc(Flatten(s), FlattenSections(more), tail);
    }
  }

  /** Headers of the right kind, every section well-formed, and the count right. */
  ghost predicate WellFormedPel(p: Pel) {
    && p.ph.body.PrivateHeader? && p.uh.body.UserHeader? && AllWellFormed(All(p))
    && p.ph.body.sectionCount == 2 + |p.optional|
  }

  lemma AllSplit(p: Pel)
    requires AllWellFormed(All(p))
    ensures WellFormed(p.ph) && WellFormed(p.uh) && AllWellFormed(p.optional)
    ensures PrintableAll(All(p)) && PrintableAll(p.optional)
    ensures FlattenPel(p) == Flatten(p.ph) + (Flatten(p.uh) + FlattenSections(p.optional))
  {
    hide WellFormed, Flatten, AllWellFormed, PrintableAll;
    var more := [p.uh] + p.optional;
    assert All(p) == [p.ph] + more;
    FirstWellFormed(p.ph, more);
    FirstWellFormed(p.uh, p.optional);
    FirstOfSections(p.uh, p.optional);
    FirstOfSections(p.ph, more);
  }

  lemma FrontOfPel(p: Pel, tail: seq<Byte>)
    requires AllWellFormed(All(p)) && p.ph.body.PrivateHeader? && p.uh.body.UserHeader?
    ensures PrintableAll(All(p)) && PrintableAll(p.optional)
    ensures Parse(FlattenPel(p) + tail) == Ok(Read(p.ph, Flatten(p.uh) + (FlattenSections(p.optional) + tail)))
    ensures Parse(Flatten(p.uh) + (FlattenSections(p.optional) + tail)) == Ok(Read(p.uh, FlattenSections(p.optional) + tail))
  {
    hide Parse, Flatten, WellFormed;
    AllSplit(p);
    var optional := FlattenSections(p.optional);
    SectionRoundTrip(p.uh, optional + tail);
    SectionRoundTrip(p.ph, Flatten(p.uh) + (optional + tail));
    Assoc(Flatten(p.uh), optional, tail);
    Assoc(Flatten(p.ph), Flatten(p.uh) + optional, tail);
  }

  /** Reading undoes writing, for every well-formed PEL. */
  lemma PelRoundTrip(p: Pel, tail: seq<Byte>)
    requires WellFormedPel(p)
    ensures PrintableAll(All(p)) && ParsePel(FlattenPel(p) + tail) == Ok(Read(p, tail))
  {
    AllSplit(p);
    FrontOfPel(p, tail);
    hide Parse, FlattenPel, WellFormed;
    SectionsRoundTrip(p.optional, tail);
  }

  // ------------------------------------------------ writing undoes reading

  lemma SectionsUnpacked(bs: seq<Byte>, n: nat) returns (s: Section, behind: seq<Byte>, more: seq<Section>, rest: seq<Byte>)
    requires n > 0 && ParseSections(bs, n).Ok?
    ensures Parse(bs) == Ok(Read(s, behind)) && ParseSections(behind, n - 1) == Ok(Read(more, rest))
    ensures ParseSections(bs, n) == Ok(Read([s] + more, rest))
  {
    hide Parse;
    s, behind := Parse(bs).value.value, Parse(bs).value.rest;
    more, rest := ParseSections(behind, n - 1).value.value, ParseSections(behind, n - 1).value.rest;
  }

  /** Each of the sections has its callouts, if any, in order. */
  predicate SectionsInOrder(bs: seq<Byte>, n: nat)
    decreases n
  {
    n == 0 ||
    match Parse(bs)
    case Thrown => true
    case Ok(Read(_, rest)) => InOrder(bs) && SectionsInOrder(rest, n - 1)
  }

  lemma FirstPrints(s: Section, more: seq<Section>)
    requires Printable(s) && PrintableAll(more)
    ensures PrintableAll([s] + more) && FlattenSections([s] + more) == Flatten(s) + FlattenSections(more)
  {
    hide Flatten, Printable;
    assert ([s] + more)[1..] == more;
  }

  lemma Consumes(bs: seq<Byte>)
    requires Parse(bs).Ok?
    ensures C.Consumed(bs, 0, Parse(bs).value.rest)
  {
    hide ToBody, BodyKinds, Validates, ParseTail, ParseFields;
    var hs, behind, fs, more, tail, rest := Unpacked(bs);
    FieldsConsume(bs, HEADER_KINDS);
    FieldsConsume(behind, BodyKinds(ToHeader(hs).id));
    TailConsumes(ToHeader(hs), fs, more);
    C.ConsumedTwice(bs, 0, behind, 0, more);
    C.ConsumedTwice(bs, 0, more, 0, rest);
  }

  lemma FieldsConsume(bs: seq<Byte>, ks: seq<Kind>)
    requires ParseFields(bs, ks).Ok?
    ensures C.Consumed(bs, 0, ParseFields(bs, ks).value.rest)
  {
    BytesRoundTrip(bs, ks);
  }

  lemma TailConsumes(h: Header, fs: seq<Field>, bs: seq<Byte>)
    requires OfKinds(fs, BodyKinds(h.id)) && ParseTail(h, fs, bs).Ok?
    ensures C.Consumed(bs, 0, ParseTail(h, fs, bs).value.rest)
  {
    hide C.ParseCallouts;
    if C.ParseCallouts(bs).Ok? { C.ParserTotal(bs); }
  }

  lemma {:induction false} SectionsReprintedIff(bs: seq<Byte>, n: nat)
    requires ParseSections(bs, n).Ok?
    ensures var r := ParseSections(bs, n).value;
      && PrintableAll(r.value) && |r.value| == n
      && |FlattenSections(r.value)| + |r.rest| <= |bs|
      && (FlattenSections(r.value) + r.rest == bs <==> SectionsInOrder(bs, n))
    decreases n
  {
    hide Parse, Flatten, InOrder, PrintableAll;
    if n == 0 {
      NoSections();
    } else {
      var s, behind, more, rest := SectionsUnpacked(bs, n);
      SectionsReprintedIff(behind, n - 1);
      ReprintedIffInOrder(bs);
      Consumes(bs);
      FirstPrints(s, more);
      R.BothReprint(Flatten(s), FlattenSections(more), behind, rest, bs);
    }
  }

  lemma PelUnpacked(bs: seq<Byte>) returns (p: Pel, rest: seq<Byte>)
    requires ParsePel(bs).Ok?
    ensures ParsePel(bs) == Ok(Read(p, rest)) && p.ph.body.PrivateHeader? && p.uh.body.UserHeader?
    ensures p.ph.body.sectionCount >= 2
    ensures ParseSections(bs, p.ph.body.sectionCount) == Ok(Read(All(p), rest))
  {
    hide Parse;
    p, rest := ParsePel(bs).value.value, ParsePel(bs).value.rest;
    var behind := Parse(bs).value.rest;
    var n: nat := p.ph.body.sectionCount;
    assert ParseSections(behind, n - 1) == Ok(Read([p.uh] + p.optional, rest));
    assert [p.ph] + ([p.uh] + p.optional) == All(p);
  }

  /** Reading a valid PEL and writing it back, as every update of a stored PEL does, leaves
      the bytes unchanged exactly when nothing stands behind its last section and the
      callouts in it have their substructures in order. */
  lemma ReadPelReprintsIff(bs: seq<Byte>)
    requires ParsePel(bs).Ok?
    ensures var r := ParsePel(bs).value;
      && PrintableAll(All(r.value)) && r.value.ph.body.PrivateHeader?
      && (FlattenPel(r.value) + r.rest == bs <==> SectionsInOrder(bs, r.value.ph.body.sectionCount))
      && (FlattenPel(r.value) == bs <==> r.rest == [] && SectionsInOrder(bs, r.value.ph.body.sectionCount))
  {
    hide Parse, ParseSections, ParsePel, Flatten, SectionsInOrder, PrintableAll;
    var p, rest := PelUnpacked(bs);
    SectionsReprintedIff(bs, p.ph.body.sectionCount);
    if rest == [] { assert FlattenPel(p) + [] == FlattenPel(p); }
  }

  /** A byte behind the last section is dropped although everything stands in order. */
  lemma TrailingByteDropped(p: Pel)
    requires WellFormedPel(p)
    ensures PrintableAll(All(p))
    ensures var bs := FlattenPel(p) + [0];
      ParsePel(bs) == Ok(Read(p, [0])) && SectionsInOrder(bs, p.ph.body.sectionCount) && FlattenPel(p) != bs
  {
    hide Parse, ParseSections, ParsePel, FlattenPel, SectionsInOrder, WellFormed, AllWellFormed, PrintableAll;
    PelRoundTrip(p, [0]);
    ReadPelReprintsIff(FlattenPel(p) + [0]);
  }
}
