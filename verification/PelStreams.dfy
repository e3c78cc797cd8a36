/** Reading and writing the sections of a PEL on a stream, and the PEL object itself. */
module PelStreams {
  import opened Wrappers
  import opened Bytes
  import opened PelStream
  import opened PelFields
  import opened Sections
  import P = PelFormat
  import G = PelGrowth
  import S = CalloutStreams
  import C = CalloutFormat

  method ReadField(pel: Stream, k: Kind) returns (r: Result<Field>)
    requires pel.Valid()
    modifies pel`offset
    ensures pel.Valid()
    ensures var bs := old(pel.Remaining());
      if |bs| < Width(k) then r.Thrown?
      else r == Ok(FieldOf(bs[..Width(k)], k)) && pel.Remaining() == bs[Width(k)..]
  {
    match k
    case U8 =>
      var b := pel.ReadByte();
      r := if b.Ok? then Ok(F8(b.value)) else Thrown;
    case U16 =>
      var w := pel.ReadWord();
      r := if w.Ok? then Ok(F16(w.value)) else Thrown;
    case U32 =>
      var l := pel.ReadLong();
      r := if l.Ok? then Ok(F32(l.value)) else Thrown;
    case Raw(n) =>
      var bs := pel.ReadBytes(n);
      r := if bs.Ok? then Ok(FRaw(bs.value)) else Thrown;
  }

  method ReadFields(pel: Stream, ks: seq<Kind>) returns (r: Result<seq<Field>>)
    requires pel.Valid()
    modifies pel`offset
    ensures pel.Valid() && Matches(ParseFields(old(pel.Remaining()), ks), r, pel.Remaining())
  {
    hide FieldOf;
    ghost var bs := pel.Remaining();
    var fs: seq<Field> := [];
    S.AfterNothing(ParseFields(bs, ks));
    assert ks[0..] == ks;
    for i := 0 to |ks|
      invariant pel.Valid()
      invariant ParseFields(bs, ks) == After(fs, ParseFields(pel.Remaining(), ks[i..]))
    {
      var f := ReadField(pel, ks[i]);
      assert ks[i..][0] == ks[i] && ks[i..][1..] == ks[i + 1..];
      if f.Thrown? { return Thrown; }
      S.AfterBoth(fs, [f.value], ParseFields(pel.Remaining(), ks[i + 1..]));
      fs := fs + [f.value];
    }
    assert fs + [] == fs;
    r := Ok(fs);
  }

  method ReadData(pel: Stream, n: nat) returns (r: Result<Tail>)
    requires pel.Valid()
    modifies pel`offset
    ensures pel.Valid() && Matches(TakeData(old(pel.Remaining()), n), r, pel.Remaining())
  {
    var bs := pel.ReadBytes(n);
    r := if bs.Ok? then Ok(Data(bs.value)) else Thrown;
  }

  method ReadTail(pel: Stream, h: Header, fs: seq<Field>) returns (r: Result<Tail>)
    requires pel.Valid() && OfKinds(fs, BodyKinds(h.id))
    modifies pel`offset
    ensures pel.Valid() && Matches(ParseTail(h, fs, old(pel.Remaining())), r, pel.Remaining())
  {
    hide C.ParseCallouts;
    if h.id == PRIMARY_SRC || h.id == SECONDARY_SRC {
      if !Bit(fs[1].b, ADDITIONAL_SECTIONS) { return Ok(NoTail); }
      var callouts := new S.Callouts();
      var ok := callouts.Read(pel);
      if !ok { return Thrown; }
      return Ok(CalloutTail(callouts.Value()));
    }
    if h.id == EXTENDED_USER_HEADER {
      r := ReadData(pel, fs[9].b);
    } else if h.id == EXT_USER_DATA {
      if h.size <= 12 { return Thrown; }
      r := ReadData(pel, h.size - 12);
    } else if h.id in {PRIVATE_HEADER, USER_HEADER, FAILING_MTMS} {
      r := Ok(NoTail);
    } else {
      if h.size <= 8 { return Thrown; }
      r := ReadData(pel, h.size - 8);
    }
  }

  /** A look at the section ID that leaves the stream as it was; 0 if there is none. */
  method PeekID(pel: Stream) returns (sectionID: Word)
    requires pel.Valid()
    modifies pel`offset
    ensures pel.Valid() && pel.offset == old(pel.offset)
    ensures var bs := pel.Remaining(); sectionID == if |bs| >= 2 then FromBigEndian16(bs[..2]) else 0
  {
    sectionID := 0;
    if |pel.Remaining()| >= 2 {
      var id := pel.ReadWord();
      sectionID := id.value;
      var back := pel.Seek(pel.offset - 2);
    }
  }

  /** section_factory::create: the fixed fields are those of the ID looked at. */
  method ReadSection(pel: Stream) returns (r: Result<Section>)
    requires pel.Valid()
    modifies pel`offset
    ensures pel.Valid() && Matches(Parse(old(pel.Remaining())), r, pel.Remaining())
  {
    hide ParseFields, ParseTail, BodyKinds, Validates, TakeData;
    ghost var start := pel.Remaining();
    var sectionID := PeekID(pel);
    var hs := ReadFields(pel, HEADER_KINDS);
    if hs.Thrown? { return Thrown; }
    IDInFront(start);
    var h := ToHeader(hs.value);
    var fs := ReadFields(pel, BodyKinds(sectionID));
    if fs.Thrown? { return Thrown; }
    ghost var more := pel.Remaining();
    var tail := ReadTail(pel, h, fs.value);
    if tail.Thrown? { return Thrown; }
    TailIsRight(h, fs.value, more);
    var s := Section(h, ToBody(h, fs.value, tail.value));
    r := if Validates(s) then Ok(s) else Thrown;
  }

  /** The ID looked at is the one in the header. */
  lemma IDInFront(bs: seq<Byte>)
    requires ParseFields(bs, HEADER_KINDS).Ok?
    ensures |bs| >= 2 && ToHeader(ParseFields(bs, HEADER_KINDS).value.value).id == FromBigEndian16(bs[..2])
  {
    assert HEADER_KINDS == [U16] + HEADER_KINDS[1..];
    assert ParseFields(bs, HEADER_KINDS) == After([FieldOf(bs[..2], U16)], ParseFields(bs[2..], HEADER_KINDS[1..]));
  }

  lemma TailIsRight(h: Header, fs: seq<Field>, bs: seq<Byte>)
    requires OfKinds(fs, BodyKinds(h.id)) && ParseTail(h, fs, bs).Ok?
    ensures TailFits(h, fs, ParseTail(h, fs, bs).value.value)
  {
    hide C.ParseCallouts;
  }

  // ------------------------------------------------------------------- writing

  method WriteFields(pel: Stream, fs: seq<Field>)
    requires pel.Valid()
    modifies pel
    ensures S.Wrote(pel, PrintFields(fs))
  {
    hide Overwritten, PrintField;
    ghost var data, offset := pel.data, pel.offset;
    OverwrittenNothing(data, offset);
    for i := 0 to |fs|
      invariant pel.Valid() && pel.offset == offset + |PrintFields(fs[..i])|
      invariant pel.data == Overwritten(data, offset, PrintFields(fs[..i]))
    {
      OverwrittenTwice(data, offset, PrintFields(fs[..i]), PrintField(fs[i]));
      pel.Write(PrintField(fs[i]));
      PrintFieldsSplit(fs[..i], fs[i]);
      assert fs[..i + 1] == fs[..i] + [fs[i]];
    }
    assert fs[..|fs|] == fs;
  }

  lemma {:induction false} PrintFieldsSplit(fs: seq<Field>, f: Field)
    ensures PrintFields(fs + [f]) == PrintFields(fs) + PrintField(f)
  {
    hide PrintField;
    if fs == [] {
      assert PrintFields([f]) == PrintField(f) + [];
    } else {
      assert (fs + [f])[1..] == fs[1..] + [f];
      PrintFieldsSplit(fs[1..], f);
      Assoc(PrintField(fs[0]), PrintFields(fs[1..]), PrintField(f));
    }
  }

  method WriteTrailer(pel: Stream, b: Body)
    requires pel.Valid()
    modifies pel
    ensures S.Wrote(pel, Trailer(b))
  {
    hide Overwritten, C.FlattenCallouts;
    OverwrittenNothing(pel.data, pel.offset);
    if b.SRC? {
      if b.callouts.Some? {
        var callouts := new S.Callouts.Of(b.callouts.value);
        callouts.Flatten(pel);
      }
    } else if b.ExtendedUserHeader? {
      pel.Write(b.symptomID);
    } else if b.UserData? || b.ExtendedUserData? || b.Generic? {
      pel.Write(b.data);
    }
  }

  /** Section::flatten */
  method WriteSection(pel: Stream, s: Section)
    requires pel.Valid() && Printable(s)
    modifies pel
    ensures S.Wrote(pel, Flatten(s))
  {
    hide Overwritten, PrintFields, BodyFields, HeaderFields, Trailer;
    ghost var fields := PrintFields(BodyFields(s.body));
    OverwrittenTwice(pel.data, pel.offset, PrintFields(HeaderFields(s.header)), fields + Trailer(s.body));
    WriteFields(pel, HeaderFields(s.header));
    OverwrittenTwice(pel.data, pel.offset, fields, Trailer(s.body));
    WriteFields(pel, BodyFields(s.body));
    WriteTrailer(pel, s.body);
  }

  // ------------------------------------------------------------------- the PEL

  class PEL {
    var ph: Section
    var uh: Section
    var optionalSections: seq<Section>

    ghost function View(): P.Pel
      reads this
    {
      P.Pel(ph, uh, optionalSections)
    }

    constructor (ph: Section, uh: Section)
      ensures View() == P.Pel(ph, uh, [])
    {
      this.ph, this.uh, optionalSections := ph, uh, [];
    }

    /** populateFromRawData: false stands for a PEL that is not valid(). */
    method PopulateFromRawData(pel: Stream) returns (ok: bool)
      requires pel.Valid()
      modifies this, pel`offset
      ensures pel.Valid()
      ensures Matches(P.ParsePel(old(pel.Remaining())), if ok then Ok(View()) else Thrown, pel.Remaining())
    {
      hide Parse;
      var first := ReadSection(pel);
      if first.Thrown? { return false; }
      var second := ReadSection(pel);
      if second.Thrown? { return false; }
      if !first.value.body.PrivateHeader? || !second.value.body.UserHeader? || first.value.body.sectionCount < 2 {
        return false;
      }
      ph, uh, optionalSections := first.value, second.value, [];
      ghost var bs := pel.Remaining();
      var count: nat := first.value.body.sectionCount;
      S.AfterNothing(P.ParseSections(bs, count - 2));
      for i := 2 to count
        invariant pel.Valid() && ph == first.value && uh == second.value
        invariant P.ParseSections(bs, count - 2) == After(optionalSections, P.ParseSections(pel.Remaining(), count - i))
      {
        var section := ReadSection(pel);
        if section.Thrown? { return false; }
        S.AfterBoth(optionalSections, [section.value], P.ParseSections(pel.Remaining(), count - i - 1));
        optionalSections := optionalSections + [section.value];
      }
      assert optionalSections + [] == optionalSections;
      return true;
    }

    /** size() */
    method Size() returns (size: nat)
      ensures size == P.Size(View())
    {
      size := ph.header.size + uh.header.size;
      assert [ph, uh] + optionalSections[..0] == [ph] + [uh] && P.SumOfHeaderSizes([uh]) == uh.header.size;
      G.SumOfHeaderSizesSplit([ph], [uh]);
      for i := 0 to |optionalSections|
        invariant size == P.SumOfHeaderSizes([ph, uh] + optionalSections[..i])
      {
        G.SumOfHeaderSizesSplit([ph, uh] + optionalSections[..i], [optionalSections[i]]);
        assert [ph, uh] + optionalSections[..i + 1] == [ph, uh] + optionalSections[..i] + [optionalSections[i]];
        size := size + optionalSections[i].header.size;
      }
      assert optionalSections[..|optionalSections|] == optionalSections;
    }

    method AddUserDataSection(userData: Section) returns (added: bool)
      requires userData.body.UserData?
      modifies this`optionalSections
      ensures View() == G.AddUserData(old(View()), userData)
      ensures !added ==> optionalSections == old(optionalSections)
      ensures added ==> |optionalSections| == |old(optionalSections)| + 1
    {
      var size := Size();
      if size + userData.header.size > P.MAX_PEL_SIZE {
        var shrunk := G.Shrunk(userData, (P.MAX_PEL_SIZE - size) % G.SIZE_T);
        if shrunk.None? { return false; }
        optionalSections := optionalSections + [shrunk.value];
      } else {
        optionalSections := optionalSections + [userData];
      }
      return true;
    }

    /** addJournalSections, from the buffers the journal gave. */
    method AddJournalSections(buffers: seq<seq<Byte>>)
      modifies this`optionalSections
      ensures View() == G.AddAll(old(View()), seq(|buffers|, i requires 0 <= i < |buffers| => G.Journal(buffers[i])))
    {
      hide G.Add;
      ghost var additions := seq(|buffers|, i requires 0 <= i < |buffers| => G.Journal(buffers[i]));
      assert additions[0..] == additions;
      for i := 0 to |buffers|
        invariant ph == old(ph) && uh == old(uh)
        invariant G.AddAll(View(), additions[i..]) == G.AddAll(old(View()), additions)
      {
        assert additions[i..][0] == G.Journal(buffers[i]) && additions[i..][1..] == additions[i + 1..];
        AddJournalSection(buffers[i]);
      }
      assert additions[|buffers|..] == [];
    }

    method AddJournalSection(lines: seq<Byte>)
      modifies this`optionalSections
      ensures View() == G.Add(old(View()), G.Journal(lines))
    {
      if |lines| > P.MAX_PEL_SIZE { return; }
      var buffer := lines;
      while |buffer| % 4 != 0
        invariant |lines| <= |buffer| <= |lines| + (4 - |lines| % 4) % 4
        invariant buffer == lines + seq(|buffer| - |lines|, _ => 0)
        decreases |lines| + 4 - |buffer|
      {
        buffer := buffer + [0];
      }
      assert buffer == G.Padded(lines);
      var ud := G.NewUserData(G.JOURNAL_COMPONENT, G.TEXT_FORMAT, G.TEXT_VERSION, buffer);
      var size := Size();
      if size + ud.header.size <= P.MAX_PEL_SIZE {
        optionalSections := optionalSections + [ud];
      }
    }

    /** flatten() */
    method Flatten(pel: Stream)
      requires pel.Valid() && P.PrintableAll(P.All(View()))
      modifies pel
      ensures S.Wrote(pel, P.FlattenPel(View()))
    {
      hide Overwritten, Sections.Flatten;
      ghost var data, offset := pel.data, pel.offset;
      var sections := [ph, uh] + optionalSections;
      OverwrittenNothing(data, offset);
      for i := 0 to |sections|
        invariant P.PrintableAll(sections[..i])
        invariant pel.Valid() && pel.offset == offset + |P.FlattenSections(sections[..i])|
        invariant pel.data == Overwritten(data, offset, P.FlattenSections(sections[..i]))
      {
        assert sections[i] in P.All(View());
        OverwrittenTwice(data, offset, P.FlattenSections(sections[..i]), Sections.Flatten(sections[i]));
        WriteSection(pel, sections[i]);
        G.FlattenSectionsSplit(sections[..i], sections[i]);
        assert sections[..i + 1] == sections[..i] + [sections[i]];
      }
      assert sections[..|sections|] == sections;
    }
  }
}
