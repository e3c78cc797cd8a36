/** Adding user data to a PEL: shrinking, dropping, the 16 KB cap, and what the
    finished PEL reads back as. */
module PelGrowth {
  import opened Wrappers
  import opened Bytes
  import opened PelFields
  import opened Sections
  import opened PelFormat

  const SIZE_T := 0x1_0000_0000_0000_0000

  /** UserData(componentID, subType, version, data): the size field has 16 bits. */
  function NewUserData(componentID: Word, subType: Byte, version: Byte, data: seq<Byte>): Section {
    Section(Header(USER_DATA, (8 + |data|) % 0x1_0000, version, subType, componentID), UserData(data))
  }

  /** Section::shrink of a UserData section; None when it refuses. */
  function Shrunk(ud: Section, newSize: nat): Option<Section>
    requires ud.body.UserData?
  {
    var data := ud.body.data;
    if 12 <= newSize < 8 + |data| then
      var kept := data[..(newSize - 8) / 4 * 4];
      Some(Section(ud.header.(size := (8 + |kept|) % 0x1_0000), UserData(kept)))
    else None
  }

  /** The room left, as the unsigned subtraction computes it. */
  function Room(p: Pel): nat { (MAX_PEL_SIZE - Size(p)) % SIZE_T }

  function Push(p: Pel, s: Section): Pel { p.(optional := p.optional + [s]) }

  /** addUserDataSection */
  function AddUserData(p: Pel, ud: Section): Pel
    requires ud.body.UserData?
  {
    if Size(p) + ud.header.size > MAX_PEL_SIZE then
      match Shrunk(ud, Room(p))
      case Some(shrunk) => Push(p, shrunk)
      case None => p
    else Push(p, ud)
  }

  function Padded(buffer: seq<Byte>): seq<Byte> { buffer + seq((4 - |buffer| % 4) % 4, _ => 0) }

  const JOURNAL_COMPONENT: Word := 0x2000
  const TEXT_FORMAT: Byte := 3
  const TEXT_VERSION: Byte := 1

  /** One buffer of addJournalSections: it fits as it is, or is dropped. */
  function AddJournal(p: Pel, buffer: seq<Byte>): Pel {
    if |buffer| > MAX_PEL_SIZE then p
    else
      var ud := NewUserData(JOURNAL_COMPONENT, TEXT_FORMAT, TEXT_VERSION, Padded(buffer));
      if Size(p) + ud.header.size <= MAX_PEL_SIZE then Push(p, ud) else p
  }

  datatype Addition =
    | Data(componentID: Word, subType: Byte, version: Byte, data: seq<Byte>)
    | Journal(buffer: seq<Byte>)

  function Add(p: Pel, a: Addition): Pel {
    match a
    case Data(componentID, subType, version, data) => AddUserData(p, NewUserData(componentID, subType, version, data))
    case Journal(buffer) => AddJournal(p, buffer)
  }

  function AddAll(p: Pel, additions: seq<Addition>): Pel
    decreases |additions|
  {
    if additions == [] then p else AddAll(Add(p, additions[0]), additions[1..])
  }

  // ------------------------------------------------------------------- the cap

  lemma {:induction false} SumOfHeaderSizesSplit(a: seq<Section>, b: seq<Section>)
    ensures SumOfHeaderSizes(a + b) == SumOfHeaderSizes(a) + SumOfHeaderSizes(b)
  {
    if a == [] {
      assert a + b == b;
    } else {
      assert (a + b)[1..] == a[1..] + b;
      SumOfHeaderSizesSplit(a[1..], b);
    }
  }

  lemma PushSize(p: Pel, s: Section)
    ensures Size(Push(p, s)) == Size(p) + s.header.size
  {
    AllPushed(p, s);
    SumOfHeaderSizesSplit(All(p), [s]);
  }

  /** No addition takes a PEL over the cap, whatever its data. */
  lemma AddKeepsCap(p: Pel, a: Addition)
    requires Size(p) <= MAX_PEL_SIZE
    ensures Size(Add(p, a)) <= MAX_PEL_SIZE && Room(p) == MAX_PEL_SIZE - Size(p)
  {
    hide Size;
    if Add(p, a) != p {
      var s := Add(p, a).optional[|p.optional|];
      assert Add(p, a) == Push(p, s);
      PushSize(p, s);
    }
  }

  lemma {:induction false} AddAllKeepsCap(p: Pel, additions: seq<Addition>)
    requires Size(p) <= MAX_PEL_SIZE
    ensures Size(AddAll(p, additions)) <= MAX_PEL_SIZE
    decreases |additions|
  {
    if additions != [] {
      AddKeepsCap(p, additions[0]);
      AddAllKeepsCap(Add(p, additions[0]), additions[1..]);
    }
  }

  /** A section that does not fit by its stated size, wrapped or not, keeps the longest
      prefix of whole words that does, and is dropped only if not even one word would
      fit. */
  lemma ShrinksToLongestFit(p: Pel, ud: Section)
    requires Size(p) <= MAX_PEL_SIZE && ud.body.UserData? && ud.header.size == (8 + |ud.body.data|) % 0x1_0000
    requires Size(p) + ud.header.size > MAX_PEL_SIZE
    ensures Size(p) + 12 > MAX_PEL_SIZE <==> AddUserData(p, ud) == p
    ensures Size(p) + 12 <= MAX_PEL_SIZE ==>
      exists n: nat :: n % 4 == 0 && n <= |ud.body.data| && 8 + n <= MAX_PEL_SIZE
        && AddUserData(p, ud) == Push(p, Section(ud.header.(size := 8 + n), UserData(ud.body.data[..n])))
        && Size(p) + 8 + n <= MAX_PEL_SIZE < Size(p) + 8 + n + 4
  {
    hide Size, Shrunk, Push, Room;
    ShrunkToRoom(p, ud);
    if Size(p) + 12 <= MAX_PEL_SIZE {
      var n := WordsThatFit(Size(p));
      assert AddUserData(p, ud) == Push(p, Section(ud.header.(size := 8 + n), UserData(ud.body.data[..n])));
      PushedAnother(p, Section(ud.header.(size := 8 + n), UserData(ud.body.data[..n])));
    }
  }

  lemma PushedAnother(p: Pel, s: Section)
    ensures Push(p, s) != p
  {
    assert |Push(p, s).optional| == |p.optional| + 1;
  }

  /** The whole words that still fit. */
  lemma WordsThatFit(size: nat) returns (n: nat)
    requires size + 12 <= MAX_PEL_SIZE
    ensures n == (MAX_PEL_SIZE - size - 8) / 4 * 4 && n % 4 == 0
    ensures size + 8 + n <= MAX_PEL_SIZE < size + 8 + n + 4
  {
    n := (MAX_PEL_SIZE - size - 8) / 4 * 4;
  }

  lemma ShrunkToRoom(p: Pel, ud: Section)
    requires Size(p) <= MAX_PEL_SIZE && ud.body.UserData? && ud.header.size == (8 + |ud.body.data|) % 0x1_0000
    requires Size(p) + ud.header.size > MAX_PEL_SIZE
    ensures Size(p) + 12 > MAX_PEL_SIZE ==> Shrunk(ud, Room(p)).None?
    ensures Size(p) + 12 <= MAX_PEL_SIZE ==>
      var n := (MAX_PEL_SIZE - Size(p) - 8) / 4 * 4;
      && n <= |ud.body.data| && 8 + n <= MAX_PEL_SIZE
      && Shrunk(ud, Room(p)) == Some(Section(ud.header.(size := 8 + n), UserData(ud.body.data[..n])))
  {
    hide Size, Room;
    RoomLeft(p);
  }

  lemma RoomLeft(p: Pel)
    requires Size(p) <= MAX_PEL_SIZE
    ensures Room(p) == MAX_PEL_SIZE - Size(p)
  {
    hide Size;
  }

  // --------------------------------------------- header sizes and real lengths

  /** The header states the length the section has when printed. */
  ghost predicate RightSize(s: Section) { Printable(s) && s.header.size == |Flatten(s)| }

  ghost predicate AllRightSize(ss: seq<Section>) { forall s | s in ss :: RightSize(s) }

  lemma UserDataLength(ud: Section)
    requires ud.body.UserData?
    ensures |Flatten(ud)| == 8 + |ud.body.data|
  {
    hide HeaderFields;
    HeaderWidths(ud.header);
    assert PrintFields(BodyFields(ud.body)) == [];
  }

  /** The size field is right exactly when the data is shorter than 65528 bytes. */
  lemma NewUserDataSize(componentID: Word, subType: Byte, version: Byte, data: seq<Byte>)
    ensures RightSize(NewUserData(componentID, subType, version, data)) <==> |data| < 65528
  {
    UserDataLength(NewUserData(componentID, subType, version, data));
  }

  lemma {:induction false} SizeIsLength(ss: seq<Section>)
    requires AllRightSize(ss)
    ensures PrintableAll(ss) && |FlattenSections(ss)| == SumOfHeaderSizes(ss)
  {
    hide Flatten;
    assert forall s | s in ss :: Printable(s) by { assert forall s | s in ss :: RightSize(s); }
    if ss != [] {
      assert ss[0] in ss && RightSize(ss[0]);
      SizeIsLength(ss[1..]);
    }
  }

  /** Data too long for the size field, in a PEL that the wrapped size fits into. */
  predicate Wraps(p: Pel, a: Addition) {
    a.Data? && |a.data| >= 65528 && Size(p) + (8 + |a.data|) % 0x1_0000 <= MAX_PEL_SIZE
  }

  /** An addition of no data. The constructor of a PEL makes none of an empty FFDC file;
      the class UserData and addUserDataSection accept one. */
  predicate Empty(a: Addition) {
    match a
    case Data(_, _, _, data) => data == []
    case Journal(buffer) => buffer == []
  }

  /** after has one section more than p, of user data, and its size is right unless it
      wrapped. */
  predicate Pushed(p: Pel, after: Pel, wraps: bool, empty: bool) {
    |after.optional| == |p.optional| + 1 &&
    var s := after.optional[|p.optional|];
    && after == Push(p, s) && s.body.UserData? && s.header.id == USER_DATA
    && (s.header.size == 8 + |s.body.data| <==> !wraps) && (wraps ==> |s.body.data| >= 65528)
    && (s.body.data == [] <==> empty)
  }

  /** What an addition puts behind the others, if it does, and whether its size is right. */
  lemma AddPushes(p: Pel, a: Addition)
    requires Size(p) <= MAX_PEL_SIZE
    ensures Wraps(p, a) ==> Add(p, a) != p
    ensures Empty(a) ==> (Add(p, a) != p <==> Size(p) + 8 <= MAX_PEL_SIZE)
    ensures Add(p, a) != p ==> Pushed(p, Add(p, a), Wraps(p, a), Empty(a))
  {
    hide Size, Shrunk, AddUserData, AddJournal, Pushed, NewUserData;
    match a
    case Data(componentID, subType, version, data) => DataPushes(p, componentID, subType, version, data);
    case Journal(buffer) => JournalPushes(p, buffer);
  }

  lemma DataPushes(p: Pel, componentID: Word, subType: Byte, version: Byte, data: seq<Byte>)
    requires Size(p) <= MAX_PEL_SIZE
    ensures var after := AddUserData(p, NewUserData(componentID, subType, version, data));
      var wraps := |data| >= 65528 && Size(p) + (8 + |data|) % 0x1_0000 <= MAX_PEL_SIZE;
      && (wraps ==> after != p) && (data == [] ==> (after != p <==> Size(p) + 8 <= MAX_PEL_SIZE))
      && (after != p ==> Pushed(p, after, wraps, data == []))
  {
    hide Size;
  }

  lemma JournalPushes(p: Pel, buffer: seq<Byte>)
    requires Size(p) <= MAX_PEL_SIZE
    ensures var after := AddJournal(p, buffer);
      && (buffer == [] ==> (after != p <==> Size(p) + 8 <= MAX_PEL_SIZE))
      && (after != p ==> Pushed(p, after, false, buffer == []))
  {
    hide Size;
  }

  lemma AddLength(p: Pel, a: Addition)
    requires Size(p) <= MAX_PEL_SIZE && PrintableAll(All(p)) && Add(p, a) != p
    ensures PrintableAll(All(Add(p, a)))
    ensures |FlattenPel(Add(p, a))| == |FlattenPel(p)| + 8 + |Add(p, a).optional[|p.optional|].body.data|
  {
    hide Flatten, Size, Add, Wraps;
    AddPushes(p, a);
    var s := Add(p, a).optional[|p.optional|];
    AllPushed(p, s);
    UserDataLength(s);
    FlattenSectionsSplit(All(p), s);
  }

  /** One addition to a PEL within the cap keeps its bytes within the cap exactly when the
      size field of its section does not wrap to one that fits; then every header still
      states the length of its section. */
  lemma CapKeptIffNoWrap(p: Pel, a: Addition)
    requires Size(p) <= MAX_PEL_SIZE && AllRightSize(All(p))
    ensures PrintableAll(All(Add(p, a)))
    ensures |FlattenPel(Add(p, a))| <= MAX_PEL_SIZE <==> !Wraps(p, a)
    ensures AllRightSize(All(Add(p, a))) <==> !Wraps(p, a)
  {
    hide Flatten, Size, Add, RightSize, Wraps;
    AddPushes(p, a);
    AddKeepsCap(p, a);
    LengthOfPel(p);
    if Add(p, a) != p {
      AddLength(p, a);
      var s := Add(p, a).optional[|p.optional|];
      UserDataLength(s);
      AllPushed(p, s);
      RightSizePushed(All(p), s);
      if !Wraps(p, a) { LengthOfPel(Add(p, a)); }
    }
  }

  lemma RightSizePushed(ss: seq<Section>, s: Section)
    requires AllRightSize(ss) && s.body.UserData?
    ensures AllRightSize(ss + [s]) <==> s.header.size == |Flatten(s)|
  {
    hide Flatten;
    assert s in ss + [s];
    assert Printable(s);
  }

  /** No addition of the run has its size field wrap. */
  predicate NeverWraps(p: Pel, additions: seq<Addition>)
    decreases |additions|
  {
    additions == [] || (!Wraps(p, additions[0]) && NeverWraps(Add(p, additions[0]), additions[1..]))
  }

  lemma {:induction false} LengthGrows(p: Pel, additions: seq<Addition>)
    requires Size(p) <= MAX_PEL_SIZE && PrintableAll(All(p))
    ensures PrintableAll(All(AddAll(p, additions))) && |FlattenPel(AddAll(p, additions))| >= |FlattenPel(p)|
    decreases |additions|
  {
    hide Add, Size, Flatten, FlattenPel, All, PrintableAll;
    if additions != [] {
      AddKeepsCap(p, additions[0]);
      if Add(p, additions[0]) != p { AddLength(p, additions[0]); }
      LengthGrows(Add(p, additions[0]), additions[1..]);
    }
  }

  /** From a PEL within the cap, any run of additions gives one whose printed bytes are at
      most 16384 exactly when no size field wraps on the way; then they number exactly
      size(). */
  lemma {:induction false} AddAllWithinCapIff(p: Pel, additions: seq<Addition>)
    requires Size(p) <= MAX_PEL_SIZE && AllRightSize(All(p))
    ensures var built := AddAll(p, additions);
      && PrintableAll(All(built)) && Size(built) <= MAX_PEL_SIZE
      && (|FlattenPel(built)| <= MAX_PEL_SIZE <==> NeverWraps(p, additions))
      && (NeverWraps(p, additions) ==> AllRightSize(All(built)) && |FlattenPel(built)| == Size(built))
    decreases |additions|
  {
    hide Add, AllRightSize, Size, Flatten, FlattenPel, Wraps, All, PrintableAll;
    LengthOfPel(p);
    if additions != [] {
      var next := Add(p, additions[0]);
      AddKeepsCap(p, additions[0]);
      CapKeptIffNoWrap(p, additions[0]);
      if Wraps(p, additions[0]) {
        LengthGrows(next, additions[1..]);
        AddAllKeepsCap(next, additions[1..]);
      } else {
        AddAllWithinCapIff(next, additions[1..]);
      }
    }
  }

  lemma LengthOfPel(p: Pel)
    requires AllRightSize(All(p))
    ensures PrintableAll(All(p)) && |FlattenPel(p)| == Size(p)
  {
    SizeIsLength(All(p));
  }

  /** 65536 bytes of data in a PEL with room for eight break the cap. */
  lemma LongDataBreaksCap(p: Pel)
    requires AllRightSize(All(p)) && Size(p) + 8 <= MAX_PEL_SIZE
    ensures var after := Add(p, Addition.Data(0, 0, 0, seq(65536, _ => 0)));
      PrintableAll(All(after)) && |FlattenPel(after)| > MAX_PEL_SIZE
  {
    CapKeptIffNoWrap(p, Addition.Data(0, 0, 0, seq(65536, _ => 0)));
  }

  lemma AllPushed(p: Pel, s: Section)
    ensures All(Push(p, s)) == All(p) + [s]
  {}

  lemma {:induction false} FlattenSectionsSplit(ss: seq<Section>, s: Section)
    requires PrintableAll(ss) && Printable(s)
    ensures PrintableAll(ss + [s]) && FlattenSections(ss + [s]) == FlattenSections(ss) + Flatten(s)
  {
    hide Flatten;
    if ss == [] {
      assert [] + [s] == [s] && FlattenSections([s]) == Flatten(s) + [];
    } else {
      assert (ss + [s])[1..] == ss[1..] + [s];
      FlattenSectionsSplit(ss[1..], s);
      Assoc(Flatten(ss[0]), FlattenSections(ss[1..]), Flatten(s));
    }
  }

  // ------------------------------------------------------- the finished PEL

  /** A UserData section reads back as itself exactly when it has some data, short of
      65528 bytes: an empty one makes the whole PEL invalid when it is read. */
  lemma UserDataReadsBack(componentID: Word, subType: Byte, version: Byte, data: seq<Byte>, tail: seq<Byte>)
    ensures var ud := NewUserData(componentID, subType, version, data);
      Parse(Flatten(ud) + tail) == Ok(Read(ud, tail)) <==> 0 < |data| < 65528
  {
    var ud := NewUserData(componentID, subType, version, data);
    hide Parse, Flatten;
    if 0 < |data| < 65528 {
      SectionRoundTrip(ud, tail);
    } else if Parse(Flatten(ud) + tail) == Ok(Read(ud, tail)) {
      ReprintedIffInOrder(Flatten(ud) + tail);
      assert false;
    }
  }

  function WithCount(p: Pel, count: Byte): Pel
    requires p.ph.body.PrivateHeader?
  {
    p.(ph := p.ph.(body := p.ph.body.(sectionCount := count)))
  }

  /** setSectionCount, as the last step of building a PEL: the count is a byte. */
  function Finish(p: Pel): Pel
    requires p.ph.body.PrivateHeader?
  {
    WithCount(p, (2 + |p.optional|) % 256)
  }

  lemma {:induction false} ParsedCount(bs: seq<Byte>, n: nat)
    requires ParseSections(bs, n).Ok?
    ensures |ParseSections(bs, n).value.value| == n
    decreases n
  {
    hide Parse;
    if n > 0 { ParsedCount(Parse(bs).value.rest, n - 1); }
  }

  lemma {:induction false} ParsedWellFormed(bs: seq<Byte>, n: nat, s: Section)
    requires ParseSections(bs, n).Ok? && s in ParseSections(bs, n).value.value && s.body.UserData?
    ensures WellFormed(s)
    decreases n
  {
    hide Parse, WellFormed, InOrder, Flatten, Printable;
    if n > 0 {
      var first, behind, more, rest := SectionsUnpacked(bs, n);
      ReprintedIffInOrder(bs);
      if s != first { ParsedWellFormed(behind, n - 1, s); }
    }
  }

  /** Well-formed but perhaps for user data, and with a section count put in. */
  ghost predicate Countable(p: Pel) {
    && p.ph.body.PrivateHeader? && p.uh.body.UserHeader? && WellFormed(WithCount(p, 2).ph) && WellFormed(p.uh)
    && forall s | s in p.optional :: s.body.UserData? || WellFormed(s)
  }

  /** A finished PEL reads back as itself exactly when its sections are well-formed and
      no more than 253 beyond the two headers; with more its section count has wrapped. */
  lemma FinishedRoundTrips(p: Pel, tail: seq<Byte>)
    requires Countable(p)
    ensures PrintableAll(All(Finish(p)))
    ensures ParsePel(FlattenPel(Finish(p)) + tail) == Ok(Read(Finish(p), tail))
       <==> |p.optional| <= 253 && AllWellFormed(p.optional)
  {
    hide Parse, ParsePel, ParseSections, FlattenPel, Flatten, WellFormed, BodyFields, BodyKinds;
    FinishPrints(p);
    if |p.optional| <= 253 && AllWellFormed(p.optional) {
      FinishWellFormed(p);
      PelRoundTrip(Finish(p), tail);
    } else if ParsePel(FlattenPel(Finish(p)) + tail) == Ok(Read(Finish(p), tail)) {
      var bs := FlattenPel(Finish(p)) + tail;
      var q, rest := PelUnpacked(bs);
      ParsedCount(bs, q.ph.body.sectionCount);
      var s :| s in p.optional && !WellFormed(s);
      assert s in All(q);
      ParsedWellFormed(bs, q.ph.body.sectionCount, s);
      assert false;
    }
  }

  lemma FinishPrints(p: Pel)
    requires Countable(p)
    ensures PrintableAll(All(Finish(p)))
  {
    forall s | s in All(Finish(p)) ensures Printable(s) {}
  }

  lemma FinishWellFormed(p: Pel)
    requires Countable(p) && |p.optional| <= 253 && AllWellFormed(p.optional)
    ensures WellFormedPel(Finish(p))
  {
    CountKeepsWellFormed(WithCount(p, 2).ph, 2 + |p.optional|);
    hide WellFormed;
    forall s | s in All(Finish(p)) ensures WellFormed(s) {}
  }

  lemma CountKeepsWellFormed(ph: Section, count: Byte)
    requires WellFormed(ph) && ph.body.PrivateHeader? && count >= 2
    ensures WellFormed(ph.(body := ph.body.(sectionCount := count)))
  {}

  /** An addition that leaves a section which does not read back: an empty one, or one whose
      size field wrapped. */
  predicate Unreadable(p: Pel, a: Addition) {
    Wraps(p, a) || (Empty(a) && Size(p) + 8 <= MAX_PEL_SIZE)
  }

  predicate NeverUnreadable(p: Pel, additions: seq<Addition>)
    decreases |additions|
  {
    additions == [] || (!Unreadable(p, additions[0]) && NeverUnreadable(Add(p, additions[0]), additions[1..]))
  }

  lemma UserDataWellFormedIff(s: Section)
    requires s.body.UserData? && s.header.id == USER_DATA
    ensures WellFormed(s) <==> 0 < |s.body.data| && s.header.size == 8 + |s.body.data|
  {}

  lemma AddWellFormedIff(p: Pel, a: Addition)
    requires AllWellFormed(p.optional) && Size(p) <= MAX_PEL_SIZE
    ensures AllWellFormed(Add(p, a).optional) <==> !Unreadable(p, a)
  {
    hide Size, WellFormed, Add, Wraps;
    AddPushes(p, a);
    if Add(p, a) != p {
      var s := Add(p, a).optional[|p.optional|];
      UserDataWellFormedIff(s);
      assert s in Add(p, a).optional;
    }
  }

  /** Additions append user data and leave the rest alone. */
  lemma {:induction false} AddAllAppends(p: Pel, additions: seq<Addition>)
    requires Size(p) <= MAX_PEL_SIZE
    ensures var built := AddAll(p, additions);
      && built.ph == p.ph && built.uh == p.uh && p.optional <= built.optional
      && forall s | s in built.optional :: s in p.optional || s.body.UserData?
    decreases |additions|
  {
    hide Add, Size, Wraps;
    if additions != [] {
      AddKeepsCap(p, additions[0]);
      AddPushes(p, additions[0]);
      AddAllAppends(Add(p, additions[0]), additions[1..]);
    }
  }

  lemma {:induction false} AddAllWellFormedIff(p: Pel, additions: seq<Addition>)
    requires AllWellFormed(p.optional) && Size(p) <= MAX_PEL_SIZE
    ensures AllWellFormed(AddAll(p, additions).optional) <==> NeverUnreadable(p, additions)
    decreases |additions|
  {
    hide Add, Size, WellFormed, Unreadable;
    if additions != [] {
      var next := Add(p, additions[0]);
      AddKeepsCap(p, additions[0]);
      AddWellFormedIff(p, additions[0]);
      if Unreadable(p, additions[0]) {
        AddAllAppends(next, additions[1..]);
        var s :| s in next.optional && !WellFormed(s);
        assert s in AddAll(next, additions[1..]).optional;
      } else {
        AddAllWellFormedIff(next, additions[1..]);
      }
    }
  }

  /** Building a PEL and reading its bytes gives the same PEL back exactly when no addition
      left an empty section or a wrapped size, and the section count fits in its byte. */
  lemma BuiltPelRoundTrips(p: Pel, additions: seq<Addition>, tail: seq<Byte>)
    requires Countable(p) && AllWellFormed(p.optional) && Size(p) <= MAX_PEL_SIZE
    ensures var built := AddAll(p, additions);
      && built.ph == p.ph && PrintableAll(All(Finish(built)))
      && (ParsePel(FlattenPel(Finish(built)) + tail) == Ok(Read(Finish(built), tail))
          <==> NeverUnreadable(p, additions) && |built.optional| <= 253)
  {
    hide ParsePel, FlattenPel, AddAll, Size, PrintableAll, All, NeverUnreadable, WellFormed;
    AddAllAppends(p, additions);
    AddAllWellFormedIff(p, additions);
    var built := AddAll(p, additions);
    FinishedRoundTrips(built, tail);
  }

  /** With data in every addition only a wrapped size can be in the way. */
  lemma {:induction false} NonemptyUnreadableIffWraps(p: Pel, additions: seq<Addition>)
    requires forall a | a in additions :: !Empty(a)
    ensures NeverUnreadable(p, additions) <==> NeverWraps(p, additions)
    decreases |additions|
  {
    hide Add, Wraps, Empty;
    if additions != [] {
      assert additions[0] in additions;
      NonemptyUnreadableIffWraps(Add(p, additions[0]), additions[1..]);
    }
  }

  // ------------------------------------------------------------ too many sections

  function Words(n: nat): seq<Addition> { seq(n, _ => Addition.Data(0, 0, 0, [0, 0, 0, 0])) }

  /** Additions of four bytes, as many as there is room for. */
  lemma {:induction false} WordsAdded(p: Pel, n: nat)
    requires Size(p) + 12 * n <= MAX_PEL_SIZE
    ensures |AddAll(p, Words(n)).optional| == |p.optional| + n
    ensures NeverWraps(p, Words(n)) && NeverUnreadable(p, Words(n))
    decreases n
  {
    hide Size;
    if n > 0 {
      var a := Addition.Data(0, 0, 0, [0, 0, 0, 0]);
      var next := Push(p, NewUserData(0, 0, 0, [0, 0, 0, 0]));
      assert Words(n)[0] == a && Words(n)[1..] == Words(n - 1);
      assert Add(p, a) == next;
      PushSize(p, NewUserData(0, 0, 0, [0, 0, 0, 0]));
      WordsAdded(next, n - 1);
    }
  }

  /** 254 sections of four bytes of data stay far below the cap, and do not read back. */
  lemma TooManySectionsToRead(p: Pel, tail: seq<Byte>)
    requires Countable(p) && AllWellFormed(p.optional) && AllRightSize(All(p)) && Size(p) + 3048 <= MAX_PEL_SIZE
    ensures var built := AddAll(p, Words(254));
      && PrintableAll(All(built)) && |FlattenPel(built)| <= MAX_PEL_SIZE
      && built.ph == p.ph && PrintableAll(All(Finish(built)))
      && ParsePel(FlattenPel(Finish(built)) + tail) != Ok(Read(Finish(built), tail))
  {
    hide ParsePel, FlattenPel, AddAll, Size, PrintableAll, All, NeverUnreadable, NeverWraps, WellFormed, RightSize;
    WordsAdded(p, 254);
    AddAllWithinCapIff(p, Words(254));
    BuiltPelRoundTrips(p, Words(254), tail);
  }

  // --------------------------------------------------------- extended user data

  /** ExtendedUserData(componentID, subType, version, creatorID, data) */
  function NewExtendedUserData(componentID: Word, subType: Byte, version: Byte, creatorID: Byte, data: seq<Byte>): Section {
    Section(Header(EXT_USER_DATA, (12 + |data|) % 0x1_0000, version, subType, componentID),
            ExtendedUserData(creatorID, 0, 0, data))
  }

  /** Section::shrink of an ExtendedUserData section; None when it refuses. */
  function ShrunkExtended(ed: Section, newSize: nat): Option<Section>
    requires ed.body.ExtendedUserData?
  {
    var data := ed.body.data;
    if 16 <= newSize < 12 + |data| then
      var kept := data[..(newSize - 12) / 4 * 4];
      Some(Section(ed.header.(size := (12 + |kept|) % 0x1_0000), ed.body.(data := kept)))
    else None
  }

  /** Like user data, it reads back as itself exactly when its data is neither empty
      nor too long for the size field. */
  lemma ExtendedUserDataReadsBack(componentID: Word, subType: Byte, version: Byte, creatorID: Byte, data: seq<Byte>,
                                  tail: seq<Byte>)
    ensures var ed := NewExtendedUserData(componentID, subType, version, creatorID, data);
      Parse(Flatten(ed) + tail) == Ok(Read(ed, tail)) <==> 0 < |data| < 65524
  {
    var ed := NewExtendedUserData(componentID, subType, version, creatorID, data);
    hide Parse, Flatten;
    if 0 < |data| < 65524 {
      SectionRoundTrip(ed, tail);
    } else if Parse(Flatten(ed) + tail) == Ok(Read(ed, tail)) {
      ReprintedIffInOrder(Flatten(ed) + tail);
      assert false;
    }
  }

  /** Shrinking a readable section leaves a readable one whose stated size is its
      length, no more than asked for and less than a word short of it. */
  lemma ExtendedShrinksToLongestFit(ed: Section, newSize: nat)
    requires ed.body.ExtendedUserData? && WellFormed(ed)
    ensures ShrunkExtended(ed, newSize).Some? <==> 16 <= newSize < ed.header.size
    ensures ShrunkExtended(ed, newSize).Some? ==>
      var shrunk := ShrunkExtended(ed, newSize).value;
      && WellFormed(shrunk) && shrunk.header.size == |Flatten(shrunk)|
      && shrunk.header.size <= newSize < shrunk.header.size + 4
      && |shrunk.body.data| % 4 == 0 && shrunk.body.data <= ed.body.data
  {
    if 16 <= newSize < ed.header.size {
      var shrunk := ShrunkExtended(ed, newSize).value;
      assert WellFormed(shrunk);
      FlattenedLength(shrunk);
      ExtendedWidths();
    }
  }

  lemma ExtendedWidths()
    ensures Widths(BodyKinds(EXT_USER_DATA)) == 4
  {
    assert [U8, U8, U16][1..] == [U8, U16] && [U8, U16][1..] == [U16] && [U16][1..] == [];
  }
}
