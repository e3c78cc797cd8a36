/** The constructors that read callouts off a stream and the calls that write them
    back, one turn of a loop at a time, and the object that collects callouts. */
module CalloutStreams {
  import opened Wrappers
  import opened Bytes
  import opened PelStream
  import opened CalloutFormat
  import opened CalloutBuilding
  import L = CalloutList
  import F = CalloutFormat

  // ------------------------------------------------------------------- reading

  method ReadHead(pel: Stream) returns (r: Result<Head>)
    requires pel.Valid()
    modifies pel`offset
    ensures pel.Valid() && Matches(ParseHead(old(pel.Remaining())), r, pel.Remaining())
  {
    var kind := pel.ReadWord();
    if kind.Thrown? { return Thrown; }
    var size := pel.ReadByte();
    if size.Thrown? { return Thrown; }
    var flags := pel.ReadByte();
    if flags.Thrown? { return Thrown; }
    r := Ok(Head(kind.value, size.value, flags.value));
  }

  lemma SliceTwice(bs: seq<Byte>, a: nat, b: nat)
    requires a + b <= |bs|
    ensures bs[a..][..b] == bs[a..a + b] && bs[a..][b..] == bs[a + b..]
  {}

  /** Three fields are taken one after the other. */
  lemma ThreeInTurn(bs: seq<Byte>, a: nat, b: nat, c: nat)
    ensures TakeThree(bs, a, b, c) ==
      match Take(bs, a)
      case Thrown => Thrown
      case Ok(Read(x, behindX)) =>
        match Take(behindX, b)
        case Thrown => Thrown
        case Ok(Read(y, behindY)) =>
          match Take(behindY, c)
          case Thrown => Thrown
          case Ok(Read(z, rest)) => Ok(Read((x, y, z), rest))
  {
    if a + b <= |bs| {
      SliceTwice(bs, a, b);
      if a + b + c <= |bs| { SliceTwice(bs, a + b, c); }
    }
  }

  method ReadThree(pel: Stream, a: nat, b: nat, c: nat) returns (r: Result<(seq<Byte>, seq<Byte>, seq<Byte>)>)
    requires pel.Valid()
    modifies pel`offset
    ensures pel.Valid() && Matches(TakeThree(old(pel.Remaining()), a, b, c), r, pel.Remaining())
  {
    hide TakeThree, Take;
    ThreeInTurn(pel.Remaining(), a, b, c);
    var x := pel.ReadBytes(a);
    if x.Thrown? { return Thrown; }
    var y := pel.ReadBytes(b);
    if y.Thrown? { return Thrown; }
    var z := pel.ReadBytes(c);
    if z.Thrown? { return Thrown; }
    r := Ok((x.value, y.value, z.value));
  }

  /** FRUIdentity(Stream&) */
  method ReadFRU(pel: Stream) returns (r: Result<FRUIdentity>)
    requires pel.Valid()
    modifies pel`offset
    ensures pel.Valid() && Matches(ParseFRU(old(pel.Remaining())), r, pel.Remaining())
  {
    var h := ReadHead(pel);
    if h.Thrown? { return Thrown; }
    var flags := h.value.flags;
    var fields := ReadThree(pel, PnLength(flags), CcinLength(flags), SnLength(flags));
    if fields.Thrown? { return Thrown; }
    r := Ok(FRUIdentity(h.value.kind, h.value.size, flags, fields.value.0, fields.value.1, fields.value.2));
  }

  /** PCEIdentity(Stream&) */
  method ReadPCE(pel: Stream) returns (r: Result<PCEIdentity>)
    requires pel.Valid()
    modifies pel`offset
    ensures pel.Valid() && Matches(ParsePCE(old(pel.Remaining())), r, pel.Remaining())
  {
    var h := ReadHead(pel);
    if h.Thrown? { return Thrown; }
    if h.value.size < 24 { return Thrown; }
    var fields := ReadThree(pel, 8, 12, h.value.size - 24);
    if fields.Thrown? { return Thrown; }
    r := Ok(PCEIdentity(h.value.kind, h.value.size, h.value.flags, fields.value.0, fields.value.1, fields.value.2));
  }

  lemma AfterNothing<T>(behind: Result<Read<seq<T>>>)
    ensures After([], behind) == behind
  {
    if behind.Ok? { assert [] + behind.value.value == behind.value.value; }
  }

  lemma AfterBoth<T>(a: seq<T>, b: seq<T>, behind: Result<Read<seq<T>>>)
    ensures After(a, After(b, behind)) == After(a + b, behind)
  {
    if behind.Ok? {
      assert a + (b + behind.value.value) == a + b + behind.value.value;
    }
  }

  method ReadMRUCallout(pel: Stream) returns (r: Result<MRUCallout>)
    requires pel.Valid()
    modifies pel`offset
    ensures pel.Valid()
    ensures var bs := old(pel.Remaining());
      if |bs| < 8 then r.Thrown?
      else r == Ok(MRUCallout(FromBigEndian32(bs[..4]), FromBigEndian32(bs[4..8]))) && pel.Remaining() == bs[8..]
  {
    ghost var bs := pel.Remaining();
    var priority := pel.ReadLong();
    if priority.Thrown? { return Thrown; }
    var id := pel.ReadLong();
    if id.Thrown? { return Thrown; }
    SliceTwice(bs, 4, 4);
    r := Ok(MRUCallout(priority.value, id.value));
  }

  method ReadMRUs(pel: Stream, numMRUs: nat) returns (r: Result<seq<MRUCallout>>)
    requires pel.Valid()
    modifies pel`offset
    ensures pel.Valid() && Matches(ParseMRUs(old(pel.Remaining()), numMRUs), r, pel.Remaining())
  {
    ghost var bs := pel.Remaining();
    var mrus: seq<MRUCallout> := [];
    AfterNothing(ParseMRUs(bs, numMRUs));
    for i := 0 to numMRUs
      invariant pel.Valid()
      invariant ParseMRUs(bs, numMRUs) == After(mrus, ParseMRUs(pel.Remaining(), numMRUs - i))
    {
      var mru := ReadMRUCallout(pel);
      if mru.Thrown? { return Thrown; }
      AfterBoth(mrus, [mru.value], ParseMRUs(pel.Remaining(), numMRUs - i - 1));
      mrus := mrus + [mru.value];
    }
    assert mrus + [] == mrus;
    r := Ok(mrus);
  }

  /** MRU(Stream&) */
  method ReadMRU(pel: Stream) returns (r: Result<MRU>)
    requires pel.Valid()
    modifies pel`offset
    ensures pel.Valid() && Matches(ParseMRU(old(pel.Remaining())), r, pel.Remaining())
  {
    var h := ReadHead(pel);
    if h.Thrown? { return Thrown; }
    var reserved4B := pel.ReadLong();
    if reserved4B.Thrown? { return Thrown; }
    var mrus := ReadMRUs(pel, h.value.flags % 16);
    if mrus.Thrown? { return Thrown; }
    r := Ok(MRU(h.value.kind, h.value.size, h.value.flags, reserved4B.value, mrus.value));
  }

  /** The switch on the type peeked at, and what the substructure adds to the size. */
  method ReadSubstructure(pel: Stream, c: Callout) returns (r: Result<(Callout, nat)>)
    requires pel.Valid()
    modifies pel`offset
    ensures pel.Valid() && Matches(ParseSubstructure(old(pel.Remaining()), c), r, pel.Remaining())
  {
    hide ParseFRU, ParsePCE, ParseMRU;
    var kind := pel.ReadWord();
    if kind.Thrown? { return Thrown; }
    var back := pel.Seek(pel.offset - 2);
    assert pel.Remaining() == old(pel.Remaining());
    if kind.value == FRU_TYPE {
      var f := ReadFRU(pel);
      if f.Thrown? { return Thrown; }
      r := Ok((c.(fru := Some(f.value)), FRUSize(f.value)));
    } else if kind.value == PCE_TYPE {
      var p := ReadPCE(pel);
      if p.Thrown? { return Thrown; }
      r := Ok((c.(pce := Some(p.value)), p.value.size));
    } else if kind.value == MRU_TYPE {
      var m := ReadMRU(pel);
      if m.Thrown? { return Thrown; }
      r := Ok((c.(mru := Some(m.value)), m.value.size));
    } else {
      r := Thrown;
    }
  }

  /** A callout begins with four bytes and its location code. */
  lemma CalloutBegins(bs: seq<Byte>)
    ensures ParseCallout(bs) ==
      match Take(bs, 4)
      case Thrown => Thrown
      case Ok(Read(head, behind)) =>
        match Take(behind, head[3])
        case Thrown => Thrown
        case Ok(Read(location, rest)) =>
          ParseSubstructures(rest, Callout(head[0], head[1], head[2], location, None, None, None), 4 + head[3] as nat)
  {
    hide ParseSubstructures;
    if 4 <= |bs| && 4 + bs[3] as nat <= |bs| { SliceTwice(bs, 4, bs[3]); }
  }

  /** A turn of the loop reads one substructure and leaves fewer bytes. */
  lemma OneMoreTurn(bs: seq<Byte>, c: Callout, current: nat)
    requires c.size > current
    ensures ParseSubstructures(bs, c, current) ==
      match ParseSubstructure(bs, c)
      case Thrown => Thrown
      case Ok(Read((c', taken), rest)) => ParseSubstructures(rest, c', current + taken)
    ensures ParseSubstructure(bs, c).Ok? ==> |ParseSubstructure(bs, c).value.rest| < |bs|
  {
    hide ParseSubstructure;
    if ParseSubstructure(bs, c).Ok? { SubstructureConsumes(bs, c); }
  }

  lemma NoMoreTurns(bs: seq<Byte>, c: Callout, current: nat)
    requires c.size <= current
    ensures ParseSubstructures(bs, c, current) == Ok(Read(c, bs))
  {}

  /** Callout(Stream&): the loop runs until the size byte is reached; what bounds it
      is the bytes left, as every substructure consumes some. */
  method ReadCallout(pel: Stream) returns (r: Result<Callout>)
    requires pel.Valid()
    modifies pel`offset
    ensures pel.Valid() && Matches(ParseCallout(old(pel.Remaining())), r, pel.Remaining())
  {
    hide ParseSubstructure, ParseSubstructures, ParseCallout;
    ghost var start := pel.Remaining();
    CalloutBegins(start);
    var head := pel.ReadBytes(4);
    if head.Thrown? { return Thrown; }
    var n: nat := head.value[3];
    var location := pel.ReadBytes(n);
    if location.Thrown? { return Thrown; }
    var c := Callout(head.value[0], head.value[1], head.value[2], location.value, None, None, None);
    var currentSize: nat := 4 + n;
    while c.size > currentSize
      invariant pel.Valid()
      invariant ParseCallout(start) == ParseSubstructures(pel.Remaining(), c, currentSize)
      decreases |pel.Remaining()|
    {
      OneMoreTurn(pel.Remaining(), c, currentSize);
      var step := ReadSubstructure(pel, c);
      if step.Thrown? { return Thrown; }
      currentSize := currentSize + step.value.1;
      c := step.value.0;
    }
    NoMoreTurns(pel.Remaining(), c, currentSize);
    r := Ok(c);
  }

  // ------------------------------------------------------------------- writing

  /** bs went into the stream at the offset it had. */
  twostate predicate Wrote(pel: Stream, bs: seq<Byte>)
    requires old(pel.Valid())
    reads pel
  {
    && pel.Valid() && pel.offset == old(pel.offset) + |bs|
    && pel.data == Overwritten(old(pel.data), old(pel.offset), bs)
  }

  method WriteFRU(pel: Stream, f: FRUIdentity)
    requires pel.Valid()
    modifies pel
    ensures Wrote(pel, FlattenFRU(f))
  {
    OverwrittenTwice(pel.data, pel.offset, BigEndian16(f.kind) + [f.size, f.flags], f.pnOrProcedureID + (f.ccin + f.sn));
    pel.Write(BigEndian16(f.kind) + [f.size, f.flags]);
    OverwrittenTwice(pel.data, pel.offset, f.pnOrProcedureID, f.ccin + f.sn);
    pel.Write(f.pnOrProcedureID);
    OverwrittenTwice(pel.data, pel.offset, f.ccin, f.sn);
    pel.Write(f.ccin);
    pel.Write(f.sn);
  }

  method WritePCE(pel: Stream, p: PCEIdentity)
    requires pel.Valid()
    modifies pel
    ensures Wrote(pel, FlattenPCE(p))
  {
    OverwrittenTwice(pel.data, pel.offset, BigEndian16(p.kind) + [p.size, p.flags], p.mtm + (p.sn + p.pceName));
    pel.Write(BigEndian16(p.kind) + [p.size, p.flags]);
    OverwrittenTwice(pel.data, pel.offset, p.mtm, p.sn + p.pceName);
    pel.Write(p.mtm);
    OverwrittenTwice(pel.data, pel.offset, p.sn, p.pceName);
    pel.Write(p.sn);
    pel.Write(p.pceName);
  }

  lemma {:induction false} FlattenMRUsSplit(a: seq<MRUCallout>, m: MRUCallout)
    ensures FlattenMRUs(a + [m]) == FlattenMRUs(a) + (BigEndian32(m.priority) + BigEndian32(m.id))
  {
    hide BigEndian32;
    if a == [] {
      assert FlattenMRUs([m]) == BigEndian32(m.priority) + (BigEndian32(m.id) + []);
    } else {
      FlattenMRUsSplit(a[1..], m);
      assert (a + [m])[1..] == a[1..] + [m];
    }
  }

  method WriteMRUs(pel: Stream, mrus: seq<MRUCallout>)
    requires pel.Valid()
    modifies pel
    ensures Wrote(pel, FlattenMRUs(mrus))
  {
    hide Overwritten, BigEndian32, FlattenMRUs;
    ghost var data, offset := pel.data, pel.offset;
    NothingWritten(data, offset);
    for i := 0 to |mrus|
      invariant pel.Valid() && pel.offset == offset + |FlattenMRUs(mrus[..i])|
      invariant pel.data == Overwritten(data, offset, FlattenMRUs(mrus[..i]))
    {
      ghost var priority, id := BigEndian32(mrus[i].priority), BigEndian32(mrus[i].id);
      OverwrittenTwice(pel.data, pel.offset, priority, id);
      OverwrittenTwice(data, offset, FlattenMRUs(mrus[..i]), priority + id);
      pel.Write(BigEndian32(mrus[i].priority));
      pel.Write(BigEndian32(mrus[i].id));
      FlattenMRUsSplit(mrus[..i], mrus[i]);
      assert mrus[..i + 1] == mrus[..i] + [mrus[i]];
    }
    assert mrus[..|mrus|] == mrus;
  }

  lemma NothingWritten(data: seq<Byte>, offset: nat)
    requires offset <= |data|
    ensures Overwritten(data, offset, FlattenMRUs([])) == data && FlattenMRUs([]) == []
  {}

  method WriteMRU(pel: Stream, m: MRU)
    requires pel.Valid()
    modifies pel
    ensures Wrote(pel, FlattenMRU(m))
  {
    hide Overwritten, BigEndian16, BigEndian32, FlattenMRUs;
    ghost var head, reserved := BigEndian16(m.kind) + [m.size, m.flags], BigEndian32(m.reserved4B);
    OverwrittenTwice(pel.data, pel.offset, head, reserved + FlattenMRUs(m.mrus));
    pel.Write(BigEndian16(m.kind) + [m.size, m.flags]);
    OverwrittenTwice(pel.data, pel.offset, reserved, FlattenMRUs(m.mrus));
    pel.Write(BigEndian32(m.reserved4B));
    WriteMRUs(pel, m.mrus);
  }

  method WriteSubstructures(pel: Stream, c: Callout)
    requires pel.Valid()
    modifies pel
    ensures Wrote(pel, FlattenSubstructures(c))
  {
    hide Overwritten, FlattenFRU, FlattenPCE, FlattenMRU;
    ghost var f, p, m := BytesOfFRU(c.fru), BytesOfPCE(c.pce), BytesOfMRU(c.mru);
    OverwrittenNothing(pel.data, pel.offset);
    OverwrittenTwice(pel.data, pel.offset, f, p + m);
    if c.fru.Some? { WriteFRU(pel, c.fru.value); }
    OverwrittenNothing(pel.data, pel.offset);
    OverwrittenTwice(pel.data, pel.offset, p, m);
    if c.pce.Some? { WritePCE(pel, c.pce.value); }
    OverwrittenNothing(pel.data, pel.offset);
    if c.mru.Some? { WriteMRU(pel, c.mru.value); }
  }

  /** flatten() of one callout: the substructures that are there, in a fixed order. */
  method WriteCallout(pel: Stream, c: Callout)
    requires pel.Valid()
    modifies pel
    ensures Wrote(pel, FlattenCallout(c))
  {
    hide Overwritten, FlattenSubstructures;
    ghost var head := [c.size, c.flags, c.priority, |c.locationCode| % 256];
    OverwrittenTwice(pel.data, pel.offset, head, c.locationCode + FlattenSubstructures(c));
    pel.Write([c.size, c.flags, c.priority, |c.locationCode| % 256]);
    OverwrittenTwice(pel.data, pel.offset, c.locationCode, FlattenSubstructures(c));
    pel.Write(c.locationCode);
    WriteSubstructures(pel, c);
  }

  // ------------------------------------------------------------ the collection

  /** std::ranges::sort by operator>, as an insertion sort. With a priority that operator>
      does not know the order means nothing, but no callout is lost. */
  method SortDescending(cs: seq<Callout>) returns (sorted: seq<Callout>)
    ensures multiset(sorted) == multiset(cs)
    ensures L.AllKnown(cs) ==> L.Descending(sorted)
  {
    hide Higher, KnownPriority, L.Descending, Inserted;
    sorted := [];
    NothingDescends();
    for i := 0 to |cs|
      invariant multiset(sorted) == multiset(cs[..i])
      invariant L.AllKnown(cs) ==> L.Descending(sorted) && forall j | 0 <= j < |sorted| :: KnownPriority(sorted[j].priority)
    {
      var k: nat := |sorted|;
      while k > 0 && Higher(cs[i], sorted[k - 1])
        invariant k <= |sorted|
        invariant forall j | k <= j < |sorted| :: Higher(cs[i], sorted[j])
      {
        k := k - 1;
      }
      assert cs[i] in cs && cs[..i + 1] == cs[..i] + [cs[i]];
      if L.AllKnown(cs) { InsertedInOrder(sorted, cs[i], k); }
      ghost var out := InsertedAt(sorted, cs[i], k);
      sorted := Inserted(sorted, cs[i], k);
    }
    assert cs[..|cs|] == cs;
  }

  lemma NothingDescends()
    ensures L.Descending([])
  {}

  function Inserted(cs: seq<Callout>, c: Callout, k: nat): seq<Callout>
    requires k <= |cs|
  {
    cs[..k] + [c] + cs[k..]
  }

  lemma InsertedAt(cs: seq<Callout>, c: Callout, k: nat) returns (out: seq<Callout>)
    requires k <= |cs|
    ensures out == Inserted(cs, c, k) && |out| == |cs| + 1
    ensures forall j | 0 <= j <= |cs| :: out[j] == if j < k then cs[j] else if j == k then c else cs[j - 1]
    ensures multiset(out) == multiset(cs) + multiset{c}
  {
    out := Inserted(cs, c, k);
    assert cs == cs[..k] + cs[k..];
  }

  lemma InsertedInOrder(cs: seq<Callout>, c: Callout, k: nat)
    requires k <= |cs| && L.Descending(cs)
    requires KnownPriority(c.priority) && forall j | 0 <= j < |cs| :: KnownPriority(cs[j].priority)
    requires k == 0 || !Higher(c, cs[k - 1])
    requires forall j | k <= j < |cs| :: Higher(c, cs[j])
    ensures L.Descending(Inserted(cs, c, k))
    ensures forall j | 0 <= j < |Inserted(cs, c, k)| :: KnownPriority(Inserted(cs, c, k)[j].priority)
    ensures multiset(Inserted(cs, c, k)) == multiset(cs) + multiset{c}
  {
    hide Higher, KnownPriority;
    var out := InsertedAt(cs, c, k);
    forall i, j | 0 <= i < j < |out| ensures !Higher(out[j], out[i]) {
      if j == k {
        if i < k - 1 { NotHigherTwice(c, cs[k - 1], cs[i]); }
      } else if i == k {
        HigherOneWay(c, cs[j - 1]);
      } else {
        assert out[j] == cs[if j < k then j else j - 1] && out[i] == cs[if i < k then i else i - 1];
      }
    }
    forall j | 0 <= j < |out| ensures KnownPriority(out[j].priority) {
      assert j != k ==> out[j] == cs[if j < k then j else j - 1];
    }
  }

  lemma NotHigherTwice(a: Callout, b: Callout, c: Callout)
    requires KnownPriority(b.priority) && !Higher(a, b) && !Higher(b, c)
    ensures !Higher(a, c)
  {}

  lemma HigherOneWay(a: Callout, b: Callout)
    requires Higher(a, b)
    ensures !Higher(b, a)
  {}

  class Callouts {
    var subsectionID: Byte
    var subsectionFlags: Byte
    var subsectionWordLength: Word
    var callouts: seq<Callout>

    function Value(): F.Callouts
      reads this
    {
      F.Callouts(subsectionID, subsectionFlags, subsectionWordLength, callouts)
    }

    constructor Of(cs: F.Callouts)
      ensures Value() == cs
    {
      subsectionID := cs.subsectionID;
      subsectionFlags := cs.subsectionFlags;
      subsectionWordLength := cs.wordLength;
      callouts := cs.callouts;
    }

    constructor ()
      ensures Value() == L.Empty() && L.Inv(Value())
    {
      subsectionID := L.CALLOUTS_SUBSECTION_ID;
      subsectionFlags := 0;
      subsectionWordLength := 1;
      callouts := [];
    }

    /** Callouts(Stream&): false stands for the exception it ends with. */
    method Read(pel: Stream) returns (ok: bool)
      requires pel.Valid()
      modifies this, pel`offset
      ensures pel.Valid() && Matches(ParseCallouts(old(pel.Remaining())), if ok then Ok(Value()) else Thrown, pel.Remaining())
    {
      hide ParseCallout;
      ghost var start := pel.Remaining();
      callouts := [];
      var head := pel.ReadBytes(2);
      if head.Thrown? { return false; }
      var words := pel.ReadWord();
      if words.Thrown? { return false; }
      subsectionID, subsectionFlags, subsectionWordLength := head.value[0], head.value[1], words.value;
      SliceTwice(start, 2, 2);
      var length: nat := 4 * words.value as int;
      var currentLength: nat := 4;
      AfterNothing(ParseList(pel.Remaining(), length, currentLength));
      while length > currentLength
        invariant pel.Valid()
        invariant subsectionID == start[0] && subsectionFlags == start[1] && subsectionWordLength == words.value
        invariant ParseList(start[4..], length, 4) == After(callouts, ParseList(pel.Remaining(), length, currentLength))
        decreases |pel.Remaining()|
      {
        ghost var here := pel.Remaining();
        var c := ReadCallout(pel);
        if c.Thrown? { return false; }
        CalloutConsumes(here);
        AfterBoth(callouts, [c.value], ParseList(pel.Remaining(), length, currentLength + CalloutSize(c.value)));
        callouts := callouts + [c.value];
        currentLength := currentLength + CalloutSize(c.value);
      }
      assert callouts + [] == callouts;
      return true;
    }

    /** addCallout */
    method AddCallout(c: Callout)
      modifies this
      ensures L.Merged(old(Value()), c, Value())
      ensures KnownPriority(c.priority) && L.AllKnown(old(callouts)) ==> L.Added(old(Value()), c, Value())
      ensures old(L.Inv(Value())) && WellBuilt(c) ==> L.Inv(Value())
    {
      hide Same, WellBuilt, CalloutSize;
      ghost var before := Value();
      var i := 0;
      while i < |callouts| && !Same(c, callouts[i])
        invariant i <= |callouts|
        invariant forall k | 0 <= k < i :: !Same(c, callouts[k])
      {
        i := i + 1;
      }
      assert L.IndexOfSame(callouts, c) == i;
      if i < |callouts| {
        if Higher(c, callouts[i]) {
          callouts := callouts[i := callouts[i].(priority := c.priority)];
        }
      } else if |callouts| < L.MAX_NUMBER_OF_CALLOUTS {
        callouts := callouts + [c];
        subsectionWordLength := (subsectionWordLength + CalloutSize(c) / 4) % 0x1_0000;
      }
      assert callouts == L.Merge(before.callouts, c);
      callouts := SortDescending(callouts);
      if L.Inv(before) && WellBuilt(c) {
        WellBuiltKnown(before.callouts, c);
        L.AddKeepsInv(before, c, Value());
      }
    }

    /** flatten */
    method Flatten(pel: Stream)
      requires pel.Valid()
      modifies pel
      ensures Wrote(pel, FlattenCallouts(Value()))
    {
      hide Overwritten, FlattenAll, FlattenCallout, BigEndian16;
      ghost var data, offset := pel.data, pel.offset;
      ghost var head := [subsectionID, subsectionFlags] + BigEndian16(subsectionWordLength);
      pel.Write([subsectionID, subsectionFlags] + BigEndian16(subsectionWordLength));
      NoCallouts(head);
      for i := 0 to |callouts|
        invariant pel.Valid() && pel.offset == offset + |head + FlattenAll(callouts[..i])|
        invariant pel.data == Overwritten(data, offset, head + FlattenAll(callouts[..i]))
      {
        ghost var written := head + FlattenAll(callouts[..i]);
        OverwrittenTwice(data, offset, written, FlattenCallout(callouts[i]));
        WriteCallout(pel, callouts[i]);
        FlattenAllSplit(callouts[..i], callouts[i]);
        assert callouts[..i + 1] == callouts[..i] + [callouts[i]];
        assert head + FlattenAll(callouts[..i + 1]) == written + FlattenCallout(callouts[i]);
      }
      assert callouts[..|callouts|] == callouts;
      assert head + FlattenAll(callouts) == FlattenCallouts(Value());
    }
  }

  lemma WellBuiltKnown(cs: seq<Callout>, c: Callout)
    requires L.AllWellBuilt(cs) && WellBuilt(c)
    ensures L.AllKnown(cs) && KnownPriority(c.priority)
  {}

  lemma NoCallouts(head: seq<Byte>)
    ensures head + FlattenAll([]) == head
  {}

  lemma {:induction false} FlattenAllSplit(a: seq<Callout>, c: Callout)
    ensures FlattenAll(a + [c]) == FlattenAll(a) + FlattenCallout(c)
  {
    hide FlattenCallout;
    if a == [] {
      assert FlattenAll([c]) == FlattenCallout(c) + [];
    } else {
      FlattenAllSplit(a[1..], c);
      assert (a + [c])[1..] == a[1..] + [c];
    }
  }
}
