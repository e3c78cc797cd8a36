/** When callouts read from bytes print to those same bytes again. */
module CalloutReprint {
  import opened Wrappers
  import opened Bytes
  import opened CalloutFormat

  // ------------------------------------------------------------ the bytes of one part

  /** front stands in front of rest in bs and begins with this type. */
  predicate Fronts(front: seq<Byte>, kind: Word, rest: seq<Byte>, bs: seq<Byte>) {
    |front| >= 4 && front + rest == bs && front[..2] == BigEndian16(kind)
  }

  lemma HeadAgain(h: Head, fields: seq<Byte>, rest: seq<Byte>, bs: seq<Byte>)
    requires ParseHead(bs) == Ok(Read(h, fields + rest))
    ensures Fronts(BigEndian16(h.kind) + [h.size, h.flags] + fields, h.kind, rest, bs)
  {
    BigEndian16Again(bs[..2]);
    assert bs == BigEndian16(h.kind) + [h.size, h.flags] + bs[4..];
    assert BigEndian16(h.kind) + [h.size, h.flags] + fields + rest
        == BigEndian16(h.kind) + [h.size, h.flags] + (fields + rest);
  }

  lemma ThreeAgain(bs: seq<Byte>, a: nat, b: nat, c: nat)
    requires TakeThree(bs, a, b, c).Ok?
    ensures var r := TakeThree(bs, a, b, c).value; r.value.0 + (r.value.1 + r.value.2) + r.rest == bs
  {}

  lemma FRUAgain(bs: seq<Byte>)
    requires ParseFRU(bs).Ok?
    ensures var r := ParseFRU(bs).value; Fronts(FlattenFRU(r.value), r.value.kind, r.rest, bs)
    ensures ParseFRU(bs).value.value.kind == FromBigEndian16(bs[..2])
  {
    var h, r := ParseHead(bs).value, ParseFRU(bs).value;
    ThreeAgain(h.rest, PnLength(h.value.flags), CcinLength(h.value.flags), SnLength(h.value.flags));
    HeadAgain(h.value, r.value.pnOrProcedureID + (r.value.ccin + r.value.sn), r.rest, bs);
  }

  lemma PCEAgain(bs: seq<Byte>)
    requires ParsePCE(bs).Ok?
    ensures var r := ParsePCE(bs).value; Fronts(FlattenPCE(r.value), r.value.kind, r.rest, bs)
    ensures ParsePCE(bs).value.value.kind == FromBigEndian16(bs[..2])
  {
    var h, r := ParseHead(bs).value, ParsePCE(bs).value;
    ThreeAgain(h.rest, 8, 12, h.value.size - 24);
    HeadAgain(h.value, r.value.mtm + (r.value.sn + r.value.pceName), r.rest, bs);
  }

  lemma {:induction false} MRUsAgain(bs: seq<Byte>, n: nat)
    requires ParseMRUs(bs, n).Ok?
    ensures var r := ParseMRUs(bs, n).value; FlattenMRUs(r.value) + r.rest == bs
    decreases n
  {
    if n > 0 {
      MRUsAgain(bs[8..], n - 1);
      var more := ParseMRUs(bs[8..], n - 1).value;
      BigEndian32Again(bs[..4]);
      BigEndian32Again(bs[4..8]);
      MRUBehind(bs, more.value, more.rest);
    }
  }

  lemma MRUBehind(bs: seq<Byte>, more: seq<MRUCallout>, rest: seq<Byte>)
    requires |bs| >= 8 && FlattenMRUs(more) + rest == bs[8..]
    requires BigEndian32(FromBigEndian32(bs[..4])) == bs[..4] && BigEndian32(FromBigEndian32(bs[4..8])) == bs[4..8]
    ensures var m := MRUCallout(FromBigEndian32(bs[..4]), FromBigEndian32(bs[4..8]));
      FlattenMRUs([m] + more) + rest == bs
  {
    var m := MRUCallout(FromBigEndian32(bs[..4]), FromBigEndian32(bs[4..8]));
    assert ([m] + more)[1..] == more;
    assert bs[..4] + (bs[4..8] + FlattenMRUs(more)) + rest == bs[..4] + (bs[4..8] + (FlattenMRUs(more) + rest));
    assert bs == bs[..4] + (bs[4..8] + bs[8..]);
  }

  lemma MRUAgain(bs: seq<Byte>)
    requires ParseMRU(bs).Ok?
    ensures var r := ParseMRU(bs).value; Fronts(FlattenMRU(r.value), r.value.kind, r.rest, bs)
    ensures ParseMRU(bs).value.value.kind == FromBigEndian16(bs[..2])
  {
    hide FlattenMRUs, ParseMRUs, BigEndian32, BigEndian16, Fronts;
    var h, r := ParseHead(bs).value, ParseMRU(bs).value;
    MRUsAgain(h.rest[4..], h.value.flags % 16);
    BigEndian32Again(h.rest[..4]);
    var front, mrus := h.rest[..4], FlattenMRUs(r.value.mrus);
    assert h.rest == front + h.rest[4..];
    assert front + mrus + r.rest == front + (mrus + r.rest);
    HeadAgain(h.value, front + mrus, r.rest, bs);
  }

  // ---------------------------------------------------------- the order of the parts

  /** FRU, PCE, MRU. */
  type Place = p: int | 0 <= p < 3

  /** The place of a substructure among those a callout prints. */
  function Rank(kind: Word): Place {
    if kind == FRU_TYPE then 0 else if kind == PCE_TYPE then 1 else 2
  }

  function KindAt(rank: Place): Word {
    if rank == 0 then FRU_TYPE else if rank == 1 then PCE_TYPE else MRU_TYPE
  }

  /** What a callout prints at that place. */
  function Part(c: Callout, rank: Place): seq<Byte> {
    if rank == 0 then BytesOfFRU(c.fru)
    else if rank == 1 then BytesOfPCE(c.pce)
    else BytesOfMRU(c.mru)
  }

  /** What it prints from that place on. */
  function From(c: Callout, rank: nat): seq<Byte>
    decreases 3 - rank
  {
    if rank >= 3 then [] else Part(c, rank) + From(c, rank + 1)
  }

  lemma FromStart(c: Callout)
    ensures From(c, 0) == FlattenSubstructures(c)
  {
    assert From(c, 2) == BytesOfMRU(c.mru) + From(c, 3);
    assert From(c, 1) == BytesOfPCE(c.pce) + From(c, 2);
  }

  /** The places of the substructures that are read, in the order they are read. */
  function RanksRead(bs: seq<Byte>, c: Callout, current: nat): seq<Place>
    decreases |bs|
  {
    if c.size <= current then []
    else
      match ParseSubstructure(bs, c)
      case Thrown => []
      case Ok(Read((c', taken), rest)) =>
        SubstructureConsumes(bs, c);
        [Rank(FromBigEndian16(bs[..2]))] + RanksRead(rest, c', current + taken)
  }

  predicate Ascending(ranks: seq<Place>) {
    forall i, j | 0 <= i < j < |ranks| :: ranks[i] < ranks[j]
  }

  /** One substructure goes to its place, and is what stood at the front of the bytes. */
  lemma PartRead(bs: seq<Byte>, c: Callout)
    requires ParseSubstructure(bs, c).Ok?
    ensures var r := ParseSubstructure(bs, c).value;
      var k := Rank(FromBigEndian16(bs[..2]));
      && Fronts(Part(r.value.0, k), KindAt(k), r.rest, bs)
      && (forall j: Place | j != k :: Part(r.value.0, j) == Part(c, j))
      && r.value.0.(fru := c.fru, pce := c.pce, mru := c.mru) == c
  {
    hide FlattenFRU, FlattenPCE, FlattenMRU, ParseFRU, ParsePCE, ParseMRU, Fronts;
    var kind := FromBigEndian16(bs[..2]);
    if kind == FRU_TYPE {
      FRUAgain(bs);
    } else if kind == PCE_TYPE {
      PCEAgain(bs);
    } else {
      MRUAgain(bs);
    }
  }

  /** The turn of the loop that reads one substructure. */
  lemma Turn(bs: seq<Byte>, c: Callout, current: nat) returns (k: Place, c1: Callout, taken: nat, rest: seq<Byte>)
    requires c.size > current && ParseSubstructures(bs, c, current).Ok?
    ensures |rest| < |bs| && c1.size == c.size
    ensures ParseSubstructures(bs, c, current) == ParseSubstructures(rest, c1, current + taken)
    ensures RanksRead(bs, c, current) == [k] + RanksRead(rest, c1, current + taken)
    ensures Fronts(Part(c1, k), KindAt(k), rest, bs)
    ensures forall j: Place | j != k :: Part(c1, j) == Part(c, j)
    ensures c1.(fru := c.fru, pce := c.pce, mru := c.mru) == c
  {
    hide ParseSubstructure, Part, Fronts;
    PartRead(bs, c);
    SubstructureConsumes(bs, c);
    var r := ParseSubstructure(bs, c).value;
    k, c1, taken, rest := Rank(FromBigEndian16(bs[..2])), r.value.0, r.value.1, r.rest;
  }

  /** No part is read for a place that is already taken. */
  ghost predicate NoRepeats(ranks: seq<Place>, c: Callout) {
    && (forall k | k in ranks :: Part(c, k) == [])
    && forall i, j | 0 <= i < j < |ranks| :: ranks[i] != ranks[j]
  }

  lemma LengthWith(c: Callout, c1: Callout, k: Place)
    requires forall j: Place | j != k :: Part(c1, j) == Part(c, j)
    ensures |From(c1, 0)| == |From(c, 0)| - |Part(c, k)| + |Part(c1, k)|
  {
    hide Part;
    Three(c);
    Three(c1);
  }

  lemma Three(c: Callout)
    ensures From(c, 0) == Part(c, 0) + (Part(c, 1) + Part(c, 2))
  {
    hide Part;
    assert From(c, 3) == [];
    assert From(c, 2) == Part(c, 2);
    assert From(c, 1) == Part(c, 1) + From(c, 2);
  }

  /** The loop prints no more than it read, and less if a part replaced another. */
  lemma {:induction false} LoopLength(bs: seq<Byte>, c: Callout, current: nat)
    requires ParseSubstructures(bs, c, current).Ok?
    ensures var r := ParseSubstructures(bs, c, current).value;
      && |From(r.value, 0)| + |r.rest| <= |From(c, 0)| + |bs|
      && (|From(r.value, 0)| + |r.rest| == |From(c, 0)| + |bs| ==> NoRepeats(RanksRead(bs, c, current), c))
    decreases |bs|
  {
    hide ParseSubstructures, Part, From, RanksRead;
    if c.size > current {
      var k, c1, taken, rest := Turn(bs, c, current);
      LengthWith(c, c1, k);
      LoopLength(rest, c1, current + taken);
      RepeatsBehind(k, RanksRead(rest, c1, current + taken), c, c1);
    } else {
      LoopDone(bs, c, current);
    }
  }

  lemma LoopDone(bs: seq<Byte>, c: Callout, current: nat)
    requires c.size <= current
    ensures ParseSubstructures(bs, c, current) == Ok(Read(c, bs)) && RanksRead(bs, c, current) == []
  {}

  lemma RepeatsBehind(k: Place, more: seq<Place>, c: Callout, c1: Callout)
    requires Part(c1, k) != [] && forall j: Place | j != k :: Part(c1, j) == Part(c, j)
    ensures Part(c, k) == [] && NoRepeats(more, c1) ==> NoRepeats([k] + more, c)
  {
    hide Part;
  }

  /** Parts only appear, each where something was read for its place. */
  lemma {:induction false} PartsRead(bs: seq<Byte>, c: Callout, current: nat)
    requires ParseSubstructures(bs, c, current).Ok?
    ensures var c', ranks := ParseSubstructures(bs, c, current).value.value, RanksRead(bs, c, current);
      && (forall j: Place | j !in ranks :: Part(c', j) == Part(c, j))
      && (forall j: Place | j in ranks :: |Part(c', j)| >= 4 && Part(c', j)[..2] == BigEndian16(KindAt(j)))
      && c'.(fru := c.fru, pce := c.pce, mru := c.mru) == c
    decreases |bs|
  {
    hide ParseSubstructures, Part, BigEndian16, KindAt;
    if c.size > current {
      var k, c1, taken, rest := Turn(bs, c, current);
      PartsRead(rest, c1, current + taken);
    } else {
      LoopDone(bs, c, current);
    }
  }

  lemma FromSame(c: Callout, c1: Callout, k: nat)
    requires forall j: Place | j >= k :: Part(c1, j) == Part(c, j)
    ensures From(c1, k) == From(c, k)
    decreases 3 - k
  {
    hide Part;
    if k < 3 { FromSame(c, c1, k + 1); }
  }

  /** What c1 prints ahead of what it prints from a place on. */
  function Before(c: Callout, k: nat): seq<Byte>
    requires k <= 3
  {
    if k == 0 then [] else Before(c, k - 1) + Part(c, k - 1)
  }

  lemma {:induction false} BeforeAndFrom(c: Callout, k: nat)
    requires k <= 3
    ensures From(c, 0) == Before(c, k) + From(c, k)
  {
    hide Part;
    if k > 0 {
      BeforeAndFrom(c, k - 1);
      assert Before(c, k - 1) + (Part(c, k - 1) + From(c, k)) == (Before(c, k - 1) + Part(c, k - 1)) + From(c, k);
    }
  }

  lemma {:induction false} BeforeSame(c: Callout, c1: Callout, k: nat)
    requires k <= 3 && forall j: Place | j < k :: Part(c1, j) == Part(c, j)
    ensures Before(c1, k) == Before(c, k)
  {
    hide Part;
    if k > 0 { BeforeSame(c, c1, k - 1); }
  }

  lemma {:induction false} FromEmpty(c: Callout, k: nat)
    requires forall j: Place | j >= k :: Part(c, j) == []
    ensures From(c, k) == []
    decreases 3 - k
  {
    hide Part;
    if k < 3 { FromEmpty(c, k + 1); }
  }

  /** With nothing from place k on, the next part read for k or behind it is printed last. */
  lemma Appended(c: Callout, c1: Callout, k: Place)
    requires forall j: Place | j >= k :: Part(c, j) == []
    requires forall j: Place | j != k :: Part(c1, j) == Part(c, j)
    ensures From(c1, 0) == From(c, 0) + Part(c1, k)
  {
    hide Part;
    BeforeAndFrom(c, k);
    BeforeAndFrom(c1, k);
    BeforeSame(c, c1, k);
    FromEmpty(c, k);
    FromEmpty(c1, k as nat + 1);
  }

  predicate AllFrom(ranks: seq<Place>, r: nat) { forall k | k in ranks :: k >= r }

  /** Parts read in ascending order are printed as they stood. */
  lemma {:induction false} AscendingReprinted(bs: seq<Byte>, c: Callout, current: nat, r: nat)
    requires ParseSubstructures(bs, c, current).Ok?
    requires forall j: Place | j >= r :: Part(c, j) == []
    requires var ranks := RanksRead(bs, c, current); Ascending(ranks) && AllFrom(ranks, r)
    ensures var p := ParseSubstructures(bs, c, current).value; From(p.value, 0) + p.rest == From(c, 0) + bs
    decreases |bs|
  {
    hide ParseSubstructures, Part, From, BigEndian16, KindAt;
    if c.size > current {
      var k, c1, taken, rest := Turn(bs, c, current);
      var more := RanksRead(rest, c1, current + taken);
      AscendingTail(k, more);
      assert k in [k] + more;
      Appended(c, c1, k);
      AscendingReprinted(rest, c1, current + taken, k as nat + 1);
      assert (From(c, 0) + Part(c1, k)) + rest == From(c, 0) + (Part(c1, k) + rest);
    } else {
      LoopDone(bs, c, current);
    }
  }

  lemma AscendingTail(k: Place, more: seq<Place>)
    ensures Ascending([k] + more) <==> Ascending(more) && AllFrom(more, k as nat + 1)
  {
    if Ascending([k] + more) {
      forall j | j in more ensures j >= k as nat + 1 {
        var i :| 0 <= i < |more| && more[i] == j;
        assert ([k] + more)[0] < ([k] + more)[i + 1];
      }
      forall i, j | 0 <= i < j < |more| ensures more[i] < more[j] {
        assert ([k] + more)[i + 1] < ([k] + more)[j + 1];
      }
    } else if Ascending(more) {
      var i, j :| 0 <= i < j < |more| + 1 && ([k] + more)[i] >= ([k] + more)[j];
      assert more[j - 1] in more;
    }
  }

  /** The first part printed from place r on, if one is read for k, is none behind k. */
  lemma {:induction false} FirstPrinted(c: Callout, r: nat, k: Place, ranks: seq<Place>) returns (m: Place)
    requires k in ranks && k >= r && AllFrom(ranks, r)
    requires forall j: Place | j >= r && j !in ranks :: Part(c, j) == []
    requires forall j: Place | j in ranks :: |Part(c, j)| >= 4 && Part(c, j)[..2] == BigEndian16(KindAt(j))
    ensures m in ranks && AllFrom(ranks, m)
    ensures |From(c, r)| >= 2 && From(c, r)[..2] == BigEndian16(KindAt(m))
    decreases 3 - r
  {
    hide Part, BigEndian16, KindAt;
    if r in ranks {
      m := r;
      assert From(c, r) == Part(c, r) + From(c, r + 1);
    } else {
      assert AllFrom(ranks, r + 1);
      m := FirstPrinted(c, r + 1, k, ranks);
      assert From(c, r) == From(c, r + 1);
    }
  }

  lemma KindsDiffer(j: Place, k: Place)
    requires BigEndian16(KindAt(j)) == BigEndian16(KindAt(k))
    ensures j == k
  {
    BigEndian16Inverse(KindAt(j));
    BigEndian16Inverse(KindAt(k));
  }

  /** Parts that are printed as they stood were read in ascending order. */
  lemma {:induction false} ReprintedAscending(bs: seq<Byte>, c: Callout, current: nat, r: nat)
    requires r <= 3 && ParseSubstructures(bs, c, current).Ok?
    requires forall j: Place | j >= r :: Part(c, j) == []
    requires var ranks := RanksRead(bs, c, current); NoRepeats(ranks, c) && AllFrom(ranks, r)
    requires var p := ParseSubstructures(bs, c, current).value; From(p.value, 0) + p.rest == From(c, 0) + bs
    ensures Ascending(RanksRead(bs, c, current))
    decreases |bs|
  {
    hide ParseSubstructures, Part, From, RanksRead, BigEndian16, KindAt;
    if c.size > current {
      var k, c1, taken, rest := Turn(bs, c, current);
      var more := RanksRead(rest, c1, current + taken);
      FrontIsFirst(bs, c, current, r, k, c1, rest);
      Appended(c, c1, k);
      assert (From(c, 0) + Part(c1, k)) + rest == From(c, 0) + (Part(c1, k) + rest);
      RepeatsTail(k, more, c, c1);
      ReprintedAscending(rest, c1, current + taken, k as nat + 1);
      AscendingTail(k, more);
    } else {
      LoopDone(bs, c, current);
    }
  }

  lemma RepeatsTail(k: Place, more: seq<Place>, c: Callout, c1: Callout)
    requires NoRepeats([k] + more, c) && AllFrom([k] + more, k)
    requires forall j: Place | j != k :: Part(c1, j) == Part(c, j)
    ensures NoRepeats(more, c1) && AllFrom(more, k as nat + 1)
  {
    hide Part;
    forall j | j in more ensures j >= k as nat + 1 && Part(c1, j) == [] {
      var i :| 0 <= i < |more| && more[i] == j;
      assert ([k] + more)[0] != ([k] + more)[i + 1];
      assert j in [k] + more;
    }
    forall i, j | 0 <= i < j < |more| ensures more[i] != more[j] {
      assert ([k] + more)[i + 1] != ([k] + more)[j + 1];
    }
  }

  /** The part at the front of the bytes is the first that is printed. */
  lemma FrontIsFirst(bs: seq<Byte>, c: Callout, current: nat, r: nat, k: Place, c1: Callout, rest: seq<Byte>)
    requires r <= 3 && ParseSubstructures(bs, c, current).Ok?
    requires forall j: Place | j >= r :: Part(c, j) == []
    requires var ranks := RanksRead(bs, c, current); k in ranks && AllFrom(ranks, r)
    requires var p := ParseSubstructures(bs, c, current).value; From(p.value, 0) + p.rest == From(c, 0) + bs
    requires Fronts(Part(c1, k), KindAt(k), rest, bs)
    ensures AllFrom(RanksRead(bs, c, current), k)
  {
    hide ParseSubstructures, Part, From, RanksRead, BigEndian16, KindAt, Before;
    var p, ranks := ParseSubstructures(bs, c, current).value, RanksRead(bs, c, current);
    PartsRead(bs, c, current);
    var m := FirstPrinted(p.value, r, k, ranks);
    BeforeAndFrom(p.value, r);
    BeforeAndFrom(c, r);
    BeforeSame(c, p.value, r);
    FromEmpty(c, r);
    SameBehind(Before(c, r), From(p.value, r), p.rest, bs);
    assert bs[..2] == Part(c1, k)[..2];
    assert bs[..2] == From(p.value, r)[..2];
    KindsDiffer(m, k);
  }

  lemma SameBehind(a: seq<Byte>, b: seq<Byte>, rest: seq<Byte>, bs: seq<Byte>)
    requires (a + b) + rest == a + bs
    ensures b + rest == bs
  {
    assert (a + b) + rest == a + (b + rest);
    assert (a + (b + rest))[|a|..] == (a + bs)[|a|..];
  }

  // ------------------------------------------------------------------- one callout

  /** Where the location code ends. */
  function LocationEnd(bs: seq<Byte>): nat
    requires |bs| >= 4
  {
    var n: nat := bs[3];
    n + 4
  }

  function Bare(bs: seq<Byte>): Callout
    requires |bs| >= 4 && |bs| >= LocationEnd(bs)
  {
    Callout(bs[0], bs[1], bs[2], bs[4..LocationEnd(bs)], None, None, None)
  }

  /** The substructures of the callout at the front are FRU, PCE and MRU in this order,
      none of them twice. */
  predicate InOrder(bs: seq<Byte>) {
    |bs| >= 4 && |bs| >= LocationEnd(bs) ==> Ascending(RanksRead(bs[LocationEnd(bs)..], Bare(bs), LocationEnd(bs)))
  }

  lemma CalloutSplit(bs: seq<Byte>)
    requires ParseCallout(bs).Ok?
    ensures var r := ParseCallout(bs).value;
      FlattenCallout(r.value) == bs[..LocationEnd(bs)] + From(r.value, 0)
  {
    hide ParseSubstructures, From, FlattenSubstructures;
    PartsRead(bs[LocationEnd(bs)..], Bare(bs), LocationEnd(bs));
    var r := ParseCallout(bs).value;
    FromStart(r.value);
    assert bs[..LocationEnd(bs)] == [bs[0], bs[1], bs[2], bs[3]] + bs[4..LocationEnd(bs)];
  }

  /** A callout read from bytes never prints more than was read, and prints these very
      bytes exactly when its substructures stood in order. The size bytes do not matter. */
  lemma CalloutReprintedIff(bs: seq<Byte>)
    requires ParseCallout(bs).Ok?
    ensures var r := ParseCallout(bs).value;
      && |FlattenCallout(r.value)| + |r.rest| <= |bs|
      && (FlattenCallout(r.value) + r.rest == bs <==> InOrder(bs))
  {
    hide ParseSubstructures, From, Part, FlattenCallout, RanksRead, Ascending;
    var n, r := LocationEnd(bs), ParseCallout(bs).value;
    var front, behind := bs[..n], bs[n..];
    var ranks := RanksRead(behind, Bare(bs), n);
    assert bs == front + behind;
    CalloutSplit(bs);
    BareIsEmpty(bs);
    LoopLength(behind, Bare(bs), n);
    assert (front + From(r.value, 0)) + r.rest == front + (From(r.value, 0) + r.rest);
    if Ascending(ranks) {
      AscendingReprinted(behind, Bare(bs), n, 0);
    }
    if FlattenCallout(r.value) + r.rest == bs {
      SameBehind(front, From(r.value, 0), r.rest, behind);
      ReprintedAscending(behind, Bare(bs), n, 0);
    }
  }

  /** Two FRU identities of four bytes: the second replaces the first, and eight bytes are
      printed of twelve. */
  lemma RepeatedFRUChangesBytes()
    ensures var bs := [12, 0, 0x48, 0] + FlattenFRU(EMPTY_FRU) + FlattenFRU(EMPTY_FRU);
      ParseCallout(bs).Ok? && FlattenCallout(ParseCallout(bs).value.value) + ParseCallout(bs).value.rest != bs
  {
    hide ParseFRU;
    var fru := FlattenFRU(EMPTY_FRU);
    var bs := [12, 0, 0x48, 0] + fru + fru;
    var c := Callout(12, 0, 0x48, [], None, None, None);
    var c1 := c.(fru := Some(EMPTY_FRU));
    assert bs[4..4] == [] && bs[4..] == fru + fru && fru + [] == fru;
    ParsesFRU(c, EMPTY_FRU, fru);
    ParsesFRU(c1, EMPTY_FRU, []);
    LoopTurn(fru + fru, c, 4, c1, 4, fru);
    LoopTurn(fru, c1, 8, c1, 4, []);
    LoopEnds([], c1);
  }

  const EMPTY_FRU := FRUIdentity(FRU_TYPE, 4, 0, [], [], [])

  lemma BareIsEmpty(bs: seq<Byte>)
    requires |bs| >= 4 && |bs| >= LocationEnd(bs)
    ensures forall j: Place :: Part(Bare(bs), j) == []
    ensures From(Bare(bs), 0) == []
  {
    FromEmpty(Bare(bs), 0);
  }

  // ------------------------------------------------------------------ the subsection

  /** Every callout of the list has its substructures in order. */
  predicate ListInOrder(bs: seq<Byte>, length: nat, current: nat)
    decreases |bs|
  {
    length <= current ||
    match ParseCallout(bs)
    case Thrown => true
    case Ok(Read(c, rest)) =>
      CalloutConsumes(bs);
      InOrder(bs) && ListInOrder(rest, length, current + CalloutSize(c))
  }

  /** Two printers one behind the other, neither of which prints more than was read: both
      print what was read if together they do. */
  lemma BothReprint(a: seq<Byte>, x: seq<Byte>, behind: seq<Byte>, rest: seq<Byte>, bs: seq<Byte>)
    requires Consumed(bs, 0, behind) && |a| + |behind| <= |bs| && |x| + |rest| <= |behind|
    ensures (a + x) + rest == bs <==> a + behind == bs && x + rest == behind
    ensures |a + x| + |rest| <= |bs|
  {
    assert (a + x) + rest == a + (x + rest);
    if (a + x) + rest == bs {
      assert bs[|a|..] == x + rest;
    }
  }

  lemma {:induction false} ListReprintedIff(bs: seq<Byte>, length: nat, current: nat)
    requires ParseList(bs, length, current).Ok?
    ensures var r := ParseList(bs, length, current).value;
      && |FlattenAll(r.value)| + |r.rest| <= |bs|
      && (FlattenAll(r.value) + r.rest == bs <==> ListInOrder(bs, length, current))
    decreases |bs|
  {
    hide ParseCallout, FlattenCallout, CalloutSize, InOrder;
    if length > current {
      CalloutConsumes(bs);
      CalloutReprintedIff(bs);
      var c := ParseCallout(bs).value;
      var next := current + CalloutSize(c.value);
      ListReprintedIff(c.rest, length, next);
      var more := ParseList(c.rest, length, next).value;
      assert ([c.value] + more.value)[1..] == more.value;
      BothReprint(FlattenCallout(c.value), FlattenAll(more.value), c.rest, more.rest, bs);
    }
  }

  /** Every callout of the subsection at the front has its substructures in order. */
  predicate CalloutsInOrder(bs: seq<Byte>) {
    |bs| >= 4 ==> ListInOrder(bs[4..], FromBigEndian16(bs[2..4]) * 4, 4)
  }

  /** A callouts subsection read from bytes prints these very bytes exactly when each of
      its callouts had its substructures in order. */
  lemma CalloutsReprintedIff(bs: seq<Byte>)
    requires ParseCallouts(bs).Ok?
    ensures var r := ParseCallouts(bs).value;
      && |FlattenCallouts(r.value)| + |r.rest| <= |bs|
      && (FlattenCallouts(r.value) + r.rest == bs <==> CalloutsInOrder(bs))
  {
    hide ParseList, FlattenAll, ListInOrder;
    ListReprintedIff(bs[4..], FromBigEndian16(bs[2..4]) * 4, 4);
    var r := ParseCallouts(bs).value;
    BigEndian16Again(bs[2..4]);
    assert bs == bs[..4] + bs[4..];
    assert FlattenCallouts(r.value) == bs[..4] + FlattenAll(r.value.callouts);
    BothReprint(bs[..4], FlattenAll(r.value.callouts), bs[4..], r.rest, bs);
  }
}
