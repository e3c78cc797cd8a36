/** Where each field of the callouts stands among their bytes, by index, and what the
    building constructors put there. */
module CalloutLayout {
  import opened Wrappers
  import opened Bytes
  import opened CalloutFormat
  import opened CalloutBuilding
  import P = PelLayout

  // ------------------------------------------------------------------ substructures

  /** "ID", the size, the flags, and the fields whose bits are set: eight bytes of part number
      or procedure for 0x08 or 0x02, four of CCIN for 0x04, twelve of serial number for 0x01. */
  predicate FRUAt(bs: seq<Byte>, f: FRUIdentity) {
    var a := if f.flags / 8 % 2 == 1 || f.flags / 2 % 2 == 1 then 8 else 0;
    var b := if f.flags / 4 % 2 == 1 then 4 else 0;
    var c := if f.flags % 2 == 1 then 12 else 0;
    && |bs| == 4 + a + b + c && bs[0] == 0x49 && bs[1] == 0x44 && bs[2] == |bs| && bs[3] == f.flags
    && bs[4..4 + a] == f.pnOrProcedureID && bs[4 + a..4 + a + b] == f.ccin && bs[4 + a + b..] == f.sn
    && f.kind == P.Two(bs, 0) && f.size == |bs|
  }

  /** "PE", the size, the flags, machine type, serial number, and the name in the rest. */
  predicate PCEAt(bs: seq<Byte>, p: PCEIdentity) {
    && 24 <= |bs| && bs[0] == 0x50 && bs[1] == 0x45 && bs[2] == |bs| && bs[3] == p.flags
    && bs[4..12] == p.mtm && bs[12..24] == p.sn && bs[24..] == p.pceName
    && p.kind == P.Two(bs, 0) && p.size == |bs|
  }

  /** "MR", the size, the flags with the number of MRUs in the low four bits, a reserved
      word, and a priority and an ID for each. */
  predicate MRUAt(bs: seq<Byte>, m: MRU) {
    && |bs| == 8 + 8 * |m.mrus| && bs[0] == 0x4D && bs[1] == 0x52 && bs[2] == |bs| && bs[3] == m.flags
    && bs[3] % 16 == |m.mrus| && P.Four(bs, 4) == m.reserved4B
    && (forall i | 0 <= i < |m.mrus| ::
          P.Four(bs, 8 + 8 * i) == m.mrus[i].priority && P.Four(bs, 12 + 8 * i) == m.mrus[i].id)
    && m.kind == P.Two(bs, 0) && m.size == |bs|
  }

  lemma FRULayout(bs: seq<Byte>, f: FRUIdentity)
    ensures FRUAt(bs, f) <==> WellFormedFRU(f) && bs == FlattenFRU(f)
  {
    hide PnLength, CcinLength, SnLength;
    LengthsByBits(f.flags);
    var a, b, c := PnLength(f.flags), CcinLength(f.flags), SnLength(f.flags);
    if |bs| == 4 + a + b + c {
      var pn, ccin, sn := bs[4..4 + a], bs[4 + a..4 + a + b], bs[4 + a + b..];
      assert bs == bs[..4] + (pn + (ccin + sn));
      HeadBytes(bs, f.kind, f.size, f.flags);
      if |f.pnOrProcedureID| == a && |f.ccin| == b {
        EqualPieces(bs[..4], pn, ccin + sn, BigEndian16(f.kind) + [f.size, f.flags], f.pnOrProcedureID, f.ccin + f.sn);
        EqualPieces([], ccin, sn, [], f.ccin, f.sn);
        assert [] + (ccin + sn) == ccin + sn && [] + (f.ccin + f.sn) == f.ccin + f.sn;
      }
    } else if WellFormedFRU(f) {
      FRURoundTrip(f, []);
    }
  }

  /** The lengths of the three fields, by the bits of the flags. */
  lemma LengthsByBits(flags: Byte)
    ensures PnLength(flags) == if flags / 8 % 2 == 1 || flags / 2 % 2 == 1 then 8 else 0
    ensures CcinLength(flags) == if flags / 4 % 2 == 1 then 4 else 0
    ensures SnLength(flags) == if flags % 2 == 1 then 12 else 0
  {}

  lemma HeadBytes(bs: seq<Byte>, kind: Word, size: Byte, flags: Byte)
    requires 4 <= |bs|
    ensures bs[..4] == BigEndian16(kind) + [size, flags] <==> P.Two(bs, 0) == kind && bs[2] == size && bs[3] == flags
  {
    assert bs[..4] == [bs[0], bs[1], bs[2], bs[3]];
  }

  lemma PCELayout(bs: seq<Byte>, p: PCEIdentity)
    ensures PCEAt(bs, p) <==> WellFormedPCE(p) && bs == FlattenPCE(p)
  {
    if PCEAt(bs, p) {
      assert bs == [bs[0], bs[1]] + [bs[2], bs[3]] + (bs[4..12] + (bs[12..24] + bs[24..]));
    }
  }

  ghost predicate MRUsAt(bs: seq<Byte>, ms: seq<MRUCallout>) {
    && |bs| == 8 * |ms|
    && forall i | 0 <= i < |ms| :: P.Four(bs, 8 * i) == ms[i].priority && P.Four(bs, 4 + 8 * i) == ms[i].id
  }

  lemma {:induction false} MRUsLayout(bs: seq<Byte>, ms: seq<MRUCallout>)
    requires |bs| == 8 * |ms|
    ensures MRUsAt(bs, ms) <==> bs == FlattenMRUs(ms)
  {
    if ms != [] {
      var more := bs[8..];
      MRUsLayout(more, ms[1..]);
      P.PrintsFour(ms[0].priority, bs[..4]);
      P.PrintsFour(ms[0].id, bs[4..8]);
      assert bs == bs[..4] + (bs[4..8] + more);
      BigEndian32Inverse(ms[0].priority);
      BigEndian32Inverse(ms[0].id);
      FirstMRU(bs, ms);
      EqualPieces(bs[..4], bs[4..8], more, BigEndian32(ms[0].priority), BigEndian32(ms[0].id), FlattenMRUs(ms[1..]));
    }
  }

  lemma EqualPieces(a: seq<Byte>, b: seq<Byte>, c: seq<Byte>, x: seq<Byte>, y: seq<Byte>, z: seq<Byte>)
    requires |a| == |x| && |b| == |y|
    ensures a + (b + c) == x + (y + z) <==> a == x && b == y && c == z
  {
    if a + (b + c) == x + (y + z) {
      assert (a + (b + c))[..|a|] == a && (a + (b + c))[|a|..] == b + c;
      assert (x + (y + z))[..|a|] == x && (x + (y + z))[|a|..] == y + z;
      assert (b + c)[..|b|] == b && (b + c)[|b|..] == c && (y + z)[..|b|] == y && (y + z)[|b|..] == z;
    }
  }

  lemma FirstMRU(bs: seq<Byte>, ms: seq<MRUCallout>)
    requires ms != [] && |bs| == 8 * |ms|
    ensures MRUsAt(bs, ms) <==>
      P.Four(bs[..4], 0) == ms[0].priority && P.Four(bs[4..8], 0) == ms[0].id && MRUsAt(bs[8..], ms[1..])
  {
    var more, behind := bs[8..], ms[1..];
    assert P.Four(bs, 8 * 0) == P.Four(bs[..4], 0) && P.Four(bs, 4 + 8 * 0) == P.Four(bs[4..8], 0);
    forall i | 0 <= i < |behind|
      ensures P.Four(more, 8 * i) == P.Four(bs, 8 * (i + 1)) && P.Four(more, 4 + 8 * i) == P.Four(bs, 4 + 8 * (i + 1))
    {}
    if MRUsAt(more, behind) && P.Four(bs[..4], 0) == ms[0].priority && P.Four(bs[4..8], 0) == ms[0].id {
      forall i | 0 <= i < |ms| ensures P.Four(bs, 8 * i) == ms[i].priority && P.Four(bs, 4 + 8 * i) == ms[i].id {
        if i > 0 { assert ms[i] == behind[i - 1] && P.Four(more, 8 * (i - 1)) == behind[i - 1].priority; }
      }
    }
    if MRUsAt(bs, ms) {
      forall i | 0 <= i < |behind|
        ensures P.Four(more, 8 * i) == behind[i].priority && P.Four(more, 4 + 8 * i) == behind[i].id
      {
        assert behind[i] == ms[i + 1] && P.Four(bs, 8 * (i + 1)) == ms[i + 1].priority;
      }
    }
  }

  lemma MRULayout(bs: seq<Byte>, m: MRU)
    ensures MRUAt(bs, m) <==> WellFormedMRU(m) && bs == FlattenMRU(m)
  {
    hide FlattenMRUs, BigEndian32;
    if |bs| == 8 + 8 * |m.mrus| {
      assert bs == [bs[0], bs[1]] + [bs[2], bs[3]] + (bs[4..8] + bs[8..]);
      P.PrintsFour(m.reserved4B, bs[4..8]);
      MRUsLayout(bs[8..], m.mrus);
      MRUsBehind(bs, m.mrus);
      BigEndian32Inverse(m.reserved4B);
      if bs == FlattenMRU(m) {
        assert bs[4..] == BigEndian32(m.reserved4B) + FlattenMRUs(m.mrus);
        assert bs[4..8] == bs[4..][..4] && bs[8..] == bs[4..][4..];
      }
    } else if WellFormedMRU(m) {
      MRURoundTrip(m, []);
    }
  }

  lemma MRUsBehind(bs: seq<Byte>, ms: seq<MRUCallout>)
    requires |bs| == 8 + 8 * |ms|
    ensures MRUsAt(bs[8..], ms) <==> forall i | 0 <= i < |ms| ::
      P.Four(bs, 8 + 8 * i) == ms[i].priority && P.Four(bs, 12 + 8 * i) == ms[i].id
  {
    forall i | 0 <= i < |ms|
      ensures P.Four(bs[8..], 8 * i) == P.Four(bs, 8 + 8 * i) && P.Four(bs[8..], 4 + 8 * i) == P.Four(bs, 12 + 8 * i)
    {}
  }

  // ------------------------------------------------------------------------ callouts

  predicate SubstructuresAt(bs: seq<Byte>, c: Callout) {
    var a := SizeOfFRU(c.fru);
    var b := SizeOfPCE(c.pce);
    && a + b <= |bs|
    && (if c.fru.Some? then FRUAt(bs[..a], c.fru.value) else a == 0)
    && (if c.pce.Some? then PCEAt(bs[a..a + b], c.pce.value) else b == 0)
    && (if c.mru.Some? then MRUAt(bs[a + b..], c.mru.value) else |bs| == a + b)
  }

  /** The size, the flags, the priority and the length of the location code, the code, and
      then the FRU, the PCE and the MRUs, as far as there are any. */
  predicate CalloutAt(bs: seq<Byte>, c: Callout) {
    var n := |c.locationCode|;
    && 4 + n <= |bs| && bs[0] == |bs| && bs[1] == c.flags && bs[2] == c.priority && bs[3] == n
    && bs[4..4 + n] == c.locationCode
    && SubstructuresAt(bs[4 + n..], c) && c.size == |bs|
  }

  lemma SubstructuresLayout(bs: seq<Byte>, c: Callout)
    ensures SubstructuresAt(bs, c) <==>
      && (c.fru.Some? ==> WellFormedFRU(c.fru.value)) && (c.pce.Some? ==> WellFormedPCE(c.pce.value))
      && (c.mru.Some? ==> WellFormedMRU(c.mru.value)) && bs == FlattenSubstructures(c)
  {
    hide FRUAt, PCEAt, MRUAt, WellFormedFRU, WellFormedPCE, WellFormedMRU, FlattenFRU, FlattenPCE, FlattenMRU, FRUSize,
      BytesOfFRU, BytesOfPCE, BytesOfMRU, SizeOfFRU, SizeOfPCE;
    var a, b := SizeOfFRU(c.fru), SizeOfPCE(c.pce);
    PartLengths(c.fru, c.pce);
    if a + b <= |bs| {
      assert bs == bs[..a] + (bs[a..a + b] + bs[a + b..]);
      FRUPart(bs[..a], c.fru);
      PCEPart(bs[a..a + b], c.pce);
      MRUPart(bs[a + b..], c.mru);
      if |BytesOfFRU(c.fru)| == a && |BytesOfPCE(c.pce)| == b {
        EqualPieces(bs[..a], bs[a..a + b], bs[a + b..], BytesOfFRU(c.fru), BytesOfPCE(c.pce), BytesOfMRU(c.mru));
      }
    }
  }

  lemma PartLengths(fru: Option<FRUIdentity>, pce: Option<PCEIdentity>)
    ensures (fru.Some? ==> WellFormedFRU(fru.value)) ==> |BytesOfFRU(fru)| == SizeOfFRU(fru)
    ensures (pce.Some? ==> WellFormedPCE(pce.value)) ==> |BytesOfPCE(pce)| == SizeOfPCE(pce)
    ensures (fru.None? ==> SizeOfFRU(fru) == 0) && (pce.None? ==> SizeOfPCE(pce) == 0)
  {
    hide WellFormedFRU, WellFormedPCE, FlattenFRU, FlattenPCE, FRUSize;
    if fru.Some? && WellFormedFRU(fru.value) { FRURoundTrip(fru.value, []); }
    if pce.Some? && WellFormedPCE(pce.value) { PCERoundTrip(pce.value, []); }
  }

  lemma FRUPart(bs: seq<Byte>, fru: Option<FRUIdentity>)
    ensures (if fru.Some? then FRUAt(bs, fru.value) else bs == [])
       <==> (fru.Some? ==> WellFormedFRU(fru.value)) && bs == BytesOfFRU(fru)
  {
    hide FRUAt, WellFormedFRU, FlattenFRU;
    if fru.Some? { FRULayout(bs, fru.value); }
  }

  lemma PCEPart(bs: seq<Byte>, pce: Option<PCEIdentity>)
    ensures (if pce.Some? then PCEAt(bs, pce.value) else bs == [])
       <==> (pce.Some? ==> WellFormedPCE(pce.value)) && bs == BytesOfPCE(pce)
  {
    hide PCEAt, WellFormedPCE, FlattenPCE;
    if pce.Some? { PCELayout(bs, pce.value); }
  }

  lemma MRUPart(bs: seq<Byte>, mru: Option<MRU>)
    ensures (if mru.Some? then MRUAt(bs, mru.value) else bs == [])
       <==> (mru.Some? ==> WellFormedMRU(mru.value)) && bs == BytesOfMRU(mru)
  {
    hide MRUAt, WellFormedMRU, FlattenMRU;
    if mru.Some? { MRULayout(bs, mru.value); }
  }

  lemma CalloutLayout(bs: seq<Byte>, c: Callout)
    ensures CalloutAt(bs, c) <==> WellFormed(c) && bs == FlattenCallout(c)
  {
    hide SubstructuresAt, WellFormedFRU, WellFormedPCE, WellFormedMRU, FlattenSubstructures, FRUSize;
    var n := |c.locationCode|;
    if WellFormed(c) { CalloutLength(c); }
    if 4 + n <= |bs| {
      assert bs == [bs[0], bs[1], bs[2], bs[3]] + (bs[4..4 + n] + bs[4 + n..]);
      SubstructuresLayout(bs[4 + n..], c);
      if SubstructuresAt(bs[4 + n..], c) { SubstructuresLength(c); }
      EqualPieces([bs[0], bs[1], bs[2], bs[3]], bs[4..4 + n], bs[4 + n..],
                  [c.size, c.flags, c.priority, n % 256], c.locationCode, FlattenSubstructures(c));
    }
  }

  lemma SubstructuresLength(c: Callout)
    requires (c.fru.Some? ==> WellFormedFRU(c.fru.value)) && (c.pce.Some? ==> WellFormedPCE(c.pce.value))
    requires c.mru.Some? ==> WellFormedMRU(c.mru.value)
    ensures |FlattenSubstructures(c)| == SizeOfFRU(c.fru) + SizeOfPCE(c.pce) + SizeOfMRU(c.mru)
  {
    hide WellFormedFRU, WellFormedPCE, WellFormedMRU, FlattenFRU, FlattenPCE, FlattenMRU, FRUSize;
    if c.fru.Some? { FRURoundTrip(c.fru.value, []); }
    if c.pce.Some? { PCERoundTrip(c.pce.value, []); }
    if c.mru.Some? { MRURoundTrip(c.mru.value, []); }
  }

  lemma CalloutLength(c: Callout)
    requires WellFormed(c)
    ensures |FlattenCallout(c)| == c.size
  {
    SubstructuresLength(c);
    hide FlattenSubstructures, FRUSize;
  }

  predicate ListAt(bs: seq<Byte>, cs: seq<Callout>)
    decreases cs
  {
    if cs == [] then bs == []
    else cs[0].size as int <= |bs| && CalloutAt(bs[..cs[0].size], cs[0]) && ListAt(bs[cs[0].size..], cs[1..])
  }

  /** The ID, the flags, the length in words, and the callouts one after the other. */
  predicate SubsectionAt(bs: seq<Byte>, cs: Callouts) {
    && 4 <= |bs| && bs[0] == cs.subsectionID && bs[1] == cs.subsectionFlags && P.Two(bs, 2) == cs.wordLength
    && 4 * P.Two(bs, 2) == |bs| && ListAt(bs[4..], cs.callouts)
  }

  ghost predicate AllWellFormed(cs: seq<Callout>) { forall c | c in cs :: WellFormed(c) }

  lemma {:induction false} ListLayout(bs: seq<Byte>, cs: seq<Callout>)
    ensures ListAt(bs, cs) <==> AllWellFormed(cs) && bs == FlattenAll(cs)
    ensures AllWellFormed(cs) ==> |FlattenAll(cs)| == SumOfSizes(cs)
    decreases cs
  {
    hide CalloutAt, WellFormed, FlattenCallout, CalloutSize;
    if cs != [] {
      var n: nat := cs[0].size;
      assert AllWellFormed(cs) <==> WellFormed(cs[0]) && AllWellFormed(cs[1..]) by {
        assert forall c :: c in cs <==> c == cs[0] || c in cs[1..];
      }
      if WellFormed(cs[0]) {
        CalloutLength(cs[0]);
        WellFormedSize(cs[0]);
      }
      ListLayout(if n <= |bs| then bs[n..] else [], cs[1..]);
      if n <= |bs| {
        CalloutLayout(bs[..n], cs[0]);
        assert bs == bs[..n] + bs[n..];
        if |FlattenCallout(cs[0])| == n && bs == FlattenCallout(cs[0]) + FlattenAll(cs[1..]) {
          assert bs[..n] == FlattenCallout(cs[0]) && bs[n..] == FlattenAll(cs[1..]);
        }
      }
    }
  }

  lemma WellFormedSize(c: Callout)
    requires WellFormed(c)
    ensures c.size == CalloutSize(c)
  {}

  /** The bytes of a subsection whose lengths are right are the ones with every field at its
      place, and no others. */
  lemma SubsectionLayout(bs: seq<Byte>, cs: Callouts)
    ensures SubsectionAt(bs, cs) <==> WellFormedCallouts(cs) && bs == FlattenCallouts(cs)
  {
    hide ListAt, WellFormed, FlattenAll, CalloutSize;
    if 4 <= |bs| {
      assert bs == [bs[0], bs[1]] + (bs[2..4] + bs[4..]);
      ListLayout(bs[4..], cs.callouts);
      P.PrintsTwo(cs.wordLength, bs[2..4]);
      EqualPieces([bs[0], bs[1]], bs[2..4], bs[4..], [cs.subsectionID, cs.subsectionFlags], BigEndian16(cs.wordLength),
                  FlattenAll(cs.callouts));
    }
  }

  /** Bytes laid out like that are read as these very callouts, whatever follows. */
  lemma SubsectionRead(bs: seq<Byte>, cs: Callouts, tail: seq<Byte>)
    requires SubsectionAt(bs, cs)
    ensures ParseCallouts(bs + tail) == Ok(Read(cs, tail))
  {
    hide SubsectionAt, WellFormedCallouts, FlattenCallouts, ParseCallouts;
    SubsectionLayout(bs, cs);
    CalloutsRoundTrip(cs, tail);
  }

  /** Only "ID", "PE" and "MR" begin a substructure, and each sets its own member. */
  lemma LettersChoose(bs: seq<Byte>, c: Callout)
    ensures ParseSubstructure(bs, c).Ok? ==>
      && bs[..2] in {[0x49, 0x44], [0x50, 0x45], [0x4D, 0x52]}
      && var c' := ParseSubstructure(bs, c).value.value.0;
      c' == if bs[..2] == [0x49, 0x44] then c.(fru := Some(ParseFRU(bs).value.value))
            else if bs[..2] == [0x50, 0x45] then c.(pce := Some(ParsePCE(bs).value.value))
            else c.(mru := Some(ParseMRU(bs).value.value))
  {
    hide ParseFRU, ParsePCE, ParseMRU;
    if |bs| >= 2 { assert bs[..2] == [bs[0], bs[1]]; }
  }

  // ----------------------------------------------------------------- what is built

  /** The text up to so many characters, and NULs in the rest of the field. */
  ghost predicate Shows(field: seq<Byte>, most: nat, text: seq<Byte>) {
    forall i | 0 <= i < |field| :: field[i] == if i < |text| && i < most then text[i] else 0
  }

  /** s without the spaces in front. */
  ghost predicate Unspaced(s: seq<Byte>, t: seq<Byte>, k: nat) {
    k <= |s| && t == s[k..] && (forall i | 0 <= i < k :: s[i] as char == ' ') && (t == [] || t[0] as char != ' ')
  }

  lemma {:induction false} StripUnspaces(s: seq<Byte>) returns (k: nat)
    ensures Unspaced(s, StripSpaces(s), k)
  {
    if s != [] && s[0] == 32 {
      k := StripUnspaces(s[1..]);
      k := k + 1;
    } else {
      k := 0;
    }
  }

  lemma NameShows(name: seq<Byte>)
    ensures |NameField(name)| == 8 && Shows(NameField(name), 7, name)
  {}

  lemma FilledShows(source: seq<Byte>, n: nat)
    ensures |Filled(source, n)| == n && Shows(Filled(source, n), n, source)
  {}

  lemma LocationShows(code: seq<Byte>)
    ensures |LocationField(code)| == if code == [] then 0 else if |code| >= 79 then 80 else (|code| / 4 + 1) * 4
    ensures Shows(LocationField(code), 79, code)
  {}

  /** The name of a procedure or symbolic FRU: itself, or what the registry has for it, or
      "INVALID". */
  ghost predicate Stands(name: seq<Byte>, valueType: ValueType, names: map<seq<Byte>, seq<Byte>>, text: seq<Byte>) {
    match valueType
    case Raw => text == name
    case RegistryName =>
      if name in names then text == names[name]
      else |text| == 7 && forall i | 0 <= i < 7 :: text[i] as char == "INVALID"[i]
  }

  /** The FRU a constructor builds: component type and bits in the flags, the part number
      without leading spaces, the CCIN and the serial number for hardware; the procedure; or
      the symbolic FRU, with or without a trusted location code. */
  lemma BuiltFRUShows(n: NewCallout, registry: Registry)
    ensures var f := BuildFRU(n, registry);
      match n
      case Hardware(_, _, partNumber, ccin, serialNumber, _) =>
        && f.flags == 0x1D && f.size == 28 && |f.pnOrProcedureID| == 8 && |f.ccin| == 4 && |f.sn| == 12
        && Shows(f.ccin, 4, ccin) && Shows(f.sn, 12, serialNumber)
        && (exists t, k :: Unspaced(partNumber, t, k) && Shows(f.pnOrProcedureID, 7, t))
      case Procedure(_, procedure, valueType) =>
        && f.flags == 0x42 && f.size == 12 && |f.pnOrProcedureID| == 8 && f.ccin == [] && f.sn == []
        && (exists t :: Stands(procedure, valueType, registry.procedures, t) && Shows(f.pnOrProcedureID, 7, t))
      case Symbolic(_, fru, valueType, _, trusted) =>
        && f.flags == (if trusted then 0xE8 else 0xC8) && f.size == 12 && |f.pnOrProcedureID| == 8
        && f.ccin == [] && f.sn == []
        && (exists t :: Stands(fru, valueType, registry.symbolicFRUs, t) && Shows(f.pnOrProcedureID, 7, t))
  {
    hide Shows, NameField, Filled;
    match n
    case Hardware(_, _, partNumber, ccin, serialNumber, _) =>
      var k := StripUnspaces(partNumber);
      NameShows(StripSpaces(partNumber));
      FilledShows(ccin, 4);
      FilledShows(serialNumber, 12);
    case Procedure(_, procedure, valueType) =>
      NameShows(Resolved(procedure, valueType, registry.procedures));
      assert Stands(procedure, valueType, registry.procedures, Resolved(procedure, valueType, registry.procedures));
    case Symbolic(_, fru, valueType, _, _) =>
      NameShows(Resolved(fru, valueType, registry.symbolicFRUs));
      assert Stands(fru, valueType, registry.symbolicFRUs, Resolved(fru, valueType, registry.symbolicFRUs));
  }

  function LetterOf(p: Priority): char {
    match p
    case High => 'H'
    case Medium => 'M'
    case MediumGroupA => 'A'
    case MediumGroupB => 'B'
    case MediumGroupC => 'C'
    case Low => 'L'
  }

  /** A built callout: the letter of its priority, its location code up to 79 characters, the
      FRU, no PCE, and the first 15 MRUs of hardware that has some; the flags say which. */
  lemma BuiltShows(n: NewCallout, registry: Registry)
    ensures var c := Build(n, registry);
      var mrus := if n.Hardware? then n.mrus else [];
      && c.priority as char == LetterOf(n.priority)
      && Shows(c.locationCode, 79, if n.Procedure? then [] else n.location)
      && c.fru == Some(BuildFRU(n, registry)) && c.pce == None
      && c.flags == (if mrus == [] then 0x28 else 0x2C)
      && (if mrus == [] then c.mru == None
          else c.mru.Some? && c.mru.value.mrus == (if |mrus| <= 15 then mrus else mrus[..15]) && c.mru.value.reserved4B == 0
               && c.mru.value.flags == |c.mru.value.mrus|)
  {
    hide BuildFRU, LocationField, Shows;
    LocationShows(Location(n));
  }
}
