/** Callouts made from what an error log reports, and what makes two of them the same. */
module CalloutBuilding {
  import opened Wrappers
  import opened Bytes
  import opened CalloutFormat

  const LOCATION_CODE_MAX_SIZE := 80
  const MAX_MRUS := 15

  datatype Priority = High | Medium | MediumGroupA | MediumGroupB | MediumGroupC | Low

  datatype ValueType = Raw | RegistryName

  /** The names the message registry may use, and what they stand for. */
  datatype Registry = Registry(procedures: map<seq<Byte>, seq<Byte>>, symbolicFRUs: map<seq<Byte>, seq<Byte>>)

  /** The arguments of the three building constructors. */
  datatype NewCallout =
    | Hardware(priority: Priority, location: seq<Byte>, partNumber: seq<Byte>, ccin: seq<Byte>,
               serialNumber: seq<Byte>, mrus: seq<MRUCallout>)
    | Procedure(priority: Priority, procedure: seq<Byte>, valueType: ValueType)
    | Symbolic(priority: Priority, fru: seq<Byte>, valueType: ValueType, location: seq<Byte>, trusted: bool)

  function Letter(p: Priority): Byte {
    match p
    case High => 72
    case Medium => 77
    case MediumGroupA => 65
    case MediumGroupB => 66
    case MediumGroupC => 67
    case Low => 76
  }

  function Zeros(n: nat): (s: seq<Byte>)
    ensures |s| == n && forall i | 0 <= i < n :: s[i] == 0
  {
    seq(n, i => 0)
  }

  /** The text up to the first NUL. */
  function CString(bs: seq<Byte>): seq<Byte> {
    if bs == [] || bs[0] == 0 then [] else [bs[0]] + CString(bs[1..])
  }

  function Upto<T>(bs: seq<T>, n: nat): seq<T> { if |bs| <= n then bs else bs[..n] }

  // -------------------------------------------------------------------- fields

  /** A location code ends in a NUL on a 4-byte boundary, or is cut off at 80 bytes. */
  function LocationField(code: seq<Byte>): seq<Byte> {
    if code == [] then []
    else if |code| < LOCATION_CODE_MAX_SIZE then code + Zeros(4 - |code| % 4)
    else code[..LOCATION_CODE_MAX_SIZE - 1] + [0]
  }

  function Filled(source: seq<Byte>, n: nat): seq<Byte> {
    Upto(source, n) + Zeros(if |source| < n then n - |source| else 0)
  }

  function StripSpaces(s: seq<Byte>): seq<Byte> {
    if s != [] && s[0] == 32 then StripSpaces(s[1..]) else s
  }

  /** Eight bytes, the last of them a NUL. */
  function NameField(name: seq<Byte>): seq<Byte> { Filled(name, 8)[7 := 0] }

  const INVALID: seq<Byte> := [73, 78, 86, 65, 76, 73, 68]

  function Resolved(name: seq<Byte>, valueType: ValueType, names: map<seq<Byte>, seq<Byte>>): seq<Byte> {
    if valueType == Raw then name else if name in names then names[name] else INVALID
  }

  // -------------------------------------------------------------- constructors

  function SizedFRU(f: FRUIdentity): FRUIdentity { f.(size := FRUSize(f) % 256) }

  function BuildFRU(n: NewCallout, registry: Registry): FRUIdentity {
    match n
    case Hardware(_, _, partNumber, ccin, serialNumber, _) =>
      SizedFRU(FRUIdentity(FRU_TYPE, 0, 0x10 + PN_SUPPLIED + CCIN_SUPPLIED + SN_SUPPLIED,
                           NameField(StripSpaces(partNumber)), Filled(ccin, 4), Filled(serialNumber, 12)))
    case Procedure(_, procedure, valueType) =>
      SizedFRU(FRUIdentity(FRU_TYPE, 0, 0x40 + MAINT_PROC_SUPPLIED,
                           NameField(Resolved(procedure, valueType, registry.procedures)), [], []))
    case Symbolic(_, fru, valueType, _, trusted) =>
      SizedFRU(FRUIdentity(FRU_TYPE, 0, (if trusted then 0xE0 else 0xC0) + PN_SUPPLIED,
                           NameField(Resolved(fru, valueType, registry.symbolicFRUs)), [], []))
  }

  function BuildMRU(mrus: seq<MRUCallout>): MRU {
    var ms := Upto(mrus, MAX_MRUS);
    MRU(MRU_TYPE, (8 + 8 * |ms|) % 256, |ms| % 256, 0, ms)
  }

  function Location(n: NewCallout): seq<Byte> { if n.Procedure? then [] else n.location }

  function Build(n: NewCallout, registry: Registry): Callout {
    var mru := if n.Hardware? && n.mrus != [] then Some(BuildMRU(n.mrus)) else None;
    var c := Callout(0, 0x20 + 0x08 + (if mru.Some? then 0x04 else 0), Letter(n.priority), LocationField(Location(n)),
                     Some(BuildFRU(n, registry)), None, mru);
    c.(size := CalloutSize(c) % 256)
  }

  // ------------------------------------------------------------ what they give

  /** What every building constructor guarantees. */
  predicate WellBuilt(c: Callout) {
    && WellFormed(c)
    && c.size % 4 == 0 && c.size <= 240
    && KnownPriority(c.priority)
    && c.fru.Some? && HasPN(c.fru.value.flags) != HasMP(c.fru.value.flags)
  }

  predicate KnownPriority(p: Byte) { p in {72, 77, 65, 66, 67, 76} }

  lemma LocationFieldFits(code: seq<Byte>)
    ensures |LocationField(code)| % 4 == 0 && |LocationField(code)| <= LOCATION_CODE_MAX_SIZE
    ensures code == [] <==> LocationField(code) == []
  {}

  lemma BuiltFRU(n: NewCallout, registry: Registry)
    ensures var f := BuildFRU(n, registry);
      WellFormedFRU(f) && f.size % 4 == 0 && f.size <= 28 && HasPN(f.flags) == !n.Procedure? && HasMP(f.flags) == n.Procedure?
  {}

  lemma BuiltMRU(mrus: seq<MRUCallout>)
    ensures WellFormedMRU(BuildMRU(mrus)) && BuildMRU(mrus).size % 4 == 0 && BuildMRU(mrus).size <= 128
  {}

  /** No size byte is ever truncated, and every size is a whole number of words. */
  lemma BuiltIsWellBuilt(n: NewCallout, registry: Registry)
    ensures WellBuilt(Build(n, registry))
  {
    LocationFieldFits(Location(n));
    BuiltFRU(n, registry);
    if n.Hardware? { BuiltMRU(n.mrus); }
  }

  lemma {:induction false} CStringCut(a: seq<Byte>, rest: seq<Byte>)
    requires rest == [] || rest[0] == 0
    ensures CString(a + rest) == CString(a)
  {
    if a == [] {
      assert a + rest == rest;
    } else {
      assert (a + rest)[1..] == a[1..] + rest;
      CStringCut(a[1..], rest);
    }
  }

  /** A location code is read back as it was given, up to 79 characters of it. */
  lemma LocationKept(code: seq<Byte>)
    ensures CString(LocationField(code)) == CString(Upto(code, LOCATION_CODE_MAX_SIZE - 1))
  {
    if code == [] {
    } else if |code| < LOCATION_CODE_MAX_SIZE {
      CStringCut(code, Zeros(4 - |code| % 4));
    } else {
      CStringCut(code[..LOCATION_CODE_MAX_SIZE - 1], [0]);
    }
  }

  /** A name is read back as it was given, up to seven characters of it. */
  lemma NameKept(name: seq<Byte>)
    ensures CString(NameField(name)) == CString(Upto(name, 7))
  {
    var rest := Zeros(8 - |Upto(name, 7)|);
    assert NameField(name) == Upto(name, 7) + rest;
    CStringCut(Upto(name, 7), rest);
  }

  // ------------------------------------------------------------- same and higher

  function LocationText(c: Callout): seq<Byte> { CString(c.locationCode) }

  function PN(f: FRUIdentity): Option<seq<Byte>> {
    if HasPN(f.flags) then Some(CString(f.pnOrProcedureID)) else None
  }

  function MaintProc(f: FRUIdentity): Option<seq<Byte>> {
    if HasMP(f.flags) then Some(CString(f.pnOrProcedureID)) else None
  }

  /** operator== */
  predicate Same(a: Callout, b: Callout) {
    if a.locationCode != [] || b.locationCode != [] then LocationText(a) == LocationText(b)
    else if a.fru.None? || b.fru.None? then false
    else if MaintProc(a.fru.value).Some? then MaintProc(b.fru.value) == MaintProc(a.fru.value)
    else PN(a.fru.value).Some? && PN(b.fru.value) == PN(a.fru.value)
  }

  function Rank(priority: Byte): Option<int> {
    if priority == 72 then Some(10)
    else if priority in {77, 65, 66, 67} then Some(9)
    else if priority == 76 then Some(8)
    else None
  }

  /** operator> */
  predicate Higher(a: Callout, b: Callout) {
    && Rank(a.priority).Some? && Rank(b.priority).Some?
    && Rank(a.priority).value > Rank(b.priority).value
  }

  function RankOf(c: Callout): int { if Rank(c.priority).Some? then Rank(c.priority).value else 0 }

  lemma SameIsSymmetric(a: Callout, b: Callout)
    requires WellBuilt(a) && WellBuilt(b)
    ensures Same(a, b) == Same(b, a)
  {}

  /** What identifies a callout: its location, or without one its procedure or its
      part number. */
  datatype Identity = AtLocation(text: seq<Byte>) | OfProcedure(name: seq<Byte>) | OfPart(name: seq<Byte>)

  /** The identity that the arguments of a constructor describe. */
  function IdentityOf(n: NewCallout, registry: Registry): Identity {
    if Location(n) != [] then AtLocation(CString(Upto(Location(n), 79)))
    else
      match n
      case Procedure(_, procedure, valueType) =>
        OfProcedure(CString(Upto(Resolved(procedure, valueType, registry.procedures), 7)))
      case Symbolic(_, fru, valueType, _, _) =>
        OfPart(CString(Upto(Resolved(fru, valueType, registry.symbolicFRUs), 7)))
      case Hardware(_, _, partNumber, _, _, _) => OfPart(CString(Upto(StripSpaces(partNumber), 7)))
  }

  /** Two callouts are the same when they were built for the same part: by their
      locations if either has one, else by procedure or part number. A location
      that starts with a NUL reads as no location at all. */
  lemma SameIffSameIdentity(a: NewCallout, b: NewCallout, registry: Registry)
    ensures Same(Build(a, registry), Build(b, registry)) <==>
      || IdentityOf(a, registry) == IdentityOf(b, registry)
      || (Location(a) == [] && IdentityOf(b, registry) == AtLocation([]))
      || (Location(b) == [] && IdentityOf(a, registry) == AtLocation([]))
  {
    LocationKept(Location(a));
    LocationKept(Location(b));
    LocationFieldFits(Location(a));
    LocationFieldFits(Location(b));
    BuiltFRU(a, registry);
    BuiltFRU(b, registry);
    BuiltName(a, registry);
    BuiltName(b, registry);
  }

  lemma BuiltName(n: NewCallout, registry: Registry)
    ensures Location(n) == [] ==>
      match IdentityOf(n, registry)
      case OfProcedure(name) => n.Procedure? && MaintProc(BuildFRU(n, registry)) == Some(name)
      case OfPart(name) => !n.Procedure? && PN(BuildFRU(n, registry)) == Some(name)
      case AtLocation(_) => false
  {
    BuiltFRU(n, registry);
    match n
    case Procedure(_, procedure, valueType) => NameKept(Resolved(procedure, valueType, registry.procedures));
    case Symbolic(_, fru, valueType, _, _) => NameKept(Resolved(fru, valueType, registry.symbolicFRUs));
    case Hardware(_, _, partNumber, _, _, _) => NameKept(StripSpaces(partNumber));
  }

  // ------------------------------------------------------------------ in place

  /** setLocationCode: append, terminate, then pad to a word. */
  method SetLocationCode(code: seq<Byte>) returns (field: seq<Byte>)
    ensures field == LocationField(code)
  {
    if code == [] { return []; }
    field := code;
    if |field| < LOCATION_CODE_MAX_SIZE {
      field := field + [0];
      while |field| % 4 != 0
        invariant |code| < |field| <= |code| + 4 - |code| % 4
        invariant field == code + Zeros(|field| - |code|)
        decreases |code| + 4 - |field|
      {
        field := field + [0];
      }
    } else {
      field := field[..LOCATION_CODE_MAX_SIZE];
      field := field[|field| - 1 := 0];
    }
  }

  /** fillArray */
  method FillArray(source: seq<Byte>, target: array<Byte>)
    modifies target
    ensures target[..] == Filled(source, target.Length)
  {
    for i := 0 to target.Length
      invariant forall k | 0 <= k < i :: target[k] == if k < |source| then source[k] else 0
    {
      target[i] := if |source| > i then source[i] else 0;
    }
  }

  /** setPartNumber: leading spaces go, the rest fills the field, the last byte ends it. */
  method SetPartNumber(partNumber: seq<Byte>, field: array<Byte>)
    requires field.Length == 8
    modifies field
    ensures field[..] == NameField(StripSpaces(partNumber))
  {
    var pn := partNumber;
    while pn != [] && pn[0] == 32
      invariant StripSpaces(pn) == StripSpaces(partNumber)
      decreases |pn|
    {
      pn := pn[1..];
    }
    FillArray(pn, field);
    field[7] := 0;
  }
}
