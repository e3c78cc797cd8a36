/** The PEL repository as a value: the attribute map, the seven running size
    counters that shadow it, and the operations that change them. */
module RepositoryState {
  import opened Wrappers

  const TWO_TO_THE_32: int := 0x1_0000_0000
  const TWO_TO_THE_63: int := 0x8000_0000_0000_0000
  const TWO_TO_THE_64: int := 0x1_0000_0000_0000_0000

  type Uint32 = n: int | 0 <= n < TWO_TO_THE_32
  type Uint64 = n: int | 0 <= n < TWO_TO_THE_64

  /** A configured maximum, small enough that a hundredfold of it fits 64 bits. */
  type Maximum = n: int | 0 <= n < 0x200_0000_0000_0000

  // ---------------------------------------------------------------- attributes

  datatype TransmissionState = NewPEL | BadPEL | Sent | Acked

  /** The severities listed in pel_values.cpp.  Looking up any other value
      dereferences the end of that table. */
  predicate KnownSeverity(s: int) {
    || s == 0x00 || s == 0x10
    || 0x20 <= s <= 0x24
    || s == 0x40 || s == 0x41 || s == 0x44 || s == 0x45 || s == 0x48
    || 0x50 <= s <= 0x54
    || s == 0x60 || s == 0x61
    || s == 0x71 || s == 0x72 || 0x74 <= s <= 0x76
  }
  type Severity = s: int | KnownSeverity(s)

  datatype Attributes = Attributes(
    path: string,              // file name below the log directory
    sizeOnDisk: Uint64,
    creator: char,
    severity: Severity,
    actionFlags: bv16,
    hostState: TransmissionState,
    hmcState: TransmissionState)

  const OPEN_BMC: char := 'O'

  predicate Hidden(flags: bv16) { flags & 0x4000 != 0 }

  predicate DontReportToHost(flags: bv16) { flags & 0x1000 != 0 }

  predicate IsBMC(a: Attributes) { a.creator == OPEN_BMC }

  predicate IsServiceableSev(a: Attributes) {
    var sevType := a.severity / 16;
    var check1 := sevType == 2 || sevType == 4 || sevType == 5;
    var check2 := (sevType == 1 || a.severity == 0x71) && !Hidden(a.actionFlags);
    var check3 := a.severity == 0x72 || a.severity == 0x74 || a.severity == 0x75;
    check1 || check2 || check3
  }

  // ----------------------------------------------------------------- identities

  datatype LogID = LogID(pelID: Uint32, obmcID: Uint32)

  /** LogID's operator==, with the key on the right: a key holding a PEL ID
      matches on that, otherwise one holding a log ID matches on that. */
  predicate Matches(stored: LogID, key: LogID) {
    if key.pelID != 0 then key.pelID == stored.pelID
    else if key.obmcID != 0 then key.obmcID == stored.obmcID
    else false
  }

  datatype Entry = Entry(id: LogID, attr: Attributes)

  /** The order std::map keeps its keys in: strictly ascending PEL IDs. */
  ghost predicate Ascending(es: seq<Entry>) {
    forall i, j | 0 <= i < j < |es| :: es[i].id.pelID < es[j].id.pelID
  }

  ghost predicate NonzeroIDs(es: seq<Entry>) {
    forall e | e in es :: e.id.pelID != 0
  }

  predicate HasPelID(es: seq<Entry>, id: Uint32) {
    exists e | e in es :: e.id.pelID == id
  }

  /** findPEL: the position of the first entry the key matches, or the end. */
  function FindPEL(es: seq<Entry>, key: LogID): (j: nat)
    ensures j <= |es|
    ensures j < |es| ==> Matches(es[j].id, key)
    ensures forall i | 0 <= i < j :: !Matches(es[i].id, key)
  {
    if es == [] || Matches(es[0].id, key) then 0 else 1 + FindPEL(es[1..], key)
  }

  /** std::map::emplace: an entry already under that PEL ID stays as it is. */
  function Emplace(es: seq<Entry>, e: Entry): (r: seq<Entry>) {
    if es == [] || e.id.pelID < es[0].id.pelID then [e] + es
    else if e.id.pelID == es[0].id.pelID then es
    else [es[0]] + Emplace(es[1..], e)
  }

  function EraseAt(es: seq<Entry>, j: nat): (r: seq<Entry>)
    requires j < |es|
  {
    es[..j] + es[j + 1..]
  }

  // ------------------------------------------------------------------- counters

  /** What each of the seven counters of SizeStats is meant to add up. */
  datatype Category = Total | Bmc | NonBmc | BmcServiceable | BmcInfo | NonBmcServiceable | NonBmcInfo

  predicate InCategory(a: Attributes, c: Category) {
    match c
    case Total => true
    case Bmc => IsBMC(a)
    case NonBmc => !IsBMC(a)
    case BmcServiceable => IsBMC(a) && IsServiceableSev(a)
    case BmcInfo => IsBMC(a) && !IsServiceableSev(a)
    case NonBmcServiceable => !IsBMC(a) && IsServiceableSev(a)
    case NonBmcInfo => !IsBMC(a) && !IsServiceableSev(a)
  }

  datatype SizeStats = SizeStats(
    total: nat, bmc: nat, nonBMC: nat, bmcServiceable: nat,
    bmcInfo: nat, nonBMCServiceable: nat, nonBMCInfo: nat)

  const NO_SIZES := SizeStats(0, 0, 0, 0, 0, 0, 0)

  function Counter(z: SizeStats, c: Category): nat {
    match c
    case Total => z.total
    case Bmc => z.bmc
    case NonBmc => z.nonBMC
    case BmcServiceable => z.bmcServiceable
    case BmcInfo => z.bmcInfo
    case NonBmcServiceable => z.nonBMCServiceable
    case NonBmcInfo => z.nonBMCInfo
  }

  /** A cast from uint64_t to int64_t. */
  function ToInt64(n: nat): int {
    if n < TWO_TO_THE_63 then n else n - TWO_TO_THE_64
  }

  /** The adjustSize lambda: an addition that wraps at 64 bits, or a subtraction
      of signed numbers clamped at 0. */
  function AdjustSize(running: nat, size: nat, added: bool): nat {
    if added then
      if running + size < TWO_TO_THE_64 then running + size else (running + size) % TWO_TO_THE_64
    else
      var diff := ToInt64(running) - ToInt64(size);
      if diff < 0 then 0 else diff
  }

  function Adjusted(running: nat, a: Attributes, added: bool, c: Category): nat {
    if InCategory(a, c) then AdjustSize(running, a.sizeOnDisk, added) else running
  }

  /** updateRepoStats: the counters of the categories a PEL is in are adjusted. */
  function UpdateRepoStats(z: SizeStats, a: Attributes, added: bool): SizeStats {
    SizeStats(
      Adjusted(z.total, a, added, Total),
      Adjusted(z.bmc, a, added, Bmc),
      Adjusted(z.nonBMC, a, added, NonBmc),
      Adjusted(z.bmcServiceable, a, added, BmcServiceable),
      Adjusted(z.bmcInfo, a, added, BmcInfo),
      Adjusted(z.nonBMCServiceable, a, added, NonBmcServiceable),
      Adjusted(z.nonBMCInfo, a, added, NonBmcInfo))
  }

  /** The fold a counter caches. */
  function SizeOf(a: Attributes, c: Category): nat {
    if InCategory(a, c) then a.sizeOnDisk else 0
  }

  function SumOf(es: seq<Entry>, c: Category): nat {
    if es == [] then 0 else SizeOf(es[0].attr, c) + SumOf(es[1..], c)
  }

  /** The counters a repository holding these PELs should show. */
  function SizesOf(es: seq<Entry>): SizeStats {
    if es == [] then NO_SIZES else Plus(SizesOf(es[1..]), es[0].attr)
  }

  function Plus(z: SizeStats, a: Attributes): SizeStats {
    SizeStats(
      z.total + SizeOf(a, Total),
      z.bmc + SizeOf(a, Bmc),
      z.nonBMC + SizeOf(a, NonBmc),
      z.bmcServiceable + SizeOf(a, BmcServiceable),
      z.bmcInfo + SizeOf(a, BmcInfo),
      z.nonBMCServiceable + SizeOf(a, NonBmcServiceable),
      z.nonBMCInfo + SizeOf(a, NonBmcInfo))
  }

  // ---------------------------------------------------------------------- state

  datatype RepoState = RepoState(
    pels: seq<Entry>,                // _pelAttributes, in key order
    sizes: SizeStats,                // _sizes
    pending: map<Uint32, Entry>,     // _pendingPELs, by OpenBMC log ID
    maxRepoSize: Maximum,
    maxNumPELs: Maximum)

  /** What every operation keeps. */
  ghost predicate Valid(s: RepoState) {
    && Ascending(s.pels)
    && NonzeroIDs(s.pels)
    && SumOf(s.pels, Total) < TWO_TO_THE_63
    && s.sizes == SizesOf(s.pels)
  }

  // ------------------------------------------------------------------ operations

  /** Index an entry and count it, as add, restore and completePELLink all do. */
  function Index(s: RepoState, e: Entry): RepoState {
    s.(pels := Emplace(s.pels, e), sizes := UpdateRepoStats(s.sizes, e.attr, true))
  }

  function AddPEL(s: RepoState, e: Entry): RepoState {
    var attr := e.attr.(hostState := NewPEL, hmcState := NewPEL);
    Index(s, e.(attr := attr))
  }

  /** One regular file found at startup: None when it does not hold a valid PEL. */
  type FoundFile = Option<Entry>

  function RestoreFile(s: RepoState, f: FoundFile): RepoState {
    match f
    case None => s
    case Some(e) =>
      var host := if e.attr.hostState == Sent then NewPEL else e.attr.hostState;
      Index(s, e.(attr := e.attr.(hostState := host)))
  }

  function RestoreAll(s: RepoState, files: seq<FoundFile>): RepoState
    decreases |files|
  {
    if files == [] then s
    else RestoreFile(RestoreAll(s, files[..|files| - 1]), files[|files| - 1])
  }

  function RemoveAt(s: RepoState, j: nat): RepoState
    requires j < |s.pels|
  {
    s.(pels := EraseAt(s.pels, j), sizes := UpdateRepoStats(s.sizes, s.pels[j].attr, false))
  }

  function RemovePEL(s: RepoState, key: LogID): RepoState {
    var j := FindPEL(s.pels, key);
    if j < |s.pels| then RemoveAt(s, j) else s
  }

  function ImportPEL(s: RepoState, e: Entry): RepoState {
    if e.id.obmcID in s.pending then s else s.(pending := s.pending[e.id.obmcID := e])
  }

  function CompletePELLink(s: RepoState, obmcID: Uint32): RepoState {
    if obmcID in s.pending then
      Index(s.(pending := s.pending - {obmcID}), s.pending[obmcID])
    else s
  }

  function SetStates(s: RepoState, pelID: Uint32, host: TransmissionState, hmc: TransmissionState): RepoState
  {
    var j := FindPEL(s.pels, LogID(pelID, 0));
    if j < |s.pels| then
      s.(pels := s.pels[j := s.pels[j].(attr := s.pels[j].attr.(hostState := host, hmcState := hmc))])
    else s
  }

  function SetHostState(s: RepoState, pelID: Uint32, host: TransmissionState): RepoState {
    var j := FindPEL(s.pels, LogID(pelID, 0));
    if j < |s.pels| then SetStates(s, pelID, host, s.pels[j].attr.hmcState) else s
  }

  function SetHmcState(s: RepoState, pelID: Uint32, hmc: TransmissionState): RepoState {
    var j := FindPEL(s.pels, LogID(pelID, 0));
    if j < |s.pels| then SetStates(s, pelID, s.pels[j].attr.hostState, hmc) else s
  }

  // ------------------------------------------------------------- sums over entries

  lemma {:induction false} SumOfConcat(xs: seq<Entry>, ys: seq<Entry>, c: Category)
    ensures SumOf(xs + ys, c) == SumOf(xs, c) + SumOf(ys, c)
  {
    if xs == [] {
      assert xs + ys == ys;
    } else {
      assert (xs + ys)[1..] == xs[1..] + ys;
      SumOfConcat(xs[1..], ys, c);
    }
  }

  lemma SumOfErase(es: seq<Entry>, j: nat, c: Category)
    requires j < |es|
    ensures SumOf(es, c) == SumOf(EraseAt(es, j), c) + SizeOf(es[j].attr, c)
  {
    assert es == es[..j] + ([es[j]] + es[j + 1..]);
    SumOfConcat(es[..j], [es[j]] + es[j + 1..], c);
    SumOfConcat(es[..j], es[j + 1..], c);
  }

  lemma {:induction false} SumOfEmplace(es: seq<Entry>, e: Entry, c: Category)
    requires Ascending(es)
    ensures SumOf(Emplace(es, e), c) == SumOf(es, c) + if HasPelID(es, e.id.pelID) then 0 else SizeOf(e.attr, c)
  {
    if es == [] || e.id.pelID < es[0].id.pelID {
      assert ([e] + es)[1..] == es;
      assert !HasPelID(es, e.id.pelID);
    } else if e.id.pelID == es[0].id.pelID {
      assert HasPelID(es, e.id.pelID);
    } else {
      SumOfEmplace(es[1..], e, c);
      assert HasPelID(es, e.id.pelID) <==> HasPelID(es[1..], e.id.pelID) by {
        assert forall x :: x in es <==> x == es[0] || x in es[1..];
      }
      assert ([es[0]] + Emplace(es[1..], e))[1..] == Emplace(es[1..], e);
    }
  }

  lemma {:induction false} SumOfUpTo(es: seq<Entry>, c: Category)
    ensures SumOf(es, c) <= SumOf(es, Total)
  {
    if es != [] {
      SumOfUpTo(es[1..], c);
    }
  }

  /** Total is its two halves, and each half is serviceable plus informational. */
  lemma {:induction false} SumOfSplits(es: seq<Entry>)
    ensures SumOf(es, Total) == SumOf(es, Bmc) + SumOf(es, NonBmc)
    ensures SumOf(es, Bmc) == SumOf(es, BmcServiceable) + SumOf(es, BmcInfo)
    ensures SumOf(es, NonBmc) == SumOf(es, NonBmcServiceable) + SumOf(es, NonBmcInfo)
  {
    if es != [] {
      SumOfSplits(es[1..]);
    }
  }

  // ------------------------------------------------------------------- map shape

  lemma {:induction false} EmplaceContents(es: seq<Entry>, e: Entry)
    requires Ascending(es)
    ensures Ascending(Emplace(es, e))
    ensures forall x :: x in Emplace(es, e) <==> x in es || (x == e && !HasPelID(es, e.id.pelID))
  {
    var r := Emplace(es, e);
    if es == [] || e.id.pelID < es[0].id.pelID {
      assert !HasPelID(es, e.id.pelID);
      assert forall x :: x in r <==> x == e || x in es;
    } else if e.id.pelID == es[0].id.pelID {
      assert HasPelID(es, e.id.pelID);
    } else {
      var t := Emplace(es[1..], e);
      EmplaceContents(es[1..], e);
      EmplaceBehind(es, e, t);
    }
  }

  /** What goes behind the first entry. */
  lemma EmplaceBehind(es: seq<Entry>, e: Entry, t: seq<Entry>)
    requires Ascending(es) && es != [] && es[0].id.pelID < e.id.pelID
    requires Ascending(t) && forall x :: x in t <==> x in es[1..] || (x == e && !HasPelID(es[1..], e.id.pelID))
    ensures Ascending([es[0]] + t)
    ensures forall x :: x in [es[0]] + t <==> x in es || (x == e && !HasPelID(es, e.id.pelID))
  {
    var r := [es[0]] + t;
    assert forall x :: x in es <==> x == es[0] || x in es[1..];
    assert HasPelID(es, e.id.pelID) <==> HasPelID(es[1..], e.id.pelID);
    forall i, j | 0 <= i < j < |r| ensures r[i].id.pelID < r[j].id.pelID {
      assert r[j] == t[j - 1] && r[j] in t;
      if i > 0 { assert r[i] == t[i - 1]; }
    }
  }

  lemma EraseContents(es: seq<Entry>, j: nat)
    requires j < |es| && Ascending(es)
    ensures Ascending(EraseAt(es, j))
    ensures forall x :: x in EraseAt(es, j) <==> x in es && x != es[j]
  {
    var r := EraseAt(es, j);
    assert forall i | 0 <= i < |r| :: r[i] == if i < j then es[i] else es[i + 1];
    forall x | x in es && x != es[j] ensures x in r {
      var i :| 0 <= i < |es| && es[i] == x;
      assert r[if i < j then i else i - 1] == x;
    }
  }

  /** In an ascending map with nonzero IDs an entry's own ID finds that entry. */
  lemma FindOwnID(es: seq<Entry>, e: Entry)
    requires Ascending(es) && NonzeroIDs(es) && e in es
    ensures FindPEL(es, e.id) < |es| && es[FindPEL(es, e.id)] == e
  {
    var i :| 0 <= i < |es| && es[i] == e;
    assert Matches(es[i].id, e.id);
  }

  // ------------------------------------------------------------ counters stay right

  lemma {:induction false} SizesOfCounter(es: seq<Entry>, c: Category)
    ensures Counter(SizesOf(es), c) == SumOf(es, c)
  {
    if es != [] {
      SizesOfCounter(es[1..], c);
    }
  }

  lemma SameCounters(z: SizeStats, w: SizeStats)
    requires forall c: Category :: Counter(z, c) == Counter(w, c)
    ensures z == w
  {
    assert Counter(z, Total) == Counter(w, Total) && Counter(z, Bmc) == Counter(w, Bmc);
    assert Counter(z, NonBmc) == Counter(w, NonBmc) && Counter(z, BmcInfo) == Counter(w, BmcInfo);
    assert Counter(z, BmcServiceable) == Counter(w, BmcServiceable);
    assert Counter(z, NonBmcServiceable) == Counter(w, NonBmcServiceable);
    assert Counter(z, NonBmcInfo) == Counter(w, NonBmcInfo);
  }

  lemma AdjustedCounter(z: SizeStats, a: Attributes, added: bool, c: Category)
    ensures Counter(UpdateRepoStats(z, a, added), c) == Adjusted(Counter(z, c), a, added, c)
  {}

  /** Indexing a PEL leaves the counters right exactly when its ID was free, or
      when its file takes no space: emplace ignores a repeated ID, and the
      counters are bumped all the same. */
  lemma IndexAgreesIffFresh(s: RepoState, e: Entry)
    requires Valid(s)
    requires SumOf(s.pels, Total) + e.attr.sizeOnDisk < TWO_TO_THE_63
    ensures Index(s, e).sizes == SizesOf(Index(s, e).pels)
       <==> !HasPelID(s.pels, e.id.pelID) || e.attr.sizeOnDisk == 0
  {
    var r := Index(s, e);
    var repeated := HasPelID(s.pels, e.id.pelID);
    forall c: Category
      ensures Counter(r.sizes, c) == SumOf(s.pels, c) + SizeOf(e.attr, c)
      ensures Counter(SizesOf(r.pels), c) == SumOf(s.pels, c) + if repeated then 0 else SizeOf(e.attr, c)
    {
      AdjustedCounter(s.sizes, e.attr, true, c);
      SizesOfCounter(s.pels, c);
      SizesOfCounter(r.pels, c);
      SumOfEmplace(s.pels, e, c);
      SumOfUpTo(s.pels, c);
    }
    if !repeated || e.attr.sizeOnDisk == 0 {
      SameCounters(r.sizes, SizesOf(r.pels));
    } else {
      assert Counter(r.sizes, Total) != Counter(SizesOf(r.pels), Total);
    }
  }

  lemma IndexKeepsValid(s: RepoState, e: Entry)
    requires Valid(s) && e.id.pelID != 0 && !HasPelID(s.pels, e.id.pelID)
    requires SumOf(s.pels, Total) + e.attr.sizeOnDisk < TWO_TO_THE_63
    ensures Valid(Index(s, e))
  {
    IndexAgreesIffFresh(s, e);
    EmplaceContents(s.pels, e);
    SumOfEmplace(s.pels, e, Total);
  }

  /** Removal subtracts exactly the removed size from every counter the PEL is
      in, so the clamp to 0 never comes into play. */
  lemma RemoveAtKeepsCounters(s: RepoState, j: nat)
    requires Valid(s) && j < |s.pels|
    ensures RemoveAt(s, j).sizes == SizesOf(RemoveAt(s, j).pels)
    ensures forall c: Category ::
      Counter(RemoveAt(s, j).sizes, c) == Counter(s.sizes, c) - SizeOf(s.pels[j].attr, c)
  {
    var r := RemoveAt(s, j);
    forall c: Category
      ensures Counter(r.sizes, c) == Counter(SizesOf(r.pels), c)
      ensures Counter(r.sizes, c) == Counter(s.sizes, c) - SizeOf(s.pels[j].attr, c)
    {
      SumOfErase(s.pels, j, c);
      SumOfUpTo(s.pels, c);
      SizesOfCounter(s.pels, c);
      SizesOfCounter(r.pels, c);
      AdjustedCounter(s.sizes, s.pels[j].attr, false, c);
    }
    SameCounters(r.sizes, SizesOf(r.pels));
  }

  lemma RemoveAtKeepsValid(s: RepoState, j: nat)
    requires Valid(s) && j < |s.pels|
    ensures Valid(RemoveAt(s, j))
  {
    EraseContents(s.pels, j);
    RemoveAtKeepsCounters(s, j);
    SumOfErase(s.pels, j, Total);
  }

  /** The two differ at most in path and transmission states. */
  ghost predicate SameSizing(a: Attributes, b: Attributes) {
    a.sizeOnDisk == b.sizeOnDisk && a.creator == b.creator
    && a.severity == b.severity && a.actionFlags == b.actionFlags
  }

  lemma {:induction false} SizesOfSame(es: seq<Entry>, fs: seq<Entry>)
    requires |es| == |fs|
    requires forall i | 0 <= i < |es| :: SameSizing(es[i].attr, fs[i].attr)
    ensures SizesOf(es) == SizesOf(fs)
    ensures SumOf(es, Total) == SumOf(fs, Total)
  {
    if es != [] {
      SizesOfSame(es[1..], fs[1..]);
      assert SameSizing(es[0].attr, fs[0].attr);
    }
  }

  lemma SetStatesKeepsValid(s: RepoState, pelID: Uint32, host: TransmissionState, hmc: TransmissionState)
    requires Valid(s)
    ensures Valid(SetStates(s, pelID, host, hmc))
  {
    var r := SetStates(s, pelID, host, hmc);
    SizesOfSame(r.pels, s.pels);
    forall e | e in r.pels ensures e.id.pelID != 0 {
      var i :| 0 <= i < |r.pels| && r.pels[i] == e;
      assert s.pels[i] in s.pels;
    }
  }

  /** What a key with one of its IDs set removes: by PEL ID the one entry that has it, by log
      ID the entry of the lowest PEL ID among those that have it, and with neither set
      nothing. */
  lemma RemovesByKey(s: RepoState, pelID: Uint32, obmcID: Uint32)
    requires Valid(s)
    ensures pelID != 0 ==>
      forall x :: x in RemovePEL(s, LogID(pelID, obmcID)).pels <==> x in s.pels && x.id.pelID != pelID
    ensures obmcID != 0 ==>
      forall x :: x in RemovePEL(s, LogID(0, obmcID)).pels <==>
        x in s.pels && (x.id.obmcID == obmcID ==>
          exists y | y in s.pels :: y.id.obmcID == obmcID && y.id.pelID < x.id.pelID)
    ensures RemovePEL(s, LogID(0, 0)) == s
  {
    if pelID != 0 { RemovesFirstMatch(s, LogID(pelID, obmcID)); }
    if obmcID != 0 { RemovesFirstMatch(s, LogID(0, obmcID)); }
  }

  lemma RemovesFirstMatch(s: RepoState, key: LogID)
    requires Valid(s)
    ensures forall x :: x in RemovePEL(s, key).pels <==>
      x in s.pels && (Matches(x.id, key) ==> exists y | y in s.pels :: Matches(y.id, key) && y.id.pelID < x.id.pelID)
  {
    var j := FindPEL(s.pels, key);
    if j < |s.pels| {
      EraseContents(s.pels, j);
      assert s.pels[j] in s.pels;
      forall x | x in s.pels && x != s.pels[j] && Matches(x.id, key) ensures s.pels[j].id.pelID < x.id.pelID {
        var i :| 0 <= i < |s.pels| && s.pels[i] == x;
        assert i > j;
      }
      forall y | y in s.pels && Matches(y.id, key) ensures s.pels[j].id.pelID <= y.id.pelID {
        var i :| 0 <= i < |s.pels| && s.pels[i] == y;
        assert i >= j;
      }
    }
  }
}
