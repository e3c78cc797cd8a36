/** The size counters over whole lives of a repository: startup, then any
    sequence of operations. */
module RepositoryRuns {
  import opened Wrappers
  import opened RepositoryState
  import opened Pruning

  datatype Operation =
    | Add(entry: Entry)
    | Remove(key: LogID)
    | Import(entry: Entry)
    | CompleteLink(obmcID: Uint32)
    | SetHost(pelID: Uint32, state: TransmissionState)
    | SetHmc(pelID: Uint32, state: TransmissionState)
    | PruneAll(isolated: seq<Uint32>)

  function Step(s: RepoState, op: Operation): RepoState {
    match op
    case Add(e) => AddPEL(s, e)
    case Remove(key) => RemovePEL(s, key)
    case Import(e) => ImportPEL(s, e)
    case CompleteLink(id) => CompletePELLink(s, id)
    case SetHost(id, st) => SetHostState(s, id, st)
    case SetHmc(id, st) => SetHmcState(s, id, st)
    case PruneAll(isolated) => Prune(s, isolated).state
  }

  function Run(s: RepoState, ops: seq<Operation>): RepoState
    decreases |ops|
  {
    if ops == [] then s else Step(Run(s, ops[..|ops| - 1]), ops[|ops| - 1])
  }

  /** A PEL that may be indexed: a nonzero unused ID, and a size the sums can take. */
  ghost predicate Indexable(s: RepoState, e: Entry) {
    e.id.pelID != 0 && !HasPelID(s.pels, e.id.pelID) && SumOf(s.pels, Total) + e.attr.sizeOnDisk < TWO_TO_THE_63
  }

  /** Only the two operations that index a PEL ask anything of their caller. */
  ghost predicate Allowed(s: RepoState, op: Operation) {
    match op
    case Add(e) => Indexable(s, e)
    case CompleteLink(id) => id in s.pending ==> Indexable(s, s.pending[id])
    case _ => true
  }

  ghost predicate AllAllowed(s: RepoState, ops: seq<Operation>)
    decreases |ops|
  {
    ops == [] || (AllAllowed(s, ops[..|ops| - 1]) && Allowed(Run(s, ops[..|ops| - 1]), ops[|ops| - 1]))
  }

  lemma StepKeepsValid(s: RepoState, op: Operation)
    requires Valid(s) && Allowed(s, op)
    ensures Valid(Step(s, op))
  {
    match op
    case Add(e) =>
      var attr := e.attr.(hostState := NewPEL, hmcState := NewPEL);
      IndexKeepsValid(s, e.(attr := attr));
    case Remove(key) =>
      if FindPEL(s.pels, key) < |s.pels| {
        RemoveAtKeepsValid(s, FindPEL(s.pels, key));
      }
    case Import(e) =>
    case CompleteLink(id) =>
      if id in s.pending {
        IndexKeepsValid(s.(pending := s.pending - {id}), s.pending[id]);
      }
    case SetHost(id, st) =>
      var j := FindPEL(s.pels, LogID(id, 0));
      if j < |s.pels| {
        SetStatesKeepsValid(s, id, st, s.pels[j].attr.hmcState);
      }
    case SetHmc(id, st) =>
      var j := FindPEL(s.pels, LogID(id, 0));
      if j < |s.pels| {
        SetStatesKeepsValid(s, id, s.pels[j].attr.hostState, st);
      }
    case PruneAll(isolated) =>
      PruneEffect(s, isolated);
  }

  /** In every reachable state all seven counters equal the sums over the stored
      PELs, the total is the two halves and each half its two parts. */
  lemma {:induction false} RunKeepsCounters(s: RepoState, ops: seq<Operation>)
    requires Valid(s) && AllAllowed(s, ops)
    ensures Valid(Run(s, ops))
    ensures forall c: Category :: Counter(Run(s, ops).sizes, c) == SumOf(Run(s, ops).pels, c)
    ensures CountersSplit(Run(s, ops).sizes)
    decreases |ops|
  {
    if ops != [] {
      var n := |ops| - 1;
      RunKeepsCounters(s, ops[..n]);
      StepKeepsValid(Run(s, ops[..n]), ops[n]);
    }
    ValidCountersSplit(Run(s, ops));
    forall c: Category ensures Counter(Run(s, ops).sizes, c) == SumOf(Run(s, ops).pels, c) {
      SizesOfCounter(Run(s, ops).pels, c);
    }
  }

  /** The PEL an operation indexes, if it indexes one. */
  function Indexes(s: RepoState, op: Operation): FoundFile {
    match op
    case Add(e) => Some(e)
    case CompleteLink(id) => if id in s.pending then Some(s.pending[id]) else None
    case _ => None
  }

  /** A nonzero ID, and a size the sums can take. */
  ghost predicate Plausible(s: RepoState, op: Operation) {
    var f := Indexes(s, op);
    f.Some? ==> f.value.id.pelID != 0 && SumOf(s.pels, Total) + f.value.attr.sizeOnDisk < TWO_TO_THE_63
  }

  /** The operation indexes a file that takes space, of a PEL whose ID is stored already. */
  predicate Repeats(s: RepoState, op: Operation) {
    var f := Indexes(s, op);
    f.Some? && HasPelID(s.pels, f.value.id.pelID) && f.value.attr.sizeOnDisk > 0
  }

  lemma IndexKeepsValidIff(s: RepoState, e: Entry)
    requires Valid(s) && e.id.pelID != 0 && SumOf(s.pels, Total) + e.attr.sizeOnDisk < TWO_TO_THE_63
    ensures Valid(Index(s, e)) <==> !(HasPelID(s.pels, e.id.pelID) && e.attr.sizeOnDisk > 0)
  {
    IndexAgreesIffFresh(s, e);
    EmplaceContents(s.pels, e);
    SumOfEmplace(s.pels, e, Total);
  }

  /** One operation puts the counters wrong exactly if it repeats an ID. */
  lemma StepKeepsValidIff(s: RepoState, op: Operation)
    requires Valid(s) && Plausible(s, op)
    ensures Valid(Step(s, op)) <==> !Repeats(s, op)
  {
    hide Valid, Prune, Index;
    match op
    case Add(e) => IndexKeepsValidIff(s, e.(attr := e.attr.(hostState := NewPEL, hmcState := NewPEL)));
    case CompleteLink(id) =>
      if id in s.pending {
        PendingApart(s, s.pending - {id});
        IndexKeepsValidIff(s.(pending := s.pending - {id}), s.pending[id]);
      }
    case _ => StepKeepsValid(s, op);
  }

  lemma PendingApart(s: RepoState, pending: map<Uint32, Entry>)
    ensures Valid(s.(pending := pending)) <==> Valid(s)
  {}

  ghost predicate AllPlausible(s: RepoState, ops: seq<Operation>)
    decreases |ops|
  {
    ops == [] || (AllPlausible(s, ops[..|ops| - 1]) && Plausible(Run(s, ops[..|ops| - 1]), ops[|ops| - 1]))
  }

  ghost predicate ValidThroughout(s: RepoState, ops: seq<Operation>)
    decreases |ops|
  {
    Valid(Run(s, ops)) && (ops == [] || ValidThroughout(s, ops[..|ops| - 1]))
  }

  predicate NeverRepeats(s: RepoState, ops: seq<Operation>)
    decreases |ops|
  {
    ops == [] || (NeverRepeats(s, ops[..|ops| - 1]) && !Repeats(Run(s, ops[..|ops| - 1]), ops[|ops| - 1]))
  }

  /** Over any run the counters are right at every moment exactly if no file that takes
      space is indexed under an ID that is stored already. */
  lemma {:induction false} RunValidIffNeverRepeats(s: RepoState, ops: seq<Operation>)
    requires Valid(s) && AllPlausible(s, ops)
    ensures ValidThroughout(s, ops) <==> NeverRepeats(s, ops)
    decreases |ops|
  {
    hide Valid, Step, Plausible, Repeats;
    if ops != [] {
      var n := |ops| - 1;
      RunValidIffNeverRepeats(s, ops[..n]);
      if ValidThroughout(s, ops[..n]) {
        StepKeepsValidIff(Run(s, ops[..n]), ops[n]);
      }
    }
  }

  // ------------------------------------------------------------------- startup

  function Empty(maxRepoSize: Maximum, maxNumPELs: Maximum): RepoState {
    RepoState([], NO_SIZES, map[], maxRepoSize, maxNumPELs)
  }

  /** The files of a log directory: each valid PEL has a nonzero ID of its own,
      and together they take less than 2^63 bytes. */
  ghost predicate Restorable(s: RepoState, files: seq<FoundFile>)
    decreases |files|
  {
    files == [] ||
    var n := |files| - 1;
    Restorable(s, files[..n]) && (files[n].Some? ==> Indexable(RestoreAll(s, files[..n]), files[n].value))
  }

  /** Startup sets the counters right, and leaves no PEL marked as sent. */
  lemma {:induction false} RestoreSetsCounters(maxRepoSize: Maximum, maxNumPELs: Maximum, files: seq<FoundFile>)
    requires Restorable(Empty(maxRepoSize, maxNumPELs), files)
    ensures var r := RestoreAll(Empty(maxRepoSize, maxNumPELs), files);
      Valid(r) && forall e | e in r.pels :: e.attr.hostState != Sent
    decreases |files|
  {
    var s := Empty(maxRepoSize, maxNumPELs);
    if files != [] {
      var n := |files| - 1;
      var r := RestoreAll(s, files[..n]);
      RestoreSetsCounters(maxRepoSize, maxNumPELs, files[..n]);
      match files[n]
      case None =>
      case Some(e) =>
        var host := if e.attr.hostState == Sent then NewPEL else e.attr.hostState;
        var e' := e.(attr := e.attr.(hostState := host));
        IndexKeepsValid(r, e');
        EmplaceContents(r.pels, e');
    }
  }

  /** What all the files add up to, and what those of them do whose ID came before. */
  function FileBytes(files: seq<FoundFile>, c: Category): nat
    decreases |files|
  {
    if files == [] then 0
    else
      var f := files[|files| - 1];
      FileBytes(files[..|files| - 1], c) + if f.Some? then SizeOf(f.value.attr, c) else 0
  }

  function RepeatedBytes(s: RepoState, files: seq<FoundFile>, c: Category): nat
    decreases |files|
  {
    if files == [] then 0
    else
      var before, f := files[..|files| - 1], files[|files| - 1];
      RepeatedBytes(s, before, c)
      + if f.Some? && HasPelID(RestoreAll(s, before).pels, f.value.id.pelID) then SizeOf(f.value.attr, c) else 0
  }

  lemma {:induction false} BytesUpTo(s: RepoState, files: seq<FoundFile>, c: Category)
    ensures FileBytes(files, c) <= FileBytes(files, Total)
    ensures RepeatedBytes(s, files, c) <= RepeatedBytes(s, files, Total)
    decreases |files|
  {
    if files != [] { BytesUpTo(s, files[..|files| - 1], c); }
  }

  /** Startup over any log directory, whatever its files: each counter holds the bytes of
      all the files in its category, of which those under an ID that came before are not
      stored. */
  lemma {:induction false} RestoreCounts(maxRepoSize: Maximum, maxNumPELs: Maximum, files: seq<FoundFile>, c: Category)
    requires FileBytes(files, Total) < TWO_TO_THE_63
    ensures var r := RestoreAll(Empty(maxRepoSize, maxNumPELs), files);
      && Ascending(r.pels) && Counter(r.sizes, c) == FileBytes(files, c)
      && Counter(r.sizes, c) == SumOf(r.pels, c) + RepeatedBytes(Empty(maxRepoSize, maxNumPELs), files, c)
    decreases |files|
  {
    hide UpdateRepoStats, Emplace, SumOf, InCategory;
    if files != [] {
      var n := |files| - 1;
      var before := RestoreAll(Empty(maxRepoSize, maxNumPELs), files[..n]);
      RestoreCounts(maxRepoSize, maxNumPELs, files[..n], c);
      BytesUpTo(before, files, c);
      if files[n].Some? {
        FileCounted(before, files[n].value, c);
      }
    } else {
      NothingCounted(c);
    }
  }

  lemma NothingCounted(c: Category)
    ensures Counter(NO_SIZES, c) == 0 && SumOf([], c) == 0 && Ascending([])
  {}

  lemma FileCounted(s: RepoState, e: Entry, c: Category)
    requires Ascending(s.pels) && Counter(s.sizes, c) + SizeOf(e.attr, c) < TWO_TO_THE_64
    ensures var r := RestoreFile(s, Some(e));
      && Ascending(r.pels) && Counter(r.sizes, c) == Counter(s.sizes, c) + SizeOf(e.attr, c)
      && SumOf(r.pels, c) == SumOf(s.pels, c) + if HasPelID(s.pels, e.id.pelID) then 0 else SizeOf(e.attr, c)
  {
    var host := if e.attr.hostState == Sent then NewPEL else e.attr.hostState;
    var attr := e.attr.(hostState := host);
    EmplaceContents(s.pels, e.(attr := attr));
    SumOfEmplace(s.pels, e.(attr := attr), c);
    AdjustedCounter(s.sizes, attr, true, c);
    assert SizeOf(attr, c) == SizeOf(e.attr, c);
  }

  /** So startup sets the counters right exactly if no file that takes space repeats an ID. */
  lemma RestoreAgreesIffNoRepeats(maxRepoSize: Maximum, maxNumPELs: Maximum, files: seq<FoundFile>)
    requires FileBytes(files, Total) < TWO_TO_THE_63
    ensures var r := RestoreAll(Empty(maxRepoSize, maxNumPELs), files);
      r.sizes == SizesOf(r.pels) <==> RepeatedBytes(Empty(maxRepoSize, maxNumPELs), files, Total) == 0
  {
    hide RestoreAll, SizesOf, Counter, RepeatedBytes, FileBytes, SumOf;
    var s := Empty(maxRepoSize, maxNumPELs);
    var r := RestoreAll(s, files);
    forall c: Category
      ensures Counter(r.sizes, c) == Counter(SizesOf(r.pels), c) + RepeatedBytes(s, files, c)
      ensures RepeatedBytes(s, files, c) <= RepeatedBytes(s, files, Total)
    {
      RestoreCounts(maxRepoSize, maxNumPELs, files, c);
      SizesOfCounter(r.pels, c);
      BytesUpTo(s, files, c);
    }
    assert Counter(r.sizes, Total) == Counter(SizesOf(r.pels), Total) + RepeatedBytes(s, files, Total);
    if RepeatedBytes(s, files, Total) == 0 {
      SameCounters(r.sizes, SizesOf(r.pels));
    }
  }

  /** And whatever the files, it leaves no PEL marked as sent. */
  lemma {:induction false} RestoreLeavesNoneSent(s: RepoState, files: seq<FoundFile>)
    requires s.pels == []
    ensures Ascending(RestoreAll(s, files).pels)
    ensures forall e | e in RestoreAll(s, files).pels :: e.attr.hostState != Sent
    decreases |files|
  {
    if files != [] {
      var n := |files| - 1;
      RestoreLeavesNoneSent(s, files[..n]);
      if files[n].Some? {
        var e := files[n].value;
        var host := if e.attr.hostState == Sent then NewPEL else e.attr.hostState;
        EmplaceContents(RestoreAll(s, files[..n]).pels, e.(attr := e.attr.(hostState := host)));
      }
    }
  }

  /** A repeated ID does break the counters: a PEL of 512 bytes stored twice. */
  lemma RepeatedIDBreaksCounters()
    ensures exists s, e :: Valid(s) && !Valid(AddPEL(s, e))
  {
    var a := Attributes("00000000000000_00000001", 512, OPEN_BMC, 0x40, 0, NewPEL, NewPEL);
    var e := Entry(LogID(1, 1), a);
    var s0 := Empty(1_000_000, 100);
    IndexKeepsValid(s0, e);
    var s1 := AddPEL(s0, e);
    assert s1.pels == [e];
    assert e in s1.pels;
    assert SumOf(s1.pels, Total) == 512;
    IndexAgreesIffFresh(s1, e);
    assert !Valid(AddPEL(s1, e));
  }
}

/** File names sort PELs by commit time, then by PEL ID: the path order that
    pruning walks is oldest first. */
module FileNames {
  import opened RepositoryState
  import opened Pruning

  type Byte = b: int | 0 <= b < 256

  function HexDigit(d: int): char
    requires 0 <= d < 16
  {
    "0123456789ABCDEF"[d]
  }

  function Pow16(width: nat): nat { if width == 0 then 1 else 16 * Pow16(width - 1) }

  /** printf's %.<width>X. */
  function Hex(n: nat, width: nat): string
    requires n < Pow16(width)
  {
    if width == 0 then "" else Hex(n / 16, width - 1) + [HexDigit(n % 16)]
  }

  function HexBytes(bs: seq<Byte>): string
    decreases |bs|
  {
    if bs == [] then "" else HexBytes(bs[..|bs| - 1]) + Hex(bs[|bs| - 1], 2)
  }

  /** getPELFilename: the eight BCD time bytes, an underscore, the PEL ID. */
  function PELFilename(pelID: Uint32, time: seq<Byte>): string {
    HexBytes(time) + ("_" + Hex(pelID, 8))
  }

  /** Earlier in time: the first differing byte, most significant first, decides. */
  predicate TimeLess(t: seq<Byte>, u: seq<Byte>) {
    u != [] && (t == [] || t[0] < u[0] || (t[0] == u[0] && TimeLess(t[1..], u[1..])))
  }

  lemma HexDigitOrder(d: int, e: int, x: string, y: string)
    requires 0 <= d < 16 && 0 <= e < 16
    ensures PathLess([HexDigit(d)] + x, [HexDigit(e)] + y) <==> d < e || (d == e && PathLess(x, y))
  {
    assert ([HexDigit(d)] + x)[1..] == x && ([HexDigit(e)] + y)[1..] == y;
  }

  lemma {:induction false} HexOrder(m: nat, n: nat, width: nat, x: string, y: string)
    requires m < Pow16(width) && n < Pow16(width)
    ensures PathLess(Hex(m, width) + x, Hex(n, width) + y) <==> m < n || (m == n && PathLess(x, y))
  {
    if width == 0 {
      assert Hex(m, 0) + x == x && Hex(n, 0) + y == y;
    } else {
      var x', y' := [HexDigit(m % 16)] + x, [HexDigit(n % 16)] + y;
      assert Hex(m, width) + x == Hex(m / 16, width - 1) + x';
      assert Hex(n, width) + y == Hex(n / 16, width - 1) + y';
      HexOrder(m / 16, n / 16, width - 1, x', y');
      HexDigitOrder(m % 16, n % 16, x, y);
    }
  }

  lemma {:induction false} TimeLessSnoc(t: seq<Byte>, u: seq<Byte>, b: Byte, c: Byte)
    requires |t| == |u|
    ensures TimeLess(t + [b], u + [c]) <==> TimeLess(t, u) || (t == u && b < c)
  {
    if t == [] {
      assert t + [b] == [b] && u + [c] == [c];
    } else {
      assert (t + [b])[1..] == t[1..] + [b] && (u + [c])[1..] == u[1..] + [c];
      TimeLessSnoc(t[1..], u[1..], b, c);
      assert t == u <==> t[0] == u[0] && t[1..] == u[1..] by {
        assert t == [t[0]] + t[1..] && u == [u[0]] + u[1..];
      }
    }
  }

  lemma {:induction false} HexBytesOrder(t: seq<Byte>, u: seq<Byte>, x: string, y: string)
    requires |t| == |u|
    ensures PathLess(HexBytes(t) + x, HexBytes(u) + y) <==> TimeLess(t, u) || (t == u && PathLess(x, y))
    decreases |t|
  {
    if t == [] {
      assert HexBytes(t) + x == x && HexBytes(u) + y == y;
    } else {
      var n := |t| - 1;
      assert t == t[..n] + [t[n]] && u == u[..n] + [u[n]];
      assert HexBytes(t) + x == HexBytes(t[..n]) + (Hex(t[n], 2) + x);
      assert HexBytes(u) + y == HexBytes(u[..n]) + (Hex(u[n], 2) + y);
      HexBytesOrder(t[..n], u[..n], Hex(t[n], 2) + x, Hex(u[n], 2) + y);
      HexOrder(t[n], u[n], 2, x, y);
      TimeLessSnoc(t[..n], u[..n], t[n], u[n]);
    }
  }

  lemma FilenameOrderIsAgeOrder(id: Uint32, time: seq<Byte>, id': Uint32, time': seq<Byte>)
    requires |time| == 8 == |time'|
    ensures PathLess(PELFilename(id, time), PELFilename(id', time'))
       <==> TimeLess(time, time') || (time == time' && id < id')
  {
    assert Pow16(8) == TWO_TO_THE_32;
    HexBytesOrder(time, time', "_" + Hex(id, 8), "_" + Hex(id', 8));
    assert ("_" + Hex(id, 8))[1..] == Hex(id, 8) + "" && ("_" + Hex(id', 8))[1..] == Hex(id', 8) + "";
    HexOrder(id, id', 8, "", "");
  }

  /** What an upper-case hexadecimal digit stands for. */
  function HexValue(c: char): int {
    if '0' <= c <= '9' then c as int - '0' as int
    else if 'A' <= c <= 'F' then c as int - 'A' as int + 10
    else -1
  }

  /** The number that digits stand for, the first one weighing most. */
  function HexNumber(s: string): int {
    if s == "" then 0 else HexNumber(s[..|s| - 1]) * 16 + HexValue(s[|s| - 1])
  }

  lemma {:induction false} HexReads(n: nat, width: nat)
    requires n < Pow16(width)
    ensures |Hex(n, width)| == width && HexNumber(Hex(n, width)) == n
    ensures forall c | c in Hex(n, width) :: HexValue(c) >= 0
  {
    hide HexDigit, HexValue;
    if width > 0 {
      HexReads(n / 16, width - 1);
      DigitReads(n % 16);
      OneMoreDigit(Hex(n / 16, width - 1), HexDigit(n % 16));
    }
  }

  lemma DigitReads(d: int)
    requires 0 <= d < 16
    ensures HexValue(HexDigit(d)) == d
  {}

  lemma OneMoreDigit(front: string, last: char)
    ensures HexNumber(front + [last]) == HexNumber(front) * 16 + HexValue(last)
  {
    hide HexValue;
    assert (front + [last])[..|front|] == front;
  }

  lemma {:induction false} HexBytesRead(bs: seq<Byte>, k: nat)
    requires k < |bs|
    ensures |HexBytes(bs)| == 2 * |bs| && HexNumber(HexBytes(bs)[2 * k..2 * k + 2]) == bs[k]
    decreases |bs|
  {
    hide Hex, HexNumber, HexValue;
    var n := |bs| - 1;
    assert Pow16(2) == 256;
    var front, last := HexBytes(bs[..n]), Hex(bs[n], 2);
    HexReads(bs[n], 2);
    if n > 0 { HexBytesRead(bs[..n], if k < n then k else 0); }
    if k == n {
      assert HexBytes(bs)[2 * k..2 * k + 2] == last;
    } else {
      assert HexBytes(bs)[2 * k..2 * k + 2] == front[2 * k..2 * k + 2];
    }
  }

  /** A file name: two digits for each byte of the time, an underscore, and eight digits for
      the PEL ID. */
  lemma FilenameShows(id: Uint32, time: seq<Byte>)
    requires |time| == 8
    ensures var name := PELFilename(id, time);
      && |name| == 25 && name[16] == '_' && HexNumber(name[17..]) == id
      && forall k | 0 <= k < 8 :: HexNumber(name[2 * k..2 * k + 2]) == time[k]
  {
    hide HexNumber, HexValue, HexBytes, Hex;
    assert Pow16(8) == TWO_TO_THE_32;
    HexReads(id, 8);
    var name, front := PELFilename(id, time), HexBytes(time);
    HexBytesRead(time, 0);
    assert name[17..] == Hex(id, 8);
    forall k | 0 <= k < 8 ensures HexNumber(name[2 * k..2 * k + 2]) == time[k] {
      HexBytesRead(time, k);
      assert name[2 * k..2 * k + 2] == front[2 * k..2 * k + 2];
    }
  }

  /** Different PELs have different files: a name tells the time and the ID. */
  lemma FilenameIsUnique(id: Uint32, time: seq<Byte>, id': Uint32, time': seq<Byte>)
    requires |time| == 8 == |time'| && PELFilename(id, time) == PELFilename(id', time')
    ensures id == id' && time == time'
  {
    FilenameShows(id, time);
    FilenameShows(id', time');
    forall k | 0 <= k < 8 ensures time[k] == time'[k] {
      assert HexNumber(PELFilename(id, time)[2 * k..2 * k + 2]) == time[k];
    }
  }
}
