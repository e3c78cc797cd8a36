/** The archive of removed PELs: the files a removal moves there, the counter that shadows
    their size, and how the size warning keeps logs and archive together within bounds. */
module Archive {
  import opened RepositoryState
  import P = Pruning

  datatype File = File(name: string, size: nat)

  /** The log directory by its file names, the archive directory below it, and
      _archiveSize. */
  datatype Disk = Disk(logs: set<string>, archive: seq<File>, archiveSize: nat)

  /** Stores a file, over the one of that name if there is one. */
  function Put(files: seq<File>, f: File): seq<File> {
    if files == [] then [f]
    else if files[0].name == f.name then [f] + files[1..]
    else [files[0]] + Put(files[1..], f)
  }

  function SizeAt(files: seq<File>, name: string): nat {
    if files == [] then 0 else if files[0].name == name then files[0].size else SizeAt(files[1..], name)
  }

  function SumOfFiles(files: seq<File>): nat {
    if files == [] then 0 else files[0].size + SumOfFiles(files[1..])
  }

  predicate InArchive(files: seq<File>, name: string) { exists f | f in files :: f.name == name }

  function Archived(d: Disk, f: File): Disk {
    d.(archive := Put(d.archive, f), archiveSize := (d.archiveSize + f.size) % TWO_TO_THE_64)
  }

  /** Repository::remove: the file of the PEL, if it is there, moves to the archive. */
  function Move(d: Disk, e: Entry): Disk {
    if e.attr.path in d.logs then Archived(d.(logs := d.logs - {e.attr.path}), File(e.attr.path, e.attr.sizeOnDisk)) else d
  }

  function MoveAll(d: Disk, gone: seq<Entry>): Disk
    decreases |gone|
  {
    if gone == [] then d else Move(MoveAll(d, gone[..|gone| - 1]), gone[|gone| - 1])
  }

  /** The names of the files in the log directory once restore has removed the invalid ones. */
  function PathsOf(files: seq<FoundFile>): set<string> {
    set f | f in files && f.Some? :: f.value.attr.path
  }

  /** What can be deleted of the archive is. */
  function Emptied(files: seq<File>, stuck: set<string>): seq<File> {
    if files == [] then []
    else if files[0].name in stuck then [files[0]] + Emptied(files[1..], stuck)
    else Emptied(files[1..], stuck)
  }

  predicate ArchiveTooLarge(s: RepoState, d: Disk) {
    d.archiveSize > 0 && (s.sizes.total + d.archiveSize) % TWO_TO_THE_64 > P.PercentOf(s.maxRepoSize, 95)
  }

  /** The archive after sizeWarning; stuck are the files that cannot be deleted. */
  function AfterWarning(s: RepoState, d: Disk, stuck: set<string>): Disk {
    if ArchiveTooLarge(s, d) then d.(archive := Emptied(d.archive, stuck), archiveSize := 0) else d
  }

  lemma {:induction false} SumSnoc(files: seq<File>, f: File)
    ensures SumOfFiles(files + [f]) == SumOfFiles(files) + f.size
  {
    if files != [] {
      assert (files + [f])[1..] == files[1..] + [f];
      SumSnoc(files[1..], f);
    } else {
      assert files + [f] == [f];
    }
  }

  lemma MoveOneMore(d: Disk, gone: seq<Entry>, e: Entry)
    ensures MoveAll(d, gone + [e]) == Move(MoveAll(d, gone), e)
  {
    assert (gone + [e])[..|gone|] == gone;
  }

  lemma {:induction false} MoveAllConcat(d: Disk, a: seq<Entry>, b: seq<Entry>)
    ensures MoveAll(d, a + b) == MoveAll(MoveAll(d, a), b)
    decreases |b|
  {
    if b == [] {
      assert a + b == a;
    } else {
      var n := |b| - 1;
      MoveAllConcat(d, a, b[..n]);
      assert (a + b)[..|a + b| - 1] == a + b[..n];
    }
  }

  // ---------------------------------------------------------- the archive counter

  lemma {:induction false} PutSum(files: seq<File>, f: File)
    ensures SumOfFiles(Put(files, f)) == SumOfFiles(files) - SizeAt(files, f.name) + f.size
    ensures SizeAt(files, f.name) <= SumOfFiles(files)
  {
    if files != [] {
      PutSum(files[1..], f);
      assert ([files[0]] + Put(files[1..], f))[1..] == Put(files[1..], f);
      assert ([f] + files[1..])[1..] == files[1..];
    }
  }

  /** Archiving keeps the counter right exactly when no file of that name, or only an empty
      one, was in the archive: a replaced file is not taken off it. */
  lemma ArchivedCountsIffNew(d: Disk, f: File)
    requires d.archiveSize == SumOfFiles(d.archive) && d.archiveSize + f.size < TWO_TO_THE_64
    ensures Archived(d, f).archiveSize == SumOfFiles(Archived(d, f).archive) <==> SizeAt(d.archive, f.name) == 0
  {
    PutSum(d.archive, f);
  }

  /** A file of 512 bytes archived twice under one name counts as 1024. */
  lemma ArchivedTwiceMiscounts()
    ensures var f := File("00000000000000_00000001", 512);
      var d := Archived(Archived(Disk({}, [], 0), f), f);
      d.archiveSize == 1024 && SumOfFiles(d.archive) == 512
  {
    var f := File("00000000000000_00000001", 512);
    assert Put([], f) == [f] && Put([f], f) == [f];
    assert SumOfFiles([f]) == 512;
  }

  // ------------------------------------------------------- what pruning moves there

  ghost predicate DistinctPaths(es: seq<Entry>) {
    forall i, j | 0 <= i < j < |es| :: es[i].attr.path != es[j].attr.path
  }

  /** Every stored PEL has its own file, of a name not in the archive, and the counters are
      right and have room for it all. */
  ghost predicate Kept(s: RepoState, d: Disk) {
    && Valid(s) && DistinctPaths(s.pels)
    && (forall e | e in s.pels :: e.attr.path in d.logs && !InArchive(d.archive, e.attr.path))
    && d.archiveSize == SumOfFiles(d.archive)
    && SumOf(s.pels, Total) + SumOfFiles(d.archive) < TWO_TO_THE_64
  }

  lemma {:induction false} NotThere(files: seq<File>, name: string)
    requires !InArchive(files, name)
    ensures SizeAt(files, name) == 0
  {
    if files != [] {
      assert files[0] in files;
      assert forall f | f in files[1..] :: f in files;
      NotThere(files[1..], name);
    }
  }

  lemma {:induction false} PutContents(files: seq<File>, f: File, name: string)
    ensures InArchive(Put(files, f), name) ==> name == f.name || InArchive(files, name)
  {
    if InArchive(Put(files, f), name) && files != [] && name != f.name {
      var g :| g in Put(files, f) && g.name == name;
      if files[0].name == f.name || g == files[0] {
        assert g in files;
      } else {
        assert g in Put(files[1..], f);
        PutContents(files[1..], f, name);
        var k :| k in files[1..] && k.name == name;
        assert k in files;
      }
    }
  }

  /** Removing one stored PEL moves its bytes from the logs to the archive. */
  lemma MoveConserves(s: RepoState, d: Disk, e: Entry)
    requires Kept(s, d) && e in s.pels
    ensures Kept(RemovePEL(s, e.id), Move(d, e))
    ensures SumOf(RemovePEL(s, e.id).pels, Total) + SumOfFiles(Move(d, e).archive)
         == SumOf(s.pels, Total) + SumOfFiles(d.archive)
  {
    hide Valid, Put, InArchive, SumOf, SumOfFiles;
    var f := File(e.attr.path, e.attr.sizeOnDisk);
    var r := RemovePEL(s, e.id);
    RemovedOne(s, e);
    PutSum(d.archive, f);
    NotThere(d.archive, f.name);
    forall x | x in r.pels ensures x.attr.path in Move(d, e).logs && !InArchive(Move(d, e).archive, x.attr.path) {
      OtherPath(s.pels, e, x);
      PutContents(d.archive, f, x.attr.path);
    }
  }

  lemma RemovedOne(s: RepoState, e: Entry)
    requires Valid(s) && DistinctPaths(s.pels) && e in s.pels
    ensures var r := RemovePEL(s, e.id);
      && Valid(r) && DistinctPaths(r.pels) && (forall x :: x in r.pels <==> x in s.pels && x != e)
      && SumOf(r.pels, Total) == SumOf(s.pels, Total) - e.attr.sizeOnDisk
  {
    FindOwnID(s.pels, e);
    var j := FindPEL(s.pels, e.id);
    P.RemoveStored(s, e);
    SumOfErase(s.pels, j, Total);
    var r := EraseAt(s.pels, j);
    assert forall i | 0 <= i < |r| :: r[i] == if i < j then s.pels[i] else s.pels[i + 1];
  }

  lemma OtherPath(es: seq<Entry>, e: Entry, x: Entry)
    requires DistinctPaths(es) && e in es && x in es && x != e
    ensures x.attr.path != e.attr.path
  {
    var i :| 0 <= i < |es| && es[i] == e;
    var j :| 0 <= j < |es| && es[j] == x;
    assert es[i].attr.path != es[j].attr.path;
  }

  /** Removing a list of stored PELs conserves the bytes in logs and archive together. */
  lemma {:induction false} MovesConserve(s: RepoState, d: Disk, gone: seq<Entry>)
    requires Kept(s, d) && P.NoRepeats(gone) && forall e | e in gone :: e in s.pels
    ensures Kept(P.RemoveEntries(s, gone), MoveAll(d, gone))
    ensures SumOf(P.RemoveEntries(s, gone).pels, Total) + SumOfFiles(MoveAll(d, gone).archive)
         == SumOf(s.pels, Total) + SumOfFiles(d.archive)
    decreases |gone|
  {
    hide Valid, SumOf, SumOfFiles, Move, DistinctPaths, InArchive;
    if gone == [] {
      RemoveNone(s);
    } else {
      var n := |gone| - 1;
      var e, before := gone[n], P.RemoveEntries(s, gone[..n]);
      assert gone == gone[..n] + [e];
      MovesConserve(s, d, gone[..n]);
      StillStored(s, gone, n);
      P.RemoveOneMore(s, gone[..n], e);
      MoveConserves(before, MoveAll(d, gone[..n]), e);
    }
  }

  lemma StillStored(s: RepoState, gone: seq<Entry>, n: nat)
    requires Valid(s) && P.NoRepeats(gone) && n == |gone| - 1 && gone[n] in s.pels
    ensures gone[n] in P.RemoveEntries(s, gone[..n]).pels && Valid(P.RemoveEntries(s, gone[..n]))
  {
    P.KeepContents(s.pels, gone[..n]);
    P.RemoveEntriesKeepsValid(s, gone[..n]);
  }

  lemma RemoveNone(s: RepoState)
    requires Valid(s)
    ensures P.RemoveEntries(s, []) == s
  {
    P.KeepNone(s.pels);
  }

  /** A pruned repository is the one before without what was removed. */
  lemma {:induction false} StagesRemove(s: RepoState, n: nat, isolated: seq<Uint32>)
    requires Valid(s)
    ensures P.Stages(s, n, isolated).state == P.RemoveEntries(s, P.Stages(s, n, isolated).removed)
  {
    hide P.VictimsOf, P.LimitAt;
    if n == 0 {
      RemoveNone(s);
    } else {
      StagesRemove(s, n - 1, isolated);
      var p := P.Stages(s, n - 1, isolated);
      P.KeepTwice(s.pels, p.removed, P.VictimsOf(p.state, P.LimitAt(n - 1), isolated));
    }
  }

  /** Pruning moves files to the archive, and loses and duplicates none: logs and archive
      together take what they took before. */
  lemma PruneConserves(s: RepoState, d: Disk, isolated: seq<Uint32>)
    requires Kept(s, d)
    ensures var p := P.Prune(s, isolated);
      && Kept(p.state, MoveAll(d, p.removed))
      && SumOf(p.state.pels, Total) + SumOfFiles(MoveAll(d, p.removed).archive)
         == SumOf(s.pels, Total) + SumOfFiles(d.archive)
  {
    hide P.Stages, SumOf, SumOfFiles, MoveAll, Kept, Valid, P.NoRepeats;
    var p := P.Prune(s, isolated);
    assert Valid(s) by { KeptIsValid(s, d); }
    P.PruneEffect(s, isolated);
    StagesRemove(s, 4, isolated);
    StagesRemove(s, 5, isolated);
    MovesConserve(s, d, p.removed);
  }

  lemma KeptIsValid(s: RepoState, d: Disk)
    requires Kept(s, d)
    ensures Valid(s)
  {}

  // ------------------------------------------------------------- the size warning

  lemma {:induction false} EmptiedContents(files: seq<File>, stuck: set<string>)
    ensures forall f | f in Emptied(files, stuck) :: f in files && f.name in stuck
    ensures stuck == {} ==> Emptied(files, stuck) == []
  {
    if files != [] { EmptiedContents(files[1..], stuck); }
  }

  lemma {:induction false} NoBytes(files: seq<File>)
    requires SumOfFiles(files) == 0
    ensures forall f | f in files :: f.size == 0
  {
    if files != [] { NoBytes(files[1..]); }
  }

  /** After sizeWarning logs and archive are together within 95 percent, or all that is left
      in the archive is empty or could not be deleted. */
  lemma WarningBoundsArchive(s: RepoState, d: Disk, stuck: set<string>)
    requires Kept(s, d)
    ensures var d' := AfterWarning(s, d, stuck);
      || SumOf(s.pels, Total) + SumOfFiles(d'.archive) <= P.PercentOf(s.maxRepoSize, 95)
      || (d'.archiveSize == 0 && forall f | f in d'.archive :: f.name in stuck || f.size == 0)
  {
    SizesOfCounter(s.pels, Total);
    EmptiedContents(d.archive, stuck);
    if d.archiveSize == 0 { NoBytes(d.archive); }
  }

  lemma {:induction false} EmptiedIff(files: seq<File>, stuck: set<string>)
    ensures forall f :: f in Emptied(files, stuck) <==> f in files && f.name in stuck
  {
    if files != [] { EmptiedIff(files[1..], stuck); }
  }

  /** The archive is emptied exactly when it has bytes and takes, together with the logs, more
      than 95 percent of the space; then what is left is what could not be deleted, and the
      counter forgets that. The logs are left alone. */
  lemma EmptiesArchiveIff(s: RepoState, d: Disk, stuck: set<string>)
    requires Kept(s, d)
    ensures var d' := AfterWarning(s, d, stuck);
      var bytes := SumOfFiles(d.archive);
      var over := bytes > 0 && 100 * (SumOf(s.pels, Total) + bytes) > 95 * s.maxRepoSize;
      && d'.logs == d.logs && d'.archiveSize == (if over then 0 else bytes)
      && (forall f :: f in d'.archive <==> f in d.archive && (over ==> f.name in stuck))
  {
    SizesOfCounter(s.pels, Total);
    EmptiedIff(d.archive, stuck);
  }

  /** A prune with nothing isolated, and the warning asked after it: the answer is no, and
      with an archive that can be deleted logs and archive together take no more than 95
      percent of the space. */
  lemma PruneThenWarningBoundsSpace(s: RepoState, d: Disk)
    requires Kept(s, d)
    ensures var p := P.Prune(s, []);
      && !P.SizeWarning(p.state)
      && SumOf(p.state.pels, Total) + SumOfFiles(AfterWarning(p.state, MoveAll(d, p.removed), {}).archive)
         <= P.PercentOf(s.maxRepoSize, 95)
  {
    hide P.Prune, MoveAll, SumOf, SumOfFiles, Kept, AfterWarning, P.SizeWarning, P.Progress, Valid;
    PruneConserves(s, d, []);
    KeptIsValid(s, d);
    P.PruneClearsWarning(s);
    PruneKeepsMaximum(s);
    var p := P.Prune(s, []);
    WarningKeepsWithin(p.state, MoveAll(d, p.removed));
  }

  lemma PruneKeepsMaximum(s: RepoState)
    requires Valid(s)
    ensures P.Prune(s, []).state.maxRepoSize == s.maxRepoSize
  {
    hide P.Prune, Valid, P.Settled;
    P.PruneEffect(s, []);
  }

  /** Where the logs alone are within the limit, an archive that can be deleted does not take
      them over it. */
  lemma WarningKeepsWithin(s: RepoState, d: Disk)
    requires Kept(s, d) && s.sizes.total <= P.PercentOf(s.maxRepoSize, 95)
    ensures SumOf(s.pels, Total) + SumOfFiles(AfterWarning(s, d, {}).archive) <= P.PercentOf(s.maxRepoSize, 95)
  {
    hide SumOf;
    SizesOfCounter(s.pels, Total);
    EmptiedContents(d.archive, {});
  }
}
