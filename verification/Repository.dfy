/** The Repository class: the attribute map and its counters changed in place,
    with each method tied to the value-level operation of the same name. */
module RepositoryClass {
  import opened Wrappers
  import opened RepositoryState
  import A = Archive
  import O = PruningOrder
  import P = Pruning
  import R = RepositoryRuns
  import T = SeverityTable

  // ------------------------------------------------ the pruning loop, on values

  /** The snapshot the loop walks: stored PELs, each once, of which those still
      removable belong to this pass or a later one, and up to here to a later one. */
  ghost predicate Snapshot(s: RepoState, limit: P.Limit, isolated: seq<Uint32>,
                           attributes: seq<Entry>, pass: nat, it: nat)
  {
    && pass < 4 && it <= |attributes|
    && P.NoRepeats(attributes)
    && (forall e | e in attributes :: e in s.pels)
    && (forall e | e in attributes && P.Removable(e, limit, isolated) :: P.FirstPass(e.attr) >= pass)
    && (forall e | e in attributes[..it] && P.Removable(e, limit, isolated) :: P.FirstPass(e.attr) > pass)
  }

  /** What is to be removed is what has been removed and what the loop, going on
      from here, would still remove. */
  ghost predicate Accounted(target: seq<Entry>, s: RepoState, limit: P.Limit, isolated: seq<Uint32>,
                            attributes: seq<Entry>, pass: nat, it: nat, done: seq<Entry>)
  {
    && it <= |attributes|
    && target == done + P.Victims(P.Used(s, limit), P.Bound(s, limit), limit,
                                  ToCome(attributes, pass, it, limit, isolated))
  }

  ghost function ToCome(attributes: seq<Entry>, pass: nat, it: nat, limit: P.Limit, isolated: seq<Uint32>): seq<Entry>
    requires it <= |attributes|
  {
    P.InPass(attributes[it..], limit, isolated, pass) + P.FromPass(attributes, limit, isolated, pass + 1)
  }

  lemma SnapshotStart(s: RepoState, limit: P.Limit, isolated: seq<Uint32>)
    requires Valid(s)
    ensures Snapshot(s, limit, isolated, P.AllByPath(s.pels), 0, 0)
  {
    var attributes := P.AllByPath(s.pels);
    P.AllByPathSorts(s.pels);
    assert forall e :: e in attributes <==> e in multiset(s.pels);
    forall e ensures multiset(attributes)[e] <= 1 {
      P.AscendingCount(s.pels, e);
    }
    P.NoRepeatsByCount(attributes);
  }

  lemma AccountedStart(s: RepoState, limit: P.Limit, isolated: seq<Uint32>)
    ensures Accounted(P.VictimsOf(s, limit, isolated), s, limit, isolated, P.AllByPath(s.pels), 0, 0, [])
  {
    var attributes := P.AllByPath(s.pels);
    assert attributes[0..] == attributes;
    assert ToCome(attributes, 0, 0, limit, isolated) == P.RemovalOrder(s.pels, limit, isolated);
  }

  lemma LoopSkip(target: seq<Entry>, s: RepoState, limit: P.Limit, isolated: seq<Uint32>,
                 attributes: seq<Entry>, pass: nat, it: nat, done: seq<Entry>)
    requires Snapshot(s, limit, isolated, attributes, pass, it) && it < |attributes|
    requires Accounted(target, s, limit, isolated, attributes, pass, it, done)
    requires !P.Removable(attributes[it], limit, isolated) || !P.StateCheck(attributes[it].attr, pass)
    ensures Snapshot(s, limit, isolated, attributes, pass, it + 1)
    ensures Accounted(target, s, limit, isolated, attributes, pass, it + 1, done)
  {
    assert attributes[it] in attributes;
    assert attributes[it..][1..] == attributes[it + 1..];
    assert attributes[..it + 1] == attributes[..it] + [attributes[it]];
  }

  lemma {:induction false} InPassConcat(xs: seq<Entry>, ys: seq<Entry>, limit: P.Limit, isolated: seq<Uint32>, pass: nat)
    ensures P.InPass(xs + ys, limit, isolated, pass)
         == P.InPass(xs, limit, isolated, pass) + P.InPass(ys, limit, isolated, pass)
  {
    if xs == [] {
      assert xs + ys == ys;
    } else {
      assert (xs + ys)[1..] == xs[1..] + ys;
      InPassConcat(xs[1..], ys, limit, isolated, pass);
    }
  }

  lemma InPassErase(es: seq<Entry>, it: nat, limit: P.Limit, isolated: seq<Uint32>, pass: nat)
    requires it < |es| && P.FirstPass(es[it].attr) != pass
    ensures P.InPass(EraseAt(es, it), limit, isolated, pass) == P.InPass(es, limit, isolated, pass)
  {
    var front, behind := es[..it], [es[it]] + es[it + 1..];
    assert es == front + behind && behind[1..] == es[it + 1..];
    InPassConcat(front, behind, limit, isolated, pass);
    InPassConcat(front, es[it + 1..], limit, isolated, pass);
  }

  /** Erasing a PEL of an earlier pass changes nothing for the later passes. */
  lemma {:induction false} FromPassErase(es: seq<Entry>, it: nat, limit: P.Limit, isolated: seq<Uint32>, pass: nat)
    requires it < |es| && P.FirstPass(es[it].attr) < pass
    ensures P.FromPass(EraseAt(es, it), limit, isolated, pass) == P.FromPass(es, limit, isolated, pass)
    decreases 4 - pass
  {
    hide P.InPass, P.FirstPass, EraseAt;
    if pass < 4 {
      InPassErase(es, it, limit, isolated, pass);
      FromPassErase(es, it, limit, isolated, pass + 1);
    }
  }

  lemma EraseNoRepeats(es: seq<Entry>, it: nat)
    requires it < |es| && P.NoRepeats(es)
    ensures P.NoRepeats(EraseAt(es, it))
    ensures forall e | e in EraseAt(es, it) :: e in es && e != es[it]
  {
    var r := EraseAt(es, it);
    assert forall i | 0 <= i < |r| :: r[i] == if i < it then es[i] else es[i + 1];
  }

  lemma ToComeTake(attributes: seq<Entry>, pass: nat, it: nat, limit: P.Limit, isolated: seq<Uint32>)
    requires it < |attributes| && P.Removable(attributes[it], limit, isolated)
    requires P.FirstPass(attributes[it].attr) == pass
    ensures ToCome(attributes, pass, it, limit, isolated)
         == [attributes[it]] + ToCome(EraseAt(attributes, it), pass, it, limit, isolated)
  {
    assert attributes[it..][1..] == attributes[it + 1..] == EraseAt(attributes, it)[it..];
    FromPassErase(attributes, it, limit, isolated, pass + 1);
  }

  lemma TakeSnapshot(s: RepoState, limit: P.Limit, isolated: seq<Uint32>,
                     attributes: seq<Entry>, pass: nat, it: nat)
    requires Valid(s) && Snapshot(s, limit, isolated, attributes, pass, it) && it < |attributes|
    ensures Snapshot(RemovePEL(s, attributes[it].id), limit, isolated, EraseAt(attributes, it), pass, it)
  {
    assert attributes[it] in attributes;
    EraseNoRepeats(attributes, it);
    P.RemoveStored(s, attributes[it]);
    assert EraseAt(attributes, it)[..it] == attributes[..it];
  }

  lemma TakeAccounted(target: seq<Entry>, s: RepoState, limit: P.Limit, isolated: seq<Uint32>,
                      attributes: seq<Entry>, pass: nat, it: nat, done: seq<Entry>)
    requires Accounted(target, s, limit, isolated, attributes, pass, it, done) && it < |attributes|
    requires P.Removable(attributes[it], limit, isolated) && P.FirstPass(attributes[it].attr) == pass
    requires Valid(s) && attributes[it] in s.pels && P.IsOverLimit(s, limit)
    ensures Accounted(target, RemovePEL(s, attributes[it].id), limit, isolated,
                      EraseAt(attributes, it), pass, it, done + [attributes[it]])
  {
    hide ToCome, Valid, RemovePEL, P.Removable, P.Victims, EraseAt;
    EraseLength(attributes, it);
    var e := attributes[it];
    var rest := ToCome(EraseAt(attributes, it), pass, it, limit, isolated);
    ToComeTake(attributes, pass, it, limit, isolated);
    TakeUsed(s, e, limit, isolated);
    VictimsTake(P.Used(s, limit), P.Bound(s, limit), limit, e, rest);
  }

  lemma EraseLength(es: seq<Entry>, it: nat)
    requires it < |es|
    ensures |EraseAt(es, it)| == |es| - 1
  {}

  lemma TakeUsed(s: RepoState, e: Entry, limit: P.Limit, isolated: seq<Uint32>)
    requires Valid(s) && e in s.pels && P.Removable(e, limit, isolated)
    ensures P.Used(RemovePEL(s, e.id), limit) == P.Used(s, limit) - P.Weight(e, limit)
    ensures P.Bound(RemovePEL(s, e.id), limit) == P.Bound(s, limit)
  {
    P.RemoveStoredUsed(s, e, limit);
  }

  lemma VictimsTake(used: int, bound: nat, limit: P.Limit, e: Entry, rest: seq<Entry>)
    requires used > bound
    ensures P.Victims(used, bound, limit, [e] + rest)
         == [e] + P.Victims(used - P.Weight(e, limit), bound, limit, rest)
  {
    assert ([e] + rest)[1..] == rest;
  }

  lemma LoopTake(target: seq<Entry>, s: RepoState, limit: P.Limit, isolated: seq<Uint32>,
                 attributes: seq<Entry>, pass: nat, it: nat, done: seq<Entry>)
    requires Valid(s) && Snapshot(s, limit, isolated, attributes, pass, it) && it < |attributes|
    requires Accounted(target, s, limit, isolated, attributes, pass, it, done)
    requires P.Removable(attributes[it], limit, isolated) && P.StateCheck(attributes[it].attr, pass)
    requires P.IsOverLimit(s, limit)
    ensures attributes[it] in s.pels
    ensures Snapshot(RemovePEL(s, attributes[it].id), limit, isolated, EraseAt(attributes, it), pass, it)
    ensures Accounted(target, RemovePEL(s, attributes[it].id), limit, isolated,
                      EraseAt(attributes, it), pass, it, done + [attributes[it]])
  {
    assert attributes[it] in attributes;
    assert P.FirstPass(attributes[it].attr) == pass;
    TakeSnapshot(s, limit, isolated, attributes, pass, it);
    TakeAccounted(target, s, limit, isolated, attributes, pass, it, done);
  }

  lemma LoopNextPass(target: seq<Entry>, s: RepoState, limit: P.Limit, isolated: seq<Uint32>,
                     attributes: seq<Entry>, pass: nat, done: seq<Entry>)
    requires Snapshot(s, limit, isolated, attributes, pass, |attributes|)
    requires Accounted(target, s, limit, isolated, attributes, pass, |attributes|, done)
    ensures pass < 3 ==> Snapshot(s, limit, isolated, attributes, pass + 1, 0)
    ensures pass < 3 ==> Accounted(target, s, limit, isolated, attributes, pass + 1, 0, done)
    ensures pass == 3 ==> done == target
  {
    assert attributes[|attributes|..] == [] && attributes[0..] == attributes && attributes[..|attributes|] == attributes;
    assert ToCome(attributes, pass, |attributes|, limit, isolated) == P.FromPass(attributes, limit, isolated, pass + 1);
  }

  lemma FinishedEarly(target: seq<Entry>, s: RepoState, limit: P.Limit, isolated: seq<Uint32>,
                      attributes: seq<Entry>, pass: nat, it: nat, done: seq<Entry>)
    requires Accounted(target, s, limit, isolated, attributes, pass, it, done)
    requires !P.IsOverLimit(s, limit)
    ensures done == target
  {}

  lemma LogIDsSnoc(before: seq<Uint32>, es: seq<Entry>, e: Entry)
    ensures before + P.LogIDsOf(es) + [e.id.obmcID] == before + P.LogIDsOf(es + [e])
  {}

  /** A repository and a list of log IDs as a pruning stage left them. */
  ghost predicate Reached(s: RepoState, ids: seq<Uint32>, disk: A.Disk, before: A.Disk, p: P.Pruned) {
    s == p.state && ids == P.LogIDsOf(p.removed) && disk == A.MoveAll(before, p.removed)
  }

  lemma NothingPruned(s: RepoState, d: A.Disk, isolated: seq<Uint32>)
    ensures Reached(s, [], d, d, P.Stages(s, 0, isolated))
    ensures P.LimitAt(0) == P.BmcInfoLimit && P.LimitAt(1) == P.BmcNonInfoLimit && P.LimitAt(2) == P.NonBmcInfoLimit
    ensures P.LimitAt(3) == P.NonBmcNonInfoLimit && P.LimitAt(4) == P.TooManyPELs
  {}

  lemma LogIDsConcat(es: seq<Entry>, fs: seq<Entry>)
    ensures P.LogIDsOf(es + fs) == P.LogIDsOf(es) + P.LogIDsOf(fs)
  {}

  /** What the loop starts from. */
  lemma NoneRemoved(s: RepoState, d: A.Disk, limit: P.Limit, isolated: seq<Uint32>)
    requires Valid(s)
    ensures P.RemoveEntries(s, []) == s && A.MoveAll(d, []) == d
    ensures !P.IsOverLimit(s, limit) ==> P.VictimsOf(s, limit, isolated) == []
  {
    P.KeepNone(s.pels);
  }

  // ------------------------------------------------------------------- the class

  class Repository {
    var pelAttributes: seq<Entry>
    var sizes: SizeStats
    var pendingPELs: map<Uint32, Entry>
    var disk: A.Disk          // the files, and _archiveSize
    const maxRepoSize: Maximum
    const maxNumPELs: Maximum

    function State(): RepoState
      reads this
    {
      RepoState(pelAttributes, sizes, pendingPELs, maxRepoSize, maxNumPELs)
    }

    /** Startup: restore() walks the log directory and adds up the archive. */
    constructor (files: seq<FoundFile>, archive: seq<A.File>, repoSize: Maximum, maxNumPELs: Maximum)
      ensures State() == RestoreAll(R.Empty(repoSize, maxNumPELs), files)
      ensures R.Restorable(R.Empty(repoSize, maxNumPELs), files) ==> Valid(State())
      ensures disk == A.Disk(A.PathsOf(files), archive, A.SumOfFiles(archive) % TWO_TO_THE_64)
    {
      this.maxRepoSize, this.maxNumPELs := repoSize, maxNumPELs;
      pelAttributes, sizes, pendingPELs := [], NO_SIZES, map[];
      disk := A.Disk(A.PathsOf(files), archive, 0);
      new;
      Restore(files);
      AddUpArchive();
      if R.Restorable(R.Empty(repoSize, maxNumPELs), files) {
        R.RestoreSetsCounters(repoSize, maxNumPELs, files);
      }
    }

    method Restore(files: seq<FoundFile>)
      modifies this`pelAttributes, this`sizes
      ensures State() == RestoreAll(old(State()), files)
    {
      var i := 0;
      while i < |files|
        invariant i <= |files|
        invariant State() == RestoreAll(old(State()), files[..i])
      {
        if files[i].Some? {
          var e := files[i].value;
          if e.attr.hostState == Sent {
            e := e.(attr := e.attr.(hostState := NewPEL));
          }
          pelAttributes := Emplace(pelAttributes, e);
          UpdateStats(e.attr, true);
        }
        assert files[..i + 1][..i] == files[..i];
        i := i + 1;
      }
      assert files[..i] == files;
    }

    /** The part of restore that sets _archiveSize. */
    method AddUpArchive()
      requires disk.archiveSize == 0
      modifies this`disk
      ensures disk == old(disk).(archiveSize := A.SumOfFiles(old(disk).archive) % TWO_TO_THE_64)
    {
      var i := 0;
      while i < |disk.archive|
        invariant i <= |disk.archive| && disk == old(disk).(archiveSize := disk.archiveSize)
        invariant disk.archiveSize == A.SumOfFiles(disk.archive[..i]) % TWO_TO_THE_64
      {
        assert disk.archive[..i + 1] == disk.archive[..i] + [disk.archive[i]];
        A.SumSnoc(disk.archive[..i], disk.archive[i]);
        disk := disk.(archiveSize := (disk.archiveSize + disk.archive[i].size) % TWO_TO_THE_64);
        i := i + 1;
      }
      assert disk.archive[..i] == disk.archive;
    }

    /** updateRepoStats: each counter moves exactly when the PEL is in its
        category, whatever branch the code takes to get there. */
    method UpdateStats(pel: Attributes, pelAdded: bool)
      modifies this`sizes
      ensures sizes == UpdateRepoStats(old(sizes), pel, pelAdded)
      ensures pelAdded && T.AllBelow(old(sizes), TWO_TO_THE_64 - pel.sizeOnDisk) ==>
        T.RaisedBy(old(sizes), sizes, pel, pel.sizeOnDisk)
    {
      hide T.RaisedBy, T.AllBelow, IsServiceableSev;
      T.UpdateGoesByTable(sizes, pel);
      var serviceable := IsServiceableSev(pel);
      sizes := sizes.(total := AdjustSize(sizes.total, pel.sizeOnDisk, pelAdded));
      if IsBMC(pel) {
        sizes := sizes.(bmc := AdjustSize(sizes.bmc, pel.sizeOnDisk, pelAdded));
        if serviceable {
          sizes := sizes.(bmcServiceable := AdjustSize(sizes.bmcServiceable, pel.sizeOnDisk, pelAdded));
        } else {
          sizes := sizes.(bmcInfo := AdjustSize(sizes.bmcInfo, pel.sizeOnDisk, pelAdded));
        }
      } else {
        sizes := sizes.(nonBMC := AdjustSize(sizes.nonBMC, pel.sizeOnDisk, pelAdded));
        if serviceable {
          sizes := sizes.(nonBMCServiceable := AdjustSize(sizes.nonBMCServiceable, pel.sizeOnDisk, pelAdded));
        } else {
          sizes := sizes.(nonBMCInfo := AdjustSize(sizes.nonBMCInfo, pel.sizeOnDisk, pelAdded));
        }
      }
    }

    /** Writes the file and indexes the PEL, also one whose ID is already there. */
    method Add(pel: Entry)
      modifies this`pelAttributes, this`sizes, this`disk
      ensures State() == AddPEL(old(State()), pel)
      ensures old(Valid(State()) && R.Indexable(State(), pel)) ==> Valid(State())
      ensures disk == old(disk).(logs := old(disk).logs + {pel.attr.path})
    {
      if Valid(State()) && R.Indexable(State(), pel) {
        R.StepKeepsValid(State(), R.Add(pel));
      }
      var attributes := pel.attr.(hostState := NewPEL, hmcState := NewPEL);
      disk := disk.(logs := disk.logs + {attributes.path});
      pelAttributes := Emplace(pelAttributes, pel.(attr := attributes));
      UpdateStats(attributes, true);
    }

    method Remove(id: LogID) returns (actualID: Option<LogID>)
      modifies this`pelAttributes, this`sizes, this`disk
      ensures State() == RemovePEL(old(State()), id)
      ensures old(Valid(State())) ==> Valid(State())
      ensures var j := FindPEL(old(pelAttributes), id);
        if j < |old(pelAttributes)| then
          actualID == Some(old(pelAttributes)[j].id) && disk == A.Move(old(disk), old(pelAttributes)[j])
        else
          actualID == None && disk == old(disk)
    {
      if Valid(State()) {
        R.StepKeepsValid(State(), R.Remove(id));
      }
      var pel := FindPEL(pelAttributes, id);
      if pel == |pelAttributes| {
        return None;
      }
      var attr := pelAttributes[pel].attr;
      actualID := Some(pelAttributes[pel].id);
      UpdateStats(attr, false);
      if attr.path in disk.logs {
        disk := disk.(logs := disk.logs - {attr.path});
        ArchiveFile(A.File(attr.path, attr.sizeOnDisk));
      }
      pelAttributes := EraseAt(pelAttributes, pel);
    }

    /** A file put into the archive, as remove and archivePEL do it. */
    method ArchiveFile(f: A.File)
      modifies this`disk
      ensures disk == A.Archived(old(disk), f)
    {
      disk := disk.(archive := A.Put(disk.archive, f));
      disk := disk.(archiveSize := (disk.archiveSize + f.size) % TWO_TO_THE_64);
    }

    method SetPELHostTransState(pelID: Uint32, state: TransmissionState)
      modifies this`pelAttributes
      ensures State() == SetHostState(old(State()), pelID, state)
      ensures old(Valid(State())) ==> Valid(State())
    {
      if Valid(State()) {
        R.StepKeepsValid(State(), R.SetHost(pelID, state));
      }
      var j := FindPEL(pelAttributes, LogID(pelID, 0));
      if j < |pelAttributes| && pelAttributes[j].attr.hostState != state {
        pelAttributes := pelAttributes[j := pelAttributes[j].(attr := pelAttributes[j].attr.(hostState := state))];
      }
    }

    /** Indexes an imported PEL, also one whose ID is already there. */
    method CompleteLink(obmcLogID: Uint32) returns (linked: bool)
      modifies this`pelAttributes, this`sizes, this`pendingPELs
      ensures State() == CompletePELLink(old(State()), obmcLogID)
      ensures old(Valid(State()) && R.Allowed(State(), R.CompleteLink(obmcLogID))) ==> Valid(State())
      ensures linked <==> obmcLogID in old(pendingPELs)
    {
      if Valid(State()) && R.Allowed(State(), R.CompleteLink(obmcLogID)) {
        R.StepKeepsValid(State(), R.CompleteLink(obmcLogID));
      }
      if obmcLogID !in pendingPELs {
        return false;
      }
      var e := pendingPELs[obmcLogID];
      pelAttributes := Emplace(pelAttributes, e);
      UpdateStats(e.attr, true);
      pendingPELs := pendingPELs - {obmcLogID};
      return true;
    }

    /** One removal of the loop, after those of done. */
    method RemoveOneMore(pel: Entry, ghost s: RepoState, ghost d: A.Disk, ghost done: seq<Entry>)
      requires Valid(State()) && pel in pelAttributes
      requires State() == P.RemoveEntries(s, done) && disk == A.MoveAll(d, done)
      modifies this`pelAttributes, this`sizes, this`disk
      ensures Valid(State()) && State() == RemovePEL(old(State()), pel.id)
      ensures State() == P.RemoveEntries(s, done + [pel]) && disk == A.MoveAll(d, done + [pel])
    {
      P.RemoveOneMore(s, done, pel);
      FindOwnID(pelAttributes, pel);
      A.MoveOneMore(d, done, pel);
      hide Valid, P.RemoveEntries, RemovePEL, A.MoveAll;
      var _ := Remove(pel.id);
    }

    /** removePELs: four passes over a sorted snapshot, erasing from the map and
        the snapshot on the way, come to removing the shortest sufficient prefix
        of the removal order. */
    method RemovePELs(limit: P.Limit, isolated: seq<Uint32>, removedBefore: seq<Uint32>)
      returns (removedBMCLogIDs: seq<Uint32>)
      requires Valid(State())
      modifies this`pelAttributes, this`sizes, this`disk
      ensures State() == P.RemovePELs(old(State()), limit, isolated).state
      ensures Valid(State())
      ensures removedBMCLogIDs == removedBefore + P.LogIDsOf(P.RemovePELs(old(State()), limit, isolated).removed)
      ensures disk == A.MoveAll(old(disk), P.RemovePELs(old(State()), limit, isolated).removed)
      ensures O.RightRemovals(old(State()), limit, isolated, P.RemovePELs(old(State()), limit, isolated).removed)
    {
      hide O.RightRemovals, Valid, Snapshot, Accounted, A.MoveAll, P.VictimsOf, P.RemoveEntries, RemovePEL, P.AllByPath,
        P.IsOverLimit, P.StateCheck, P.IsPELType;
      ghost var s, d := State(), disk;
      O.RemovalsAreRight(s, limit, isolated);
      ghost var target := P.VictimsOf(s, limit, isolated);
      ghost var done: seq<Entry> := [];
      NoneRemoved(s, d, limit, isolated);
      removedBMCLogIDs := removedBefore;
      if !P.IsOverLimit(State(), limit) {
        return;
      }
      var attributes := P.AllByPath(pelAttributes);
      SnapshotStart(s, limit, isolated);
      AccountedStart(s, limit, isolated);
      var pass := 0;
      while pass < 4
        invariant pass <= 4 && Valid(State()) && State() == P.RemoveEntries(s, done)
        invariant pass < 4 ==> Snapshot(State(), limit, isolated, attributes, pass, 0)
        invariant pass < 4 ==> Accounted(target, State(), limit, isolated, attributes, pass, 0, done)
        invariant pass == 4 ==> done == target
        invariant P.IsOverLimit(State(), limit)
        invariant removedBMCLogIDs == removedBefore + P.LogIDsOf(done)
        invariant disk == A.MoveAll(d, done)
      {
        var it := 0;
        while it < |attributes|
          invariant it <= |attributes| && Valid(State()) && State() == P.RemoveEntries(s, done)
          invariant Snapshot(State(), limit, isolated, attributes, pass, it)
          invariant Accounted(target, State(), limit, isolated, attributes, pass, it, done)
          invariant P.IsOverLimit(State(), limit)
          invariant removedBMCLogIDs == removedBefore + P.LogIDsOf(done)
          invariant disk == A.MoveAll(d, done)
          decreases |attributes| - it
        {
          var pel := attributes[it];
          if P.IsPELType(pel.attr, limit) && P.StateCheck(pel.attr, pass) {
            var removedID := pel.id.obmcID;
            if removedID in isolated {
              LoopSkip(target, State(), limit, isolated, attributes, pass, it, done);
              it := it + 1;
              continue;
            }
            LoopTake(target, State(), limit, isolated, attributes, pass, it, done);
            LogIDsSnoc(removedBefore, done, pel);
            RemoveOneMore(pel, s, d, done);
            removedBMCLogIDs := removedBMCLogIDs + [removedID];
            attributes := EraseAt(attributes, it);
            done := done + [pel];
            if !P.IsOverLimit(State(), limit) {
              FinishedEarly(target, State(), limit, isolated, attributes, pass, it, done);
              break;
            }
          } else {
            LoopSkip(target, State(), limit, isolated, attributes, pass, it, done);
            it := it + 1;
          }
        }
        if !P.IsOverLimit(State(), limit) {
          assert done == target;
          break;
        }
        LoopNextPass(target, State(), limit, isolated, attributes, pass, done);
        pass := pass + 1;
      }
    }

    /** One stage of prune, after the n stages before it. */
    method PruneStage(limit: P.Limit, isolated: seq<Uint32>, before: seq<Uint32>, ghost s: RepoState, ghost d: A.Disk,
                      ghost n: nat)
      returns (after: seq<Uint32>)
      requires Valid(s)
      requires limit == P.LimitAt(n) && Reached(State(), before, disk, d, P.Stages(s, n, isolated))
      modifies this`pelAttributes, this`sizes, this`disk
      ensures Reached(State(), after, disk, d, P.Stages(s, n + 1, isolated))
    {
      ghost var p := P.Stages(s, n, isolated);
      P.StagesProgress(s, n, isolated);
      after := RemovePELs(limit, isolated, before);
      LogIDsConcat(p.removed, P.RemovePELs(p.state, limit, isolated).removed);
      A.MoveAllConcat(d, p.removed, P.RemovePELs(p.state, limit, isolated).removed);
    }

    method Prune(isolated: seq<Uint32>) returns (obmcLogIDs: seq<Uint32>)
      requires Valid(State())
      modifies this`pelAttributes, this`sizes, this`disk
      ensures State() == P.Prune(old(State()), isolated).state
      ensures Valid(State())
      ensures obmcLogIDs == P.LogIDsOf(P.Prune(old(State()), isolated).removed)
      ensures disk == A.MoveAll(old(disk), P.Prune(old(State()), isolated).removed)
    {
      hide Valid, A.MoveAll, P.Stages, P.LogIDsOf, P.LimitAt;
      ghost var s, d := State(), disk;
      NothingPruned(s, d, isolated);
      obmcLogIDs := PruneStage(P.BmcInfoLimit, isolated, [], s, d, 0);
      obmcLogIDs := PruneStage(P.BmcNonInfoLimit, isolated, obmcLogIDs, s, d, 1);
      obmcLogIDs := PruneStage(P.NonBmcInfoLimit, isolated, obmcLogIDs, s, d, 2);
      obmcLogIDs := PruneStage(P.NonBmcNonInfoLimit, isolated, obmcLogIDs, s, d, 3);
      if |pelAttributes| > maxNumPELs {
        obmcLogIDs := PruneStage(P.TooManyPELs, isolated, obmcLogIDs, s, d, 4);
      }
      P.PruneEffect(s, isolated);
    }

    /** Deletes what can be deleted of the archive. */
    method EmptyArchive(stuck: set<string>)
      modifies this`disk
      ensures disk == old(disk).(archive := A.Emptied(old(disk).archive, stuck), archiveSize := 0)
    {
      ghost var files := disk.archive;
      var i := 0;
      while i < |disk.archive|
        invariant i <= |disk.archive| && disk == old(disk).(archive := disk.archive)
        invariant disk.archive[..i] + A.Emptied(disk.archive[i..], stuck) == A.Emptied(files, stuck)
        decreases |disk.archive| - i
      {
        EmptiedAt(disk.archive, i, stuck);
        if disk.archive[i].name in stuck {
          i := i + 1;
        } else {
          disk := disk.(archive := disk.archive[..i] + disk.archive[i + 1..]);
        }
      }
      disk := disk.(archiveSize := 0);
    }

    /** One file of the archive, kept or deleted. */
    static lemma EmptiedAt(files: seq<A.File>, i: nat, stuck: set<string>)
      requires i < |files|
      ensures files[i].name in stuck ==>
        files[..i + 1] + A.Emptied(files[i + 1..], stuck) == files[..i] + A.Emptied(files[i..], stuck)
      ensures files[i].name !in stuck ==>
        var rest := files[..i] + files[i + 1..];
        rest[..i] + A.Emptied(rest[i..], stuck) == files[..i] + A.Emptied(files[i..], stuck)
    {
      assert files[i..][1..] == files[i + 1..];
      var rest := files[..i] + files[i + 1..];
      assert rest[..i] == files[..i] && rest[i..] == files[i + 1..];
      assert files[..i + 1] == files[..i] + [files[i]];
    }

    /** Empties the archive if it takes the space over the limit, except for the files that
        cannot be deleted; the answer does not depend on it. */
    method SizeWarning(stuck: set<string>) returns (warning: bool)
      modifies this`disk
      ensures warning == P.SizeWarning(State())
      ensures disk == A.AfterWarning(State(), old(disk), stuck)
    {
      if disk.archiveSize > 0 && (sizes.total + disk.archiveSize) % TWO_TO_THE_64 > P.PercentOf(maxRepoSize, 95) {
        EmptyArchive(stuck);
      }
      return sizes.total > P.PercentOf(maxRepoSize, 95) || |pelAttributes| > maxNumPELs;
    }
  }
}
