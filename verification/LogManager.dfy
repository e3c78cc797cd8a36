/** The log manager object: the loops over its lists and its map, proved against the
    state functions of LogState. */
module LogManagerClass {
  import opened Wrappers
  import opened LogState
  import opened Sequences

  ghost function LeastID(ids: set<EntryID>): (least: EntryID)
    requires ids != {}
    ensures least in ids && forall id | id in ids :: least <= id
    decreases |ids|
  {
    var k :| k in ids;
    assert forall id | id in ids :: id == k || id in ids - {k};
    if ids == {k} then k
    else
      var rest := LeastID(ids - {k});
      if k < rest then k else rest
  }

  /** The first key in iteration order. */
  method Least(ids: set<EntryID>) returns (least: EntryID)
    requires ids != {}
    ensures least in ids && forall id | id in ids :: least <= id
  {
    assert exists l :: l in ids && forall id | id in ids :: l <= id by {
      var l := LeastID(ids);
      assert l in ids;
    }
    least :| least in ids && forall id | id in ids :: least <= id;
  }

  lemma {:induction false} RemoveFromFiltered(ids: seq<EntryID>, keep: set<EntryID>, id: EntryID)
    requires forall i, j | 0 <= i < j < |ids| :: ids[i] != ids[j]
    ensures EraseFirst(Filter(ids, keep), id) == Filter(ids, keep - {id})
  {
    if ids != [] {
      var rest := ids[1..];
      RemoveFromFiltered(rest, keep, id);
      if ids[0] == id && id in keep {
        assert id !in rest;
        FilterAgrees(rest, keep, keep - {id});
        assert Filter(ids, keep)[1..] == Filter(rest, keep);
      } else if ids[0] in keep {
        assert Filter(ids, keep)[1..] == Filter(rest, keep);
      } else {
        assert Filter(ids, keep) == Filter(rest, keep);
      }
    }
  }

  lemma {:induction false} FilterAgrees(ids: seq<EntryID>, a: set<EntryID>, b: set<EntryID>)
    requires forall id | id in ids :: id in a <==> id in b
    ensures Filter(ids, a) == Filter(ids, b)
  {
    if ids != [] {
      FilterAgrees(ids[1..], a, b);
    }
  }

  lemma {:induction false} FilterAll(ids: seq<EntryID>, keep: set<EntryID>)
    requires forall id | id in ids :: id in keep
    ensures Filter(ids, keep) == ids
  {
    if ids != [] {
      assert ids == [ids[0]] + ids[1..];
      FilterAll(ids[1..], keep);
    }
  }

  /** Erasing the entries one by one ends where keeping only the others does. */
  lemma RemoveNarrows(s: State, keep: set<EntryID>, id: EntryID)
    requires Inv(s) && id in s.entries && id in keep
    ensures id in KeepOnly(s, keep).entries && Remove(KeepOnly(s, keep), id) == KeepOnly(s, keep - {id})
  {
    RemoveFromFiltered(s.realErrors, keep, id);
    RemoveFromFiltered(s.infoErrors, keep, id);
    RemoveFromFiltered(s.blocks, keep, id);
    OtherListAgrees(s, keep, id);
    hide Filter, EraseFirst;
    assert KeepOnly(s, keep).entries - {id} == KeepOnly(s, keep - {id}).entries;
    assert KeepOnly(s, keep).callbacks - {id} == KeepOnly(s, keep - {id}).callbacks;
  }

  lemma OtherListAgrees(s: State, keep: set<EntryID>, id: EntryID)
    requires Inv(s) && id in s.entries
    ensures var other := ListOf(s, !IsInfo(s.entries[id])); Filter(other, keep) == Filter(other, keep - {id})
  {
    FilterAgrees(ListOf(s, !IsInfo(s.entries[id])), keep, keep - {id});
  }

  lemma KeepAll(s: State)
    requires Inv(s)
    ensures KeepOnly(s, s.entries.Keys) == s
  {
    hide Filter;
    FilterAll(s.realErrors, s.entries.Keys);
    FilterAll(s.infoErrors, s.entries.Keys);
    FilterAll(s.blocks, s.entries.Keys);
    assert KeepOnly(s, s.entries.Keys).entries == s.entries;
  }

  class Manager {
    var entries: map<EntryID, Entry>
    var realErrors: seq<EntryID>
    var infoErrors: seq<EntryID>
    var entryId: EntryID
    var blockingErrors: seq<EntryID>
    var propChangedEntryCallback: set<EntryID>

    ghost function View(): State
      reads this
    {
      State(entries, realErrors, infoErrors, entryId, blockingErrors, propChangedEntryCallback)
    }

    constructor ()
      ensures View() == Fresh() && Good(View())
    {
      entries, realErrors, infoErrors, entryId, blockingErrors, propChangedEntryCallback := map[], [], [], 0, [], {};
    }

    method CheckAndRemoveBlockingError(id: EntryID)
      modifies this
      ensures View() == Unblock(old(View()), id)
    {
      blockingErrors := FindAndErase(blockingErrors, id);
      propChangedEntryCallback := propChangedEntryCallback - {id};
    }

    /** false stands for the exception that an extension's veto raises. */
    method Erase(id: EntryID, prohibited: set<EntryID>) returns (ok: bool)
      modifies this
      ensures LogState.Erase(old(View()), id, prohibited) == if ok then Done(View(), ()) else Failed(View())
    {
      if id !in entries { return true; }
      if id in prohibited { return false; }
      if entries[id].severity >= SEV_LOWER_LIMIT {
        infoErrors := FindAndErase(infoErrors, id);
      } else {
        realErrors := FindAndErase(realErrors, id);
      }
      entries := entries - {id};
      CheckAndRemoveBlockingError(id);
      return true;
    }

    method QuiesceOnError(id: EntryID)
      modifies this
      ensures View() == Block(old(View()), id)
    {
      for i := 0 to |blockingErrors|
        invariant id !in blockingErrors[..i]
        invariant View() == old(View())
      {
        if blockingErrors[i] == id { return; }
        assert blockingErrors[..i + 1] == blockingErrors[..i] + [blockingErrors[i]];
      }
      assert blockingErrors[..|blockingErrors|] == blockingErrors;
      blockingErrors := blockingErrors + [id];
      propChangedEntryCallback := propChangedEntryCallback + {id};
    }

    method CreateEntry(config: Config, e: Entry, quiesce: bool, prohibited: set<EntryID>) returns (r: Result<EntryID>)
      requires Positive(config)
      modifies this
      ensures Create(old(View()), config, e, quiesce, prohibited)
           == match r case Ok(id) => Done(View(), id) case Thrown => Failed(View())
    {
      if config.defaultCaps {
        if e.severity < SEV_LOWER_LIMIT {
          if |realErrors| >= config.errorCap {
            var ok := Erase(realErrors[0], prohibited);
            if !ok { return Thrown; }
          }
        } else {
          if |infoErrors| >= config.infoCap {
            var ok := Erase(infoErrors[0], prohibited);
            if !ok { return Thrown; }
          }
        }
      }
      entryId := (entryId + 1) % 0x1_0000_0000;
      if e.severity >= SEV_LOWER_LIMIT {
        infoErrors := infoErrors + [entryId];
      } else {
        realErrors := realErrors + [entryId];
      }
      if quiesce && e.severity < SEV_LOWER_LIMIT && e.callout {
        QuiesceOnError(entryId);
      }
      if entryId !in entries {
        entries := entries[entryId := e];
      }
      return Ok(entryId);
    }

    /** The loop of eraseAll when nothing is isolated: the first veto ends it. */
    method EraseEvery(prohibited: set<EntryID>) returns (ok: bool)
      requires Inv(View())
      modifies this
      ensures View() == KeepOnly(old(View()), Survivors(old(View()), {}, prohibited))
      ensures ok <==> entries == map[]
    {
      hide KeepOnly, Remove, Inv, Survivors;
      ghost var s := View();
      var remaining := entries.Keys;
      KeepAll(s);
      while remaining != {}
        invariant remaining <= s.entries.Keys && View() == KeepOnly(s, remaining)
        invariant Passed(s, remaining, prohibited)
        decreases |remaining|
      {
        var e := Least(remaining);
        KeepOnlyKeepsInv(s, remaining);
        RemoveNarrows(s, remaining, e);
        var erased := Erase(e, prohibited);
        if !erased {
          StoppedAt(s, remaining, e, prohibited);
          return false;
        }
        remaining := remaining - {e};
      }
      NoneStopped(s, prohibited);
      KeepOnlyKeepsInv(s, {});
      assert entries.Keys == {};
      return true;
    }

    /** The loop when some entries are isolated: it passes over what it must keep. */
    method EraseOthers(isolated: set<EntryID>, prohibited: set<EntryID>) returns (erased: nat)
      requires Inv(View()) && isolated != {}
      modifies this
      ensures View() == KeepOnly(old(View()), Survivors(old(View()), isolated, prohibited))
      ensures erased + |entries| == |old(entries)|
    {
      hide KeepOnly, Remove, Inv, Survivors;
      ghost var s := View();
      erased := |entries|;
      var remaining := entries.Keys;
      KeepAll(s);
      SparedAtFirst(s, isolated, prohibited);
      while remaining != {}
        invariant remaining <= s.entries.Keys
        invariant View() == KeepOnly(s, Spared(s, remaining, isolated, prohibited))
        invariant erased + |Spared(s, remaining, isolated, prohibited)| == |s.entries.Keys| + |remaining|
        decreases |remaining|
      {
        var e := Least(remaining);
        ghost var spared := Spared(s, remaining, isolated, prohibited);
        KeepOnlyKeepsInv(s, spared);
        RemoveNarrows(s, spared, e);
        SparedNext(s, remaining, e, isolated, prohibited);
        var gone := false;
        if e !in isolated {
          gone := Erase(e, prohibited);
        }
        if !gone {
          erased := erased - 1;
        }
        remaining := remaining - {e};
      }
      SparedAtLast(s, isolated, prohibited);
      KeepOnlyKeepsInv(s, Spared(s, {}, isolated, prohibited));
      assert s.entries.Keys * Spared(s, {}, isolated, prohibited) == Spared(s, {}, isolated, prohibited);
      assert |entries| == |entries.Keys|;
    }

    /** std::ranges::max_element over the keys. */
    method MaxKey() returns (highest: EntryID)
      requires entries != map[]
      ensures highest == HighestID(entries.Keys)
    {
      var remaining := entries.Keys;
      assert remaining != {};
      highest := Least(remaining);
      while remaining != {}
        invariant remaining <= entries.Keys && highest in entries.Keys
        invariant forall id | id in entries.Keys :: id in remaining || id <= highest
        decreases |remaining|
      {
        var e := Least(remaining);
        if highest < e { highest := e; }
        remaining := remaining - {e};
      }
      assert highest <= HighestID(entries.Keys) && HighestID(entries.Keys) in entries.Keys;
    }

    method EraseAll(isolated: set<EntryID>, prohibited: set<EntryID>) returns (r: Result<nat>)
      requires Inv(View())
      modifies this
      ensures LogState.EraseAll(old(View()), isolated, prohibited)
           == match r case Ok(n) => Done(View(), n) case Thrown => Failed(View())
    {
      hide KeepOnly, Inv, Survivors, HighestID;
      if isolated == {} {
        var entriesSize := |entries|;
        var ok := EraseEvery(prohibited);
        if !ok { return Thrown; }
        entryId := 0;
        return Ok(entriesSize);
      }
      var erased := EraseOthers(isolated, prohibited);
      if entries != map[] {
        entryId := MaxKey();
      } else {
        NoHighest();
        entryId := 0;
      }
      return Ok(erased);
    }

    method FindAndRemoveResolvedBlocks()
      requires Inv(View())
      modifies this
      ensures View() == RemoveResolvedBlocks(old(View()))
    {
      hide Filter, EraseFirst, Inv;
      ghost var s := View();
      var remaining := entries.Keys;
      VisitedAtFirst(s);
      while remaining != {}
        invariant remaining <= s.entries.Keys && View() == Visited(s, remaining)
        decreases |remaining|
      {
        var e := Least(remaining);
        VisitedNext(s, remaining, e);
        if entries[e].resolved {
          CheckAndRemoveBlockingError(e);
        }
        remaining := remaining - {e};
      }
      assert {} + Unresolved(s) == Unresolved(s);
    }

    /** restore, from the files found: an entry that cannot be read is skipped. */
    method Restore(files: map<EntryID, Option<Entry>>)
      requires View() == Fresh()
      modifies this
      ensures entries == ReadableIn(files, files.Keys)
      ensures Inv(View()) && blockingErrors == []
      ensures entryId == HighestID(entries.Keys)
    {
      hide Lists, ReadableIn, HighestID, ReadBefore;
      var remaining := files.Keys;
      NothingRestored(files, View());
      while remaining != {}
        invariant remaining <= files.Keys && entryId == 0 && blockingErrors == [] && propChangedEntryCallback == {}
        invariant entries == ReadableIn(files, files.Keys - remaining)
        invariant Lists(View(), realErrors, false) && Lists(View(), infoErrors, true)
        invariant ReadBefore(files.Keys, remaining)
        decreases |remaining|
      {
        var idNum := Least(remaining);
        RestoreNext(files, remaining, idNum);
        if files[idNum].Some? {
          var e := files[idNum].value;
          ghost var after := View().(entries := entries[idNum := e]);
          ListGains(View(), after, idNum, e);
          ListStays(View(), after, idNum, e);
          if e.severity >= SEV_LOWER_LIMIT {
            infoErrors := infoErrors + [idNum];
          } else {
            realErrors := realErrors + [idNum];
          }
          SameLists(after, View().(entries := entries[idNum := e]));
          entries := entries[idNum := e];
        }
        remaining := remaining - {idNum};
      }
      assert files.Keys - {} == files.Keys;
      if entries != map[] {
        entryId := MaxKey();
        SameLists(View().(entryId := 0), View());
      } else {
        NoHighest();
      }
    }
  }

  ghost predicate ReadBefore(ids: set<EntryID>, remaining: set<EntryID>) {
    forall id, later | id in ids && id !in remaining && later in remaining :: id < later
  }

  /** The entries among some of the files. */
  ghost function ReadableIn(files: map<EntryID, Option<Entry>>, ids: set<EntryID>): map<EntryID, Entry> {
    map id | id in files && id in ids && files[id].Some? :: files[id].value
  }

  lemma NothingRestored(files: map<EntryID, Option<Entry>>, s: State)
    requires s == Fresh()
    ensures ReadableIn(files, files.Keys - files.Keys) == map[]
    ensures Lists(s, [], false) && Lists(s, [], true)
    ensures ReadBefore(files.Keys, files.Keys)
  {}

  lemma RestoreNext(files: map<EntryID, Option<Entry>>, remaining: set<EntryID>, id: EntryID)
    requires remaining <= files.Keys && id in remaining
    requires ReadBefore(files.Keys, remaining) && forall later | later in remaining :: id <= later
    ensures ReadBefore(files.Keys, remaining - {id})
    ensures var before, after := ReadableIn(files, files.Keys - remaining), ReadableIn(files, files.Keys - (remaining - {id}));
      && id !in before && (forall x | x in before :: x < id)
      && after == if files[id].Some? then before[id := files[id].value] else before
  {}

  /** Lists speaks of the entries only. */
  lemma SameLists(s: State, t: State)
    requires s.entries == t.entries
    ensures forall ids, info :: Lists(s, ids, info) == Lists(t, ids, info)
  {}

  /** What the loop has kept and what it has not looked at. */
  ghost function Spared(s: State, remaining: set<EntryID>, isolated: set<EntryID>, prohibited: set<EntryID>): set<EntryID> {
    set id | id in s.entries && (id in remaining || id in isolated || id in prohibited)
  }

  lemma SparedAtFirst(s: State, isolated: set<EntryID>, prohibited: set<EntryID>)
    ensures Spared(s, s.entries.Keys, isolated, prohibited) == s.entries.Keys
    ensures |s.entries| == |s.entries.Keys|
  {}

  lemma SparedNext(s: State, remaining: set<EntryID>, e: EntryID, isolated: set<EntryID>, prohibited: set<EntryID>)
    requires remaining <= s.entries.Keys && e in remaining
    ensures var spared, next := Spared(s, remaining, isolated, prohibited), Spared(s, remaining - {e}, isolated, prohibited);
      e in spared && next == if e in isolated || e in prohibited then spared else spared - {e}
    ensures |remaining - {e}| == |remaining| - 1
    ensures |Spared(s, remaining, isolated, prohibited)| <= |s.entries.Keys|
  {
    SubsetSmaller(Spared(s, remaining, isolated, prohibited), s.entries.Keys);
  }

  lemma SparedAtLast(s: State, isolated: set<EntryID>, prohibited: set<EntryID>)
    requires isolated != {}
    ensures Spared(s, {}, isolated, prohibited) == Survivors(s, isolated, prohibited)
  {}

  /** The state once all but the remaining entries were looked at. */
  ghost function Visited(s: State, remaining: set<EntryID>): State {
    s.(blocks := Filter(s.blocks, remaining + Unresolved(s)),
       callbacks := s.callbacks - (s.entries.Keys - (remaining + Unresolved(s))))
  }

  lemma VisitedAtFirst(s: State)
    requires Inv(s)
    ensures Visited(s, s.entries.Keys) == s
  {
    FilterAll(s.blocks, s.entries.Keys + Unresolved(s));
    assert s.entries.Keys - (s.entries.Keys + Unresolved(s)) == {};
  }

  lemma VisitedNext(s: State, remaining: set<EntryID>, e: EntryID)
    requires Inv(s) && remaining <= s.entries.Keys && e in remaining
    ensures Visited(s, remaining - {e})
         == if s.entries[e].resolved then Unblock(Visited(s, remaining), e) else Visited(s, remaining)
  {
    var keep := remaining + Unresolved(s);
    if s.entries[e].resolved {
      RemoveFromFiltered(s.blocks, keep, e);
      assert keep - {e} == remaining - {e} + Unresolved(s);
      assert s.callbacks - (s.entries.Keys - (keep - {e})) == s.callbacks - (s.entries.Keys - keep) - {e};
    } else {
      assert keep == remaining - {e} + Unresolved(s);
    }
  }

  lemma NoHighest()
    ensures HighestID({}) == 0
  {}

  /** What the loop has passed could all be deleted and came before what remains. */
  ghost predicate Passed(s: State, remaining: set<EntryID>, prohibited: set<EntryID>) {
    forall id | id in s.entries && id !in remaining :: id !in prohibited && forall later | later in remaining :: id < later
  }

  lemma StoppedAt(s: State, remaining: set<EntryID>, e: EntryID, prohibited: set<EntryID>)
    requires remaining <= s.entries.Keys && Passed(s, remaining, prohibited)
    requires e in remaining && e in prohibited && forall id | id in remaining :: e <= id
    ensures remaining == Survivors(s, {}, prohibited)
  {
    forall id ensures id in remaining <==> id in Survivors(s, {}, prohibited) {
      if id in remaining {
        assert e in prohibited && e in s.entries && e <= id;
      }
    }
  }

  lemma NoneStopped(s: State, prohibited: set<EntryID>)
    requires Passed(s, {}, prohibited)
    ensures Survivors(s, {}, prohibited) == {}
  {}

  // -------------------------------------------------------- restore is the restart

  lemma {:induction false} SameAscending(a: seq<EntryID>, b: seq<EntryID>)
    requires Ascending(a) && Ascending(b) && forall id :: id in a <==> id in b
    ensures a == b
  {
    if a == [] {
      SomeID(b);
    } else {
      assert a[0] in a && a[0] in b;
      assert b[0] in b && b[0] in a;
      assert a == [a[0]] + a[1..] && b == [b[0]] + b[1..];
      assert forall id :: id in a[1..] <==> id in a && id != a[0];
      assert forall id :: id in b[1..] <==> id in b && id != b[0];
      SameAscending(a[1..], b[1..]);
    }
  }

  /** What Restore gives from the files of a running manager is what the restart of it
      leads to: the entries decide the lists. */
  lemma RestoreIsRestart(s: State, lost: set<EntryID>, files: map<EntryID, Option<Entry>>, restored: State)
    requires Good(s) && files.Keys == s.entries.Keys
    requires forall id | id in files :: files[id] == if id in lost then None else Some(s.entries[id])
    requires restored.entries == ReadableIn(files, files.Keys) && Inv(restored)
    requires restored.blocks == [] && restored.entryId == HighestID(restored.entries.Keys)
    ensures restored == Restarted(s, lost)
  {
    hide ReadableIn, Filter, Lists, Blocking, HighestID;
    RestartKeepsGood(s, lost);
    var t := Restarted(s, lost);
    ReadableAgain(s, lost, files);
    SameEntriesSameLists(restored, t);
    NoneWatched(restored);
  }

  lemma ReadableAgain(s: State, lost: set<EntryID>, files: map<EntryID, Option<Entry>>)
    requires files.Keys == s.entries.Keys
    requires forall id | id in files :: files[id] == if id in lost then None else Some(s.entries[id])
    ensures ReadableIn(files, files.Keys) == KeepOnly(s, s.entries.Keys - lost).entries
  {}

  lemma SameEntriesSameLists(s: State, t: State)
    requires Inv(s) && Inv(t) && s.entries == t.entries
    ensures s.realErrors == t.realErrors && s.infoErrors == t.infoErrors
  {
    hide Ascending, Blocking;
    SameAscending(s.realErrors, t.realErrors);
    SameAscending(s.infoErrors, t.infoErrors);
  }

  lemma NoneWatched(s: State)
    requires Inv(s) && s.blocks == []
    ensures s.callbacks == {}
  {
    assert forall id :: id !in s.blocks;
  }
}
