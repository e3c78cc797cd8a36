/** What creating and deleting entries does, by the stored entries alone: severities,
    numbers and IDs, without the lists that stand for them. */
module LogRules {
  import opened Bytes
  import opened LogState
  import opened Sequences

  /** Informational (6) and debug (7), and what would be below them; all the others, from
      emergency (0) to notice (5), are real errors. */
  predicate IsLow(e: Entry) { !(e.severity <= 5) }

  /** The stored entries of a class. */
  ghost function Class(s: State, low: bool): set<EntryID> {
    set id | id in s.entries && IsLow(s.entries[id]) == low
  }

  lemma {:induction false} AsManyAs(ids: seq<EntryID>, members: set<EntryID>)
    requires Ascending(ids) && forall id :: id in ids <==> id in members
    ensures |ids| == |members|
  {
    if ids == [] {
      assert members == {} by {
        forall id ensures id !in members { assert id !in ids; }
      }
    } else {
      AboveFirst(ids);
      assert ids == [ids[0]] + ids[1..];
      assert ids[0] in members;
      forall id ensures id in ids[1..] <==> id in members - {ids[0]} {
        assert id in ids <==> id == ids[0] || id in ids[1..];
      }
      AsManyAs(ids[1..], members - {ids[0]});
    }
  }

  lemma ListIsClass(s: State, low: bool)
    requires Inv(s)
    ensures |ListOf(s, low)| == |Class(s, low)|
    ensures forall id :: id in ListOf(s, low) <==> id in Class(s, low)
  {
    AsManyAs(ListOf(s, low), Class(s, low));
  }

  /** The cap of the class applies and is reached. */
  ghost predicate Full(s: State, config: Config, low: bool) {
    config.defaultCaps && |Class(s, low)| >= if low then config.infoCap else config.errorCap
  }

  ghost predicate Oldest(s: State, low: bool, id: EntryID) {
    id in Class(s, low) && forall x | x in Class(s, low) :: id <= x
  }

  /** Whether the new entry is to block the host. */
  predicate Blocks(e: Entry, quiesce: bool) { quiesce && e.severity <= 5 && e.callout }

  /** createEntry, by the entries: a class at its cap first loses its oldest entry, and if that
      is prohibited nothing is created; otherwise the entry is stored under the next ID,
      and blocks only if asked to, if it is a real error and if it names a part. */
  lemma CreateByEntries(s: State, config: Config, e: Entry, quiesce: bool, prohibited: set<EntryID>)
    returns (oldest: EntryID)
    requires Inv(s) && Positive(config) && s.entryId < LAST_ID
    ensures Full(s, config, IsLow(e)) ==> Oldest(s, IsLow(e), oldest)
    ensures var r := Create(s, config, e, quiesce, prohibited);
      var full := Full(s, config, IsLow(e));
      var id := s.entryId + 1;
      if full && oldest in prohibited then r == Failed(s)
      else
        && r.Done? && r.value == id && r.state.entryId == id
        && r.state.entries == (if full then s.entries - {oldest} else s.entries)[id := e]
        && (forall b :: b in r.state.blocks <==>
              (b in s.blocks && !(full && b == oldest)) || (b == id && Blocks(e, quiesce)))
        && (id in r.state.infoErrors <==> e.severity >= 6) && (id in r.state.realErrors <==> e.severity <= 5)
  {
    hide Insert, Remove, Class;
    var low := IsLow(e);
    assert IsInfo(e) == low;
    ListIsClass(s, low);
    oldest := 0;
    CreateEffect(s, config, e, quiesce, prohibited);
    if AtCap(s, config, low) {
      oldest := ListOf(s, low)[0];
      OldestInFront(s, low);
      if oldest !in prohibited {
        RemoveKeepsInv(s, oldest);
        BlocksAfterRemoval(s, oldest);
        Inserted(Remove(s, oldest), e, quiesce);
      }
    } else {
      Inserted(s, e, quiesce);
    }
  }

  lemma OldestInFront(s: State, low: bool)
    requires Inv(s) && ListOf(s, low) != []
    ensures Oldest(s, low, ListOf(s, low)[0])
  {
    FrontIsSmallest(s, low);
  }

  lemma BlocksAfterRemoval(s: State, id: EntryID)
    requires Inv(s) && id in s.entries
    ensures forall b :: b in Remove(s, id).blocks <==> b in s.blocks && b != id
  {
    EraseFirstOfDistinct(s.blocks, id);
  }

  lemma Inserted(s: State, e: Entry, quiesce: bool)
    requires Inv(s) && s.entryId < LAST_ID
    ensures var t, id := Insert(s, e, quiesce), s.entryId + 1;
      && (forall b :: b in t.blocks <==> b in s.blocks || (b == id && Blocks(e, quiesce)))
      && (id in t.infoErrors <==> e.severity >= 6) && (id in t.realErrors <==> e.severity <= 5)
  {
    var id := s.entryId + 1;
    assert id !in s.entries && id !in s.blocks && id !in s.infoErrors && id !in s.realErrors;
  }

  /** eraseAll, by the entries. With no isolated IDs everything below the first entry that may
      not be deleted goes, and the call fails if there is one; otherwise everything goes
      but the isolated and the prohibited. What is left keeps its blocks, and the next
      ID follows the highest one left, or stays where it is on failure. */
  lemma EraseAllByEntries(s: State, isolated: set<EntryID>, prohibited: set<EntryID>)
    requires Inv(s)
    ensures var r := EraseAll(s, isolated, prohibited);
      && (forall id :: id in r.state.entries <==>
            && id in s.entries
            && if isolated == {} then !(forall p | p in prohibited && p in s.entries :: id < p)
               else id in isolated || id in prohibited)
      && (forall id | id in r.state.entries :: r.state.entries[id] == s.entries[id])
      && (forall b :: b in r.state.blocks <==> b in s.blocks && b in r.state.entries)
      && (r.Failed? <==> isolated == {} && exists p :: p in prohibited && p in s.entries)
      && (r.Done? ==> r.value == |s.entries| - |r.state.entries|)
      && (if r.Failed? then r.state.entryId == s.entryId
          else if r.state.entries == map[] then r.state.entryId == 0
          else r.state.entryId in r.state.entries)
      && (forall id | id in r.state.entries :: id <= r.state.entryId)
  {
    hide EraseAll, Survivors, Inv;
    EraseAllEffect(s, isolated, prohibited);
    BlocksAfterAll(s, isolated, prohibited);
    NextIDAfterAll(s, isolated, prohibited);
    SurvivorsByEntries(s, isolated, prohibited);
    assert (exists p :: p in prohibited && p in s.entries) <==> !(s.entries.Keys !! prohibited);
  }

  lemma SurvivorsByEntries(s: State, isolated: set<EntryID>, prohibited: set<EntryID>)
    ensures forall id :: id in Survivors(s, isolated, prohibited) <==>
      && id in s.entries
      && if isolated == {} then !(forall p | p in prohibited && p in s.entries :: id < p)
         else id in isolated || id in prohibited
  {}

  lemma NextIDAfterAll(s: State, isolated: set<EntryID>, prohibited: set<EntryID>)
    requires Inv(s)
    ensures var r := EraseAll(s, isolated, prohibited);
      && (if r.Failed? then r.state.entryId == s.entryId
          else if r.state.entries == map[] then r.state.entryId == 0
          else r.state.entryId in r.state.entries)
      && (forall id | id in r.state.entries :: id <= r.state.entryId)
  {
    hide KeepOnly, Survivors, Lists;
    SurvivorsAreKeys(s, isolated, prohibited);
    KeepOnlyKeepsInv(s, Survivors(s, isolated, prohibited));
    KeepsNextID(s, Survivors(s, isolated, prohibited));
    var t := KeepOnly(s, Survivors(s, isolated, prohibited));
    assert t.entries == map[] <==> t.entries.Keys == {};
  }

  lemma KeepsNextID(s: State, keep: set<EntryID>)
    ensures KeepOnly(s, keep).entryId == s.entryId
  {}

  lemma BlocksAfterAll(s: State, isolated: set<EntryID>, prohibited: set<EntryID>)
    requires Inv(s)
    ensures var t := EraseAll(s, isolated, prohibited).state; forall b :: b in t.blocks <==> b in s.blocks && b in t.entries
  {
    FilterOfDistinct(s.blocks, Survivors(s, isolated, prohibited));
    SurvivorsAreKeys(s, isolated, prohibited);
    EraseAllEffect(s, isolated, prohibited);
    hide Lists, Survivors;
  }
}
