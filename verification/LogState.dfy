/** The native log manager: entries, the two severity lists with their caps, ID
    allocation on a single BMC, and the blocking objects tied to entries. */
module LogState {
  import opened Bytes
  import opened Sequences

  type EntryID = Long

  const SEV_LOWER_LIMIT := 6  // Entry::Level::Informational
  const LAST_ID: EntryID := 0xFFFF_FFFF

  /** severity is fixed when the entry is made; callout says it names a part. */
  datatype Entry = Entry(severity: Byte, callout: bool, resolved: bool)

  predicate IsInfo(e: Entry) { e.severity >= SEV_LOWER_LIMIT }

  datatype State = State(entries: map<EntryID, Entry>, realErrors: seq<EntryID>, infoErrors: seq<EntryID>,
                         entryId: EntryID, blocks: seq<EntryID>, callbacks: set<EntryID>)

  /** Build configuration and what the environment answers. prohibited holds the IDs
      an extension does not let be deleted. */
  datatype Config = Config(errorCap: nat, infoCap: nat, defaultCaps: bool)

  /** A call that may end in an exception, having changed the state all the same. */
  datatype Outcome<+T> = Done(state: State, value: T) | Failed(state: State)

  function Fresh(): State { State(map[], [], [], 0, [], {}) }

  // --------------------------------------------------------------- operations

  /** checkAndRemoveBlockingError */
  function Unblock(s: State, id: EntryID): State {
    s.(blocks := EraseFirst(s.blocks, id), callbacks := s.callbacks - {id})
  }

  /** The part of erase behind the checks. */
  function Remove(s: State, id: EntryID): State
    requires id in s.entries
  {
    var t := if IsInfo(s.entries[id]) then s.(infoErrors := EraseFirst(s.infoErrors, id))
             else s.(realErrors := EraseFirst(s.realErrors, id));
    Unblock(t.(entries := t.entries - {id}), id)
  }

  function Erase(s: State, id: EntryID, prohibited: set<EntryID>): Outcome<()> {
    if id !in s.entries then Done(s, ())
    else if id in prohibited then Failed(s)
    else Done(Remove(s, id), ())
  }

  /** quiesceOnError */
  function Block(s: State, id: EntryID): State {
    if id in s.blocks then s else s.(blocks := s.blocks + [id], callbacks := s.callbacks + {id})
  }

  function ListOf(s: State, info: bool): seq<EntryID> { if info then s.infoErrors else s.realErrors }

  function CapOf(config: Config, info: bool): nat { if info then config.infoCap else config.errorCap }

  predicate AtCap(s: State, config: Config, info: bool) {
    config.defaultCaps && |ListOf(s, info)| >= CapOf(config, info)
  }

  /** Caps of at least one, so that a list at its cap has a front. */
  predicate Positive(config: Config) { config.errorCap >= 1 && config.infoCap >= 1 }

  /** What createEntry does once there is room: the next ID, in both the list and the map. */
  function Insert(s: State, e: Entry, quiesce: bool): State {
    var id := (s.entryId + 1) % 0x1_0000_0000;
    var t := if IsInfo(e) then s.(entryId := id, infoErrors := s.infoErrors + [id])
             else s.(entryId := id, realErrors := s.realErrors + [id]);
    var u := if quiesce && !IsInfo(e) && e.callout then Block(t, id) else t;
    u.(entries := if id in u.entries then u.entries else u.entries[id := e])
  }

  /** createEntry: at most one entry is evicted first; if that is prohibited, the
      exception leaves nothing created. */
  function Create(s: State, config: Config, e: Entry, quiesce: bool, prohibited: set<EntryID>): Outcome<EntryID>
    requires Positive(config)
  {
    if AtCap(s, config, IsInfo(e)) then
      match Erase(s, ListOf(s, IsInfo(e))[0], prohibited)
      case Failed(t) => Failed(t)
      case Done(t, _) => var u := Insert(t, e, quiesce); Done(u, u.entryId)
    else var u := Insert(s, e, quiesce); Done(u, u.entryId)
  }

  function Filter(ids: seq<EntryID>, keep: set<EntryID>): seq<EntryID> {
    if ids == [] then [] else (if ids[0] in keep then [ids[0]] else []) + Filter(ids[1..], keep)
  }

  /** Everything about the other entries is gone. */
  function KeepOnly(s: State, keep: set<EntryID>): State {
    State(map id | id in s.entries && id in keep :: s.entries[id], Filter(s.realErrors, keep),
          Filter(s.infoErrors, keep), s.entryId, Filter(s.blocks, keep), s.callbacks * keep)
  }

  ghost function HighestID(keys: set<EntryID>): (h: EntryID)
    ensures if keys == {} then h == 0 else h in keys
    ensures forall k | k in keys :: k <= h
    decreases |keys|
  {
    if keys == {} then 0
    else
      var k :| k in keys;
      var rest := HighestID(keys - {k});
      assert forall x | x in keys :: x == k || x in keys - {k};
      if rest < k then k else rest
  }

  /** What eraseAll leaves: with no isolated IDs it stops at the first entry it may not
      delete, otherwise it passes over every one of those. */
  ghost function Survivors(s: State, isolated: set<EntryID>, prohibited: set<EntryID>): set<EntryID> {
    if isolated == {} then set id | id in s.entries && exists p :: p in prohibited && p in s.entries && p <= id
    else s.entries.Keys * (isolated + prohibited)
  }

  /** eraseAll, with the number it returns. */
  ghost function EraseAll(s: State, isolated: set<EntryID>, prohibited: set<EntryID>): Outcome<nat> {
    var t := KeepOnly(s, Survivors(s, isolated, prohibited));
    if isolated != {} then Done(t.(entryId := HighestID(t.entries.Keys)), NumberErased(s, t))
    else if t.entries == map[] then Done(t.(entryId := 0), |s.entries|)
    else Failed(t)
  }

  function NumberErased(s: State, t: State): nat {
    if |t.entries| <= |s.entries| then |s.entries| - |t.entries| else 0
  }

  function Unresolved(s: State): set<EntryID> { set id | id in s.entries && !s.entries[id].resolved }

  /** findAndRemoveResolvedBlocks */
  function RemoveResolvedBlocks(s: State): State {
    var resolved := s.entries.Keys - Unresolved(s);
    s.(blocks := Filter(s.blocks, Unresolved(s)), callbacks := s.callbacks - resolved)
  }

  /** The Resolved property of an entry is set; if the entry is watched, its callback
      runs. */
  function Resolve(s: State, id: EntryID): State {
    if id !in s.entries then s
    else
      var t := s.(entries := s.entries[id := s.entries[id].(resolved := true)]);
      if id in s.callbacks then RemoveResolvedBlocks(t) else t
  }

  /** The process starts again: restore reads the entries back but for those it cannot
      read, takes the highest ID of them for the last one given out, and nothing blocks. */
  ghost function Restarted(s: State, lost: set<EntryID>): State {
    var t := KeepOnly(s, s.entries.Keys - lost);
    State(t.entries, t.realErrors, t.infoErrors, HighestID(t.entries.Keys), [], {})
  }

  // ---------------------------------------------------------------- invariant

  ghost predicate Ascending(ids: seq<EntryID>) {
    forall i, j | 0 <= i < j < |ids| :: ids[i] < ids[j]
  }

  ghost predicate Lists(s: State, ids: seq<EntryID>, info: bool) {
    && Ascending(ids)
    && (forall id | id in ids :: id in s.entries && IsInfo(s.entries[id]) == info)
    && (forall id | id in s.entries && IsInfo(s.entries[id]) == info :: id in ids)
  }

  ghost predicate Blocking(s: State) {
    && (forall i, j | 0 <= i < j < |s.blocks| :: s.blocks[i] != s.blocks[j])
    && (forall id :: id in s.blocks <==> id in s.callbacks)
    && s.callbacks <= s.entries.Keys
  }

  /** The lists hold each entry's ID once, in the list of its severity and in order of
      ID; no ID is above the last one given out; and exactly the blocked entries, all
      of them still there, are watched for being resolved. */
  ghost predicate Inv(s: State) {
    && Lists(s, s.realErrors, false) && Lists(s, s.infoErrors, true)
    && (forall id | id in s.entries :: id <= s.entryId)
    && Blocking(s)
  }

  // ------------------------------------------------------------------- removal

  lemma {:induction false} EraseFirstOfDistinct(ids: seq<EntryID>, id: EntryID)
    requires forall i, j | 0 <= i < j < |ids| :: ids[i] != ids[j]
    ensures forall x :: x in EraseFirst(ids, id) <==> x in ids && x != id
    ensures forall i, j | 0 <= i < j < |EraseFirst(ids, id)| :: EraseFirst(ids, id)[i] != EraseFirst(ids, id)[j]
    ensures |EraseFirst(ids, id)| == if id in ids then |ids| - 1 else |ids|
  {
    if ids != [] {
      if ids[0] == id {
        assert ids == [id] + ids[1..];
      } else {
        EraseFirstOfDistinct(ids[1..], id);
        assert ids == [ids[0]] + ids[1..];
        assert ids[0] !in ids[1..];
      }
    }
  }

  lemma PrependedAscending(first: EntryID, ids: seq<EntryID>)
    requires Ascending(ids) && forall x | x in ids :: first < x
    ensures Ascending([first] + ids)
  {
    forall i, j | 0 <= i < j < |[first] + ids| ensures ([first] + ids)[i] < ([first] + ids)[j] {
      assert ids[j - 1] in ids;
    }
  }

  lemma {:induction false} EraseFirstAscending(ids: seq<EntryID>, id: EntryID)
    requires Ascending(ids)
    ensures Ascending(EraseFirst(ids, id))
  {
    if ids != [] && ids[0] != id {
      EraseFirstAscending(ids[1..], id);
      EraseFirstOfDistinct(ids[1..], id);
      hide EraseFirst, Ascending;
      AboveFirst(ids);
      PrependedAscending(ids[0], EraseFirst(ids[1..], id));
    }
  }

  lemma AboveFirst(ids: seq<EntryID>)
    requires Ascending(ids) && ids != []
    ensures forall x | x in ids[1..] :: ids[0] < x
  {}

  /** erase takes away the entry, its place in the list, its block and its callback, and
      nothing else. */
  lemma RemoveKeepsInv(s: State, id: EntryID)
    requires Inv(s) && id in s.entries
    ensures Inv(Remove(s, id))
    ensures Remove(s, id).entries == s.entries - {id} && Remove(s, id).entryId == s.entryId
    ensures Remove(s, id).callbacks == s.callbacks - {id}
    ensures var info := IsInfo(s.entries[id]);
      |ListOf(Remove(s, id), info)| == |ListOf(s, info)| - 1 && ListOf(Remove(s, id), !info) == ListOf(s, !info)
  {
    EraseFirstOfDistinct(s.realErrors, id);
    EraseFirstOfDistinct(s.infoErrors, id);
    EraseFirstOfDistinct(s.blocks, id);
    EraseFirstAscending(s.realErrors, id);
    EraseFirstAscending(s.infoErrors, id);
  }

  // ------------------------------------------------------------------ creation

  /** How a new entry above all others changes the lists and the blocks. */
  lemma ListGains(s: State, t: State, id: EntryID, e: Entry)
    requires Lists(s, ListOf(s, IsInfo(e)), IsInfo(e)) && t.entries == s.entries[id := e]
    requires forall x | x in s.entries :: x < id
    ensures Lists(t, ListOf(s, IsInfo(e)) + [id], IsInfo(e))
  {
    AppendedAscending(ListOf(s, IsInfo(e)), id);
  }

  lemma ListStays(s: State, t: State, id: EntryID, e: Entry)
    requires Lists(s, ListOf(s, !IsInfo(e)), !IsInfo(e)) && t.entries == s.entries[id := e] && id !in s.entries
    ensures Lists(t, ListOf(s, !IsInfo(e)), !IsInfo(e))
  {}

  lemma BlockingGains(s: State, t: State, id: EntryID, e: Entry)
    requires Blocking(s) && id !in s.entries && t.entries == s.entries[id := e]
    requires t.blocks == s.blocks + [id] && t.callbacks == s.callbacks + {id}
    ensures Blocking(t)
  {
    assert id !in s.callbacks && id !in s.blocks;
    assert forall x :: x in s.blocks + [id] <==> x in s.blocks || x == id;
  }

  lemma InsertKeepsInv(s: State, e: Entry, quiesce: bool)
    requires Inv(s) && s.entryId < LAST_ID
    ensures var t, id := Insert(s, e, quiesce), s.entryId + 1;
      && id !in s.entries && Inv(t) && t.entryId == id && t.entries == s.entries[id := e]
      && t.callbacks == (if quiesce && !IsInfo(e) && e.callout then s.callbacks + {id} else s.callbacks)
      && ListOf(t, IsInfo(e)) == ListOf(s, IsInfo(e)) + [id] && ListOf(t, !IsInfo(e)) == ListOf(s, !IsInfo(e))
  {
    var id, t := s.entryId + 1, Insert(s, e, quiesce);
    assert id !in s.entries && id !in s.callbacks && id !in s.blocks;
    hide Lists, Blocking;
    ListGains(s, t, id, e);
    ListStays(s, t, id, e);
    if quiesce && !IsInfo(e) && e.callout {
      BlockingGains(s, t, id, e);
    } else {
      BlockingStays(s, t, id, e);
    }
  }

  lemma BlockingStays(s: State, t: State, id: EntryID, e: Entry)
    requires Blocking(s) && t.entries == s.entries[id := e] && t.blocks == s.blocks && t.callbacks == s.callbacks
    ensures Blocking(t)
  {}

  /** The new ID keeps everything in order exactly if it does not wrap, or if there is
      no other entry. */
  lemma InsertKeepsInvIff(s: State, e: Entry, quiesce: bool)
    requires Inv(s)
    ensures Inv(Insert(s, e, quiesce)) <==> s.entryId < LAST_ID || s.entries == map[]
  {
    hide Inv, Insert;
    if s.entryId < LAST_ID {
      InsertKeepsInv(s, e, quiesce);
    } else if s.entries == map[] {
      FirstOfAll(s, e, quiesce);
    } else {
      WrapBreaksInv(s, e, quiesce);
    }
  }

  lemma WrapBreaksInv(s: State, e: Entry, quiesce: bool)
    requires Inv(s) && s.entryId == LAST_ID && s.entries != map[]
    ensures !Inv(Insert(s, e, quiesce))
  {
    var t := Insert(s, e, quiesce);
    var id :| id in s.entries;
    assert t.entryId == 0 && id in t.entries && ListOf(t, IsInfo(e)) == ListOf(s, IsInfo(e)) + [0];
    if id == 0 {
      hide Insert;
      AgainInList(s, t, IsInfo(e));
    }
  }

  /** With the ID 0 already there, it would be in a list twice, or in both. */
  lemma AgainInList(s: State, t: State, info: bool)
    requires Inv(s) && 0 in s.entries && t.entries == s.entries
    requires ListOf(t, info) == ListOf(s, info) + [0]
    ensures !Inv(t)
  {
    var ids := ListOf(s, info);
    if IsInfo(s.entries[0]) == info {
      var i :| 0 <= i < |ids| && ids[i] == 0;
      assert (ids + [0])[i] == (ids + [0])[|ids|] == 0;
    } else {
      assert 0 in ids + [0];
    }
  }

  lemma SomeID(ids: seq<EntryID>)
    ensures ids == [] || exists id :: id in ids
  {
    if ids != [] {
      assert ids[0] in ids;
    }
  }

  lemma FirstOfAll(s: State, e: Entry, quiesce: bool)
    requires Inv(s) && s.entries == map[]
    ensures Inv(Insert(s, e, quiesce))
  {
    assert s.callbacks == {};
    SomeID(s.realErrors);
    SomeID(s.infoErrors);
    SomeID(s.blocks);
  }

  lemma AppendedAscending(ids: seq<EntryID>, id: EntryID)
    requires Ascending(ids) && forall x | x in ids :: x < id
    ensures Ascending(ids + [id]) && forall x :: x in ids + [id] <==> x in ids || x == id
  {
    forall i, j | 0 <= i < j < |ids + [id]| ensures (ids + [id])[i] < (ids + [id])[j] {
      assert ids[i] in ids;
    }
  }

  /** The smallest ID of a severity class. */
  ghost predicate IsSmallest(s: State, info: bool, id: EntryID) {
    && id in s.entries && IsInfo(s.entries[id]) == info
    && forall x | x in s.entries && IsInfo(s.entries[x]) == info :: id <= x
  }

  lemma FrontIsSmallest(s: State, info: bool)
    requires Inv(s) && ListOf(s, info) != []
    ensures IsSmallest(s, info, ListOf(s, info)[0])
  {
    var ids := ListOf(s, info);
    forall x | x in s.entries && IsInfo(s.entries[x]) == info ensures ids[0] <= x {
      assert x in ids;
    }
  }

  /** Creating gives an ID that no entry has, keeps every other entry but at most the
      oldest of a class at its cap, and fails exactly if that one must not be deleted. */
  lemma CreateEffect(s: State, config: Config, e: Entry, quiesce: bool, prohibited: set<EntryID>)
    requires Inv(s) && Positive(config) && s.entryId < LAST_ID
    ensures var info, r := IsInfo(e), Create(s, config, e, quiesce, prohibited);
      && Inv(r.state)
      && (r.Failed? <==> AtCap(s, config, info) && ListOf(s, info)[0] in prohibited)
      && (r.Failed? ==> r.state == s)
      && (r.Done? ==> r.value == s.entryId + 1 == r.state.entryId && r.value !in s.entries)
      && (r.Done? && !AtCap(s, config, info) ==> r.state.entries == s.entries[r.value := e])
      && (r.Done? && AtCap(s, config, info) ==>
            IsSmallest(s, info, ListOf(s, info)[0])
            && r.state.entries == (s.entries - {ListOf(s, info)[0]})[r.value := e])
      && (r.Done? ==> |ListOf(r.state, info)| == if AtCap(s, config, info) then |ListOf(s, info)| else |ListOf(s, info)| + 1)
      && |ListOf(r.state, !info)| == |ListOf(s, !info)|
  {
    hide Insert, Remove;
    var info := IsInfo(e);
    if AtCap(s, config, info) {
      var front := ListOf(s, info)[0];
      FrontIsSmallest(s, info);
      if front !in prohibited {
        RemoveKeepsInv(s, front);
        InsertKeepsInv(Remove(s, front), e, quiesce);
      }
    } else {
      InsertKeepsInv(s, e, quiesce);
    }
  }

  // ----------------------------------------------------------------- erase all

  lemma {:induction false} FilterOfDistinct(ids: seq<EntryID>, keep: set<EntryID>)
    ensures forall x :: x in Filter(ids, keep) <==> x in ids && x in keep
    ensures (forall i, j | 0 <= i < j < |ids| :: ids[i] != ids[j]) ==>
      forall i, j | 0 <= i < j < |Filter(ids, keep)| :: Filter(ids, keep)[i] != Filter(ids, keep)[j]
  {
    if ids != [] {
      FilterOfDistinct(ids[1..], keep);
      assert ids == [ids[0]] + ids[1..];
    }
  }

  lemma {:induction false} FilterAscending(ids: seq<EntryID>, keep: set<EntryID>)
    requires Ascending(ids)
    ensures Ascending(Filter(ids, keep))
  {
    if ids != [] {
      FilterAscending(ids[1..], keep);
      FilterOfDistinct(ids[1..], keep);
      AboveFirst(ids);
      hide Ascending;
      if ids[0] in keep {
        PrependedAscending(ids[0], Filter(ids[1..], keep));
      } else {
        assert Filter(ids, keep) == Filter(ids[1..], keep);
      }
    }
  }

  lemma KeepOnlyKeepsInv(s: State, keep: set<EntryID>)
    requires Inv(s)
    ensures Inv(KeepOnly(s, keep)) && KeepOnly(s, keep).entries.Keys == s.entries.Keys * keep
    ensures forall id | id in KeepOnly(s, keep).entries :: KeepOnly(s, keep).entries[id] == s.entries[id]
  {
    FilterAscending(s.realErrors, keep);
    FilterAscending(s.infoErrors, keep);
    FilterOfDistinct(s.realErrors, keep);
    FilterOfDistinct(s.infoErrors, keep);
    FilterOfDistinct(s.blocks, keep);
  }

  lemma NextIDMoved(s: State, id: EntryID)
    requires Inv(s) && forall k | k in s.entries :: k <= id
    ensures Inv(s.(entryId := id))
  {}

  /** eraseAll keeps exactly the survivors, counts exactly those it erased, and leaves
      the next ID above every survivor; only without isolated IDs can it fail. */
  lemma EraseAllEffect(s: State, isolated: set<EntryID>, prohibited: set<EntryID>)
    requires Inv(s)
    ensures var r := EraseAll(s, isolated, prohibited);
      && Inv(r.state) && r.state.entries.Keys == Survivors(s, isolated, prohibited)
      && (forall id | id in r.state.entries :: r.state.entries[id] == s.entries[id])
      && (r.Failed? <==> isolated == {} && !(s.entries.Keys !! prohibited))
      && (r.Done? ==> r.value == |s.entries| - |r.state.entries|)
  {
    hide KeepOnly, Inv, Survivors;
    var keep := Survivors(s, isolated, prohibited);
    var t := KeepOnly(s, keep);
    SurvivorsAreKeys(s, isolated, prohibited);
    KeepOnlyKeepsInv(s, keep);
    NextIDMoved(t, HighestID(t.entries.Keys));
    SubsetSmaller(t.entries.Keys, s.entries.Keys);
    assert |t.entries| == |t.entries.Keys| && |s.entries| == |s.entries.Keys|;
    assert t.entries == map[] <==> t.entries.Keys == {};
    if isolated == {} && t.entries == map[] {
      NextIDMoved(t, 0);
    }
  }

  lemma SurvivorsAreKeys(s: State, isolated: set<EntryID>, prohibited: set<EntryID>)
    ensures Survivors(s, isolated, prohibited) <= s.entries.Keys
    ensures isolated == {} ==> (Survivors(s, isolated, prohibited) == {} <==> s.entries.Keys !! prohibited)
  {
    if isolated == {} {
      forall p | p in s.entries && p in prohibited ensures p in Survivors(s, isolated, prohibited) {}
    }
  }

  lemma SubsetSmaller(a: set<EntryID>, b: set<EntryID>)
    requires a <= b
    ensures |a| <= |b|
  {
    assert b == a + (b - a);
  }

  // ------------------------------------------------------------------- blocks

  /** No entry that was resolved still blocks. */
  ghost predicate NoneResolvedBlocks(s: State) {
    forall id | id in s.blocks :: id in s.entries && !s.entries[id].resolved
  }

  lemma RemoveResolvedKeepsInv(s: State)
    requires Inv(s)
    ensures var t := RemoveResolvedBlocks(s);
      && Inv(t) && t.entries == s.entries && NoneResolvedBlocks(t)
      && (forall id :: id in t.blocks <==> id in s.blocks && !s.entries[id].resolved)
  {
    FilterOfDistinct(s.blocks, Unresolved(s));
  }

  lemma ResolveKeepsInv(s: State, id: EntryID)
    requires Inv(s) && NoneResolvedBlocks(s)
    ensures Inv(Resolve(s, id)) && NoneResolvedBlocks(Resolve(s, id))
    ensures Resolve(s, id).entries.Keys == s.entries.Keys && Resolve(s, id).entryId == s.entryId
    ensures forall b :: b in Resolve(s, id).blocks <==> b in s.blocks && b != id
  {
    if id in s.entries {
      var t := s.(entries := s.entries[id := s.entries[id].(resolved := true)]);
      assert Inv(t);
      if id in s.callbacks {
        RemoveResolvedKeepsInv(t);
      }
    }
  }

  // --------------------------------------------------------------------- runs

  datatype Operation =
    | CreateEntry(severity: Byte, callout: bool, quiesce: bool, prohibited: set<EntryID>)
    | Delete(id: EntryID, prohibited: set<EntryID>)
    | DeleteAll(isolated: set<EntryID>, prohibited: set<EntryID>)
    | SetResolved(id: EntryID)
    | Restart(lost: set<EntryID>)

  ghost function Step(s: State, config: Config, op: Operation): State
    requires Positive(config)
  {
    match op
    case CreateEntry(severity, callout, quiesce, prohibited) =>
      Create(s, config, Entry(severity, callout, false), quiesce, prohibited).state
    case Delete(id, prohibited) => Erase(s, id, prohibited).state
    case DeleteAll(isolated, prohibited) => EraseAll(s, isolated, prohibited).state
    case SetResolved(id) => Resolve(s, id)
    case Restart(lost) => Restarted(s, lost)
  }

  ghost function Run(s: State, config: Config, ops: seq<Operation>): State
    requires Positive(config)
    decreases |ops|
  {
    if ops == [] then s else Run(Step(s, config, ops[0]), config, ops[1..])
  }

  /** The 32-bit ID does not wrap during the run. */
  ghost predicate NoWrap(s: State, config: Config, ops: seq<Operation>)
    requires Positive(config)
    decreases |ops|
  {
    ops == [] || ((ops[0].CreateEntry? ==> s.entryId < LAST_ID) && NoWrap(Step(s, config, ops[0]), config, ops[1..]))
  }

  ghost predicate Good(s: State) { Inv(s) && NoneResolvedBlocks(s) }

  /** Neither list is longer than its cap, or than what it started from. */
  ghost predicate Capped(s: State, config: Config, reals: nat, infos: nat) {
    |s.realErrors| <= Most(config.errorCap, reals) && |s.infoErrors| <= Most(config.infoCap, infos)
  }

  function Most(a: nat, b: nat): nat { if a < b then b else a }

  lemma StepKeepsGood(s: State, config: Config, op: Operation)
    requires Good(s) && Positive(config) && (op.CreateEntry? ==> s.entryId < LAST_ID)
    ensures Good(Step(s, config, op))
  {
    hide Create, EraseAll, Remove, Resolve, Inv, NoneResolvedBlocks, Survivors;
    match op
    case CreateEntry(severity, callout, quiesce, prohibited) =>
      CreateKeepsGood(s, config, Entry(severity, callout, false), quiesce, prohibited);
    case Delete(id, prohibited) =>
      if id in s.entries {
        RemoveKeepsInv(s, id);
        RemoveKeepsBlocks(s, id);
      }
    case DeleteAll(isolated, prohibited) =>
      EraseAllEffect(s, isolated, prohibited);
      EraseAllKeepsBlocks(s, isolated, prohibited);
    case SetResolved(id) => ResolveKeepsInv(s, id);
    case Restart(lost) => RestartKeepsGood(s, lost);
  }

  lemma RestartKeepsGood(s: State, lost: set<EntryID>)
    requires Inv(s)
    ensures Good(Restarted(s, lost))
    ensures Restarted(s, lost).entries.Keys == s.entries.Keys - lost
  {
    KeepOnlyKeepsInv(s, s.entries.Keys - lost);
  }

  lemma RemoveKeepsBlocks(s: State, id: EntryID)
    requires Inv(s) && NoneResolvedBlocks(s) && id in s.entries
    ensures NoneResolvedBlocks(Remove(s, id))
  {
    EraseFirstOfDistinct(s.blocks, id);
  }

  lemma EraseAllKeepsBlocks(s: State, isolated: set<EntryID>, prohibited: set<EntryID>)
    requires Inv(s) && NoneResolvedBlocks(s)
    ensures NoneResolvedBlocks(EraseAll(s, isolated, prohibited).state)
  {
    FilterOfDistinct(s.blocks, Survivors(s, isolated, prohibited));
  }

  lemma InsertKeepsBlocks(s: State, e: Entry, quiesce: bool)
    requires Inv(s) && NoneResolvedBlocks(s) && s.entryId < LAST_ID && !e.resolved
    ensures NoneResolvedBlocks(Insert(s, e, quiesce))
  {}

  lemma CreateKeepsGood(s: State, config: Config, e: Entry, quiesce: bool, prohibited: set<EntryID>)
    requires Good(s) && Positive(config) && s.entryId < LAST_ID && !e.resolved
    ensures Good(Create(s, config, e, quiesce, prohibited).state)
  {
    hide Insert, Remove, Inv, NoneResolvedBlocks;
    CreateEffect(s, config, e, quiesce, prohibited);
    var info := IsInfo(e);
    if AtCap(s, config, info) {
      var front := ListOf(s, info)[0];
      FrontIsSmallest(s, info);
      if front !in prohibited {
        RemoveKeepsInv(s, front);
        RemoveKeepsBlocks(s, front);
        InsertKeepsBlocks(Remove(s, front), e, quiesce);
      }
    } else {
      InsertKeepsBlocks(s, e, quiesce);
    }
  }

  /** Over any run the lists stay a partition of the entries in order of ID, every ID
      given out is new, and what blocks is exactly what is watched, still exists and
      has not been resolved. */
  lemma {:induction false} RunKeepsGood(s: State, config: Config, ops: seq<Operation>)
    requires Good(s) && Positive(config) && NoWrap(s, config, ops)
    ensures Good(Run(s, config, ops))
    decreases |ops|
  {
    hide Good, Step;
    if ops != [] {
      StepKeepsGood(s, config, ops[0]);
      RunKeepsGood(Step(s, config, ops[0]), config, ops[1..]);
    }
  }

  lemma {:induction false} FilterShorter(ids: seq<EntryID>, keep: set<EntryID>)
    ensures |Filter(ids, keep)| <= |ids|
  {
    if ids != [] { FilterShorter(ids[1..], keep); }
  }

  lemma StepKeepsCaps(s: State, config: Config, op: Operation, reals: nat, infos: nat)
    requires Good(s) && Positive(config) && config.defaultCaps && (op.CreateEntry? ==> s.entryId < LAST_ID)
    requires Capped(s, config, reals, infos)
    ensures Capped(Step(s, config, op), config, reals, infos)
  {
    match op
    case CreateEntry(severity, callout, quiesce, prohibited) =>
      CreateEffect(s, config, Entry(severity, callout, false), quiesce, prohibited);
    case Delete(id, prohibited) =>
      if id in s.entries { RemoveKeepsInv(s, id); }
    case DeleteAll(isolated, prohibited) =>
      FilterShorter(s.realErrors, Survivors(s, isolated, prohibited));
      FilterShorter(s.infoErrors, Survivors(s, isolated, prohibited));
    case SetResolved(id) =>
    case Restart(lost) =>
      FilterShorter(s.realErrors, s.entries.Keys - lost);
      FilterShorter(s.infoErrors, s.entries.Keys - lost);
  }

  /** With the default caps on, no list ever outgrows the larger of its cap and its
      length at the start of the run. */
  lemma {:induction false} RunKeepsCaps(s: State, config: Config, ops: seq<Operation>, reals: nat, infos: nat)
    requires Good(s) && Positive(config) && config.defaultCaps && NoWrap(s, config, ops)
    requires Capped(s, config, reals, infos)
    ensures Capped(Run(s, config, ops), config, reals, infos)
    decreases |ops|
  {
    hide Good, Step, Capped;
    if ops != [] {
      StepKeepsGood(s, config, ops[0]);
      StepKeepsCaps(s, config, ops[0], reals, infos);
      RunKeepsCaps(Step(s, config, ops[0]), config, ops[1..], reals, infos);
    }
  }

  /** The IDs that createEntry returned during a run. */
  ghost function Issued(s: State, config: Config, ops: seq<Operation>): seq<EntryID>
    requires Positive(config)
    decreases |ops|
  {
    if ops == [] then []
    else
      var rest := Issued(Step(s, config, ops[0]), config, ops[1..]);
      match ops[0]
      case CreateEntry(severity, callout, quiesce, prohibited) =>
        var r := Create(s, config, Entry(severity, callout, false), quiesce, prohibited);
        if r.Done? then [r.value] + rest else rest
      case _ => rest
  }

  /** The last ID given out is not there any more when everything is deleted at once, or
      after a restart. */
  ghost predicate Rewinds(s: State, op: Operation) {
    match op
    case DeleteAll(isolated, prohibited) =>
      s.entryId > 0 && s.entryId !in Survivors(s, isolated, prohibited) && EraseAll(s, isolated, prohibited).Done?
    case Restart(lost) => s.entryId > 0 && s.entryId !in s.entries.Keys - lost
    case _ => false
  }

  ghost predicate NeverRewinds(s: State, config: Config, ops: seq<Operation>)
    requires Positive(config)
    decreases |ops|
  {
    ops == [] || (!Rewinds(s, ops[0]) && NeverRewinds(Step(s, config, ops[0]), config, ops[1..]))
  }

  /** The number that the next ID is counted up from goes back exactly then. */
  lemma RewindsIff(s: State, config: Config, op: Operation)
    requires Good(s) && Positive(config) && (op.CreateEntry? ==> s.entryId < LAST_ID)
    ensures Step(s, config, op).entryId < s.entryId <==> Rewinds(s, op)
    ensures op.CreateEntry? || Rewinds(s, op) || Step(s, config, op).entryId == s.entryId
  {
    hide Create, EraseAll, Survivors, Restarted, Lists, Blocking, NoneResolvedBlocks, KeepOnly;
    match op
    case CreateEntry(severity, callout, quiesce, prohibited) =>
      CreateEffect(s, config, Entry(severity, callout, false), quiesce, prohibited);
    case Delete(id, prohibited) =>
    case SetResolved(id) =>
    case DeleteAll(isolated, prohibited) =>
      EraseAllNextID(s, isolated, prohibited);
    case Restart(lost) =>
      RestartNextID(s, lost);
  }

  lemma EraseAllNextID(s: State, isolated: set<EntryID>, prohibited: set<EntryID>)
    requires Inv(s)
    ensures var r := EraseAll(s, isolated, prohibited);
      && (r.Failed? ==> r.state.entryId == s.entryId)
      && (r.Done? && s.entryId in Survivors(s, isolated, prohibited) ==> r.state.entryId == s.entryId)
      && (r.Done? && s.entryId !in Survivors(s, isolated, prohibited) && s.entryId > 0 ==> r.state.entryId < s.entryId)
      && (s.entryId == 0 ==> r.state.entryId == 0)
  {
    hide Survivors, Inv;
    EraseAllEffect(s, isolated, prohibited);
    var keep := Survivors(s, isolated, prohibited);
    NotAboveLast(s);
    SurvivorsAreKeys(s, isolated, prohibited);
    KeepOnlyKeepsInv(s, keep);
  }

  lemma NotAboveLast(s: State)
    requires Inv(s)
    ensures forall id | id in s.entries :: id <= s.entryId
  {}

  lemma RestartNextID(s: State, lost: set<EntryID>)
    requires Inv(s)
    ensures var t := Restarted(s, lost);
      && t.entries.Keys == s.entries.Keys - lost && t.entryId == HighestID(t.entries.Keys)
      && (s.entryId in s.entries.Keys - lost ==> t.entryId == s.entryId)
      && (s.entryId !in s.entries.Keys - lost && s.entryId > 0 ==> t.entryId < s.entryId)
      && (s.entryId == 0 ==> t.entryId == 0)
  {
    hide Lists, Blocking;
    KeepOnlyKeepsInv(s, s.entries.Keys - lost);
  }

  /** As long as the last ID given out is still there at every restart and after every
      deletion of everything, no ID is ever given out twice, not even after its entry is
      gone: the IDs go up one by one. */
  lemma {:induction false} IssuedIDsGoUp(s: State, config: Config, ops: seq<Operation>)
    requires Good(s) && Positive(config) && NoWrap(s, config, ops) && NeverRewinds(s, config, ops)
    ensures Ascending(Issued(s, config, ops))
    ensures forall id :: id in Issued(s, config, ops) <==> s.entryId < id <= Run(s, config, ops).entryId
    decreases |ops|
  {
    hide Good, Step, Create, Ascending, Rewinds;
    if ops == [] {
      NothingAscends();
    } else {
      var op, next := ops[0], Step(s, config, ops[0]);
      StepKeepsGood(s, config, op);
      RewindsIff(s, config, op);
      IssuedIDsGoUp(next, config, ops[1..]);
      IDsOnlyGoUp(next, config, ops[1..]);
      if op.CreateEntry? {
        CreateNextID(s, config, op);
        PrependedIfIssued(s, config, ops);
      }
    }
  }

  lemma {:induction false} IDsOnlyGoUp(s: State, config: Config, ops: seq<Operation>)
    requires Good(s) && Positive(config) && NoWrap(s, config, ops) && NeverRewinds(s, config, ops)
    ensures s.entryId <= Run(s, config, ops).entryId
    decreases |ops|
  {
    hide Good, Step, Rewinds;
    if ops != [] {
      StepKeepsGood(s, config, ops[0]);
      RewindsIff(s, config, ops[0]);
      IDsOnlyGoUp(Step(s, config, ops[0]), config, ops[1..]);
    }
  }

  /** A restart gives an ID out again exactly when the entry of the last ID given out is
      gone: after any such run from the beginning that gave out an ID, the next entry
      created gets one of the old IDs if and only if that entry was deleted or lost. */
  lemma RestartReissuesIff(config: Config, ops: seq<Operation>, lost: set<EntryID>, e: Entry, quiesce: bool,
                           prohibited: set<EntryID>)
    requires Positive(config) && NoWrap(Fresh(), config, ops) && NeverRewinds(Fresh(), config, ops)
    requires Issued(Fresh(), config, ops) != []
    ensures var s := Run(Fresh(), config, ops);
      var r := Create(Restarted(s, lost), config, e, quiesce, prohibited);
      r.Done? && s.entryId < LAST_ID ==>
        (r.value in Issued(Fresh(), config, ops) <==> s.entryId !in s.entries.Keys - lost)
  {
    hide Create, Restarted, Issued, Inv, NoneResolvedBlocks, Step;
    var ids, s := Issued(Fresh(), config, ops), Run(Fresh(), config, ops);
    FreshGood();
    RunKeepsGood(Fresh(), config, ops);
    IssuedIDsGoUp(Fresh(), config, ops);
    assert ids[0] in ids;
    RestartKeepsGood(s, lost);
    RestartNextID(s, lost);
    if s.entryId < LAST_ID {
      CreateEffect(Restarted(s, lost), config, e, quiesce, prohibited);
    }
  }

  /** One entry, created and deleted: after a restart the next one has its ID again. */
  lemma DeletedIDComesAgain()
    ensures var config, e := Config(1, 1, false), Entry(0, false, false);
      var ops := [CreateEntry(0, false, false, {}), Delete(1, {})];
      var r := Create(Restarted(Run(Fresh(), config, ops), {}), config, e, false, {});
      Issued(Fresh(), config, ops) == [1] && r.Done? && r.value == 1
  {
    hide HighestID, KeepOnly, Survivors, EraseAll;
    var config, e := Config(1, 1, false), Entry(0, false, false);
    var ops := [CreateEntry(0, false, false, {}), Delete(1, {})];
    var s1 := State(map[1 := e], [1], [], 1, [], {});
    var s2 := State(map[], [], [], 1, [], {});
    assert ops[1..] == [Delete(1, {})] && ops[1..][1..] == [];
    assert Step(Fresh(), config, ops[0]) == s1;
    assert s1.entries - {1} == map[];
    assert Step(s1, config, ops[1]) == s2;
    assert Run(s1, config, ops[1..]) == s2;
    assert Issued(s1, config, ops[1..]) == [];
    FreshGood();
    assert Inv(s2);
    RestartNextID(s2, {});
    assert Restarted(s2, {}).entries.Keys == {};
  }

  lemma FreshGood()
    ensures Good(Fresh())
  {}

  lemma NothingAscends()
    ensures Ascending([])
  {}

  lemma CreateNextID(s: State, config: Config, op: Operation)
    requires Good(s) && Positive(config) && op.CreateEntry? && s.entryId < LAST_ID
    ensures var r := Create(s, config, Entry(op.severity, op.callout, false), op.quiesce, op.prohibited);
      r.state == Step(s, config, op)
      && if r.Done? then s.entryId + 1 == r.value == r.state.entryId else r.state.entryId == s.entryId
  {
    CreateEffect(s, config, Entry(op.severity, op.callout, false), op.quiesce, op.prohibited);
  }

  lemma PrependedIfIssued(s: State, config: Config, ops: seq<Operation>)
    requires Positive(config) && ops != [] && ops[0].CreateEntry?
    requires var next := Step(s, config, ops[0]);
      && Ascending(Issued(next, config, ops[1..])) && s.entryId <= next.entryId <= Run(s, config, ops).entryId
      && (forall id :: id in Issued(next, config, ops[1..]) <==> next.entryId < id <= Run(s, config, ops).entryId)
    requires var r := Create(s, config, Entry(ops[0].severity, ops[0].callout, false), ops[0].quiesce, ops[0].prohibited);
      if r.Done? then s.entryId + 1 == r.value == Step(s, config, ops[0]).entryId
      else Step(s, config, ops[0]).entryId == s.entryId
    ensures Ascending(Issued(s, config, ops))
    ensures forall id :: id in Issued(s, config, ops) <==> s.entryId < id <= Run(s, config, ops).entryId
  {
    hide Step, Create, Ascending;
    var r := Create(s, config, Entry(ops[0].severity, ops[0].callout, false), ops[0].quiesce, ops[0].prohibited);
    if r.Done? {
      PrependedAscending(r.value, Issued(Step(s, config, ops[0]), config, ops[1..]));
    }
  }
}
