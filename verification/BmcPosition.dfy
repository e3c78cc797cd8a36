/** Entry IDs on redundant BMCs: the position of the BMC in the top byte, a count that
    rolls over below it. */
module BmcPosition {
  import opened Wrappers
  import opened Bytes

  const NO_POSITION: Byte := 0xFF
  const PREFIX := 0x100_0000     // one above entryIdValueMask
  const CYCLE := 0xFF_FFFF       // entryIdValueMask, and the number of IDs before a repeat

  function Position(id: Long): Byte { id / PREFIX }

  function Count(id: Long): nat { id % PREFIX }

  /** processEntryId; clock is the nanosecond count used when the position is unknown. */
  function ProcessEntryId(id: Long, position: Byte, clock: Long): Long {
    if position == NO_POSITION then Count(clock) + NO_POSITION * PREFIX
    else if Count(id) == CYCLE then position * PREFIX
    else Count(id) + position * PREFIX
  }

  /** The ID that createEntry uses next: one more, in 32 bits. */
  function NextID(id: Long, position: Byte, clock: Long): Long {
    (ProcessEntryId(id, position, clock) + 1) % 0x1_0000_0000
  }

  /** With a known position every ID carries it, and its count is never zero. */
  lemma NextIDCarriesPosition(id: Long, position: Byte, clock: Long)
    requires position != NO_POSITION
    ensures Position(NextID(id, position, clock)) == position
    ensures Count(NextID(id, position, clock)) == Count(id) % CYCLE + 1
  {}

  /** Without a position the ID carries the marker 0xFF, except when the clock's low 24
      bits are all ones: then the ID wraps to 0. */
  lemma TimeBasedIDMarked(id: Long, clock: Long)
    ensures Count(clock) != CYCLE <==> Position(NextID(id, NO_POSITION, clock)) == NO_POSITION
    ensures Count(clock) == CYCLE <==> NextID(id, NO_POSITION, clock) == 0
  {}

  /** The ID after n creations, whatever the clock says. */
  function NthID(id: Long, position: Byte, n: nat): Long {
    if n == 0 then id else NextID(NthID(id, position, n - 1), position, 0)
  }

  lemma {:induction false} NthIDCount(id: Long, position: Byte, n: nat)
    requires position != NO_POSITION && n > 0
    ensures Position(NthID(id, position, n)) == position
    ensures Count(NthID(id, position, n)) == (Count(id) + n - 1) % CYCLE + 1
  {
    var before := NthID(id, position, n - 1);
    NextIDCarriesPosition(before, position, 0);
    if n > 1 {
      NthIDCount(id, position, n - 1);
      StepOfCount(Count(id) + n - 2);
    }
  }

  lemma StepOfCount(k: nat)
    ensures (k % CYCLE + 1) % CYCLE == (k + 1) % CYCLE
  {}

  lemma SameRemainder(a: nat, b: nat)
    requires a <= b
    ensures a % CYCLE == b % CYCLE <==> (b - a) % CYCLE == 0
  {}

  /** An ID comes round again after 16777215 creations and never sooner. */
  lemma RepeatsExactlyAfterCycle(id: Long, position: Byte, i: nat, j: nat)
    requires position != NO_POSITION && 0 < i <= j
    ensures NthID(id, position, i) == NthID(id, position, j) <==> (j - i) % CYCLE == 0
  {
    hide NthID;
    NthIDCount(id, position, i);
    NthIDCount(id, position, j);
    SameRemainder(Count(id) + i - 1, Count(id) + j - 1);
    SplitID(NthID(id, position, i));
    SplitID(NthID(id, position, j));
  }

  lemma SplitID(id: Long)
    ensures id == Position(id) * PREFIX + Count(id)
  {}

  /** BMCs at different positions never give out the same ID, however many entries
      either creates. */
  lemma PositionsNeverCollide(id: Long, position: Byte, n: nat, otherID: Long, other: Byte, m: nat)
    requires position != NO_POSITION && other != NO_POSITION && position != other && n > 0 && m > 0
    ensures NthID(id, position, n) != NthID(otherID, other, m)
  {
    hide NthID;
    NthIDCount(id, position, n);
    NthIDCount(otherID, other, m);
  }

  /** The next ID is new among this BMC's own entries unless the count rolls over. */
  lemma NewUnlessRolledOver(ids: set<Long>, last: Long, position: Byte, clock: Long)
    requires position != NO_POSITION && Position(last) == position && Count(last) < CYCLE
    requires forall id | id in ids && Position(id) == position :: id <= last
    ensures NextID(last, position, clock) !in ids
  {
    var next := NextID(last, position, clock);
    NextIDCarriesPosition(last, position, clock);
    SplitID(last);
    SplitID(next);
  }

  // ------------------------------------------------------------------ the object

  const SIZE_MAX := 0xFFFF_FFFF_FFFF_FFFF

  class BMCPosMgr {
    var bmcPosition: Byte

    constructor (file: Option<nat>)
      ensures IsPositionValid() <==> file.Some? && file.value % 256 != 255
      ensures IsPositionValid() ==> bmcPosition == file.value % 256
    {
      new;
      ReadBMCPosition(file);
    }

    /** None stands for a position file that is missing or cannot be read. The position is
        known afterwards unless its low byte, which is all that is kept, is the marker: so
        255 and 511 in the file mean unknown just like the largest size_t. */
    method ReadBMCPosition(file: Option<nat>)
      modifies this
      ensures IsPositionValid() <==> file.Some? && file.value % 256 != 255
      ensures IsPositionValid() ==> bmcPosition == file.value % 256
    {
      bmcPosition := NO_POSITION;
      if file.None? { return; }
      var position := file.value;
      if position == SIZE_MAX { return; }
      bmcPosition := position % 256;
    }

    predicate IsPositionValid()
      reads this
    {
      bmcPosition != NO_POSITION
    }

    predicate IdContainsCurrentPosition(id: Long)
      reads this
    {
      Position(id) == bmcPosition
    }

    /** setPrefixInEntryId, then checkEntryIdRollover. */
    method Process(entryId: Long, clock: Long) returns (id: Long)
      ensures id == ProcessEntryId(entryId, bmcPosition, clock)
      ensures IdContainsCurrentPosition(id)
    {
      if !IsPositionValid() {
        return clock % PREFIX + NO_POSITION * PREFIX;
      }
      var prefix := bmcPosition * PREFIX;
      id := entryId % PREFIX;
      id := id + prefix;
      if id % PREFIX == CYCLE {
        id := id - CYCLE;
      }
    }
  }
}
