/** The list of callouts in an SRC: duplicates, the cap of ten, the word length and
    the order by priority, kept by every addition. */
module CalloutList {
  import opened Wrappers
  import opened Bytes
  import opened CalloutFormat
  import opened CalloutBuilding

  const CALLOUTS_SUBSECTION_ID: Byte := 0xC0
  const MAX_NUMBER_OF_CALLOUTS := 10

  function Empty(): Callouts { Callouts(CALLOUTS_SUBSECTION_ID, 0, 1, []) }

  // ------------------------------------------------------------------- adding

  /** The first callout that c is the same as, |cs| if there is none. */
  function IndexOfSame(cs: seq<Callout>, c: Callout): (i: nat)
    ensures i <= |cs|
    ensures i < |cs| ==> Same(c, cs[i])
    ensures forall k | 0 <= k < i :: !Same(c, cs[k])
  {
    if cs == [] || Same(c, cs[0]) then 0 else 1 + IndexOfSame(cs[1..], c)
  }

  /** The list before it is sorted again. */
  function Merge(cs: seq<Callout>, c: Callout): seq<Callout> {
    var i := IndexOfSame(cs, c);
    if i < |cs| then (if Higher(c, cs[i]) then cs[i := cs[i].(priority := c.priority)] else cs)
    else if |cs| < MAX_NUMBER_OF_CALLOUTS then cs + [c]
    else cs
  }

  function WordsAdded(cs: seq<Callout>, c: Callout): nat {
    if IndexOfSame(cs, c) == |cs| < MAX_NUMBER_OF_CALLOUTS then CalloutSize(c) / 4 else 0
  }

  ghost predicate Descending(cs: seq<Callout>) {
    forall i, j | 0 <= i < j < |cs| :: !Higher(cs[j], cs[i])
  }

  /** after is what addCallout(c) makes of the list, in some order. */
  ghost predicate Merged(before: Callouts, c: Callout, after: Callouts) {
    && after.subsectionID == before.subsectionID && after.subsectionFlags == before.subsectionFlags
    && after.wordLength == (before.wordLength + WordsAdded(before.callouts, c)) % 0x1_0000
    && multiset(after.callouts) == multiset(Merge(before.callouts, c))
  }

  /** after is one possible outcome of addCallout(c): the sort may leave callouts
      of equal rank in any order. */
  ghost predicate Added(before: Callouts, c: Callout, after: Callouts) {
    Merged(before, c, after) && Descending(after.callouts)
  }

  ghost predicate AllKnown(cs: seq<Callout>) { forall c | c in cs :: KnownPriority(c.priority) }

  // ---------------------------------------------------------------- invariant

  /** No two entries are the same callout, whichever way round they are compared. */
  ghost predicate Distinct(cs: seq<Callout>) {
    forall i, j | 0 <= i < |cs| && 0 <= j < |cs| && i != j :: !Same(cs[i], cs[j])
  }

  ghost predicate AllWellBuilt(cs: seq<Callout>) {
    forall c | c in cs :: WellBuilt(c)
  }

  ghost predicate Inv(cs: Callouts) {
    && cs.subsectionID == CALLOUTS_SUBSECTION_ID && cs.subsectionFlags == 0
    && |cs.callouts| <= MAX_NUMBER_OF_CALLOUTS
    && AllWellBuilt(cs.callouts) && Distinct(cs.callouts) && Descending(cs.callouts)
    && cs.wordLength * 4 == 4 + SumOfSizes(cs.callouts)
  }

  lemma {:induction false} SumOfSizesSplit(a: seq<Callout>, b: seq<Callout>)
    ensures SumOfSizes(a + b) == SumOfSizes(a) + SumOfSizes(b)
  {
    hide CalloutSize;
    if a == [] {
      assert a + b == b;
    } else {
      assert (a + b)[1..] == a[1..] + b;
      SumOfSizesSplit(a[1..], b);
    }
  }

  function Without(cs: seq<Callout>, i: nat): seq<Callout>
    requires i < |cs|
  {
    cs[..i] + cs[i + 1..]
  }

  lemma WithoutAt(cs: seq<Callout>, i: nat)
    requires i < |cs|
    ensures cs == cs[..i] + ([cs[i]] + cs[i + 1..])
    ensures multiset(cs) == multiset(Without(cs, i)) + multiset{cs[i]}
  {
    assert cs == cs[..i] + ([cs[i]] + cs[i + 1..]);
  }

  lemma SumOfSizesAt(cs: seq<Callout>, i: nat)
    requires i < |cs|
    ensures SumOfSizes(cs) == CalloutSize(cs[i]) + SumOfSizes(Without(cs, i))
  {
    hide CalloutSize;
    var front, c, back := cs[..i], cs[i], cs[i + 1..];
    WithoutAt(cs, i);
    SumOfSizesSplit(front, [c] + back);
    SumOfSizesSplit([c], back);
    SumOfSizesSplit(front, back);
  }

  lemma SameWithout(a: seq<Callout>, b: seq<Callout>, i: nat)
    requires multiset(a) == multiset(b) && a != [] && i < |b| && b[i] == a[0]
    ensures multiset(a[1..]) == multiset(Without(b, i))
  {
    assert a == [a[0]] + a[1..];
    WithoutAt(b, i);
    Cancel(multiset(a[1..]), multiset(Without(b, i)), a[0]);
  }

  lemma Cancel(x: multiset<Callout>, y: multiset<Callout>, c: Callout)
    requires x + multiset{c} == y + multiset{c}
    ensures x == y
  {
    assert x == (x + multiset{c}) - multiset{c};
    assert y == (y + multiset{c}) - multiset{c};
  }

  /** The sum does not depend on the order. */
  lemma {:induction false} SumOfSizesReordered(a: seq<Callout>, b: seq<Callout>)
    requires multiset(a) == multiset(b)
    ensures SumOfSizes(a) == SumOfSizes(b) && |a| == |b|
    decreases |a|
  {
    hide CalloutSize;
    assert |multiset(a)| == |a| && |multiset(b)| == |b|;
    if a != [] {
      assert a[0] in multiset(b);
      var i :| 0 <= i < |b| && b[i] == a[0];
      SameWithout(a, b, i);
      SumOfSizesReordered(a[1..], Without(b, i));
      SumOfSizesAt(b, i);
    }
  }

  lemma {:induction false} SumOfSizesBound(cs: seq<Callout>)
    requires AllWellBuilt(cs)
    ensures SumOfSizes(cs) % 4 == 0 && SumOfSizes(cs) <= 240 * |cs|
  {
    if cs != [] {
      assert cs[0] in cs;
      SumOfSizesBound(cs[1..]);
    }
  }

  /** Distinctness does not depend on the order. */
  lemma DistinctReordered(a: seq<Callout>, b: seq<Callout>)
    requires multiset(a) == multiset(b) && Distinct(a) && AllWellBuilt(a)
    ensures Distinct(b)
  {
    hide Same, WellBuilt;
    forall i, j | 0 <= i < |b| && 0 <= j < |b| && i != j ensures !Same(b[i], b[j]) {
      if b[i] == b[j] {
        TwiceIn(b, i, j);
        var k, l := TwoPlaces(a, b[i]);
        assert !Same(a[k], a[l]);
      } else {
        assert b[i] in multiset(a) && b[j] in multiset(a);
        var k :| 0 <= k < |a| && a[k] == b[i];
        var l :| 0 <= l < |a| && a[l] == b[j];
        assert k != l && !Same(a[k], a[l]);
      }
    }
  }

  lemma TwiceIn(b: seq<Callout>, i: nat, j: nat)
    requires i < |b| && j < |b| && i != j && b[i] == b[j]
    ensures multiset(b)[b[i]] >= 2
  {
    var lo, hi := if i < j then i else j, if i < j then j else i;
    assert b == b[..lo] + [b[lo]] + b[lo + 1..hi] + [b[hi]] + b[hi + 1..];
  }

  lemma {:induction false} TwoPlaces(a: seq<Callout>, c: Callout) returns (k: nat, l: nat)
    requires multiset(a)[c] >= 2
    ensures k < |a| && l < |a| && k != l && a[k] == c && a[l] == c
  {
    assert c in multiset(a);
    k :| k < |a| && a[k] == c;
    var rest := Without(a, k);
    WithoutAt(a, k);
    assert c in multiset(rest);
    var m: nat :| m < |rest| && rest[m] == c;
    l := if m < k then m else m + 1;
  }

  // ------------------------------------------------------- what merging does

  /** Raising the priority changes neither the identity nor the size of a callout. */
  lemma RaisedStaysWellBuilt(entry: Callout, c: Callout)
    requires WellBuilt(entry) && WellBuilt(c)
    ensures var raised := entry.(priority := c.priority);
      && WellBuilt(raised) && CalloutSize(raised) == CalloutSize(entry)
      && (forall d :: Same(raised, d) == Same(entry, d) && Same(d, raised) == Same(d, entry))
  {}

  lemma MergeRaises(cs: seq<Callout>, c: Callout, i: nat)
    requires AllWellBuilt(cs) && WellBuilt(c) && Distinct(cs) && i < |cs|
    ensures var raised := cs[i := cs[i].(priority := c.priority)];
      AllWellBuilt(raised) && Distinct(raised) && SumOfSizes(raised) == SumOfSizes(cs)
  {
    assert cs[i] in cs;
    RaisedStaysWellBuilt(cs[i], c);
    var raised := cs[i := cs[i].(priority := c.priority)];
    hide Same, WellBuilt, CalloutSize;
    SumOfSizesAt(cs, i);
    SumOfSizesAt(raised, i);
    assert Without(raised, i) == Without(cs, i);
    forall d | d in raised ensures WellBuilt(d) {
      if d != raised[i] { assert d in cs; }
    }
  }

  lemma MergeAppends(cs: seq<Callout>, c: Callout)
    requires AllWellBuilt(cs) && WellBuilt(c) && Distinct(cs) && IndexOfSame(cs, c) == |cs|
    ensures AllWellBuilt(cs + [c]) && Distinct(cs + [c])
    ensures SumOfSizes(cs + [c]) == SumOfSizes(cs) + CalloutSize(c)
  {
    forall k | 0 <= k < |cs| ensures !Same(cs[k], c) {
      assert cs[k] in cs;
      SameIsSymmetric(cs[k], c);
    }
    hide Same, WellBuilt, CalloutSize;
    SumOfSizesSplit(cs, [c]);
  }

  lemma MergeKeeps(cs: seq<Callout>, c: Callout)
    requires AllWellBuilt(cs) && WellBuilt(c) && Distinct(cs) && |cs| <= MAX_NUMBER_OF_CALLOUTS
    ensures AllWellBuilt(Merge(cs, c)) && Distinct(Merge(cs, c)) && |Merge(cs, c)| <= MAX_NUMBER_OF_CALLOUTS
    ensures SumOfSizes(Merge(cs, c)) == SumOfSizes(cs) + 4 * WordsAdded(cs, c)
  {
    assert CalloutSize(c) % 4 == 0;
    var i := IndexOfSame(cs, c);
    hide Same, WellBuilt, CalloutSize;
    if i < |cs| {
      MergeRaises(cs, c, i);
    } else {
      MergeAppends(cs, c);
    }
  }

  /** Adding a callout keeps the list in order, free of duplicates, at most ten long
      and correctly measured, however the sort breaks ties. */
  lemma AddKeepsInv(before: Callouts, c: Callout, after: Callouts)
    requires Inv(before) && WellBuilt(c) && Added(before, c, after)
    ensures Inv(after)
  {
    hide WellBuilt, CalloutSize, Merge, WordsAdded, Distinct, Descending, AllWellBuilt, SumOfSizes;
    var merged := Merge(before.callouts, c);
    MergeKeeps(before.callouts, c);
    SumOfSizesReordered(after.callouts, merged);
    DistinctReordered(merged, after.callouts);
    WellBuiltReordered(merged, after.callouts);
    SumOfSizesBound(merged);
  }

  lemma WellBuiltReordered(a: seq<Callout>, b: seq<Callout>)
    requires multiset(a) == multiset(b) && AllWellBuilt(a)
    ensures AllWellBuilt(b)
  {
    hide WellBuilt;
    forall d | d in b ensures WellBuilt(d) {
      assert d in multiset(b);
      assert d in a;
    }
  }

  // ------------------------------------------------------ what an addition does

  function Max(a: int, b: int): int { if a < b then b else a }

  /** A duplicate changes one thing only: the one entry that is the same takes the
      higher of the two ranks. */
  lemma DuplicateTakesHigherRank(cs: seq<Callout>, c: Callout)
    requires AllWellBuilt(cs) && WellBuilt(c)
    requires IndexOfSame(cs, c) < |cs|
    ensures var i := IndexOfSame(cs, c);
      && |Merge(cs, c)| == |cs|
      && RankOf(Merge(cs, c)[i]) == Max(RankOf(cs[i]), RankOf(c))
      && Merge(cs, c)[i] == cs[i].(priority := Merge(cs, c)[i].priority)
      && (forall k | 0 <= k < |cs| && k != i :: Merge(cs, c)[k] == cs[k])
  {
    assert cs[IndexOfSame(cs, c)] in cs;
  }

  /** By the letters: all 'H' in front, all 'L' behind, the medium priorities between. */
  lemma OrderedByLetters(cs: Callouts)
    requires Inv(cs)
    ensures forall i, j | 0 <= i < j < |cs.callouts| ::
      && (cs.callouts[j].priority as char == 'H' ==> cs.callouts[i].priority as char == 'H')
      && (cs.callouts[i].priority as char == 'L' ==> cs.callouts[j].priority as char == 'L')
  {
    hide Same, SumOfSizes, Distinct;
    assert forall i | 0 <= i < |cs.callouts| :: cs.callouts[i] in cs.callouts && KnownPriority(cs.callouts[i].priority);
  }

  /** By the letters: a duplicate turns the entry to 'H' if it is 'H' itself, turns an 'L' to
      whatever it has, and leaves a medium priority at any other; a callout that is no
      duplicate goes in as the last of at most ten. */
  lemma MergeByLetters(cs: seq<Callout>, c: Callout)
    requires AllWellBuilt(cs) && WellBuilt(c)
    ensures var i := IndexOfSame(cs, c);
      if i < |cs| then
        var raised := c.priority as char == 'H' || cs[i].priority as char == 'L';
        Merge(cs, c) == if raised then cs[i := cs[i].(priority := c.priority)] else cs
      else Merge(cs, c) == if |cs| < 10 then cs + [c] else cs
  {
    hide Same;
    var i := IndexOfSame(cs, c);
    if i < |cs| {
      assert cs[i] in cs;
      if cs[i].priority == c.priority { assert cs[i := cs[i].(priority := c.priority)] == cs; }
    }
  }

  /** Every list that additions of built callouts produce, one after the other. */
  ghost predicate Grown(news: seq<NewCallout>, registry: Registry, lists: seq<Callouts>) {
    && |lists| == |news| + 1 && lists[0] == Empty()
    && forall i | 0 <= i < |news| :: Added(lists[i], Build(news[i], registry), lists[i + 1])
  }

  lemma EmptyInv()
    ensures Inv(Empty())
  {}

  lemma {:induction false} GrownKeepsInv(news: seq<NewCallout>, registry: Registry, lists: seq<Callouts>, i: nat)
    requires Grown(news, registry, lists) && i < |lists|
    ensures Inv(lists[i])
  {
    hide Inv, Build, Added, WellBuilt;
    if i == 0 {
      EmptyInv();
    } else {
      GrownKeepsInv(news, registry, lists, i - 1);
      BuiltIsWellBuilt(news[i - 1], registry);
      AddKeepsInv(lists[i - 1], Build(news[i - 1], registry), lists[i]);
    }
  }

  /** Whatever callouts were added, parsing the printed list gives it back and
      stops where the word length says. */
  lemma GrownListRoundTrips(news: seq<NewCallout>, registry: Registry, lists: seq<Callouts>, i: nat, tail: seq<Byte>)
    requires Grown(news, registry, lists) && i < |lists|
    ensures ParseCallouts(FlattenCallouts(lists[i]) + tail) == Ok(Read(lists[i], tail))
    ensures |FlattenCallouts(lists[i])| == lists[i].wordLength * 4
  {
    GrownKeepsInv(news, registry, lists, i);
    assert WellFormedCallouts(lists[i]) by {
      hide WellFormed, CalloutSize;
    }
    hide ParseCallouts, FlattenCallouts;
    CalloutsRoundTrip(lists[i], tail);
  }

  // ------------------------------------------------------ what is left at the end

  /** The identity a callout carries. */
  function Carried(c: Callout): Identity {
    if c.locationCode != [] || c.fru.None? then AtLocation(LocationText(c))
    else if HasMP(c.fru.value.flags) then OfProcedure(CString(c.fru.value.pnOrProcedureID))
    else OfPart(CString(c.fru.value.pnOrProcedureID))
  }

  lemma CarriedIsIdentity(n: NewCallout, registry: Registry)
    ensures Carried(Build(n, registry)) == IdentityOf(n, registry)
  {
    LocationKept(Location(n));
    LocationFieldFits(Location(n));
    BuiltFRU(n, registry);
    BuiltName(n, registry);
  }

  lemma SameIffCarriedSame(a: Callout, b: Callout)
    requires WellBuilt(a) && WellBuilt(b)
    requires Carried(a) != AtLocation([]) && Carried(b) != AtLocation([])
    ensures Same(a, b) <==> Carried(a) == Carried(b)
  {}

  /** The first ten identities asked for, in the order they came. */
  function Kept(news: seq<NewCallout>, registry: Registry): seq<Identity> {
    if news == [] then []
    else
      var kept, id := Kept(news[..|news| - 1], registry), IdentityOf(news[|news| - 1], registry);
      if id in kept || |kept| == MAX_NUMBER_OF_CALLOUTS then kept else kept + [id]
  }

  function RankOfNew(n: NewCallout): int { if n.priority == High then 10 else if n.priority == Low then 8 else 9 }

  /** The highest rank asked for that identity, 0 if it never was. */
  function BestRank(news: seq<NewCallout>, registry: Registry, id: Identity): int {
    if news == [] then 0
    else
      var last, best := news[|news| - 1], BestRank(news[..|news| - 1], registry, id);
      if IdentityOf(last, registry) == id then Max(best, RankOfNew(last)) else best
  }

  lemma {:induction false} AskedIsKept(news: seq<NewCallout>, registry: Registry, id: Identity)
    requires |Kept(news, registry)| < MAX_NUMBER_OF_CALLOUTS && BestRank(news, registry, id) > 0
    ensures id in Kept(news, registry)
  {
    hide IdentityOf;
    if news != [] && IdentityOf(news[|news| - 1], registry) != id {
      AskedIsKept(news[..|news| - 1], registry, id);
    }
  }

  /** One entry for every identity kept, at the best rank asked for it. */
  ghost predicate Summary(cs: seq<Callout>, news: seq<NewCallout>, registry: Registry) {
    && |cs| == |Kept(news, registry)|
    && (forall c | c in cs :: Carried(c) in Kept(news, registry) && RankOf(c) == BestRank(news, registry, Carried(c)))
    && (forall id | id in Kept(news, registry) :: exists c :: c in cs && Carried(c) == id)
  }

  ghost predicate Plain(cs: seq<Callout>) {
    forall c | c in cs :: Carried(c) != AtLocation([])
  }

  lemma FoundIffCarried(cs: seq<Callout>, c: Callout)
    requires AllWellBuilt(cs) && WellBuilt(c) && Plain(cs) && Carried(c) != AtLocation([])
    ensures IndexOfSame(cs, c) < |cs| ==> Carried(cs[IndexOfSame(cs, c)]) == Carried(c)
    ensures IndexOfSame(cs, c) == |cs| ==> forall d | d in cs :: Carried(d) != Carried(c)
  {
    forall k | 0 <= k < |cs| ensures Same(c, cs[k]) <==> Carried(c) == Carried(cs[k]) {
      assert cs[k] in cs;
      SameIffCarriedSame(c, cs[k]);
    }
  }

  lemma SummaryReordered(a: seq<Callout>, b: seq<Callout>, news: seq<NewCallout>, registry: Registry)
    requires multiset(a) == multiset(b) && Summary(a, news, registry)
    ensures Summary(b, news, registry)
  {
    hide Carried, RankOf, Kept, BestRank;
    assert |multiset(a)| == |a| && |multiset(b)| == |b|;
    assert forall c :: c in a <==> c in multiset(a);
    assert forall c :: c in b <==> c in multiset(b);
    forall id | id in Kept(news, registry) ensures exists c :: c in b && Carried(c) == id {
      var c :| c in a && Carried(c) == id;
      assert c in b;
    }
  }

  lemma KeptOfMore(news: seq<NewCallout>, n: NewCallout, registry: Registry)
    ensures var kept, id := Kept(news, registry), IdentityOf(n, registry);
      Kept(news + [n], registry) == if id in kept || |kept| == MAX_NUMBER_OF_CALLOUTS then kept else kept + [id]
    ensures forall id :: (BestRank(news + [n], registry, id) ==
      if id == IdentityOf(n, registry) then Max(BestRank(news, registry, id), RankOfNew(n)) else BestRank(news, registry, id))
  {
    hide IdentityOf;
    assert (news + [n])[..|news|] == news;
  }

  /** Merging one more callout keeps one entry for every identity kept. */
  lemma MergeKeepsSummary(cs: seq<Callout>, c: Callout, news: seq<NewCallout>, n: NewCallout, registry: Registry)
    requires Summary(cs, news, registry) && AllWellBuilt(cs) && |cs| <= MAX_NUMBER_OF_CALLOUTS && Plain(cs)
    requires WellBuilt(c) && Carried(c) == IdentityOf(n, registry) != AtLocation([]) && RankOf(c) == RankOfNew(n)
    requires Distinct(cs)
    ensures Summary(Merge(cs, c), news + [n], registry)
  {
    FoundIffCarried(cs, c);
    var i := IndexOfSame(cs, c);
    if i < |cs| {
      DuplicateTakesHigherRank(cs, c);
      CarriedApart(cs, i);
      hide IdentityOf, Kept, BestRank, WellBuilt, Same, Summary;
      SummaryRaised(cs, Merge(cs, c), i, news, n, registry);
    } else {
      hide IdentityOf, Carried, RankOf, Kept, BestRank, WellBuilt, Same;
      KeptOfMore(news, n, registry);
      assert Carried(c) !in Kept(news, registry);
      if |cs| < MAX_NUMBER_OF_CALLOUTS {
        SummaryAppended(cs, c, news, n, registry);
      }
    }
  }

  lemma CarriedApart(cs: seq<Callout>, i: nat)
    requires AllWellBuilt(cs) && Plain(cs) && Distinct(cs) && i < |cs|
    ensures forall k | 0 <= k < |cs| && k != i :: Carried(cs[k]) != Carried(cs[i])
  {
    hide WellBuilt, Same, Carried;
    forall k | 0 <= k < |cs| && k != i ensures Carried(cs[k]) != Carried(cs[i]) {
      assert cs[k] in cs && cs[i] in cs && !Same(cs[k], cs[i]);
      SameIffCarriedSame(cs[k], cs[i]);
    }
  }

  lemma SummaryRaised(cs: seq<Callout>, merged: seq<Callout>, i: nat, news: seq<NewCallout>, n: NewCallout, registry: Registry)
    requires Summary(cs, news, registry) && |merged| == |cs| && i < |cs|
    requires forall k | 0 <= k < |cs| && k != i :: merged[k] == cs[k] && Carried(cs[k]) != Carried(cs[i])
    requires Carried(cs[i]) == IdentityOf(n, registry) == Carried(merged[i])
    requires RankOf(merged[i]) == Max(RankOf(cs[i]), RankOfNew(n))
    ensures Summary(merged, news + [n], registry)
  {
    KeptOfMore(news, n, registry);
    hide Carried, RankOf, Kept, BestRank, IdentityOf;
    assert cs[i] in cs;
    forall id | id in Kept(news, registry) ensures exists d :: d in merged && Carried(d) == id {
      var d :| d in cs && Carried(d) == id;
      var k :| 0 <= k < |cs| && cs[k] == d;
      assert merged[k] in merged && Carried(merged[k]) == id;
    }
  }

  lemma SummaryAppended(cs: seq<Callout>, c: Callout, news: seq<NewCallout>, n: NewCallout, registry: Registry)
    requires Summary(cs, news, registry) && |cs| < MAX_NUMBER_OF_CALLOUTS
    requires Carried(c) == IdentityOf(n, registry) && Carried(c) !in Kept(news, registry) && RankOf(c) == RankOfNew(n)
    ensures Summary(cs + [c], news + [n], registry)
  {
    hide Carried, RankOf, Kept, IdentityOf;
    KeptOfMore(news, n, registry);
    var id := IdentityOf(n, registry);
    if BestRank(news, registry, id) > 0 {
      AskedIsKept(news, registry, id);
    }
    BestRankNotNegative(news, registry, id);
    forall k | k in Kept(news + [n], registry) ensures exists d :: d in cs + [c] && Carried(d) == k {
      if k == id {
        assert c in cs + [c];
      } else {
        var d :| d in cs && Carried(d) == k;
        assert d in cs + [c];
      }
    }
  }

  lemma {:induction false} BestRankNotNegative(news: seq<NewCallout>, registry: Registry, id: Identity)
    ensures BestRank(news, registry, id) >= 0
  {
    if news != [] { BestRankNotNegative(news[..|news| - 1], registry, id); }
  }

  lemma AddKeepsSummary(before: Callouts, n: NewCallout, after: Callouts, news: seq<NewCallout>, registry: Registry)
    requires Inv(before) && Added(before, Build(n, registry), after)
    requires Summary(before.callouts, news, registry) && Plain(before.callouts)
    requires IdentityOf(n, registry) != AtLocation([])
    ensures Summary(after.callouts, news + [n], registry)
  {
    var c := Build(n, registry);
    BuiltIsWellBuilt(n, registry);
    CarriedIsIdentity(n, registry);
    assert RankOf(c) == RankOfNew(n);
    hide Build, WellBuilt, Carried, IdentityOf, RankOf, Summary, Merge, WordsAdded;
    MergeKeepsSummary(before.callouts, c, news, n, registry);
    SummaryReordered(Merge(before.callouts, c), after.callouts, news + [n], registry);
  }

  lemma NothingAsked(registry: Registry)
    ensures Summary([], [], registry)
  {}

  /** Over any run of additions the list holds exactly one entry for each of the first
      ten distinct parts asked for, at the highest priority ever asked for it. The
      condition is that no location code starts with a NUL. */
  lemma {:induction false} GrownListIsSummary(news: seq<NewCallout>, registry: Registry, lists: seq<Callouts>, i: nat)
    requires Grown(news, registry, lists) && i < |lists|
    requires forall n | n in news :: IdentityOf(n, registry) != AtLocation([])
    ensures Summary(lists[i].callouts, news[..i], registry)
  {
    hide Added, Inv, Summary, Plain, IdentityOf, Build, Kept, BestRank;
    if i == 0 {
      assert news[..i] == [];
      NothingAsked(registry);
    } else {
      var n, earlier := news[i - 1], news[..i - 1];
      GrownListIsSummary(news, registry, lists, i - 1);
      GrownKeepsInv(news, registry, lists, i - 1);
      KeptIsPlain(earlier, registry);
      SummaryIsPlain(lists[i - 1].callouts, earlier, registry);
      assert n in news;
      AddKeepsSummary(lists[i - 1], n, lists[i], earlier, registry);
      assert news[..i] == earlier + [n];
    }
  }

  lemma {:induction false} KeptIsPlain(news: seq<NewCallout>, registry: Registry)
    requires forall n | n in news :: IdentityOf(n, registry) != AtLocation([])
    ensures AtLocation([]) !in Kept(news, registry)
  {
    if news != [] {
      assert news[|news| - 1] in news;
      KeptIsPlain(news[..|news| - 1], registry);
    }
  }

  lemma SummaryIsPlain(cs: seq<Callout>, news: seq<NewCallout>, registry: Registry)
    requires Summary(cs, news, registry) && AtLocation([]) !in Kept(news, registry)
    ensures Plain(cs)
  {}
}
