/** What pruning removes, by the fields of the stored PELs alone: a description
    that does not run the passes, and the proof that it fits one list of PELs. */
module PruningOrder {
  import opened RepositoryState
  import opened Pruning
  import opened SeverityTable

  // ------------------------------------------------------ which PELs a limit is about

  /** The PELs of each of the five limits, by creator and severity table. */
  predicate IsAbout(limit: Limit, a: Attributes) {
    match limit
    case BmcInfoLimit => a.creator == 'O' && !Serviceable(a)
    case BmcNonInfoLimit => a.creator == 'O' && Serviceable(a)
    case NonBmcInfoLimit => a.creator != 'O' && !Serviceable(a)
    case NonBmcNonInfoLimit => a.creator != 'O' && Serviceable(a)
    case TooManyPELs => true
  }

  /** Their bytes, or for the last limit their number. */
  function Amount(es: seq<Entry>, limit: Limit): nat {
    match limit
    case BmcInfoLimit => BytesOf(es, true, false)
    case BmcNonInfoLimit => BytesOf(es, true, true)
    case NonBmcInfoLimit => BytesOf(es, false, false)
    case NonBmcNonInfoLimit => BytesOf(es, false, true)
    case TooManyPELs => |es|
  }

  /** More than the percentage of the configured maximum that the limit grants:
      15 for informational and 30 for serviceable bytes, 80 for the number. */
  predicate Exceeds(s: RepoState, limit: Limit, amount: int) {
    match limit
    case BmcInfoLimit => 100 * amount > 15 * s.maxRepoSize
    case BmcNonInfoLimit => 100 * amount > 30 * s.maxRepoSize
    case NonBmcInfoLimit => 100 * amount > 15 * s.maxRepoSize
    case NonBmcNonInfoLimit => 100 * amount > 30 * s.maxRepoSize
    case TooManyPELs => 100 * amount > 80 * s.maxNumPELs
  }

  /** What may go: a PEL the limit is about without a hardware isolation entry. */
  ghost predicate Candidate(limit: Limit, isolated: seq<Uint32>, e: Entry) {
    IsAbout(limit, e.attr) && e.id.obmcID !in isolated
  }

  // ------------------------------------------------------------------ which goes first

  /** Both acked by the HMC; or neither, and the host has both acked, or both
      sent, or has settled neither. */
  ghost predicate SameClass(a: Attributes, b: Attributes) {
    || (a.hmcState == Acked && b.hmcState == Acked)
    || (&& a.hmcState != Acked && b.hmcState != Acked
        && (a.hostState == Acked <==> b.hostState == Acked)
        && (a.hostState == Sent <==> b.hostState == Sent))
  }

  /** What x may be when it goes ahead of y: acked by the HMC if y is, else acked
      by the host if y is, else sent if y is, and not newer than y if the two do
      not differ in that. */
  ghost predicate GoesFirst(x: Entry, y: Entry) {
    && (y.attr.hmcState == Acked ==> x.attr.hmcState == Acked)
    && (y.attr.hostState == Acked && x.attr.hmcState != Acked ==> x.attr.hostState == Acked)
    && (y.attr.hostState == Sent && x.attr.hmcState != Acked && x.attr.hostState != Acked ==> x.attr.hostState == Sent)
    && (SameClass(x.attr, y.attr) ==> !PathLess(y.attr.path, x.attr.path))
  }

  lemma BeforeGoesFirst(x: Entry, y: Entry)
    requires Before(x, y)
    ensures GoesFirst(x, y)
  {
    hide PathLess;
  }

  /** Two PELs of different files are ranked one way only. */
  lemma GoesFirstOneWay(x: Entry, y: Entry)
    requires GoesFirst(x, y) && GoesFirst(y, x)
    ensures x.attr.path == y.attr.path
  {
    hide PathLess;
    PathLessIsTotalOrder(x.attr.path, y.attr.path, []);
  }

  // --------------------------------------------------------------------- the reference

  ghost predicate OrderedRemovals(gone: seq<Entry>) {
    forall i, j | 0 <= i < j < |gone| :: GoesFirst(gone[i], gone[j])
  }

  /** Nothing that may go is passed over for a PEL it goes ahead of. */
  ghost predicate PassesOverNone(s: RepoState, limit: Limit, isolated: seq<Uint32>, gone: seq<Entry>) {
    forall x, y | x in s.pels && Candidate(limit, isolated, x) && x !in gone && y in gone :: GoesFirst(y, x)
  }

  ghost predicate RemovesCandidates(s: RepoState, limit: Limit, isolated: seq<Uint32>, gone: seq<Entry>) {
    NoRepeats(gone) && forall e | e in gone :: e in s.pels && Candidate(limit, isolated, e)
  }

  /** Each PEL removed was one too much, and afterwards either what is left is
      not too much or no candidate is left. */
  ghost predicate RemovesJustEnough(s: RepoState, limit: Limit, isolated: seq<Uint32>, gone: seq<Entry>) {
    && (forall m | 0 <= m < |gone| :: Exceeds(s, limit, Amount(s.pels, limit) - Amount(gone[..m], limit)))
    && (|| !Exceeds(s, limit, Amount(s.pels, limit) - Amount(gone, limit))
        || forall e | e in s.pels && Candidate(limit, isolated, e) :: e in gone)
  }

  ghost predicate RightRemovals(s: RepoState, limit: Limit, isolated: seq<Uint32>, gone: seq<Entry>) {
    && RemovesCandidates(s, limit, isolated, gone)
    && OrderedRemovals(gone)
    && PassesOverNone(s, limit, isolated, gone)
    && RemovesJustEnough(s, limit, isolated, gone)
  }

  // --------------------------------------------- the model's terms in those of the table

  lemma TypeByTable(limit: Limit, a: Attributes)
    ensures IsPELType(a, limit) <==> IsAbout(limit, a)
  {
    hide IsServiceableSev, Serviceable;
    SeverityIsClassified(a);
  }

  lemma UsedByTable(s: RepoState, limit: Limit)
    requires Valid(s)
    ensures Used(s, limit) == Amount(s.pels, limit)
  {
    CountersByTable(s.pels);
  }

  lemma OverByTable(s: RepoState, limit: Limit, amount: int)
    ensures amount > Bound(s, limit) <==> Exceeds(s, limit, amount)
  {}

  lemma {:induction false} WeightByTable(es: seq<Entry>, limit: Limit)
    requires forall e | e in es :: IsAbout(limit, e.attr)
    ensures WeightOf(es, limit) == Amount(es, limit)
  {
    if es != [] {
      assert es[0] in es;
      assert forall e | e in es[1..] :: e in es;
      WeightByTable(es[1..], limit);
    }
  }

  /** After a prefix of the removals the limit is exceeded just when the table
      says so. */
  lemma OverAfterByTable(s: RepoState, limit: Limit, isolated: seq<Uint32>, gone: seq<Entry>)
    requires Valid(s) && gone <= RemovalOrder(s.pels, limit, isolated)
    ensures OverAfter(s, limit, gone) <==> Exceeds(s, limit, Amount(s.pels, limit) - Amount(gone, limit))
  {
    hide RemovalOrder, Amount, Bound, Exceeds, IsPELType, IsAbout;
    OverAfterWeight(s, limit, isolated, gone);
    PrefixOfOrder(s, limit, isolated, gone);
    forall e | e in gone ensures IsAbout(limit, e.attr) {
      TypeByTable(limit, e.attr);
    }
    WeightByTable(gone, limit);
    UsedByTable(s, limit);
    OverByTable(s, limit, Amount(s.pels, limit) - Amount(gone, limit));
  }

  lemma OrderByTable(s: RepoState, limit: Limit, isolated: seq<Uint32>)
    requires Valid(s)
    ensures var order := RemovalOrder(s.pels, limit, isolated);
      && (forall e :: e in order <==> e in s.pels && Candidate(limit, isolated, e))
      && NoRepeats(order) && OrderedRemovals(order)
  {
    hide RemovalOrder, IsPELType, IsAbout, GoesFirst, Before;
    var order := RemovalOrder(s.pels, limit, isolated);
    RemovalOrderIsPriorityOrder(s.pels, limit, isolated);
    forall e: Entry ensures IsPELType(e.attr, limit) <==> IsAbout(limit, e.attr) {
      TypeByTable(limit, e.attr);
    }
    forall i, j | 0 <= i < j < |order| ensures GoesFirst(order[i], order[j]) {
      BeforeGoesFirst(order[i], order[j]);
    }
  }

  // ------------------------------------------------------------------------- one limit

  lemma PrefixIsOrdered(s: RepoState, limit: Limit, isolated: seq<Uint32>, n: nat)
    requires Valid(s) && n <= |RemovalOrder(s.pels, limit, isolated)|
    ensures var gone := RemovalOrder(s.pels, limit, isolated)[..n];
      RemovesCandidates(s, limit, isolated, gone) && OrderedRemovals(gone) && PassesOverNone(s, limit, isolated, gone)
  {
    hide RemovalOrder, GoesFirst, Candidate, Valid;
    var order := RemovalOrder(s.pels, limit, isolated);
    var gone := order[..n];
    OrderByTable(s, limit, isolated);
    forall x, y | x in s.pels && Candidate(limit, isolated, x) && x !in gone && y in gone ensures GoesFirst(y, x) {
      assert x in order;
      var j :| 0 <= j < |order| && order[j] == x;
      var i :| 0 <= i < n && gone[i] == y;
      assert forall k | 0 <= k < n :: gone[k] == order[k];
    }
  }

  /** What removePELs removes fits the description: candidates only, those acked
      by the HMC first, then those acked by the host, then those sent, each class
      from the oldest on, none passed over, and no more than it takes. */
  lemma RemovalsAreRight(s: RepoState, limit: Limit, isolated: seq<Uint32>)
    requires Valid(s)
    ensures RightRemovals(s, limit, isolated, Pruning.RemovePELs(s, limit, isolated).removed)
  {
    hide RemovalOrder, GoesFirst, Candidate, Exceeds, Amount, OverAfter, Valid, VictimsOf, RemoveEntries;
    hide RemovesCandidates, OrderedRemovals, PassesOverNone;
    var order := RemovalOrder(s.pels, limit, isolated);
    var gone := Pruning.RemovePELs(s, limit, isolated).removed;
    RemovesShortestPrefix(s, limit, isolated);
    assert gone == order[..|gone|];
    PrefixIsOrdered(s, limit, isolated, |gone|);
    OrderByTable(s, limit, isolated);
    forall m | 0 <= m < |gone| ensures Exceeds(s, limit, Amount(s.pels, limit) - Amount(gone[..m], limit)) {
      assert gone[..m] == order[..m];
      OverAfterByTable(s, limit, isolated, order[..m]);
    }
    OverAfterByTable(s, limit, isolated, gone);
  }

  /** A list that fits the description starts as the removal order does. */
  lemma {:induction false} RightIsPrefix(s: RepoState, limit: Limit, isolated: seq<Uint32>, gone: seq<Entry>, n: nat)
    requires Valid(s) && DistinctPaths(s.pels)
    requires RemovesCandidates(s, limit, isolated, gone) && OrderedRemovals(gone)
    requires PassesOverNone(s, limit, isolated, gone)
    requires n <= |gone|
    ensures n <= |RemovalOrder(s.pels, limit, isolated)| && gone[..n] == RemovalOrder(s.pels, limit, isolated)[..n]
  {
    hide RemovalOrder, GoesFirst, Candidate, Valid;
    var order := RemovalOrder(s.pels, limit, isolated);
    OrderByTable(s, limit, isolated);
    if n > 0 {
      RightIsPrefix(s, limit, isolated, gone, n - 1);
      var g := gone[n - 1];
      assert g in gone;
      var j :| 0 <= j < |order| && order[j] == g;
      NotAhead(gone, order, n);
      var o := order[n - 1];
      if o != g {
        assert GoesFirst(o, g);
        assert o in order && o in s.pels;
        NotBehind(gone, order, n, o);
        GoesFirstOneWay(o, g);
        SamePathSame(s.pels, o, g);
      }
    }
  }

  /** What follows the common front of both is not in it. */
  lemma NotAhead(gone: seq<Entry>, order: seq<Entry>, n: nat)
    requires 0 < n <= |gone| && n - 1 <= |order| && gone[..n - 1] == order[..n - 1] && NoRepeats(gone)
    ensures forall k | 0 <= k < n - 1 :: order[k] != gone[n - 1]
  {
    forall k | 0 <= k < n - 1 ensures order[k] != gone[n - 1] {
      assert order[k] == order[..n - 1][k] == gone[..n - 1][k] == gone[k];
    }
  }

  /** An element of the order at n - 1 is not among the first n - 1 of both. */
  lemma NotBehind(gone: seq<Entry>, order: seq<Entry>, n: nat, o: Entry)
    requires 0 < n <= |gone| && n <= |order| && gone[..n - 1] == order[..n - 1] && order[n - 1] == o != gone[n - 1]
    requires NoRepeats(order)
    ensures o in gone ==> exists k :: n <= k < |gone| && gone[k] == o
  {
    if o in gone {
      var k :| 0 <= k < |gone| && gone[k] == o;
      assert forall i | 0 <= i < n - 1 :: gone[i] == gone[..n - 1][i] == order[..n - 1][i] == order[i];
    }
  }

  lemma SamePathSame(es: seq<Entry>, x: Entry, y: Entry)
    requires DistinctPaths(es) && x in es && y in es && x.attr.path == y.attr.path
    ensures x == y
  {}

  /** No other list fits: with a file for each PEL, the description says exactly
      which PELs go, and in which order. */
  lemma RightRemovalsAreUnique(s: RepoState, limit: Limit, isolated: seq<Uint32>, gone: seq<Entry>)
    requires Valid(s) && DistinctPaths(s.pels)
    requires RightRemovals(s, limit, isolated, gone)
    ensures gone == Pruning.RemovePELs(s, limit, isolated).removed
  {
    hide RemovalOrder, GoesFirst, Candidate, Exceeds, Amount, OverAfter, Valid, VictimsOf, RemoveEntries;
    hide RemovesCandidates, OrderedRemovals, PassesOverNone, DistinctPaths;
    var order := RemovalOrder(s.pels, limit, isolated);
    RightIsPrefix(s, limit, isolated, gone, |gone|);
    assert gone == order[..|gone|];
    OrderByTable(s, limit, isolated);
    forall m | 0 <= m < |gone| ensures OverAfter(s, limit, order[..m]) {
      assert gone[..m] == order[..m];
      OverAfterByTable(s, limit, isolated, order[..m]);
    }
    OverAfterByTable(s, limit, isolated, gone);
    if !OverAfter(s, limit, gone) {
    } else {
      CoveredOrder(order, gone);
    }
    ShortestPrefixUnique(s, limit, isolated, |gone|);
  }

  /** A prefix holding every element of a list without repeats is the list. */
  lemma CoveredOrder(order: seq<Entry>, gone: seq<Entry>)
    requires NoRepeats(order) && gone <= order && forall e | e in order :: e in gone
    ensures gone == order
  {
    if order != [] {
      var last := order[|order| - 1];
      assert last in order;
      var k :| 0 <= k < |gone| && gone[k] == last;
      assert order[k] == last;
    }
  }

  // ------------------------------------------------------------------- a whole prune

  /** The four shares in turn, then the number of PELs if it is still too high:
      each removes what is right for the repository it finds. */
  lemma PruneInTurn(s: RepoState, isolated: seq<Uint32>)
    ensures var a := Pruning.RemovePELs(s, BmcInfoLimit, isolated);
      var b := Pruning.RemovePELs(a.state, BmcNonInfoLimit, isolated);
      var c := Pruning.RemovePELs(b.state, NonBmcInfoLimit, isolated);
      var d := Pruning.RemovePELs(c.state, NonBmcNonInfoLimit, isolated);
      var e := Pruning.RemovePELs(d.state, TooManyPELs, isolated);
      var gone := a.removed + b.removed + c.removed + d.removed;
      Pruning.Prune(s, isolated) ==
        if |d.state.pels| > d.state.maxNumPELs then Pruned(e.state, gone + e.removed) else Pruned(d.state, gone)
  {
    hide RemovePELs;
    var none := Pruned(s, []);
    var a := RemoveMore(none, BmcInfoLimit, isolated);
    var b := RemoveMore(a, BmcNonInfoLimit, isolated);
    var c := RemoveMore(b, NonBmcInfoLimit, isolated);
    var d := RemoveMore(c, NonBmcNonInfoLimit, isolated);
    assert Stages(s, 0, isolated) == none;
    assert Stages(s, 1, isolated) == a;
    assert Stages(s, 2, isolated) == b;
    assert Stages(s, 3, isolated) == c;
    assert Stages(s, 4, isolated) == d;
    assert Stages(s, 5, isolated) == RemoveMore(d, TooManyPELs, isolated);
  }

  ghost predicate NoCandidates(s: RepoState, limit: Limit, isolated: seq<Uint32>) {
    forall e | e in s.pels :: !Candidate(limit, isolated, e)
  }

  /** One limit removes nothing exactly when it is not exceeded or no PEL it is
      about may go, and then the repository stays as it is. */
  lemma RemovesNothingIff(s: RepoState, limit: Limit, isolated: seq<Uint32>)
    requires Valid(s)
    ensures Pruning.RemovePELs(s, limit, isolated).removed == []
       <==> !Exceeds(s, limit, Amount(s.pels, limit)) || NoCandidates(s, limit, isolated)
    ensures Pruning.RemovePELs(s, limit, isolated).removed == [] ==> Pruning.RemovePELs(s, limit, isolated).state == s
  {
    hide RightRemovals, NoCandidates, Exceeds, Amount, VictimsOf, RemoveEntries, Valid;
    RemovalsAreRight(s, limit, isolated);
    RightNothingIff(s, limit, isolated, Pruning.RemovePELs(s, limit, isolated).removed);
    NothingTakenOut(s);
  }

  lemma RightNothingIff(s: RepoState, limit: Limit, isolated: seq<Uint32>, gone: seq<Entry>)
    requires RightRemovals(s, limit, isolated, gone)
    ensures gone == [] <==> !Exceeds(s, limit, Amount(s.pels, limit)) || NoCandidates(s, limit, isolated)
  {
    hide Candidate, Exceeds, OrderedRemovals, PassesOverNone, Amount;
    NoAmount(limit);
    if gone != [] {
      assert gone[..0] == [] && gone[0] in gone;
      assert Exceeds(s, limit, Amount(s.pels, limit) - Amount(gone[..0], limit));
    }
  }

  lemma NoAmount(limit: Limit)
    ensures Amount([], limit) == 0
  {}

  lemma NothingTakenOut(s: RepoState)
    requires Valid(s)
    ensures RemoveEntries(s, []) == s
  {
    KeepNone(s.pels);
  }

  /** Within every share and every number, or nothing that exceeds them may go. */
  ghost predicate NothingToPrune(s: RepoState, isolated: seq<Uint32>) {
    && (100 * BytesOf(s.pels, true, false) <= 15 * s.maxRepoSize || NoCandidates(s, BmcInfoLimit, isolated))
    && (100 * BytesOf(s.pels, true, true) <= 30 * s.maxRepoSize || NoCandidates(s, BmcNonInfoLimit, isolated))
    && (100 * BytesOf(s.pels, false, false) <= 15 * s.maxRepoSize || NoCandidates(s, NonBmcInfoLimit, isolated))
    && (100 * BytesOf(s.pels, false, true) <= 30 * s.maxRepoSize || NoCandidates(s, NonBmcNonInfoLimit, isolated))
    && (|s.pels| <= s.maxNumPELs || NoCandidates(s, TooManyPELs, isolated))
  }

  /** prune removes nothing exactly when no share is exceeded by PELs that may go,
      nor the configured number itself: 80 percent of it is where removing ends,
      not where it starts. */
  lemma PruneRemovesNothingIff(s: RepoState, isolated: seq<Uint32>)
    requires Valid(s)
    ensures Pruning.Prune(s, isolated).removed == [] <==> NothingToPrune(s, isolated)
    ensures Pruning.Prune(s, isolated).removed == [] ==> Pruning.Prune(s, isolated).state == s
  {
    hide Prune, RemovePELs, NoCandidates, BytesOf, Valid;
    PruneInTurn(s, isolated);
    RemovesNothingIff(s, BmcInfoLimit, isolated);
    RemovesNothingIff(s, BmcNonInfoLimit, isolated);
    RemovesNothingIff(s, NonBmcInfoLimit, isolated);
    RemovesNothingIff(s, NonBmcNonInfoLimit, isolated);
    RemovesNothingIff(s, TooManyPELs, isolated);
  }

  /** sizeWarning answers yes exactly when the PELs take up more than 95 percent
      of the space or are more than the configured number. */
  lemma WarnsIff(s: RepoState)
    requires Valid(s)
    ensures SizeWarning(s)
       <==> || 100 * (BytesOf(s.pels, true, true) + BytesOf(s.pels, true, false)
                    + BytesOf(s.pels, false, true) + BytesOf(s.pels, false, false)) > 95 * s.maxRepoSize
            || |s.pels| > s.maxNumPELs
  {
    hide BytesOf;
    CountersByTable(s.pels);
  }

  /** A yes is never in vain: with nothing isolated, a prune removes some PEL. */
  lemma WarningMeansRemoval(s: RepoState)
    requires Valid(s) && SizeWarning(s)
    ensures Pruning.Prune(s, []).removed != [] && !SizeWarning(Pruning.Prune(s, []).state)
  {
    hide Prune, SizeWarning, NothingToPrune, Valid;
    PruneClearsWarning(s);
    PruneRemovesNothingIff(s, []);
  }
}
