/** The very order that the scans put errors in, without scans: by rounds, and within a
    round as they were listed. */
module ErrorRounds {
  import opened ErrorOrder
  import opened Wrappers

  /** Where a name is listed first. */
  function Listed(errors: seq<Name>, e: Name): (i: nat)
    ensures i <= |errors|
    ensures e in errors ==> i < |errors| && errors[i] == e
  {
    if errors == [] || errors[0] == e then 0 else 1 + Listed(errors[1..], e)
  }

  /** An error without a parent is of the first round; another is of the round of its parent
      if that is listed ahead of it, and of the next round if it is listed behind it. */
  function Round(errors: seq<Name>, parents: map<Name, Option<Name>>, e: Name, n: nat): nat
    requires Known(errors, parents) && Rooted(errors, parents, e, n)
    decreases n
  {
    if NoParent(parents[e]) then 1
    else
      var parent := parents[e].value;
      Round(errors, parents, parent, n - 1) + if Listed(errors, parent) < Listed(errors, e) then 0 else 1
  }

  lemma {:induction false} RoundIsOne(errors: seq<Name>, parents: map<Name, Option<Name>>, e: Name, m: nat, n: nat)
    requires Known(errors, parents) && Rooted(errors, parents, e, m) && Rooted(errors, parents, e, n)
    ensures Round(errors, parents, e, m) == Round(errors, parents, e, n) >= 1
    decreases m
  {
    if !NoParent(parents[e]) {
      RoundIsOne(errors, parents, parents[e].value, m - 1, n - 1);
    }
  }

  function RoundOf(errors: seq<Name>, parents: map<Name, Option<Name>>, e: Name): nat
    requires Known(errors, parents) && Orderable(errors, parents) && e in errors
  {
    Round(errors, parents, e, |errors|)
  }

  /** How the round of the parent gives that of the error. */
  lemma RoundOfParent(errors: seq<Name>, parents: map<Name, Option<Name>>, e: Name)
    requires Known(errors, parents) && Orderable(errors, parents) && e in errors
    ensures RoundOf(errors, parents, e) >= 1
    ensures NoParent(parents[e]) ==> RoundOf(errors, parents, e) == 1
    ensures !NoParent(parents[e]) ==>
      var parent := parents[e].value;
      && parent in errors
      && RoundOf(errors, parents, e)
         == RoundOf(errors, parents, parent) + if Listed(errors, parent) < Listed(errors, e) then 0 else 1
  {
    RoundIsOne(errors, parents, e, |errors|, |errors|);
    if !NoParent(parents[e]) {
      var parent := parents[e].value;
      assert Rooted(errors, parents, parent, |errors| - 1);
      RoundIsOne(errors, parents, parent, |errors| - 1, |errors|);
    }
  }

  /** Those of a round among the first k listed, in the order they are listed. */
  function OfRound(errors: seq<Name>, parents: map<Name, Option<Name>>, n: nat, k: nat): seq<Name>
    requires Known(errors, parents) && Orderable(errors, parents) && k <= |errors|
  {
    if k == 0 then []
    else
      assert errors[k - 1] in errors;
      OfRound(errors, parents, n, k - 1) + if RoundOf(errors, parents, errors[k - 1]) == n then [errors[k - 1]] else []
  }

  /** The first n rounds, one after the other. */
  function Rounds(errors: seq<Name>, parents: map<Name, Option<Name>>, n: nat): seq<Name>
    requires Known(errors, parents) && Orderable(errors, parents)
  {
    if n == 0 then [] else Rounds(errors, parents, n - 1) + OfRound(errors, parents, n, |errors|)
  }

  lemma {:induction false} OfRoundContents(errors: seq<Name>, parents: map<Name, Option<Name>>, n: nat, k: nat)
    requires Known(errors, parents) && Orderable(errors, parents) && k <= |errors|
    ensures forall e :: e in OfRound(errors, parents, n, k) <==>
      e in errors && Listed(errors, e) < k && RoundOf(errors, parents, e) == n
  {
    hide Orderable, RoundOf;
    if k > 0 {
      OfRoundContents(errors, parents, n, k - 1);
      var last := errors[k - 1];
      assert last in errors;
      ListedAt(errors, parents, k - 1);
    }
  }

  lemma ListedAt(errors: seq<Name>, parents: map<Name, Option<Name>>, k: nat)
    requires Known(errors, parents) && Orderable(errors, parents) && k < |errors|
    ensures forall e | e in errors :: Listed(errors, e) == k <==> e == errors[k]
  {
    var i := Listed(errors, errors[k]);
    assert errors[k] in errors;
    assert i == k by { assert Distinct(errors); }
  }

  lemma {:induction false} RoundsContents(errors: seq<Name>, parents: map<Name, Option<Name>>, n: nat)
    requires Known(errors, parents) && Orderable(errors, parents)
    ensures forall e :: e in Rounds(errors, parents, n) <==> e in errors && RoundOf(errors, parents, e) <= n
  {
    hide Orderable, RoundOf, OfRound, Rooted;
    forall e | e in errors ensures RoundOf(errors, parents, e) >= 1 {
      RoundOfParent(errors, parents, e);
    }
    if n > 0 {
      RoundsContents(errors, parents, n - 1);
      OfRoundContents(errors, parents, n, |errors|);
    }
  }

  /** Whether the scan of round n places the k-th error. */
  lemma PlacedInRound(errors: seq<Name>, parents: map<Name, Option<Name>>, n: nat, k: nat)
    requires Known(errors, parents) && Orderable(errors, parents) && k < |errors| && n > 0
    ensures errors[k] in errors
    ensures var placed := Rounds(errors, parents, n - 1) + OfRound(errors, parents, n, k);
      Place(errors[k], placed, parents)
      == placed + if RoundOf(errors, parents, errors[k]) == n then [errors[k]] else []
  {
    hide Orderable, RoundOf, OfRound, Rounds, Rooted;
    var e := errors[k];
    assert e in errors;
    RoundsContents(errors, parents, n - 1);
    OfRoundContents(errors, parents, n, k);
    ListedAt(errors, parents, k);
    RoundOfParent(errors, parents, e);
    if !NoParent(parents[e]) {
      ParentNotItself(errors, parents, k);
    }
  }

  lemma ParentNotItself(errors: seq<Name>, parents: map<Name, Option<Name>>, k: nat)
    requires Known(errors, parents) && Orderable(errors, parents) && k < |errors| && !NoParent(parents[errors[k]])
    ensures parents[errors[k]].value in errors && Listed(errors, parents[errors[k]].value) != k
  {
    hide Orderable, RoundOf, Rooted;
    assert errors[k] in errors;
    RoundOfParent(errors, parents, errors[k]);
    ListedAt(errors, parents, k);
  }

  /** The scan of round n, from the k-th error on. */
  lemma {:induction false} ScanIsRound(errors: seq<Name>, parents: map<Name, Option<Name>>, n: nat, k: nat)
    requires Known(errors, parents) && Orderable(errors, parents) && k <= |errors| && n > 0
    ensures Known(errors[k..], parents)
    ensures Pass(errors[k..], Rounds(errors, parents, n - 1) + OfRound(errors, parents, n, k), parents)
         == Rounds(errors, parents, n)
    decreases |errors| - k
  {
    hide Orderable, RoundOf, Place, Rooted;
    if k < |errors| {
      PlacedInRound(errors, parents, n, k);
      ScanIsRound(errors, parents, n, k + 1);
      assert errors[k] in errors;
      assert errors[k..][0] == errors[k] && errors[k..][1..] == errors[k + 1..];
      var front, more := Rounds(errors, parents, n - 1), OfRound(errors, parents, n, k);
      var last := if RoundOf(errors, parents, errors[k]) == n then [errors[k]] else [];
      assert (front + more) + last == front + (more + last);
    }
  }

  /** After n scans stand the first n rounds, one after the other. */
  lemma {:induction false} ScansAreRounds(errors: seq<Name>, parents: map<Name, Option<Name>>, n: nat)
    requires Known(errors, parents) && Orderable(errors, parents)
    ensures Passes(errors, parents, n) == Rounds(errors, parents, n)
  {
    hide Orderable, Pass, OfRound;
    if n > 0 {
      ScansAreRounds(errors, parents, n - 1);
      ScanIsRound(errors, parents, n, 0);
      assert errors[0..] == errors;
      NothingOfRound(errors, parents, n);
      assert Rounds(errors, parents, n - 1) + [] == Rounds(errors, parents, n - 1);
    }
  }

  lemma NothingOfRound(errors: seq<Name>, parents: map<Name, Option<Name>>, n: nat)
    requires Known(errors, parents) && Orderable(errors, parents)
    ensures OfRound(errors, parents, n, 0) == []
  {}

  /** x is of an earlier round than y, or of the same and listed ahead of it. */
  ghost predicate Earlier(errors: seq<Name>, parents: map<Name, Option<Name>>, x: Name, y: Name)
    requires Known(errors, parents) && Orderable(errors, parents) && x in errors && y in errors
  {
    var a, b := RoundOf(errors, parents, x), RoundOf(errors, parents, y);
    a < b || (a == b && Listed(errors, x) < Listed(errors, y))
  }

  ghost predicate InOrder(errors: seq<Name>, parents: map<Name, Option<Name>>, placed: seq<Name>)
    requires Known(errors, parents) && Orderable(errors, parents)
  {
    && (forall e | e in placed :: e in errors)
    && forall i, j | 0 <= i < j < |placed| :: Earlier(errors, parents, placed[i], placed[j])
  }

  lemma InOrderConcat(errors: seq<Name>, parents: map<Name, Option<Name>>, a: seq<Name>, b: seq<Name>)
    requires Known(errors, parents) && Orderable(errors, parents)
    requires InOrder(errors, parents, a) && InOrder(errors, parents, b)
    requires forall x, y | x in a && y in b :: Earlier(errors, parents, x, y)
    ensures InOrder(errors, parents, a + b)
  {
    hide Orderable, Earlier, Known;
    var r := a + b;
    forall i, j | 0 <= i < j < |r| ensures Earlier(errors, parents, r[i], r[j]) {
      if i < |a| <= j {
        assert r[i] == a[i] && r[j] == b[j - |a|];
      }
    }
  }

  lemma {:induction false} OfRoundInOrder(errors: seq<Name>, parents: map<Name, Option<Name>>, n: nat, k: nat)
    requires Known(errors, parents) && Orderable(errors, parents) && k <= |errors|
    ensures InOrder(errors, parents, OfRound(errors, parents, n, k))
  {
    hide Orderable, RoundOf, Rooted;
    if k > 0 {
      OfRoundInOrder(errors, parents, n, k - 1);
      OfRoundContents(errors, parents, n, k - 1);
      ListedAt(errors, parents, k - 1);
      assert errors[k - 1] in errors;
      var last := if RoundOf(errors, parents, errors[k - 1]) == n then [errors[k - 1]] else [];
      InOrderConcat(errors, parents, OfRound(errors, parents, n, k - 1), last);
    }
  }

  lemma {:induction false} RoundsInOrder(errors: seq<Name>, parents: map<Name, Option<Name>>, n: nat)
    requires Known(errors, parents) && Orderable(errors, parents)
    ensures InOrder(errors, parents, Rounds(errors, parents, n))
  {
    hide Orderable, RoundOf, Rooted, OfRound;
    if n > 0 {
      RoundsInOrder(errors, parents, n - 1);
      OfRoundInOrder(errors, parents, n, |errors|);
      RoundsContents(errors, parents, n - 1);
      OfRoundContents(errors, parents, n, |errors|);
      InOrderConcat(errors, parents, Rounds(errors, parents, n - 1), OfRound(errors, parents, n, |errors|));
    }
  }

  /** What the scans have placed stands in order of round, and within a round as it was
      listed; and n scans have placed exactly the errors of the first n rounds. */
  lemma ScansOrderByRound(errors: seq<Name>, parents: map<Name, Option<Name>>, n: nat)
    requires Known(errors, parents) && Orderable(errors, parents)
    ensures InOrder(errors, parents, Passes(errors, parents, n))
    ensures forall e :: e in Passes(errors, parents, n) <==> e in errors && RoundOf(errors, parents, e) <= n
  {
    hide Orderable, RoundOf, Rooted, Passes;
    ScansAreRounds(errors, parents, n);
    RoundsInOrder(errors, parents, n);
    RoundsContents(errors, parents, n);
  }
}
