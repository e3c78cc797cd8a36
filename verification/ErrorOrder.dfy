/** Ordering error definitions so that a parent always comes before what inherits it:
    the list is scanned again and again until everything is placed. */
module ErrorOrder {
  import opened Wrappers

  type Name = string

  /** An error inherits nothing if it has no parent, or an empty one. */
  predicate NoParent(parent: Option<Name>) { parent.None? || parent.value == "" }

  ghost predicate Known(errors: seq<Name>, parents: map<Name, Option<Name>>) {
    forall e | e in errors :: e in parents
  }

  predicate HasInheritance(errors: seq<Name>, parents: map<Name, Option<Name>>)
    requires Known(errors, parents)
  {
    exists e :: e in errors && parents[e].Some?
  }

  predicate CanPlace(e: Name, placed: seq<Name>, parents: map<Name, Option<Name>>)
    requires e in parents
  {
    NoParent(parents[e]) || parents[e].value in placed
  }

  function Place(e: Name, placed: seq<Name>, parents: map<Name, Option<Name>>): seq<Name>
    requires e in parents
  {
    if e !in placed && CanPlace(e, placed, parents) then placed + [e] else placed
  }

  /** One scan over the errors. */
  function Pass(errors: seq<Name>, placed: seq<Name>, parents: map<Name, Option<Name>>): seq<Name>
    requires Known(errors, parents)
    decreases |errors|
  {
    if errors == [] then placed else assert errors[0] in errors; Pass(errors[1..], Place(errors[0], placed, parents), parents)
  }

  /** The list after n scans. */
  function Passes(errors: seq<Name>, parents: map<Name, Option<Name>>, n: nat): seq<Name>
    requires Known(errors, parents)
  {
    if n == 0 then [] else Pass(errors, Passes(errors, parents, n - 1), parents)
  }

  /** The scanning loop ends. */
  ghost predicate Terminates(errors: seq<Name>, parents: map<Name, Option<Name>>)
    requires Known(errors, parents)
  {
    exists n :: |Passes(errors, parents, n)| >= |errors|
  }

  predicate Distinct(names: seq<Name>) {
    forall i, j | 0 <= i < j < |names| :: names[i] != names[j]
  }

  /** Following parents from e reaches an error without one, through defined errors
      only and in fewer than n steps. */
  predicate Rooted(errors: seq<Name>, parents: map<Name, Option<Name>>, e: Name, n: nat)
    requires Known(errors, parents)
    decreases n
  {
    && n > 0 && e in errors
    && (NoParent(parents[e]) || Rooted(errors, parents, parents[e].value, n - 1))
  }

  /** No name twice, and from every error a root is reached: OrderableIffAcyclic puts it
      as no parent undefined and no cycle. */
  ghost predicate Orderable(errors: seq<Name>, parents: map<Name, Option<Name>>)
    requires Known(errors, parents)
  {
    Distinct(errors) && forall e | e in errors :: Rooted(errors, parents, e, |errors|)
  }

  /** Every placed error is one of the errors, placed once, behind its parent. */
  ghost predicate WellPlaced(errors: seq<Name>, parents: map<Name, Option<Name>>, placed: seq<Name>)
    requires Known(errors, parents)
  {
    && Distinct(placed)
    && (forall e | e in placed :: e in errors)
    && forall i | 0 <= i < |placed| :: placed[i] in parents && CanPlace(placed[i], placed[..i], parents)
  }

  // --------------------------------------------------------------- one scan

  lemma PlaceKeepsWellPlaced(errors: seq<Name>, parents: map<Name, Option<Name>>, placed: seq<Name>, e: Name)
    requires Known(errors, parents) && WellPlaced(errors, parents, placed) && e in errors
    ensures WellPlaced(errors, parents, Place(e, placed, parents))
    ensures placed <= Place(e, placed, parents)
    ensures CanPlace(e, placed, parents) ==> e in Place(e, placed, parents)
  {
    var after := Place(e, placed, parents);
    forall i | 0 <= i < |after| ensures after[i] in parents && CanPlace(after[i], after[..i], parents) {
      assert after[..i] == placed[..i];
    }
  }

  lemma {:induction false} PassKeepsWellPlaced(scan: seq<Name>, errors: seq<Name>, parents: map<Name, Option<Name>>,
                                                 placed: seq<Name>)
    requires Known(errors, parents) && Known(scan, parents) && WellPlaced(errors, parents, placed)
    requires forall e | e in scan :: e in errors
    ensures WellPlaced(errors, parents, Pass(scan, placed, parents)) && placed <= Pass(scan, placed, parents)
    ensures forall e | e in scan && CanPlace(e, placed, parents) :: e in Pass(scan, placed, parents)
    decreases |scan|
  {
    hide WellPlaced, Place, CanPlace;
    if scan != [] {
      var next := Place(scan[0], placed, parents);
      assert scan[0] in scan;
      PlaceKeepsWellPlaced(errors, parents, placed, scan[0]);
      PassKeepsWellPlaced(scan[1..], errors, parents, next);
      forall e | e in scan && CanPlace(e, placed, parents) ensures e in Pass(scan, placed, parents) {
        if e == scan[0] {
          assert e in next;
        } else {
          CanStillPlace(e, placed, next, parents);
          assert e in scan[1..];
        }
      }
    }
  }

  lemma CanStillPlace(e: Name, placed: seq<Name>, next: seq<Name>, parents: map<Name, Option<Name>>)
    requires e in parents && placed <= next && CanPlace(e, placed, parents)
    ensures CanPlace(e, next, parents)
  {}

  lemma {:induction false} PassesWellPlaced(errors: seq<Name>, parents: map<Name, Option<Name>>, n: nat)
    requires Known(errors, parents)
    ensures WellPlaced(errors, parents, Passes(errors, parents, n))
  {
    if n > 0 {
      PassesWellPlaced(errors, parents, n - 1);
      PassKeepsWellPlaced(errors, errors, parents, Passes(errors, parents, n - 1));
    }
  }

  /** n scans place every error fewer than n steps from a root. */
  lemma {:induction false} RootedIsPlaced(errors: seq<Name>, parents: map<Name, Option<Name>>, e: Name, n: nat)
    requires Known(errors, parents) && Rooted(errors, parents, e, n)
    ensures e in Passes(errors, parents, n)
    decreases n
  {
    hide WellPlaced, Pass;
    if !NoParent(parents[e]) {
      RootedIsPlaced(errors, parents, parents[e].value, n - 1);
    }
    PassesWellPlaced(errors, parents, n - 1);
    PassKeepsWellPlaced(errors, errors, parents, Passes(errors, parents, n - 1));
  }

  /** What is placed at position i is at most i steps from a root. */
  lemma {:induction false} PlacedIsRooted(errors: seq<Name>, parents: map<Name, Option<Name>>, placed: seq<Name>, i: nat, n: nat)
    requires Known(errors, parents) && WellPlaced(errors, parents, placed) && i < |placed| && i < n
    ensures Rooted(errors, parents, placed[i], n)
    decreases n
  {
    assert placed[i] in placed;
    if !NoParent(parents[placed[i]]) {
      var j :| 0 <= j < i && placed[j] == parents[placed[i]].value;
      PlacedIsRooted(errors, parents, placed, j, n - 1);
    }
  }

  // ------------------------------------------------------------ the whole loop

  lemma {:induction false} DistinctSize(names: seq<Name>)
    ensures |set e | e in names| <= |names|
    ensures |set e | e in names| == |names| <==> Distinct(names)
  {
    if names != [] {
      var rest := names[1..];
      DistinctSize(rest);
      assert (set e | e in names) == (set e | e in rest) + {names[0]};
      assert names == [names[0]] + rest;
      if Distinct(names) {
        assert names[0] !in rest;
      } else if names[0] !in rest {
        assert !Distinct(rest);
      }
    }
  }

  lemma SubsetSize(a: set<Name>, b: set<Name>)
    requires a <= b
    ensures |a| <= |b| && (|a| == |b| ==> a == b)
  {
    assert b == a + (b - a);
  }

  /** A list as long as the errors holds all of them. */
  lemma FullWhenAsLong(errors: seq<Name>, parents: map<Name, Option<Name>>, placed: seq<Name>)
    requires Known(errors, parents) && WellPlaced(errors, parents, placed)
    ensures |placed| <= |errors|
    ensures |placed| == |errors| ==> Distinct(errors) && forall e | e in errors :: e in placed
  {
    var a, b := set e | e in placed, set e | e in errors;
    DistinctSize(placed);
    DistinctSize(errors);
    SubsetSize(a, b);
    if |placed| == |errors| {
      assert a == b;
      forall e | e in errors ensures e in placed {
        assert e in b;
      }
    }
  }

  lemma AllPlacedIsAsLong(errors: seq<Name>, placed: seq<Name>)
    requires Distinct(errors) && forall e | e in errors :: e in placed
    ensures |errors| <= |placed|
  {
    DistinctSize(errors);
    DistinctSize(placed);
    SubsetSize(set e | e in errors, set e | e in placed);
  }

  // ------------------------------------------------------------------- no cycle

  /** The error k steps up from e, if the parents go that far. */
  function Ancestor(parents: map<Name, Option<Name>>, e: Name, k: nat): Option<Name>
    decreases k
  {
    if k == 0 then Some(e)
    else if e !in parents || NoParent(parents[e]) then None
    else Ancestor(parents, parents[e].value, k - 1)
  }

  /** Every parent is one of the errors. */
  ghost predicate Closed(errors: seq<Name>, parents: map<Name, Option<Name>>)
    requires Known(errors, parents)
  {
    forall e | e in errors :: NoParent(parents[e]) || parents[e].value in errors
  }

  /** No error inherits itself, over however many steps. */
  ghost predicate Acyclic(errors: seq<Name>, parents: map<Name, Option<Name>>) {
    forall e, k: nat | e in errors && k > 0 :: Ancestor(parents, e, k) != Some(e)
  }

  lemma {:induction false} AncestorOfAncestor(parents: map<Name, Option<Name>>, e: Name, i: nat, j: nat)
    requires Ancestor(parents, e, i).Some?
    ensures Ancestor(parents, e, i + j) == Ancestor(parents, Ancestor(parents, e, i).value, j)
    decreases i
  {
    if i > 0 { AncestorOfAncestor(parents, parents[e].value, i - 1, j); }
  }

  /** An error that inherits itself leads to no root. */
  lemma {:induction false} CycleNotRooted(errors: seq<Name>, parents: map<Name, Option<Name>>, e: Name, k: nat, n: nat)
    requires Known(errors, parents) && k > 0 && Ancestor(parents, e, k) == Some(e)
    ensures !Rooted(errors, parents, e, n)
    decreases n
  {
    if n > 0 {
      var parent := parents[e].value;
      AncestorOfAncestor(parents, e, k, 1);
      assert Ancestor(parents, e, k + 1) == Some(parent) by { assert Ancestor(parents, parent, 0) == Some(parent); }
      CycleNotRooted(errors, parents, parent, k, n - 1);
    }
  }

  /** From an error that reaches no root in time the parents go on and on. */
  lemma {:induction false} LongChain(errors: seq<Name>, parents: map<Name, Option<Name>>, e: Name, n: nat)
    returns (chain: seq<Name>)
    requires Known(errors, parents) && Closed(errors, parents) && e in errors && !Rooted(errors, parents, e, n)
    ensures |chain| == n + 1
    ensures forall k | 0 <= k <= n :: chain[k] in errors && Ancestor(parents, e, k) == Some(chain[k])
    decreases n
  {
    if n == 0 {
      chain := [e];
    } else {
      var more := LongChain(errors, parents, parents[e].value, n - 1);
      chain := [e] + more;
    }
  }

  /** A root is reached from every error exactly when every parent is defined and no error
      inherits itself: a longer chain would come to some error twice. */
  lemma OrderableIffAcyclic(errors: seq<Name>, parents: map<Name, Option<Name>>)
    requires Known(errors, parents)
    ensures Orderable(errors, parents) <==> Distinct(errors) && Closed(errors, parents) && Acyclic(errors, parents)
  {
    if Orderable(errors, parents) {
      RootedCloses(errors, parents);
      forall e, k: nat | e in errors && k > 0 ensures Ancestor(parents, e, k) != Some(e) {
        if Ancestor(parents, e, k) == Some(e) { CycleNotRooted(errors, parents, e, k, |errors|); }
      }
    }
    if Distinct(errors) && Closed(errors, parents) && Acyclic(errors, parents) {
      forall e | e in errors ensures Rooted(errors, parents, e, |errors|) {
        if !Rooted(errors, parents, e, |errors|) { ChainRepeats(errors, parents, e); }
      }
    }
  }

  lemma RootedCloses(errors: seq<Name>, parents: map<Name, Option<Name>>)
    requires Known(errors, parents) && Orderable(errors, parents)
    ensures Closed(errors, parents)
  {
    forall e | e in errors ensures NoParent(parents[e]) || parents[e].value in errors {
      assert Rooted(errors, parents, e, |errors|);
      if !NoParent(parents[e]) { assert Rooted(errors, parents, parents[e].value, |errors| - 1); }
    }
  }

  lemma ChainRepeats(errors: seq<Name>, parents: map<Name, Option<Name>>, e: Name)
    requires Known(errors, parents) && Closed(errors, parents) && e in errors
    requires !Rooted(errors, parents, e, |errors|)
    ensures !Acyclic(errors, parents)
  {
    var chain := LongChain(errors, parents, e, |errors|);
    DistinctSize(chain);
    DistinctSize(errors);
    SubsetSize(set x | x in chain, set x | x in errors);
    var i, j :| 0 <= i < j < |chain| && chain[i] == chain[j];
    AncestorOfAncestor(parents, e, i, j - i);
    assert Ancestor(parents, chain[i], j - i) == Some(chain[i]);
  }

  /** The scans come to an end exactly if no name is given twice, every parent is
      defined and no error inherits itself. */
  lemma TerminatesIffOrderable(errors: seq<Name>, parents: map<Name, Option<Name>>)
    requires Known(errors, parents)
    ensures Terminates(errors, parents) <==> Orderable(errors, parents)
    ensures Terminates(errors, parents) <==> Distinct(errors) && Closed(errors, parents) && Acyclic(errors, parents)
  {
    hide Rooted, WellPlaced, Passes, Acyclic, Closed;
    OrderableIffAcyclic(errors, parents);
    if Terminates(errors, parents) {
      var n :| |Passes(errors, parents, n)| >= |errors|;
      var placed := Passes(errors, parents, n);
      PassesWellPlaced(errors, parents, n);
      FullWhenAsLong(errors, parents, placed);
      forall e | e in errors ensures Rooted(errors, parents, e, |errors|) {
        var i :| 0 <= i < |placed| && placed[i] == e;
        PlacedIsRooted(errors, parents, placed, i, |errors|);
      }
    }
    if Orderable(errors, parents) {
      forall e | e in errors ensures e in Passes(errors, parents, |errors|) {
        RootedIsPlaced(errors, parents, e, |errors|);
      }
      AllPlacedIsAsLong(errors, Passes(errors, parents, |errors|));
      assert |Passes(errors, parents, |errors|)| >= |errors|;
    }
  }

  /** An error not yet placed leads to one that the next scan places. */
  lemma {:induction false} SomethingToPlace(errors: seq<Name>, parents: map<Name, Option<Name>>, placed: seq<Name>,
                                              e: Name, n: nat)
    returns (next: Name)
    requires Known(errors, parents) && Rooted(errors, parents, e, n) && e !in placed
    ensures next in errors && next !in placed && CanPlace(next, placed, parents)
    decreases n
  {
    if CanPlace(e, placed, parents) {
      next := e;
    } else {
      next := SomethingToPlace(errors, parents, placed, parents[e].value, n - 1);
    }
  }

  /** While anything is missing, a scan places at least one more. */
  lemma PassMakesProgress(errors: seq<Name>, parents: map<Name, Option<Name>>, placed: seq<Name>)
    requires Known(errors, parents) && Orderable(errors, parents) && WellPlaced(errors, parents, placed)
    requires |placed| < |errors|
    ensures |Pass(errors, placed, parents)| > |placed|
  {
    if forall e | e in errors :: e in placed {
      AllPlacedIsAsLong(errors, placed);
    }
    var e :| e in errors && e !in placed;
    var next := SomethingToPlace(errors, parents, placed, e, |errors|);
    PassKeepsWellPlaced(errors, errors, parents, placed);
    assert next in Pass(errors, placed, parents);
  }

  /** order_inherited_errors: a reordering of the errors with every parent first. */
  method OrderInheritedErrors(errors: seq<Name>, parents: map<Name, Option<Name>>) returns (ordered: seq<Name>)
    requires Known(errors, parents) && (HasInheritance(errors, parents) ==> Orderable(errors, parents))
    ensures if HasInheritance(errors, parents) then WellPlaced(errors, parents, ordered) else ordered == errors
    ensures |ordered| == |errors| && forall e :: e in errors <==> e in ordered
    ensures HasInheritance(errors, parents) ==> exists n :: ordered == Passes(errors, parents, n)
  {
    hide WellPlaced, Rooted, Orderable, Pass;
    var hasInheritance := false;
    for i := 0 to |errors|
      invariant !hasInheritance && forall k | 0 <= k < i :: parents[errors[k]].None?
    {
      if parents[errors[i]].Some? {
        hasInheritance := true;
        break;
      }
    }
    if !hasInheritance { return errors; }
    ordered := [];
    ghost var n := 0;
    PassesWellPlaced(errors, parents, 0);
    while |ordered| < |errors|
      invariant WellPlaced(errors, parents, ordered) && ordered == Passes(errors, parents, n)
      decreases |errors| - |ordered|
    {
      PassMakesProgress(errors, parents, ordered);
      PassKeepsWellPlaced(errors, errors, parents, ordered);
      ordered := Scan(errors, ordered, parents);
      n := n + 1;
    }
    FullWhenAsLong(errors, parents, ordered);
    assert forall e | e in ordered :: e in errors by { PlacedAreErrors(errors, parents, ordered); }
  }

  lemma PlacedAreErrors(errors: seq<Name>, parents: map<Name, Option<Name>>, placed: seq<Name>)
    requires Known(errors, parents) && WellPlaced(errors, parents, placed)
    ensures forall e | e in placed :: e in errors
  {}

  /** The inner loop. */
  method Scan(errors: seq<Name>, placed: seq<Name>, parents: map<Name, Option<Name>>) returns (ordered: seq<Name>)
    requires Known(errors, parents)
    ensures ordered == Pass(errors, placed, parents)
  {
    ordered := placed;
    for i := 0 to |errors|
      invariant Pass(errors, placed, parents) == Pass(errors[i..], ordered, parents)
    {
      assert errors[i..][0] == errors[i] && errors[i..][1..] == errors[i + 1..];
      if errors[i] in ordered { continue; }
      if NoParent(parents[errors[i]]) || parents[errors[i]].value in ordered {
        ordered := ordered + [errors[i]];
      }
    }
  }

  /** check_error_inheritance: false if a parent is not defined. */
  method CheckErrorInheritance(errors: seq<Name>, parents: map<Name, Option<Name>>) returns (ok: bool)
    requires Known(errors, parents)
    ensures ok <==> forall e | e in errors :: NoParent(parents[e]) || parents[e].value in errors
  {
    for i := 0 to |errors|
      invariant forall k | 0 <= k < i :: NoParent(parents[errors[k]]) || parents[errors[k]].value in errors
    {
      if !NoParent(parents[errors[i]]) && parents[errors[i]].value !in errors {
        return false;
      }
    }
    return true;
  }
}
