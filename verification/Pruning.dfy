/** Which PELs pruning removes, stated without loops, and what holds afterwards. */
module Pruning {
  import opened RepositoryState

  // --------------------------------------------------------------------- limits

  /** The five pairs of "over its limit" and "is of this type" functions. */
  datatype Limit = BmcInfoLimit | BmcNonInfoLimit | NonBmcInfoLimit | NonBmcNonInfoLimit | TooManyPELs

  function CategoryOf(limit: Limit): Category {
    match limit
    case BmcInfoLimit => BmcInfo
    case BmcNonInfoLimit => BmcServiceable
    case NonBmcInfoLimit => NonBmcInfo
    case NonBmcNonInfoLimit => NonBmcServiceable
    case TooManyPELs => Total
  }

  function PercentOf(value: Maximum, percent: nat): nat {
    value * percent / 100
  }

  /** What a limit measures: the bytes of a category, or the number of PELs. */
  function Used(s: RepoState, limit: Limit): nat {
    match limit
    case BmcInfoLimit => s.sizes.bmcInfo
    case BmcNonInfoLimit => s.sizes.bmcServiceable
    case NonBmcInfoLimit => s.sizes.nonBMCInfo
    case NonBmcNonInfoLimit => s.sizes.nonBMCServiceable
    case TooManyPELs => |s.pels|
  }

  function Bound(s: RepoState, limit: Limit): nat {
    match limit
    case BmcInfoLimit => PercentOf(s.maxRepoSize, 15)
    case BmcNonInfoLimit => PercentOf(s.maxRepoSize, 30)
    case NonBmcInfoLimit => PercentOf(s.maxRepoSize, 15)
    case NonBmcNonInfoLimit => PercentOf(s.maxRepoSize, 30)
    case TooManyPELs => PercentOf(s.maxNumPELs, 80)
  }

  predicate IsOverLimit(s: RepoState, limit: Limit) {
    Used(s, limit) > Bound(s, limit)
  }

  predicate IsPELType(a: Attributes, limit: Limit) {
    match limit
    case BmcInfoLimit => IsBMC(a) && !IsServiceableSev(a)
    case BmcNonInfoLimit => IsBMC(a) && IsServiceableSev(a)
    case NonBmcInfoLimit => !IsBMC(a) && !IsServiceableSev(a)
    case NonBmcNonInfoLimit => !IsBMC(a) && IsServiceableSev(a)
    case TooManyPELs => true
  }

  // -------------------------------------------------------------- oldest first

  /** The order of file names, and of the paths of files in one directory. */
  predicate PathLess(a: string, b: string) {
    b != [] && (a == [] || a[0] < b[0] || (a[0] == b[0] && PathLess(a[1..], b[1..])))
  }

  lemma {:induction false} PathLessIsTotalOrder(a: string, b: string, c: string)
    ensures PathLess(a, b) && PathLess(b, c) ==> PathLess(a, c)
    ensures !PathLess(a, a)
    ensures PathLess(a, b) || PathLess(b, a) || a == b
  {
    if a != [] && b != [] && c != [] {
      PathLessIsTotalOrder(a[1..], b[1..], c[1..]);
      assert a[1..] == b[1..] && a[0] == b[0] ==> a == b by { assert a == [a[0]] + a[1..] && b == [b[0]] + b[1..]; }
    } else if a != [] {
      if b != [] {
        PathLessIsTotalOrder(a[1..], b[1..], []);
        assert a[1..] == b[1..] && a[0] == b[0] ==> a == b by { assert a == [a[0]] + a[1..] && b == [b[0]] + b[1..]; }
      } else {
        PathLessIsTotalOrder(a[1..], [], []);
      }
    }
  }

  ghost predicate SortedByPath(es: seq<Entry>) {
    forall i, j | 0 <= i < j < |es| :: !PathLess(es[j].attr.path, es[i].attr.path)
  }

  ghost predicate DistinctPaths(es: seq<Entry>) {
    forall i, j | 0 <= i < j < |es| :: es[i].attr.path != es[j].attr.path
  }

  function InsertByPath(e: Entry, es: seq<Entry>): seq<Entry> {
    if es == [] || PathLess(e.attr.path, es[0].attr.path) then [e] + es
    else [es[0]] + InsertByPath(e, es[1..])
  }

  /** getAllPELAttributes(SortOrder::ascending). */
  function AllByPath(es: seq<Entry>): seq<Entry>
    decreases |es|
  {
    if es == [] then [] else InsertByPath(es[|es| - 1], AllByPath(es[..|es| - 1]))
  }

  lemma SortedPrepend(e: Entry, es: seq<Entry>)
    requires SortedByPath(es) && forall x | x in es :: !PathLess(x.attr.path, e.attr.path)
    ensures SortedByPath([e] + es)
  {
    var r := [e] + es;
    forall i, j | 0 <= i < j < |r| ensures !PathLess(r[j].attr.path, r[i].attr.path) {
      assert r[j] == es[j - 1];
      if i > 0 { assert r[i] == es[i - 1]; }
    }
  }

  lemma SortedHead(es: seq<Entry>, e: Entry)
    requires SortedByPath(es) && e in es
    ensures !PathLess(e.attr.path, es[0].attr.path)
  {
    var i :| 0 <= i < |es| && es[i] == e;
    PathLessIsTotalOrder(e.attr.path, e.attr.path, e.attr.path);
  }

  lemma {:induction false} InsertByPathSorts(e: Entry, es: seq<Entry>)
    requires SortedByPath(es)
    ensures SortedByPath(InsertByPath(e, es))
    ensures multiset(InsertByPath(e, es)) == multiset(es) + multiset{e}
  {
    if es == [] {
    } else if PathLess(e.attr.path, es[0].attr.path) {
      forall x | x in es ensures !PathLess(x.attr.path, e.attr.path) {
        SortedHead(es, x);
        PathLessIsTotalOrder(x.attr.path, e.attr.path, es[0].attr.path);
      }
      SortedPrepend(e, es);
    } else {
      var t := InsertByPath(e, es[1..]);
      InsertByPathSorts(e, es[1..]);
      assert es == [es[0]] + es[1..];
      forall x | x in t ensures !PathLess(x.attr.path, es[0].attr.path) {
        assert x in multiset(t);
        if x != e { SortedHead(es, x); }
      }
      SortedPrepend(es[0], t);
    }
  }

  lemma {:induction false} AllByPathSorts(es: seq<Entry>)
    ensures SortedByPath(AllByPath(es))
    ensures multiset(AllByPath(es)) == multiset(es)
    decreases |es|
  {
    if es != [] {
      AllByPathSorts(es[..|es| - 1]);
      InsertByPathSorts(es[|es| - 1], AllByPath(es[..|es| - 1]));
      assert es == es[..|es| - 1] + [es[|es| - 1]];
    }
  }

  lemma DistinctPathsMember(es: seq<Entry>, e: Entry)
    requires DistinctPaths(es) && e in es && e.attr.path == es[0].attr.path
    ensures e == es[0]
  {
    var i :| 0 <= i < |es| && es[i] == e;
  }

  /** PEL files have different names, so any sort whatever returns this list. */
  lemma {:induction false} SortedByPathUnique(es: seq<Entry>, fs: seq<Entry>)
    requires SortedByPath(es) && SortedByPath(fs) && multiset(es) == multiset(fs)
    requires DistinctPaths(es)
    ensures es == fs
    decreases |es|
  {
    hide SortedByPath, DistinctPaths, PathLess;
    assert |es| == |multiset(es)| == |multiset(fs)| == |fs|;
    if es != [] {
      SameHead(es, fs);
      TailSorted(es);
      TailSorted(fs);
      TailDistinct(es);
      TailContents(es);
      TailContents(fs);
      SortedByPathUnique(es[1..], fs[1..]);
    }
  }

  lemma TailSorted(es: seq<Entry>)
    requires SortedByPath(es) && es != []
    ensures SortedByPath(es[1..])
  {}

  lemma TailDistinct(es: seq<Entry>)
    requires DistinctPaths(es) && es != []
    ensures DistinctPaths(es[1..])
  {}

  lemma TailContents(es: seq<Entry>)
    requires es != []
    ensures es == [es[0]] + es[1..] && multiset(es[1..]) == multiset(es) - multiset{es[0]}
  {
    assert es == [es[0]] + es[1..];
  }

  lemma SameHead(es: seq<Entry>, fs: seq<Entry>)
    requires SortedByPath(es) && SortedByPath(fs) && multiset(es) == multiset(fs)
    requires DistinctPaths(es) && es != [] && fs != []
    ensures es[0] == fs[0]
  {
    assert es[0] in multiset(fs) && fs[0] in multiset(es);
    SortedHead(fs, es[0]);
    SortedHead(es, fs[0]);
    PathLessIsTotalOrder(es[0].attr.path, fs[0].attr.path, []);
    DistinctPathsMember(es, fs[0]);
  }

  // ------------------------------------------------------------- removal priority

  /** The four passes: HMC acked, then OS acked, then sent, then everything. */
  predicate StateCheck(a: Attributes, pass: nat) {
    match pass
    case 0 => a.hmcState == Acked
    case 1 => a.hostState == Acked
    case 2 => a.hostState == Sent
    case _ => true
  }

  /** The first of the four passes that would take this PEL. */
  function FirstPass(a: Attributes): nat {
    if StateCheck(a, 0) then 0 else if StateCheck(a, 1) then 1 else if StateCheck(a, 2) then 2 else 3
  }

  predicate Removable(e: Entry, limit: Limit, isolated: seq<Uint32>) {
    IsPELType(e.attr, limit) && e.id.obmcID !in isolated
  }

  /** The removable PELs that pass takes first, in the order given. */
  function InPass(es: seq<Entry>, limit: Limit, isolated: seq<Uint32>, pass: nat): seq<Entry> {
    if es == [] then []
    else if Removable(es[0], limit, isolated) && FirstPass(es[0].attr) == pass then
      [es[0]] + InPass(es[1..], limit, isolated, pass)
    else InPass(es[1..], limit, isolated, pass)
  }

  /** All removable PELs from a pass on, in removal order. */
  function FromPass(es: seq<Entry>, limit: Limit, isolated: seq<Uint32>, pass: nat): seq<Entry>
    decreases 4 - pass, es
  {
    if pass >= 4 then [] else InPass(es, limit, isolated, pass) + FromPass(es, limit, isolated, pass + 1)
  }

  function RemovalOrder(es: seq<Entry>, limit: Limit, isolated: seq<Uint32>): seq<Entry> {
    FromPass(AllByPath(es), limit, isolated, 0)
  }

  /** The entries that are not among those gone. */
  function Keep(es: seq<Entry>, gone: seq<Entry>): seq<Entry> {
    if es == [] then []
    else if es[0] in gone then Keep(es[1..], gone)
    else [es[0]] + Keep(es[1..], gone)
  }

  /** The repository without some of its entries, all else as it was. */
  function RemoveEntries(s: RepoState, gone: seq<Entry>): RepoState {
    s.(pels := Keep(s.pels, gone), sizes := SizesOf(Keep(s.pels, gone)))
  }

  /** What removing one PEL takes off the measure of a limit. */
  function Weight(e: Entry, limit: Limit): nat {
    if limit == TooManyPELs then 1 else e.attr.sizeOnDisk
  }

  function WeightOf(es: seq<Entry>, limit: Limit): nat {
    if es == [] then 0 else Weight(es[0], limit) + WeightOf(es[1..], limit)
  }

  /** The entries taken off the front of an order until the measure is within the
      bound. */
  function Victims(used: int, bound: nat, limit: Limit, order: seq<Entry>): seq<Entry>
    decreases |order|
  {
    if order == [] || used <= bound then []
    else [order[0]] + Victims(used - Weight(order[0], limit), bound, limit, order[1..])
  }

  function VictimsOf(s: RepoState, limit: Limit, isolated: seq<Uint32>): seq<Entry> {
    Victims(Used(s, limit), Bound(s, limit), limit, RemovalOrder(s.pels, limit, isolated))
  }

  function LogIDsOf(es: seq<Entry>): (r: seq<Uint32>)
    ensures |r| == |es| && forall i | 0 <= i < |es| :: r[i] == es[i].id.obmcID
  {
    seq(|es|, i requires 0 <= i < |es| => es[i].id.obmcID)
  }

  datatype Pruned = Pruned(state: RepoState, removed: seq<Entry>)

  /** removePELs for one limit. */
  function RemovePELs(s: RepoState, limit: Limit, isolated: seq<Uint32>): Pruned {
    var victims := VictimsOf(s, limit, isolated);
    Pruned(RemoveEntries(s, victims), victims)
  }

  function RemoveMore(p: Pruned, limit: Limit, isolated: seq<Uint32>): Pruned {
    var q := RemovePELs(p.state, limit, isolated);
    Pruned(q.state, p.removed + q.removed)
  }

  /** The order in which prune sees to its limits. */
  function LimitAt(stage: nat): Limit {
    match stage
    case 0 => BmcInfoLimit
    case 1 => BmcNonInfoLimit
    case 2 => NonBmcInfoLimit
    case 3 => NonBmcNonInfoLimit
    case _ => TooManyPELs
  }

  /** removePELs for the first so many limits, one after the other. */
  function Stages(s: RepoState, n: nat, isolated: seq<Uint32>): Pruned
    decreases n, s.pels
  {
    if n == 0 then Pruned(s, []) else RemoveMore(Stages(s, n - 1, isolated), LimitAt(n - 1), isolated)
  }

  /** prune: the four size categories, then the count if it is still too high. */
  function Prune(s: RepoState, isolated: seq<Uint32>): Pruned {
    var p := Stages(s, 4, isolated);
    if |p.state.pels| > p.state.maxNumPELs then Stages(s, 5, isolated) else p
  }

  // ------------------------------------------------------ what the order contains

  lemma {:induction false} InPassContents(es: seq<Entry>, limit: Limit, isolated: seq<Uint32>, pass: nat)
    ensures forall e ::
      e in InPass(es, limit, isolated, pass) <==> e in es && Removable(e, limit, isolated) && FirstPass(e.attr) == pass
  {
    if es != [] {
      InPassContents(es[1..], limit, isolated, pass);
      assert forall e :: e in es <==> e == es[0] || e in es[1..];
    }
  }

  lemma {:induction false} FromPassContents(es: seq<Entry>, limit: Limit, isolated: seq<Uint32>, pass: nat)
    ensures forall e ::
      e in FromPass(es, limit, isolated, pass) <==> e in es && Removable(e, limit, isolated) && FirstPass(e.attr) >= pass
    decreases 4 - pass
  {
    if pass < 4 {
      InPassContents(es, limit, isolated, pass);
      FromPassContents(es, limit, isolated, pass + 1);
    }
  }

  /** Earlier in the removal order: an earlier pass, or the same pass and not newer. */
  predicate Before(x: Entry, y: Entry) {
    FirstPass(x.attr) < FirstPass(y.attr)
    || (FirstPass(x.attr) == FirstPass(y.attr) && !PathLess(y.attr.path, x.attr.path))
  }

  ghost predicate InRemovalOrder(es: seq<Entry>) {
    forall i, j | 0 <= i < j < |es| :: Before(es[i], es[j])
  }

  lemma {:induction false} InPassOrdered(es: seq<Entry>, limit: Limit, isolated: seq<Uint32>, pass: nat)
    requires SortedByPath(es)
    ensures InRemovalOrder(InPass(es, limit, isolated, pass))
  {
    if es != [] {
      var r, t := InPass(es, limit, isolated, pass), InPass(es[1..], limit, isolated, pass);
      InPassOrdered(es[1..], limit, isolated, pass);
      InPassContents(es[1..], limit, isolated, pass);
      if r != t {
        assert r == [es[0]] + t;
        forall i, j | 0 <= i < j < |r| ensures Before(r[i], r[j]) {
          assert r[j] == t[j - 1] && r[j] in t;
          if i > 0 { assert r[i] == t[i - 1]; }
        }
      }
    }
  }

  lemma OrderedConcat(a: seq<Entry>, b: seq<Entry>)
    requires InRemovalOrder(a) && InRemovalOrder(b)
    requires forall x, y | x in a && y in b :: Before(x, y)
    ensures InRemovalOrder(a + b)
  {
    var r := a + b;
    forall i, j | 0 <= i < j < |r| ensures Before(r[i], r[j]) {
      if i < |a| <= j {
        assert r[i] == a[i] && r[j] == b[j - |a|];
      }
    }
  }

  lemma {:induction false} FromPassOrdered(es: seq<Entry>, limit: Limit, isolated: seq<Uint32>, pass: nat)
    requires SortedByPath(es)
    ensures InRemovalOrder(FromPass(es, limit, isolated, pass))
    decreases 4 - pass
  {
    if pass < 4 {
      InPassOrdered(es, limit, isolated, pass);
      InPassContents(es, limit, isolated, pass);
      FromPassOrdered(es, limit, isolated, pass + 1);
      FromPassContents(es, limit, isolated, pass + 1);
      OrderedConcat(InPass(es, limit, isolated, pass), FromPass(es, limit, isolated, pass + 1));
    }
  }

  lemma {:induction false} InPassCount(es: seq<Entry>, limit: Limit, isolated: seq<Uint32>, pass: nat, e: Entry)
    ensures multiset(InPass(es, limit, isolated, pass))[e]
         == if Removable(e, limit, isolated) && FirstPass(e.attr) == pass then multiset(es)[e] else 0
  {
    if es != [] {
      assert es == [es[0]] + es[1..];
      InPassCount(es[1..], limit, isolated, pass, e);
    }
  }

  lemma {:induction false} FromPassCount(es: seq<Entry>, limit: Limit, isolated: seq<Uint32>, pass: nat, e: Entry)
    ensures multiset(FromPass(es, limit, isolated, pass))[e]
         == if Removable(e, limit, isolated) && FirstPass(e.attr) >= pass then multiset(es)[e] else 0
    decreases 4 - pass
  {
    if pass < 4 {
      InPassCount(es, limit, isolated, pass, e);
      FromPassCount(es, limit, isolated, pass + 1, e);
    }
  }

  lemma {:induction false} NoRepeatsByCount(es: seq<Entry>)
    requires forall e :: multiset(es)[e] <= 1
    ensures forall i, j | 0 <= i < j < |es| :: es[i] != es[j]
  {
    forall i, j | 0 <= i < j < |es| ensures es[i] != es[j] {
      assert es == es[..i] + ([es[i]] + es[i + 1..]);
      assert es[i + 1..][j - i - 1] == es[j];
      assert multiset(es) == multiset(es[..i]) + multiset{es[i]} + multiset(es[i + 1..]);
      assert multiset(es)[es[i]] <= 1;
    }
  }

  lemma {:induction false} AscendingCount(es: seq<Entry>, e: Entry)
    requires Ascending(es)
    ensures multiset(es)[e] <= 1
  {
    if es != [] {
      assert es == [es[0]] + es[1..];
      AscendingCount(es[1..], e);
      if e == es[0] { assert e !in es[1..]; }
    }
  }

  /** The order names every removable stored PEL once, and is sorted by (pass,
      path): first the pass that takes the PEL, then the oldest file. */
  lemma RemovalOrderIsPriorityOrder(es: seq<Entry>, limit: Limit, isolated: seq<Uint32>)
    requires Ascending(es)
    ensures forall e :: e in RemovalOrder(es, limit, isolated) <==> e in es && Removable(e, limit, isolated)
    ensures InRemovalOrder(RemovalOrder(es, limit, isolated))
    ensures NoRepeats(RemovalOrder(es, limit, isolated))
  {
    var order := RemovalOrder(es, limit, isolated);
    AllByPathSorts(es);
    FromPassContents(AllByPath(es), limit, isolated, 0);
    FromPassOrdered(AllByPath(es), limit, isolated, 0);
    assert forall e :: e in es <==> e in multiset(AllByPath(es));
    forall e ensures multiset(order)[e] <= 1 {
      FromPassCount(AllByPath(es), limit, isolated, 0, e);
      AscendingCount(es, e);
    }
    NoRepeatsByCount(order);
  }

  ghost predicate NoRepeats(es: seq<Entry>) {
    forall i, j | 0 <= i < j < |es| :: es[i] != es[j]
  }

  // ------------------------------------------------- removing a list of entries

  lemma {:induction false} KeepContents(es: seq<Entry>, gone: seq<Entry>)
    requires Ascending(es)
    ensures Ascending(Keep(es, gone))
    ensures forall x :: x in Keep(es, gone) <==> x in es && x !in gone
  {
    if es != [] {
      var t := Keep(es[1..], gone);
      KeepContents(es[1..], gone);
      assert forall x :: x in es <==> x == es[0] || x in es[1..];
      if es[0] !in gone {
        var r := [es[0]] + t;
        forall i, j | 0 <= i < j < |r| ensures r[i].id.pelID < r[j].id.pelID {
          assert r[j] == t[j - 1] && r[j] in t && r[j] in es[1..];
          if i > 0 { assert r[i] == t[i - 1]; }
        }
      }
    }
  }

  lemma {:induction false} KeepNone(es: seq<Entry>)
    ensures Keep(es, []) == es
  {
    if es != [] {
      KeepNone(es[1..]);
    }
  }

  lemma {:induction false} KeepTwice(es: seq<Entry>, a: seq<Entry>, b: seq<Entry>)
    ensures Keep(Keep(es, a), b) == Keep(es, a + b)
  {
    if es != [] {
      KeepTwice(es[1..], a, b);
      if es[0] !in a {
        assert Keep(es, a)[1..] == Keep(es[1..], a);
      }
    }
  }

  /** Erasing one entry of an ascending map keeps everything but that entry. */
  lemma {:induction false} KeepOne(es: seq<Entry>, j: nat)
    requires Ascending(es) && j < |es|
    ensures Keep(es, [es[j]]) == EraseAt(es, j)
  {
    assert es == [es[0]] + es[1..];
    if j == 0 {
      KeepAll(es[1..], es[0]);
    } else {
      KeepOne(es[1..], j - 1);
      assert es[0] !in [es[j]];
    }
  }

  lemma {:induction false} KeepAll(es: seq<Entry>, e: Entry)
    requires e !in es
    ensures Keep(es, [e]) == es
  {
    if es != [] {
      KeepAll(es[1..], e);
    }
  }

  /** Removing one more stored PEL, as Repository::remove does it. */
  lemma RemoveOneMore(s: RepoState, gone: seq<Entry>, e: Entry)
    requires Valid(RemoveEntries(s, gone)) && e in RemoveEntries(s, gone).pels
    ensures RemovePEL(RemoveEntries(s, gone), e.id) == RemoveEntries(s, gone + [e])
  {
    var r := RemoveEntries(s, gone);
    FindOwnID(r.pels, e);
    var j := FindPEL(r.pels, e.id);
    KeepOne(r.pels, j);
    KeepTwice(s.pels, gone, [e]);
    RemoveAtKeepsCounters(r, j);
  }

  lemma RemoveStored(s: RepoState, e: Entry)
    requires Valid(s) && e in s.pels
    ensures Valid(RemovePEL(s, e.id))
    ensures |RemovePEL(s, e.id).pels| == |s.pels| - 1
    ensures forall x :: x in RemovePEL(s, e.id).pels <==> x in s.pels && x != e
  {
    FindOwnID(s.pels, e);
    var j := FindPEL(s.pels, e.id);
    RemoveAtKeepsValid(s, j);
    EraseContents(s.pels, j);
  }

  lemma RemoveStoredUsed(s: RepoState, e: Entry, limit: Limit)
    requires Valid(s) && e in s.pels && IsPELType(e.attr, limit)
    ensures Used(RemovePEL(s, e.id), limit) == Used(s, limit) - Weight(e, limit)
  {
    FindOwnID(s.pels, e);
    var j := FindPEL(s.pels, e.id);
    RemoveAtKeepsCounters(s, j);
    var c := CategoryOf(limit);
    assert Counter(RemoveAt(s, j).sizes, c) == Counter(s.sizes, c) - SizeOf(e.attr, c);
  }

  lemma {:induction false} SumOfKeep(es: seq<Entry>, gone: seq<Entry>, c: Category)
    ensures SumOf(Keep(es, gone), c) <= SumOf(es, c)
  {
    if es != [] {
      SumOfKeep(es[1..], gone, c);
      if es[0] !in gone {
        assert Keep(es, gone)[1..] == Keep(es[1..], gone);
      }
    }
  }

  /** Removing entries keeps the repository valid and enlarges no counter. */
  lemma RemoveEntriesKeepsValid(s: RepoState, gone: seq<Entry>)
    requires Valid(s)
    ensures Valid(RemoveEntries(s, gone))
    ensures forall c: Category :: Counter(RemoveEntries(s, gone).sizes, c) <= Counter(s.sizes, c)
  {
    KeepContents(s.pels, gone);
    forall c: Category ensures SumOf(Keep(s.pels, gone), c) <= SumOf(s.pels, c) {
      SumOfKeep(s.pels, gone, c);
    }
    forall c: Category ensures Counter(RemoveEntries(s, gone).sizes, c) <= Counter(s.sizes, c) {
      SizesOfCounter(s.pels, c);
      SizesOfCounter(Keep(s.pels, gone), c);
    }
  }

  lemma {:induction false} WeightOfSnoc(es: seq<Entry>, e: Entry, limit: Limit)
    ensures WeightOf(es + [e], limit) == WeightOf(es, limit) + Weight(e, limit)
  {
    if es == [] {
      assert [] + [e] == [e];
    } else {
      assert (es + [e])[1..] == es[1..] + [e];
      WeightOfSnoc(es[1..], e, limit);
    }
  }

  /** Removing stored PELs of a limit's type takes their weight off its measure,
      and their number off the number of PELs. */
  lemma {:induction false} RemoveEntriesUsed(s: RepoState, limit: Limit, gone: seq<Entry>)
    requires Valid(s) && NoRepeats(gone)
    requires forall e | e in gone :: e in s.pels && IsPELType(e.attr, limit)
    ensures Used(RemoveEntries(s, gone), limit) == Used(s, limit) - WeightOf(gone, limit)
    ensures |RemoveEntries(s, gone).pels| == |s.pels| - |gone|
    decreases |gone|
  {
    if gone == [] {
      KeepNone(s.pels);
    } else {
      var n := |gone| - 1;
      var e := gone[n];
      assert gone == gone[..n] + [e];
      RemoveEntriesUsed(s, limit, gone[..n]);
      RemoveEntriesKeepsValid(s, gone[..n]);
      KeepContents(s.pels, gone[..n]);
      RemoveOneMore(s, gone[..n], e);
      RemoveStored(RemoveEntries(s, gone[..n]), e);
      RemoveStoredUsed(RemoveEntries(s, gone[..n]), e, limit);
      WeightOfSnoc(gone[..n], e, limit);
    }
  }

  // --------------------------------------------- the shortest prefix that suffices

  /** The victims are a prefix of the order; every shorter prefix leaves too much;
      and the prefix leaves little enough or is the whole order. */
  lemma {:induction false} VictimsAreShortestPrefix(used: int, bound: nat, limit: Limit, order: seq<Entry>)
    ensures var vs := Victims(used, bound, limit, order);
      && vs <= order
      && (forall m | 0 <= m < |vs| :: used - WeightOf(order[..m], limit) > bound)
      && (vs == order || used - WeightOf(vs, limit) <= bound)
    decreases |order|
  {
    if order != [] && used > bound {
      var vs := Victims(used, bound, limit, order);
      VictimsAreShortestPrefix(used - Weight(order[0], limit), bound, limit, order[1..]);
      forall m | 0 <= m < |vs| ensures used - WeightOf(order[..m], limit) > bound {
        if m > 0 {
          assert order[..m][1..] == order[1..][..m - 1];
        }
      }
    }
  }

  lemma PrefixOfOrder(s: RepoState, limit: Limit, isolated: seq<Uint32>, gone: seq<Entry>)
    requires Valid(s) && gone <= RemovalOrder(s.pels, limit, isolated)
    ensures NoRepeats(gone)
    ensures forall e | e in gone :: e in s.pels && Removable(e, limit, isolated)
  {
    var order := RemovalOrder(s.pels, limit, isolated);
    RemovalOrderIsPriorityOrder(s.pels, limit, isolated);
    assert forall i | 0 <= i < |gone| :: gone[i] == order[i];
    forall e | e in gone ensures e in order {
      var i :| 0 <= i < |gone| && gone[i] == e;
      assert order[i] == e;
    }
  }

  ghost predicate OverAfter(s: RepoState, limit: Limit, gone: seq<Entry>) {
    IsOverLimit(RemoveEntries(s, gone), limit)
  }

  lemma OverAfterWeight(s: RepoState, limit: Limit, isolated: seq<Uint32>, gone: seq<Entry>)
    requires Valid(s) && gone <= RemovalOrder(s.pels, limit, isolated)
    ensures OverAfter(s, limit, gone) <==> Used(s, limit) - WeightOf(gone, limit) > Bound(s, limit)
  {
    PrefixOfOrder(s, limit, isolated, gone);
    RemoveEntriesUsed(s, limit, gone);
  }

  /** removePELs removes a prefix of the removal order: at every shorter prefix
      the limit was still exceeded, and it ends within the limit or with the whole
      order.  Nothing is removed if the limit was not exceeded to begin with. */
  lemma RemovesShortestPrefix(s: RepoState, limit: Limit, isolated: seq<Uint32>)
    requires Valid(s)
    ensures var vs := RemovePELs(s, limit, isolated).removed;
      var order := RemovalOrder(s.pels, limit, isolated);
      && vs <= order
      && (forall m | 0 <= m < |vs| :: OverAfter(s, limit, order[..m]))
      && (vs == order || !OverAfter(s, limit, vs))
      && (!IsOverLimit(s, limit) ==> vs == [])
  {
    var order := RemovalOrder(s.pels, limit, isolated);
    var vs := VictimsOf(s, limit, isolated);
    VictimsAreShortestPrefix(Used(s, limit), Bound(s, limit), limit, order);
    forall m | 0 <= m < |vs| ensures OverAfter(s, limit, order[..m]) {
      OverAfterWeight(s, limit, isolated, order[..m]);
    }
    OverAfterWeight(s, limit, isolated, vs);
  }

  /** There is one such prefix, so the property above says all there is to say. */
  lemma ShortestPrefixUnique(s: RepoState, limit: Limit, isolated: seq<Uint32>, n: nat)
    requires Valid(s) && n <= |RemovalOrder(s.pels, limit, isolated)|
    requires var order := RemovalOrder(s.pels, limit, isolated);
      && (forall m | 0 <= m < n :: OverAfter(s, limit, order[..m]))
      && (n == |order| || !OverAfter(s, limit, order[..n]))
    ensures RemovePELs(s, limit, isolated).removed == RemovalOrder(s.pels, limit, isolated)[..n]
  {
    var order := RemovalOrder(s.pels, limit, isolated);
    var vs := RemovePELs(s, limit, isolated).removed;
    RemovesShortestPrefix(s, limit, isolated);
    assert vs == order[..|vs|];
  }

  // -------------------------------------------------------- after one removePELs

  /** Under its limit, or nothing is left of the type but isolated PELs. */
  ghost predicate Settled(s: RepoState, limit: Limit, isolated: seq<Uint32>) {
    !IsOverLimit(s, limit) || forall e | e in s.pels && IsPELType(e.attr, limit) :: e.id.obmcID in isolated
  }

  /** s' is s without the removed PELs, none of which is isolated. */
  ghost predicate Without(s: RepoState, s': RepoState, removed: seq<Entry>, isolated: seq<Uint32>) {
    && s'.maxRepoSize == s.maxRepoSize && s'.maxNumPELs == s.maxNumPELs && s'.pending == s.pending
    && NoRepeats(removed)
    && (forall e :: e in removed ==> e in s.pels && e.id.obmcID !in isolated)
    && (forall x :: x in s'.pels <==> x in s.pels && x !in removed)
    && |s'.pels| == |s.pels| - |removed|
    && (forall c: Category :: Counter(s'.sizes, c) <= Counter(s.sizes, c))
  }

  /** One removePELs call: only removable PELs of the type go, and afterwards the
      limit holds or every survivor of the type is isolated. */
  lemma RemovePELsEffect(s: RepoState, limit: Limit, isolated: seq<Uint32>)
    requires Valid(s)
    ensures var p := RemovePELs(s, limit, isolated);
      && Valid(p.state)
      && Without(s, p.state, p.removed, isolated)
      && (forall e :: e in p.removed ==> IsPELType(e.attr, limit))
      && Settled(p.state, limit, isolated)
  {
    var vs := VictimsOf(s, limit, isolated);
    RemovesShortestPrefix(s, limit, isolated);
    PrefixOfOrder(s, limit, isolated, vs);
    RemoveEntriesKeepsValid(s, vs);
    RemoveEntriesUsed(s, limit, vs);
    KeepContents(s.pels, vs);
    if vs == RemovalOrder(s.pels, limit, isolated) {
      RemovalOrderIsPriorityOrder(s.pels, limit, isolated);
    }
  }

  lemma {:induction false} SumOfNone(es: seq<Entry>, c: Category)
    requires forall e | e in es :: !InCategory(e.attr, c)
    ensures SumOf(es, c) == 0
  {
    if es != [] {
      assert es[0] in es;
      assert forall e | e in es[1..] :: e in es;
      SumOfNone(es[1..], c);
    }
  }

  /** With nothing isolated, settled means within the limit. */
  lemma SettledWithin(s: RepoState, limit: Limit)
    requires Valid(s) && Settled(s, limit, [])
    ensures !IsOverLimit(s, limit)
  {
    var c := CategoryOf(limit);
    SizesOfCounter(s.pels, c);
    if s.pels != [] {
      assert s.pels[0] in s.pels;
    }
    if forall e | e in s.pels :: !InCategory(e.attr, c) {
      SumOfNone(s.pels, c);
    }
  }

  // ---------------------------------------------------------------- after prune

  lemma WithoutTwice(s: RepoState, s1: RepoState, s2: RepoState, a: seq<Entry>, b: seq<Entry>, isolated: seq<Uint32>)
    requires Without(s, s1, a, isolated) && Without(s1, s2, b, isolated)
    ensures Without(s, s2, a + b, isolated)
  {
    var r := a + b;
    forall i, j | 0 <= i < j < |r| ensures r[i] != r[j] {
      if i < |a| <= j {
        assert r[i] in a && r[j] in b;
      }
    }
  }

  /** Removing more PELs undoes no limit that was met. */
  lemma SettledStays(s: RepoState, s': RepoState, removed: seq<Entry>, isolated: seq<Uint32>, limit: Limit)
    requires Without(s, s', removed, isolated) && Settled(s, limit, isolated)
    ensures Settled(s', limit, isolated)
  {
    assert Counter(s'.sizes, CategoryOf(limit)) <= Counter(s.sizes, CategoryOf(limit));
  }

  /** How far pruning has come: what is gone, and that the first n limits are met. */
  ghost predicate Progress(s: RepoState, p: Pruned, isolated: seq<Uint32>, n: nat) {
    && Valid(p.state)
    && Without(s, p.state, p.removed, isolated)
    && forall i: nat | i < n :: Settled(p.state, LimitAt(i), isolated)
  }

  lemma StageProgress(s: RepoState, p: Pruned, isolated: seq<Uint32>, n: nat)
    requires Progress(s, p, isolated, n)
    ensures Progress(s, RemoveMore(p, LimitAt(n), isolated), isolated, n + 1)
  {
    var q := RemovePELs(p.state, LimitAt(n), isolated);
    RemovePELsEffect(p.state, LimitAt(n), isolated);
    WithoutTwice(s, p.state, q.state, p.removed, q.removed, isolated);
    forall i: nat | i < n ensures Settled(q.state, LimitAt(i), isolated) {
      SettledStays(p.state, q.state, q.removed, isolated, LimitAt(i));
    }
  }

  lemma NoProgress(s: RepoState, isolated: seq<Uint32>)
    requires Valid(s)
    ensures Progress(s, Pruned(s, []), isolated, 0)
  {}

  lemma {:induction false} StagesProgress(s: RepoState, n: nat, isolated: seq<Uint32>)
    requires Valid(s)
    ensures Progress(s, Stages(s, n, isolated), isolated, n)
  {
    if n == 0 {
      NoProgress(s, isolated);
    } else {
      StagesProgress(s, n - 1, isolated);
      var p := Stages(s, n - 1, isolated);
      assert Stages(s, n, isolated) == RemoveMore(p, LimitAt(n - 1), isolated);
      StageProgress(s, p, isolated, n - 1);
    }
  }

  /** prune: nothing isolated goes, the removed PELs are exactly the missing ones,
      and every category is under its limit or down to isolated PELs. */
  lemma PruneEffect(s: RepoState, isolated: seq<Uint32>)
    requires Valid(s)
    ensures Progress(s, Prune(s, isolated), isolated, 4)
    ensures |Prune(s, isolated).state.pels| <= s.maxNumPELs
         || Settled(Prune(s, isolated).state, TooManyPELs, isolated)
  {
    hide Stages, Without, Settled, Valid;
    StagesProgress(s, 4, isolated);
    StagesProgress(s, 5, isolated);
    ProgressKeepsMaximum(s, Stages(s, 4, isolated), isolated, 4);
    assert LimitAt(4) == TooManyPELs;
  }

  lemma ProgressKeepsMaximum(s: RepoState, p: Pruned, isolated: seq<Uint32>, n: nat)
    requires Progress(s, p, isolated, n)
    ensures p.state.maxNumPELs == s.maxNumPELs
  {
    hide Settled, Valid;
  }

  /** sizeWarning: over 95 percent of the space, or too many PELs. */
  predicate SizeWarning(s: RepoState) {
    s.sizes.total > PercentOf(s.maxRepoSize, 95) || |s.pels| > s.maxNumPELs
  }

  /** 15 + 30 + 15 + 30 percent, each rounded down, are within 90 and 95 percent,
      and none of the products wraps. */
  lemma SharesAddUp(m: Maximum, a: nat, b: nat, c: nat, d: nat)
    requires a <= PercentOf(m, 15) && b <= PercentOf(m, 30) && c <= PercentOf(m, 15) && d <= PercentOf(m, 30)
    ensures a + b + c + d <= PercentOf(m, 90) <= PercentOf(m, 95)
    ensures m * 95 < TWO_TO_THE_64
  {}

  /** Each category within its share, the whole within 90 percent, the count
      within its maximum, and so no warning. */
  ghost predicate WithinShares(s: RepoState) {
    && s.sizes.bmcInfo <= PercentOf(s.maxRepoSize, 15)
    && s.sizes.bmcServiceable <= PercentOf(s.maxRepoSize, 30)
    && s.sizes.nonBMCInfo <= PercentOf(s.maxRepoSize, 15)
    && s.sizes.nonBMCServiceable <= PercentOf(s.maxRepoSize, 30)
    && s.sizes.total <= PercentOf(s.maxRepoSize, 90)
    && |s.pels| <= s.maxNumPELs
    && !SizeWarning(s)
  }

  lemma SettledClearsWarning(s: RepoState)
    requires Valid(s)
    requires forall i: nat | i < 4 :: Settled(s, LimitAt(i), [])
    requires |s.pels| <= s.maxNumPELs || Settled(s, TooManyPELs, [])
    ensures WithinShares(s)
  {
    hide Valid, Settled;
    assert Settled(s, LimitAt(0), []) && Settled(s, LimitAt(1), []);
    assert Settled(s, LimitAt(2), []) && Settled(s, LimitAt(3), []);
    SettledWithin(s, BmcInfoLimit);
    SettledWithin(s, BmcNonInfoLimit);
    SettledWithin(s, NonBmcInfoLimit);
    SettledWithin(s, NonBmcNonInfoLimit);
    if Settled(s, TooManyPELs, []) {
      SettledWithin(s, TooManyPELs);
    }
    ValidCountersSplit(s);
    SharesAddUp(s.maxRepoSize, s.sizes.bmcInfo, s.sizes.bmcServiceable, s.sizes.nonBMCInfo, s.sizes.nonBMCServiceable);
  }

  /** With nothing isolated, asking sizeWarning right after a prune answers no. */
  lemma PruneClearsWarning(s: RepoState)
    requires Valid(s)
    ensures WithinShares(Prune(s, []).state)
  {
    PruneEffect(s, []);
    SettledClearsWarning(Prune(s, []).state);
  }

  /** Total is the two halves, and each half its two parts. */
  ghost predicate CountersSplit(z: SizeStats) {
    && z.total == z.bmc + z.nonBMC
    && z.bmc == z.bmcServiceable + z.bmcInfo
    && z.nonBMC == z.nonBMCServiceable + z.nonBMCInfo
  }

  lemma ValidCountersSplit(s: RepoState)
    requires Valid(s)
    ensures CountersSplit(s.sizes)
  {
    SumOfSplits(s.pels);
    forall c: Category ensures Counter(s.sizes, c) == SumOf(s.pels, c) {
      SizesOfCounter(s.pels, c);
    }
    assert s.sizes.total == Counter(s.sizes, Total);
    assert s.sizes.bmc == Counter(s.sizes, Bmc) && s.sizes.nonBMC == Counter(s.sizes, NonBmc);
    assert s.sizes.bmcServiceable == Counter(s.sizes, BmcServiceable) && s.sizes.bmcInfo == Counter(s.sizes, BmcInfo);
    assert s.sizes.nonBMCServiceable == Counter(s.sizes, NonBmcServiceable);
    assert s.sizes.nonBMCInfo == Counter(s.sizes, NonBmcInfo);
  }
}
