/** Which PELs are counted as serviceable, severity by severity, and what adding
    or removing one does to the counters. */
module SeverityTable {
  import opened RepositoryState

  /** By the rows of the severity table: predictive, unrecoverable, critical and
      their symptoms are serviceable, recovered ones unless hidden, and
      nonerror, diagnostic and the last symptom are not. */
  predicate Serviceable(a: Attributes) {
    match a.severity
    case 0x20 | 0x21 | 0x22 | 0x23 | 0x24 => true
    case 0x40 | 0x41 | 0x44 | 0x45 | 0x48 => true
    case 0x50 | 0x51 | 0x52 | 0x53 | 0x54 => true
    case 0x72 | 0x74 | 0x75 => true
    case 0x10 | 0x71 => a.actionFlags & 0x4000 == 0
    case _ => false
  }

  lemma SeverityIsClassified(a: Attributes)
    ensures IsServiceableSev(a) <==> Serviceable(a)
    ensures !Serviceable(a) ==> a.severity in {0x00, 0x10, 0x60, 0x61, 0x71, 0x76}
  {}

  /** The counters with so many bytes more in the total, in the half of the
      creator, and in the serviceable or the informational part of that half. */
  ghost predicate RaisedBy(z: SizeStats, z': SizeStats, a: Attributes, n: int) {
    && z'.total == z.total + n
    && z'.bmc == z.bmc + (if a.creator == 'O' then n else 0)
    && z'.nonBMC == z.nonBMC + (if a.creator != 'O' then n else 0)
    && z'.bmcServiceable == z.bmcServiceable + (if a.creator == 'O' && Serviceable(a) then n else 0)
    && z'.bmcInfo == z.bmcInfo + (if a.creator == 'O' && !Serviceable(a) then n else 0)
    && z'.nonBMCServiceable == z.nonBMCServiceable + (if a.creator != 'O' && Serviceable(a) then n else 0)
    && z'.nonBMCInfo == z.nonBMCInfo + (if a.creator != 'O' && !Serviceable(a) then n else 0)
  }

  ghost predicate AllBelow(z: SizeStats, bound: int) {
    forall c: Category :: Counter(z, c) < bound
  }

  /** Where an update puts the bytes of a PEL, by its creator and severity. */
  lemma UpdateGoesByTable(z: SizeStats, a: Attributes)
    ensures AllBelow(z, TWO_TO_THE_64 - a.sizeOnDisk) ==> RaisedBy(z, UpdateRepoStats(z, a, true), a, a.sizeOnDisk)
    ensures AllBelow(z, TWO_TO_THE_63) && a.sizeOnDisk < TWO_TO_THE_63
      && (forall c: Category :: InCategory(a, c) ==> a.sizeOnDisk <= Counter(z, c))
      ==> RaisedBy(z, UpdateRepoStats(z, a, false), a, 0 - a.sizeOnDisk)
  {
    hide IsServiceableSev, Serviceable;
    SeverityIsClassified(a);
    AllCounters(z);
    if forall c: Category :: InCategory(a, c) ==> a.sizeOnDisk <= Counter(z, c) {
      assert a.sizeOnDisk <= Counter(z, Total);
      assert InCategory(a, Bmc) ==> a.sizeOnDisk <= Counter(z, Bmc);
      assert InCategory(a, NonBmc) ==> a.sizeOnDisk <= Counter(z, NonBmc);
      assert InCategory(a, BmcServiceable) ==> a.sizeOnDisk <= Counter(z, BmcServiceable);
      assert InCategory(a, BmcInfo) ==> a.sizeOnDisk <= Counter(z, BmcInfo);
      assert InCategory(a, NonBmcServiceable) ==> a.sizeOnDisk <= Counter(z, NonBmcServiceable);
      assert InCategory(a, NonBmcInfo) ==> a.sizeOnDisk <= Counter(z, NonBmcInfo);
    }
  }

  lemma AllCounters(z: SizeStats)
    ensures forall bound: int :: AllBelow(z, bound) <==>
      && z.total < bound && z.bmc < bound && z.nonBMC < bound && z.bmcServiceable < bound
      && z.bmcInfo < bound && z.nonBMCServiceable < bound && z.nonBMCInfo < bound
  {
    forall bound: int | AllBelow(z, bound)
      ensures z.total < bound && z.bmc < bound && z.nonBMC < bound && z.bmcServiceable < bound
           && z.bmcInfo < bound && z.nonBMCServiceable < bound && z.nonBMCInfo < bound
    {
      assert Counter(z, Total) < bound && Counter(z, Bmc) < bound && Counter(z, NonBmc) < bound;
      assert Counter(z, BmcServiceable) < bound && Counter(z, BmcInfo) < bound;
      assert Counter(z, NonBmcServiceable) < bound && Counter(z, NonBmcInfo) < bound;
    }
  }

  /** The PELs of a half, serviceable or not, added up by the table. */
  function BytesOf(es: seq<Entry>, bmc: bool, serviceable: bool): nat {
    if es == [] then 0
    else
      (if (es[0].attr.creator == 'O') == bmc && Serviceable(es[0].attr) == serviceable then es[0].attr.sizeOnDisk else 0)
      + BytesOf(es[1..], bmc, serviceable)
  }

  lemma {:induction false} CountersByTable(es: seq<Entry>)
    ensures SizesOf(es).bmcServiceable == BytesOf(es, true, true)
    ensures SizesOf(es).bmcInfo == BytesOf(es, true, false)
    ensures SizesOf(es).nonBMCServiceable == BytesOf(es, false, true)
    ensures SizesOf(es).nonBMCInfo == BytesOf(es, false, false)
    ensures SizesOf(es).bmc == BytesOf(es, true, true) + BytesOf(es, true, false)
    ensures SizesOf(es).nonBMC == BytesOf(es, false, true) + BytesOf(es, false, false)
    ensures SizesOf(es).total == SizesOf(es).bmc + SizesOf(es).nonBMC
  {
    hide Plus, Serviceable;
    if es != [] {
      CountersByTable(es[1..]);
      PlusByTable(SizesOf(es[1..]), es[0].attr);
    }
  }

  lemma PlusByTable(z: SizeStats, a: Attributes)
    ensures RaisedBy(z, Plus(z, a), a, a.sizeOnDisk)
  {
    hide IsServiceableSev, Serviceable;
    SeverityIsClassified(a);
  }

  /** Adding a PEL to a repository in order raises the serviceable or the
      informational counter of its creator's half by its size, as the table has
      it, and no other counter but the half and the total. */
  lemma AddedBytesGoByTable(s: RepoState, e: Entry)
    requires Valid(s) && SumOf(s.pels, Total) + e.attr.sizeOnDisk < TWO_TO_THE_63
    ensures RaisedBy(s.sizes, AddPEL(s, e).sizes, e.attr, e.attr.sizeOnDisk)
  {
    var a := e.attr.(hostState := NewPEL, hmcState := NewPEL);
    forall c: Category ensures Counter(s.sizes, c) < TWO_TO_THE_64 - a.sizeOnDisk {
      SizesOfCounter(s.pels, c);
      SumOfUpTo(s.pels, c);
    }
    UpdateGoesByTable(s.sizes, a);
  }

  /** Removing it again lowers the same counters by as much. */
  lemma RemovedBytesGoByTable(s: RepoState, e: Entry)
    requires Valid(s) && e in s.pels
    ensures RaisedBy(s.sizes, RemovePEL(s, e.id).sizes, e.attr, 0 - e.attr.sizeOnDisk)
  {
    FindOwnID(s.pels, e);
    var j := FindPEL(s.pels, e.id);
    forall c: Category ensures Counter(s.sizes, c) < TWO_TO_THE_63 && SizeOf(e.attr, c) <= Counter(s.sizes, c) {
      SizesOfCounter(s.pels, c);
      SumOfUpTo(s.pels, c);
      SumOfErase(s.pels, j, c);
    }
    assert SizeOf(e.attr, Total) <= Counter(s.sizes, Total);
    UpdateGoesByTable(s.sizes, e.attr);
  }
}
