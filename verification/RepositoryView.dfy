/** The repository as the notifier sees it: a projection that the operations of both commute
    with. */
module RepositoryView {
  import opened RepositoryState
  import opened Wrappers
  import N = NotifierState
  import R = RepositoryRuns

  function View(a: Attributes): N.Pel {
    N.Pel(a.hostState, a.hmcState, Hidden(a.actionFlags), DontReportToHost(a.actionFlags))
  }

  /** What the notifier reads of the stored PELs. */
  function Seen(es: seq<Entry>): map<N.Id, N.Pel> {
    if es == [] then map[] else Seen(es[1..])[es[0].id.pelID := View(es[0].attr)]
  }

  /** The walk over the attribute map, in key order. */
  function Walk(es: seq<Entry>): seq<N.Id> {
    if es == [] then [] else [es[0].id.pelID] + Walk(es[1..])
  }

  lemma FirstApart(es: seq<Entry>)
    requires Ascending(es) && es != []
    ensures Ascending(es[1..]) && forall e | e in es[1..] :: e.id.pelID != es[0].id.pelID
    ensures forall x :: x in es <==> x == es[0] || x in es[1..]
  {
    forall e | e in es[1..] ensures e.id.pelID != es[0].id.pelID {
      var i :| 0 <= i < |es[1..]| && es[1..][i] == e;
      assert es[i + 1] == e;
    }
  }

  lemma PelIDsOf(es: seq<Entry>)
    requires es != []
    ensures forall id: N.Id :: HasPelID(es, id) <==> id == es[0].id.pelID || HasPelID(es[1..], id)
  {
    assert forall x :: x in es <==> x == es[0] || x in es[1..];
    assert es[0] in es;
  }

  lemma {:induction false} SeenContents(es: seq<Entry>)
    requires Ascending(es)
    ensures forall id: N.Id :: id in Seen(es) <==> HasPelID(es, id)
    ensures forall e | e in es :: e.id.pelID in Seen(es) && Seen(es)[e.id.pelID] == View(e.attr)
  {
    hide View, Ascending;
    if es != [] {
      hide HasPelID;
      FirstApart(es);
      PelIDsOf(es);
      SeenContents(es[1..]);
    }
  }

  /** Two stores with the same entries look the same. */
  lemma SeenSame(es: seq<Entry>, m: map<N.Id, N.Pel>)
    requires Ascending(es)
    requires forall id: N.Id :: id in m <==> HasPelID(es, id)
    requires forall e | e in es :: e.id.pelID in m ==> m[e.id.pelID] == View(e.attr)
    ensures Seen(es) == m
  {
    SeenContents(es);
    forall id: N.Id | id in m ensures Seen(es)[id] == m[id] {
      var e :| e in es && e.id.pelID == id;
    }
  }

  lemma {:induction false} WalkContents(es: seq<Entry>)
    ensures |Walk(es)| == |es| && forall i | 0 <= i < |es| :: Walk(es)[i] == es[i].id.pelID
  {
    if es != [] { WalkContents(es[1..]); }
  }

  /** The notifier's constructor walks over exactly what it sees. */
  lemma WalkIsWalk(s: RepoState)
    requires Valid(s)
    ensures N.WalkOf(Walk(s.pels), Seen(s.pels))
  {
    WalkContents(s.pels);
    SeenContents(s.pels);
    forall id: N.Id ensures id in Walk(s.pels) <==> id in Seen(s.pels) {
      if id in Walk(s.pels) {
        var i :| 0 <= i < |s.pels| && Walk(s.pels)[i] == id;
        assert s.pels[i] in s.pels;
      }
      if HasPelID(s.pels, id) {
        var e :| e in s.pels && e.id.pelID == id;
        var i :| 0 <= i < |s.pels| && s.pels[i] == e;
        assert Walk(s.pels)[i] == id;
      }
    }
  }

  /** The entry that a PEL ID finds. */
  lemma FindByPelID(s: RepoState, id: Uint32)
    requires Valid(s)
    ensures var j := FindPEL(s.pels, LogID(id, 0));
      && (j < |s.pels| <==> HasPelID(s.pels, id))
      && (j < |s.pels| ==> s.pels[j].id.pelID == id)
  {
    var j := FindPEL(s.pels, LogID(id, 0));
    if HasPelID(s.pels, id) {
      var e :| e in s.pels && e.id.pelID == id;
      var i :| 0 <= i < |s.pels| && s.pels[i] == e;
      assert Matches(s.pels[i].id, LogID(id, 0));
    }
    if j < |s.pels| { assert s.pels[j] in s.pels; }
  }

  /** One entry changed in its attributes. */
  lemma {:induction false} SeenUpdated(es: seq<Entry>, j: nat, a: Attributes)
    requires Ascending(es) && j < |es|
    ensures Seen(es[j := es[j].(attr := a)]) == Seen(es)[es[j].id.pelID := View(a)]
  {
    hide View;
    var e := es[j].(attr := a);
    if j == 0 {
      assert es[0 := e][1..] == es[1..];
    } else {
      assert es[j := e][1..] == es[1..][j - 1 := e];
      assert es[0].id.pelID < es[j].id.pelID;
      SeenUpdated(es[1..], j - 1, a);
    }
  }

  lemma SetHostStateSeen(s: RepoState, id: Uint32, st: TransmissionState)
    requires Valid(s)
    ensures Seen(SetHostState(s, id, st).pels) == N.WithHostState(Seen(s.pels), id, st)
  {
    FindByPelID(s, id);
    SeenContents(s.pels);
    var j := FindPEL(s.pels, LogID(id, 0));
    if j < |s.pels| {
      assert s.pels[j] in s.pels;
      SeenUpdated(s.pels, j, s.pels[j].attr.(hostState := st));
    }
  }

  lemma SetHmcStateSeen(s: RepoState, id: Uint32, st: TransmissionState)
    requires Valid(s)
    ensures var m := Seen(s.pels);
      Seen(SetHmcState(s, id, st).pels) == if id in m then m[id := m[id].(hmcState := st)] else m
  {
    FindByPelID(s, id);
    SeenContents(s.pels);
    var j := FindPEL(s.pels, LogID(id, 0));
    if j < |s.pels| {
      assert s.pels[j] in s.pels;
      SeenUpdated(s.pels, j, s.pels[j].attr.(hmcState := st));
    }
  }

  lemma RemoveSeen(s: RepoState, id: LogID)
    requires Valid(s) && id.pelID != 0
    ensures Seen(RemovePEL(s, id).pels) == Seen(s.pels) - {id.pelID}
  {
    var r, m := RemovePEL(s, id), Seen(s.pels) - {id.pelID};
    var j := FindPEL(s.pels, id);
    SeenContents(s.pels);
    if j < |s.pels| {
      EraseContents(s.pels, j);
    }
    forall k: N.Id ensures k in m <==> HasPelID(r.pels, k) {
      if k in m {
        var e :| e in s.pels && e.id.pelID == k;
        assert e in r.pels;
      }
      if HasPelID(r.pels, k) {
        var e :| e in r.pels && e.id.pelID == k;
        NotRemoved(s, id, e);
      }
    }
    forall e | e in r.pels ensures e.id.pelID in m ==> m[e.id.pelID] == View(e.attr) {
      NotRemoved(s, id, e);
    }
    SeenSame(r.pels, m);
  }

  lemma NotRemoved(s: RepoState, id: LogID, e: Entry)
    requires Valid(s) && id.pelID != 0 && e in RemovePEL(s, id).pels
    ensures e in s.pels && e.id.pelID != id.pelID
  {
    var j := FindPEL(s.pels, id);
    if j < |s.pels| { EraseContents(s.pels, j); }
    var i :| 0 <= i < |s.pels| && s.pels[i] == e;
    if j < |s.pels| && i != j {
      assert s.pels[i].id.pelID != s.pels[j].id.pelID;
    }
  }

  /** A new PEL is seen as new; one whose ID is already there is not seen at all. */
  lemma AddSeen(s: RepoState, e: Entry)
    requires Valid(s)
    ensures var m, id := Seen(s.pels), e.id.pelID;
      Seen(AddPEL(s, e).pels)
      == if id in m then m else m[id := View(e.attr).(hostState := NewPEL, hmcState := NewPEL)]
  {
    var attr := e.attr.(hostState := NewPEL, hmcState := NewPEL);
    EmplacedSeen(s.pels, e.(attr := attr));
  }

  lemma EmplacedSeen(es: seq<Entry>, e: Entry)
    requires Ascending(es)
    ensures var m := Seen(es);
      Seen(Emplace(es, e)) == if e.id.pelID in m then m else m[e.id.pelID := View(e.attr)]
  {
    EmplaceContents(es, e);
    SeenContents(es);
    var r, m := Emplace(es, e), Seen(es);
    var m' := if e.id.pelID in m then m else m[e.id.pelID := View(e.attr)];
    forall k: N.Id ensures k in m' <==> HasPelID(r, k) {
      if HasPelID(es, k) {
        var x :| x in es && x.id.pelID == k;
        assert x in r;
      }
      if k == e.id.pelID && k !in m { assert e in r; }
    }
    SeenSame(r, m');
  }

  // ------------------------------------------------------------------- restore

  function FromFile(e: Entry): Entry {
    e.(attr := e.attr.(hostState := if e.attr.hostState == Sent then NewPEL else e.attr.hostState))
  }

  lemma {:induction false} RestoredContents(s: RepoState, files: seq<FoundFile>)
    requires R.Restorable(s, files) && s.pels == []
    ensures Ascending(RestoreAll(s, files).pels)
    ensures forall e :: Some(e) in files ==> FromFile(e) in RestoreAll(s, files).pels
    ensures forall x | x in RestoreAll(s, files).pels :: exists e :: Some(e) in files && x == FromFile(e)
    decreases |files|
  {
    if files != [] {
      var n := |files| - 1;
      var before := RestoreAll(s, files[..n]);
      RestoredContents(s, files[..n]);
      assert files == files[..n] + [files[n]];
      if files[n].Some? {
        EmplaceContents(before.pels, FromFile(files[n].value));
      }
      forall x | x in RestoreAll(s, files).pels ensures exists e :: Some(e) in files && x == FromFile(e) {
        if x in before.pels {
          var e :| Some(e) in files[..n] && x == FromFile(e);
          assert Some(e) in files;
        } else {
          assert Some(files[n].value) in files;
        }
      }
    }
  }

  /** A restart of the daemon: restoring the files of the stored PELs, in whatever order
      the directory lists them, is what the notifier takes it for. */
  lemma RestoreSeen(s: RepoState, files: seq<FoundFile>)
    requires Valid(s) && R.Restorable(R.Empty(s.maxRepoSize, s.maxNumPELs), files)
    requires forall e :: Some(e) in files <==> e in s.pels
    ensures Seen(RestoreAll(R.Empty(s.maxRepoSize, s.maxNumPELs), files).pels) == N.RestoredPels(Seen(s.pels))
  {
    var r, m := RestoreAll(R.Empty(s.maxRepoSize, s.maxNumPELs), files), N.RestoredPels(Seen(s.pels));
    RestoredContents(R.Empty(s.maxRepoSize, s.maxNumPELs), files);
    SeenContents(s.pels);
    forall k: N.Id ensures k in m <==> HasPelID(r.pels, k) {
      if k in m {
        var e :| e in s.pels && e.id.pelID == k;
        assert Some(e) in files && FromFile(e) in r.pels;
      }
      if HasPelID(r.pels, k) {
        var x :| x in r.pels && x.id.pelID == k;
        var e :| Some(e) in files && x == FromFile(e);
        assert e in s.pels;
      }
    }
    forall x | x in r.pels ensures x.id.pelID in m ==> m[x.id.pelID] == View(x.attr) {
      var e :| Some(e) in files && x == FromFile(e);
      assert e in s.pels;
    }
    SeenSame(r.pels, m);
  }
}
