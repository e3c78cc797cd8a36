/** The order in which the host hears of PELs: who is put where in the queue, who is taken
    from it, and that PELs are first sent in the order they were queued. */
module NotifierOrder {
  import opened RepositoryState
  import opened NotifierState
  import opened NotifierProofs
  import opened NotifierLoss
  import opened NotifierRuns
  import opened Sequences
  import Link = PldmState

  // ------------------------------------------------------------------ what is observed

  /** The host still needs to hear of this PEL: it is stored, the host has not acked it,
      and if it is hidden, then neither has the HMC and there is none. */
  predicate Needed(s: State, id: Id) {
    && id in s.pels && s.pels[id].hostState != Acked
    && (s.pels[id].hidden ==> s.pels[id].hmcState != Acked && !s.hmcManaged)
  }

  /** x is somewhere ahead of y. */
  ghost predicate Ahead(q: seq<Id>, x: Id, y: Id) {
    exists i, j :: 0 <= i < j < |q| && q[i] == x && q[j] == y
  }

  /** The first d in the queue, none of them needed any more. */
  predicate Unneeded(s: State, d: nat) {
    d <= |s.queue| && forall i | 0 <= i < d :: !Needed(s, s.queue[i])
  }

  /** The notifier passed over the first d in the queue and then got so far. */
  datatype Outcome = Idle | NoneNeeded | NowInProgress | StillFirst | DroppedByException

  predicate Advanced(s: State, s': State, d: nat, o: Outcome) {
    && Unneeded(s, d) && s'.hostFullTimer == s.hostFullTimer && (s'.retryTimer <==> s.retryTimer || o == StillFirst)
    && match o
       case Idle => d == 0 && s'.queue == s.queue && s'.inProgress == s.inProgress
       case NoneNeeded => d == |s.queue| && s'.queue == [] && s'.inProgress == s.inProgress
       case NowInProgress => FirstNeeded(s, d) && s'.queue == s.queue[d + 1..] && s'.inProgress == s.queue[d]
       case StillFirst => FirstNeeded(s, d) && s'.queue == s.queue[d..] && s'.inProgress == 0
       case DroppedByException => FirstNeeded(s, d) && s'.queue == s.queue[d + 1..] && s'.inProgress == s.inProgress
  }

  /** A send may be made, and it is the turn of the PEL at d. */
  predicate FirstNeeded(s: State, d: nat) {
    && d < |s.queue| && Needed(s, s.queue[d])
    && s.hostUp && !s.retryTimer && !s.hostFullTimer && s.retryCount < 15
  }

  lemma {:induction false} ToSendIsSuffix(s: State, queue: seq<Id>) returns (d: nat)
    ensures d <= |queue| && ToSend(s, queue) == queue[d..]
    ensures forall i | 0 <= i < d :: !Needed(s, queue[i])
    ensures d < |queue| ==> Needed(s, queue[d])
  {
    if queue == [] || NotifyRequired(s, queue[0]) {
      d := 0;
    } else {
      d := ToSendIsSuffix(s, queue[1..]);
      assert forall i | 0 <= i < d :: !Needed(s, queue[1..][i]);
      d := d + 1;
    }
  }

  lemma NotifyAdvances(s: State, ans: Answers) returns (d: nat, o: Outcome)
    ensures Advanced(s, DoNewLogNotify(s, ans), d, o)
    ensures MaySend(s) && s.retryCount < 15 ==> o != Idle
    ensures o == NowInProgress || o == StillFirst || o == DroppedByException ==>
      o == (match SendEndOf(s.link, ans)
            case Started => NowInProgress
            case Refused => StillFirst
            case Threw => DroppedByException)
  {
    hide ToSend, LinkAfterSend, LinkAfterCancel, SendEndOf;
    if MaySend(s) && s.retryCount < MAX_RETRY_ATTEMPTS {
      d := ToSendIsSuffix(s, s.queue);
      if d == |s.queue| {
        o := NoneNeeded;
      } else {
        match SendEndOf(s.link, ans) {
          case Started => o := NowInProgress;
          case Refused => o := StillFirst;
          case Threw => o := DroppedByException;
        }
      }
    } else {
      d, o := 0, Idle;
    }
  }

  // --------------------------------------------------------------- what an event does

  /** The queue keeps an end of what it was, with nothing of that in front or behind. */
  ghost predicate Shifted(q: seq<Id>, q': seq<Id>, a: seq<Id>, k: nat, b: seq<Id>) {
    k <= |q| && q' == a + q[k..] + b && forall x | x in q && x != 0 :: x !in a && x !in b
  }

  lemma UniqueInQueue(s: State, id: Id)
    requires Unique(s) && id != 0 && id in s.queue
    ensures Times(s.queue, id) == 1 && id !in s.sent && id != s.inProgress
  {
    assert Tracked(s, id) <= 1;
    TimesMember(s.queue, id);
    TimesMember(s.sent, id);
  }

  /** The state in which the notifier looks at its queue needs what s does. */
  lemma CallerNeeds(s: State, e: Event)
    requires Inv(s) && CallsNotify(s, e)
    ensures Caller(s, e).queue == s.queue
    ensures forall id | id in s.queue :: Needed(Caller(s, e), id) == Needed(s, id)
  {
    hide Control, LinkAfter, CallsNotify, Caller, Unique;
    CallerFrame(s, e);
    forall id | id in s.queue ensures Needed(Caller(s, e), id) == Needed(s, id) {
      if id != 0 { UniqueInQueue(s, id); }
    }
  }

  lemma CallerFrame(s: State, e: Event)
    requires CallsNotify(s, e)
    ensures var c := Caller(s, e);
      && c.queue == s.queue && c.hmcManaged == s.hmcManaged
      && (c.pels == s.pels || c.pels == WithHostState(s.pels, s.inProgress, Sent))
  {
    hide LinkAfter, WithHostState, Woken, Responded;
    if IsWakeup(e) {
      WokenFrame(s, e);
    } else {
      RespondedFrame(s, LinkAfter(s, e));
    }
  }

  lemma WokenFrame(s: State, e: Event)
    requires IsWakeup(e)
    ensures var c := Woken(s, e);
      && c.queue == s.queue && c.hmcManaged == s.hmcManaged && c.pels == s.pels && c.inProgress == s.inProgress
      && c.hostUp == s.hostUp && c.sent == s.sent
  {}

  lemma RespondedFrame(s: State, link: Link.State)
    ensures var c := Responded(s, link);
      && c.queue == s.queue && c.hmcManaged == s.hmcManaged && c.inProgress == 0
      && c.hostUp == s.hostUp && c.retryTimer == s.retryTimer && c.hostFullTimer == s.hostFullTimer
      && c.pels == WithHostState(s.pels, s.inProgress, Sent)
  {
    hide WithHostState;
  }

  /** When the event has the notifier look at its queue. */
  lemma CallAdvances(s: State, e: Event) returns (d: nat, o: Outcome)
    requires Inv(s) && Enabled(s, e) && CallsNotify(s, e)
    ensures Advanced(Caller(s, e), Step(s, e), d, o) && Unneeded(s, d)
    ensures d < |s.queue| && o != Idle && o != NoneNeeded ==> Needed(s, s.queue[d])
    ensures Caller(s, e).queue == s.queue && Caller(s, e).inProgress == (if IsResponse(e) then 0 else s.inProgress)
    ensures o == DroppedByException ==> ThrowsAway(s, e) && SentPEL(s, e) == s.queue[d]
  {
    hide Step, DoNewLogNotify, LinkAfter, Inv, SendEndOf, WithHostState;
    d, o := NotifyAdvances(Caller(s, e), e.ans);
    CallerNeeds(s, e);
    CallIsNotify(s, e);
    if o == DroppedByException {
      var k := ToSendIsSuffix(Caller(s, e), s.queue);
      assert k == d;
    }
  }

  lemma CallIsNotify(s: State, e: Event)
    requires Inv(s) && Enabled(s, e) && CallsNotify(s, e)
    ensures Step(s, e) == DoNewLogNotify(Caller(s, e), e.ans)
  {
    hide Step, DoNewLogNotify, Inv, LinkAfter, Woken;
    if IsWakeup(e) {
      WokenKeepsInv(s, e);
    } else {
      ResponseCases(s, e);
    }
  }

  lemma CallShifts(s: State, e: Event) returns (k: nat)
    requires Inv(s) && Enabled(s, e) && CallsNotify(s, e)
    ensures k <= |s.queue| && Step(s, e).queue == s.queue[k..]
  {
    hide Step, DoNewLogNotify, Inv, LinkAfter, CallsNotify;
    var d, o := CallAdvances(s, e);
    k := if o == Idle || o == NoneNeeded || o == StillFirst then d else d + 1;
  }

  lemma ResponseShifts(s: State, e: Event) returns (a: seq<Id>)
    requires Inv(s) && Enabled(s, e) && IsResponse(e) && !CallsNotify(s, e)
    ensures a == if Step(s, e).retryTimer && !s.retryTimer then [s.inProgress] else []
    ensures Step(s, e).queue == a + s.queue
  {
    hide Step, DoNewLogNotify, LinkAfter, Unique, Link.Inv, WithHostState;
    ResponseCases(s, e);
    a := if Step(s, e).retryTimer && !s.retryTimer then [s.inProgress] else [];
  }

  lemma HostDownShifts(s: State, ans: Answers) returns (a: seq<Id>, b: seq<Id>)
    ensures a == (if s.inProgress != 0 then [s.inProgress] else [])
    ensures b == (if Cancels(s.link, ans.freeOk) then s.sent else [])
    ensures Step(s, HostChanged(false, ans)).queue == a + s.queue + b
  {
    hide Cancels, LinkAfterCancel, Renewed;
    a := if s.inProgress != 0 then [s.inProgress] else [];
    b := if Cancels(s.link, ans.freeOk) then s.sent else [];
  }

  /** What the remaining events do to the queue. */
  lemma OtherQueues(s: State, e: Event)
    requires !IsWakeup(e) && !IsResponse(e) && !e.BmcRestart?
    ensures e.PelAdded? ==> Step(s, e).queue in {s.queue, s.queue + [e.id]}
    ensures e.PelDeleted? ==> Step(s, e).queue == EraseFirst(s.queue, e.id)
    ensures e.HostIsFull? ==>
      Step(s, e).queue == if e.id in s.sent && e.id !in s.queue then [e.id] + s.queue else s.queue
    ensures !e.PelAdded? && !e.PelDeleted? && !e.HostIsFull? && !(e.HostChanged? && !e.up) ==> Step(s, e).queue == s.queue
  {
    hide EraseFirst, EnqueueRequired, WithHostState, HostDown;
  }

  lemma EventShifts(s: State, e: Event) returns (a: seq<Id>, k: nat, b: seq<Id>)
    requires Inv(s) && Enabled(s, e) && !e.BmcRestart? && !e.PelDeleted?
    ensures Shifted(s.queue, Step(s, e).queue, a, k, b)
    ensures forall x | x in a && x != 0 :: x == s.inProgress || x in s.sent
    ensures forall x | x in b && x != 0 :: x in s.sent || (e.PelAdded? && x == e.id)
  {
    hide Step, Inv, Cancels, CallsNotify;
    QueuedElsewhere(s);
    a, k, b := [], 0, [];
    if CallsNotify(s, e) {
      k := CallShifts(s, e);
    } else if IsResponse(e) {
      a := ResponseShifts(s, e);
    } else if e.HostChanged? && !e.up {
      a, b := HostDownShifts(s, e.ans);
    } else {
      NoCallNoWakeup(s, e);
      OtherQueues(s, e);
      if e.HostIsFull? && e.id in s.sent && e.id !in s.queue {
        a := [e.id];
      } else if e.PelAdded? && Step(s, e).queue != s.queue {
        b := [e.id];
      }
    }
  }

  lemma QueuedElsewhere(s: State)
    requires Inv(s)
    ensures forall x | x in s.queue && x != 0 :: x !in s.sent && x != s.inProgress
  {
    hide Control;
    forall x | x in s.queue && x != 0 ensures x !in s.sent && x != s.inProgress {
      UniqueInQueue(s, x);
    }
  }

  lemma NoCallNoWakeup(s: State, e: Event)
    requires !CallsNotify(s, e)
    ensures !IsWakeup(e)
  {}

  // ------------------------------------------------------------------- the queue's order

  /** Whether a PEL is to be put on the queue, by the fields that decide it. */
  predicate Reportable(s: State, pel: Pel) {
    && s.pelEnablement && pel.hostState != Acked && pel.hostState != BadPEL && !pel.dontReport
    && !(pel.hidden && pel.hmcState == Acked)
  }

  /** A new PEL that is to be reported goes behind every PEL already queued. */
  lemma NewPelGoesBehind(s: State, id: Id, pel: Pel)
    ensures Step(s, PelAdded(id, pel)).queue == if Reportable(s, pel) then s.queue + [id] else s.queue
    ensures Step(s, PelAdded(id, pel)).inProgress == s.inProgress && Step(s, PelAdded(id, pel)).sent == s.sent
  {}

  lemma {:induction false} EraseKeepsAhead(q: seq<Id>, gone: Id, x: Id, y: Id)
    requires Ahead(q, x, y) && x != gone && y != gone
    ensures Ahead(EraseFirst(q, gone), x, y)
  {
    var i, j :| 0 <= i < j < |q| && q[i] == x && q[j] == y;
    if q[0] == gone {
      assert q[1..][i - 1] == x && q[1..][j - 1] == y;
    } else {
      var t := EraseFirst(q[1..], gone);
      if i > 0 {
        assert q[1..][i - 1] == x && q[1..][j - 1] == y;
        EraseKeepsAhead(q[1..], gone, x, y);
        var k, l :| 0 <= k < l < |t| && t[k] == x && t[l] == y;
        assert ([q[0]] + t)[k + 1] == x && ([q[0]] + t)[l + 1] == y;
      } else {
        assert q[1..][j - 1] == y;
        ErasedContents(q[1..], gone);
        assert y in q[1..] && y in t;
        var l :| 0 <= l < |t| && t[l] == y;
        assert ([q[0]] + t)[0] == x && ([q[0]] + t)[l + 1] == y;
      }
    }
  }

  lemma ShiftKeepsAhead(q: seq<Id>, q': seq<Id>, a: seq<Id>, k: nat, b: seq<Id>, x: Id, y: Id)
    requires Shifted(q, q', a, k, b) && Ahead(q, x, y) && x != 0 && y != 0
    requires x in q' && y in q' && Times(q, x) == 1 && Times(q, y) == 1
    ensures Ahead(q', x, y)
  {
    var i, j :| 0 <= i < j < |q| && q[i] == x && q[j] == y;
    assert x in q[k..] && y in q[k..];
    OnlyPlace(q, i, k);
    assert q'[|a| + (i - k)] == q[k..][i - k] == x;
    assert q'[|a| + (j - k)] == q[k..][j - k] == y;
  }

  /** What occurs once and is still there behind k was behind k. */
  lemma OnlyPlace(q: seq<Id>, i: nat, k: nat)
    requires i < |q| && k <= |q| && Times(q, q[i]) == 1 && q[i] in q[k..]
    ensures k <= i
  {
    assert q == q[..k] + q[k..];
    TimesMember(q[k..], q[i]);
    TimesMember(q[..k], q[i]);
    TimesConcat(q[..k], q[k..], q[i]);
    assert q[i] !in q[..k];
    assert forall j | 0 <= j < k :: q[j] == q[..k][j] && q[j] in q[..k];
  }

  /** No event but a restart reverses two PELs that stay in the queue. */
  lemma EventKeepsOrder(s: State, e: Event, x: Id, y: Id)
    requires Inv(s) && Enabled(s, e) && !e.BmcRestart? && x != 0 && y != 0
    requires Ahead(s.queue, x, y) && x in Step(s, e).queue && y in Step(s, e).queue
    ensures Ahead(Step(s, e).queue, x, y)
  {
    hide Step, Control, Shifted;
    UniqueInQueue(s, x);
    UniqueInQueue(s, y);
    if e.PelDeleted? {
      OtherQueues(s, e);
      TimesErase(s.queue, e.id, e.id);
      TimesMember(EraseFirst(s.queue, e.id), x);
      TimesMember(EraseFirst(s.queue, e.id), y);
      EraseKeepsAhead(s.queue, e.id, x, y);
    } else {
      var a, k, b := EventShifts(s, e);
      ShiftKeepsAhead(s.queue, Step(s, e).queue, a, k, b, x, y);
    }
  }

  ghost predicate AscendingIDs(ids: seq<Id>) {
    forall i, j | 0 <= i < j < |ids| :: ids[i] < ids[j]
  }

  /** After a restart the queue holds the stored PELs that are to be reported, in
      ascending order of their IDs, whatever it was before. */
  lemma RestartQueue(s: State, order: seq<Id>)
    requires WalkOf(order, s.pels)
    ensures var q := Step(s, BmcRestart(order)).queue;
      AscendingIDs(q) && forall id :: id in q <==> id in s.pels && Reportable(s, s.pels[id])
  {
    hide Reportable, EnqueueRequired;
    var s0 := Unstarted(RestoredPels(s.pels), s.hostUp, s.hmcManaged, s.pelEnablement);
    EnqueuedContents(s0, order);
    EnqueuedAscends(s0, order);
    forall id | id in s.pels ensures EnqueueRequired(s0, id) == Reportable(s, s.pels[id]) {
      RestoredReportable(s, id);
    }
  }

  lemma RestoredReportable(s: State, id: Id)
    requires id in s.pels
    ensures EnqueueRequired(Unstarted(RestoredPels(s.pels), s.hostUp, s.hmcManaged, s.pelEnablement), id)
         == Reportable(s, s.pels[id])
  {}

  lemma {:induction false} EnqueuedAscends(s: State, order: seq<Id>)
    requires AscendingIDs(order)
    ensures AscendingIDs(Enqueued(s, order))
  {
    hide EnqueueRequired;
    if order != [] {
      var t := Enqueued(s, order[1..]);
      EnqueuedAscends(s, order[1..]);
      EnqueuedContents(s, order[1..]);
      forall x | x in t ensures order[0] < x {
        var k :| 0 <= k < |order[1..]| && order[1..][k] == x;
        assert x == order[k + 1];
      }
      AscendingPrepend(order[0], t);
    }
  }

  lemma AscendingPrepend(id: Id, ids: seq<Id>)
    requires AscendingIDs(ids) && forall x | x in ids :: id < x
    ensures AscendingIDs([id] + ids)
  {
    var q := [id] + ids;
    forall i, j | 0 <= i < j < |q| ensures q[i] < q[j] {
      assert q[j] == ids[j - 1] && q[j] in ids;
      if i > 0 { assert q[i] == ids[i - 1]; }
    }
  }

  /** The host going off puts the PEL in progress first, and what was sent without an
      answer last; being full for a sent PEL puts that PEL first. */
  lemma ReturnsToQueue(s: State, ans: Answers, id: Id)
    requires Inv(s)
    ensures Step(s, HostChanged(false, ans)).queue
         == (if s.inProgress != 0 then [s.inProgress] else []) + s.queue
            + (if s.link.instanceID.Some? && !ans.freeOk then [] else s.sent)
    ensures id != 0 ==> Step(s, HostIsFull(id)).queue == (if id in s.sent then [id] else []) + s.queue
  {
    hide Step, Link.Inv, Cancels, Unique;
    CancelEnds(s.link, ans.freeOk);
    var a, b := HostDownShifts(s, ans);
    OtherQueues(s, HostIsFull(id));
    if id != 0 && id in s.queue {
      UniqueInQueue(s, id);
    }
  }

  // ------------------------------------------------------------------ who is sent

  /** The PEL that newly is in progress was the first in the queue still needed, and
      what was behind it stays. */
  ghost predicate TakenInTurn(s: State, s': State, d: nat) {
    && Unneeded(s, d) && d < |s.queue| && Needed(s, s.queue[d])
    && s.queue[d] == s'.inProgress && s'.queue == s.queue[d + 1..]
  }

  lemma CallerMaySend(s: State, e: Event)
    requires Inv(s) && Enabled(s, e) && CallsNotify(s, e)
    ensures var c := Caller(s, e); c.hostUp == s.hostUp && (c.retryCount < 15 ==> s.retryCount < 15)
  {
    hide LinkAfter, Unique, WithHostState, Link.Inv;
    if IsResponse(e) {
      ResponseCases(s, e);
    }
  }

  lemma OtherInProgress(s: State, e: Event)
    requires Inv(s) && Enabled(s, e) && !CallsNotify(s, e)
    ensures Step(s, e).inProgress in {0, s.inProgress}
  {
    hide EraseFirst, EnqueueRequired, WithHostState, HostDown, Inv, LinkAfter, DoNewLogNotify;
    if IsResponse(e) {
      ResponseInProgress(s, e);
    } else if e.HostChanged? && !e.up {
      DownInProgress(s, e.ans);
    }
  }

  lemma ResponseInProgress(s: State, e: Event)
    requires Inv(s) && Enabled(s, e) && IsResponse(e) && !CallsNotify(s, e)
    ensures Step(s, e).inProgress in {0, s.inProgress}
  {
    hide Step, DoNewLogNotify, LinkAfter, Inv, WithHostState;
    ResponseCases(s, e);
  }

  lemma DownInProgress(s: State, ans: Answers)
    ensures Step(s, HostChanged(false, ans)).inProgress == 0
  {
    hide Cancels, LinkAfterCancel, Renewed, PutBack;
  }

  /** A PEL goes to the host only when it is the first in the queue that is still needed,
      the host is up, fewer than 15 sends failed and no timer holds sending back. */
  lemma ServedInTurn(s: State, e: Event)
    requires Inv(s) && Enabled(s, e)
    requires Step(s, e).inProgress != 0 && Step(s, e).inProgress != s.inProgress
    ensures exists d: nat :: TakenInTurn(s, Step(s, e), d)
    ensures s.hostUp && s.retryCount < 15 && !Step(s, e).retryTimer && !Step(s, e).hostFullTimer
  {
    hide Step, Needed, Inv, CallsNotify, Caller, Unneeded;
    if CallsNotify(s, e) {
      var d, o := CallAdvances(s, e);
      CallerMaySend(s, e);
      assert TakenInTurn(s, Step(s, e), d);
    } else {
      OtherInProgress(s, e);
    }
  }

  /** A PEL that was in progress and is queued afterwards is the first there. */
  lemma BackToFront(s: State, e: Event)
    requires Inv(s) && Enabled(s, e) && !e.BmcRestart?
    requires s.inProgress != 0 && s.inProgress in Step(s, e).queue
    ensures [s.inProgress] + s.queue <= Step(s, e).queue && Step(s, e).inProgress == 0
  {
    hide Step, Control, CallsNotify, Cancels;
    var p, q' := s.inProgress, Step(s, e).queue;
    assert p !in s.queue && p !in s.sent by {
      assert Tracked(s, p) <= 1;
      TimesMember(s.queue, p);
      TimesMember(s.sent, p);
    }
    if CallsNotify(s, e) {
      var k := CallShifts(s, e);
    } else if IsResponse(e) {
      var a := ResponseShifts(s, e);
      FailedInProgress(s, e);
    } else if e.HostChanged? && !e.up {
      var a, b := HostDownShifts(s, e.ans);
      DownInProgress(s, e.ans);
    } else {
      NoCallNoWakeup(s, e);
      OtherQueues(s, e);
      if e.PelDeleted? { ErasedContents(s.queue, e.id); }
    }
  }

  lemma FailedInProgress(s: State, e: Event)
    requires Inv(s) && Enabled(s, e) && IsResponse(e) && !CallsNotify(s, e)
    ensures Step(s, e).retryTimer && !s.retryTimer ==> Step(s, e).inProgress == 0
  {
    hide Step, DoNewLogNotify, LinkAfter, Inv, WithHostState;
    ResponseCases(s, e);
  }

  /** What a failed event leaves first in the queue. */
  ghost predicate KeptFirst(s: State, s': State, d: nat) {
    Unneeded(s, d) && d < |s.queue| && Needed(s, s.queue[d]) && s'.queue == s.queue[d..]
  }

  /** When a failure starts the retry timer, the PEL it was about is first in the queue:
      the one that was in progress, or the first needed, whose send was refused. */
  lemma FailureKeepsFirst(s: State, e: Event)
    requires Inv(s) && Enabled(s, e) && Step(s, e).retryTimer && (e.RetryExpired? || !s.retryTimer)
    ensures IsResponse(e) || IsWakeup(e)
    ensures Step(s, e).queue == [s.inProgress] + s.queue || exists d: nat :: KeptFirst(s, Step(s, e), d)
  {
    hide Step, Needed, Inv, CallsNotify, Caller, Unneeded;
    if CallsNotify(s, e) {
      var d, o := CallAdvances(s, e);
      CallerRetries(s, e);
      CallingEvents(s, e);
      assert KeptFirst(s, Step(s, e), d);
    } else if IsResponse(e) {
      var a := ResponseShifts(s, e);
    } else {
      OtherRetries(s, e);
    }
  }

  lemma CallingEvents(s: State, e: Event)
    requires CallsNotify(s, e)
    ensures IsResponse(e) || IsWakeup(e)
  {}

  lemma CallerRetries(s: State, e: Event)
    requires CallsNotify(s, e)
    ensures Caller(s, e).retryTimer == (s.retryTimer && !e.RetryExpired?)
  {
    hide LinkAfter, WithHostState;
  }

  lemma OtherRetries(s: State, e: Event)
    requires !CallsNotify(s, e) && !IsResponse(e)
    ensures !e.RetryExpired? && (Step(s, e).retryTimer ==> s.retryTimer)
  {
    hide EraseFirst, EnqueueRequired, WithHostState, Cancels, LinkAfterCancel, Renewed, PutBack;
  }

  /** When a timer or the dispatcher wakes the notifier with the host up, no timer holding
      sending back and retries left, the first PEL still needed goes to the host. */
  lemma WakeupServes(s: State, e: Event, d: nat)
    requires Inv(s) && Enabled(s, e) && (e.RetryExpired? || e.HostFullExpired? || e.HostUpExpired? || e.Dispatch?)
    requires s.hostUp && (e.RetryExpired? || !s.retryTimer) && (e.HostFullExpired? || !s.hostFullTimer)
    requires s.retryCount < if e.RetryExpired? then 14 else 15
    requires Unneeded(s, d) && d < |s.queue| && Needed(s, s.queue[d])
    requires e.ans.sizeOk && e.ans.alloc.Allocated? && e.ans.startOk
    ensures Step(s, e).inProgress == s.queue[d] && Step(s, e).queue == s.queue[d + 1..]
  {
    hide Step, DoNewLogNotify, Link.Inv, SendEndOf, Unique;
    WokenKeepsInv(s, e);
    var c := Woken(s, e);
    assert SendEndOf(c.link, e.ans) == Started by { AnswersStart(c.link, e.ans); }
    var k, o := NotifyAdvances(c, e.ans);
    assert k == d by {
      assert forall i | 0 <= i < |s.queue| :: Needed(c, s.queue[i]) == Needed(s, s.queue[i]);
    }
  }

  lemma AnswersStart(link: Link.State, ans: Answers)
    requires ans.sizeOk && ans.alloc.Allocated? && ans.startOk
    ensures SendEndOf(link, ans) == Started
  {}

  // --------------------------------------------------------------- leaving the queue

  /** How a PEL leaves the queue without having gone to the host. */
  predicate GoneUnsent(s: State, e: Event, id: Id) {
    e == PelDeleted(id) || !Needed(s, id) || (ThrowsAway(s, e) && SentPEL(s, e) == id)
  }

  lemma LeavesQueue(s: State, e: Event, id: Id)
    requires Inv(s) && Enabled(s, e) && !e.BmcRestart? && id != 0
    requires id in s.queue && id !in Step(s, e).queue
    ensures Step(s, e).inProgress == id || GoneUnsent(s, e, id)
  {
    hide Step, Needed, Inv, CallsNotify, Caller, Sends, EndOf, SentPEL;
    var i :| 0 <= i < |s.queue| && s.queue[i] == id;
    if e.PelDeleted? {
      OtherQueues(s, e);
      ErasedContents(s.queue, e.id);
    } else if CallsNotify(s, e) {
      var d, o := CallAdvances(s, e);
      assert forall k: nat | k <= i :: s.queue[k..][i - k] == id;
    } else {
      var a, k, b := EventShifts(s, e);
      KeepsAll(s, e);
    }
  }

  lemma KeepsAll(s: State, e: Event)
    requires Inv(s) && Enabled(s, e) && !e.BmcRestart? && !e.PelDeleted? && !CallsNotify(s, e)
    ensures forall id | id in s.queue :: id in Step(s, e).queue
  {
    hide Step, Inv, CallsNotify, Cancels;
    if IsResponse(e) {
      var a := ResponseShifts(s, e);
    } else if e.HostChanged? && !e.up {
      var a, b := HostDownShifts(s, e.ans);
    } else {
      NoCallNoWakeup(s, e);
      OtherQueues(s, e);
    }
  }

  // ------------------------------------------------------------------------ over runs

  /** y has not gone to the host, and is behind x if it is queued. */
  ghost predicate WaitsBehind(h: History, x: Id, y: Id) {
    && x in h.s.queue && y in h.used
    && h.s.inProgress != y && y !in h.s.sent
    && (y in h.s.queue ==> Ahead(h.s.queue, x, y))
  }

  /** Nothing gets into the sent list but from there and from being in progress. */
  lemma SentFrom(s: State, e: Event, id: Id)
    requires Inv(s) && Enabled(s, e) && id in Step(s, e).sent
    ensures id in s.sent || id == s.inProgress
  {
    hide Inv, DoNewLogNotify, EraseFirst, EnqueueRequired, Link.Step, HostDown, WithHostState;
    if CallsNotify(s, e) {
      CallSent(s, e);
    } else if IsResponse(e) {
      ResponseSent(s, e);
    } else if e.HostChanged? && !e.up {
      DownSent(s, e.ans);
    } else if e.PelDeleted? || e.Ack? || e.HostIsFull? || e.Bad? {
      ErasedContents(s.sent, e.id);
    }
  }

  lemma CallSent(s: State, e: Event)
    requires Inv(s) && Enabled(s, e) && CallsNotify(s, e)
    ensures Step(s, e).sent in {s.sent, s.sent + [s.inProgress]}
  {
    hide Step, DoNewLogNotify, LinkAfter, Inv, WithHostState;
    CallIsNotify(s, e);
    NotifyFrame(Caller(s, e), e.ans);
  }

  lemma ResponseSent(s: State, e: Event)
    requires Inv(s) && Enabled(s, e) && IsResponse(e) && !CallsNotify(s, e)
    ensures Step(s, e).sent in {s.sent, s.sent + [s.inProgress]}
  {
    hide Step, DoNewLogNotify, LinkAfter, Inv, WithHostState;
    ResponseCases(s, e);
  }

  lemma DownSent(s: State, ans: Answers)
    ensures Step(s, HostChanged(false, ans)).sent in {[], s.sent}
  {
    hide Cancels, LinkAfterCancel, Renewed, PutBack;
  }

  /** While x stays in the queue, y stays behind it and does not go to the host. */
  lemma StillBehind(h: History, e: Event, x: Id, y: Id)
    requires Sound(h) && Possible(h, e) && !e.BmcRestart? && x != 0 && y != 0 && WaitsBehind(h, x, y)
    requires x in Step(h.s, e).queue
    ensures WaitsBehind(Next(h, e), x, y)
  {
    hide Step, Control, FailsAfter, EnqueuedBy, FailsPaid;
    var s, s' := h.s, Step(h.s, e);
    if y in s'.sent { SentFrom(s, e, y); }
    if s'.inProgress == y { NotServedBefore(s, e, x, y); }
    if y in s'.queue {
      if y in s.queue {
        EventKeepsOrder(s, e, x, y);
      } else {
        NotQueuedAgain(h, e, y);
      }
    }
  }

  lemma NotServedBefore(s: State, e: Event, x: Id, y: Id)
    requires Inv(s) && Enabled(s, e) && x != 0 && y != 0 && s.inProgress != y && x in s.queue
    requires y in s.queue ==> Ahead(s.queue, x, y)
    requires Step(s, e).inProgress == y
    ensures x !in Step(s, e).queue
  {
    hide Step, Control, Needed;
    ServedInTurn(s, e);
    var d: nat :| TakenInTurn(s, Step(s, e), d);
    var i, j :| 0 <= i < j < |s.queue| && s.queue[i] == x && s.queue[j] == y;
    UniqueInQueue(s, x);
    UniqueInQueue(s, y);
    assert s.queue[d..][0] == y;
    OnlyPlace(s.queue, j, d);
    assert y in s.queue[j..] by { assert s.queue[j..][0] == y; }
    OnlyPlace(s.queue, d, j);
    if x in s.queue[d + 1..] {
      OnlyPlace(s.queue, i, d + 1);
      assert false;
    }
  }

  lemma NotQueuedAgain(h: History, e: Event, y: Id)
    requires Inv(h.s) && Possible(h, e) && !e.BmcRestart? && y != 0
    requires y in h.used && h.s.inProgress != y && y !in h.s.sent && y !in h.s.queue
    ensures y !in Step(h.s, e).queue
  {
    hide Step, Inv;
    if e.PelDeleted? {
      OtherQueues(h.s, e);
      ErasedContents(h.s.queue, e.id);
    } else {
      var a, k, b := EventShifts(h.s, e);
    }
  }

  /** The moment at which x leaves the queue, if it does. */
  ghost predicate LeavesAt(h: History, es: seq<Event>, m: nat, x: Id) {
    m < |es| && x in Run(h, es[..m]).s.queue && x !in Run(h, es[..m + 1]).s.queue
  }

  lemma RunSplits(h: History, es: seq<Event>, m: nat)
    requires m < |es| && AllPossible(h, es)
    ensures AllPossible(h, es[..m]) && Possible(Run(h, es[..m]), es[m])
    ensures Run(h, es[..m + 1]) == Next(Run(h, es[..m]), es[m])
    decreases |es|
  {
    hide Next, Possible;
    assert es[..m + 1][..m] == es[..m];
    if m < |es| - 1 {
      RunSplits(h, es[..|es| - 1], m);
      assert es[..|es| - 1][..m] == es[..m] && es[..|es| - 1][..m + 1] == es[..m + 1];
    } else {
      assert es[..m + 1] == es;
    }
  }

  lemma {:induction false} WaitsOrLeaves(h: History, es: seq<Event>, x: Id, y: Id) returns (m: nat)
    requires Sound(h) && AllPossible(h, es) && x != 0 && y != 0 && WaitsBehind(h, x, y)
    requires forall e | e in es :: !e.BmcRestart?
    ensures LeavesAt(h, es, m, x) || (m == |es| && WaitsBehind(Run(h, es), x, y))
    decreases |es|
  {
    hide Next, Possible, Sound, WaitsBehind;
    m := 0;
    if es != [] {
      var n := |es| - 1;
      var g := Run(h, es[..n]);
      m := WaitsOrLeaves(h, es[..n], x, y);
      if m < n {
        assert es[..n][..m] == es[..m] && es[..n][..m + 1] == es[..m + 1];
      } else {
        RunSound(h, es[..n]);
        assert es[..n + 1] == es;
        if x in Run(h, es).s.queue {
          NextQueue(g, es[n]);
          StillBehind(g, es[n], x, y);
          m := n + 1;
        } else {
          StillQueued(g, x, y);
        }
      }
    }
  }

  lemma NextQueue(h: History, e: Event)
    ensures Next(h, e).s == Step(h.s, e)
  {}

  lemma StillQueued(h: History, x: Id, y: Id)
    requires WaitsBehind(h, x, y)
    ensures x in h.s.queue
  {}

  lemma StartsBehind(h: History, x: Id, y: Id)
    requires Sound(h) && Ahead(h.s.queue, x, y) && x != 0 && y != 0
    ensures WaitsBehind(h, x, y)
  {
    hide Control, FailsPaid;
    UniqueInQueue(h.s, y);
    TimesMember(h.s.queue, y);
  }

  /** PELs go to the host in the order they were queued: over any run without a BMC restart,
      by the time a PEL goes to the host every PEL that was ahead of it in the queue has
      itself gone to the host, unless it was deleted, was needed no more, or was dropped
      when its send threw. */
  lemma FirstQueuedFirstSent(h: History, es: seq<Event>, x: Id, y: Id) returns (m: nat)
    requires Sound(h) && AllPossible(h, es) && (forall e | e in es :: !e.BmcRestart?)
    requires x != 0 && y != 0 && Ahead(h.s.queue, x, y)
    requires Run(h, es).s.inProgress == y
    ensures m < |es| && x in Run(h, es[..m]).s.queue
    ensures Run(h, es[..m + 1]).s.inProgress == x || GoneUnsent(Run(h, es[..m]).s, es[m], x)
  {
    hide Next, Possible, Sound, GoneUnsent, Ahead;
    StartsBehind(h, x, y);
    m := WaitsOrLeaves(h, es, x, y);
    assert m < |es|;
    RunSplits(h, es, m);
    RunSound(h, es[..m]);
    var g := Run(h, es[..m]);
    NextQueue(g, es[m]);
    SoundInv(g, es[m]);
    LeavesQueue(g.s, es[m], x);
  }

  lemma SoundInv(h: History, e: Event)
    requires Sound(h) && Possible(h, e)
    ensures Inv(h.s) && Enabled(h.s, e)
  {
    hide Inv, FailsPaid, UsedCovers, Enabled;
  }
}
