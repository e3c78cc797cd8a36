/** What the notification protocol keeps over any run. */
module NotifierProofs {
  import opened RepositoryState
  import opened NotifierState
  import opened Sequences
  import Link = PldmState

  // ------------------------------------------------------ where a PEL is tracked

  function Times(ids: seq<Id>, id: Id): nat { multiset(ids)[id] }

  /** How often a PEL is in the queue, in the sent list, or in progress. */
  function Tracked(s: State, id: Id): nat {
    Times(s.queue, id) + Times(s.sent, id) + if s.inProgress == id then 1 else 0
  }

  /** No PEL is tracked twice: the three places are disjoint and repeat nothing. */
  ghost predicate Unique(s: State) {
    forall id: Id | id != 0 :: Tracked(s, id) <= 1
  }

  /** What every event keeps, whatever the host replies and whatever fails. */
  ghost predicate Inv(s: State) {
    Unique(s) && 0 !in s.pels && Control(s)
  }

  /** How the control fields hang together. */
  ghost predicate Control(s: State) {
    && Link.Inv(s.link)
    && (s.retryTimer ==> s.inProgress == 0 && !s.link.source && s.retryCount < MAX_RETRY_ATTEMPTS)
    && (s.link.source ==> s.retryCount < MAX_RETRY_ATTEMPTS)
    && (s.inProgress != 0 ==> s.hostUp && s.retryCount < MAX_RETRY_ATTEMPTS)
    && s.retryCount <= MAX_RETRY_ATTEMPTS
  }

  /** s' tracks nothing that s does not. */
  ghost predicate TracksLess(s': State, s: State) {
    forall id: Id | id != 0 :: Tracked(s', id) <= Tracked(s, id)
  }

  // ----------------------------------------------------------- counting in sequences

  lemma TimesConcat(xs: seq<Id>, ys: seq<Id>, id: Id)
    ensures Times(xs + ys, id) == Times(xs, id) + Times(ys, id)
  {}

  lemma TimesCons(x: Id, ys: seq<Id>, id: Id)
    ensures Times([x] + ys, id) == Times(ys, id) + if x == id then 1 else 0
  {}

  lemma TimesTail(ids: seq<Id>, id: Id)
    requires ids != []
    ensures Times(ids, id) == Times(ids[1..], id) + if ids[0] == id then 1 else 0
  {
    assert ids == [ids[0]] + ids[1..];
  }

  lemma NoTimes()
    ensures forall id :: Times([], id) == 0
  {}

  lemma TimesMember(ids: seq<Id>, id: Id)
    ensures id in ids <==> Times(ids, id) > 0
  {}

  lemma {:induction false} TimesErase(ids: seq<Id>, gone: Id, id: Id)
    ensures Times(EraseFirst(ids, gone), id) == Times(ids, id) - if gone == id && id in ids then 1 else 0
  {
    if ids != [] {
      TimesTail(ids, id);
      TimesErase(ids[1..], gone, id);
      if ids[0] != gone { TimesCons(ids[0], EraseFirst(ids[1..], gone), id); }
    }
  }

  lemma {:induction false} ErasedContents(ids: seq<Id>, gone: Id)
    ensures forall id :: id in EraseFirst(ids, gone) ==> id in ids
    ensures forall id :: id in ids && id != gone ==> id in EraseFirst(ids, gone)
    ensures gone !in ids ==> EraseFirst(ids, gone) == ids
  {
    if ids != [] {
      ErasedContents(ids[1..], gone);
    }
  }

  /** What doNewLogNotify skips: PELs the host no longer needs to hear of. */
  lemma {:induction false} SkippedUnneeded(s: State, queue: seq<Id>)
    ensures forall id :: Times(ToSend(s, queue), id) <= Times(queue, id)
    ensures ToSend(s, queue) != [] ==> NotifyRequired(s, ToSend(s, queue)[0])
    ensures forall id :: id in ToSend(s, queue) ==> id in queue
    ensures forall id :: id in queue && id !in ToSend(s, queue) ==> !NotifyRequired(s, id)
  {
    if queue != [] && !NotifyRequired(s, queue[0]) {
      SkippedUnneeded(s, queue[1..]);
      forall id ensures Times(ToSend(s, queue), id) <= Times(queue, id) {
        TimesTail(queue, id);
      }
    }
  }

  lemma {:induction false} EnqueuedContents(s: State, order: seq<Id>)
    ensures forall id :: id in Enqueued(s, order) <==> id in order && EnqueueRequired(s, id)
    ensures forall id :: Times(Enqueued(s, order), id) <= Times(order, id)
  {
    if order != [] {
      EnqueuedContents(s, order[1..]);
      assert forall id :: id in order <==> id == order[0] || id in order[1..];
      forall id ensures Times(Enqueued(s, order), id) <= Times(order, id) {
        TimesTail(order, id);
        TimesCons(order[0], Enqueued(s, order[1..]), id);
      }
    }
  }

  lemma {:induction false} AscendingUnique(ids: seq<Id>, id: Id)
    requires forall i, j | 0 <= i < j < |ids| :: ids[i] < ids[j]
    ensures Times(ids, id) <= 1
  {
    if ids != [] {
      TimesTail(ids, id);
      AscendingUnique(ids[1..], id);
      TimesMember(ids[1..], id);
    }
  }

  // --------------------------------------------------------- the invariant holds

  lemma TracksLessKeepsInv(s': State, s: State)
    requires Inv(s) && TracksLess(s', s) && Control(s') && 0 !in s'.pels
    ensures Inv(s')
  {
    forall id: Id | id != 0 ensures Tracked(s', id) <= 1 {
      assert Tracked(s, id) <= 1;
    }
  }

  lemma SendTracked(s: State, q: seq<Id>, ans: Answers, id: Id)
    requires q != [] && id != 0 && Times(q, id) <= Times(s.queue, id)
    ensures Tracked(SendFirst(s, q, ans), id) <= Tracked(s, id)
  {
    hide SendEndOf, LinkAfterSend, Times;
    TimesTail(q, id);
  }

  /** doNewLogNotify moves PELs, and drops only those it skips, the one it overwrites
      and the one whose send throws. */
  lemma NotifyTracksLess(s: State, ans: Answers)
    ensures TracksLess(DoNewLogNotify(s, ans), s)
  {
    hide SendFirst, Times, ToSend;
    var q := ToSend(s, s.queue);
    SkippedUnneeded(s, s.queue);
    NoTimes();
    forall id: Id | id != 0 ensures Tracked(DoNewLogNotify(s, ans), id) <= Tracked(s, id) {
      if q != [] {
        SendTracked(s, q, ans, id);
      }
    }
  }

  /** doNewLogNotify leaves everything else alone. */
  lemma NotifyFrame(s: State, ans: Answers)
    ensures var s' := DoNewLogNotify(s, ans);
      && s'.pels == s.pels && s'.sent == s.sent && s'.retryCount == s.retryCount
      && s'.hostUp == s.hostUp && s'.hostFull == s.hostFull && s'.hostFullTimer == s.hostFullTimer
      && s'.hostUpTimer == s.hostUpTimer && s'.dispatchPending == s.dispatchPending
  {
    hide LinkAfterCancel, SendEndOf, LinkAfterSend, ToSend;
  }

  /** What a send does to the command interface. */
  lemma SendEnds(link: Link.State, ans: Answers)
    requires Link.Inv(link) && FreshID(link, ans)
    ensures var after := LinkAfterSend(link, ans);
      && Link.Inv(after)
      && match SendEndOf(link, ans)
         case Started => after.source && after.inProgress
         case Refused => !after.source && !after.inProgress
         case Threw => after.source == link.source && (ans.sizeOk ==> !link.source && after.inProgress)
                       && (!ans.sizeOk ==> after == link)
    ensures SendEndOf(link, ans).Threw? <==> !ans.sizeOk || (link.instanceID.None? && ans.alloc.AllocFailed?)
  {
    hide Link.SendNewLogCmd, Link.Inv;
    Link.SendOutcome(link, ans.alloc, ans.startOk);
  }

  /** What cancelCmd does to it. */
  lemma CancelEnds(link: Link.State, freeOk: bool)
    requires Link.Inv(link)
    ensures var after := LinkAfterCancel(link, freeOk);
      && Link.Inv(after) && (Cancels(link, freeOk) <==> !(link.instanceID.Some? && !freeOk))
      && if Cancels(link, freeOk) then !after.source && !after.inProgress else after == link
  {
    hide Link.Step, Link.Inv;
    Link.CancelOutcome(link, freeOk);
  }

  lemma SendKeepsControl(s: State, q: seq<Id>, ans: Answers)
    requires Control(s) && FreshID(s.link, ans) && q != [] && q[0] != 0
    requires MaySend(s) && s.retryCount < MAX_RETRY_ATTEMPTS
    ensures Control(SendFirst(s, q, ans))
  {
    hide Link.SendNewLogCmd, LinkAfterSend, Link.Inv;
    SendEnds(s.link, ans);
  }

  lemma NotifyKeepsInv(s: State, ans: Answers)
    requires Inv(s) && FreshID(s.link, ans)
    ensures Inv(DoNewLogNotify(s, ans))
  {
    hide LinkAfterCancel, SendFirst, TracksLess, Unique;
    NotifyTracksLess(s, ans);
    NotifyFrame(s, ans);
    SkippedUnneeded(s, s.queue);
    var q := ToSend(s, s.queue);
    if MaySend(s) {
      if s.retryCount == MAX_RETRY_ATTEMPTS {
        CancelEnds(s.link, ans.freeOk);
      } else if q != [] {
        assert q[0] != 0;
        SendKeepsControl(s, q, ans);
      }
    }
    TracksLessKeepsInv(DoNewLogNotify(s, ans), s);
  }

  /** The state in which a successful response goes on to the next PEL. */
  function Responded(s: State, link: Link.State): State {
    Taken(s.(link := link))
  }

  /** The state in which a failed one leaves the PEL to the retry timer. */
  function Failed(s: State, link: Link.State): State {
    s.(link := link, inProgress := 0, queue := [s.inProgress] + s.queue, retryTimer := true)
  }

  lemma RespondedKeepsInv(s: State, link: Link.State)
    requires Inv(s) && s.link.source && Link.Inv(link) && !link.source
    ensures Inv(Responded(s, link)) && TracksLess(Responded(s, link), s)
  {
    forall id: Id | id != 0 ensures Tracked(Responded(s, link), id) <= Tracked(s, id) {
      TimesConcat(s.sent, [s.inProgress], id);
    }
    TracksLessKeepsInv(Responded(s, link), s);
  }

  lemma FailedKeepsInv(s: State, link: Link.State)
    requires Inv(s) && s.link.source && Link.Inv(link) && !link.source
    ensures Inv(Failed(s, link)) && TracksLess(Failed(s, link), s)
  {
    forall id: Id | id != 0 ensures Tracked(Failed(s, link), id) <= Tracked(s, id) {
      TimesCons(s.inProgress, s.queue, id);
    }
    TracksLessKeepsInv(Failed(s, link), s);
  }

  lemma TracksLessTransitive(a: State, b: State, c: State)
    requires TracksLess(a, b) && TracksLess(b, c)
    ensures TracksLess(a, c)
  {
    forall id: Id | id != 0 ensures Tracked(a, id) <= Tracked(c, id) {
      assert Tracked(a, id) <= Tracked(b, id);
    }
  }

  predicate IsResponse(e: Event) { e.Response? || e.ResponseTimeout? }

  predicate Succeeds(e: Event) { e.Response? && e.status == Link.Succeeded }

  /** The command interface once it took the response, or timed out. */
  function LinkAfter(s: State, e: Event): Link.State
    requires IsResponse(e)
  {
    if e.Response? then Link.Step(s.link, Link.Receive(e.status, e.ans.freeOk)).0 else Link.Step(s.link, Link.Timeout).0
  }

  /** The response is read but does not reach the notifier. */
  predicate Undelivered(e: Event) { e.Response? && !e.ans.freeOk }

  /** What a response comes to. */
  lemma ResponseCases(s: State, e: Event)
    requires Inv(s) && Enabled(s, e) && IsResponse(e)
    ensures s.link.source && Link.Inv(LinkAfter(s, e)) && !LinkAfter(s, e).source && !LinkAfter(s, e).inProgress
    ensures Step(s, e) ==
      if Undelivered(e) then s.(link := LinkAfter(s, e))
      else if !Succeeds(e) then Failed(s, LinkAfter(s, e))
      else if !s.hostFull && s.queue != [] then DoNewLogNotify(Responded(s, LinkAfter(s, e)), e.ans)
      else Responded(s, LinkAfter(s, e))
    ensures Succeeds(e) ==> FreshID(LinkAfter(s, e), e.ans)
  {
    hide Link.Step, DoNewLogNotify;
    if e.Response? {
      Link.ReceiveOutcome(s.link, e.status, e.ans.freeOk);
    } else {
      Link.TimeoutOutcome(s.link);
    }
  }

  lemma ResponseKeepsInv(s: State, e: Event)
    requires Inv(s) && Enabled(s, e) && IsResponse(e)
    ensures Inv(Step(s, e)) && TracksLess(Step(s, e), s)
  {
    hide Step, DoNewLogNotify, Link.Step, Unique, TracksLess;
    ResponseCases(s, e);
    var link := LinkAfter(s, e);
    if Undelivered(e) {
      SameListsKeepInv(s, s.(link := link));
    } else if !Succeeds(e) {
      FailedKeepsInv(s, link);
    } else {
      RespondedKeepsInv(s, link);
      NotifyKeepsInv(Responded(s, link), e.ans);
      NotifyTracksLess(Responded(s, link), e.ans);
      TracksLessTransitive(DoNewLogNotify(Responded(s, link), e.ans), Responded(s, link), s);
    }
  }

  /** stopCommand leaves the command interface as it was if it throws. */
  predicate StopThrows(s: State, e: Event) {
    e.HostChanged? && !e.up && s.link.instanceID.Some? && !e.ans.freeOk
  }

  /** When the host goes down everything goes back to the queue, or what was sent stays
      where it is. */
  lemma HostDownTracked(s: State, freeOk: bool, id: Id)
    requires id != 0
    ensures Tracked(HostDown(s, freeOk), id) == Tracked(s, id)
  {
    hide Cancels, LinkAfterCancel, Renewed, Times;
    var q := PutBack(s.inProgress, s.queue);
    TimesCons(s.inProgress, s.queue, id);
    TimesConcat(q, s.sent, id);
    NoTimes();
  }

  lemma HostDownControl(s: State, freeOk: bool)
    requires Inv(s)
    ensures var s' := HostDown(s.(hostUp := false), freeOk); Control(s') && 0 !in s'.pels
  {
    hide Cancels, LinkAfterCancel, PutBack, Unique, Link.Inv;
    CancelEnds(s.link, freeOk);
  }

  lemma HostDownKeepsInv(s: State, ans: Answers)
    requires Inv(s)
    ensures Inv(Step(s, HostChanged(false, ans))) && TracksLess(Step(s, HostChanged(false, ans)), s)
  {
    hide HostDown, Control, Unique;
    var s' := Step(s, HostChanged(false, ans));
    HostDownControl(s, ans.freeOk);
    forall id: Id | id != 0 ensures Tracked(s', id) <= Tracked(s, id) {
      HostDownTracked(s.(hostUp := false), ans.freeOk, id);
    }
    TracksLessKeepsInv(s', s);
  }

  lemma StartKeepsInv(pels: map<Id, Pel>, order: seq<Id>, up: bool, managed: bool, on: bool)
    requires WalkOf(order, pels) && 0 !in pels
    ensures Inv(Start(pels, order, up, managed, on))
  {
    var s := Unstarted(pels, up, managed, on);
    var s' := Start(pels, order, up, managed, on);
    EnqueuedContents(s, order);
    forall id: Id | id != 0 ensures Tracked(s', id) <= 1 {
      AscendingUnique(order, id);
      assert Times(Enqueued(s, order), id) <= Times(order, id);
    }
  }

  lemma DeletedKeepsInv(s: State, id: Id)
    requires Inv(s)
    ensures Inv(Step(s, PelDeleted(id))) && TracksLess(Step(s, PelDeleted(id)), s)
  {
    var s' := Step(s, PelDeleted(id));
    forall x: Id | x != 0 ensures Tracked(s', x) <= Tracked(s, x) {
      TimesErase(s.queue, id, x);
      TimesErase(s.sent, id, x);
    }
    TracksLessKeepsInv(s', s);
  }

  lemma AckKeepsInv(s: State, id: Id)
    requires Inv(s)
    ensures Inv(AckPEL(s, id)) && TracksLess(AckPEL(s, id), s)
  {
    hide WithHostState, EraseFirst, Link.Inv;
    SameKeys(s.pels, id, Acked);
    forall x: Id | x != 0 ensures Tracked(AckPEL(s, id), x) <= Tracked(s, x) {
      TimesErase(s.sent, id, x);
    }
    TracksLessKeepsInv(AckPEL(s, id), s);
  }

  lemma BadKeepsInv(s: State, id: Id)
    requires Inv(s)
    ensures Inv(SetBadPEL(s, id)) && TracksLess(SetBadPEL(s, id), s)
  {
    hide WithHostState, EraseFirst, Link.Inv;
    SameKeys(s.pels, id, BadPEL);
    forall x: Id | x != 0 ensures Tracked(SetBadPEL(s, id), x) <= Tracked(s, x) {
      TimesErase(s.sent, id, x);
    }
    TracksLessKeepsInv(SetBadPEL(s, id), s);
  }

  lemma SameKeys(pels: map<Id, Pel>, id: Id, st: TransmissionState)
    ensures WithHostState(pels, id, st).Keys == pels.Keys
  {}

  lemma HostFullKeepsInv(s: State, id: Id)
    requires Inv(s)
    ensures Inv(SetHostFull(s, id)) && TracksLess(SetHostFull(s, id), s)
  {
    hide WithHostState, EraseFirst, Link.Inv;
    SameKeys(s.pels, id, NewPEL);
    forall x: Id | x != 0 ensures Tracked(SetHostFull(s, id), x) <= Tracked(s, x) {
      TimesErase(s.sent, id, x);
      TimesCons(id, s.queue, x);
    }
    TracksLessKeepsInv(SetHostFull(s, id), s);
  }

  lemma AddedKeepsInv(s: State, id: Id, pel: Pel)
    requires Inv(s) && Enabled(s, PelAdded(id, pel))
    ensures Inv(Step(s, PelAdded(id, pel)))
  {
    forall x: Id | x != 0 ensures Tracked(Step(s, PelAdded(id, pel)), x) <= 1 {
      TimesConcat(s.queue, [id], x);
      TimesMember(s.queue, id);
      TimesMember(s.sent, id);
      assert Tracked(s, x) <= 1;
    }
  }

  /** Changes to timers and surroundings. */
  lemma SameListsKeepInv(s: State, s': State)
    requires Inv(s) && Control(s') && 0 !in s'.pels
    requires s'.queue == s.queue && s'.sent == s.sent && s'.inProgress == s.inProgress
    ensures Inv(s') && TracksLess(s', s)
  {
    forall id: Id | id != 0 ensures Tracked(s', id) <= Tracked(s, id) {}
    TracksLessKeepsInv(s', s);
  }

  predicate IsWakeup(e: Event) {
    e.RetryExpired? || e.HostFullExpired? || e.HostUpExpired? || e.Dispatch?
  }

  /** The state in which a wakeup calls doNewLogNotify. */
  function Woken(s: State, e: Event): State
    requires IsWakeup(e)
  {
    s.(retryTimer := s.retryTimer && !e.RetryExpired?,
       retryCount := if e.RetryExpired? && s.hostUp then s.retryCount + 1 else s.retryCount,
       hostFullTimer := s.hostFullTimer && !e.HostFullExpired?,
       hostUpTimer := s.hostUpTimer && !e.HostUpExpired?,
       dispatchPending := s.dispatchPending && !e.Dispatch?)
  }

  lemma WokenKeepsInv(s: State, e: Event)
    requires Inv(s) && Enabled(s, e) && IsWakeup(e)
    ensures Inv(Woken(s, e)) && TracksLess(Woken(s, e), s) && FreshID(Woken(s, e).link, e.ans)
    ensures Step(s, e) == DoNewLogNotify(Woken(s, e), e.ans)
  {
    hide SendFirst, ToSend, LinkAfterCancel, Link.Inv, Link.Step, Unique, TracksLess;
    SameListsKeepInv(s, Woken(s, e));
  }

  lemma WakeupKeepsInv(s: State, e: Event)
    requires Inv(s) && Enabled(s, e) && IsWakeup(e)
    ensures Step(s, e) == DoNewLogNotify(Woken(s, e), e.ans)
    ensures Inv(Woken(s, e)) && Inv(Step(s, e)) && TracksLess(Step(s, e), s)
  {
    hide DoNewLogNotify, Step, Inv, TracksLess, Woken;
    WokenKeepsInv(s, e);
    NotifyKeepsInv(Woken(s, e), e.ans);
    NotifyTracksLess(Woken(s, e), e.ans);
    TracksLessTransitive(DoNewLogNotify(Woken(s, e), e.ans), Woken(s, e), s);
  }

  /** What an event does to the repository. */
  function PelsAfter(s: State, e: Event): map<Id, Pel> {
    match e
    case PelAdded(id, pel) => s.pels[id := pel]
    case PelDeleted(id) => s.pels - {id}
    case HostChanged(up, _) => if up || StopThrows(s, e) then s.pels else Renewed(s.pels, s.sent)
    case Response(_, _) => if Succeeds(e) && !Undelivered(e) then WithHostState(s.pels, s.inProgress, Sent) else s.pels
    case Ack(id) => WithHostState(s.pels, id, Acked)
    case HostIsFull(id) => if id in s.sent then WithHostState(s.pels, id, NewPEL) else s.pels
    case Bad(id) => WithHostState(s.pels, id, BadPEL)
    case HmcState(id, st) => if id in s.pels then s.pels[id := s.pels[id].(hmcState := st)] else s.pels
    case BmcRestart(_) => RestoredPels(s.pels)
    case _ => s.pels
  }

  lemma ResponsePels(s: State, e: Event)
    requires Enabled(s, e) && Inv(s) && IsResponse(e)
    ensures Step(s, e).pels == PelsAfter(s, e)
  {
    hide Step, DoNewLogNotify, WithHostState;
    ResponseCases(s, e);
    NotifyFrame(Responded(s, LinkAfter(s, e)), e.ans);
  }

  lemma WakeupPels(s: State, e: Event)
    requires Enabled(s, e) && Inv(s) && IsWakeup(e)
    ensures Step(s, e).pels == s.pels
  {
    hide Link.Step, SendFirst, ToSend, Unique, Link.Inv;
    WakeupKeepsInv(s, e);
    NotifyFrame(Woken(s, e), e.ans);
  }

  lemma HostDownPels(s: State, freeOk: bool)
    ensures HostDown(s, freeOk).pels == if Cancels(s.link, freeOk) then Renewed(s.pels, s.sent) else s.pels
  {
    hide Renewed, PutBack, Cancels, LinkAfterCancel;
  }

  lemma HostChangePels(s: State, up: bool, ans: Answers)
    requires Inv(s)
    ensures Step(s, HostChanged(up, ans)).pels == PelsAfter(s, HostChanged(up, ans))
  {
    hide Step, PelsAfter, Renewed, HostDown, Inv, Cancels, StopThrows;
    HostChangeStep(s, up, ans);
    CancelThrows(s, ans);
    HostDownPels(s.(hostUp := up), ans.freeOk);
  }

  lemma HostChangeStep(s: State, up: bool, ans: Answers)
    ensures Step(s, HostChanged(up, ans)).pels == if up then s.pels else HostDown(s.(hostUp := up), ans.freeOk).pels
    ensures PelsAfter(s, HostChanged(up, ans))
         == if up || StopThrows(s, HostChanged(up, ans)) then s.pels else Renewed(s.pels, s.sent)
  {
    hide HostDown, Renewed;
  }

  lemma CancelThrows(s: State, ans: Answers)
    requires Inv(s)
    ensures StopThrows(s, HostChanged(false, ans)) <==> !Cancels(s.link, ans.freeOk)
  {
    hide Unique, Link.Inv, Cancels;
    CancelEnds(s.link, ans.freeOk);
  }

  lemma AddedPels(s: State, id: Id, pel: Pel)
    ensures Step(s, PelAdded(id, pel)).pels == PelsAfter(s, PelAdded(id, pel))
  {}

  lemma HostFullPels(s: State, id: Id)
    ensures Step(s, HostIsFull(id)).pels == PelsAfter(s, HostIsFull(id))
  {}

  lemma StepPels(s: State, e: Event)
    requires Enabled(s, e) && Inv(s)
    ensures Step(s, e).pels == PelsAfter(s, e)
  {
    hide DoNewLogNotify, WithHostState, Renewed, EraseFirst, Inv, Link.Step;
    if IsWakeup(e) {
      WakeupPels(s, e);
    } else if IsResponse(e) {
      ResponsePels(s, e);
    } else if e.HostChanged? {
      HostChangePels(s, e.up, e.ans);
    } else if e.PelAdded? {
      AddedPels(s, e.id, e.pel);
    } else if e.HostIsFull? {
      HostFullPels(s, e.id);
    }
  }

  lemma ReplyKeepsInv(s: State, e: Event)
    requires Inv(s) && (e.Ack? || e.Bad? || e.HostIsFull?)
    ensures Inv(Step(s, e)) && TracksLess(Step(s, e), s)
  {
    hide Inv, TracksLess, WithHostState, EraseFirst;
    match e
    case Ack(id) => AckKeepsInv(s, id);
    case Bad(id) => BadKeepsInv(s, id);
    case HostIsFull(id) => HostFullKeepsInv(s, id);
  }

  lemma RestartKeepsInv(s: State, order: seq<Id>)
    requires Inv(s) && Enabled(s, BmcRestart(order))
    ensures Inv(Step(s, BmcRestart(order)))
  {
    hide Control, Unique, Start;
    StartKeepsInv(RestoredPels(s.pels), order, s.hostUp, s.hmcManaged, s.pelEnablement);
  }

  /** The host coming up, the HMC and the enablement move no PEL. */
  lemma SurroundingsKeepInv(s: State, e: Event)
    requires Inv(s) && ((e.HostChanged? && e.up) || e.HmcState? || e.HmcManaged? || e.PelEnablement?)
    ensures Inv(Step(s, e)) && TracksLess(Step(s, e), s)
  {
    hide Unique, TracksLess, Link.Inv, HostDown, NewLog, DeleteLog, Receive, ReceiveTimerExpired, RetryTimerExpired,
      DoNewLogNotify, AckPEL, SetHostFull, SetBadPEL, Start;
    match e
    case HostChanged(_, _) => SameListsKeepInv(s, Step(s, e));
    case HmcState(_, _) => SameListsKeepInv(s, Step(s, e));
    case HmcManaged(_) => SameListsKeepInv(s, Step(s, e));
    case PelEnablement(_) => SameListsKeepInv(s, Step(s, e));
  }

  /** Queue, sent list and in-progress stay disjoint and free of repeats, and the
      retry timer never runs while a PEL is in progress. */
  lemma StepKeepsInv(s: State, e: Event)
    requires Inv(s) && Enabled(s, e)
    ensures Inv(Step(s, e))
    ensures !e.PelAdded? && !e.BmcRestart? ==> TracksLess(Step(s, e), s)
  {
    hide Step, Enabled, Inv, TracksLess;
    if IsWakeup(e) {
      WakeupKeepsInv(s, e);
    } else if IsResponse(e) {
      ResponseKeepsInv(s, e);
    } else if e.PelAdded? {
      AddedKeepsInv(s, e.id, e.pel);
    } else if e.PelDeleted? {
      DeletedKeepsInv(s, e.id);
    } else if e.HostChanged? {
      if e.up { SurroundingsKeepInv(s, e); } else { HostDownKeepsInv(s, e.ans); }
    } else if e.Ack? || e.Bad? || e.HostIsFull? {
      ReplyKeepsInv(s, e);
    } else if e.BmcRestart? {
      RestartKeepsInv(s, e.order);
    } else {
      SurroundingsKeepInv(s, e);
    }
  }
}
