/** No PEL is lost: what each event does to the PELs the host still has to hear of. */
module NotifierLoss {
  import opened RepositoryState
  import opened NotifierState
  import opened NotifierProofs
  import opened Sequences
  import Link = PldmState

  // ---------------------------------------------------------------- no PEL is lost

  /** A PEL the host still has to hear of: stored, not hidden, neither acked nor bad. */
  predicate Live(s: State, id: Id) {
    id in s.pels && !s.pels[id].hidden && s.pels[id].hostState != Acked && s.pels[id].hostState != BadPEL
  }

  predicate Held(s: State, id: Id) { Tracked(s, id) >= 1 }

  /** doNewLogNotify, called now, would come to a send. */
  predicate WouldSend(s: State) {
    MaySend(s) && s.retryCount < MAX_RETRY_ATTEMPTS && ToSend(s, s.queue) != []
  }

  /** The state in which the event calls doNewLogNotify, if it does. */
  function Caller(s: State, e: Event): State {
    if IsWakeup(e) then Woken(s, e)
    else if IsResponse(e) && Succeeds(e) && !Undelivered(e) then Responded(s, LinkAfter(s, e))
    else s
  }

  predicate CallsNotify(s: State, e: Event) {
    IsWakeup(e) || (IsResponse(e) && Succeeds(e) && !Undelivered(e) && !s.hostFull && s.queue != [])
  }

  /** The event comes to a send. */
  predicate Sends(s: State, e: Event) {
    CallsNotify(s, e) && WouldSend(Caller(s, e))
  }

  /** The PEL the send is for, and how it ends. */
  function SentPEL(s: State, e: Event): Id
    requires Sends(s, e)
  {
    ToSend(Caller(s, e), Caller(s, e).queue)[0]
  }

  function EndOf(s: State, e: Event): SendEnd
    requires Sends(s, e)
  {
    SendEndOf(Caller(s, e).link, e.ans)
  }

  /** The event gets an answer to a send although a PEL was in progress. */
  predicate Overwrites(s: State, e: Event) {
    Sends(s, e) && Caller(s, e).inProgress != 0 && EndOf(s, e) != Threw
  }

  /** The event takes a PEL off the queue for a send that throws. */
  predicate ThrowsAway(s: State, e: Event) {
    Sends(s, e) && EndOf(s, e) == Threw
  }

  /** doNewLogNotify, called now, would forget this PEL. */
  predicate Forgets(s: State, ans: Answers, id: Id) {
    WouldSend(s) && if SendEndOf(s.link, ans) == Threw then id == ToSend(s, s.queue)[0] else id == s.inProgress
  }

  lemma SendKeepsHeld(s: State, q: seq<Id>, ans: Answers, id: Id)
    requires q != [] && id != 0 && (id in s.queue ==> id in q) && Held(s, id)
    requires if SendEndOf(s.link, ans) == Threw then id != q[0] else id != s.inProgress
    ensures Held(SendFirst(s, q, ans), id)
  {
    hide Link.SendNewLogCmd, LinkAfterSend;
    TimesMember(s.queue, id);
    TimesMember(q, id);
    TimesTail(q, id);
  }

  lemma NotifyKeepsHeld(s: State, ans: Answers, id: Id)
    requires id != 0 && Held(s, id) && Live(s, id) && !Forgets(s, ans, id)
    ensures Held(DoNewLogNotify(s, ans), id)
  {
    hide SendFirst, LinkAfterCancel, Link.SendNewLogCmd;
    var q := ToSend(s, s.queue);
    SkippedUnneeded(s, s.queue);
    assert NotifyRequired(s, id);
    TimesMember(s.queue, id);
    if WouldSend(s) {
      SendKeepsHeld(s, q, ans, id);
    }
  }

  /** A send that is answered forgets the PEL that was in progress, one that throws the
      PEL it was for. */
  lemma SendForgets(s: State, ans: Answers, id: Id)
    requires Inv(s) && id != 0 && Forgets(s, ans, id)
    ensures !Held(DoNewLogNotify(s, ans), id)
  {
    hide LinkAfterSend, LinkAfterCancel, Link.SendNewLogCmd, Link.Inv;
    var q := ToSend(s, s.queue);
    SkippedUnneeded(s, s.queue);
    assert Tracked(s, id) <= 1;
    TimesMember(s.queue, id);
    TimesMember(s.sent, id);
    assert Times(q, id) <= Times(s.queue, id);
    TimesMember(q, id);
    TimesTail(q, id);
    assert q[0] in q;
  }

  lemma ResponseKeepsHeld(s: State, e: Event, id: Id)
    requires Inv(s) && Enabled(s, e) && IsResponse(e) && id != 0 && Held(s, id) && Live(Step(s, e), id)
    requires CallsNotify(s, e) ==> !Forgets(Caller(s, e), e.ans, id)
    ensures Held(Step(s, e), id)
  {
    hide Step, DoNewLogNotify, LinkAfter, Responded, Failed, Forgets, Live, Held, Inv;
    ResponseCases(s, e);
    ResponseHolds(s, LinkAfter(s, e), id);
    if Undelivered(e) {
      assert Held(s.(link := LinkAfter(s, e)), id) by { SameTracked(s, s.(link := LinkAfter(s, e)), id); }
    } else if CallsNotify(s, e) {
      NotifyKeepsLive(Responded(s, LinkAfter(s, e)), e.ans, id);
      NotifyKeepsHeld(Responded(s, LinkAfter(s, e)), e.ans, id);
    }
  }

  lemma SameTracked(s: State, s': State, id: Id)
    requires s'.queue == s.queue && s'.sent == s.sent && s'.inProgress == s.inProgress
    ensures Held(s', id) == Held(s, id)
  {}

  lemma ResponseHolds(s: State, link: Link.State, id: Id)
    requires id != 0 && Held(s, id)
    ensures Held(Responded(s, link), id) && Held(Failed(s, link), id)
  {
    TimesConcat(s.sent, [s.inProgress], id);
    TimesCons(s.inProgress, s.queue, id);
  }

  lemma NotifyKeepsLive(s: State, ans: Answers, id: Id)
    ensures Live(DoNewLogNotify(s, ans), id) == Live(s, id)
  {
    hide DoNewLogNotify;
    NotifyFrame(s, ans);
  }

  lemma AckKeepsHeld(s: State, acked: Id, id: Id)
    requires id != 0 && Held(s, id) && Live(AckPEL(s, acked), id)
    ensures Held(AckPEL(s, acked), id)
  {
    TimesErase(s.sent, acked, id);
  }

  lemma BadKeepsHeld(s: State, bad: Id, id: Id)
    requires id != 0 && Held(s, id) && Live(SetBadPEL(s, bad), id)
    ensures Held(SetBadPEL(s, bad), id)
  {
    TimesErase(s.sent, bad, id);
  }

  lemma HostFullKeepsHeld(s: State, full: Id, id: Id)
    requires id != 0 && Held(s, id)
    ensures Held(SetHostFull(s, full), id)
  {
    hide WithHostState, EraseFirst, Times;
    TimesErase(s.sent, full, id);
    TimesCons(full, s.queue, id);
    TimesMember(s.queue, full);
    TimesMember(s.sent, full);
  }

  lemma DeleteKeepsHeld(s: State, gone: Id, id: Id)
    requires id != gone && Held(s, id)
    ensures Held(Step(s, PelDeleted(gone)), id)
  {
    TimesErase(s.queue, gone, id);
    TimesErase(s.sent, gone, id);
  }

  lemma AddKeepsHeld(s: State, added: Id, pel: Pel, id: Id)
    requires Held(s, id)
    ensures Held(Step(s, PelAdded(added, pel)), id)
  {
    TimesConcat(s.queue, [added], id);
  }

  lemma HostChangeKeepsHeld(s: State, up: bool, ans: Answers, id: Id)
    requires id != 0 && Held(s, id)
    ensures Held(Step(s, HostChanged(up, ans)), id)
  {
    hide HostDown;
    if !up { HostDownTracked(s.(hostUp := false), ans.freeOk, id); }
  }

  lemma WakeupKeepsHeld(s: State, e: Event, id: Id)
    requires Inv(s) && Enabled(s, e) && IsWakeup(e) && id != 0 && Held(s, id) && Live(s, id)
    requires !Forgets(Woken(s, e), e.ans, id)
    ensures Held(Step(s, e), id)
  {
    hide Step, DoNewLogNotify, Forgets, Woken, Held, Live, Inv;
    WakeupKeepsInv(s, e);
    WokenHolds(s, e, id);
    NotifyKeepsHeld(Woken(s, e), e.ans, id);
  }

  lemma WokenHolds(s: State, e: Event, id: Id)
    requires IsWakeup(e)
    ensures Held(Woken(s, e), id) == Held(s, id) && Live(Woken(s, e), id) == Live(s, id)
  {}

  /** Any event but a BMC restart keeps hold of a PEL that is still live after it, unless
      it comes to a send that forgets that very PEL. */
  lemma EventKeepsHeld(s: State, e: Event, id: Id)
    requires Inv(s) && Enabled(s, e) && id != 0 && Held(s, id)
    requires Live(Step(s, e), id) && !e.BmcRestart?
    requires CallsNotify(s, e) ==> !Forgets(Caller(s, e), e.ans, id)
    ensures Held(Step(s, e), id)
  {
    hide DoNewLogNotify, EraseFirst, Inv, Forgets, Link.Step, WithHostState, HostDown;
    if IsWakeup(e) {
      WakeupPels(s, e);
      WakeupKeepsHeld(s, e, id);
    } else if e.PelAdded? {
      AddKeepsHeld(s, e.id, e.pel, id);
    } else if e.PelDeleted? {
      DeleteKeepsHeld(s, e.id, id);
    } else if e.HostChanged? {
      HostChangeKeepsHeld(s, e.up, e.ans, id);
    } else if IsResponse(e) {
      ResponseKeepsHeld(s, e, id);
    } else if e.Ack? {
      AckKeepsHeld(s, e.id, id);
    } else if e.Bad? {
      BadKeepsHeld(s, e.id, id);
    } else if e.HostIsFull? {
      HostFullKeepsHeld(s, e.id, id);
    } else {
      assert Tracked(Step(s, e), id) == Tracked(s, id);
    }
  }

  /** Handlers change the host state of tracked PELs only, but for a reply that
      names some other PEL and settles it. */
  lemma StateOfUnheld(s: State, e: Event, id: Id)
    requires Inv(s) && Enabled(s, e) && !Held(s, id) && id in Step(s, e).pels
    requires !(e.PelAdded? && e.id == id)
    ensures id in s.pels
    ensures var a, b := s.pels[id], Step(s, e).pels[id];
      && a.hidden == b.hidden
      && (a.hostState == b.hostState
          || (e.BmcRestart? && a.hostState == Sent && b.hostState == NewPEL)
          || ((e.Ack? || e.Bad?) && (b.hostState == Acked || b.hostState == BadPEL)))
  {
    hide Step, Inv;
    TimesMember(s.sent, id);
    StepPels(s, e);
  }

  // ------------------------------------------------------------------- histories

  /** A state together with what has happened since: the IDs ever used, those ever put
      on the queue, those the host settled, and how many
      sends have failed since the retries last started over. */
  datatype History = History(s: State, used: set<Id>, enqueued: set<Id>, settled: set<Id>, fails: nat)

  function EnqueuedBy(h: History, e: Event): set<Id> {
    match e
    case PelAdded(id, pel) =>
      if EnqueueRequired(h.s.(pels := h.s.pels[id := pel]), id) then h.enqueued + {id} else h.enqueued
    case BmcRestart(_) => h.enqueued + set id | id in Step(h.s, e).queue && id != 0
    case _ => h.enqueued
  }

  /** An ack or a rejection settles the PEL it names, if that is stored. */
  function SettledBy(h: History, e: Event): set<Id> {
    match e
    case Ack(id) => if id in h.s.pels then h.settled + {id} else h.settled
    case Bad(id) => if id in h.s.pels then h.settled + {id} else h.settled
    case _ => h.settled
  }

  /** The retries start over: after a success, a change of the host state, a restart, or
      when a new PEL resets their count. */
  predicate StartsOver(s: State, e: Event) {
    e.HostChanged? || e.BmcRestart? || (Succeeds(e) && !Undelivered(e))
    || (e.PelAdded? && Step(s, e).retryCount < s.retryCount)
  }

  /** A response that tells of failure, or the lack of one, counts; so does a send that is
      refused. */
  function FailsAfter(h: History, e: Event): nat {
    var before := if StartsOver(h.s, e) then 0 else h.fails;
    if IsResponse(e) && !Undelivered(e) && !Succeeds(e) then before + 1
    else if Sends(h.s, e) && EndOf(h.s, e) == Refused then before + 1
    else before
  }

  function Next(h: History, e: Event): History {
    History(Step(h.s, e),
            if e.PelAdded? then h.used + {e.id} else h.used,
            EnqueuedBy(h, e), SettledBy(h, e), FailsAfter(h, e))
  }

  /** Events as they happen, with IDs of new PELs never used before. */
  ghost predicate Possible(h: History, e: Event) {
    Enabled(h.s, e) && (e.PelAdded? ==> e.id !in h.used)
  }

  ghost predicate UsedCovers(h: History) {
    && h.s.pels.Keys <= h.used && h.enqueued <= h.used && h.settled <= h.used
    && (forall id: Id | id != 0 && Held(h.s, id) :: id in h.used)
    && 0 !in h.enqueued
  }

  /** What was ever put on the queue is to be reported to the host. */
  ghost predicate EnqueuedReported(h: History) {
    forall id | id in h.enqueued && id in h.s.pels :: !h.s.pels[id].dontReport
  }

  /** Every PEL put on the queue that the host still has to hear of is in exactly
      one of the queue, the sent list and in-progress. */
  ghost predicate NoLoss(h: History) {
    forall id | id in h.enqueued && Live(h.s, id) :: Tracked(h.s, id) == 1
  }

  /** With its enablement off, a new notifier takes up none of the PELs the host still has to
      hear of. */
  ghost predicate RestartsDisabled(h: History, e: Event) {
    e.BmcRestart? && !h.s.pelEnablement && exists id :: id in h.enqueued && Live(h.s, id)
  }

  /** The event comes to a send that forgets a PEL the host still has to hear of, or
      restarts the notifier while it may not take such a PEL up. */
  ghost predicate Loses(h: History, e: Event) {
    || (Overwrites(h.s, e) && h.s.inProgress in h.enqueued && Live(h.s, h.s.inProgress))
    || (ThrowsAway(h.s, e) && SentPEL(h.s, e) in h.enqueued && Live(h.s, SentPEL(h.s, e)))
    || RestartsDisabled(h, e)
  }

  lemma NoLossFromHeld(h: History)
    requires Inv(h.s) && 0 !in h.enqueued
    requires forall id | id in h.enqueued && Live(h.s, id) :: Held(h.s, id)
    ensures NoLoss(h)
  {
    hide Live, Control;
    forall id | id in h.enqueued && Live(h.s, id) ensures Tracked(h.s, id) == 1 {
      assert Tracked(h.s, id) <= 1;
    }
  }

  lemma AddedHeld(s: State, id: Id, pel: Pel)
    requires id != 0 && EnqueueRequired(s.(pels := s.pels[id := pel]), id)
    ensures Held(Step(s, PelAdded(id, pel)), id)
  {
    TimesConcat(s.queue, [id], id);
  }

  /** What the call inherits from the event. */
  lemma CallerGood(s: State, e: Event)
    requires Inv(s) && Enabled(s, e) && CallsNotify(s, e)
    ensures Inv(Caller(s, e)) && FreshID(Caller(s, e).link, e.ans)
    ensures Step(s, e) == DoNewLogNotify(Caller(s, e), e.ans)
    ensures Caller(s, e).queue == s.queue && (Caller(s, e).inProgress == s.inProgress || !IsWakeup(e))
    ensures IsWakeup(e) ==> Caller(s, e).pels == s.pels
    ensures !IsWakeup(e) ==> Caller(s, e).inProgress == 0 && Caller(s, e).pels == WithHostState(s.pels, s.inProgress, Sent)
  {
    hide Step, DoNewLogNotify, Link.Step, Inv, WithHostState;
    if IsWakeup(e) {
      WokenKeepsInv(s, e);
    } else {
      ResponseCases(s, e);
      RespondedKeepsInv(s, LinkAfter(s, e));
    }
  }

  /** The PEL of a send comes from the queue. */
  lemma SentFromQueue(s: State, e: Event)
    requires Inv(s) && Enabled(s, e) && Sends(s, e)
    ensures SentPEL(s, e) in s.queue && Held(s, SentPEL(s, e)) && SentPEL(s, e) != 0
    ensures SentPEL(s, e) != s.inProgress
  {
    hide Step, DoNewLogNotify, Link.Step, Link.Inv, NotifyRequired;
    CallerGood(s, e);
    var c := Caller(s, e);
    SkippedUnneeded(c, c.queue);
    var id := SentPEL(s, e);
    assert id in ToSend(c, c.queue);
    TimesMember(s.queue, id);
    RequiredIsStored(c, id);
    assert id != 0;
    assert Tracked(s, id) <= 1;
  }

  /** Sends over an open command come from three wakeups: the host-full timer, the timer after
      the host came up, and a dispatch. The retry timer never runs beside a PEL in
      progress, and a response has taken its PEL out of it. */
  lemma Overwriters(s: State, e: Event)
    requires Inv(s) && Enabled(s, e) && Overwrites(s, e)
    ensures e.HostFullExpired? || e.HostUpExpired? || e.Dispatch?
  {
    hide Step, DoNewLogNotify, LinkAfter, WouldSend, WithHostState, Unique, Link.Inv;
  }

  lemma RequiredIsStored(s: State, id: Id)
    requires Inv(s) && NotifyRequired(s, id)
    ensures id in s.pels && id != 0
  {}

  lemma LosesOne(h: History, e: Event)
    requires Inv(h.s) && 0 !in h.enqueued && Enabled(h.s, e) && Loses(h, e) && !e.BmcRestart?
    ensures !NoLoss(Next(h, e))
  {
    hide Step, DoNewLogNotify, Link.Step, Link.Inv, SendEndOf, Caller, Inv, FailsAfter, WouldSend, Succeeds, Undelivered;
    CallerGood(h.s, e);
    NotifyFrame(Caller(h.s, e), e.ans);
    SentFromQueue(h.s, e);
    var id := if Overwrites(h.s, e) then h.s.inProgress else SentPEL(h.s, e);
    LostIsForgotten(h, e, id);
    SendForgets(Caller(h.s, e), e.ans, id);
    assert id in Next(h, e).enqueued && Live(Next(h, e).s, id);
  }

  lemma LostIsForgotten(h: History, e: Event, id: Id)
    requires Inv(h.s) && 0 !in h.enqueued && Enabled(h.s, e) && Loses(h, e) && !e.BmcRestart?
    requires id == if Overwrites(h.s, e) then h.s.inProgress else SentPEL(h.s, e)
    ensures id != 0 && id in h.enqueued && Live(h.s, id) && Live(Caller(h.s, e), id)
    ensures Forgets(Caller(h.s, e), e.ans, id)
  {
    hide Step, DoNewLogNotify, Link.Step, Link.Inv, LinkAfter, NotifyRequired;
    CallerGood(h.s, e);
    SentFromQueue(h.s, e);
  }

  /** A new notifier takes up a PEL the host still has to hear of exactly if its enablement
      is on. */
  lemma RestartHoldsIff(s: State, order: seq<Id>, id: Id)
    requires Inv(s) && WalkOf(order, s.pels) && Live(s, id) && !s.pels[id].dontReport
    ensures Held(Step(s, BmcRestart(order)), id) <==> s.pelEnablement
    ensures Live(Step(s, BmcRestart(order)), id)
  {
    hide Control, Unique;
    var s0 := Unstarted(RestoredPels(s.pels), s.hostUp, s.hmcManaged, s.pelEnablement);
    EnqueuedContents(s0, order);
    TimesMember(Enqueued(s0, order), id);
  }

  lemma LiveBeforeRestart(s: State, order: seq<Id>, id: Id)
    requires Live(Step(s, BmcRestart(order)), id)
    ensures Live(s, id)
  {}

  /** A restart loses something exactly if there is something to lose and the enablement is
      off. */
  lemma RestartLosesIff(h: History, e: Event)
    requires Inv(h.s) && UsedCovers(h) && EnqueuedReported(h) && Enabled(h.s, e) && e.BmcRestart?
    ensures NoLoss(Next(h, e)) <==> !RestartsDisabled(h, e)
  {
    hide Step, FailsAfter, Live, Held, Inv;
    StepKeepsInv(h.s, e);
    var h' := Next(h, e);
    if RestartsDisabled(h, e) {
      var id :| id in h.enqueued && Live(h.s, id);
      LiveIsStored(h.s, id);
      RestartHoldsIff(h.s, e.order, id);
      NotHeldIsLost(h', id);
    } else {
      forall id | id in h'.enqueued && Live(h'.s, id) ensures Held(h'.s, id) {
        if id in h.enqueued {
          LiveBeforeRestart(h.s, e.order, id);
          LiveIsStored(h.s, id);
          RestartHoldsIff(h.s, e.order, id);
        } else {
          QueuedIsHeld(h'.s, id);
        }
      }
      NoLossFromHeld(h');
    }
  }

  lemma LiveIsStored(s: State, id: Id)
    requires Live(s, id)
    ensures id in s.pels
  {}

  lemma NotHeldIsLost(h: History, id: Id)
    requires id in h.enqueued && Live(h.s, id) && !Held(h.s, id)
    ensures !NoLoss(h)
  {}

  lemma QueuedIsHeld(s: State, id: Id)
    requires id in s.queue
    ensures Held(s, id)
  {
    TimesMember(s.queue, id);
  }

  /** One event loses no PEL, except when it comes to a send that is answered while a live
      PEL is in progress, or to one for a live PEL that throws: then it loses that PEL; or
      when the notifier starts again while its enablement is off: then it loses them
      all. */
  lemma LossIffForgotten(h: History, e: Event)
    requires Inv(h.s) && UsedCovers(h) && EnqueuedReported(h) && NoLoss(h) && Possible(h, e)
    ensures NoLoss(Next(h, e)) <==> !Loses(h, e)
  {
    hide Step, Inv, Loses, NoLoss, Live, Held, FailsAfter;
    if e.BmcRestart? {
      RestartLosesIff(h, e);
      RestartSendsNothing(h, e);
    } else if Loses(h, e) {
      LosesOne(h, e);
    } else {
      StepKeepsInv(h.s, e);
      forall id | id in Next(h, e).enqueued && Live(Next(h, e).s, id) ensures Held(Next(h, e).s, id) {
        HeldAfter(h, e, id);
      }
      NoLossFromHeld(Next(h, e));
    }
  }

  lemma RestartSendsNothing(h: History, e: Event)
    requires e.BmcRestart?
    ensures Loses(h, e) <==> RestartsDisabled(h, e)
  {}

  lemma HeldBefore(h: History, e: Event, id: Id)
    requires Inv(h.s) && NoLoss(h) && Enabled(h.s, e) && !e.BmcRestart?
    requires id in h.enqueued && Live(Step(h.s, e), id) && !(e.PelAdded? && e.id == id)
    ensures Held(h.s, id)
  {
    hide Step, Inv;
    if !Held(h.s, id) {
      StateOfUnheld(h.s, e, id);
    }
  }

  /** A call leaves what is live as it was. */
  lemma LiveBefore(s: State, e: Event, id: Id)
    requires Inv(s) && Enabled(s, e) && CallsNotify(s, e) && Live(Step(s, e), id)
    ensures id in s.pels && !s.pels[id].hidden && (id != s.inProgress ==> Live(s, id)) && Live(Caller(s, e), id)
    ensures IsWakeup(e) ==> Live(s, id)
    ensures Sends(s, e) ==> SentPEL(s, e) != s.inProgress
  {
    hide Step, DoNewLogNotify, Link.Step, Inv, Caller;
    CallerGood(s, e);
    NotifyFrame(Caller(s, e), e.ans);
    if Sends(s, e) {
      SentFromQueue(s, e);
    }
  }

  lemma HeldAfter(h: History, e: Event, id: Id)
    requires Inv(h.s) && UsedCovers(h) && NoLoss(h) && Possible(h, e) && !e.BmcRestart? && !Loses(h, e)
    requires id in Next(h, e).enqueued && Live(Step(h.s, e), id)
    ensures Held(Step(h.s, e), id)
  {
    hide Step, Inv, FailsAfter, SendEndOf, Caller, WouldSend;
    if e.PelAdded? && e.id == id {
      AddedHeld(h.s, id, e.pel);
    } else {
      HeldBefore(h, e, id);
      if CallsNotify(h.s, e) {
        LiveBefore(h.s, e, id);
        NotForgotten(h, e, id);
      }
      EventKeepsHeld(h.s, e, id);
    }
  }

  lemma NotForgotten(h: History, e: Event, id: Id)
    requires Inv(h.s) && Enabled(h.s, e) && CallsNotify(h.s, e) && !Loses(h, e) && id in h.enqueued && id != 0
    requires id != h.s.inProgress ==> Live(h.s, id)
    requires IsWakeup(e) ==> Live(h.s, id)
    ensures !Forgets(Caller(h.s, e), e.ans, id)
  {
    hide Step, DoNewLogNotify, Link.Step, Link.Inv, LinkAfter, NotifyRequired, Live;
    CallerGood(h.s, e);
    if Sends(h.s, e) {
      SentFromQueue(h.s, e);
    }
  }

}
