/** Sending does not stall: a nonempty queue has something on the way that sends from it. */
module NotifierStalls {
  import opened NotifierState
  import opened NotifierProofs
  import opened NotifierLoss
  import opened Sequences
  import Link = PldmState

  /** With the host up and not full, a nonempty queue has something on the way: a response,
      a timer or a dispatch that leads to the next attempt to send from it. */
  predicate NoStall(s: State) {
    s.hostUp && !s.hostFull && s.queue != [] ==>
      s.link.source || s.retryTimer || s.hostFullTimer || s.hostUpTimer || s.dispatchPending
  }

  /** Nothing but the host-full timer, or a response that was awaited, would send next. */
  predicate Unattended(s: State) {
    !s.retryTimer && !s.hostUpTimer && !s.dispatchPending
  }

  /** An ack that disables the host-full timer of a host that is not full, when
      nothing else would start the next send. */
  predicate StallingAck(s: State, e: Event) {
    e.Ack? && s.hostUp && !s.hostFull && s.hostFullTimer && s.queue != [] && !s.link.source && Unattended(s)
  }

  /** A send that throws with more PELs behind it, when nothing else would send them. */
  predicate StallingThrow(s: State, e: Event) {
    ThrowsAway(s, e) &&
    var c := Caller(s, e);
    !c.hostFull && |ToSend(c, c.queue)| > 1 && !c.link.source && !c.hostUpTimer && !c.dispatchPending
  }

  /** A response that does not get through, as its instance ID cannot be freed. */
  predicate StallingFree(s: State, e: Event) {
    Undelivered(e) && s.hostUp && !s.hostFull && s.queue != [] && !s.hostFullTimer && Unattended(s)
  }

  /** The first PEL on the queue, while a send whose end nobody awaits counts as in
      progress. */
  predicate StallingAdd(s: State, e: Event) {
    e.PelAdded? && s.queue == [] && EnqueueRequired(s.(pels := s.pels[e.id := e.pel]), e.id)
    && s.hostUp && !s.hostFull && !s.hostFullTimer && Unattended(s)
    && !s.link.source && (s.inProgress != 0 || s.link.inProgress)
  }

  /** An attempt to send when the retries are used up, and nothing else would make one. */
  predicate GivesUp(s: State, e: Event) {
    CallsNotify(s, e) && GivingUp(Caller(s, e))
  }

  predicate GivingUp(s: State) {
    MaySend(s) && s.retryCount >= MAX_RETRY_ATTEMPTS && !s.hostFull && s.queue != []
    && !s.hostUpTimer && !s.dispatchPending
  }

  predicate Stalls(s: State, e: Event) {
    StallingAck(s, e) || StallingThrow(s, e) || StallingFree(s, e) || StallingAdd(s, e) || GivesUp(s, e)
  }

  lemma SendStalls(s: State, q: seq<Id>, ans: Answers)
    requires Inv(s) && FreshID(s.link, ans) && WouldSend(s) && q == ToSend(s, s.queue)
    ensures NoStall(SendFirst(s, q, ans)) <==>
            !(SendEndOf(s.link, ans) == Threw && !s.hostFull && |q| > 1 && !s.link.source && !s.hostUpTimer
              && !s.dispatchPending)
  {
    hide Link.Inv, LinkAfterSend, SendEndOf, ToSend, Unique;
    SendEnds(s.link, ans);
  }

  lemma NotifyStalls(s: State, ans: Answers)
    requires Inv(s) && FreshID(s.link, ans)
    ensures NoStall(DoNewLogNotify(s, ans)) <==>
            !(WouldSend(s) && SendEndOf(s.link, ans) == Threw && !s.hostFull && |ToSend(s, s.queue)| > 1
              && !s.link.source && !s.hostUpTimer && !s.dispatchPending)
            && !GivingUp(s)
  {
    hide Link.Inv, LinkAfterSend, LinkAfterCancel, SendEndOf, ToSend, Unique, SendFirst;
    CancelEnds(s.link, ans.freeOk);
    if WouldSend(s) {
      SendStalls(s, ToSend(s, s.queue), ans);
    }
  }

  lemma CallStalls(s: State, e: Event)
    requires Inv(s) && Enabled(s, e) && CallsNotify(s, e)
    ensures NoStall(Step(s, e)) <==> !StallingThrow(s, e) && !GivesUp(s, e)
  {
    hide Inv, Enabled, Step, DoNewLogNotify, Caller, NoStall, ToSend, WouldSend, SendEndOf, GivingUp;
    CallerGood(s, e);
    NotifyStalls(Caller(s, e), e.ans);
  }

  lemma ResponseStalls(s: State, e: Event)
    requires Inv(s) && Enabled(s, e) && IsResponse(e) && !CallsNotify(s, e)
    ensures NoStall(Step(s, e)) <==> !StallingFree(s, e)
  {
    hide Step, DoNewLogNotify, LinkAfter, Link.Step, Unique, Link.Inv;
    ResponseCases(s, e);
  }

  lemma AddStalls(s: State, e: Event)
    requires Inv(s) && Enabled(s, e) && e.PelAdded? && NoStall(s)
    ensures NoStall(Step(s, e)) <==> !StallingAdd(s, e)
  {
    hide EnqueueRequired, Inv;
  }

  lemma DeleteStalls(s: State, id: Id)
    requires NoStall(s)
    ensures NoStall(Step(s, PelDeleted(id)))
  {
    hide EraseFirst;
    ErasedContents(s.queue, id);
    if s.queue == [] { assert EraseFirst(s.queue, id) == []; }
  }

  /** Each of the five belongs to events of one kind. */
  lemma StallsByKind(s: State, e: Event)
    ensures StallingThrow(s, e) || GivesUp(s, e) ==> CallsNotify(s, e)
    ensures StallingFree(s, e) ==> IsResponse(e) && !CallsNotify(s, e)
    ensures (StallingAck(s, e) ==> e.Ack?) && (StallingAdd(s, e) ==> e.PelAdded?)
    ensures (IsWakeup(e) ==> CallsNotify(s, e)) && (CallsNotify(s, e) ==> IsWakeup(e) || IsResponse(e))
  {
    hide Caller, WouldSend, GivingUp;
  }

  /** Every event keeps sending alive, except these five. */
  lemma StallIffStalls(s: State, e: Event)
    requires Inv(s) && Enabled(s, e) && NoStall(s)
    ensures NoStall(Step(s, e)) <==> !Stalls(s, e)
  {
    hide Step, Inv, Enabled, NoStall, StallingAck, StallingThrow, StallingFree, StallingAdd, GivesUp, CallsNotify;
    StallsByKind(s, e);
    if CallsNotify(s, e) {
      CallStalls(s, e);
    } else if IsResponse(e) {
      ResponseStalls(s, e);
    } else if e.PelAdded? {
      AddStalls(s, e);
    } else if e.PelDeleted? {
      DeleteStalls(s, e.id);
    } else if e.Ack? {
      AckStalls(s, e);
    } else {
      OtherStalls(s, e);
    }
  }

  lemma AckStalls(s: State, e: Event)
    requires e.Ack? && NoStall(s)
    ensures NoStall(Step(s, e)) <==> !StallingAck(s, e)
  {
    hide WithHostState, EraseFirst;
  }

  lemma OtherStalls(s: State, e: Event)
    requires Enabled(s, e) && NoStall(s)
    requires e.HostIsFull? || e.Bad? || e.HostChanged? || e.HmcState? || e.HmcManaged? || e.PelEnablement? || e.BmcRestart?
    ensures NoStall(Step(s, e))
  {
    hide WithHostState, EraseFirst, Cancels, LinkAfterCancel, Renewed, PutBack, Enqueued;
  }

  /** A new PEL sets a stalled queue going again exactly when it stalled by giving up and
      nothing is marked as in progress; then the retries start over. */
  lemma NewLogRevivesIff(s: State, e: Event)
    requires Inv(s) && Enabled(s, e) && e.PelAdded? && EnqueueRequired(s.(pels := s.pels[e.id := e.pel]), e.id)
    requires !NoStall(s)
    ensures NoStall(Step(s, e)) <==> s.retryCount >= MAX_RETRY_ATTEMPTS && s.inProgress == 0 && !s.link.inProgress
    ensures NoStall(Step(s, e)) ==> Step(s, e).retryCount == 0 && Step(s, e).dispatchPending
  {
    hide EnqueueRequired, Inv;
    assert |s.queue + [e.id]| == |s.queue| + 1;
  }

  // ---------------------------------------------- what leaves giving up as the only stall

  /** The host answers only for PELs it was sent and has not answered for. */
  predicate NamesSent(s: State, e: Event) {
    (e.Ack? || e.HostIsFull? || e.Bad?) ==> e.id in s.sent
  }

  /** The host-full timer runs only for a host that is up and full, and what was sent or
      awaits its response was sent to a host that is still up. */
  predicate FullTimerMeansFull(s: State) {
    (s.hostFullTimer ==> s.hostFull && s.hostUp) && (s.sent != [] ==> s.hostUp) && (s.link.source ==> s.hostUp)
  }

  /** What is in progress awaits its response. */
  predicate Attended(s: State) {
    s.inProgress != 0 || s.link.inProgress ==> s.link.source
  }

  lemma NotifyFullTimer(s: State, ans: Answers)
    requires Inv(s) && FreshID(s.link, ans) && FullTimerMeansFull(s)
    ensures FullTimerMeansFull(DoNewLogNotify(s, ans))
  {
    hide Link.Inv, LinkAfterSend, LinkAfterCancel, SendEndOf, ToSend, Unique;
    NotifyFrame(s, ans);
    SendEnds(s.link, ans);
    CancelEnds(s.link, ans.freeOk);
  }

  lemma ResponseFullTimer(s: State, e: Event)
    requires Inv(s) && Enabled(s, e) && IsResponse(e) && FullTimerMeansFull(s)
    ensures FullTimerMeansFull(Step(s, e))
  {
    hide Step, DoNewLogNotify, LinkAfter, Unique, Link.Inv, WithHostState;
    ResponseCases(s, e);
    if CallsNotify(s, e) {
      CallerGood(s, e);
      NotifyFullTimer(Caller(s, e), e.ans);
    }
  }

  lemma HostDownFullTimer(s: State, e: Event)
    requires Inv(s) && e.HostChanged? && !e.up
    ensures FullTimerMeansFull(Step(s, e)) <==>
            !(StopThrows(s, e) && (s.hostFullTimer || s.sent != [] || s.link.source))
  {
    hide Cancels, LinkAfterCancel, Renewed, PutBack, Unique, Link.Inv;
    CancelEnds(s.link, e.ans.freeOk);
  }

  /** Replies that name sent PELs keep this, except when stopping the command throws. */
  lemma FullTimerKept(s: State, e: Event)
    requires Inv(s) && Enabled(s, e) && NamesSent(s, e) && FullTimerMeansFull(s)
    ensures FullTimerMeansFull(Step(s, e)) <==>
            !(StopThrows(s, e) && (s.hostFullTimer || s.sent != [] || s.link.source))
  {
    hide DoNewLogNotify, EraseFirst, Inv, EnqueueRequired, WithHostState, HostDown, Link.Step, FullTimerMeansFull;
    if IsWakeup(e) {
      WokenFullTimer(s, e);
    } else if IsResponse(e) {
      ResponseFullTimer(s, e);
    } else if e.HostChanged? && !e.up {
      HostDownFullTimer(s, e);
    } else if e.Ack? || e.Bad? || e.HostIsFull? || e.PelDeleted? {
      ReplyFullTimer(s, e);
    } else {
      OtherFullTimer(s, e);
    }
  }

  lemma OtherFullTimer(s: State, e: Event)
    requires Enabled(s, e) && FullTimerMeansFull(s)
    requires (e.HostChanged? && e.up) || e.PelAdded? || e.HmcState? || e.HmcManaged? || e.PelEnablement? || e.BmcRestart?
    ensures FullTimerMeansFull(Step(s, e))
  {
    hide EnqueueRequired, Enqueued;
  }

  lemma ReplyFullTimer(s: State, e: Event)
    requires FullTimerMeansFull(s) && NamesSent(s, e)
    requires e.Ack? || e.Bad? || e.HostIsFull? || e.PelDeleted?
    ensures FullTimerMeansFull(Step(s, e))
  {
    hide WithHostState, EraseFirst;
    ErasesNone(e.id);
    assert s.sent == [] ==> EraseFirst(s.sent, e.id) == [];
  }

  lemma ErasesNone(id: Id)
    ensures EraseFirst([], id) == []
  {}

  lemma WokenFullTimer(s: State, e: Event)
    requires Inv(s) && Enabled(s, e) && IsWakeup(e) && FullTimerMeansFull(s)
    ensures FullTimerMeansFull(Step(s, e))
  {
    hide DoNewLogNotify, Step, Inv;
    WokenKeepsInv(s, e);
    NotifyFullTimer(Woken(s, e), e.ans);
  }

  /** What is in progress no longer awaits its response: the response got no further than
      the instance ID, or the send that set the flag threw. */
  predicate Abandons(s: State, e: Event) {
    (Undelivered(e) && s.inProgress != 0) || (ThrowsAway(s, e) && e.ans.sizeOk)
  }

  lemma NotifyAttended(s: State, ans: Answers)
    requires Inv(s) && FreshID(s.link, ans) && Attended(s)
    ensures Attended(DoNewLogNotify(s, ans)) <==> !(WouldSend(s) && SendEndOf(s.link, ans) == Threw && ans.sizeOk)
  {
    hide Link.Inv, LinkAfterSend, LinkAfterCancel, SendEndOf, ToSend, Unique;
    SendEnds(s.link, ans);
    CancelEnds(s.link, ans.freeOk);
  }

  lemma CallAttended(s: State, e: Event)
    requires Inv(s) && Enabled(s, e) && CallsNotify(s, e) && Attended(s)
    ensures Attended(Step(s, e)) <==> !Abandons(s, e)
  {
    hide Inv, Enabled, Step, DoNewLogNotify, ToSend, WouldSend, SendEndOf, Caller, Attended;
    CallerGood(s, e);
    CallerAttended(s, e);
    NotifyAttended(Caller(s, e), e.ans);
  }

  lemma CallerAttended(s: State, e: Event)
    requires Inv(s) && Enabled(s, e) && CallsNotify(s, e) && Attended(s)
    ensures Attended(Caller(s, e))
  {
    hide Inv, Enabled, Step, DoNewLogNotify, LinkAfter, Link.Step, WithHostState;
    if IsResponse(e) { ResponseCases(s, e); }
  }

  lemma ResponseAttended(s: State, e: Event)
    requires Inv(s) && Enabled(s, e) && IsResponse(e) && !CallsNotify(s, e)
    ensures Attended(Step(s, e)) <==> !Abandons(s, e)
  {
    hide Step, DoNewLogNotify, LinkAfter, Link.Step, Unique, Link.Inv, WithHostState;
    ResponseCases(s, e);
  }

  lemma HostDownAttended(s: State, freeOk: bool)
    requires Link.Inv(s.link) && Attended(s)
    ensures Attended(HostDown(s, freeOk))
  {
    hide Cancels, LinkAfterCancel, Renewed, PutBack, Unique, Link.Inv;
    CancelEnds(s.link, freeOk);
  }

  lemma AttendedIff(s: State, e: Event)
    requires Inv(s) && Enabled(s, e) && Attended(s)
    ensures Attended(Step(s, e)) <==> !Abandons(s, e)
  {
    hide Step, Inv, Enabled, Attended, Abandons, CallsNotify;
    StallsByKind(s, e);
    if CallsNotify(s, e) {
      CallAttended(s, e);
    } else if IsResponse(e) {
      ResponseAttended(s, e);
    } else {
      OtherAttended(s, e);
    }
  }

  lemma OtherAttended(s: State, e: Event)
    requires Inv(s) && Attended(s) && !IsWakeup(e) && !IsResponse(e)
    ensures Attended(Step(s, e)) && !Abandons(s, e)
  {
    hide Step, Unique, Link.Inv, HostDown, Attended;
    if e.HostChanged? {
      HostChangeAttended(s, e);
    } else if e.BmcRestart? {
      RestartAttended(s, e);
    } else if e.Ack? || e.Bad? || e.HostIsFull? || e.PelDeleted? || e.PelAdded? {
      QueuingAttended(s, e);
    } else {
      SettingAttended(s, e);
    }
  }

  lemma HostChangeAttended(s: State, e: Event)
    requires Inv(s) && Attended(s) && e.HostChanged?
    ensures Attended(Step(s, e))
  {
    hide HostDown, Unique, Link.Inv;
    if !e.up { HostDownAttended(s.(hostUp := false), e.ans.freeOk); }
  }

  lemma RestartAttended(s: State, e: Event)
    requires e.BmcRestart?
    ensures Attended(Step(s, e))
  {
    hide Enqueued, RestoredPels;
  }

  lemma QueuingAttended(s: State, e: Event)
    requires Attended(s) && (e.Ack? || e.Bad? || e.HostIsFull? || e.PelDeleted? || e.PelAdded?)
    ensures Attended(Step(s, e))
  {
    hide EraseFirst, WithHostState, EnqueueRequired;
  }

  lemma SettingAttended(s: State, e: Event)
    requires Attended(s) && (e.HmcState? || e.HmcManaged? || e.PelEnablement?)
    ensures Attended(Step(s, e))
  {}

  /** The event leaves a handler by an exception: from a send, from freeing an instance ID
      on a response, or from stopping the command when the host goes down. */
  predicate Escapes(s: State, e: Event) {
    ThrowsAway(s, e) || Undelivered(e) || StopThrows(s, e)
  }

  /** Replies that name sent PELs, and no exception: what such events keep. */
  predicate Orderly(s: State) {
    FullTimerMeansFull(s) && Attended(s)
  }

  lemma OrderlyStays(s: State, e: Event)
    requires Inv(s) && Enabled(s, e) && Orderly(s) && NamesSent(s, e) && !Escapes(s, e)
    ensures Orderly(Step(s, e)) && (Stalls(s, e) <==> GivesUp(s, e))
  {
    hide Inv, Enabled, Step, StopThrows, ThrowsAway, EnqueueRequired, Undelivered, GivesUp;
    FullTimerKept(s, e);
    AttendedIff(s, e);
  }
}
