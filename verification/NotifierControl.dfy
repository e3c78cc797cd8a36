/** What each event does to counts, flags and timers, field by field. */
module NotifierControl {
  import opened RepositoryState
  import opened NotifierState
  import opened NotifierProofs
  import opened NotifierLoss
  import opened NotifierOrder
  import opened Sequences
  import Link = PldmState

  /** The host took the PEL in progress, and the notifier hears of it. */
  predicate HostTook(e: Event) { e.Response? && e.status == Link.Succeeded && e.ans.freeOk }

  /** It did not, or not in time, and the notifier hears of that. */
  predicate HostFailed(e: Event) { e.ResponseTimeout? || (e.Response? && e.status == Link.Failed && e.ans.freeOk) }

  /** No count, flag or timer of the notifier but for the retry timer. */
  predicate SameControl(s: State, s': State) {
    && s'.retryCount == s.retryCount && s'.hostUp == s.hostUp && s'.hostFull == s.hostFull
    && s'.hostFullTimer == s.hostFullTimer && s'.hostUpTimer == s.hostUpTimer && s'.dispatchPending == s.dispatchPending
    && s'.hmcManaged == s.hmcManaged && s'.pelEnablement == s.pelEnablement
  }

  lemma NotifyKeepsSettings(s: State, ans: Answers)
    ensures var s' := DoNewLogNotify(s, ans); s'.hmcManaged == s.hmcManaged && s'.pelEnablement == s.pelEnablement
  {
    hide LinkAfterCancel, SendEndOf, LinkAfterSend, ToSend;
  }

  /** A success files the PEL as sent and starts the retries over. Another PEL goes out at once
      only if the host is not full. */
  lemma AfterSuccess(s: State, e: Event)
    requires Inv(s) && Enabled(s, e) && HostTook(e)
    ensures var s' := Step(s, e);
      && s'.sent == s.sent + [s.inProgress] && SameControl(s.(retryCount := 0), s')
      && (s.inProgress in s.pels ==> s'.pels == s.pels[s.inProgress := s.pels[s.inProgress].(hostState := Sent)])
      && (s.hostFull || s.queue == [] ==> s'.queue == s.queue && s'.inProgress == 0 && s'.retryTimer == s.retryTimer)
  {
    hide Step, DoNewLogNotify, Inv, LinkAfter;
    ResponseCases(s, e);
    NotifyFrame(Responded(s, LinkAfter(s, e)), e.ans);
    NotifyKeepsSettings(Responded(s, LinkAfter(s, e)), e.ans);
  }

  /** With the host up and not full and no timer holding sending back, a success sends the
      first PEL still needed. */
  lemma SuccessServes(s: State, e: Event, d: nat)
    requires Inv(s) && Enabled(s, e) && HostTook(e)
    requires s.hostUp && !s.hostFull && !s.retryTimer && !s.hostFullTimer
    requires Unneeded(s, d) && d < |s.queue| && Needed(s, s.queue[d])
    requires e.ans.sizeOk && e.ans.alloc.Allocated? && e.ans.startOk
    ensures Step(s, e).inProgress == s.queue[d] && Step(s, e).queue == s.queue[d + 1..]
  {
    hide Step, DoNewLogNotify, Unique, Link.Inv, SendEndOf, LinkAfter, WithHostState, Needed;
    var c := Responded(s, LinkAfter(s, e));
    ResponseCases(s, e);
    CallerNeeds(s, e);
    AnswersStart(c.link, e.ans);
    var k, o := NotifyAdvances(c, e.ans);
    assert k == d by {
      assert forall i | 0 <= i < |s.queue| :: s.queue[i] in s.queue && Needed(c, s.queue[i]) == Needed(s, s.queue[i]);
    }
  }

  /** A failure puts the PEL in front of the queue and starts the retry timer. */
  lemma AfterFailure(s: State, e: Event)
    requires Inv(s) && Enabled(s, e) && HostFailed(e)
    ensures var s' := Step(s, e);
      && s'.queue == [s.inProgress] + s.queue && s'.inProgress == 0 && s'.retryTimer && s'.sent == s.sent
      && s'.pels == s.pels && SameControl(s, s')
  {
    hide Step, DoNewLogNotify, Inv, LinkAfter;
    ResponseCases(s, e);
  }

  /** A new PEL is dispatched, with the retries starting over, if it is to be reported to a
      host that is up and not full, outside the wait for it to be ready, when nothing is
      in progress or to be retried and the queue was empty or had been given up. */
  lemma AfterAdding(s: State, id: Id, pel: Pel)
    ensures var s' := Step(s, PelAdded(id, pel));
      var dispatched := Reportable(s, pel) && s.hostUp && !s.hostFull && !s.hostUpTimer
        && s.inProgress == 0 && !s.link.inProgress && !s.retryTimer && (s.queue == [] || s.retryCount >= 15);
      && s'.pels == s.pels[id := pel] && s'.retryTimer == s.retryTimer && s'.link == s.link
      && SameControl(if dispatched then s.(retryCount := 0, dispatchPending := true) else s, s')
  {
    var s0 := s.(pels := s.pels[id := pel]);
    assert EnqueueRequired(s0, id) == Reportable(s, pel);
    hide EnqueueRequired, Reportable;
  }

  /** An ack lifts the full state and its timer, and has the queue looked at if the host had
      been full; being full sets both. */
  lemma AfterReplies(s: State, id: Id)
    ensures var s' := Step(s, Ack(id));
      && SameControl(s.(hostFull := false, hostFullTimer := false,
                        dispatchPending := s.dispatchPending || (s.hostFull && s.queue != [])), s')
      && s'.queue == s.queue && s'.inProgress == s.inProgress && s'.retryTimer == s.retryTimer
    ensures var s' := Step(s, HostIsFull(id));
      && SameControl(s.(hostFull := true, hostFullTimer := true), s')
      && s'.inProgress == s.inProgress && s'.retryTimer == s.retryTimer
    ensures var s' := Step(s, Bad(id));
      SameControl(s, s') && s'.queue == s.queue && s'.inProgress == s.inProgress && s'.retryTimer == s.retryTimer
  {
    hide WithHostState, EraseFirst;
  }

  /** The host coming up starts the retries over, and waits for it to be ready if there is
      something to send. */
  lemma AfterHostUp(s: State, ans: Answers)
    ensures var s' := Step(s, HostChanged(true, ans));
      && SameControl(s.(hostUp := true, retryCount := 0, hostFull := false, hostUpTimer := s.hostUpTimer || s.queue != []), s')
      && s'.queue == s.queue && s'.inProgress == s.inProgress && s'.sent == s.sent && s'.retryTimer == s.retryTimer
  {
    hide HostDown;
  }

  /** The host going off stops everything, but for the two other timers and the list of sent
      PELs if the command cannot be cancelled. */
  lemma AfterHostDown(s: State, ans: Answers)
    requires Inv(s)
    ensures var s' := Step(s, HostChanged(false, ans));
      var stuck := s.link.instanceID.Some? && !ans.freeOk;
      && SameControl(s.(hostUp := false, retryCount := 0, hostFull := false, hostFullTimer := stuck && s.hostFullTimer,
                        hostUpTimer := stuck && s.hostUpTimer), s')
      && s'.inProgress == 0 && !s'.retryTimer && s'.sent == (if stuck then s.sent else [])
  {
    hide Renewed, PutBack, Cancels, LinkAfterCancel, Unique, Link.Inv;
    CancelEnds(s.link, ans.freeOk);
  }

  /** A timer or the dispatcher is used up by waking the notifier; only the retry timer
      counts, and only with the host up. */
  lemma AfterWakeup(s: State, e: Event)
    requires Inv(s) && Enabled(s, e) && (e.RetryExpired? || e.HostFullExpired? || e.HostUpExpired? || e.Dispatch?)
    ensures var s' := Step(s, e);
      && SameControl(s.(retryCount := if e.RetryExpired? && s.hostUp then s.retryCount + 1 else s.retryCount,
                        hostFullTimer := s.hostFullTimer && !e.HostFullExpired?,
                        hostUpTimer := s.hostUpTimer && !e.HostUpExpired?,
                        dispatchPending := s.dispatchPending && !e.Dispatch?), s')
      && s'.pels == s.pels && s'.sent == s.sent
  {
    hide Step, DoNewLogNotify, Inv;
    WakeupKeepsInv(s, e);
    NotifyFrame(Woken(s, e), e.ans);
    NotifyKeepsSettings(Woken(s, e), e.ans);
  }

  /** The fifteenth retry sends nothing more but cancels the command and gives its instance
      ID back. */
  lemma FifteenthRetryCancels(s: State, e: Event)
    requires Inv(s) && Enabled(s, e) && e.RetryExpired? && s.hostUp && s.retryCount == 14 && !s.hostFullTimer
    ensures var s' := Step(s, e);
      && s'.retryCount == 15 && !s'.retryTimer && s'.queue == s.queue && s'.inProgress == s.inProgress
      && (e.ans.freeOk ==> s'.link.instanceID.None? && s'.link.heldIDs == {} && !s'.link.source)
      && (!e.ans.freeOk && s.link.instanceID.Some? ==> s'.link == s.link)
  {
    hide SendFirst, ToSend, Unique;
  }

  /** A restart begins with nothing sent, in progress or counted, and waits for the host to be
      ready if it is up and there is something to send. */
  lemma RestartState(s: State, order: seq<Id>)
    ensures var s' := Step(s, BmcRestart(order));
      && s'.sent == [] && s'.inProgress == 0 && s'.link == Link.INITIAL && !s'.retryTimer
      && SameControl(s.(retryCount := 0, hostFull := false, hostFullTimer := false, dispatchPending := false,
                        hostUpTimer := s'.queue != [] && s.hostUp), s')
  {}
}
