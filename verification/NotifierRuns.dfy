/** Runs of the notification protocol: settled PELs stay settled, retries are bounded, and
    nothing is lost or stalls but by the events that say so. */
module NotifierRuns {
  import opened RepositoryState
  import opened NotifierState
  import opened NotifierProofs
  import opened NotifierLoss
  import opened NotifierStalls
  import opened Sequences
  import Link = PldmState

  // --------------------------------------------------------------- settled PELs

  /** Nowhere to be sent from, and stored as acked or bad if stored at all. */
  predicate IsSettled(s: State, id: Id) {
    !Held(s, id) && (id in s.pels ==> s.pels[id].hostState == Acked || s.pels[id].hostState == BadPEL)
  }

  /** Every settled PEL is still settled. */
  ghost predicate SettledStay(h: History) {
    forall id | id in h.settled :: id != 0 && IsSettled(h.s, id)
  }

  /** An ack or a rejection of a stored PEL that waits to be sent, or is in progress. */
  predicate RepliesEarly(h: History, e: Event) {
    (e.Ack? || e.Bad?) && e.id in h.s.pels && (e.id in h.s.queue || e.id == h.s.inProgress)
  }

  lemma RestartForgets(s: State, order: seq<Id>, id: Id)
    requires id in s.pels ==> s.pels[id].hostState == Acked || s.pels[id].hostState == BadPEL
    requires id != 0 && WalkOf(order, s.pels)
    ensures !Held(Step(s, BmcRestart(order)), id)
  {
    var s0 := Unstarted(RestoredPels(s.pels), s.hostUp, s.hmcManaged, s.pelEnablement);
    EnqueuedContents(s0, order);
    TimesMember(Enqueued(s0, order), id);
  }

  /** A settled PEL stays settled. */
  lemma EventKeepsSettled(s: State, e: Event, id: Id)
    requires Inv(s) && Enabled(s, e) && id != 0 && IsSettled(s, id)
    requires !(e.PelAdded? && e.id == id)
    ensures IsSettled(Step(s, e), id)
  {
    hide Step, Inv;
    if e.PelAdded? {
      AddedUnheld(s, e.id, e.pel, id);
    } else if e.BmcRestart? {
      RestartForgets(s, e.order, id);
    } else {
      StepKeepsInv(s, e);
      assert Tracked(Step(s, e), id) <= Tracked(s, id);
    }
    if id in Step(s, e).pels {
      StateOfUnheld(s, e, id);
    }
  }

  lemma AddedUnheld(s: State, added: Id, pel: Pel, id: Id)
    requires id != added && !Held(s, id)
    ensures !Held(Step(s, PelAdded(added, pel)), id)
  {
    hide EnqueueRequired;
    TimesConcat(s.queue, [added], id);
  }

  /** An ack or a rejection takes a PEL out of circulation exactly when the PEL is
      neither waiting to be sent nor in progress. */
  lemma ReplySettlesIff(s: State, e: Event)
    requires Inv(s) && (e.Ack? || e.Bad?) && e.id != 0
    ensures IsSettled(Step(s, e), e.id) <==> e.id !in s.queue && e.id != s.inProgress
  {
    hide Control;
    assert Tracked(s, e.id) <= 1;
    TimesMember(s.queue, e.id);
    TimesMember(s.sent, e.id);
    TimesErase(s.sent, e.id, e.id);
  }

  /** One event unsettles a PEL exactly when it is a reply that comes too early. */
  lemma UnsettledIffEarly(h: History, e: Event)
    requires Inv(h.s) && UsedCovers(h) && SettledStay(h) && Possible(h, e)
    ensures SettledStay(Next(h, e)) <==> !RepliesEarly(h, e)
  {
    hide Step, FailsAfter, IsSettled;
    forall id | id in h.settled ensures IsSettled(Step(h.s, e), id) {
      EventKeepsSettled(h.s, e, id);
    }
    if (e.Ack? || e.Bad?) && e.id in h.s.pels {
      ReplySettlesIff(h.s, e);
      assert e.id in Next(h, e).settled;
    }
  }

  /** The host is never sent a PEL it has settled. */
  lemma SendsNothingSettled(h: History, e: Event)
    requires Inv(h.s) && SettledStay(h) && Possible(h, e) && Sends(h.s, e)
    ensures SentPEL(h.s, e) !in h.settled
  {
    SentFromQueue(h.s, e);
  }

  /** The host being full for a PEL brings it back to the queue exactly when it is in the
      sent list; elsewhere it stays where it is. */
  lemma FullRequeuesIffSent(s: State, id: Id)
    requires Inv(s) && id != 0
    ensures id in SetHostFull(s, id).queue <==> id in s.sent || id in s.queue
    ensures id !in SetHostFull(s, id).sent
  {
    hide Control, WithHostState;
    assert Tracked(s, id) <= 1;
    TimesMember(s.sent, id);
    TimesErase(s.sent, id, id);
    TimesMember(EraseFirst(s.sent, id), id);
  }

  /** Told that the host is full for the PEL in progress before the response to its
      command, the notifier files the PEL as sent all the same. It is sent again only
      after another reply of that kind, or when the host or the BMC restarts. */
  lemma FullBeforeResponseIsFiled(s: State, ans: Answers)
    requires Inv(s) && s.inProgress != 0 && s.link.source && ans.freeOk
    ensures var s' := Step(SetHostFull(s, s.inProgress), Response(Link.Succeeded, ans));
      && s.inProgress !in s'.queue && s'.sent == s.sent + [s.inProgress] && s'.queue == s.queue
      && (s.inProgress in s.pels ==> s.inProgress in s'.pels && s'.pels[s.inProgress].hostState == Sent)
  {
    hide Link.Inv;
    assert Tracked(s, s.inProgress) <= 1;
    TimesMember(s.sent, s.inProgress);
    TimesMember(s.queue, s.inProgress);
    Link.ReceiveOutcome(s.link, Link.Succeeded, ans.freeOk);
  }

  // --------------------------------------------------------------- bounded retries

  /** Failed sends are paid for by the retry count and a running retry timer. With the host
      down no more than one command can still fail. */
  predicate FailsPaid(h: History) {
    if h.s.hostUp then h.fails <= h.s.retryCount + if h.s.retryTimer then 1 else 0
    else h.fails + (if h.s.link.source then 1 else 0) <= 1
  }

  lemma NotifyFails(s: State, ans: Answers, fails: nat)
    requires Inv(s) && FreshID(s.link, ans)
    requires if s.hostUp then fails <= s.retryCount + (if s.retryTimer then 1 else 0)
             else fails + (if s.link.source then 1 else 0) <= 1
    ensures var s' := DoNewLogNotify(s, ans);
      var fails' := if WouldSend(s) && SendEndOf(s.link, ans) == Refused then fails + 1 else fails;
      if s'.hostUp then fails' <= s'.retryCount + (if s'.retryTimer then 1 else 0)
      else fails' + (if s'.link.source then 1 else 0) <= 1
  {
    hide Link.Inv, LinkAfterSend, LinkAfterCancel, SendEndOf, ToSend, Unique;
    NotifyFrame(s, ans);
  }

  lemma CallFailsPaid(h: History, e: Event)
    requires Inv(h.s) && Possible(h, e) && FailsPaid(h) && CallsNotify(h.s, e)
    ensures FailsPaid(Next(h, e))
  {
    hide Step, DoNewLogNotify, Inv, WouldSend, ToSend, SendEndOf, LinkAfter, WithHostState;
    CallerGood(h.s, e);
    CallerPaid(h, e);
    NotifyFails(Caller(h.s, e), e.ans, if IsResponse(e) then 0 else h.fails);
  }

  lemma CallerPaid(h: History, e: Event)
    requires Inv(h.s) && Possible(h, e) && FailsPaid(h) && CallsNotify(h.s, e)
    ensures var c := Caller(h.s, e);
      var fails := if IsResponse(e) then 0 else h.fails;
      if c.hostUp then fails <= c.retryCount + (if c.retryTimer then 1 else 0)
      else fails + (if c.link.source then 1 else 0) <= 1
  {
    hide Step, DoNewLogNotify, LinkAfter, WithHostState, Unique, Link.Inv;
    if IsResponse(e) { ResponseCases(h.s, e); }
  }

  lemma ResponseFailsPaid(h: History, e: Event)
    requires Inv(h.s) && Possible(h, e) && FailsPaid(h) && IsResponse(e) && !CallsNotify(h.s, e)
    ensures FailsPaid(Next(h, e))
  {
    hide Step, DoNewLogNotify, LinkAfter, WithHostState, Unique, Link.Inv;
    ResponseCases(h.s, e);
  }

  lemma HostChangeFailsPaid(h: History, e: Event)
    requires e.HostChanged?
    ensures FailsPaid(Next(h, e))
  {
    hide WithHostState, Cancels, LinkAfterCancel, Renewed, PutBack;
  }

  lemma FailsStayPaid(h: History, e: Event)
    requires Inv(h.s) && Possible(h, e) && FailsPaid(h)
    ensures FailsPaid(Next(h, e))
  {
    hide DoNewLogNotify, Inv, EnqueueRequired, WithHostState, HostDown, Link.Step, EraseFirst;
    if CallsNotify(h.s, e) {
      CallFailsPaid(h, e);
    } else if IsResponse(e) {
      ResponseFailsPaid(h, e);
    } else if e.HostChanged? {
      HostChangeFailsPaid(h, e);
    }
  }

  lemma PaidFailsBounded(h: History)
    requires Inv(h.s) && FailsPaid(h)
    ensures h.fails <= MAX_RETRY_ATTEMPTS
  {}

  // ------------------------------------------------------------------------- runs

  lemma PelsCovered(s: State, e: Event)
    requires Inv(s) && Enabled(s, e)
    ensures forall id | id in Step(s, e).pels :: id in s.pels || (e.PelAdded? && id == e.id)
  {
    hide Step, Inv;
    StepPels(s, e);
  }

  lemma HeldCovered(s: State, e: Event, id: Id)
    requires Inv(s) && Enabled(s, e) && id != 0 && Held(Step(s, e), id)
    ensures Held(s, id) || (e.PelAdded? && id == e.id) || (e.BmcRestart? && id in s.pels)
  {
    hide Inv, DoNewLogNotify, Link.Step, HostDown, EnqueueRequired;
    if e.PelAdded? {
      TimesConcat(s.queue, [e.id], id);
    } else if e.BmcRestart? {
      var s0 := Unstarted(RestoredPels(s.pels), s.hostUp, s.hmcManaged, s.pelEnablement);
      EnqueuedContents(s0, e.order);
      TimesMember(Enqueued(s0, e.order), id);
    } else {
      StepKeepsInv(s, e);
      assert Tracked(Step(s, e), id) <= Tracked(s, id);
    }
  }

  lemma UsedStaysCovered(h: History, e: Event)
    requires Inv(h.s) && UsedCovers(h) && Possible(h, e)
    ensures UsedCovers(Next(h, e))
  {
    hide Step, Inv, FailsAfter, EnqueueRequired, Held;
    var h' := Next(h, e);
    PelsCovered(h.s, e);
    forall id: Id | id != 0 && Held(h'.s, id) ensures id in h'.used {
      HeldCovered(h.s, e, id);
    }
    forall id | id in h'.enqueued ensures id != 0 && id in h'.used {
      if id !in h.enqueued && e.BmcRestart? { QueuedIsHeld(h'.s, id); }
    }
  }

  lemma ReportedStays(h: History, e: Event)
    requires Inv(h.s) && UsedCovers(h) && EnqueuedReported(h) && Possible(h, e)
    ensures EnqueuedReported(Next(h, e))
  {
    hide Step, Inv, FailsAfter;
    StepPels(h.s, e);
    if e.BmcRestart? {
      RestartQueuesReported(h.s, e.order);
    }
  }

  lemma RestartQueuesReported(s: State, order: seq<Id>)
    ensures var s' := Step(s, BmcRestart(order)); forall id | id in s'.queue :: id in s'.pels && !s'.pels[id].dontReport
  {
    EnqueuedContents(Unstarted(RestoredPels(s.pels), s.hostUp, s.hmcManaged, s.pelEnablement), order);
  }

  /** What every reachable history satisfies. */
  ghost predicate Sound(h: History) {
    Inv(h.s) && UsedCovers(h) && EnqueuedReported(h) && FailsPaid(h)
  }

  lemma NextSound(h: History, e: Event)
    requires Sound(h) && Possible(h, e)
    ensures Sound(Next(h, e))
  {
    hide Step, Inv, FailsAfter, Enabled, UsedCovers, FailsPaid, EnqueuedReported;
    StepKeepsInv(h.s, e);
    ReportedStays(h, e);
    UsedStaysCovered(h, e);
    FailsStayPaid(h, e);
  }

  function Run(h: History, es: seq<Event>): History
    decreases |es|
  {
    if es == [] then h else Next(Run(h, es[..|es| - 1]), es[|es| - 1])
  }

  /** Every event was possible when it came. */
  ghost predicate AllPossible(h: History, es: seq<Event>)
    decreases |es|
  {
    es == [] || (AllPossible(h, es[..|es| - 1]) && Possible(Run(h, es[..|es| - 1]), es[|es| - 1]))
  }

  /** At every moment of the run. */
  ghost predicate Throughout(h: History, es: seq<Event>, p: History -> bool)
    decreases |es|
  {
    p(Run(h, es)) && (es == [] || Throughout(h, es[..|es| - 1], p))
  }

  /** At no event of the run. */
  ghost predicate Never(h: History, es: seq<Event>, q: (History, Event) -> bool)
    decreases |es|
  {
    es == [] || (Never(h, es[..|es| - 1], q) && !q(Run(h, es[..|es| - 1]), es[|es| - 1]))
  }

  /** A notifier just constructed over a repository nobody has been told of. */
  function Begin(pels: map<Id, Pel>, order: seq<Id>, up: bool, managed: bool, on: bool): History {
    var s := Start(pels, order, up, managed, on);
    History(s, pels.Keys, set id | id in s.queue, {}, 0)
  }

  predicate Sending(h: History) { NoStall(h.s) }

  predicate StallsAt(h: History, e: Event) { Stalls(h.s, e) }

  predicate GivesUpAt(h: History, e: Event) { GivesUp(h.s, e) }

  lemma BeginGood(pels: map<Id, Pel>, order: seq<Id>, up: bool, managed: bool, on: bool)
    requires WalkOf(order, pels) && 0 !in pels
    ensures var h := Begin(pels, order, up, managed, on);
      Sound(h) && NoLoss(h) && SettledStay(h) && Orderly(h.s) && Sending(h)
  {
    hide Control, Unique;
    var h := Begin(pels, order, up, managed, on);
    StartKeepsInv(pels, order, up, managed, on);
    EnqueuedContents(Unstarted(pels, up, managed, on), order);
    forall id | id in h.enqueued ensures Held(h.s, id) {
      TimesMember(h.s.queue, id);
    }
    forall id: Id | id != 0 && Held(h.s, id) ensures id in h.used {
      TimesMember(h.s.queue, id);
    }
    NoLossFromHeld(h);
  }

  /** Over any run, whatever the host replies and whatever fails, no PEL is in two places,
      and at most 15 sends fail before the retries start over. */
  lemma {:induction false} RunSound(h: History, es: seq<Event>)
    requires Sound(h) && AllPossible(h, es)
    ensures Sound(Run(h, es)) && Run(h, es).fails <= MAX_RETRY_ATTEMPTS
    decreases |es|
  {
    hide Next, Possible, Inv, UsedCovers;
    if es != [] {
      var n := |es| - 1;
      RunSound(h, es[..n]);
      NextSound(Run(h, es[..n]), es[n]);
    }
    PaidFailsBounded(Run(h, es));
  }

  /** If an event breaks p exactly when q, then p holds throughout a run exactly when q is
      never met in it. */
  lemma {:induction false} RunIff(h: History, es: seq<Event>, p: History -> bool, q: (History, Event) -> bool)
    requires Sound(h) && p(h) && AllPossible(h, es)
    requires forall g: History, e: Event | Sound(g) && p(g) && Possible(g, e) :: p(Next(g, e)) <==> !q(g, e)
    ensures Throughout(h, es, p) <==> Never(h, es, q)
    decreases |es|
  {
    hide Next, Possible, Sound;
    if es != [] {
      var n := |es| - 1;
      RunIff(h, es[..n], p, q);
      RunSound(h, es[..n]);
    }
  }

  /** Over any run: no PEL the host still has to hear of is missing from all three places at
      any moment, exactly when no event comes to a send that forgets one, and none restarts
      the notifier while its enablement is off and there is one. */
  lemma RunLosesNothing(h: History, es: seq<Event>)
    requires Sound(h) && NoLoss(h) && AllPossible(h, es)
    ensures Throughout(h, es, NoLoss) <==> Never(h, es, Loses)
  {
    hide Next, Possible, NoLoss, Loses;
    forall g: History, e: Event | Sound(g) && NoLoss(g) && Possible(g, e) ensures NoLoss(Next(g, e)) <==> !Loses(g, e) {
      LossIffForgotten(g, e);
    }
    RunIff(h, es, NoLoss, Loses);
  }

  /** Over any run: the PELs the host acked or rejected stay settled at every moment, exactly
      when no reply comes while its PEL waits to be sent or is in progress. */
  lemma RunKeepsSettled(h: History, es: seq<Event>)
    requires Sound(h) && SettledStay(h) && AllPossible(h, es)
    ensures Throughout(h, es, SettledStay) <==> Never(h, es, RepliesEarly)
  {
    hide Next, Possible, SettledStay, RepliesEarly;
    forall g: History, e: Event | Sound(g) && SettledStay(g) && Possible(g, e)
      ensures SettledStay(Next(g, e)) <==> !RepliesEarly(g, e)
    {
      UnsettledIffEarly(g, e);
    }
    RunIff(h, es, SettledStay, RepliesEarly);
  }

  /** Over any run: sending is alive at every moment, exactly when none of the five stalling
      events happens. */
  lemma RunKeepsSending(h: History, es: seq<Event>)
    requires Sound(h) && Sending(h) && AllPossible(h, es)
    ensures Throughout(h, es, Sending) <==> Never(h, es, StallsAt)
  {
    hide Next, Possible, NoStall, Stalls;
    forall g: History, e: Event | Sound(g) && Sending(g) && Possible(g, e)
      ensures Sending(Next(g, e)) <==> !StallsAt(g, e)
    {
      NextStalls(g, e);
    }
    RunIff(h, es, Sending, StallsAt);
  }

  lemma NextStalls(h: History, e: Event)
    requires Sound(h) && Sending(h) && Possible(h, e)
    ensures Sending(Next(h, e)) <==> !StallsAt(h, e)
  {
    hide Step, NoStall, Stalls, FailsAfter, Inv;
    StallIffStalls(h.s, e);
  }

  /** Every event was possible, replies named sent PELs, and no exception left a handler. */
  ghost predicate Regular(h: History, es: seq<Event>)
    decreases |es|
  {
    es == [] ||
    var n := |es| - 1;
    var g := Run(h, es[..n]);
    Regular(h, es[..n]) && Possible(g, es[n]) && NamesSent(g.s, es[n]) && !Escapes(g.s, es[n])
  }

  /** Over any such run the acks and rejections all settle, and sending stalls only by giving
      up when the retries are used up. */
  lemma RegularRunStallsByGivingUp(h: History, es: seq<Event>)
    requires Sound(h) && Orderly(h.s) && Sending(h) && Regular(h, es)
    ensures AllPossible(h, es) && Never(h, es, RepliesEarly)
    ensures Throughout(h, es, Sending) <==> Never(h, es, GivesUpAt)
  {
    hide Regular, AllPossible, Throughout, Never, Sound;
    RegularRunStaysOrderly(h, es);
    RunKeepsSending(h, es);
  }

  lemma {:induction false} RegularRunStaysOrderly(h: History, es: seq<Event>)
    requires Sound(h) && Orderly(h.s) && Regular(h, es)
    ensures AllPossible(h, es) && Orderly(Run(h, es).s) && Never(h, es, RepliesEarly)
    ensures Never(h, es, StallsAt) <==> Never(h, es, GivesUpAt)
    decreases |es|
  {
    hide Step, Possible, Escapes, NoStall, FullTimerMeansFull, Attended, RepliesEarly, Inv, FailsAfter, Stalls, GivesUp;
    if es != [] {
      var n := |es| - 1;
      RegularRunStaysOrderly(h, es[..n]);
      RunSound(h, es[..n]);
      RegularStep(Run(h, es[..n]), es[n]);
    }
  }

  lemma RegularStep(h: History, e: Event)
    requires Sound(h) && Orderly(h.s) && Possible(h, e) && NamesSent(h.s, e) && !Escapes(h.s, e)
    ensures Orderly(Next(h, e).s) && !RepliesEarly(h, e) && (StallsAt(h, e) <==> GivesUpAt(h, e))
  {
    hide Step, Escapes, FailsAfter, Control, Orderly, Stalls, GivesUp;
    OrderlyStays(h.s, e);
    if (e.Ack? || e.Bad?) && e.id in h.s.pels {
      assert Tracked(h.s, e.id) <= 1;
      TimesMember(h.s.queue, e.id);
      TimesMember(h.s.sent, e.id);
    }
  }
}
