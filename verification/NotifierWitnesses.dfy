/** Runs on which the notification protocol loses a PEL, stalls, gives up, or forgets an ack. */
module NotifierWitnesses {
  import opened Wrappers
  import opened RepositoryState
  import opened NotifierState
  import opened NotifierProofs
  import opened NotifierLoss
  import opened NotifierStalls
  import opened NotifierRuns
  import opened Sequences
  import Link = PldmState

  const FRESH := Pel(NewPEL, NewPEL, false, false)
  const SENT := Pel(Sent, NewPEL, false, false)

  /** The command interface with a command out, and what goes well with it. */
  const BUSY := Link.State(true, Some(7), true, true, {7})
  const FINE := Answers(true, Link.Allocated(7), true, true)
  const NONEFREE := Answers(true, Link.NoneFree, true, true)
  const DELIVERED := Response(Link.Succeeded, FINE)

  lemma LinkMoves()
    ensures Link.SendNewLogCmd(Link.INITIAL, Link.Allocated(7), true) == (BUSY, Link.Accepted)
    ensures Link.SendNewLogCmd(BUSY, Link.NoneFree, true) == (BUSY, Link.Accepted)
    ensures Link.Step(BUSY, Link.Receive(Link.Succeeded, true)) == (Link.INITIAL, Link.Callback(Link.Succeeded))
  {
    assert {7} - {7} == {};
    assert {} + {7} == {7};
  }

  /** One possible event leads from a history spelled out to the next. */
  ghost predicate Leads(h: History, e: Event, h': History) {
    Possible(h, e) && Next(h, e) == h'
  }

  predicate Regularly(h: History, e: Event) {
    NamesSent(h.s, e) && !Escapes(h.s, e)
  }

  lemma OneMore(h: History, es: seq<Event>, at: History, e: Event, h': History) returns (es': seq<Event>)
    requires Run(h, es) == at && AllPossible(h, es) && Leads(at, e, h')
    ensures Run(h, es') == h' && AllPossible(h, es')
    ensures Regular(h, es) && Regularly(at, e) ==> Regular(h, es')
  {
    hide Next, Possible, NamesSent, Escapes;
    es' := es + [e];
    assert es'[..|es'| - 1] == es;
  }

  // ------------------------------------------------------- a send over an open command

  /** Three PELs of which the host, up all the time, is told in turn. */
  function Telling(p1: Pel, p2: Pel, p3: Pel, queue: seq<Id>, sent: seq<Id>, inProgress: Id, full: bool, up: bool,
                   dispatch: bool): History {
    History(State(map[1 := p1, 2 := p2, 3 := p3], true, false, true, queue, sent, inProgress, 0, full, false, full, up,
                  dispatch, if inProgress != 0 then BUSY else Link.INITIAL),
            {1, 2, 3}, {1, 2, 3}, {}, 0)
  }

  lemma TellingBegins()
    ensures Begin(map[1 := FRESH, 2 := FRESH, 3 := FRESH], [1, 2, 3], true, false, true)
         == Telling(FRESH, FRESH, FRESH, [1, 2, 3], [], 0, false, true, false)
  {
    var pels := map[1 := FRESH, 2 := FRESH, 3 := FRESH];
    var s0 := Unstarted(pels, true, false, true);
    assert [1, 2, 3][1..] == [2, 3] && [2, 3][1..] == [3] && [3][1..] == [];
    assert Enqueued(s0, [3]) == [3];
    assert Enqueued(s0, [2, 3]) == [2, 3];
    assert Enqueued(s0, [1, 2, 3]) == [1, 2, 3];
    assert pels.Keys == {1, 2, 3};
    var h := Begin(pels, [1, 2, 3], true, false, true);
    assert h.enqueued == {1, 2, 3};
  }

  lemma TellFirst()
    ensures Leads(Telling(FRESH, FRESH, FRESH, [1, 2, 3], [], 0, false, true, false), HostUpExpired(FINE),
                  Telling(FRESH, FRESH, FRESH, [2, 3], [], 1, false, false, false))
    ensures Regularly(Telling(FRESH, FRESH, FRESH, [1, 2, 3], [], 0, false, true, false), HostUpExpired(FINE))
  {
    hide Link.SendNewLogCmd;
    LinkMoves();
    assert [1, 2, 3][1..] == [2, 3];
  }

  lemma TellSecond()
    ensures Leads(Telling(FRESH, FRESH, FRESH, [2, 3], [], 1, false, false, false), DELIVERED,
                  Telling(SENT, FRESH, FRESH, [3], [1], 2, false, false, false))
    ensures Regularly(Telling(FRESH, FRESH, FRESH, [2, 3], [], 1, false, false, false), DELIVERED)
  {
    hide Link.SendNewLogCmd, Link.Step;
    LinkMoves();
    assert [2, 3][1..] == [3];
    assert map[1 := FRESH, 2 := FRESH, 3 := FRESH][1 := SENT] == map[1 := SENT, 2 := FRESH, 3 := FRESH];
  }

  lemma TellThird()
    ensures Leads(Telling(SENT, FRESH, FRESH, [3], [1], 2, false, false, false), DELIVERED,
                  Telling(SENT, SENT, FRESH, [], [1, 2], 3, false, false, false))
    ensures Regularly(Telling(SENT, FRESH, FRESH, [3], [1], 2, false, false, false), DELIVERED)
  {
    hide Link.SendNewLogCmd, Link.Step;
    LinkMoves();
    assert [3][1..] == [] && [1] + [2] == [1, 2];
    assert map[1 := SENT, 2 := FRESH, 3 := FRESH][2 := SENT] == map[1 := SENT, 2 := SENT, 3 := FRESH];
  }

  lemma FullForFirst()
    ensures Leads(Telling(SENT, SENT, FRESH, [], [1, 2], 3, false, false, false), HostIsFull(1),
                  Telling(FRESH, SENT, FRESH, [1], [2], 3, true, false, false))
    ensures Regularly(Telling(SENT, SENT, FRESH, [], [1, 2], 3, false, false, false), HostIsFull(1))
  {
    assert EraseFirst([1, 2], 1) == [2] && [1] + [] == [1];
    assert map[1 := SENT, 2 := SENT, 3 := FRESH][1 := FRESH] == map[1 := FRESH, 2 := SENT, 3 := FRESH];
  }

  /** The second is acked: the host has room again, and a dispatch is scheduled. */
  function Acking(inProgress: Id, queue: seq<Id>, dispatch: bool): History {
    Telling(FRESH, SENT.(hostState := Acked), FRESH, queue, [], inProgress, false, false, dispatch).(settled := {2})
  }

  lemma AckSecond()
    ensures Leads(Telling(FRESH, SENT, FRESH, [1], [2], 3, true, false, false), Ack(2), Acking(3, [1], true))
    ensures Regularly(Telling(FRESH, SENT, FRESH, [1], [2], 3, true, false, false), Ack(2))
  {
    assert EraseFirst([2], 2) == [];
    assert map[1 := FRESH, 2 := SENT, 3 := FRESH][2 := SENT.(hostState := Acked)]
        == map[1 := FRESH, 2 := SENT.(hostState := Acked), 3 := FRESH];
  }

  lemma DispatchFirst()
    ensures Leads(Acking(3, [1], true), Dispatch(NONEFREE), Acking(1, [], false))
    ensures Regularly(Acking(3, [1], true), Dispatch(NONEFREE))
  {
    hide Link.SendNewLogCmd;
    LinkMoves();
    assert [1][1..] == [];
  }

  lemma TellAll() returns (es: seq<Event>)
    ensures var h := Telling(FRESH, FRESH, FRESH, [1, 2, 3], [], 0, false, true, false);
      Regular(h, es) && AllPossible(h, es)
      && Run(h, es) == Telling(SENT, SENT, FRESH, [], [1, 2], 3, false, false, false)
  {
    hide Leads, Regularly, Next, Possible, NamesSent, Escapes;
    var h0 := Telling(FRESH, FRESH, FRESH, [1, 2, 3], [], 0, false, true, false);
    var h1 := Telling(FRESH, FRESH, FRESH, [2, 3], [], 1, false, false, false);
    var h2 := Telling(SENT, FRESH, FRESH, [3], [1], 2, false, false, false);
    TellFirst();
    es := OneMore(h0, [], h0, HostUpExpired(FINE), h1);
    TellSecond();
    es := OneMore(h0, es, h1, DELIVERED, h2);
    TellThird();
    es := OneMore(h0, es, h2, DELIVERED, Telling(SENT, SENT, FRESH, [], [1, 2], 3, false, false, false));
  }

  lemma FullThenAck(h0: History, before: seq<Event>) returns (es: seq<Event>)
    requires Regular(h0, before) && AllPossible(h0, before)
    requires Run(h0, before) == Telling(SENT, SENT, FRESH, [], [1, 2], 3, false, false, false)
    ensures Regular(h0, es) && AllPossible(h0, es) && Run(h0, es) == Acking(1, [], false)
  {
    hide Leads, Regularly, Next, Possible, NamesSent, Escapes;
    FullForFirst();
    es := OneMore(h0, before, Run(h0, before), HostIsFull(1), Telling(FRESH, SENT, FRESH, [1], [2], 3, true, false, false));
    AckSecond();
    es := OneMore(h0, es, Telling(FRESH, SENT, FRESH, [1], [2], 3, true, false, false), Ack(2), Acking(3, [1], true));
    DispatchFirst();
    es := OneMore(h0, es, Acking(3, [1], true), Dispatch(NONEFREE), Acking(1, [], false));
  }

  /** A lost PEL although nothing fails: the host is full for the first, acks the second
      while the third is outstanding, and the dispatch that follows sends the first over
      it. */
  lemma OverwriteHappens() returns (es: seq<Event>)
    ensures var h := Begin(map[1 := FRESH, 2 := FRESH, 3 := FRESH], [1, 2, 3], true, false, true);
      Regular(h, es) && !NoLoss(Run(h, es))
  {
    TellingBegins();
    var h := Telling(FRESH, FRESH, FRESH, [1, 2, 3], [], 0, false, true, false);
    es := TellAll();
    es := FullThenAck(h, es);
    assert Live(Acking(1, [], false).s, 3) && Tracked(Acking(1, [], false).s, 3) == 0;
  }

  /** The host-full timer sends over an open command just as well: it does so where the host
      is full for the first and the third is outstanding. */
  lemma FullTimerOverwrites()
    ensures var h := Telling(FRESH, SENT, FRESH, [1], [2], 3, true, false, false);
      Possible(h, HostFullExpired(NONEFREE)) && NoLoss(h) && Loses(h, HostFullExpired(NONEFREE))
  {
    hide Link.SendNewLogCmd;
    LinkMoves();
    var h := Telling(FRESH, SENT, FRESH, [1], [2], 3, true, false, false);
    forall id | id in h.enqueued && Live(h.s, id) ensures Tracked(h.s, id) == 1 {
      assert id == 1 || id == 2 || id == 3;
    }
    var c := Woken(h.s, HostFullExpired(NONEFREE));
    assert NotifyRequired(c, 1) && ToSend(c, [1]) == [1];
  }

  // ------------------------------------------------------------------ a thrown send

  /** An instance ID cannot be allocated, and the reason is no shortage. */
  const NOIID := Answers(true, Link.AllocFailed, true, true)

  /** Two PELs, before and after the send of the first throws. */
  function Throwing(queue: seq<Id>, up: bool, link: Link.State): History {
    History(State(map[1 := FRESH, 2 := FRESH], true, false, true, queue, [], 0, 0, false, false, false, up, false, link),
            {1, 2}, {1, 2}, {}, 0)
  }

  lemma ThrowingBegins()
    ensures Begin(map[1 := FRESH, 2 := FRESH], [1, 2], true, false, true) == Throwing([1, 2], true, Link.INITIAL)
  {
    var pels := map[1 := FRESH, 2 := FRESH];
    var s0 := Unstarted(pels, true, false, true);
    assert [1, 2][1..] == [2] && [2][1..] == [];
    assert Enqueued(s0, [2]) == [2];
    assert Enqueued(s0, [1, 2]) == [1, 2];
    assert pels.Keys == {1, 2};
    assert Begin(pels, [1, 2], true, false, true).enqueued == {1, 2};
  }

  lemma Throws()
    ensures Leads(Throwing([1, 2], true, Link.INITIAL), HostUpExpired(NOIID),
                  Throwing([2], false, Link.INITIAL.(inProgress := true)))
  {
    assert [1, 2][1..] == [2];
  }

  /** One failure to allocate an instance ID loses the PEL that was to be sent, and leaves
      the one behind it with nothing that would send it. */
  lemma ThrowLosesAndStalls() returns (es: seq<Event>)
    ensures var h := Begin(map[1 := FRESH, 2 := FRESH], [1, 2], true, false, true);
      AllPossible(h, es) && !NoLoss(Run(h, es)) && !Sending(Run(h, es))
  {
    ThrowingBegins();
    Throws();
    var h := Throwing([1, 2], true, Link.INITIAL);
    var h' := Throwing([2], false, Link.INITIAL.(inProgress := true));
    es := OneMore(h, [], h, HostUpExpired(NOIID), h');
    assert Live(h'.s, 1) && Tracked(h'.s, 1) == 0;
  }

  // ---------------------------------------------------------------------- a stall

  /** One PEL on the queue. */
  function Waiting(hostUp: bool, full: bool, fullTimer: bool, upTimer: bool): History {
    History(State(map[1 := FRESH], hostUp, false, true, [1], [], 0, 0, full, false, fullTimer, upTimer, false, Link.INITIAL),
            {1}, {1}, {}, 0)
  }

  lemma WaitingBegins(up: bool)
    ensures Begin(map[1 := FRESH], [1], up, false, true) == Waiting(up, false, false, up)
  {
    var s0 := Unstarted(map[1 := FRESH], up, false, true);
    assert [1][1..] == [];
    assert Enqueued(s0, [1]) == [1];
    assert map[1 := FRESH].Keys == {1};
    assert Begin(map[1 := FRESH], [1], up, false, true).enqueued == {1};
  }

  lemma HostUpWhileTimed()
    ensures Leads(Waiting(false, false, false, false), HostIsFull(1), Waiting(false, true, true, false))
    ensures Leads(Waiting(false, true, true, false), HostChanged(true, FINE), Waiting(true, false, true, true))
  {}

  lemma StrayAckWhileTimed()
    ensures Leads(Waiting(true, false, true, true), HostUpExpired(FINE), Waiting(true, false, true, false))
    ensures Leads(Waiting(true, false, true, false), Ack(2), Waiting(true, false, false, false))
  {}

  lemma StallEnds(h0: History, before: seq<Event>) returns (es: seq<Event>)
    requires AllPossible(h0, before) && Run(h0, before) == Waiting(true, false, true, true)
    ensures AllPossible(h0, es) && Run(h0, es) == Waiting(true, false, false, false)
  {
    StrayAckWhileTimed();
    es := OneMore(h0, before, Run(h0, before), HostUpExpired(FINE), Waiting(true, false, true, false));
    es := OneMore(h0, es, Waiting(true, false, true, false), Ack(2), Waiting(true, false, false, false));
  }

  /** A stall without a failure: a host-full reply while the host is down leaves its timer
      running, and a stray ack then disables the timer without anything to take its
      place. */
  lemma StallHappens() returns (es: seq<Event>)
    ensures var h := Begin(map[1 := FRESH], [1], false, false, true);
      AllPossible(h, es) && !Sending(Run(h, es))
  {
    WaitingBegins(false);
    HostUpWhileTimed();
    var h := Waiting(false, false, false, false);
    es := OneMore(h, [], h, HostIsFull(1), Waiting(false, true, true, false));
    es := OneMore(h, es, Waiting(false, true, true, false), HostChanged(true, FINE), Waiting(true, false, true, true));
    es := StallEnds(h, es);
  }

  // ---------------------------------------------------------------------- giving up

  /** One PEL whose sends are refused, for want of an instance ID, n times counted. */
  function Retrying(n: nat, timer: bool): History {
    History(State(map[1 := FRESH], true, false, true, [1], [], 0, n, false, timer, false, false, false, Link.INITIAL),
            {1}, {1}, {}, if timer then n + 1 else n)
  }

  lemma RefusedFirst()
    ensures Leads(Waiting(true, false, false, true), HostUpExpired(NONEFREE), Retrying(0, true))
    ensures Regularly(Waiting(true, false, false, true), HostUpExpired(NONEFREE))
  {}

  lemma RefusedAgain(n: nat)
    requires n < 14
    ensures Leads(Retrying(n, true), RetryExpired(NONEFREE), Retrying(n + 1, true))
    ensures Regularly(Retrying(n, true), RetryExpired(NONEFREE))
  {}

  lemma RefusedForGood()
    ensures Leads(Retrying(14, true), RetryExpired(NONEFREE), Retrying(15, false))
    ensures Regularly(Retrying(14, true), RetryExpired(NONEFREE))
  {}

  lemma {:induction false} RefusedOften(n: nat) returns (es: seq<Event>)
    requires n <= 14
    ensures var h := Waiting(true, false, false, true);
      Regular(h, es) && AllPossible(h, es) && Run(h, es) == Retrying(n, true)
  {
    hide Leads, Regularly, Next, Possible, NamesSent, Escapes;
    var h := Waiting(true, false, false, true);
    if n == 0 {
      RefusedFirst();
      es := OneMore(h, [], h, HostUpExpired(NONEFREE), Retrying(0, true));
    } else {
      es := RefusedOften(n - 1);
      RefusedAgain(n - 1);
      es := OneMore(h, es, Retrying(n - 1, true), RetryExpired(NONEFREE), Retrying(n, true));
    }
  }

  /** Without a reply of the host and without an exception: fifteen sends in a row that are
      refused leave the queue with nothing that would send from it. */
  lemma GivingUpHappens() returns (es: seq<Event>)
    ensures var h := Begin(map[1 := FRESH], [1], true, false, true);
      Regular(h, es) && AllPossible(h, es) && Run(h, es).fails == 15 && !Sending(Run(h, es))
  {
    hide Leads, Regularly, Next, Possible, NamesSent, Escapes;
    WaitingBegins(true);
    var h := Waiting(true, false, false, true);
    es := RefusedOften(14);
    RefusedForGood();
    es := OneMore(h, es, Retrying(14, true), RetryExpired(NONEFREE), Retrying(15, false));
  }

  // ---------------------------------------------------------- a restart while disabled

  /** One PEL that the host, which is off, still has to hear of. */
  function Enabling(on: bool, queue: seq<Id>): History {
    History(State(map[1 := FRESH], false, false, on, queue, [], 0, 0, false, false, false, false, false, Link.INITIAL),
            {1}, {1}, {}, 0)
  }

  lemma Switched(on: bool, queue: seq<Id>)
    ensures Leads(Enabling(!on, queue), PelEnablement(on), Enabling(on, queue))
  {}

  lemma DisabledRestart()
    ensures Leads(Enabling(false, [1]), BmcRestart([1]), Enabling(false, []))
  {
    var s0 := Unstarted(map[1 := FRESH], false, false, false);
    assert [1][1..] == [] && Enqueued(s0, []) == [] && Enqueued(s0, [1]) == [];
    assert RestoredPels(map[1 := FRESH]) == map[1 := FRESH];
    assert {1} + (set id: Id | id in [] && id != 0) == {1};
  }

  /** A restart while the enablement is off loses a PEL for this notifier, and turning the
      enablement on again does not bring it back. */
  lemma DisabledRestartLoses() returns (es: seq<Event>)
    ensures var h := Begin(map[1 := FRESH], [1], false, false, true);
      AllPossible(h, es) && Run(h, es).s.pelEnablement && !NoLoss(Run(h, es))
  {
    WaitingBegins(false);
    Switched(false, [1]);
    DisabledRestart();
    Switched(true, []);
    hide Leads, Next, Possible, Regularly;
    var h := Enabling(true, [1]);
    es := OneMore(h, [], h, PelEnablement(false), Enabling(false, [1]));
    es := OneMore(h, es, Enabling(false, [1]), BmcRestart([1]), Enabling(false, []));
    es := OneMore(h, es, Enabling(false, []), PelEnablement(true), Enabling(true, []));
    assert Live(Enabling(true, []).s, 1) && Tracked(Enabling(true, []).s, 1) == 0;
  }

  // --------------------------------------------------------------- a forgotten ack

  /** One PEL that is sent, acked too early, and then responded to. */
  function AckedWhile(state: TransmissionState, inProgress: Id, sent: seq<Id>, settled: set<Id>): History {
    History(State(map[1 := FRESH.(hostState := state)], true, false, true, [], sent, inProgress, 0, false, false, false,
                  false, false, if inProgress != 0 then BUSY else Link.INITIAL),
            {1}, {1}, settled, 0)
  }

  lemma SendsOne()
    ensures Leads(Waiting(true, false, false, true), HostUpExpired(FINE), AckedWhile(NewPEL, 1, [], {}))
  {
    hide Link.SendNewLogCmd;
    LinkMoves();
    assert [1][1..] == [];
  }

  lemma AckedEarly()
    ensures Leads(AckedWhile(NewPEL, 1, [], {}), Ack(1), AckedWhile(Acked, 1, [], {1}))
  {
    assert map[1 := FRESH][1 := FRESH.(hostState := Acked)] == map[1 := FRESH.(hostState := Acked)];
  }

  lemma RespondedLate()
    ensures Leads(AckedWhile(Acked, 1, [], {1}), DELIVERED, AckedWhile(Sent, 0, [1], {1}))
  {
    hide Link.SendNewLogCmd, Link.Step;
    LinkMoves();
    assert [] + [1] == [1];
    assert map[1 := FRESH.(hostState := Acked)][1 := FRESH.(hostState := Sent)] == map[1 := FRESH.(hostState := Sent)];
  }

  /** An ack that comes before the response to the send is forgotten again. */
  lemma EarlyAckForgotten() returns (es: seq<Event>)
    ensures var h := Begin(map[1 := FRESH], [1], true, false, true);
      AllPossible(h, es) && !SettledStay(Run(h, es))
  {
    WaitingBegins(true);
    SendsOne();
    AckedEarly();
    RespondedLate();
    var h := Waiting(true, false, false, true);
    es := OneMore(h, [], h, HostUpExpired(FINE), AckedWhile(NewPEL, 1, [], {}));
    es := OneMore(h, es, AckedWhile(NewPEL, 1, [], {}), Ack(1), AckedWhile(Acked, 1, [], {1}));
    es := OneMore(h, es, AckedWhile(Acked, 1, [], {1}), DELIVERED, AckedWhile(Sent, 0, [1], {1}));
    assert Held(AckedWhile(Sent, 0, [1], {1}).s, 1);
  }
}
