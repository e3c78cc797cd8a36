/** The life of a PLDM command: instance IDs, the receive callback and its timer,
    and the response callback they lead to. */
module PldmState {
  import opened Wrappers

  datatype ResponseStatus = Succeeded | Failed

  datatype State = State(
    inProgress: bool,               // _inProgress
    instanceID: Option<nat>,        // _instanceID
    source: bool,                   // _source: a receive callback is registered
    receiveTimer: bool,             // _receiveTimer is enabled
    heldIDs: set<nat>)            // the IDs of this object in libpldm's database

  /** pldm_instance_id_alloc: an ID, none free at the moment, or another failure. */
  datatype AllocResult = Allocated(id: nat) | NoneFree | AllocFailed

  /** What a call ends with.  Escaped is an exception that is no std::exception,
      or that nothing on the way catches. */
  datatype Output = Accepted | SendFailed | Callback(status: ResponseStatus) | Cancelled | Escaped | Nothing

  /** What happens to the object; flags say how the libraries behave.  Receiving
      means that a response to the current command, or a failure, was read. */
  datatype Event =
    | Send(alloc: AllocResult, startOk: bool)
    | Ignore
    | Receive(status: ResponseStatus, freeOk: bool)
    | Timeout
    | Cancel(freeOk: bool)

  function CleanupCmd(s: State): State {
    s.(inProgress := false, source := false, receiveTimer := false)
  }

  /** freeIID; None when it throws. */
  function FreeIID(s: State, freeOk: bool): Option<State> {
    if s.instanceID.None? then Some(s)
    else if freeOk then Some(s.(instanceID := None, heldIDs := s.heldIDs - {s.instanceID.value}))
    else None
  }

  function StartCommand(s: State, startOk: bool): (State, Output) {
    if startOk then (s.(source := true, receiveTimer := true), Accepted)
    else (CleanupCmd(s), SendFailed)
  }

  function SendNewLogCmd(s: State, alloc: AllocResult, startOk: bool): (State, Output) {
    var s := s.(inProgress := true);
    if s.instanceID.Some? then StartCommand(s, startOk)
    else
      match alloc
      case Allocated(id) =>
        StartCommand(s.(instanceID := Some(id), heldIDs := s.heldIDs + {id}), startOk)
      case NoneFree => (s.(inProgress := false), SendFailed)
      case AllocFailed => (s, Escaped)
  }

  function Step(s: State, e: Event): (State, Output) {
    match e
    case Send(alloc, startOk) => SendNewLogCmd(s, alloc, startOk)
    case Ignore => (s, Nothing)
    case Receive(status, freeOk) =>
      var s := CleanupCmd(s);
      (match FreeIID(s, freeOk) case Some(s') => (s', Callback(status)) case None => (s, Escaped))
    case Timeout => (CleanupCmd(s.(receiveTimer := false)), Callback(Failed))
    case Cancel(freeOk) =>
      (match FreeIID(s, freeOk) case Some(s') => (CleanupCmd(s'), Cancelled) case None => (s, Escaped))
  }

  /** Callbacks come from a registered source, timeouts from an enabled timer, and
      the database hands out IDs that are not allocated. */
  ghost predicate Enabled(s: State, e: Event) {
    match e
    case Send(Allocated(id), _) => id !in s.heldIDs
    case Receive(_, _) => s.source
    case Ignore => s.source
    case Timeout => s.receiveTimer
    case _ => true
  }

  const INITIAL := State(false, None, false, false, {})

  // --------------------------------------------------------------- the invariant

  function Recorded(iid: Option<nat>): set<nat> {
    match iid case None => {} case Some(id) => {id}
  }

  /** At most one instance ID is allocated, and it is the recorded one; callback and
      timer come and go together, and only while a command with an ID is out. */
  ghost predicate Inv(s: State) {
    && s.heldIDs == Recorded(s.instanceID)
    && s.source == s.receiveTimer
    && (s.source ==> s.inProgress && s.instanceID.Some?)
  }

  lemma StepKeepsInv(s: State, e: Event)
    requires Inv(s) && Enabled(s, e)
    ensures Inv(Step(s, e).0)
  {}

  predicate Consistent(s: State) {
    s.inProgress ==> s.instanceID.Some? && s.source
  }

  /** A command in progress holds an ID and awaits its response, except after an
      allocation failure that is reported by something other than a std::exception:
      sendNewLogCmd does not catch that, and leaves the flag set. */
  lemma ConsistentIffCaught(s: State, e: Event)
    requires Inv(s) && Enabled(s, e) && Consistent(s)
    ensures Consistent(Step(s, e).0) <==> !(e.Send? && s.instanceID.None? && e.alloc.AllocFailed?)
  {}

  /** The ID a step gives back to the database. */
  function Freed(s: State, e: Event): set<nat> {
    s.heldIDs - Step(s, e).0.heldIDs
  }

  /** IDs are freed one at a time, only while allocated, and are then neither
      allocated nor recorded, so that no ID is freed twice. */
  lemma FreedOnce(s: State, e: Event, id: nat)
    requires Inv(s) && Enabled(s, e) && id in Freed(s, e)
    ensures s.instanceID == Some(id) && Step(s, e).0.instanceID.None? && Step(s, e).0.heldIDs == {}
    ensures Step(s, e).1.Callback? || Step(s, e).1.Cancelled?
  {}

  // ----------------------------------------------------- what a caller may rely on

  /** How a send ends: it awaits a response, or is over, or leaves the function by an
      exception with the flag set and nothing awaited. */
  lemma SendOutcome(s: State, alloc: AllocResult, startOk: bool)
    requires Inv(s) && (alloc.Allocated? ==> alloc.id !in s.heldIDs)
    ensures var (t, out) := SendNewLogCmd(s, alloc, startOk);
      && Inv(t)
      && (out.Accepted? || out.SendFailed? || out.Escaped?)
      && (out.Escaped? <==> s.instanceID.None? && alloc.AllocFailed?)
      && (out.Accepted? ==> t.source && t.inProgress)
      && (!out.Accepted? ==> !t.source) && (out.SendFailed? ==> !t.inProgress)
      && (out.Escaped? ==> !s.source && t.inProgress)
  {}

  lemma CancelOutcome(s: State, freeOk: bool)
    requires Inv(s)
    ensures var (t, out) := Step(s, Cancel(freeOk));
      && Inv(t)
      && (out.Cancelled? || out.Escaped?)
      && (out.Escaped? <==> s.instanceID.Some? && !freeOk)
      && (out.Cancelled? ==> !t.source && !t.inProgress)
      && (out.Escaped? ==> t == s)
  {}

  lemma ReceiveOutcome(s: State, status: ResponseStatus, freeOk: bool)
    requires Inv(s) && s.source
    ensures var (t, out) := Step(s, Receive(status, freeOk));
      && Inv(t) && !t.source && !t.inProgress
      && out == if freeOk then Callback(status) else Escaped
  {}

  lemma TimeoutOutcome(s: State)
    requires Inv(s) && s.receiveTimer
    ensures var (t, out) := Step(s, Timeout); Inv(t) && !t.source && !t.inProgress && out == Callback(Failed)
  {}

  // ------------------------------------------------------------------------ runs

  function Run(es: seq<Event>): State
    decreases |es|
  {
    if es == [] then INITIAL else Step(Run(es[..|es| - 1]), es[|es| - 1]).0
  }

  /** The instance ID out after a run: the first one allocated since an ID was last given back
      with a response or a cancelled command. A timeout or a failed start gives none back. */
  function OutAfter(es: seq<Event>): Option<nat>
    decreases |es|
  {
    if es == [] then None
    else
      var before := OutAfter(es[..|es| - 1]);
      match es[|es| - 1]
      case Send(Allocated(id), _) => if before.None? then Some(id) else before
      case Receive(_, freeOk) => if freeOk then None else before
      case Cancel(freeOk) => if freeOk then None else before
      case _ => before
  }

  /** Over any run that ID is the one recorded, and the only one allocated. */
  lemma {:induction false} RunHolds(es: seq<Event>)
    requires Possible(es)
    ensures Run(es).instanceID == OutAfter(es)
    ensures Run(es).heldIDs == if OutAfter(es).Some? then {OutAfter(es).value} else {}
    decreases |es|
  {
    if es != [] {
      RunHolds(es[..|es| - 1]);
    }
  }

  function Outputs(es: seq<Event>): seq<Output>
    decreases |es|
  {
    if es == [] then []
    else
      var o := Step(Run(es[..|es| - 1]), es[|es| - 1]).1;
      if o.Nothing? then Outputs(es[..|es| - 1]) else Outputs(es[..|es| - 1]) + [o]
  }

  ghost predicate Possible(es: seq<Event>)
    decreases |es|
  {
    es == [] || (Possible(es[..|es| - 1]) && Enabled(Run(es[..|es| - 1]), es[|es| - 1]))
  }

  /** The last output that was no failed attempt to cancel. */
  function LastSettled(os: seq<Output>): Output
    decreases |os|
  {
    if os == [] then Nothing
    else if os[|os| - 1].Escaped? then LastSettled(os[..|os| - 1])
    else os[|os| - 1]
  }

  /** Every callback answers the accepted send before it, with no other callback,
      cancel or failed send in between. */
  ghost predicate CallbacksAnswerSends(os: seq<Output>) {
    forall j | 0 <= j < |os| && os[j].Callback? :: LastSettled(os[..j]) == Accepted
  }

  lemma AnswersSnoc(os: seq<Output>, o: Output)
    requires CallbacksAnswerSends(os) && (o.Callback? ==> LastSettled(os) == Accepted)
    ensures CallbacksAnswerSends(os + [o])
    ensures LastSettled(os + [o]) == if o.Escaped? then LastSettled(os) else o
  {
    var r := os + [o];
    assert r[..|os|] == os;
    forall j | 0 <= j < |r| && r[j].Callback? ensures LastSettled(r[..j]) == Accepted {
      if j < |os| {
        assert r[..j] == os[..j];
      }
    }
  }

  lemma StartsGood()
    ensures Inv(INITIAL) && !INITIAL.source
  {}

  /** A callback comes from a registered source, and a source is registered by a send
      that was accepted and by nothing else. */
  lemma StepAnswers(s: State, e: Event)
    requires Inv(s) && Enabled(s, e)
    ensures Step(s, e).1.Callback? ==> s.source
    ensures Step(s, e).0.source ==> Step(s, e).1.Accepted? || (s.source && (Step(s, e).1.Nothing? || Step(s, e).1.Escaped?))
  {}

  /** Over any run each accepted send gets at most one response callback: receive,
      timeout and cancel exclude each other, also when the callback itself sends
      the next command. */
  lemma {:induction false} RunAnswersOnce(es: seq<Event>)
    requires Possible(es)
    ensures Inv(Run(es)) && CallbacksAnswerSends(Outputs(es))
    ensures Run(es).source ==> LastSettled(Outputs(es)) == Accepted
    decreases |es|
  {
    hide Step, Inv, Enabled;
    if es == [] {
      StartsGood();
    } else {
      var n := |es| - 1;
      RunAnswersOnce(es[..n]);
      StepKeepsInv(Run(es[..n]), es[n]);
      StepAnswers(Run(es[..n]), es[n]);
      AnswersSnoc(Outputs(es[..n]), Step(Run(es[..n]), es[n]).1);
    }
  }
}

/** The PLDMInterface class. */
module PldmInterfaceClass {
  import opened Wrappers
  import P = PldmState

  class PLDMInterface {
    var inProgress: bool
    var instanceID: Option<nat>
    var source: bool
    var receiveTimer: bool
    var heldIDs: set<nat>

    function View(): P.State
      reads this
    {
      P.State(inProgress, instanceID, source, receiveTimer, heldIDs)
    }

    constructor ()
      ensures View() == P.INITIAL
    {
      inProgress, instanceID, source, receiveTimer, heldIDs := false, None, false, false, {};
    }

    method CleanupCmd()
      modifies this`inProgress, this`source, this`receiveTimer
      ensures View() == P.CleanupCmd(old(View()))
    {
      inProgress := false;
      source := false;
      if receiveTimer {
        receiveTimer := false;
      }
    }

    method FreeIID(freeOk: bool) returns (r: Result<()>)
      modifies this`instanceID, this`heldIDs
      ensures r.Ok? ==> P.FreeIID(old(View()), freeOk) == Some(View())
      ensures r.Thrown? ==> P.FreeIID(old(View()), freeOk).None? && View() == old(View())
    {
      if instanceID.None? {
        return Ok(());
      }
      if !freeOk {
        return Thrown;
      }
      heldIDs := heldIDs - {instanceID.value};
      instanceID := None;
      return Ok(());
    }

    method SendNewLogCmd(alloc: P.AllocResult, startOk: bool) returns (status: P.Output)
      modifies this
      ensures (View(), status) == P.SendNewLogCmd(old(View()), alloc, startOk)
    {
      inProgress := true;
      if instanceID.None? {
        match alloc {
          case Allocated(id) =>
            instanceID := Some(id);
            heldIDs := heldIDs + {id};
          case NoneFree =>
            inProgress := false;
            return P.SendFailed;
          case AllocFailed =>
            return P.Escaped;
        }
      }
      source := true;
      if !startOk {
        CleanupCmd();
        return P.SendFailed;
      }
      receiveTimer := true;
      return P.Accepted;
    }

    method Receive(status: P.ResponseStatus, freeOk: bool) returns (out: P.Output)
      modifies this
      ensures (View(), out) == P.Step(old(View()), P.Receive(status, freeOk))
    {
      CleanupCmd();
      var r := FreeIID(freeOk);
      if r.Thrown? {
        return P.Escaped;
      }
      return P.Callback(status);
    }

    method ReceiveTimerExpired() returns (out: P.Output)
      modifies this
      ensures (View(), out) == P.Step(old(View()), P.Timeout)
    {
      receiveTimer := false;
      CleanupCmd();
      return P.Callback(P.Failed);
    }

    method CancelCmd(freeOk: bool) returns (out: P.Output)
      modifies this
      ensures (View(), out) == P.Step(old(View()), P.Cancel(freeOk))
    {
      var r := FreeIID(freeOk);
      if r.Thrown? {
        return P.Escaped;
      }
      CleanupCmd();
      return P.Cancelled;
    }
  }
}
