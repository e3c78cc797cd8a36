/** The host notification protocol as a state and the events that change it. */
module NotifierState {
  import opened RepositoryState
  import opened Sequences
  import Link = PldmState

  const MAX_RETRY_ATTEMPTS: nat := 15

  type Id = Uint32

  /** What the notifier reads of a stored PEL. */
  datatype Pel = Pel(hostState: TransmissionState, hmcState: TransmissionState, hidden: bool, dontReport: bool)

  datatype State = State(
    pels: map<Id, Pel>,       // the repository
    hostUp: bool,             // _dataIface
    hmcManaged: bool,
    pelEnablement: bool,
    queue: seq<Id>,           // _pelQueue
    sent: seq<Id>,            // _sentPELs
    inProgress: Id,           // _inProgressPEL, 0 when there is none
    retryCount: nat,
    hostFull: bool,
    retryTimer: bool,         // whether each timer is enabled
    hostFullTimer: bool,
    hostUpTimer: bool,
    dispatchPending: bool,    // _dispatcher holds a deferred event
    link: Link.State)         // _hostIface, through which commands go to the host

  /** What the file system and the PLDM libraries do while an event is handled: whether
      the size of the PEL's file can be read, how an instance ID is allocated, whether
      the command can be started, and whether the instance ID can be freed. */
  datatype Answers = Answers(sizeOk: bool, alloc: Link.AllocResult, startOk: bool, freeOk: bool)

  // ------------------------------------------------------------------ decisions

  predicate EnqueueRequired(s: State, id: Id) {
    s.pelEnablement && id in s.pels &&
    var a := s.pels[id];
    if a.hostState == Acked || a.hostState == BadPEL then false
    else if a.hidden && a.hmcState == Acked then false
    else !a.dontReport
  }

  predicate NotifyRequired(s: State, id: Id) {
    id in s.pels &&
    var a := s.pels[id];
    if a.hostState == Acked then false
    else if a.hidden then !(a.hmcState == Acked || s.hmcManaged)
    else true
  }

  // ------------------------------------------------------------------- handlers

  /** Repository::setPELHostTransState, which ignores an ID it does not hold. */
  function WithHostState(pels: map<Id, Pel>, id: Id, st: TransmissionState): map<Id, Pel> {
    if id in pels then pels[id := pels[id].(hostState := st)] else pels
  }

  /** The queue from the first PEL on that the host still needs to hear of. */
  function ToSend(s: State, queue: seq<Id>): seq<Id> {
    if queue == [] || NotifyRequired(s, queue[0]) then queue else ToSend(s, queue[1..])
  }

  predicate MaySend(s: State) {
    s.hostUp && !s.retryTimer && !s.hostFullTimer
  }

  /** cancelCmd goes through unless freeing the instance ID throws. */
  predicate Cancels(link: Link.State, freeOk: bool) {
    Link.Step(link, Link.Cancel(freeOk)).1.Cancelled?
  }

  function LinkAfterCancel(link: Link.State, freeOk: bool): Link.State {
    Link.Step(link, Link.Cancel(freeOk)).0
  }

  /** How a send ends: with one of its two answers, or with an exception. */
  datatype SendEnd = Started | Refused | Threw

  function SendEndOf(link: Link.State, ans: Answers): SendEnd {
    if !ans.sizeOk then Threw
    else
      match Link.SendNewLogCmd(link, ans.alloc, ans.startOk).1
      case Accepted => Started
      case SendFailed => Refused
      case _ => Threw
  }

  function LinkAfterSend(link: Link.State, ans: Answers): Link.State {
    if !ans.sizeOk then link else Link.SendNewLogCmd(link, ans.alloc, ans.startOk).0
  }

  /** The send itself, for the PEL taken off the front of q. Only an answer puts the PEL
      in progress or back on the queue; an exception that leaves the function does
      neither. */
  function SendFirst(s: State, q: seq<Id>, ans: Answers): State
    requires q != []
  {
    var end := SendEndOf(s.link, ans);
    s.(queue := if end == Refused then q else q[1..],
       inProgress := if end == Started then q[0] else if end == Refused then 0 else s.inProgress,
       retryTimer := s.retryTimer || end == Refused,
       link := LinkAfterSend(s.link, ans))
  }

  function DoNewLogNotify(s: State, ans: Answers): State {
    if !MaySend(s) then s
    else if s.retryCount >= MAX_RETRY_ATTEMPTS then
      if s.retryCount == MAX_RETRY_ATTEMPTS then s.(link := LinkAfterCancel(s.link, ans.freeOk)) else s
    else
      var q := ToSend(s, s.queue);
      if q == [] then s.(queue := []) else SendFirst(s, q, ans)
  }

  function NewLog(s: State, id: Id): State {
    if !EnqueueRequired(s, id) then s
    else
      var s := s.(queue := s.queue + [id]);
      if !s.hostUp || s.hostFull || s.hostUpTimer then s
      else
        var inProgress := s.inProgress != 0 || s.link.inProgress || s.retryTimer;
        var firstPEL := |s.queue| == 1;
        var gaveUp := s.retryCount >= MAX_RETRY_ATTEMPTS;
        if !inProgress && (firstPEL || gaveUp) then s.(retryCount := 0, dispatchPending := true) else s
  }

  function DeleteLog(s: State, id: Id): State {
    s.(queue := EraseFirst(s.queue, id), sent := EraseFirst(s.sent, id))
  }

  /** The queue once the PEL in progress, if any, is back at its front. */
  function PutBack(inProgress: Id, queue: seq<Id>): seq<Id> {
    if inProgress != 0 then [inProgress] + queue else queue
  }

  function Renewed(pels: map<Id, Pel>, ids: seq<Id>): map<Id, Pel> {
    map id | id in pels :: if id in ids then pels[id].(hostState := NewPEL) else pels[id]
  }

  /** The host went off: the command is stopped, and what was sent but not acked becomes
      new again and goes to the end of the queue. If the command cannot be cancelled, the
      exception ends the handler before that. */
  function HostDown(s: State, freeOk: bool): State {
    var q, done := PutBack(s.inProgress, s.queue), Cancels(s.link, freeOk);
    s.(pels := if done then Renewed(s.pels, s.sent) else s.pels,
       queue := if done then q + s.sent else q,
       sent := if done then [] else s.sent,
       inProgress := 0,
       retryCount := 0,
       hostFull := false,
       retryTimer := false,
       hostFullTimer := s.hostFullTimer && !done,
       hostUpTimer := s.hostUpTimer && !done,
       link := LinkAfterCancel(s.link, freeOk))
  }

  function HostStateChange(s: State, hostUp: bool, freeOk: bool): State {
    if hostUp then s.(retryCount := 0, hostFull := false, hostUpTimer := s.hostUpTimer || s.queue != [])
    else HostDown(s, freeOk)
  }

  /** The PEL in progress was taken by the host: it is sent, and waits for its ack. */
  function Taken(s: State): State {
    s.(pels := WithHostState(s.pels, s.inProgress, Sent), sent := s.sent + [s.inProgress], inProgress := 0, retryCount := 0)
  }

  function CommandResponse(s: State, success: bool, ans: Answers): State {
    if success then
      if !s.hostFull && s.queue != [] then DoNewLogNotify(Taken(s), ans) else Taken(s)
    else
      s.(queue := [s.inProgress] + s.queue, inProgress := 0, retryTimer := true)
  }

  /** A response read, or the failure to read one: the callback is not reached if the
      instance ID cannot be freed. */
  function Receive(s: State, status: Link.ResponseStatus, ans: Answers): State {
    var (link, out) := Link.Step(s.link, Link.Receive(status, ans.freeOk));
    if out.Callback? then CommandResponse(s.(link := link), status == Link.Succeeded, ans) else s.(link := link)
  }

  function ReceiveTimerExpired(s: State, ans: Answers): State {
    CommandResponse(s.(link := Link.Step(s.link, Link.Timeout).0), false, ans)
  }

  function RetryTimerExpired(s: State, ans: Answers): State {
    if s.hostUp then DoNewLogNotify(s.(retryCount := s.retryCount + 1), ans) else s
  }

  function AckPEL(s: State, id: Id): State {
    s.(pels := WithHostState(s.pels, id, Acked),
       sent := EraseFirst(s.sent, id),
       hostFullTimer := false,
       hostFull := false,
       dispatchPending := s.dispatchPending || (s.hostFull && s.queue != []))
  }

  function SetHostFull(s: State, id: Id): State {
    var back := id in s.sent;
    s.(pels := if back then WithHostState(s.pels, id, NewPEL) else s.pels,
       sent := if back then EraseFirst(s.sent, id) else s.sent,
       queue := if back && id !in s.queue then [id] + s.queue else s.queue,
       hostFull := true,
       hostFullTimer := true)
  }

  function SetBadPEL(s: State, id: Id): State {
    s.(pels := WithHostState(s.pels, id, BadPEL), sent := EraseFirst(s.sent, id))
  }

  // --------------------------------------------------------------------- restart

  /** Repository::restore: a PEL that was sent but not acked is new again. */
  function RestoredPels(pels: map<Id, Pel>): map<Id, Pel> {
    map id | id in pels :: if pels[id].hostState == Sent then pels[id].(hostState := NewPEL) else pels[id]
  }

  /** The constructor's walk over the repository, in order. */
  function Enqueued(s: State, order: seq<Id>): seq<Id> {
    if order == [] then []
    else if EnqueueRequired(s, order[0]) then [order[0]] + Enqueued(s, order[1..])
    else Enqueued(s, order[1..])
  }

  /** The fields as they are initialised. */
  function Unstarted(pels: map<Id, Pel>, hostUp: bool, hmcManaged: bool, pelEnablement: bool): State {
    State(pels, hostUp, hmcManaged, pelEnablement, [], [], 0, 0, false, false, false, false, false, Link.INITIAL)
  }

  /** A new notifier over a repository and its surroundings. */
  function Start(pels: map<Id, Pel>, order: seq<Id>, hostUp: bool, hmcManaged: bool, pelEnablement: bool): State {
    var s := Unstarted(pels, hostUp, hmcManaged, pelEnablement);
    var q := Enqueued(s, order);
    s.(queue := q, hostUpTimer := q != [] && hostUp)
  }

  // ---------------------------------------------------------------------- events

  datatype Event =
    | PelAdded(id: Id, pel: Pel)
    | PelDeleted(id: Id)
    | HostChanged(up: bool, ans: Answers)
    | Response(status: Link.ResponseStatus, ans: Answers)
    | ResponseTimeout(ans: Answers)
    | RetryExpired(ans: Answers)
    | HostFullExpired(ans: Answers)
    | HostUpExpired(ans: Answers)
    | Dispatch(ans: Answers)
    | Ack(id: Id)
    | HostIsFull(id: Id)
    | Bad(id: Id)
    | HmcState(id: Id, state: TransmissionState)
    | HmcManaged(managed: bool)
    | PelEnablement(on: bool)
    | BmcRestart(order: seq<Id>)

  /** A walk over the repository: every stored ID once, in ascending order. */
  ghost predicate WalkOf(order: seq<Id>, pels: map<Id, Pel>) {
    && (forall id :: id in order <==> id in pels)
    && forall i, j | 0 <= i < j < |order| :: order[i] < order[j]
  }

  /** An allocated instance ID was not allocated before. */
  predicate FreshID(link: Link.State, ans: Answers) {
    ans.alloc.Allocated? ==> ans.alloc.id !in link.heldIDs
  }

  /** When an event can happen: timers and responses need to be awaited, the host
      state changes only when it changes, and IDs of new PELs are nonzero. */
  ghost predicate Enabled(s: State, e: Event) {
    match e
    case PelAdded(id, _) => id != 0 && id !in s.pels && id !in s.queue && id !in s.sent && id != s.inProgress
    case HostChanged(up, _) => up != s.hostUp
    case Response(status, ans) =>
      s.link.source && FreshID(Link.Step(s.link, Link.Receive(status, ans.freeOk)).0, ans)
    case ResponseTimeout(_) => s.link.receiveTimer
    case RetryExpired(ans) => s.retryTimer && FreshID(s.link, ans)
    case HostFullExpired(ans) => s.hostFullTimer && FreshID(s.link, ans)
    case HostUpExpired(ans) => s.hostUpTimer && FreshID(s.link, ans)
    case Dispatch(ans) => s.dispatchPending && FreshID(s.link, ans)
    case BmcRestart(order) => WalkOf(order, s.pels)
    case _ => true
  }

  function Step(s: State, e: Event): State {
    match e
    case PelAdded(id, pel) => NewLog(s.(pels := s.pels[id := pel]), id)
    case PelDeleted(id) => DeleteLog(s.(pels := s.pels - {id}), id)
    case HostChanged(up, ans) => HostStateChange(s.(hostUp := up), up, ans.freeOk)
    case Response(status, ans) => Receive(s, status, ans)
    case ResponseTimeout(ans) => ReceiveTimerExpired(s, ans)
    case RetryExpired(ans) => RetryTimerExpired(s.(retryTimer := false), ans)
    case HostFullExpired(ans) => DoNewLogNotify(s.(hostFullTimer := false), ans)
    case HostUpExpired(ans) => DoNewLogNotify(s.(hostUpTimer := false), ans)
    case Dispatch(ans) => DoNewLogNotify(s.(dispatchPending := false), ans)
    case Ack(id) => AckPEL(s, id)
    case HostIsFull(id) => SetHostFull(s, id)
    case Bad(id) => SetBadPEL(s, id)
    case HmcState(id, st) =>
      if id in s.pels then s.(pels := s.pels[id := s.pels[id].(hmcState := st)]) else s
    case HmcManaged(b) => s.(hmcManaged := b)
    case PelEnablement(b) => s.(pelEnablement := b)
    case BmcRestart(order) => Start(RestoredPels(s.pels), order, s.hostUp, s.hmcManaged, s.pelEnablement)
  }
}
