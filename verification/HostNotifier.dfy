/** The HostNotifier class: queue, sent list, timers and flags changed in place by
    the event handlers, each tied to the handler of the same name on values. */
module HostNotifierClass {
  import opened PldmInterfaceClass
  import opened RepositoryState
  import opened Sequences
  import opened Wrappers
  import Link = PldmState
  import N = NotifierState
  import O = NotifierOrder

  class HostNotifier {
    // the repository and the data interface, as far as the notifier sees them
    var pels: map<N.Id, N.Pel>
    var hostUp: bool
    var hmcManaged: bool
    var pelEnablement: bool

    var pelQueue: seq<N.Id>
    var sentPELs: seq<N.Id>
    var inProgressPEL: N.Id
    var retryCount: nat
    var hostFull: bool
    var retryTimer: bool
    var hostFullTimer: bool
    var hostUpTimer: bool
    var dispatcher: bool
    const hostIface: PLDMInterface

    function View(): N.State
      reads this, hostIface
    {
      N.State(pels, hostUp, hmcManaged, pelEnablement, pelQueue, sentPELs, inProgressPEL, retryCount,
              hostFull, retryTimer, hostFullTimer, hostUpTimer, dispatcher, hostIface.View())
    }

    /** Queues what the repository already holds, in the order of its walk. */
    constructor (pels: map<N.Id, N.Pel>, order: seq<N.Id>, hostUp: bool, hmcManaged: bool, pelEnablement: bool,
                 hostIface: PLDMInterface)
      requires hostIface.View() == Link.INITIAL
      ensures View() == N.Start(pels, order, hostUp, hmcManaged, pelEnablement)
      ensures this.hostIface == hostIface
    {
      this.pels, this.hostUp, this.hmcManaged, this.pelEnablement := pels, hostUp, hmcManaged, pelEnablement;
      pelQueue, sentPELs, inProgressPEL, retryCount, hostFull := [], [], 0, 0, false;
      retryTimer, hostFullTimer, hostUpTimer, dispatcher := false, false, false, false;
      this.hostIface := hostIface;
      new;
      AddPELsToQueue(order);
      if pelQueue != [] && hostUp {
        hostUpTimer := true;
      }
    }

    /** addPELToQueue for each stored PEL. */
    method AddPELsToQueue(order: seq<N.Id>)
      modifies this`pelQueue
      ensures pelQueue == old(pelQueue) + N.Enqueued(old(View()), order)
    {
      hide N.EnqueueRequired;
      ghost var s := View();
      var i := 0;
      while i < |order|
        invariant i <= |order|
        invariant s.queue + N.Enqueued(s, order) == pelQueue + N.Enqueued(s, order[i..])
      {
        SameEnqueue(View(), s, order[i]);
        assert order[i..][1..] == order[i + 1..];
        if N.EnqueueRequired(View(), order[i]) {
          pelQueue := pelQueue + [order[i]];
        }
        i := i + 1;
      }
    }

    static lemma SameEnqueue(s: N.State, t: N.State, id: N.Id)
      requires s.pels == t.pels && s.pelEnablement == t.pelEnablement
      ensures N.EnqueueRequired(s, id) == N.EnqueueRequired(t, id)
    {}

    method SetPELHostTransState(id: N.Id, state: TransmissionState)
      modifies this`pels
      ensures pels == N.WithHostState(old(pels), id, state)
    {
      if id in pels && pels[id].hostState != state {
        pels := pels[id := pels[id].(hostState := state)];
      } else if id in pels {
        assert pels == pels[id := pels[id].(hostState := state)];
      }
    }

    /** Takes PELs off the queue up to the first that still has to be sent. */
    method FindPELToSend() returns (doNotify: bool, id: N.Id)
      modifies this`pelQueue
      ensures doNotify <==> N.ToSend(old(View()), old(pelQueue)) != []
      ensures doNotify ==> N.ToSend(old(View()), old(pelQueue)) == [id] + pelQueue
      ensures !doNotify ==> pelQueue == []
    {
      ghost var s := View();
      doNotify, id := false, 0;
      while !doNotify && pelQueue != []
        invariant doNotify ==> N.ToSend(s, s.queue) == [id] + pelQueue
        invariant !doNotify ==> N.ToSend(s, s.queue) == N.ToSend(s, pelQueue)
        decreases |pelQueue|, !doNotify
      {
        id := pelQueue[0];
        assert pelQueue == [id] + pelQueue[1..];
        assert N.NotifyRequired(View(), id) == N.NotifyRequired(s, id);
        if N.NotifyRequired(View(), id) {
          doNotify := true;
        }
        pelQueue := pelQueue[1..];
      }
    }

    /** Sends the next PEL, unless something forbids it or there is none. An exception from
        the file system or from sendNewLogCmd ends it after the PEL left the queue. */
    method DoNewLogNotify(ans: N.Answers)
      modifies this`pelQueue, this`inProgressPEL, this`retryTimer, hostIface
      ensures View() == N.DoNewLogNotify(old(View()), ans)
    {
      hide Link.SendNewLogCmd;
      if !hostUp || retryTimer || hostFullTimer {
        return;
      }
      if retryCount >= N.MAX_RETRY_ATTEMPTS {
        if retryCount == N.MAX_RETRY_ATTEMPTS {
          var _ := hostIface.CancelCmd(ans.freeOk);
        }
        return;
      }
      var doNotify, id := FindPELToSend();
      if doNotify {
        SendPEL(id, ans);
      }
    }

    /** Sends a PEL that was just taken off the queue. */
    method SendPEL(id: N.Id, ans: N.Answers)
      modifies this`pelQueue, this`inProgressPEL, this`retryTimer, hostIface
      ensures View() == N.SendFirst(old(View()), [id] + old(pelQueue), ans)
    {
      hide Link.SendNewLogCmd;
      assert ([id] + pelQueue)[1..] == pelQueue;
      if !ans.sizeOk {
        return;
      }
      var rc := hostIface.SendNewLogCmd(ans.alloc, ans.startOk);
      if rc == Link.Accepted {
        inProgressPEL := id;
      } else if rc == Link.SendFailed {
        pelQueue := [id] + pelQueue;
        inProgressPEL := 0;
        retryTimer := true;
      }
    }

    method NewLogCallback(id: N.Id)
      modifies this
      ensures View() == N.NewLog(old(View()), id)
      ensures pelQueue == if id in pels && O.Reportable(View(), pels[id]) then old(pelQueue) + [id] else old(pelQueue)
    {
      if !N.EnqueueRequired(View(), id) {
        return;
      }
      pelQueue := pelQueue + [id];
      if !hostUp || hostFull || hostUpTimer {
        return;
      }
      var inProgress := inProgressPEL != 0 || hostIface.inProgress || retryTimer;
      var firstPEL := |pelQueue| == 1;
      var gaveUp := retryCount >= N.MAX_RETRY_ATTEMPTS;
      if !inProgress && (firstPEL || gaveUp) {
        retryCount := 0;
        dispatcher := true;
      }
    }

    method DeleteLogCallback(id: N.Id)
      modifies this`pelQueue, this`sentPELs
      ensures View() == N.DeleteLog(old(View()), id)
    {
      pelQueue := FindAndErase(pelQueue, id);
      sentPELs := FindAndErase(sentPELs, id);
    }

    /** Puts the PEL in progress back and stops the command, which may throw. */
    method StopCommand(freeOk: bool) returns (r: Result<()>)
      modifies this`retryCount, this`pelQueue, this`inProgressPEL, this`retryTimer, hostIface
      ensures retryCount == 0 && inProgressPEL == 0 && !retryTimer
      ensures pelQueue == N.PutBack(old(inProgressPEL), old(pelQueue))
      ensures hostIface.View() == N.LinkAfterCancel(old(hostIface.View()), freeOk)
      ensures r.Ok? <==> N.Cancels(old(hostIface.View()), freeOk)
    {
      hide Link.Step;
      retryCount := 0;
      if inProgressPEL != 0 {
        pelQueue := [inProgressPEL] + pelQueue;
        inProgressPEL := 0;
      }
      retryTimer := false;
      var out := hostIface.CancelCmd(freeOk);
      r := if out.Cancelled? then Ok(()) else Thrown;
    }

    /** Puts the sent PELs back on the queue as new. */
    method RequeueSent()
      modifies this`pelQueue, this`pels
      ensures pelQueue == old(pelQueue) + sentPELs
      ensures pels == N.Renewed(old(pels), sentPELs)
    {
      var i := 0;
      assert pels == N.Renewed(old(pels), []);
      while i < |sentPELs|
        invariant i <= |sentPELs|
        invariant pelQueue == old(pelQueue) + sentPELs[..i]
        invariant pels == N.Renewed(old(pels), sentPELs[..i])
      {
        RenewedSnoc(old(pels), sentPELs[..i], sentPELs[i]);
        assert sentPELs[..i + 1] == sentPELs[..i] + [sentPELs[i]];
        pelQueue := pelQueue + [sentPELs[i]];
        SetPELHostTransState(sentPELs[i], NewPEL);
        i := i + 1;
      }
      assert sentPELs[..i] == sentPELs;
    }

    static lemma RenewedSnoc(pels: map<N.Id, N.Pel>, ids: seq<N.Id>, id: N.Id)
      ensures N.Renewed(pels, ids + [id]) == N.WithHostState(N.Renewed(pels, ids), id, NewPEL)
    {}

    method HostStateChange(up: bool, freeOk: bool)
      modifies this, hostIface
      ensures View() == N.HostStateChange(old(View()), up, freeOk)
    {
      if up {
        retryCount, hostFull := 0, false;
        if pelQueue != [] {
          hostUpTimer := true;
        }
      } else {
        HostDown(freeOk);
      }
    }

    /** The host went off: stop, and queue everything not acked for its return. */
    method HostDown(freeOk: bool)
      modifies this, hostIface
      ensures View() == N.HostDown(old(View()), freeOk)
    {
      hide N.Renewed, N.PutBack, N.Cancels, N.LinkAfterCancel;
      hostFull := false;
      var r := StopCommand(freeOk);
      if r.Thrown? {
        return;
      }
      Requeue();
    }

    /** Everything sent and not acked goes back, and the timers stop. */
    method Requeue()
      modifies this`pelQueue, this`pels, this`sentPELs, this`hostFullTimer, this`hostUpTimer
      ensures pelQueue == old(pelQueue) + old(sentPELs) && pels == N.Renewed(old(pels), old(sentPELs))
      ensures sentPELs == [] && !hostFullTimer && !hostUpTimer
    {
      hide N.Renewed;
      RequeueSent();
      sentPELs := [];
      if hostFullTimer {
        hostFullTimer := false;
      }
      if hostUpTimer {
        hostUpTimer := false;
      }
    }

    method CommandResponse(success: bool, ans: N.Answers)
      modifies this, hostIface
      ensures View() == N.CommandResponse(old(View()), success, ans)
    {
      hide N.DoNewLogNotify, N.WithHostState;
      var id := inProgressPEL;
      inProgressPEL := 0;
      if success {
        retryCount := 0;
        sentPELs := sentPELs + [id];
        SetPELHostTransState(id, Sent);
        if !hostFull && pelQueue != [] {
          DoNewLogNotify(ans);
        }
      } else {
        pelQueue := [id] + pelQueue;
        retryTimer := true;
      }
    }

    /** The receive callback, up to the response function it calls. */
    method Receive(status: Link.ResponseStatus, ans: N.Answers)
      modifies this, hostIface
      ensures View() == N.Receive(old(View()), status, ans)
    {
      hide Link.Step, N.CommandResponse;
      var out := hostIface.Receive(status, ans.freeOk);
      if out.Callback? {
        CommandResponse(status == Link.Succeeded, ans);
      }
    }

    method ReceiveTimerExpired(ans: N.Answers)
      modifies this, hostIface
      ensures View() == N.ReceiveTimerExpired(old(View()), ans)
    {
      hide Link.Step, N.CommandResponse;
      var _ := hostIface.ReceiveTimerExpired();
      CommandResponse(false, ans);
    }

    method RetryTimerExpired(ans: N.Answers)
      modifies this, hostIface
      ensures View() == N.RetryTimerExpired(old(View()), ans)
    {
      if hostUp {
        retryCount := retryCount + 1;
        DoNewLogNotify(ans);
      }
    }

    method AckPEL(id: N.Id)
      modifies this`pels, this`sentPELs, this`hostFull, this`hostFullTimer, this`dispatcher
      ensures View() == N.AckPEL(old(View()), id)
    {
      hide EraseFirst, N.WithHostState;
      SetPELHostTransState(id, Acked);
      sentPELs := FindAndErase(sentPELs, id);
      EndHostFull();
    }

    /** An ack means that the host is no longer full: sending starts again, from the event
        loop. */
    method EndHostFull()
      modifies this`hostFull, this`hostFullTimer, this`dispatcher
      ensures !hostFull && !hostFullTimer
      ensures dispatcher <==> old(dispatcher) || (old(hostFull) && pelQueue != [])
    {
      if hostFullTimer {
        hostFullTimer := false;
      }
      if hostFull {
        hostFull := false;
        if pelQueue != [] {
          dispatcher := true;
        }
      }
    }

    method SetHostFull(id: N.Id)
      modifies this`pels, this`sentPELs, this`pelQueue, this`hostFull, this`hostFullTimer
      ensures View() == N.SetHostFull(old(View()), id)
    {
      hide EraseFirst, N.WithHostState;
      hostFull := true;
      if id in sentPELs {
        sentPELs := FindAndErase(sentPELs, id);
        SetPELHostTransState(id, NewPEL);
        if id !in pelQueue {
          pelQueue := [id] + pelQueue;
        }
      }
      hostFullTimer := true;
    }

    method SetBadPEL(id: N.Id)
      modifies this`pels, this`sentPELs
      ensures View() == N.SetBadPEL(old(View()), id)
    {
      sentPELs := FindAndErase(sentPELs, id);
      SetPELHostTransState(id, BadPEL);
    }
  }
}
