/**
 `SystemClient` and its `DataSender` as one object: the methods that bring the connection up and down
 and send over it, with other goroutines running between any two of their atomic accesses. Every
 execution is a run of `Session`.
 */
module Client {
  import opened Session
  import opened Wrappers

  /** Whose event it is: the caller of Connect, the caller inside Disconnect, or one of the two loops. */
  datatype Role = Main | Sender | Receiver | Disconnecter | Newcomer

  function RoleOf(e: Event): Role {
    match e
    case ConnectSteps(_) => Main
    case ReceiverSteps(_) => Receiver
    case DisconnectSteps => Disconnecter
    case DisconnectEnters(_) => Newcomer
    case _ => Sender
  }

  /** The progress of one role, as far as the role itself relies on it. */
  predicate SameProgress(role: Role, s: Session, t: Session) {
    match role
    case Main => t.main == s.main
    case Sender => t.sender == s.sender
    case Receiver => t.receiver == s.receiver
    case Disconnecter => t.main == s.main && t.disconnect == s.disconnect && t.holder == s.holder
        && t.returned == s.returned
    case _ => true
  }

  predicate Started(role: Role, s: Session) {
    match role
    case Main => true
    case Sender => s.sender != SenderUnborn
    case Receiver => s.receiver != ReceiverUnborn
    case Disconnecter => s.main.ConnectReturned? && !s.disconnect.Idle?
    case _ => false
  }

  /** A goroutine that is under way moves by its own events only. */
  lemma OthersKeepProgress(role: Role, s: Session, e: Event)
    requires s.Inv() && Started(role, s) && RoleOf(e) != role && s.Step(e).Some?
    ensures SameProgress(role, s, s.Step(e).value) && Started(role, s.Step(e).value)
  {
    match e
    case ConnectSteps(dialOk) => ConnectMovesAlone(s, dialOk);
    case ReceiverSteps(readOk) => ReceiverMovesAlone(s, readOk);
    case DisconnectSteps => DisconnectMovesAlone(s);
    case DisconnectEnters(_) =>
    case _ => SenderMovesAlone(s, e);
  }

  ghost predicate NoneOf(role: Role, events: seq<Event>) {
    forall k :: 0 <= k < |events| ==> RoleOf(events[k]) != role
  }

  lemma {:induction false} MeanwhileKeepsProgress(role: Role, s: Session, events: seq<Event>)
    requires s.Inv() && Started(role, s) && NoneOf(role, events) && s.Run(events).Some?
    ensures SameProgress(role, s, s.Run(events).value) && Started(role, s.Run(events).value)
    decreases |events|
  {
    if events == [] {
    } else {
      var n := |events| - 1;
      MeanwhileKeepsProgress(role, s, events[..n]);
      RunKeepsInv(s, events[..n]);
      OthersKeepProgress(role, s.Run(events[..n]).value, events[n]);
    }
  }

  class SystemClient {
    var hasConn: bool         // dataSender.conn != nil
    var isConnected: bool
    var running: bool
    var senderDoneClosed: bool
    var clientDoneClosed: bool
    var isDisconnected: bool
    var senderMutexHeld: bool // by a Disconnect, from one access to the next
    var crashed: bool         // the process is gone
    ghost var log: seq<Event>  // everything all goroutines have done
    ghost var state: Session

    ghost predicate Valid()
      reads this
    {
      && NewSession().Run(log) == Some(state)
      && state.hasConn == hasConn && state.isConnected == isConnected && state.running == running
      && (state.senderDoneCloses > 0 <==> senderDoneClosed) && (state.clientDoneCloses > 0 <==> clientDoneClosed)
      && state.isDisconnected == isDisconnected && state.senderMutexHeld == senderMutexHeld
      && state.crashed == crashed
    }

    constructor ()
      ensures Valid() && log == []
    {
      hasConn, isConnected, running, isDisconnected := false, false, false, false;
      senderDoneClosed, clientDoneClosed, senderMutexHeld, crashed := false, false, false, false;
      log, state := [], NewSession();
    }

    /** Between two of its atomic accesses a goroutine loses control to any number of events of the others. */
    method Yield(role: Role)
      requires Valid()
      modifies this
      ensures Valid() && old(log) <= log && old(state).Run(log[|old(log)|..]) == Some(state)
      ensures NoneOf(role, log[|old(log)|..])
    {
      assert log[|log|..] == [];
    }

    ghost method Take(e: Event)
      requires NewSession().Run(log) == Some(state) && state.Step(e).Some?
      modifies this`state, this`log
      ensures log == old(log) + [e] && state == old(state).Step(e).value && NewSession().Run(log) == Some(state)
    {
      assert (log + [e])[..|log + [e]| - 1] == log;
      log, state := log + [e], state.Step(e).value;
    }

    /** Control comes back where the goroutine was, unless the process has died meanwhile. */
    method Resume(role: Role)
      requires Valid() && Started(role, state)
      modifies this
      ensures Valid() && old(log) <= log && SameProgress(role, old(state), state) && Started(role, state)
    {
      ghost var before := state;
      RunKeepsInv(NewSession(), log);
      Yield(role);
      MeanwhileKeepsProgress(role, before, log[|old(log)|..]);
    }

    // ---- SystemClient.Connect ----

    /** An access of Connect that writes no field: the collector's start, and the send loop's. */
    method ConnectOn()
      requires Valid() && (state.main.StartCollector? || state.main.SpawnSender?)
      modifies this`state, this`log
      ensures Valid() && log == old(log) + [ConnectSteps(true)]
      ensures state.main == if old(state).main.StartCollector? then Dial else ConnectReturned(true)
    {
      AliveUntilConnected(log, state);
      Take(ConnectSteps(true));
    }

    method DialServer(dialOk: bool)
      requires Valid() && state.main.Dial?
      modifies this
      ensures Valid() && old(log) <= log && state.main == if dialOk then StoreConnected else ConnectReturned(false)
    {
      AliveUntilConnected(log, state);
      Take(ConnectSteps(dialOk));
      if dialOk {
        hasConn := true;
      }
    }

    method RaiseConnected()
      requires Valid() && state.main.StoreConnected?
      modifies this
      ensures Valid() && old(log) <= log && state.main == ConnectPc.SpawnReceiver
    {
      AliveUntilConnected(log, state);
      Take(ConnectSteps(true));
      isConnected := true;
    }

    /** The test of `StartSending`: the loop is not running yet, so it will be started. */
    method TestNotRunning() returns (already: bool)
      requires Valid() && state.main.LoadRunning?
      modifies this
      ensures Valid() && old(log) <= log && !already && state.main == StoreRunning
    {
      AliveUntilConnected(log, state);
      already := running;
      Take(ConnectSteps(true));
    }

    method RaiseRunning()
      requires Valid() && state.main.StoreRunning?
      modifies this
      ensures Valid() && old(log) <= log && state.main == SpawnSender
    {
      AliveUntilConnected(log, state);
      Take(ConnectSteps(true));
      running := true;
    }

    method StartSending()
      requires Valid() && state.main.LoadRunning?
      modifies this
      ensures Valid() && old(log) <= log && state.main == ConnectReturned(true)
      ensures !old(running) && old(state).sendLoops == 0
      ensures running && state.sendLoops == 1
    {
      OneLoopPerConnect(log, state);
      AliveUntilConnected(log, state);
      var already := TestNotRunning();
      if already {
        return;
      }
      Resume(Main);
      RaiseRunning();
      Resume(Main);
      AliveUntilConnected(log, state);
      ConnectOn();
      OneLoopPerConnect(log, state);
    }

    /** `DataSender.Connect`. */
    method ConnectSender(dialOk: bool) returns (connected: bool)
      requires Valid() && state.main.Dial?
      modifies this
      ensures Valid() && old(log) <= log && connected == dialOk
      ensures state.main == if connected then LoadRunning else ConnectReturned(false)
      ensures connected ==> hasConn && isConnected && state.receiver == Polling
      ensures !connected ==> !hasConn && !isConnected && state.receiver == ReceiverUnborn
    {
      DialServer(dialOk);
      if !dialOk {
        NothingWithoutDial(log, state);
        return false;
      }
      Resume(Main);
      RaiseConnected();
      Resume(Main);
      SpawnReceiver();
      return true;
    }

    /** The receive loop starts on a connection that is there and marked so. */
    method SpawnReceiver()
      requires Valid() && state.main == ConnectPc.SpawnReceiver
      modifies this`state, this`log
      ensures Valid() && old(log) <= log && state.main == LoadRunning && state.receiver == Polling
      ensures hasConn && isConnected
    {
      AliveUntilConnected(log, state);
      UpBeforeReceiver(log, state);
      Take(ConnectSteps(true));
    }

    /** The whole call; `dialOk` is what the dial comes to. It leaves exactly one send loop behind, or none. */
    method Connect(dialOk: bool) returns (connected: bool)
      requires Valid() && state.main.StartCollector?
      modifies this
      ensures Valid() && old(log) <= log
      ensures connected == dialOk && state.main == ConnectReturned(connected)
      ensures state.sendLoops == if connected then 1 else 0
    {
      ConnectOn();
      Resume(Main);
      connected := ConnectSender(dialOk);
      if connected {
        Resume(Main);
        StartSending();
      }
      OneLoopPerConnect(log, state);
    }

    // ---- SystemClient.Disconnect ----

    ghost predicate At(pc: DisconnectPc)
      reads this
    {
      Valid() && !crashed && state.main.ConnectReturned? && state.disconnect == pc
    }

    /** A caller that finds the mutex free takes it. */
    method Enter(caller: CallerId)
      requires At(Idle) && caller !in state.returned
      modifies this`state, this`log
      ensures At(TestOnce) && old(log) <= log && state.holder == caller
    {
      Take(DisconnectEnters(caller));
    }

    method TestDisconnected() returns (already: bool)
      requires At(TestOnce)
      modifies this`state, this`log
      ensures old(log) <= log && already == isDisconnected
      ensures already ==> At(Idle) && old(state).holder in state.returned
      ensures !already ==> At(SetOnce) && state.holder == old(state).holder
    {
      already := isDisconnected;
      MutexNotYetHeld(log, state);
      Take(DisconnectSteps);
    }

    method MarkDisconnected()
      requires At(SetOnce)
      modifies this
      ensures At(TestRunning) && old(log) <= log && state.holder == old(state).holder
    {
      Take(DisconnectSteps);
      isDisconnected := true;
    }

    method ReadRunning() returns (up: bool)
      requires At(TestRunning)
      modifies this`state, this`log
      ensures At(if up then ClearRunning else LockSender) && old(log) <= log && state.holder == old(state).holder
    {
      up := running;
      Take(DisconnectSteps);
    }

    method LowerRunning()
      requires At(ClearRunning)
      modifies this
      ensures At(CloseSenderDone) && old(log) <= log && state.holder == old(state).holder
    {
      Take(DisconnectSteps);
      running := false;
    }

    /** `close(ds.senderDone)`: it is still open, so this does not panic. */
    method StopSendLoop()
      requires At(CloseSenderDone)
      modifies this
      ensures At(LockSender) && old(log) <= log && state.holder == old(state).holder
      ensures !old(senderDoneClosed) && senderDoneClosed
    {
      ChannelsStillOpen(log, state);
      Take(DisconnectSteps);
      senderDoneClosed := true;
    }

    method TakeSenderMutex()
      requires At(LockSender)
      modifies this
      ensures At(TestConnected) && old(log) <= log && state.holder == old(state).holder
    {
      Take(DisconnectSteps);
      senderMutexHeld := true;
    }

    method ReadConnected() returns (up: bool)
      requires At(TestConnected)
      modifies this`state, this`log
      ensures At(if up then CloseClientDone else UnlockSender) && old(log) <= log && state.holder == old(state).holder
    {
      up := isConnected;
      Take(DisconnectSteps);
    }

    /** `close(ds.clientDone)`, open likewise. */
    method StopReceiveLoop()
      requires At(CloseClientDone)
      modifies this
      ensures At(DropConn) && old(log) <= log && state.holder == old(state).holder
      ensures !old(clientDoneClosed) && clientDoneClosed
    {
      ChannelsStillOpen(log, state);
      Take(DisconnectSteps);
      clientDoneClosed := true;
    }

    /** The connection is closed and forgotten, if it is there. */
    method CloseConn()
      requires At(DropConn)
      modifies this
      ensures At(ClearConnected) && old(log) <= log && state.holder == old(state).holder
    {
      Take(DisconnectSteps);
      if hasConn {
        hasConn := false;
      }
    }

    method LowerConnected()
      requires At(ClearConnected)
      modifies this
      ensures At(UnlockSender) && old(log) <= log && state.holder == old(state).holder
      ensures clientDoneClosed && !hasConn && !isConnected
    {
      StageFacts(log, state);
      Take(DisconnectSteps);
      isConnected := false;
    }

    /** Both mutexes are released and the call returns. */
    method Unlock()
      requires At(UnlockSender)
      modifies this
      ensures At(Idle) && old(log) <= log && old(state).holder in state.returned
    {
      Take(DisconnectSteps);
      senderMutexHeld := false;
    }

    /** The active Disconnect goes on where it was, if the process is still there. */
    method Continue(pc: DisconnectPc) returns (alive: bool)
      requires At(pc) && pc != Idle
      modifies this
      ensures Valid() && old(log) <= log && alive == !crashed
      ensures alive ==> At(pc) && state.holder == old(state).holder
    {
      Resume(Disconnecter);
      alive := !crashed;
    }

    method StopSending() returns (alive: bool)
      requires At(TestRunning)
      modifies this
      ensures Valid() && old(log) <= log && alive == !crashed
      ensures alive ==> At(LockSender) && state.holder == old(state).holder
      ensures !old(senderDoneClosed)
      ensures alive ==> !running && senderDoneClosed == (state.sendLoops > 0)
    {
      ChannelsStillOpen(log, state);
      var up := ReadRunning();
      alive := true;
      if up {
        alive := StopRunning();
      }
      if alive {
        StageFacts(log, state);
      }
    }

    /** The store and the close, once the flag has been found up. */
    method StopRunning() returns (alive: bool)
      requires At(ClearRunning)
      modifies this
      ensures Valid() && old(log) <= log && alive == !crashed
      ensures alive ==> At(LockSender) && state.holder == old(state).holder
    {
      alive := Continue(ClearRunning);
      if alive {
        LowerRunning();
        alive := Continue(CloseSenderDone);
        if alive {
          StopSendLoop();
        }
      }
    }

    /** `DataSender.Disconnect`. */
    method DisconnectSender() returns (alive: bool)
      requires At(LockSender)
      modifies this
      ensures Valid() && old(log) <= log && alive == !crashed
      ensures alive ==> At(UnlockSender) && state.holder == old(state).holder
      ensures alive ==> !isConnected && (clientDoneClosed ==> !hasConn)
    {
      TakeSenderMutex();
      alive := Continue(TestConnected);
      if alive {
        var up := ReadConnected();
        if up {
          alive := CloseConnection();
        }
        if alive {
          StageFacts(log, state);
        }
      }
    }

    method CloseConnection() returns (alive: bool)
      requires At(CloseClientDone)
      modifies this
      ensures Valid() && old(log) <= log && alive == !crashed
      ensures alive ==> At(UnlockSender) && state.holder == old(state).holder
      ensures alive ==> clientDoneClosed && !hasConn && !isConnected
    {
      alive := Continue(CloseClientDone);
      if alive {
        StopReceiveLoop();
        alive := ForgetConnection();
      }
    }

    method ForgetConnection() returns (alive: bool)
      requires At(DropConn)
      modifies this
      ensures Valid() && old(log) <= log && alive == !crashed
      ensures alive ==> At(UnlockSender) && state.holder == old(state).holder
      ensures alive ==> clientDoneClosed && !hasConn && !isConnected
    {
      alive := Continue(DropConn);
      if alive {
        CloseConn();
        alive := Continue(ClearConnected);
        if alive {
          LowerConnected();
        }
      }
    }

    /**
     The whole call by a caller that finds the mutex free. Unless the process dies under it, the connection
     is down when it returns, and the send loop has been told to stop if there is one.
     */
    method Disconnect(caller: CallerId)
      requires At(Idle) && caller !in state.returned
      modifies this
      ensures Valid() && old(log) <= log
      ensures !crashed ==> At(Idle) && caller in state.returned
      ensures !crashed ==> isDisconnected && !isConnected && !running && senderDoneClosed == (state.sendLoops > 0)
    {
      Enter(caller);
      var alive := Continue(TestOnce);
      if alive {
        var already := TestDisconnected();
        if !already {
          alive := DisconnectOnce();
        }
      }
      if alive {
        ReturnedMeansDown(log, state);
      }
    }

    method DisconnectOnce() returns (alive: bool)
      requires At(SetOnce)
      modifies this
      ensures Valid() && old(log) <= log && alive == !crashed
      ensures alive ==> At(Idle) && old(state).holder in state.returned
    {
      alive := Continue(SetOnce);
      if alive {
        MarkDisconnected();
        alive := Continue(TestRunning);
        if alive {
          alive := TearDown();
        }
      }
    }

    /** `StopSending`, then `DataSender.Disconnect`. */
    method TearDown() returns (alive: bool)
      requires At(TestRunning)
      modifies this
      ensures Valid() && old(log) <= log && alive == !crashed
      ensures alive ==> At(Idle) && old(state).holder in state.returned
    {
      alive := StopSending();
      if alive {
        alive := Continue(LockSender);
        if alive {
          alive := DisconnectSender();
          if alive {
            Unlock();
          }
        }
      }
    }

    // ---- One send of the send loop ----

    /** What a send's outcome says about the process, the connection and the last write. */
    ghost predicate After(outcome: Sending, writeOk: bool)
      reads this
    {
      match outcome
      case Sent =>
        writeOk && !crashed && state.sender == Selecting && hasConn && log != [] && log[|log| - 1] == SenderWrites(true)
      case NotSent => !crashed && state.sender == Selecting
      case WaitingForMutex => !crashed && state.sender == Cleared && senderMutexHeld
      case Died => crashed
    }

    /**
     `sendMetrics`, up to the point where it needs the mutex: it is left waiting when a Disconnect holds it.
     A cleared send that finds the connection gone takes the process down.
     */
    method SendMetrics(marshalOk: bool, writeOk: bool) returns (outcome: Sending)
      requires Valid() && !crashed && state.sender == Checking
      modifies this
      ensures Valid() && old(log) <= log && After(outcome, writeOk) && (outcome.Sent? ==> marshalOk)
      ensures outcome.NotSent? ==> !marshalOk || !writeOk || !isConnected
    {
      var up := CheckConnection();
      if up {
        outcome := SendCleared(marshalOk, writeOk);
      } else {
        outcome := if crashed then Died else NotSent;
      }
    }

    method SendCleared(marshalOk: bool, writeOk: bool) returns (outcome: Sending)
      requires Valid() && !crashed && state.sender == Cleared
      modifies this
      ensures Valid() && old(log) <= log && After(outcome, writeOk) && (outcome.Sent? ==> marshalOk)
      ensures outcome.NotSent? ==> !marshalOk || !writeOk
    {
      if marshalOk {
        outcome := WriteUnderMutex(writeOk);
      } else {
        DropUnmarshalled();
        outcome := NotSent;
      }
    }

    method CheckConnection() returns (up: bool)
      requires Valid() && !crashed && state.sender == Checking
      modifies this
      ensures Valid() && old(log) <= log
      ensures if up then !crashed && state.sender == Cleared else crashed || (state.sender == Selecting && !isConnected)
    {
      Resume(Sender);
      if crashed {
        return false;
      }
      up := isConnected;
      Take(SenderChecks);
    }

    method DropUnmarshalled()
      requires Valid() && !crashed && state.sender == Cleared
      modifies this`state, this`log
      ensures Valid() && old(log) <= log && state.sender == Selecting
    {
      Take(SenderMarshalFails);
    }

    method WriteUnderMutex(writeOk: bool) returns (outcome: Sending)
      requires Valid() && !crashed && state.sender == Cleared
      modifies this
      ensures Valid() && old(log) <= log && After(outcome, writeOk) && (outcome.NotSent? ==> !writeOk)
    {
      Resume(Sender);
      if crashed {
        return Died;
      }
      if senderMutexHeld {
        return WaitingForMutex;
      }
      Take(SenderWrites(writeOk));
      if !hasConn {
        crashed := true;
        return Died;
      }
      return if writeOk then Sent else NotSent;
    }

    // ---- One turn of the receive loop ----

    ghost predicate ReceiverAt(pc: ReceiverPc)
      reads this
    {
      Valid() && !crashed && state.receiver == pc
    }

    /**
     `readOk` is what the read comes to. The loop ends on the done channel or on a failed read, which lowers the
     flag.
     */
    method ReceiveTurn(readOk: bool) returns (again: bool)
      requires ReceiverAt(Polling)
      modifies this
      ensures Valid() && old(log) <= log
      ensures again ==> ReceiverAt(Polling)
      ensures !again && !crashed ==>
                state.receiver == ReceiverExited && (clientDoneClosed || (!readOk && !isConnected))
    {
      var done := PollDone();
      if done {
        return false;
      }
      Resume(Receiver);
      if crashed {
        return false;
      }
      var present := TestConn();
      if !present {
        return true;
      }
      again := ReadMessage(readOk);
    }

    method PollDone() returns (done: bool)
      requires ReceiverAt(Polling)
      modifies this`state, this`log
      ensures ReceiverAt(if done then ReceiverExited else TestingNil) && old(log) <= log && done == clientDoneClosed
    {
      done := clientDoneClosed;
      Take(ReceiverSteps(true));
    }

    method TestConn() returns (present: bool)
      requires ReceiverAt(TestingNil)
      modifies this`state, this`log
      ensures ReceiverAt(if present then LoadingConn else Polling) && old(log) <= log && present == hasConn
    {
      present := hasConn;
      Take(ReceiverSteps(true));
    }

    /** The pointer is loaded again for the call, after the test. */
    method LoadConn()
      requires ReceiverAt(LoadingConn)
      modifies this
      ensures Valid() && old(log) <= log && crashed == !hasConn
      ensures !crashed ==> ReceiverAt(Reading)
    {
      Take(ReceiverSteps(true));
      crashed := !hasConn;
    }

    method ReadMessage(readOk: bool) returns (again: bool)
      requires ReceiverAt(LoadingConn)
      modifies this
      ensures Valid() && old(log) <= log
      ensures again ==> ReceiverAt(Polling)
      ensures !again ==> crashed || (state.receiver == ReceiverExited && !readOk && !isConnected)
    {
      Resume(Receiver);
      if crashed {
        return false;
      }
      LoadConn();
      if crashed {
        return false;
      }
      Resume(Receiver);
      if crashed {
        return false;
      }
      FinishRead(readOk);
      if readOk {
        return true;
      }
      Resume(Receiver);
      if crashed {
        return false;
      }
      LowerOnFailure();
      return false;
    }

    method FinishRead(readOk: bool)
      requires ReceiverAt(Reading)
      modifies this`state, this`log
      ensures ReceiverAt(if readOk then Polling else ReadFailed) && old(log) <= log
    {
      Take(ReceiverSteps(readOk));
    }

    method LowerOnFailure()
      requires ReceiverAt(ReadFailed)
      modifies this
      ensures ReceiverAt(ReceiverExited) && old(log) <= log && !isConnected
    {
      Take(ReceiverSteps(true));
      isConnected := false;
    }
  }

  datatype Sending = Sent | NotSent | WaitingForMutex | Died

  /** The process cannot die before Connect has returned. */
  lemma AliveUntilConnected(log: seq<Event>, s: Session)
    requires NewSession().Run(log) == Some(s) && !s.main.ConnectReturned?
    ensures !s.crashed && !s.isDisconnected && s.disconnect.Idle?
    ensures s.running == s.main.SpawnSender?
  {
    RunKeepsInv(NewSession(), log);
  }

  lemma OneLoopPerConnect(log: seq<Event>, s: Session)
    requires NewSession().Run(log) == Some(s)
    ensures s.sendLoops == if s.main == ConnectReturned(true) then 1 else 0
  {
    RunKeepsInv(NewSession(), log);
  }

  lemma UpBeforeReceiver(log: seq<Event>, s: Session)
    requires NewSession().Run(log) == Some(s) && s.main.SpawnReceiver?
    ensures s.hasConn && s.isConnected
  {
    RunKeepsInv(NewSession(), log);
  }

  lemma NothingWithoutDial(log: seq<Event>, s: Session)
    requires NewSession().Run(log) == Some(s) && s.main == ConnectReturned(false)
    ensures !s.hasConn && !s.isConnected && s.receiver == ReceiverUnborn
  {
    RunKeepsInv(NewSession(), log);
  }

  /** Where the active Disconnect stands tells what is down already. */
  lemma StageFacts(log: seq<Event>, s: Session)
    requires NewSession().Run(log) == Some(s)
    ensures s.disconnect.LockSender? ==> !s.running && s.senderDoneCloses == s.sendLoops
    ensures s.disconnect.ClearConnected? ==> s.clientDoneCloses > 0 && !s.hasConn
    ensures s.disconnect.UnlockSender? ==> !s.isConnected && (s.clientDoneCloses > 0 ==> !s.hasConn)
  {
    RunKeepsInv(NewSession(), log);
  }

  lemma MutexNotYetHeld(log: seq<Event>, s: Session)
    requires NewSession().Run(log) == Some(s) && s.disconnect.TestOnce?
    ensures !s.senderMutexHeld
  {
    RunKeepsInv(NewSession(), log);
  }

  /** Whoever gets to close a channel finds it open. */
  lemma ChannelsStillOpen(log: seq<Event>, s: Session)
    requires NewSession().Run(log) == Some(s)
    ensures s.disconnect.TestRunning? || s.disconnect.CloseSenderDone? ==> s.senderDoneCloses == 0
    ensures s.disconnect.CloseClientDone? ==> s.clientDoneCloses == 0
  {
    RunKeepsInv(NewSession(), log);
  }

  lemma ReturnedMeansDown(log: seq<Event>, s: Session)
    requires NewSession().Run(log) == Some(s) && s.returned != {}
    ensures s.isDisconnected && !s.isConnected && !s.running && s.senderDoneCloses == s.sendLoops
  {
    RunKeepsInv(NewSession(), log);
  }
}
