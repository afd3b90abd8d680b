/**
 The connection lifecycle: the goroutine that calls `SystemClient.Connect`, the send loop, the
 receive loop, and any number of `SystemClient.Disconnect` callers. An event is one atomic
 access: an atomic load or store, a lock section, a channel operation, or one access to the
 connection pointer. What the send loop does with the queue is in module `Agent`.
 */
module Session {
  import opened Wrappers

  type CallerId = nat

  /** SystemClient.Connect, with DataSender.Connect and StartSending inlined. */
  datatype ConnectPc =
    | StartCollector | Dial | StoreConnected | SpawnReceiver | LoadRunning | StoreRunning | SpawnSender
    | ConnectReturned(connected: bool)

  /** `Cleared` is a send that is past its connection check and has not yet written. */
  datatype SenderPc = SenderUnborn | Selecting | Popping | Checking | Cleared | SenderExited

  datatype ReceiverPc = ReceiverUnborn | Polling | TestingNil | LoadingConn | Reading | ReadFailed | ReceiverExited

  /** SystemClient.Disconnect under its mutex, with StopSending and DataSender.Disconnect inlined. */
  datatype DisconnectPc =
    | Idle | TestOnce | SetOnce | TestRunning | ClearRunning | CloseSenderDone
    | LockSender | TestConnected | CloseClientDone | DropConn | ClearConnected | UnlockSender

  datatype Event =
    | ConnectSteps(dialOk: bool)
    | SenderSeesDone
    | SenderTick
    | SenderPops(found: bool)
    | SenderChecks
    | SenderMarshalFails
    | SenderWrites(ok: bool)
    | ReceiverSteps(readOk: bool)
    | DisconnectEnters(caller: CallerId)
    | DisconnectSteps

  datatype Session = Session(
    main: ConnectPc,
    sender: SenderPc,
    sendLoops: nat,            // send loops ever started
    receiver: ReceiverPc,
    hasConn: bool,             // ds.conn != nil
    isConnected: bool,
    running: bool,
    senderDoneCloses: nat,     // times each done channel has been closed
    clientDoneCloses: nat,
    senderMutexHeld: bool,     // by a Disconnect; a send holds it only within SenderWrites
    isDisconnected: bool,
    holder: CallerId,          // who holds SystemClient's mutex, unless disconnect is Idle
    disconnect: DisconnectPc,  // how far the holder has come
    returned: set<CallerId>,   // Disconnect callers that have returned
    writesAfterReturn: nat,    // write attempts made when some Disconnect had returned
    crashed: bool              // some goroutine panicked, which ends the process
  )
  {
    /** The next access of Connect; `dialOk` matters only to the dial. */
    function ConnectStep(dialOk: bool): Option<Session> {
      match main
      case StartCollector => Some(this.(main := Dial))
      case Dial =>
        if dialOk then Some(this.(main := StoreConnected, hasConn := true))
        else Some(this.(main := ConnectReturned(false)))
      case StoreConnected => Some(this.(main := SpawnReceiver, isConnected := true))
      case SpawnReceiver => Some(this.(main := LoadRunning, receiver := Polling))
      case LoadRunning => Some(this.(main := if running then ConnectReturned(true) else StoreRunning))
      case StoreRunning => Some(this.(main := SpawnSender, running := true))
      case SpawnSender =>
        Some(this.(main := ConnectReturned(true), sender := Selecting, sendLoops := sendLoops + 1))
      case ConnectReturned(_) => None
    }

    function SenderStep(e: Event): Option<Session> {
      match e
      case SenderSeesDone =>
        if sender == Selecting && senderDoneCloses > 0 then Some(this.(sender := SenderExited)) else None
      case SenderTick => if sender == Selecting then Some(this.(sender := Popping)) else None
      case SenderPops(found) =>
        if sender == Popping then Some(this.(sender := if found then Checking else Selecting)) else None
      case SenderChecks =>
        if sender == Checking then Some(this.(sender := if isConnected then Cleared else Selecting)) else None
      case SenderMarshalFails => if sender == Cleared then Some(this.(sender := Selecting)) else None
      case SenderWrites(_) =>
        if sender != Cleared || senderMutexHeld then None
        else
          var attempts := writesAfterReturn + (if returned != {} then 1 else 0);
          if hasConn then Some(this.(sender := Selecting, writesAfterReturn := attempts))
          else Some(this.(crashed := true, writesAfterReturn := attempts))
      case _ => None
    }

    function ReceiverStep(readOk: bool): Option<Session> {
      match receiver
      case Polling => Some(this.(receiver := if clientDoneCloses > 0 then ReceiverExited else TestingNil))
      case TestingNil => Some(this.(receiver := if hasConn then LoadingConn else Polling))
      case LoadingConn => if hasConn then Some(this.(receiver := Reading)) else Some(this.(crashed := true))
      case Reading => Some(this.(receiver := if readOk then Polling else ReadFailed))
      case ReadFailed => Some(this.(receiver := ReceiverExited, isConnected := false))
      case _ => None
    }

    /** The active Disconnect returns and releases its mutexes. */
    function Leave(): Session {
      this.(disconnect := Idle, returned := returned + {holder}, senderMutexHeld := false)
    }

    function DisconnectStep(): Option<Session> {
      match disconnect
      case Idle => None
      case TestOnce => Some(if isDisconnected then Leave() else this.(disconnect := SetOnce))
      case SetOnce => Some(this.(isDisconnected := true, disconnect := TestRunning))
      case TestRunning => Some(this.(disconnect := if running then ClearRunning else LockSender))
      case ClearRunning => Some(this.(running := false, disconnect := CloseSenderDone))
      case CloseSenderDone =>
        Some(this.(senderDoneCloses := senderDoneCloses + 1, crashed := senderDoneCloses > 0, disconnect := LockSender))
      case LockSender => Some(this.(senderMutexHeld := true, disconnect := TestConnected))
      case TestConnected => Some(this.(disconnect := if isConnected then CloseClientDone else UnlockSender))
      case CloseClientDone =>
        Some(this.(clientDoneCloses := clientDoneCloses + 1, crashed := clientDoneCloses > 0, disconnect := DropConn))
      case DropConn => Some(this.(hasConn := false, disconnect := ClearConnected))
      case ClearConnected => Some(this.(isConnected := false, disconnect := UnlockSender))
      case UnlockSender => Some(Leave())
    }

    /** `None` when the event cannot happen now. */
    function Step(e: Event): Option<Session> {
      if crashed then None
      else
        match e
        case ConnectSteps(dialOk) => ConnectStep(dialOk)
        case ReceiverSteps(readOk) => ReceiverStep(readOk)
        case DisconnectEnters(caller) =>
          if main.ConnectReturned? && disconnect.Idle? && caller !in returned
          then Some(this.(holder := caller, disconnect := TestOnce))
          else None
        case DisconnectSteps => DisconnectStep()
        case _ => SenderStep(e)
    }

    function Run(events: seq<Event>): Option<Session>
      decreases |events|
    {
      if events == [] then Some(this)
      else
        match Run(events[..|events| - 1])
        case None => None
        case Some(before) => before.Step(events[|events| - 1])
    }

    // ---- Invariants ----

    /** How far the active Disconnect has come; 0 when none is past the one-shot test. */
    function Stage(): nat {
      match disconnect
      case Idle => 0
      case TestOnce => 0
      case SetOnce => 1
      case TestRunning => 2
      case ClearRunning => 3
      case CloseSenderDone => 4
      case LockSender => 5
      case TestConnected => 6
      case CloseClientDone => 7
      case DropConn => 8
      case ClearConnected => 9
      case UnlockSender => 10
    }

    /** The send loop has popped a metric and not finished with it. */
    predicate HoldsMetric() {
      sender == Checking || sender == Cleared
    }

    predicate Dialled() {
      !main.StartCollector? && !main.Dial? && main != ConnectReturned(false)
    }

    ghost predicate ConnectInv() {
      && (!main.ConnectReturned? ==>
         disconnect.Idle? && !isDisconnected && returned == {} && running == main.SpawnSender?)
      && (main.ConnectReturned? && !isDisconnected ==> running == main.connected)
      && (sender.SenderUnborn? <==> sendLoops == 0)
      && sendLoops == (if main == ConnectReturned(true) then 1 else 0)
      && (receiver.ReceiverUnborn? <==> !Dialled() || main.StoreConnected? || main.SpawnReceiver?)
      && (!Dialled() || main.StoreConnected? ==> !isConnected)
      && (main.SpawnReceiver? ==> isConnected)
      && (hasConn ==> Dialled())
    }

    /** Where the one Disconnect that passed the one-shot test stands decides every flag. */
    ghost predicate DisconnectInv() {
      var stage := Stage();
      && (isDisconnected <==> stage >= 2 || returned != {})
      && (stage >= 1 ==> returned == {})
      && (2 <= stage <= 4 ==> running == (stage <= 3 && main == ConnectReturned(true)))
      && (stage == 3 || stage == 4 ==> main == ConnectReturned(true))
      && (stage >= 5 || returned != {} ==> !running)
      && senderDoneCloses == (if (stage >= 5 || returned != {}) && main == ConnectReturned(true) then 1 else 0)
      && clientDoneCloses <= 1
      && (clientDoneCloses == 1 ==> stage >= 8 || returned != {})
      && (stage == 8 || stage == 9 ==> clientDoneCloses == 1)
      && (hasConn <==> Dialled() && (clientDoneCloses == 0 || stage == 8))
      && (7 <= stage <= 9 ==> Dialled())
      && (stage == 10 || returned != {} ==> !isConnected)
      && (senderMutexHeld <==> stage >= 6)
    }

    ghost predicate WriteInv() {
      && (returned == {} ==> writesAfterReturn == 0)
      && (returned != {} ==> writesAfterReturn + (if sender.Cleared? && !crashed then 1 else 0) <= 1)
      && (crashed ==> clientDoneCloses == 1 && !hasConn)
    }

    ghost predicate Inv() {
      ConnectInv() && DisconnectInv() && WriteInv()
    }
  }

  function NewSession(): Session {
    Session(StartCollector, SenderUnborn, 0, ReceiverUnborn, false, false, false, 0, 0, false, false, 0, Idle, {}, 0,
        false)
  }

  lemma ConnectKeepsInv(s: Session, dialOk: bool)
    requires s.Inv() && !s.crashed && s.ConnectStep(dialOk).Some?
    ensures s.ConnectStep(dialOk).value.Inv()
  {
  }

  /** The send loop touches its own progress, the count of late writes and the crash flag; nothing else needs them. */
  lemma SenderFrame(s: Session, sender: SenderPc, attempts: nat, crashed: bool)
    requires s.Inv() && !s.crashed && !sender.SenderUnborn? && !s.sender.SenderUnborn?
    requires s.returned == {} ==> attempts == 0
    requires s.returned != {} ==> attempts + (if sender.Cleared? && !crashed then 1 else 0) <= 1
    requires crashed ==> s.clientDoneCloses == 1 && !s.hasConn
    ensures s.(sender := sender, writesAfterReturn := attempts, crashed := crashed).Inv()
  {
    assert s.(sender := sender, writesAfterReturn := attempts, crashed := crashed).Stage() == s.Stage();
  }

  lemma SenderKeepsInv(s: Session, e: Event)
    requires s.Inv() && !s.crashed && s.SenderStep(e).Some?
    ensures s.SenderStep(e).value.Inv()
  {
    var attempts := s.writesAfterReturn;
    match e
    case SenderSeesDone => SenderFrame(s, SenderExited, attempts, false);
    case SenderTick => SenderFrame(s, Popping, attempts, false);
    case SenderPops(found) => SenderFrame(s, if found then Checking else Selecting, attempts, false);
    case SenderChecks => SenderFrame(s, if s.isConnected then Cleared else Selecting, attempts, false);
    case SenderMarshalFails => SenderFrame(s, Selecting, attempts, false);
    case SenderWrites(_) =>
      SenderFrame(s, if s.hasConn then Selecting else Cleared,
                  attempts + (if s.returned != {} then 1 else 0), !s.hasConn);
    case _ => assert false;
  }

  /** The receive loop can lower `isConnected` but never raise it; nothing else depends on it. */
  lemma ReceiverFrame(s: Session, receiver: ReceiverPc, up: bool, crashed: bool)
    requires s.Inv() && !s.crashed && (up ==> s.isConnected)
    requires !receiver.ReceiverUnborn? && !s.receiver.ReceiverUnborn?
    requires crashed ==> !s.hasConn
    ensures s.(receiver := receiver, isConnected := up, crashed := crashed).Inv()
  {
    assert s.(receiver := receiver, isConnected := up, crashed := crashed).Stage() == s.Stage();
  }

  lemma ReceiverKeepsInv(s: Session, readOk: bool)
    requires s.Inv() && !s.crashed && s.ReceiverStep(readOk).Some?
    ensures s.ReceiverStep(readOk).value.Inv()
  {
    match s.receiver
    case Polling =>
      ReceiverFrame(s, if s.clientDoneCloses > 0 then ReceiverExited else TestingNil, s.isConnected, false);
    case TestingNil => ReceiverFrame(s, if s.hasConn then LoadingConn else Polling, s.isConnected, false);
    case LoadingConn => ReceiverFrame(s, if s.hasConn then Reading else LoadingConn, s.isConnected, !s.hasConn);
    case Reading => ReceiverFrame(s, if readOk then Polling else ReadFailed, s.isConnected, false);
    case ReadFailed => ReceiverFrame(s, ReceiverExited, false, false);
  }

  lemma DisconnectKeepsInv(s: Session)
    requires s.Inv() && !s.crashed && s.DisconnectStep().Some?
    ensures s.DisconnectStep().value.Inv()
  {
    match s.disconnect
    case Idle => assert false;
    case TestOnce =>
    case SetOnce =>
    case TestRunning =>
    case ClearRunning =>
    case CloseSenderDone =>
    case LockSender =>
    case TestConnected =>
    case CloseClientDone =>
    case DropConn =>
    case ClearConnected =>
    case UnlockSender =>
  }

  lemma StepKeepsInv(s: Session, e: Event)
    requires s.Inv() && s.Step(e).Some?
    ensures s.Step(e).value.Inv()
  {
    match e
    case ConnectSteps(dialOk) => ConnectKeepsInv(s, dialOk);
    case ReceiverSteps(readOk) => ReceiverKeepsInv(s, readOk);
    case DisconnectSteps => DisconnectKeepsInv(s);
    case DisconnectEnters(_) =>
    case _ => SenderKeepsInv(s, e);
  }

  lemma {:induction false} RunKeepsInv(s: Session, events: seq<Event>)
    requires s.Inv() && s.Run(events).Some?
    ensures s.Run(events).value.Inv()
    decreases |events|
  {
    if events == [] {
    } else {
      RunKeepsInv(s, events[..|events| - 1]);
      StepKeepsInv(s.Run(events[..|events| - 1]).value, events[|events| - 1]);
    }
  }

  // ---- Each goroutine moves alone ----

  lemma DisconnectMovesAlone(s: Session)
    requires s.DisconnectStep().Some?
    ensures var next := s.DisconnectStep().value;
            next.main == s.main && next.sender == s.sender && next.receiver == s.receiver
  {
    match s.disconnect
    case Idle => assert false;
    case TestOnce =>
    case SetOnce =>
    case TestRunning =>
    case ClearRunning =>
    case CloseSenderDone =>
    case LockSender =>
    case TestConnected =>
    case CloseClientDone =>
    case DropConn =>
    case ClearConnected =>
    case UnlockSender =>
  }

  lemma DisconnectOnlyLowers(s: Session)
    requires s.DisconnectStep().Some?
    ensures s.DisconnectStep().value.isConnected ==> s.isConnected
    ensures s.returned <= s.DisconnectStep().value.returned
  {
    match s.disconnect
    case Idle => assert false;
    case TestOnce =>
    case SetOnce =>
    case TestRunning =>
    case ClearRunning =>
    case CloseSenderDone =>
    case LockSender =>
    case TestConnected =>
    case CloseClientDone =>
    case DropConn =>
    case ClearConnected =>
    case UnlockSender =>
  }

  lemma ReceiverMovesAlone(s: Session, readOk: bool)
    requires s.ReceiverStep(readOk).Some?
    ensures var next := s.ReceiverStep(readOk).value;
            && next.main == s.main && next.sender == s.sender && (next.isConnected ==> s.isConnected)
            && next.disconnect == s.disconnect && next.holder == s.holder && next.returned == s.returned
  {
    match s.receiver
    case Polling =>
    case TestingNil =>
    case LoadingConn =>
    case Reading =>
    case ReadFailed =>
    case _ => assert false;
  }

  lemma SenderMovesAlone(s: Session, e: Event)
    requires s.SenderStep(e).Some?
    ensures var next := s.SenderStep(e).value;
            && next.main == s.main && next.receiver == s.receiver && next.isConnected == s.isConnected
            && next.disconnect == s.disconnect && next.holder == s.holder && next.returned == s.returned
  {
    match e
    case SenderSeesDone =>
    case SenderTick =>
    case SenderPops(_) =>
    case SenderChecks =>
    case SenderMarshalFails =>
    case SenderWrites(_) =>
    case _ => assert false;
  }

  lemma ConnectMovesAlone(s: Session, dialOk: bool)
    requires s.Inv() && s.ConnectStep(dialOk).Some?
    ensures var next := s.ConnectStep(dialOk).value;
            && (s.sender != SenderUnborn ==> next.sender == s.sender)
            && (s.receiver != ReceiverUnborn ==> next.receiver == s.receiver)
            && !s.main.ConnectReturned?
  {
  }

  // ---- What every run guarantees ----

  /**
   In every run, with any number of concurrent Disconnect callers: neither done channel is closed
   twice, there is at most one send loop, at most one write is attempted after a Disconnect has
   returned, and by then sending has been told to stop and the connection flag is down for good.
   */
  lemma SafeLifecycle(events: seq<Event>)
    requires NewSession().Run(events).Some?
    ensures var s := NewSession().Run(events).value;
            && s.senderDoneCloses <= 1 && s.clientDoneCloses <= 1
            && s.sendLoops <= 1
            && s.writesAfterReturn <= 1
            && (s.returned != {} ==> !s.isConnected && !s.running && s.senderDoneCloses == s.sendLoops)
  {
    RunKeepsInv(NewSession(), events);
  }

  predicate Down(s: Session) {
    s.Dialled() && !s.main.StoreConnected? && !s.isConnected
  }

  lemma StaysDown(s: Session, e: Event)
    requires Down(s) && s.Step(e).Some?
    ensures Down(s.Step(e).value)
  {
    match e
    case ConnectSteps(_) =>
    case ReceiverSteps(readOk) => ReceiverMovesAlone(s, readOk);
    case DisconnectSteps =>
      DisconnectMovesAlone(s);
      DisconnectOnlyLowers(s);
    case DisconnectEnters(_) =>
    case _ => SenderMovesAlone(s, e);
  }

  /** Once the connection flag has gone down it stays down, whatever happens next. */
  lemma {:induction false} NeverReconnects(s: Session, events: seq<Event>)
    requires Down(s) && s.Run(events).Some?
    ensures Down(s.Run(events).value)
    decreases |events|
  {
    if events == [] {
    } else {
      NeverReconnects(s, events[..|events| - 1]);
      StaysDown(s.Run(events[..|events| - 1]).value, events[|events| - 1]);
    }
  }

  /**
   The exact crash condition. Closing a closed channel is never the cause; the process dies just
   when the connection has been dropped under a send that was already past its check, or under a
   receive between its nil test and its read.
   */
  lemma CrashesExactlyOnDroppedConn(events: seq<Event>, e: Event)
    requires NewSession().Run(events).Some? && NewSession().Run(events).value.Step(e).Some?
    ensures var s := NewSession().Run(events).value;
            && (s.Step(e).value.crashed <==>
                  && !s.hasConn
                  && ((e.SenderWrites? && s.sender.Cleared?) || (e.ReceiverSteps? && s.receiver.LoadingConn?)))
            && (s.Step(e).value.crashed ==> s.clientDoneCloses == 1)
  {
    RunKeepsInv(NewSession(), events);
    var s := NewSession().Run(events).value;
    match e
    case DisconnectSteps => ClosesOnce(s);
    case _ =>
  }

  /** A Disconnect finds the channels it closes open. */
  lemma ClosesOnce(s: Session)
    requires s.Inv() && !s.crashed && s.DisconnectStep().Some?
    ensures !s.DisconnectStep().value.crashed
  {
    match s.disconnect
    case CloseSenderDone => assert s.senderDoneCloses == 0;
    case CloseClientDone => assert s.clientDoneCloses == 0;
    case _ =>
  }

  /** A Disconnect is between taking and giving back the sender's mutex. */
  predicate UnderSenderMutex(pc: DisconnectPc) {
    pc.TestConnected? || pc.CloseClientDone? || pc.DropConn? || pc.ClearConnected? || pc.UnlockSender?
  }

  /** A cleared send can write in every state of every run, unless a Disconnect is under the same mutex. */
  lemma WritesExactlyOutsideMutex(events: seq<Event>, ok: bool)
    requires NewSession().Run(events).Some?
    ensures var s := NewSession().Run(events).value;
            s.Step(SenderWrites(ok)).Some? <==> !s.crashed && s.sender == Cleared && !UnderSenderMutex(s.disconnect)
  {
    RunKeepsInv(NewSession(), events);
  }

  lemma Extend(events: seq<Event>, s: Session, e: Event) returns (more: seq<Event>, next: Session)
    requires NewSession().Run(events) == Some(s) && s.Step(e).Some?
    ensures NewSession().Run(more) == Some(next) && next == s.Step(e).value
  {
    more, next := events + [e], s.Step(e).value;
    assert more[..|more| - 1] == events;
  }

  /** A successful Connect, left to itself. */
  lemma ConnectRun() returns (events: seq<Event>, s: Session)
    ensures NewSession().Run(events) == Some(s)
    ensures s == NewSession().(main := ConnectReturned(true), sender := Selecting, sendLoops := 1, receiver := Polling,
                               hasConn := true, isConnected := true, running := true)
  {
    s, events := NewSession(), [];
    for k := 0 to 7
      invariant NewSession().Run(events) == Some(s)
      invariant s == NewSession().(main := ConnectPcAt(k), hasConn := k >= 2, isConnected := k >= 3,
                                   receiver := if k >= 4 then Polling else ReceiverUnborn, running := k >= 6,
                                   sender := if k >= 7 then Selecting else SenderUnborn,
                                   sendLoops := if k >= 7 then 1 else 0)
    {
      events, s := Extend(events, s, ConnectSteps(true));
    }
  }

  /** The first `n` accesses of a Disconnect, the other goroutines staying where they are. */
  lemma DisconnectRun(before: seq<Event>, start: Session, n: nat) returns (events: seq<Event>, s: Session)
    requires NewSession().Run(before) == Some(start) && n <= 11
    requires start == NewSession().(
                        main := ConnectReturned(true), sender := start.sender, sendLoops := 1,
                        receiver := start.receiver, hasConn := true, isConnected := true, running := true)
    ensures NewSession().Run(events) == Some(s)
    ensures s.sender == start.sender && s.receiver == start.receiver && !s.crashed && s.writesAfterReturn == 0
    ensures s.disconnect == DisconnectPcAt(n) && s.hasConn == (n < 9) && s.senderMutexHeld == (6 <= n < 11)
    ensures s.returned == if n == 11 then {s.holder} else {}
  {
    events, s := before, start;
    events, s := Extend(events, s, DisconnectEnters(0));
    for k := 0 to n
      invariant NewSession().Run(events) == Some(s)
      invariant s.sender == start.sender && s.receiver == start.receiver
      invariant !s.crashed && s.writesAfterReturn == 0 && s.senderMutexHeld == (6 <= k < 11)
      invariant s.disconnect == DisconnectPcAt(k) && s.isDisconnected == (k >= 2) && s.isConnected == (k < 10)
      invariant s.running == (k < 4) && s.senderDoneCloses == (if k >= 5 then 1 else 0)
      invariant s.clientDoneCloses == (if k >= 8 then 1 else 0) && s.hasConn == (k < 9)
      invariant s.returned == if k == 11 then {s.holder} else {}
    {
      events, s := Extend(events, s, DisconnectSteps);
    }
  }

  /** The bound of one write is reached, and that write finds no connection: a run that ends in the crash. */
  lemma LateWriteCanHappen() returns (events: seq<Event>)
    ensures NewSession().Run(events).Some?
    ensures var s := NewSession().Run(events).value;
            s.returned != {} && s.writesAfterReturn == 1 && s.crashed
  {
    var s;
    events, s := ConnectRun();
    events, s := Extend(events, s, SenderTick);
    events, s := Extend(events, s, SenderPops(true));
    events, s := Extend(events, s, SenderChecks);
    events, s := DisconnectRun(events, s, 11);
    events, s := Extend(events, s, SenderWrites(true));
  }

  /** The other crash: the connection is dropped between the receive loop's nil test and its read. */
  lemma LateReadCanHappen() returns (events: seq<Event>)
    ensures NewSession().Run(events).Some?
    ensures var s := NewSession().Run(events).value;
            s.crashed && s.receiver == LoadingConn && s.disconnect == ClearConnected && s.writesAfterReturn == 0
  {
    var s;
    events, s := ConnectRun();
    events, s := Extend(events, s, ReceiverSteps(true));
    events, s := Extend(events, s, ReceiverSteps(true));
    events, s := DisconnectRun(events, s, 9);
    events, s := Extend(events, s, ReceiverSteps(true));
  }

  function ConnectPcAt(k: nat): ConnectPc {
    match k
    case 0 => StartCollector
    case 1 => Dial
    case 2 => StoreConnected
    case 3 => SpawnReceiver
    case 4 => LoadRunning
    case 5 => StoreRunning
    case 6 => SpawnSender
    case _ => ConnectReturned(true)
  }

  function DisconnectPcAt(k: nat): DisconnectPc {
    match k
    case 0 => TestOnce
    case 1 => SetOnce
    case 2 => TestRunning
    case 3 => ClearRunning
    case 4 => CloseSenderDone
    case 5 => LockSender
    case 6 => TestConnected
    case 7 => CloseClientDone
    case 8 => DropConn
    case 9 => ClearConnected
    case 10 => UnlockSender
    case _ => Idle
  }
}
