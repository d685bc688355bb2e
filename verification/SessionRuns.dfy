/** When a transaction session says COMMIT_UNKNOWN, in every run. */
module SessionRuns {
  import opened Session

  /** Between the observed completion of COMMIT's send and the processing of its OK. */
  predicate Window(s: State) {
    s.past.observed && !s.past.acknowledged
  }

  /** Phases in which nothing is being sent. */
  predicate Quiescent(p: Phase) {
    p.Ready? || p.CursorReady? || p.CursorRowReady? || WaitsForReceive(p)
  }

  /** What is being sent agrees with the phase. */
  predicate SendsMatch(s: State) {
    && (Quiescent(s.phase) ==> s.pending == NoSend)
    && (s.phase == LoggingIn ==> s.pending == NoSend || s.pending == Login)
    && (s.phase == WaitControlSend ==> s.pending == Control)
    && (s.phase == WaitPrepareSend ==> s.pending == Prepare)
    && (s.phase == WaitExecuteSend ==> s.pending == Execute)
    && (s.phase == WaitCloseSend ==> s.pending == CloseStatement)
  }

  /** Once a COMMIT is out, only its completion, its reply and the farewell remain. */
  predicate Committing(s: State) {
    && s.past.sends == 1 && s.txn.step == Commit && s.txn.action == Transaction
    && (s.phase.WaitControlSend? || s.phase.WaitControlReply? || s.phase.WaitQuitSend? || s.phase.Done? || s.phase.Failed?)
    && (s.pending == NoSend || s.pending == Control || s.pending == Quit)
    && (s.pending == Control ==> !s.past.observed)
    && (s.phase == WaitControlReply ==> Window(s))
    && (s.phase == Done || s.phase == WaitQuitSend || s.pending == Quit ==> s.past.acknowledged)
    && (s.past.acknowledged ==> s.past.observed && s.pending != Control)
    && (!s.past.acknowledged ==> s.txn.active && !s.rows.cancel)
    && (!s.past.observed ==> s.pending == Control)
    && (s.txn.commitWritten <==> Window(s))
    && (s.status == COMMIT_UNKNOWN ==> Window(s) && s.phase == Failed)
    && (Window(s) && s.phase == Failed ==> s.status == COMMIT_UNKNOWN || s.status == Error(SQL_ERROR) || s.status == Error(PROTOCOL))
  }

  /** Before any COMMIT is out; one that was refused has ended the session. */
  predicate NotCommitting(s: State) {
    && s.past.sends == 0 && !s.past.observed && !s.past.acknowledged && !s.txn.commitWritten && s.status != COMMIT_UNKNOWN
    && (s.txn.step == Commit ==> s.phase == Failed && s.pending == NoSend)
    && (s.txn.action == Cursor ==> s.txn.step == NoStep && !s.phase.WaitControlSend? && !s.phase.WaitControlReply? && s.pending != Control)
    && (s.rows.cancel ==> !s.txn.active && s.txn.action == Cursor)
    && (s.txn.action == Cursor && (s.phase.Done? || s.phase.WaitQuitSend? || s.pending == Quit) ==> !s.txn.active)
    && (s.phase == LoggingIn || s.pending == Login ==> s.txn.action == Transaction && s.txn.step != Commit)
  }

  predicate Invariant(s: State) {
    && SendsMatch(s)
    && (NotCommitting(s) || Committing(s))
  }

  /** The completion of a control statement, and of anything else, before any COMMIT is out. */
  lemma ControlSent(s: State)
    requires SendsMatch(s) && NotCommitting(s) && s.pending == Control
    ensures SendsMatch(OnSend(s)) && NotCommitting(OnSend(s))
  {
  }

  lemma StatementSent(s: State)
    requires SendsMatch(s) && NotCommitting(s) && (s.pending == Prepare || s.pending == Execute || s.pending == CloseStatement)
    ensures SendsMatch(OnSend(s)) && NotCommitting(OnSend(s))
  {
  }

  lemma OtherSent(s: State)
    requires SendsMatch(s) && NotCommitting(s) && (s.pending == Login || s.pending == Quit || s.pending == NoSend)
    ensures SendsMatch(OnSend(s)) && NotCommitting(OnSend(s))
  {
  }

  lemma SendBefore(s: State)
    requires SendsMatch(s) && NotCommitting(s)
    ensures SendsMatch(OnSend(s)) && NotCommitting(OnSend(s))
  {
    match s.pending
    case Control => ControlSent(s);
    case Prepare => StatementSent(s);
    case Execute => StatementSent(s);
    case CloseStatement => StatementSent(s);
    case _ => OtherSent(s);
  }

  lemma SendDuring(s: State)
    requires SendsMatch(s) && Committing(s)
    ensures SendsMatch(OnSend(s)) && Committing(OnSend(s))
  {
  }

  /** Sending anything but a COMMIT. */
  lemma PacketKeeps(s: State, phase: Phase, kind: Send, a: Admission)
    requires NotCommitting(s) && s.txn.step != Commit
    requires SendsMatch(s.(phase := phase, pending := kind)) && !Quiescent(phase) && phase != LoggingIn && kind != Login
    requires (s.txn.action == Cursor ==> phase != WaitControlSend && kind != Control) && phase != Done && phase != WaitQuitSend && kind != Quit
    ensures NotCommitting(SendPacket(s, phase, kind, a)) && SendsMatch(SendPacket(s, phase, kind, a))
  {
  }

  lemma ControlKeeps(s: State, a: Admission)
    requires Invariant(s) && s.phase == WaitControlReply
    ensures Invariant(ControlOk(s, a))
  {
    if s.txn.step == SetIsolation {
      PacketKeeps(s.(txn := s.txn.(step := Begin)), WaitControlSend, Control, a);
    } else if NotCommitting(s) {
      assert NotCommitting(ControlOk(s, a));
    } else {
      assert Committing(ControlOk(s, a));
    }
  }

  lemma ErrorKeeps(s: State, fault: Fault)
    requires Invariant(s) && (Window(s) ==> fault == SQL_ERROR || fault == PROTOCOL)
    ensures Invariant(SetError(s, Error(fault)))
  {
  }

  lemma TransportKeeps(s: State, fault: Fault)
    requires Invariant(s)
    ensures Invariant(SetTransportError(s, fault))
  {
  }

  predicate Before(s: State) {
    SendsMatch(s) && NotCommitting(s)
  }

  /** Going on to another phase in which nothing is sent. */
  lemma PhaseKeeps(s: State, phase: Phase, columns: bool)
    requires Before(s) && Quiescent(s.phase) && Quiescent(phase) && phase != WaitControlReply
    ensures Before(s.(phase := phase, rows := s.rows.(columns := columns))) && Before(s.(phase := phase))
  {
  }

  lemma FailKeeps(s: State)
    requires Before(s)
    ensures Before(SetError(s, Error(PROTOCOL)))
  {
  }

  lemma SendsKeep(s: State, a: Admission)
    requires Before(s) && Quiescent(s.phase)
    ensures Before(SendExecute(s, a)) && Before(SendClose(s, a))
  {
    PacketKeeps(s, WaitExecuteSend, Execute, a);
    PacketKeeps(s, WaitCloseSend, CloseStatement, a);
  }

  lemma PrepareOkKeeps(s: State, m: Message, a: Admission)
    requires Before(s) && Quiescent(s.phase)
    ensures Before(HandlePrepareOk(s, m, a))
  {
    FailKeeps(s);
    SendsKeep(s, a);
    if m.PrepareOk? {
      PhaseKeeps(s, WaitParameter, m.columns);
      PhaseKeeps(s, WaitPrepareColumn, m.columns);
    }
  }

  lemma DefinitionKeeps(s: State, m: Message, a: Admission)
    requires Before(s) && Quiescent(s.phase)
    ensures Before(HandleParameter(s, m, a)) && Before(HandlePrepareColumn(s, m, a)) && Before(HandleRow(s, m, a))
  {
    FailKeeps(s);
    SendsKeep(s, a);
    PhaseKeeps(s, WaitPrepareColumn, s.rows.columns);
    PhaseKeeps(s, CursorRowReady, s.rows.columns);
  }

  /** Prepared statements and cursors, before any COMMIT. */
  lemma AcceptBefore(s: State, m: Message, a: Admission)
    requires Before(s) && s.phase != WaitControlReply
    ensures Before(Accept(s, m, a))
  {
    FailKeeps(s);
    match s.phase
    case WaitPrepareOk => PrepareOkKeeps(s, m, a);
    case WaitParameter => DefinitionKeeps(s, m, a);
    case WaitPrepareColumn => DefinitionKeeps(s, m, a);
    case WaitRow => DefinitionKeeps(s, m, a);
    case WaitCommandReply => SendsKeep(s, a);
    case WaitColumnCount => PhaseKeeps(s, WaitColumn, s.rows.columns);
    case WaitColumn => PhaseKeeps(s, CursorReady, s.rows.columns);
    case _ =>
  }

  lemma AcceptKeeps(s: State, m: Message, a: Admission)
    requires Invariant(s) && s.phase != Failed && s.phase != LoggingIn
    ensures Invariant(Accept(s, m, a))
  {
    ErrorKeeps(s, PROTOCOL);
    if s.phase == WaitControlReply {
      ControlKeeps(s, a);
    } else if NotCommitting(s) {
      AcceptBefore(s, m, a);
    } else {
      assert Accept(s, m, a) == SetError(s, Error(PROTOCOL));
    }
  }

  lemma MessageKeeps(s: State, m: Message, a: Admission)
    requires Invariant(s)
    ensures Invariant(OnMessage(s, m, a))
  {
    if s.phase != Failed && s.phase != LoggingIn {
      ErrorKeeps(s, SQL_ERROR);
      AcceptKeeps(s, m, a);
    }
  }

  /** Starting anything but a COMMIT in a ready transaction. */
  lemma StartKeeps(s: State, action: Act, step: TransactionStep, phase: Phase, kind: Send, a: Admission)
    requires Invariant(s) && InTransaction(s) && step != Commit && (action == Cursor ==> step == NoStep)
    requires (phase == WaitControlSend && kind == Control && action == Transaction) || (phase == WaitPrepareSend && kind == Prepare)
    ensures
      var t := s.(status := OK, txn := s.txn.(action := action, step := step));
      && Invariant(SendPacket(t, phase, kind, a))
      && Invariant(SendPacket(t.(rows := t.rows.(cursorDone := false, cancel := false)), phase, kind, a))
  {
    var t := s.(status := OK, txn := s.txn.(action := action, step := step));
    PacketKeeps(t, phase, kind, a);
    PacketKeeps(t.(rows := t.rows.(cursorDone := false, cancel := false)), phase, kind, a);
  }

  lemma CommitKeeps(s: State, a: Admission)
    requires Invariant(s) && InTransaction(s)
    ensures Invariant(SendControl(s.(status := OK, txn := s.txn.(step := Commit, commitWritten := false)), a))
  {
  }

  lemma CallKeeps(s: State, e: Event)
    requires e.CallExecute? || e.CallSavepoint? || e.CallOpenCursor? || e.CallFinish?
    requires Invariant(s)
    ensures Invariant(CallStep(s, e))
  {
    if InTransaction(s) {
      match e
      case CallExecute(a) => StartKeeps(s, Transaction, Command, WaitPrepareSend, Prepare, a);
      case CallSavepoint(step, a) => if step != Commit { StartKeeps(s, Transaction, step, WaitControlSend, Control, a); }
      case CallOpenCursor(a) => StartKeeps(s, Cursor, NoStep, WaitPrepareSend, Prepare, a);
      case CallFinish(commit, a) =>
        if commit { CommitKeeps(s, a); } else { StartKeeps(s, Transaction, Rollback, WaitControlSend, Control, a); }
    }
  }

  lemma RowKeeps(s: State)
    requires Invariant(s) && s.txn.action == Cursor
    ensures Invariant(CursorStep(s, CallNextRow)) && Invariant(CursorStep(s, RowTaken))
  {
    assert Before(s);
    if Quiescent(s.phase) {
      PhaseKeeps(s, WaitRow, s.rows.columns);
      PhaseKeeps(s, CursorReady, s.rows.columns);
    }
  }

  lemma CursorKeeps(s: State, e: Event)
    requires e.CallNextRow? || e.RowTaken? || e.CallAbortCursor? || e.CallDestroyCursor?
    requires Invariant(s)
    ensures Invariant(CursorStep(s, e))
  {
    if s.txn.action == Cursor {
      assert Before(s);
      if e.CallNextRow? || e.RowTaken? { RowKeeps(s); } else { assert Before(CursorStep(s, e)); }
    }
  }

  lemma UnsolicitedKeeps(s: State, e: Event)
    requires e.UnsolicitedBegins? || e.BadFrame? || e.IdleTimeout?
    requires Invariant(s)
    ensures Invariant(Step(s, e))
  {
    UnsolicitedApart(s, true);
    UnsolicitedApart(s, false);
    ErrorKeeps(s.(unsolicited := false), PROTOCOL);
    TransportKeeps(s.(unsolicited := false), IO);
  }

  lemma UnsolicitedApart(s: State, unsolicited: bool)
    requires Invariant(s)
    ensures Invariant(s.(unsolicited := unsolicited))
  {
  }

  lemma CancelledKeeps(s: State)
    requires Invariant(s) && s.rows.cancel && s.phase != Failed
    ensures Invariant(s.(phase := Done))
  {
  }

  lemma FaultKeeps(s: State, e: Event)
    requires e.ReceiveRefused? || e.StateFailed? || e.StateClosed? || e.PollFails? || e.DeadlineExpires?
    requires Invariant(s)
    ensures Invariant(Step(s, e))
  {
    TransportKeeps(s, IO);
    TransportKeeps(s, TIMEOUT);
    if s.rows.cancel && s.phase != Failed { CancelledKeeps(s); }
  }

  lemma LoginKeeps(s: State, a: Admission)
    requires Invariant(s)
    ensures Invariant(Step(s, LoggedIn(a)))
  {
    if s.phase == LoggingIn { PacketKeeps(s.(txn := s.txn.(step := SetIsolation)), WaitControlSend, Control, a); }
  }

  lemma QuitKeeps(s: State, a: Admission)
    requires Invariant(s)
    ensures Invariant(Step(s, CallQuit(a)))
  {
  }

  lemma StepKeeps(s: State, e: Event)
    requires Invariant(s)
    ensures Invariant(Step(s, e))
  {
    if e.SendDone? {
      if NotCommitting(s) { SendBefore(s); } else { SendDuring(s); }
    } else if e.Received? {
      MessageKeeps(s, e.message, e.admission);
    } else if e.CallExecute? || e.CallSavepoint? || e.CallOpenCursor? || e.CallFinish? {
      CallKeeps(s, e);
    } else if e.CallNextRow? || e.RowTaken? || e.CallAbortCursor? || e.CallDestroyCursor? {
      CursorKeeps(s, e);
    } else if e.LoggedIn? {
      LoginKeeps(s, e.admission);
    } else if e.CallQuit? {
      QuitKeeps(s, e.admission);
    } else if e.UnsolicitedBegins? || e.BadFrame? || e.IdleTimeout? {
      UnsolicitedKeeps(s, e);
    } else {
      FaultKeeps(s, e);
    }
  }

  lemma {:induction false} RunKeeps(s: State, events: seq<Event>)
    requires Invariant(s)
    ensures Invariant(Run(s, events))
    decreases |events|
  {
    if events != [] {
      StepKeeps(s, events[0]);
      RunKeeps(Step(s, events[0]), events[1..]);
    }
  }

  // ---- what is reported ----------------------------------------------------------------------

  /** The transport failures that reach the session in this phase: failed state and poll error always; idle error 4031
      when packets are read or it was arriving already; a refused receive when one is asked for; a close or an expired
      deadline unless it is over already. */
  predicate TransportFailure(s: State, e: Event) {
    || e.StateFailed? || e.PollFails?
    || (e.IdleTimeout? && (s.phase != Failed || s.unsolicited))
    || (e.ReceiveRefused? && WaitsForReceive(s.phase))
    || ((e.StateClosed? || e.DeadlineExpires?) && s.phase != Failed)
  }

  /** INSIDE THE WINDOW every transport failure is COMMIT_UNKNOWN. */
  lemma LostAcknowledgement(events: seq<Event>, e: Event)
    ensures
      var s := Run(OPENED, events);
      Window(s) && TransportFailure(s, e) ==> Step(s, e).phase == Failed && Step(s, e).status == COMMIT_UNKNOWN
  {
    RunKeeps(OPENED, events);
  }

  /** OUTSIDE THE WINDOW nothing is: not before the completion of the send, not after the OK. */
  lemma UnknownOnlyInWindow(events: seq<Event>)
    ensures
      var s := Run(OPENED, events);
      s.status == COMMIT_UNKNOWN ==> s.past.sends == 1 && s.past.observed && !s.past.acknowledged
  {
    RunKeeps(OPENED, events);
  }

  /** A session sends at most one COMMIT, and is done after it only when the OK was processed. */
  lemma AtMostOneCommit(events: seq<Event>)
    ensures
      var s := Run(OPENED, events);
      s.past.sends <= 1 && (s.past.sends == 1 && s.phase == Done ==> s.past.acknowledged) && (s.past.acknowledged ==> s.past.observed)
  {
    RunKeeps(OPENED, events);
  }

  /** What a failure inside the window is reported as: COMMIT_UNKNOWN exactly if it is of the transport.  A malformed
      reply or packet is PROTOCOL, an error reply SQL_ERROR. */
  lemma WindowReports(events: seq<Event>, e: Event)
    ensures
      var s := Run(OPENED, events);
      Window(s) && s.phase == WaitControlReply && Step(s, e).phase == Failed ==> FailsAs(s, e, Step(s, e).status)
  {
    RunKeeps(OPENED, events);
    WindowStep(Run(OPENED, events), e);
  }

  predicate FailsAs(s: State, e: Event, status: Status) {
    && (status == COMMIT_UNKNOWN <==> TransportFailure(s, e))
    && (e.Received? ==> status == Error(if e.message.ErrPacket? then SQL_ERROR else PROTOCOL))
    && (e.BadFrame? || e.SendDone? ==> status == Error(PROTOCOL))
  }

  lemma WindowStep(s: State, e: Event)
    requires Invariant(s)
    ensures Window(s) && s.phase == WaitControlReply && Step(s, e).phase == Failed ==> FailsAs(s, e, Step(s, e).status)
  {
    if Window(s) && s.phase == WaitControlReply {
      assert AckPending(s) && s.txn.step == Commit && s.pending == NoSend;
    }
  }

  /** What overwrites a reported COMMIT_UNKNOWN: an unsolicited error that began before it and turns out not to be one, and
      the completion of a send that is not under way. */
  predicate Overwrites(s: State, e: Event) {
    (e.BadFrame? && s.unsolicited) || e.SendDone?
  }

  /** EXACTLY those events do, and the status they leave is PROTOCOL. */
  lemma UnknownIsOverwritten(events: seq<Event>, e: Event)
    ensures
      var s := Run(OPENED, events);
      s.status == COMMIT_UNKNOWN ==>
        && Step(s, e).phase == Failed && (Step(s, e).status != COMMIT_UNKNOWN <==> Overwrites(s, e))
        && (Overwrites(s, e) ==> Step(s, e).status == Error(PROTOCOL))
  {
    RunKeeps(OPENED, events);
    UnknownStep(Run(OPENED, events), e);
  }

  lemma UnknownStep(s: State, e: Event)
    requires Invariant(s)
    ensures
      s.status == COMMIT_UNKNOWN ==>
        && Step(s, e).phase == Failed && (Step(s, e).status != COMMIT_UNKNOWN <==> Overwrites(s, e))
        && (Overwrites(s, e) ==> Step(s, e).status == Error(PROTOCOL))
  {
    if s.status == COMMIT_UNKNOWN {
      assert Committing(s) && s.pending == NoSend;
      FailedStays(s, e);
    }
  }

  /** A COMMIT that was acknowledged leaves the session done, but not for good: exactly these callbacks fail it. */
  predicate Unsettles(s: State, e: Event) {
    || e.SendDone? || e.StateFailed? || e.BadFrame? || e.IdleTimeout? || (e.Received? && !s.unsolicited)
  }

  predicate Callback(e: Event) {
    || e.SendDone? || e.Received? || e.UnsolicitedBegins? || e.BadFrame? || e.IdleTimeout? || e.ReceiveRefused?
    || e.StateFailed? || e.StateClosed?
  }

  lemma SettledStep(s: State, e: Event)
    requires Invariant(s) && s.phase == Done && s.past.sends == 1 && s.pending == NoSend && Callback(e)
    ensures
      var t := Step(s, e);
      t.past.acknowledged && t.pending == NoSend && t.past.sends == 1 && t.phase == if Unsettles(s, e) then Failed else Done
  {
    assert Committing(s);
  }

  predicate Unsettled(s: State, events: seq<Event>)
    decreases |events|
  {
    events != [] && (Unsettles(s, events[0]) || Unsettled(Step(s, events[0]), events[1..]))
  }

  lemma FailedQuiet(s: State, e: Event)
    requires s.phase == Failed && s.pending == NoSend && Callback(e)
    ensures Step(s, e).phase == Failed && Step(s, e).pending == NoSend
  {
    if e.Received? {
      assert OnMessage(s, e.message, e.admission) == s;
    } else if e.SendDone? {
      assert OnSend(s) == SetError(s, Error(PROTOCOL));
    }
  }

  lemma {:induction false} FailedForGood(s: State, events: seq<Event>)
    requires s.phase == Failed && s.pending == NoSend && forall e :: e in events ==> Callback(e)
    ensures Run(s, events).phase == Failed
    decreases |events|
  {
    if events != [] {
      assert events[0] in events;
      FailedQuiet(s, events[0]);
      FailedForGood(Step(s, events[0]), events[1..]);
    }
  }

  /** AN ACKNOWLEDGED COMMIT is reported as done exactly if none of those callbacks follows the acknowledgement. */
  lemma {:induction false} AcknowledgedIsReported(s: State, events: seq<Event>)
    requires Invariant(s) && s.phase == Done && s.past.sends == 1 && s.pending == NoSend && forall e :: e in events ==> Callback(e)
    ensures Run(s, events).phase == if Unsettled(s, events) then Failed else Done
    decreases |events|
  {
    if events != [] {
      assert events[0] in events;
      SettledStep(s, events[0]);
      StepKeeps(s, events[0]);
      if Unsettles(s, events[0]) {
        FailedForGood(Step(s, events[0]), events[1..]);
      } else {
        AcknowledgedIsReported(Step(s, events[0]), events[1..]);
      }
    }
  }

  // ---- reachable states ----------------------------------------------------------------------

  /** Some run of a new session leads here. */
  ghost predicate Reached(s: State) {
    exists events :: Run(OPENED, events) == s
  }

  lemma OpenedIsReached()
    ensures Reached(OPENED)
  {
    assert Run(OPENED, []) == OPENED;
  }

  lemma ReachedKeeps(s: State)
    requires Reached(s)
    ensures Invariant(s)
  {
    var events :| Run(OPENED, events) == s;
    RunKeeps(OPENED, events);
  }

  lemma ReachedStep(s: State, e: Event)
    requires Reached(s)
    ensures Reached(Step(s, e))
  {
    var events :| Run(OPENED, events) == s;
    RunSnoc(OPENED, events, e);
  }

  lemma {:induction false} ReachedRun(s: State, events: seq<Event>)
    requires Reached(s)
    ensures Reached(Run(s, events))
    decreases |events|
  {
    if events != [] {
      ReachedStep(s, events[0]);
      ReachedRun(Step(s, events[0]), events[1..]);
    }
  }

  lemma {:induction false} RunConcat(s: State, a: seq<Event>, b: seq<Event>)
    ensures Run(s, a + b) == Run(Run(s, a), b)
    decreases |a|
  {
    if a == [] {
      assert a + b == b;
    } else {
      assert (a + b)[1..] == a[1..] + b;
      RunConcat(Step(s, a[0]), a[1..], b);
    }
  }

  lemma RunSnoc(s: State, a: seq<Event>, e: Event)
    ensures Run(s, a + [e]) == Step(Run(s, a), e)
  {
    RunConcat(s, a, [e]);
    assert [e][1..] == [];
  }

  /** The flags that the code tests are the window. */
  lemma AckIsWindow(s: State)
    requires Reached(s)
    ensures AckPending(s) <==> Window(s)
  {
    ReachedKeeps(s);
  }

  lemma SendTells(s: State) returns (t: State)
    requires Reached(s)
    ensures t == OnSend(s) && Reached(t)
    ensures
      && t.past.sends == s.past.sends && t.past.acknowledged == s.past.acknowledged && (t.past.observed <==> t.past.sends == 1)
      && (t.past.sends == 1 && !s.past.observed ==> Window(t) && t.phase == WaitControlReply)
  {
    ReachedStep(s, SendDone);
    ReachedKeeps(s);
    t := OnSend(s);
  }

  lemma ReplyTells(s: State, m: Message, a: Admission) returns (t: State)
    requires Reached(s) && s.phase == WaitControlReply && !s.unsolicited
    ensures Reached(t) && t == Step(s, Received(m, a))
    ensures t == if m.ErrPacket? then SetError(s, Error(SQL_ERROR)) else if m.OkPacket? then ControlOk(s, a) else SetError(s, Error(PROTOCOL))
    ensures
      && (t.past.acknowledged <==> Window(s) && m.OkPacket?) && t.status != COMMIT_UNKNOWN
      && (Window(s) ==> if m.OkPacket? then t.phase == Done
                        else t.phase == Failed && t.status == Error(if m.ErrPacket? then SQL_ERROR else PROTOCOL))
  {
    ReachedStep(s, Received(m, a));
    ReachedKeeps(s);
    if Window(s) { assert s.txn.step == Commit; }
    t := Step(s, Received(m, a));
  }

  lemma WaitingIsUnacknowledged(s: State)
    requires Reached(s) && s.phase == WaitControlReply
    ensures !s.past.acknowledged
  {
    ReachedKeeps(s);
  }

  lemma StateTells(s: State, failed: bool)
    requires Reached(s)
    ensures
      var t := Step(s, if failed then StateFailed else StateClosed);
      && Window(t) == Window(s) && (!Window(s) ==> t.status != COMMIT_UNKNOWN)
      && (Window(s) && (failed || s.phase != Failed) ==> t.phase == Failed && t.status == COMMIT_UNKNOWN)
  {
    ReachedKeeps(s);
    AckIsWindow(s);
  }

  lemma ProgressTells(s: State, polled: bool) returns (t: State)
    requires Reached(s)
    ensures t == Step(s, if polled then DeadlineExpires else PollFails) && Reached(t)
    ensures t.past == s.past && t.txn == s.txn && t.pending == s.pending && (t.phase == Failed || (t == s && t.phase == Done))
    ensures t == if polled && (s.phase == Done || s.phase == Failed) then s
                 else s.(phase := Failed, status := if Window(s) then COMMIT_UNKNOWN else Error(if polled then TIMEOUT else IO))
    ensures Window(s) && !(polled && s.phase == Failed) ==> t.status == COMMIT_UNKNOWN
    ensures !Window(s) ==> t.status != COMMIT_UNKNOWN
    ensures Finishing(s) ==> Finishing(t)
  {
    var e := if polled then DeadlineExpires else PollFails;
    ReachedStep(s, e);
    ReachedKeeps(s);
    AckIsWindow(s);
    t := Step(s, e);
  }

  lemma UnsolicitedTells(s: State, e: Event) returns (t: State)
    requires Reached(s) && (e.UnsolicitedBegins? || e.IdleTimeout? || e.BadFrame?)
    ensures t == Step(s, e) && Reached(t)
    ensures
      && Window(t) == Window(s) && (s.status == COMMIT_UNKNOWN && !e.BadFrame? ==> t.status == COMMIT_UNKNOWN)
      && (Window(s) && e.IdleTimeout? && (s.phase != Failed || s.unsolicited) ==> t.status == COMMIT_UNKNOWN)
      && (e.BadFrame? && (s.phase != Failed || s.unsolicited) ==> t.phase == Failed && t.status == Error(PROTOCOL))
  {
    ReachedStep(s, e);
    ReachedKeeps(s);
    AckIsWindow(s);
    t := Step(s, e);
  }

  lemma AbortTells(s: State)
    requires Reached(s) && s.txn.action == Cursor
    ensures
      var t := Step(s, CallAbortCursor);
      if s.phase == Failed || s.phase == Done then t == s else Abandoned(t) && t.rows.cancel
  {
    ReachedKeeps(s);
  }

  // ---- the end of a transaction --------------------------------------------------------------

  /** COMMIT or ROLLBACK has been called and its outcome is awaited or known. */
  predicate Finishing(s: State) {
    && s.txn.action == Transaction && (s.txn.step == Commit || s.txn.step == Rollback) && (s.pending == NoSend || s.pending == Control)
    && (s.phase == WaitControlSend || s.phase == WaitControlReply || s.phase == Done || s.phase == Failed)
    && (s.phase == Done ==> !s.txn.active && s.pending == NoSend)
  }

  lemma FinishingReply(s: State, m: Message, a: Admission)
    requires Finishing(s) && s.phase == WaitControlReply && s.pending == NoSend && m.OkPacket?
    ensures Finishing(ControlOk(s, a)) && ControlOk(s, a).rows.cancel == s.rows.cancel && ControlOk(s, a).txn.step == s.txn.step
  {
  }

  lemma FinishingStep(s: State, e: Event)
    requires Reached(s) && Finishing(s) && Callback(e) && !s.rows.cancel
    ensures Finishing(Step(s, e)) && !Step(s, e).rows.cancel && Step(s, e).txn.step == s.txn.step
  {
    ReachedKeeps(s);
    if e.Received? {
      if s.phase == WaitControlReply && e.message.OkPacket? { FinishingReply(s, e.message, e.admission); }
    } else if e.SendDone? {
      assert Finishing(OnSend(s));
    }
  }

  lemma Started(s: State, commit: bool, a: Admission) returns (t: State)
    requires Reached(s) && InTransaction(s)
    ensures t == Step(s, CallFinish(commit, a)) && t.rows == s.rows && t.unsolicited == s.unsolicited
    ensures t.txn == s.txn.(step := if commit then Commit else Rollback)
    ensures t.past == if commit && a.Admitted? then s.past.(sends := s.past.sends + 1) else s.past
    ensures if a.Admitted? then t.phase == WaitControlSend && t.pending == Control && t.status == OK
            else t.phase == Failed && t.pending == s.pending && t.status == Error(a.fault)
    ensures
      Reached(t) && Finishing(t) && !t.rows.cancel && t.txn.step == if commit then Commit else Rollback
  {
    ReachedStep(s, CallFinish(commit, a));
    ReachedKeeps(s);
    t := Step(s, CallFinish(commit, a));
  }

  /** What the caller of COMMIT or ROLLBACK may conclude from its outcome. */
  lemma FinishTells(s: State)
    requires Reached(s) && Finishing(s)
    ensures s.phase == Done ==> !Window(s) && s.past.sends == (if s.txn.step == Commit then 1 else 0)
    ensures s.phase == Done ==> (s.past.acknowledged <==> s.txn.step == Commit) && !s.txn.active
    ensures s.status == COMMIT_UNKNOWN ==> s.phase == Failed && s.txn.step == Commit && s.past.sends == 1 && Window(s)
    ensures Window(s) && s.phase == Failed ==> s.status == COMMIT_UNKNOWN || s.status == Error(SQL_ERROR) || s.status == Error(PROTOCOL)
  {
    ReachedKeeps(s);
  }

  /** A transaction whose cursor was abandoned. */
  predicate Abandoned(s: State) {
    && s.txn.action == Cursor && s.txn.step == NoStep && !s.txn.active && s.past.sends == 0
    && s.phase != LoggingIn && s.pending != Login && s.pending != Control && s.phase != WaitControlReply
  }

  lemma AbandonedSends(s: State, phase: Phase, kind: Send, a: Admission)
    requires Abandoned(s) && phase != LoggingIn && phase != WaitControlReply && kind != Login && kind != Control
    ensures Abandoned(SendPacket(s, phase, kind, a)) && Abandoned(SetError(s, Error(PROTOCOL)))
  {
  }

  lemma AbandonedPhase(s: State, phase: Phase, columns: bool)
    requires Abandoned(s) && phase != LoggingIn && phase != WaitControlReply
    ensures Abandoned(s.(phase := phase)) && Abandoned(s.(phase := phase, rows := s.rows.(columns := columns)))
  {
  }

  lemma AbandonedPrepare(s: State, m: Message, a: Admission)
    requires Abandoned(s)
    ensures Abandoned(HandlePrepareOk(s, m, a))
  {
    AbandonedSends(s, WaitExecuteSend, Execute, a);
    if m.PrepareOk? {
      AbandonedPhase(s, WaitParameter, m.columns);
      AbandonedPhase(s, WaitPrepareColumn, m.columns);
    }
  }

  lemma AbandonedDefinition(s: State, m: Message, a: Admission)
    requires Abandoned(s)
    ensures Abandoned(HandleParameter(s, m, a)) && Abandoned(HandlePrepareColumn(s, m, a)) && Abandoned(HandleRow(s, m, a))
  {
    AbandonedSends(s, WaitExecuteSend, Execute, a);
    AbandonedSends(s, WaitCloseSend, CloseStatement, a);
    AbandonedPhase(s, WaitPrepareColumn, s.rows.columns);
    AbandonedPhase(s, CursorRowReady, s.rows.columns);
  }

  lemma AbandonedAccepts(s: State, m: Message, a: Admission)
    requires Abandoned(s)
    ensures Abandoned(Accept(s, m, a))
  {
    AbandonedSends(s, WaitCloseSend, CloseStatement, a);
    match s.phase
    case WaitPrepareOk => AbandonedPrepare(s, m, a);
    case WaitParameter => AbandonedDefinition(s, m, a);
    case WaitPrepareColumn => AbandonedDefinition(s, m, a);
    case WaitRow => AbandonedDefinition(s, m, a);
    case WaitColumnCount => AbandonedPhase(s, WaitColumn, s.rows.columns);
    case WaitColumn => AbandonedPhase(s, CursorReady, s.rows.columns);
    case _ =>
  }

  lemma AbandonedMessage(s: State, m: Message, a: Admission)
    requires Abandoned(s)
    ensures Abandoned(OnMessage(s, m, a))
  {
    AbandonedAccepts(s, m, a);
    assert Abandoned(SetError(s, Error(SQL_ERROR)));
  }

  lemma AbandonedCalls(s: State, e: Event)
    requires Abandoned(s) && (e.CallExecute? || e.CallSavepoint? || e.CallOpenCursor? || e.CallFinish?)
    ensures CallStep(s, e) == s
  {
  }

  lemma AbandonedCursor(s: State, e: Event)
    requires Abandoned(s) && (e.CallNextRow? || e.RowTaken? || e.CallAbortCursor? || e.CallDestroyCursor?)
    ensures Abandoned(CursorStep(s, e))
  {
  }

  lemma AbandonedFault(s: State, fault: Fault)
    requires Abandoned(s)
    ensures Abandoned(SetTransportError(s, fault)) && Abandoned(SetTransportError(s.(unsolicited := false), fault))
    ensures Abandoned(SetError(s.(unsolicited := false), Error(fault)))
  {
  }

  lemma AbandonedSent(s: State)
    requires Abandoned(s)
    ensures Abandoned(OnSend(s))
  {
    var t := s.(pending := NoSend);
    assert Abandoned(t);
    match s.pending
    case Prepare => AbandonedPhase(t, WaitPrepareOk, t.rows.columns);
    case Execute => AbandonedPhase(t, WaitColumnCount, t.rows.columns);
    case CloseStatement => AbandonedPhase(t.(rows := t.rows.(cursorDone := true)), Ready, t.rows.columns);
    case Quit => AbandonedPhase(t, Done, t.rows.columns);
    case _ => AbandonedPhase(t, Failed, t.rows.columns);
  }

  lemma AbandonedStep(s: State, e: Event)
    requires Abandoned(s)
    ensures Abandoned(Step(s, e))
  {
    if e.Received? {
      AbandonedMessage(s, e.message, e.admission);
    } else if e.SendDone? {
      AbandonedSent(s);
    } else if e.CallQuit? {
      AbandonedSends(s, WaitQuitSend, Quit, e.admission);
    } else if e.CallExecute? || e.CallSavepoint? || e.CallOpenCursor? || e.CallFinish? {
      AbandonedCalls(s, e);
    } else if e.CallNextRow? || e.RowTaken? || e.CallAbortCursor? || e.CallDestroyCursor? {
      AbandonedCursor(s, e);
    } else {
      AbandonedFault(s, IO);
      AbandonedFault(s, TIMEOUT);
      AbandonedFault(s, PROTOCOL);
      AbandonedPhase(s, Done, s.rows.columns);
    }
  }

  /** AN ABANDONED TRANSACTION NEVER COMMITS, whatever is called and whatever arrives afterwards. */
  lemma {:induction false} AbandonedNeverCommits(s: State, events: seq<Event>)
    requires Abandoned(s)
    ensures Abandoned(Run(s, events)) && Run(s, events).past.sends == 0
    decreases |events|
  {
    if events != [] {
      AbandonedStep(s, events[0]);
      AbandonedNeverCommits(Step(s, events[0]), events[1..]);
    }
  }

  /** Failure is not final: if the connection fails while COMMIT is being sent, IO is reported, but the completion of
      the send, when it still comes, revives the session and opens the window. */
  lemma FailedIsOverwritten(s: State)
    requires InTransaction(s)
    ensures
      var t := Step(Step(s, CallFinish(true, Admitted)), StateFailed);
      && t.phase == Failed && t.status == Error(IO)
      && Step(t, SendDone).phase == WaitControlReply && AckPending(Step(t, SendDone))
  {
  }

  /** It is final exactly when no send is under way: then no event at all leaves it. */
  lemma FailedStays(s: State, e: Event)
    requires s.phase == Failed
    ensures Step(s, e).phase == Failed <==> !(e.SendDone? && s.pending != NoSend)
  {
    if e.CallExecute? || e.CallSavepoint? || e.CallOpenCursor? || e.CallFinish? {
      assert CallStep(s, e) == s;
    } else if e.CallNextRow? || e.RowTaken? || e.CallAbortCursor? || e.CallDestroyCursor? {
      assert CursorStep(s, e).phase == Failed;
    } else if e.Received? {
      assert OnMessage(s, e.message, e.admission) == s;
    }
  }
}
