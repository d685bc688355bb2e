/** The transaction part of a MySQL session: callbacks of the network layer and calls of the application, one step
    each.  Payloads are classified; handshake and authentication are one opaque phase. */
module Session {
  datatype Phase =
    | LoggingIn
    | WaitControlSend | WaitControlReply | Ready
    | WaitPrepareSend | WaitPrepareOk | WaitParameter | WaitPrepareColumn
    | WaitExecuteSend | WaitCommandReply | WaitColumnCount | WaitColumn | WaitRow
    | CursorReady | CursorRowReady
    | WaitCloseSend | WaitQuitSend | Done | Failed

  datatype Send = NoSend | Login | Control | Prepare | Execute | CloseStatement | Quit

  datatype Act = Transaction | Cursor

  datatype TransactionStep = NoStep | SetIsolation | Begin | Command | Savepoint | RollbackTo | ReleaseSavepoint | Commit | Rollback

  datatype Fault = INVALID | IO | PROTOCOL | TIMEOUT | SQL_ERROR

  datatype Status = OK | Error(fault: Fault) | COMMIT_UNKNOWN

  /** How far the transaction is; `commitWritten` once the completion of COMMIT's send was observed. */
  datatype Txn = Txn(action: Act, step: TransactionStep, commitWritten: bool, active: bool)

  datatype Rows = Rows(columns: bool, cursorDone: bool, cancel: bool)

  /** Three facts about the past: how many COMMITs the network layer took, whether the completion of one was observed,
      whether its OK was processed. */
  datatype Past = Past(sends: nat, observed: bool, acknowledged: bool)

  /** The session; `unsolicited` while an error packet is arriving that the server was not asked for. */
  datatype State = State(phase: Phase, pending: Send, status: Status, unsolicited: bool, txn: Txn, rows: Rows, past: Past)

  /** Whether a packet is admitted to be sent, or why not. */
  datatype Admission = Admitted | Refused(fault: Fault)

  /** A whole message, as decoded for the phase it arrives in. */
  datatype Message =
    | OkPacket | ErrPacket | Malformed | PrepareOk(fits: bool, parameters: bool, columns: bool) | Definition(last: bool)
    | ColumnCount | Row | End

  datatype Event =
    // callbacks
    | SendDone
    | Received(message: Message, admission: Admission)
    | UnsolicitedBegins
    | BadFrame
    | IdleTimeout
    | ReceiveRefused
    | StateFailed
    | StateClosed
    | LoggedIn(admission: Admission)
    // the progress loop
    | PollFails
    | DeadlineExpires
    // the application
    | CallExecute(admission: Admission)
    | CallSavepoint(step: TransactionStep, admission: Admission)
    | CallOpenCursor(admission: Admission)
    | CallNextRow
    | RowTaken
    | CallAbortCursor
    | CallDestroyCursor
    | CallFinish(commit: bool, admission: Admission)
    | CallQuit(admission: Admission)

  // ---- errors --------------------------------------------------------------------------------

  function SetError(s: State, status: Status): State {
    s.(phase := Failed, status := status)
  }

  /** `mysql_session_commit_ack_pending`. */
  predicate AckPending(s: State) {
    s.txn.action == Transaction && s.txn.step == Commit && s.txn.commitWritten && s.phase != Done
  }

  function SetTransportError(s: State, fault: Fault): State {
    SetError(s, if AckPending(s) then COMMIT_UNKNOWN else Error(fault))
  }

  predicate WaitsForReceive(p: Phase) {
    p.WaitControlReply? || p.WaitPrepareOk? || p.WaitParameter? || p.WaitPrepareColumn? || p.WaitCommandReply? ||
    p.WaitColumnCount? || p.WaitColumn? || p.WaitRow?
  }

  /** Received bytes are read as packets, not skipped and not taken for the rest of an unsolicited error. */
  predicate ReadsPackets(s: State) {
    s.phase != Failed && !s.unsolicited
  }

  // ---- sending -------------------------------------------------------------------------------

  function SendPacket(s: State, phase: Phase, kind: Send, a: Admission): State {
    var t := s.(phase := phase);
    if a.Refused? then SetError(t, Error(a.fault))
    else
      var isCommit := kind == Control && s.txn.step == Commit;
      t.(pending := kind, past := if isCommit then t.past.(sends := t.past.sends + 1) else t.past)
  }

  function SendControl(s: State, a: Admission): State { SendPacket(s, WaitControlSend, Control, a) }

  /** `mysql_session_on_send`. */
  function OnSend(s: State): State {
    var t := s.(pending := NoSend);
    match s.pending
    case Control =>
      if s.txn.action == Transaction && s.txn.step == Commit then
        t.(phase := WaitControlReply, txn := t.txn.(commitWritten := true), past := t.past.(observed := true))
      else t.(phase := WaitControlReply)
    case Prepare => t.(phase := WaitPrepareOk)
    case Execute => t.(phase := if s.txn.action == Transaction then WaitCommandReply else WaitColumnCount)
    case CloseStatement =>
      if s.txn.action == Cursor then t.(phase := Ready, rows := t.rows.(cursorDone := true))
      else if s.txn.step == Command then t.(phase := Ready)
      else t.(phase := Done)
    case Quit => t.(phase := Done)
    case Login => t.(phase := LoggingIn)
    case NoSend => SetError(t, Error(PROTOCOL))
  }

  // ---- receiving -----------------------------------------------------------------------------

  /** `mysql_session_handle_control_reply`, on an OK packet. */
  function ControlOk(s: State, a: Admission): State {
    match s.txn.step
    case SetIsolation => SendControl(s.(txn := s.txn.(step := Begin)), a)
    case Begin => s.(phase := Ready, txn := s.txn.(active := true))
    case Savepoint => s.(phase := Ready)
    case RollbackTo => s.(phase := Ready)
    case ReleaseSavepoint => s.(phase := Ready)
    case Commit =>
      s.(phase := Done, txn := s.txn.(commitWritten := false, active := false), past := s.past.(acknowledged := true))
    case Rollback => s.(phase := Done, txn := s.txn.(active := false))
    case NoStep => SetError(s, Error(PROTOCOL))
    case Command => SetError(s, Error(PROTOCOL))
  }

  function SendExecute(s: State, a: Admission): State { SendPacket(s, WaitExecuteSend, Execute, a) }

  function SendClose(s: State, a: Admission): State { SendPacket(s, WaitCloseSend, CloseStatement, a) }

  /** A prepared cursor must return columns, a prepared command must not. */
  function HandlePrepareOk(s: State, m: Message, a: Admission): State {
    if !m.PrepareOk? || !m.fits || (m.columns <==> s.txn.action == Transaction) then SetError(s, Error(PROTOCOL))
    else if m.parameters then s.(phase := WaitParameter, rows := s.rows.(columns := m.columns))
    else if m.columns then s.(phase := WaitPrepareColumn, rows := s.rows.(columns := m.columns))
    else SendExecute(s, a)
  }

  function HandleParameter(s: State, m: Message, a: Admission): State {
    if !m.Definition? then SetError(s, Error(PROTOCOL))
    else if !m.last then s
    else if s.rows.columns then s.(phase := WaitPrepareColumn)
    else SendExecute(s, a)
  }

  function HandlePrepareColumn(s: State, m: Message, a: Admission): State {
    if !m.Definition? then SetError(s, Error(PROTOCOL)) else if m.last then SendExecute(s, a) else s
  }

  function HandleRow(s: State, m: Message, a: Admission): State {
    if m.End? then SendClose(s, a) else if m.Row? then s.(phase := CursorRowReady) else SetError(s, Error(PROTOCOL))
  }

  /** What a message other than an error packet does in its phase. */
  function Accept(s: State, m: Message, a: Admission): State {
    match s.phase
    case WaitControlReply => if m.OkPacket? then ControlOk(s, a) else SetError(s, Error(PROTOCOL))
    case WaitPrepareOk => HandlePrepareOk(s, m, a)
    case WaitParameter => HandleParameter(s, m, a)
    case WaitPrepareColumn => HandlePrepareColumn(s, m, a)
    case WaitCommandReply => if m.OkPacket? then SendClose(s, a) else SetError(s, Error(PROTOCOL))
    case WaitColumnCount => if m.ColumnCount? then s.(phase := WaitColumn) else SetError(s, Error(PROTOCOL))
    case WaitColumn =>
      if !m.Definition? then SetError(s, Error(PROTOCOL)) else if m.last then s.(phase := CursorReady) else s
    case WaitRow => HandleRow(s, m, a)
    case _ => SetError(s, Error(PROTOCOL))
  }

  /** Phases whose handler looks for an error packet first. */
  predicate ReadsErrors(p: Phase) {
    p.WaitControlReply? || p.WaitPrepareOk? || p.WaitCommandReply? || p.WaitColumnCount? || p.WaitRow?
  }

  /** `mysql_session_handle_message`; a failed session does not look at what it receives, and while an unsolicited
      error arrives there are no messages. */
  function OnMessage(s: State, m: Message, a: Admission): State {
    if s.phase == Failed || s.phase == LoggingIn || s.unsolicited then s
    else if m.ErrPacket? && ReadsErrors(s.phase) then SetError(s, Error(SQL_ERROR))
    else Accept(s, m, a)
  }

  // ---- calls ---------------------------------------------------------------------------------

  /** What every call on a transaction asks first. */
  predicate InTransaction(s: State) {
    s.txn.active && s.phase == Ready && s.txn.action == Transaction
  }

  function CallStep(s: State, e: Event): State
    requires e.CallExecute? || e.CallSavepoint? || e.CallOpenCursor? || e.CallFinish?
  {
    if !InTransaction(s) then s
    else
      var t := s.(status := OK);
      match e
      case CallExecute(a) => SendPacket(t.(txn := t.txn.(step := Command)), WaitPrepareSend, Prepare, a)
      case CallSavepoint(step, a) =>
        if step.Savepoint? || step.RollbackTo? || step.ReleaseSavepoint?
        then SendControl(t.(txn := t.txn.(step := step)), a) else s
      case CallOpenCursor(a) =>
        var u := t.(txn := t.txn.(action := Cursor, step := NoStep), rows := t.rows.(cursorDone := false, cancel := false));
        SendPacket(u, WaitPrepareSend, Prepare, a)
      case CallFinish(commit, a) =>
        if commit then SendControl(t.(txn := t.txn.(step := Commit, commitWritten := false)), a)
        else SendControl(t.(txn := t.txn.(step := Rollback)), a)
  }

  function CursorStep(s: State, e: Event): State
    requires e.CallNextRow? || e.RowTaken? || e.CallAbortCursor? || e.CallDestroyCursor?
  {
    if s.txn.action != Cursor then s
    else match e
      case CallNextRow => if s.phase == CursorReady && !s.rows.cancel then s.(phase := WaitRow) else s
      case RowTaken => if s.phase == CursorRowReady then s.(phase := CursorReady) else s
      case CallAbortCursor =>
        if s.phase == Failed || s.phase == Done then s
        else s.(txn := s.txn.(active := false), rows := s.rows.(cancel := true))
      case CallDestroyCursor =>
        var t := s.(rows := s.rows.(cursorDone := false, cancel := false));
        if s.phase == Ready && s.txn.active then t.(txn := t.txn.(action := Transaction)) else t
  }

  function Step(s: State, e: Event): State {
    match e
    case SendDone => OnSend(s)
    case Received(m, a) => OnMessage(s, m, a)
    case UnsolicitedBegins => if ReadsPackets(s) then s.(unsolicited := true) else s
    case BadFrame => if ReadsPackets(s) || s.unsolicited then SetError(s.(unsolicited := false), Error(PROTOCOL)) else s
    case IdleTimeout => if ReadsPackets(s) || s.unsolicited then SetTransportError(s.(unsolicited := false), IO) else s
    case ReceiveRefused => if WaitsForReceive(s.phase) then SetTransportError(s, IO) else s
    case StateFailed => SetTransportError(s, IO)
    case StateClosed =>
      if s.phase == Done || s.phase == Failed then s
      else if s.rows.cancel then s.(phase := Done)
      else SetTransportError(s, IO)
    case LoggedIn(a) => if s.phase == LoggingIn then SendControl(s.(txn := s.txn.(step := SetIsolation)), a) else s
    case PollFails => SetTransportError(s, IO)
    case DeadlineExpires => if s.phase == Done || s.phase == Failed then s else SetTransportError(s, TIMEOUT)
    case CallExecute(_) => CallStep(s, e)
    case CallSavepoint(_, _) => CallStep(s, e)
    case CallOpenCursor(_) => CallStep(s, e)
    case CallFinish(_, _) => CallStep(s, e)
    case CallNextRow => CursorStep(s, e)
    case RowTaken => CursorStep(s, e)
    case CallAbortCursor => CursorStep(s, e)
    case CallDestroyCursor => CursorStep(s, e)
    case CallQuit(a) => if s.phase == Done && !s.rows.cancel then SendPacket(s, WaitQuitSend, Quit, a) else s
  }

  function Run(s: State, events: seq<Event>): State
    decreases |events|
  {
    if events == [] then s else Run(Step(s, events[0]), events[1..])
  }

  const OPENED :=
    State(LoggingIn, NoSend, OK, false, Txn(Transaction, NoStep, false, false), Rows(false, false, false), Past(0, false, false))
}
