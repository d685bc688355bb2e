/** The transaction session as an object: the callbacks and calls that decide about COMMIT, in place. */
module TransactionSessions {
  import opened Session
  import opened SessionRuns

  /** What one turn of the progress loop brings: an error, or callbacks. */
  datatype Poll = Fails | Delivers(events: seq<Event>)

  ghost predicate Callbacks(polls: seq<Poll>) {
    forall i, e :: 0 <= i < |polls| && polls[i].Delivers? && e in polls[i].events ==> Callback(e)
  }

  class TransactionSession {
    var phase: Phase
    var pending: Send
    var status: Status
    var unsolicited: bool
    var txn: Txn
    var rows: Rows
    ghost var past: Past

    ghost function View(): State
      reads this
    {
      State(phase, pending, status, unsolicited, txn, rows, past)
    }

    /** Some run leads here, so all that `SessionRuns` says about runs holds. */
    ghost predicate Valid()
      reads this
    {
      Reached(View())
    }

    constructor ()
      ensures View() == OPENED && Valid()
    {
      phase, pending, status, unsolicited := LoggingIn, NoSend, OK, false;
      txn, rows, past := Txn(Transaction, NoStep, false, false), Rows(false, false, false), Past(0, false, false);
      new;
      OpenedIsReached();
    }

    /** `mysql_session_set_error`. */
    method SetError(fault: Fault)
      modifies `phase, `status
      ensures phase == Failed && status == Error(fault)
    {
      phase, status := Failed, Error(fault);
    }

    /** `mysql_session_set_transport_error`: the flags it tests tell exactly whether COMMIT's completion was observed and
        its OK was not. */
    method SetTransportError(fault: Fault)
      requires Valid()
      modifies `phase, `status
      ensures phase == Failed && status == if past.observed && !past.acknowledged then COMMIT_UNKNOWN else Error(fault)
    {
      AckIsWindow(View());
      if txn.action == Transaction && txn.step == Commit && txn.commitWritten && phase != Done {
        phase, status := Failed, COMMIT_UNKNOWN;
      } else {
        SetError(fault);
      }
    }

    /** A control statement for `next` is sent: `mysql_session_send_control` after its caller has set the step. */
    method SendControl(next: TransactionStep, a: Admission)
      modifies `txn, `phase, `status, `pending, `past
      ensures txn == old(txn).(step := next)
      ensures past == old(past).(sends := old(past.sends) + if next == Commit && a.Admitted? then 1 else 0)
      ensures if a.Admitted? then phase == WaitControlSend && pending == Control && status == old(status)
              else phase == Failed && pending == old(pending) && status == Error(a.fault)
    {
      txn, phase := txn.(step := next), WaitControlSend;
      if a.Refused? {
        SetError(a.fault);
        return;
      }
      pending := Control;
      if next == Commit { past := past.(sends := past.sends + 1); }
    }

    /** `mysql_session_on_send`: after a completion, a COMMIT that was taken has been observed to be out, and the window is
        open if this was its completion. */
    method OnSend()
      requires Valid()
      modifies this
      ensures Valid() && View() == Step(old(View()), SendDone)
      ensures past.observed <==> past.sends == 1
      ensures past.sends == old(past.sends) && past.acknowledged == old(past.acknowledged)
      ensures past.sends == 1 && !old(past.observed) ==> Window(View()) && phase == WaitControlReply
    {
      ghost var after := SendTells(View());
      var kind := pending;
      pending := NoSend;
      match kind
      case Control =>
        if txn.action == Transaction && txn.step == Commit {
          txn, past := txn.(commitWritten := true), past.(observed := true);
        }
        phase := WaitControlReply;
      case Prepare => phase := WaitPrepareOk;
      case Execute => phase := if txn.action == Transaction then WaitCommandReply else WaitColumnCount;
      case CloseStatement =>
        if txn.action == Cursor { rows := rows.(cursorDone := true); }
        phase := if txn.action == Cursor || txn.step == Command then Ready else Done;
      case Quit => phase := Done;
      case Login => phase := LoggingIn;
      case NoSend => phase, status := Failed, Error(PROTOCOL);
      assert View() == after;
    }

    /** `mysql_session_handle_control_reply`: the window closes exactly on the OK, and no reply is ever COMMIT_UNKNOWN. */
    method HandleControlReply(m: Message, a: Admission)
      requires Valid() && phase == WaitControlReply && !unsolicited
      modifies this
      ensures Valid() && View() == Step(old(View()), Received(m, a))
      ensures past.acknowledged <==> old(Window(View())) && m.OkPacket?
      ensures status != COMMIT_UNKNOWN
      ensures old(Window(View())) ==>
                if m.OkPacket? then phase == Done
                else phase == Failed && status == Error(if m.ErrPacket? then SQL_ERROR else PROTOCOL)
    {
      ghost var after := ReplyTells(View(), m, a);
      if m.ErrPacket? {
        SetError(SQL_ERROR);
        return;
      }
      if !m.OkPacket? {
        SetError(PROTOCOL);
        return;
      }
      match txn.step
      case SetIsolation => SendControl(Begin, a);
      case Begin => txn, phase := txn.(active := true), Ready;
      case Savepoint => phase := Ready;
      case RollbackTo => phase := Ready;
      case ReleaseSavepoint => phase := Ready;
      case Commit =>
        txn, phase := txn.(commitWritten := false, active := false), Done;
        past := past.(acknowledged := true);
      case Rollback => txn, phase := txn.(active := false), Done;
      case NoStep => SetError(PROTOCOL);
      case Command => SetError(PROTOCOL);
      assert View() == after;
    }

    /** A message that arrives while COMMIT or ROLLBACK is awaited or over. */
    method HandleMessage(m: Message, a: Admission)
      requires Valid() && Finishing(View())
      modifies this
      ensures Valid() && View() == Step(old(View()), Received(m, a))
      ensures past.acknowledged <==> old(past.acknowledged || (Window(View()) && phase == WaitControlReply && !unsolicited && m.OkPacket?))
    {
      if phase == Failed || unsolicited { return; }
      if phase == WaitControlReply {
        WaitingIsUnacknowledged(View());
        HandleControlReply(m, a);
      } else {
        ReachedStep(View(), Received(m, a));
        SetError(PROTOCOL);
      }
    }

    /** `mysql_session_on_state`: inside the window a failed connection is COMMIT_UNKNOWN, and so is a closed one unless the
        session had failed already; outside it neither ever is. */
    method OnState(failed: bool)
      requires Valid()
      modifies `phase, `status
      ensures Valid() && View() == Step(old(View()), if failed then StateFailed else StateClosed)
      ensures Window(View()) && (failed || old(phase) != Failed) ==> phase == Failed && status == COMMIT_UNKNOWN
      ensures !Window(View()) ==> status != COMMIT_UNKNOWN
    {
      ReachedStep(View(), if failed then StateFailed else StateClosed);
      StateTells(View(), failed);
      AckIsWindow(View());
      if failed {
        SetTransportError(IO);
      } else if phase != Done && phase != Failed {
        if rows.cancel {
          phase := Done;
        } else {
          SetTransportError(IO);
        }
      }
    }

    /** `mysql_session_request_receive`, where the network layer may refuse. */
    method RequestReceive(accepted: bool)
      requires Valid() && WaitsForReceive(phase)
      modifies `phase, `status
      ensures Valid() && (accepted ==> View() == old(View()))
      ensures !accepted ==>
                && View() == Step(old(View()), ReceiveRefused) && phase == Failed
                && status == if Window(View()) then COMMIT_UNKNOWN else Error(IO)
    {
      AckIsWindow(View());
      if !accepted {
        ReachedStep(View(), ReceiveRefused);
        SetTransportError(IO);
      }
    }

    /** What `mysql_session_on_receive` makes of bytes that are no message: the header of an unsolicited error, the end of
        one that says 4031, or a bad frame.  Only a bad frame can replace a COMMIT_UNKNOWN. */
    method OnUnsolicited(e: Event)
      requires Valid() && (e.UnsolicitedBegins? || e.IdleTimeout? || e.BadFrame?)
      modifies `phase, `status, `unsolicited
      ensures Valid() && View() == Step(old(View()), e)
      ensures old(status) == COMMIT_UNKNOWN && !e.BadFrame? ==> status == COMMIT_UNKNOWN
      ensures Window(View()) && e.IdleTimeout? && old(phase != Failed || unsolicited) ==> status == COMMIT_UNKNOWN
      ensures e.BadFrame? && old(phase != Failed || unsolicited) ==> phase == Failed && status == Error(PROTOCOL)
    {
      ghost var after := UnsolicitedTells(View(), e);
      AckIsWindow(View());
      if phase == Failed && !unsolicited { return; }
      if e.UnsolicitedBegins? {
        unsolicited := true;
        return;
      }
      if e.IdleTimeout? {
        SetTransportError(IO);
      } else {
        SetError(PROTOCOL);
      }
      unsolicited := false;
      assert View() == after;
    }

    /** One callback while a transaction is being finished. */
    method Deliver(e: Event)
      requires Valid() && Finishing(View()) && !rows.cancel && Callback(e)
      modifies this
      ensures Valid() && Finishing(View()) && !rows.cancel && txn.step == old(txn.step) && View() == Step(old(View()), e)
    {
      FinishingStep(View(), e);
      match e
      case SendDone => OnSend();
      case Received(m, a) => HandleMessage(m, a);
      case StateFailed => OnState(true);
      case StateClosed => OnState(false);
      case ReceiveRefused => if WaitsForReceive(phase) { RequestReceive(false); }
      case UnsolicitedBegins => OnUnsolicited(e);
      case IdleTimeout => OnUnsolicited(e);
      case BadFrame => OnUnsolicited(e);
    }

    /** The callbacks of one poll, also those after the session has failed or is done. */
    method DeliverAll(events: seq<Event>)
      requires Valid() && Finishing(View()) && !rows.cancel && forall e :: e in events ==> Callback(e)
      modifies this
      ensures Valid() && Finishing(View()) && !rows.cancel && txn.step == old(txn.step) && View() == Run(old(View()), events)
    {
      var i := 0;
      assert events[..0] == [];
      while i < |events|
        invariant i <= |events| && Valid() && Finishing(View()) && !rows.cancel && txn.step == old(txn.step)
        invariant View() == Run(old(View()), events[..i])
      {
        RunSnoc(old(View()), events[..i], events[i]);
        assert events[..i] + [events[i]] == events[..i + 1];
        Deliver(events[i]);
        i := i + 1;
      }
      assert events[..i] == events;
    }

    /** The end of the progress loop, at the deadline or after a poll error: a session that is not over yet fails, inside the
        window with COMMIT_UNKNOWN. */
    method EndProgress(polled: bool)
      requires Valid()
      modifies `phase, `status
      ensures Valid() && View() == Step(old(View()), if polled then DeadlineExpires else PollFails)
      ensures (phase == Done || phase == Failed) && (old(Finishing(View())) ==> Finishing(View()))
      ensures Window(View()) && !(polled && old(phase) == Failed) ==> status == COMMIT_UNKNOWN
      ensures !Window(View()) ==> status != COMMIT_UNKNOWN
    {
      ghost var after := ProgressTells(View(), polled);
      if !polled {
        SetTransportError(IO);
      } else if phase != Done && phase != Failed {
        SetTransportError(TIMEOUT);
      }
      assert View() == after;
    }

    /** `mysql_session_progress_until`, to the end of COMMIT or ROLLBACK; the deadline has expired when `polls` is used up. */
    method ProgressUntilDone(polls: seq<Poll>) returns (ghost history: seq<Event>)
      requires Valid() && Finishing(View()) && !rows.cancel && Callbacks(polls)
      modifies this
      ensures Valid() && Finishing(View()) && txn.step == old(txn.step) && (phase == Done || phase == Failed)
      ensures View() == Run(old(View()), history)
    {
      history := [];
      var i := 0;
      while i < |polls| && phase != Done && phase != Failed
        invariant i <= |polls| && Valid() && Finishing(View()) && !rows.cancel && txn.step == old(txn.step)
        invariant View() == Run(old(View()), history)
      {
        if polls[i].Fails? {
          RunSnoc(old(View()), history, PollFails);
          history := history + [PollFails];
          EndProgress(false);
          return;
        }
        DeliverAll(polls[i].events);
        RunConcat(old(View()), history, polls[i].events);
        history := history + polls[i].events;
        i := i + 1;
      }
      RunSnoc(old(View()), history, DeadlineExpires);
      history := history + [DeadlineExpires];
      EndProgress(true);
    }

    /** The start of `mysql_transaction_finish` in a ready transaction. */
    method Start(commit: bool, a: Admission)
      requires Valid() && InTransaction(View())
      modifies this
      ensures Valid() && Finishing(View()) && !rows.cancel && txn.step == if commit then Commit else Rollback
      ensures View() == Step(old(View()), CallFinish(commit, a))
    {
      ghost var after := Started(View(), commit, a);
      status, txn := OK, if commit then txn.(commitWritten := false) else txn;
      SendControl(if commit then Commit else Rollback, a);
      assert txn == after.txn && past == after.past;
      assert View() == after;
    }

    /** `mysql_transaction_finish`, the whole call.  A COMMIT answered with OK was sent once and acknowledged; COMMIT_UNKNOWN
        means that its completion was observed and its OK was not; if any other failure is reported in that situation, it is
        the server's error or a violation of the protocol. */
    method Finish(commit: bool, a: Admission, polls: seq<Poll>) returns (result: Status, ghost history: seq<Event>)
      requires Valid() && Callbacks(polls)
      modifies this
      ensures Valid()
      ensures !old(InTransaction(View())) ==> result == Error(INVALID) && View() == old(View())
      ensures old(InTransaction(View())) ==> View() == Run(Step(old(View()), CallFinish(commit, a)), history)
      ensures result == OK ==> past.sends == (if commit then 1 else 0) && past.acknowledged == commit && !txn.active
      ensures result == COMMIT_UNKNOWN ==> commit && past.sends == 1 && past.observed && !past.acknowledged
      ensures old(InTransaction(View())) && past.observed && !past.acknowledged ==>
                result == COMMIT_UNKNOWN || result == Error(SQL_ERROR) || result == Error(PROTOCOL)
    {
      history := [];
      if !txn.active || phase != Ready || txn.action != Transaction { return Error(INVALID), []; }
      Start(commit, a);
      history := ProgressUntilDone(polls);
      FinishTells(View());
      if phase == Done { return OK, history; }
      result := if status != OK then status else Error(PROTOCOL);
    }

    /** `mysql_transaction_cursor_abort`, up to the progress loop: unless the session is over, this transaction will never
        commit (`AbandonedNeverCommits`). */
    method AbortCursor()
      requires Valid() && txn.action == Cursor
      modifies `rows, `txn
      ensures Valid()
      ensures if phase == Failed || phase == Done then View() == old(View()) else Abandoned(View()) && rows.cancel
      ensures View() == Step(old(View()), CallAbortCursor)
    {
      ReachedStep(View(), CallAbortCursor);
      AbortTells(View());
      if phase == Failed || phase == Done { return; }
      rows, txn := rows.(cancel := true), txn.(active := false);
    }

    /** `mysql_transaction_cursor_source_destroy`, after the drain: the transaction accepts calls again exactly if it is
        still active and the session ready. */
    method DestroyCursor()
      requires Valid() && txn.action == Cursor
      modifies `rows, `txn
      ensures Valid() && View() == Step(old(View()), CallDestroyCursor)
      ensures InTransaction(View()) <==> phase == Ready && txn.active
    {
      ReachedStep(View(), CallDestroyCursor);
      rows := rows.(cursorDone := false, cancel := false);
      if phase == Ready && txn.active { txn := txn.(action := Transaction); }
    }
  }
}
