/** Runs that reach the situations `SessionRuns` speaks about, and what becomes of a cursor that is aborted. */
module SessionCases {
  import opened Session
  import opened SessionRuns

  const NO_ROWS := Rows(false, false, false)

  /** After the login: the isolation level is set, then the transaction begins. */
  const SETTING := State(WaitControlReply, NoSend, OK, false, Txn(Transaction, SetIsolation, false, false), NO_ROWS, Past(0, false, false))
  const BEGINNING := State(WaitControlReply, NoSend, OK, false, Txn(Transaction, Begin, false, false), NO_ROWS, Past(0, false, false))
  const READY := State(Ready, NoSend, OK, false, Txn(Transaction, Begin, false, true), NO_ROWS, Past(0, false, false))

  /** COMMIT is being sent; it is out and its OK is awaited. */
  const COMMITTING := State(WaitControlSend, Control, OK, false, Txn(Transaction, Commit, false, true), NO_ROWS, Past(1, false, false))
  const IN_WINDOW := State(WaitControlReply, NoSend, OK, false, Txn(Transaction, Commit, true, true), NO_ROWS, Past(1, true, false))

  const TO_READY: seq<Event> :=
    [LoggedIn(Admitted), SendDone] + [Received(OkPacket, Admitted), SendDone] + [Received(OkPacket, Admitted)]

  const TO_WINDOW: seq<Event> := TO_READY + [CallFinish(true, Admitted)] + [SendDone]

  lemma RunThree(s: State, a: Event, b: Event, c: Event)
    ensures Run(s, [a]) == Step(s, a)
    ensures Run(s, [a, b]) == Step(Step(s, a), b)
    ensures Run(s, [a, b, c]) == Step(Step(Step(s, a), b), c)
  {
    assert [a][1..] == [];
    RunSnoc(s, [a], b);
    RunSnoc(s, [a, b], c);
    assert [a] + [b] == [a, b] && [a, b] + [c] == [a, b, c];
  }

  lemma LoginSteps()
    ensures Run(OPENED, [LoggedIn(Admitted), SendDone]) == SETTING
    ensures Run(SETTING, [Received(OkPacket, Admitted), SendDone]) == BEGINNING
  {
    RunThree(OPENED, LoggedIn(Admitted), SendDone, SendDone);
    RunThree(SETTING, Received(OkPacket, Admitted), SendDone, SendDone);
  }

  /** A session gets to a ready transaction. */
  lemma ReadyIsReached()
    ensures Run(OPENED, TO_READY) == READY && InTransaction(READY)
  {
    LoginSteps();
    var first, second := [LoggedIn(Admitted), SendDone], [Received(OkPacket, Admitted), SendDone];
    RunConcat(OPENED, first, second);
    RunSnoc(OPENED, first + second, Received(OkPacket, Admitted));
    assert Step(BEGINNING, Received(OkPacket, Admitted)) == READY;
  }

  lemma CommitIsSent()
    ensures Run(OPENED, TO_READY + [CallFinish(true, Admitted)]) == COMMITTING
  {
    ReadyIsReached();
    RunSnoc(OPENED, TO_READY, CallFinish(true, Admitted));
  }

  /** From there to the window. */
  lemma WindowIsReached()
    ensures Run(OPENED, TO_WINDOW) == IN_WINDOW && Window(IN_WINDOW)
  {
    CommitIsSent();
    RunSnoc(OPENED, TO_READY + [CallFinish(true, Admitted)], SendDone);
  }

  /** A malformed reply to COMMIT, which may have been executed, is reported as PROTOCOL. */
  lemma MalformedIsProtocol()
    ensures
      var s := Run(OPENED, TO_WINDOW + [Received(Malformed, Admitted)]);
      Window(s) && s.phase == Failed && s.status == Error(PROTOCOL)
  {
    WindowIsReached();
    RunSnoc(OPENED, TO_WINDOW, Received(Malformed, Admitted));
  }

  /** A connection that fails while COMMIT is being sent is reported as IO, and the completion of the send revives the
      session into the window. */
  lemma FailedIsRevived()
    ensures
      var s := Run(OPENED, TO_READY + [CallFinish(true, Admitted)] + [StateFailed]);
      && s.phase == Failed && s.status == Error(IO)
      && Run(s, [SendDone]).phase == WaitControlReply && Window(Run(s, [SendDone]))
  {
    CommitIsSent();
    RunSnoc(OPENED, TO_READY + [CallFinish(true, Admitted)], StateFailed);
    RunThree(Step(COMMITTING, StateFailed), SendDone, SendDone, SendDone);
  }

  /** A reported COMMIT_UNKNOWN is replaced by PROTOCOL. */
  lemma UnknownIsLost()
    ensures
      var s := Run(OPENED, TO_WINDOW + [UnsolicitedBegins, StateFailed]);
      s.status == COMMIT_UNKNOWN && s.phase == Failed && Run(s, [BadFrame]).status == Error(PROTOCOL)
  {
    WindowIsReached();
    RunConcat(OPENED, TO_WINDOW, [UnsolicitedBegins, StateFailed]);
    RunThree(IN_WINDOW, UnsolicitedBegins, StateFailed, BadFrame);
    RunThree(Step(Step(IN_WINDOW, UnsolicitedBegins), StateFailed), BadFrame, BadFrame, BadFrame);
  }

  /** An acknowledged COMMIT is reported as IO. */
  lemma AcknowledgedIsLost()
    ensures
      var s := Run(OPENED, TO_WINDOW + [Received(OkPacket, Admitted)]);
      && s.phase == Done && s.past.acknowledged
      && Run(s, [StateFailed]).phase == Failed && Run(s, [StateFailed]).status == Error(IO)
  {
    WindowIsReached();
    RunSnoc(OPENED, TO_WINDOW, Received(OkPacket, Admitted));
    RunThree(Step(IN_WINDOW, Received(OkPacket, Admitted)), StateFailed, StateFailed, StateFailed);
  }

  // ---- aborting a cursor ---------------------------------------------------------------------

  /** A cursor of a transaction that is still active, whose statement is being sent. */
  predicate Sending(s: State, kind: Send) {
    s.txn.action == Cursor && s.txn.step == NoStep && s.txn.active && !s.rows.cancel && s.past.sends == 0 && s.pending == kind
  }

  lemma FromClose(s: State) returns (events: seq<Event>)
    requires Sending(s, CloseStatement)
    ensures Run(s, events).past.sends == 1
  {
    events := [SendDone, CallDestroyCursor, CallFinish(true, Admitted)];
    RunThree(s, SendDone, CallDestroyCursor, CallFinish(true, Admitted));
    var t := Step(Step(s, SendDone), CallDestroyCursor);
    assert InTransaction(t) && t.past.sends == 0;
  }

  lemma FromExecute(s: State) returns (events: seq<Event>)
    requires Sending(s, Execute) && !s.unsolicited
    ensures Run(s, events).past.sends == 1
  {
    var first := [SendDone, Received(ColumnCount, Admitted), Received(Definition(true), Admitted)];
    RunThree(s, SendDone, Received(ColumnCount, Admitted), Received(Definition(true), Admitted));
    var t := Run(s, first);
    assert t.phase == CursorReady && Sending(t, NoSend) && !t.unsolicited;
    RunThree(t, CallNextRow, Received(End, Admitted), SendDone);
    var u := Run(t, [CallNextRow, Received(End, Admitted)]);
    assert Sending(u, CloseStatement);
    var rest := FromClose(u);
    RunConcat(t, [CallNextRow, Received(End, Admitted)], rest);
    RunConcat(s, first, [CallNextRow, Received(End, Admitted)] + rest);
    events := first + ([CallNextRow, Received(End, Admitted)] + rest);
  }

  lemma FromPrepare(s: State) returns (events: seq<Event>)
    requires Sending(s, Prepare) && !s.unsolicited
    ensures Run(s, events).past.sends == 1
  {
    var ok := PrepareOk(true, false, true);
    var first := [SendDone, Received(ok, Admitted), Received(Definition(true), Admitted)];
    RunThree(s, SendDone, Received(ok, Admitted), Received(Definition(true), Admitted));
    var t := Run(s, first);
    assert Sending(t, Execute) && !t.unsolicited;
    var rest := FromExecute(t);
    RunConcat(s, first, rest);
    events := first + rest;
  }

  lemma FromSending(s: State) returns (events: seq<Event>)
    requires !s.unsolicited && (Sending(s, Prepare) || Sending(s, Execute) || Sending(s, CloseStatement))
    ensures Run(s, events).past.sends == 1
  {
    match s.pending
    case Prepare => events := FromPrepare(s);
    case Execute => events := FromExecute(s);
    case _ => events := FromClose(s);
  }

  /** The session has failed, but a send of the cursor's statement is under way and the transaction was active. */
  predicate Survives(s: State) {
    s.phase == Failed && s.txn.active && s.pending != NoSend
  }

  lemma SurvivorSends(s: State)
    requires Reached(s) && s.txn.action == Cursor && Survives(s)
    ensures Sending(s, Prepare) || Sending(s, Execute) || Sending(s, CloseStatement)
  {
    ReachedKeeps(s);
  }

  lemma SurvivorCommits(s: State) returns (events: seq<Event>)
    requires Reached(s) && s.txn.action == Cursor && Survives(s)
    ensures Run(s, events).past.sends == 1
  {
    SurvivorSends(s);
    if s.unsolicited {
      var t := Step(s, BadFrame);
      assert !t.unsolicited && t.pending == s.pending && t.txn == s.txn && t.rows == s.rows && t.past == s.past;
      var rest := FromSending(t);
      assert ([BadFrame] + rest)[1..] == rest;
      events := [BadFrame] + rest;
    } else {
      events := FromSending(s);
    }
  }

  /** Such a state is reached. */
  lemma SurvivorIsReached()
    ensures
      var s := Run(OPENED, TO_READY + [CallOpenCursor(Admitted)] + [StateFailed]);
      Reached(s) && s.txn.action == Cursor && Survives(s)
  {
    ReadyIsReached();
    RunSnoc(OPENED, TO_READY, CallOpenCursor(Admitted));
    RunSnoc(OPENED, TO_READY + [CallOpenCursor(Admitted)], StateFailed);
  }

  /** Otherwise it is abandoned, or has failed for good. */
  lemma AbortedIsOver(s: State)
    requires Reached(s) && s.txn.action == Cursor && !Survives(s)
    ensures
      var t := Step(s, CallAbortCursor);
      Abandoned(t) || (t.phase == Failed && t.pending == NoSend && t.past.sends == 0)
  {
    ReachedKeeps(s);
    AbortTells(s);
  }

  lemma FailedIdles(s: State, e: Event)
    requires s.phase == Failed && s.pending == NoSend
    ensures var t := Step(s, e); t.phase == Failed && t.pending == NoSend && t.past == s.past
  {
    if Callback(e) {
      FailedQuiet(s, e);
      if e.Received? { assert OnMessage(s, e.message, e.admission) == s; }
    } else if e.CallExecute? || e.CallSavepoint? || e.CallOpenCursor? || e.CallFinish? {
      assert CallStep(s, e) == s;
    }
  }

  lemma {:induction false} FailedNeverCommits(s: State, events: seq<Event>)
    requires s.phase == Failed && s.pending == NoSend && s.past.sends == 0
    ensures Run(s, events).past.sends == 0
    decreases |events|
  {
    if events != [] {
      FailedIdles(s, events[0]);
      FailedNeverCommits(Step(s, events[0]), events[1..]);
    }
  }

  ghost predicate CanCommit(s: State) {
    exists events :: Run(s, events).past.sends > 0
  }

  /** ABORTING A CURSOR.  In every reachable state, after a cursor was aborted some run still sends a COMMIT if and only if
      the session had failed with a send under way, in an active transaction: the abort is then no step at all, and the
      completion of that send revives the session. */
  lemma AbortPreventsCommit(s: State)
    requires Reached(s) && s.txn.action == Cursor
    ensures CanCommit(Step(s, CallAbortCursor)) <==> Survives(s)
  {
    var t := Step(s, CallAbortCursor);
    if Survives(s) {
      assert t == s;
      var events := SurvivorCommits(s);
      assert Run(t, events).past.sends > 0;
    } else {
      AbortedIsOver(s);
      forall events ensures Run(t, events).past.sends == 0 {
        if Abandoned(t) { AbandonedNeverCommits(t, events); } else { FailedNeverCommits(t, events); }
      }
    }
  }
}
