/** The command stream and the batch operation as objects updated call by call. */
module CommandStreams {
  import opened CommandOutcome

  class CommandStream {
    var phase: Phase
    var sendOffset: nat
    const commandSize: nat
    var outcome: Outcome
    var replyRead: bool
    var terminal: Step
    var usable: bool
    var ioActive: bool
    ghost var accepted: bool

    ghost function View(): Stream
      reads this
    {
      Stream(phase, sendOffset, commandSize, outcome, replyRead, terminal, usable, ioActive, accepted)
    }

    /** What is remembered agrees with what the I/O flow has accepted. */
    ghost predicate Valid()
      reads this
    {
      Consistent(View())
    }

    /** `redis_cflow_stream_open_mode` on a usable connection with no other stream; a printed command is never empty. */
    constructor (size: nat)
      requires size > 0
      ensures Valid() && View() == Opened(size)
    {
      phase, sendOffset, commandSize, outcome, replyRead := Sending, 0, size, NOT_SENT, false;
      terminal, usable, ioActive, accepted := Step(DONE, NOT_SENT), true, false, false;
    }

    /** `redis_cflow_fail`: the stream ends with an error, which says "not sent" exactly if no send was accepted, provided
        the outcome given does; the connection is spent unless it can be used again. */
    method Fail(outcome: Outcome, reusable: bool) returns (step: Step)
      requires Consistent(View().(phase := Terminal)) && (usable || !reusable) && (outcome == NOT_SENT <==> !accepted)
      modifies `phase, `terminal, `usable
      ensures Valid() && phase == Terminal && terminal == step && usable == reusable
      ensures step.kind == ERROR && step.outcome == outcome && (step.outcome == NOT_SENT <==> !accepted)
    {
      step := Step(ERROR, outcome);
      phase, terminal := Terminal, step;
      if !reusable { usable := false; }
    }

    /** The operation in flight is taken up: the call `goes` on with nothing in flight, or returns, and then the command was
        accepted and no reply has been read.  Acceptance never changes here and the offset never decreases. */
    method TakeIo(a: Answers) returns (goes: bool, step: Step)
      requires Valid() && usable && phase != Terminal
      modifies this
      ensures CommandOutcome.TakeIo(old(View()), a) == if goes then Goes(View()) else Returns((View(), step))
      ensures Valid() && accepted == old(accepted) && replyRead == old(replyRead) && old(sendOffset) <= sendOffset
      ensures goes ==> phase == old(phase) && usable && !ioActive
      ensures !goes ==> accepted && !replyRead && (step.kind == WAIT || step.kind == ERROR) && step.outcome != NOT_SENT
    {
      TakeIoKeeps(View(), a);
      goes, step := false, Step(WAIT, outcome);
      if !ioActive { return true, step; }
      if a.io.Waits? { return false, WaitStep(outcome, a.waitable); }
      if a.io.Completes? { ioActive := false; }
      if a.io.Fails? || !a.io.ok || a.io.bytes == 0 {
        step := Fail(outcome, false);
      } else if phase == Sending {
        if a.io.bytes > commandSize - sendOffset {
          step := Fail(SEND_UNCERTAIN, false);
        } else {
          sendOffset, outcome, goes := sendOffset + a.io.bytes, SEND_UNCERTAIN, true;
        }
      } else if !a.appends {
        step := Fail(REPLY_UNKNOWN, false);
      } else {
        goes := true;
      }
    }

    /** The receiving half of a call, once the whole command is out: an item is a reply just read, the end comes after one,
        and nothing here says "not sent". */
    method Receive(a: Answers) returns (step: Step)
      requires Valid() && usable && phase == Receiving && !ioActive
      modifies this
      ensures (View(), step) == CommandOutcome.Receive(old(View()), a)
      ensures Valid() && accepted && sendOffset == commandSize && step.outcome != NOT_SENT
      ensures (step.kind == DONE <==> old(replyRead)) && (step.kind == ITEM ==> replyRead && phase == Receiving)
    {
      if replyRead {
        phase, terminal := Terminal, Step(DONE, REPLIED);
        return terminal;
      }
      match a.reply
      case Whole(isError) =>
        replyRead := true;
        if isError {
          step := Fail(REPLIED, true);
        } else {
          step := Step(ITEM, REPLIED);
        }
      case Malformed =>
        step := Fail(REPLY_UNKNOWN, false);
      case NeedMore =>
        if a.submits {
          ioActive := true;
          step := WaitStep(outcome, a.waitable);
        } else {
          step := Fail(REPLY_UNKNOWN, false);
        }
    }

    /** `redis_cflow_stream_next`.  Whatever the I/O flow and the reader answer: acceptance is never forgotten, an error says
        "not sent" exactly if no send was accepted, items and ends follow a whole command, and an ended stream repeats its
        end. */
    method Next(a: Answers) returns (step: Step)
      requires Valid()
      modifies this
      ensures (View(), step) == CommandOutcome.Next(old(View()), a)
      ensures Valid() && (old(accepted) ==> accepted)
      ensures old(phase) == Terminal ==> View() == old(View()) && step == terminal
      ensures old(phase) != Terminal && step.kind == ERROR ==> (step.outcome == NOT_SENT <==> !accepted)
      ensures old(phase) != Terminal && (step.kind == ITEM || step.kind == DONE) ==> accepted && replyRead && sendOffset == commandSize
    {
      if phase == Terminal { return terminal; }
      NextTells(View(), a);
      if !usable {
        step := Fail(outcome, false);
        return;
      }
      var goes;
      goes, step := TakeIo(a);
      if !goes { return; }
      if phase == Sending {
        if sendOffset < commandSize {
          if !a.submits {
            step := Fail(if sendOffset == 0 then NOT_SENT else SEND_UNCERTAIN, false);
          } else {
            outcome, ioActive, accepted := SEND_UNCERTAIN, true, true;
            step := WaitStep(outcome, a.waitable);
          }
          return;
        }
        phase, outcome := Receiving, REPLY_UNKNOWN;
      }
      step := Receive(a);
    }

    /** `redis_cflow_stream_cancel`: the stream is over unless its operation in flight cannot be stopped; a connection that
        still worked for it is spent either way. */
    method Cancel(stopped: bool) returns (done: bool)
      requires Valid()
      modifies this
      ensures View() == CancelStream(old(View()), stopped)
      ensures Valid() && accepted == old(accepted) && (done <==> phase == Terminal) && (!done ==> old(ioActive) && !stopped)
      ensures old(phase) != Terminal ==> !usable
    {
      CancelKeeps(View(), stopped);
      if phase == Terminal { return true; }
      usable := false;
      if ioActive {
        if !stopped { return false; }
        ioActive := false;
      }
      phase := Terminal;
      return true;
    }
  }

  class BatchOperation {
    const stream: CommandStream
    var terminal: bool
    var end: Report

    ghost function View(): Batch
      reads this, stream
    {
      Batch(stream.View(), terminal, end)
    }

    ghost predicate Valid()
      reads this, stream
    {
      BatchOk(View())
    }

    constructor (size: nat)
      requires size > 0
      ensures Valid() && View() == Batch(Opened(size), false, Pending) && fresh(stream)
    {
      stream := new CommandStream(size);
      terminal, end := false, Pending;
    }

    /** `redis_lua_apply_batch_next`.  Its report is honest: STEP_ERROR exactly if the operation is over and no send was ever
        accepted, COMMIT_UNKNOWN only if one was, a receipt only after the whole command and a whole reply; the first one
        is final. */
    method Next(first: Answers, second: Answers, readable: bool, stopped: bool) returns (report: Report)
      requires Valid()
      modifies this, stream
      ensures (View(), report) == BatchNext(old(View()), first, second, readable, stopped)
      ensures Valid() && (report != Pending <==> terminal) && (terminal ==> end == report)
      ensures old(terminal) ==> View() == old(View())
      ensures terminal ==> (report == StepError <==> !stream.accepted)
      ensures report == Receipt ==> stream.accepted && stream.replyRead && stream.sendOffset == stream.commandSize
    {
      ActKeeps(View(), Poll(first, second, readable, stopped));
      if terminal { return end; }
      var native := stream.Next(first);
      if native.kind == WAIT { return Pending; }
      if native.kind == ERROR {
        report := Failure(native.outcome);
      } else if native.kind != ITEM || !readable {
        var _ := stream.Cancel(stopped);
        report := CommitUnknown;
      } else {
        native := stream.Next(second);
        if native.kind != DONE {
          var _ := stream.Cancel(stopped);
          report := Failure(native.outcome);
        } else {
          report := Receipt;
        }
      }
      terminal, end := true, report;
    }
  }
}
