/** What is known of a command that was, or was not, handed to the network: one command stream on its connection, and
    the batch operation that reports through it.  The answers of the I/O flow, the reply reader and the receipt parser
    come from the environment. */
module CommandOutcome {
  datatype Outcome = NOT_SENT | SEND_UNCERTAIN | REPLY_UNKNOWN | REPLIED

  datatype Phase = Sending | Receiving | Terminal

  datatype Kind = WAIT | ITEM | DONE | ERROR

  datatype Step = Step(kind: Kind, outcome: Outcome)

  /** A stream and the parts of its connection it touches; `accepted` remembers whether the I/O flow ever took a send
      of this stream. */
  datatype Stream = Stream(
    phase: Phase, sendOffset: nat, commandSize: nat, outcome: Outcome, replyRead: bool, end: Step,
    usable: bool, ioActive: bool, accepted: bool)

  datatype Io = Waits | Fails | Completes(ok: bool, bytes: nat)

  datatype Reply = NeedMore | Whole(isError: bool) | Malformed

  /** The environment's answers to one call. */
  datatype Answers = Answers(io: Io, waitable: bool, submits: bool, appends: bool, reply: Reply)

  function Opened(commandSize: nat): Stream {
    Stream(Sending, 0, commandSize, NOT_SENT, false, Step(DONE, NOT_SENT), true, false, false)
  }

  function Fail(s: Stream, outcome: Outcome, reusable: bool): (Stream, Step) {
    (s.(phase := Terminal, end := Step(ERROR, outcome), usable := reusable), Step(ERROR, outcome))
  }

  /** A wait that cannot be set up is an error, but does not end the stream. */
  function WaitStep(outcome: Outcome, waitable: bool): Step {
    Step(if waitable then WAIT else ERROR, outcome)
  }

  function Wait(s: Stream, waitable: bool): (Stream, Step) {
    (s, WaitStep(s.outcome, waitable))
  }

  /** Taking up the operation in flight: the stream goes on, or the call returns. */
  datatype Taken = Goes(s: Stream) | Returns(r: (Stream, Step))

  function TakeIo(s: Stream, a: Answers): Taken {
    if !s.ioActive then Goes(s)
    else match a.io
      case Waits => Returns(Wait(s, a.waitable))
      case Fails => Returns(Fail(s, s.outcome, false))
      case Completes(ok, bytes) =>
        var t := s.(ioActive := false);
        if !ok || bytes == 0 then Returns(Fail(t, t.outcome, false))
        else if t.phase == Sending then
          if t.sendOffset + bytes > t.commandSize then Returns(Fail(t, SEND_UNCERTAIN, false))
          else Goes(t.(sendOffset := t.sendOffset + bytes, outcome := SEND_UNCERTAIN))
        else if !a.appends then Returns(Fail(t, REPLY_UNKNOWN, false))
        else Goes(t)
  }

  function Send(s: Stream, a: Answers): (Stream, Step) {
    if !a.submits then Fail(s, if s.sendOffset == 0 then NOT_SENT else SEND_UNCERTAIN, false)
    else Wait(s.(outcome := SEND_UNCERTAIN, ioActive := true, accepted := true), a.waitable)
  }

  function Receive(s: Stream, a: Answers): (Stream, Step) {
    if s.replyRead then (s.(phase := Terminal, end := Step(DONE, REPLIED)), Step(DONE, REPLIED))
    else match a.reply
      case Whole(isError) =>
        if isError then Fail(s.(replyRead := true), REPLIED, true) else (s.(replyRead := true), Step(ITEM, REPLIED))
      case Malformed => Fail(s, REPLY_UNKNOWN, false)
      case NeedMore => if a.submits then Wait(s.(ioActive := true), a.waitable) else Fail(s, REPLY_UNKNOWN, false)
  }

  /** `redis_cflow_stream_next` for a single reply. */
  function Next(s: Stream, a: Answers): (Stream, Step) {
    if s.phase == Terminal then (s, s.end)
    else if !s.usable then Fail(s, s.outcome, false)
    else match TakeIo(s, a)
      case Returns(r) => r
      case Goes(t) =>
        if t.phase == Sending && t.sendOffset < t.commandSize then Send(t, a)
        else Receive(if t.phase == Sending then t.(phase := Receiving, outcome := REPLY_UNKNOWN) else t, a)
  }

  // ---- the batch operation -------------------------------------------------------------------

  datatype Report = Pending | StepError | CommitUnknown | Receipt

  datatype Batch = Batch(stream: Stream, terminal: bool, end: Report)

  function Failure(outcome: Outcome): Report {
    if outcome == NOT_SENT then StepError else CommitUnknown
  }

  /** `redis_cflow_stream_cancel`: the connection is spent even if the operation in flight cannot be stopped. */
  function CancelStream(s: Stream, stopped: bool): Stream {
    if s.phase == Terminal then s
    else if s.ioActive && !stopped then s.(usable := false)
    else s.(usable := false, ioActive := false, phase := Terminal)
  }

  function Finish(s: Stream, r: Report): (Batch, Report) {
    (Batch(s, true, r), r)
  }

  /** `redis_lua_apply_batch_next`; `readable` says whether the reply is a receipt. */
  function BatchNext(b: Batch, first: Answers, second: Answers, readable: bool, stopped: bool): (Batch, Report) {
    if b.terminal then (b, b.end)
    else
      var (s, n) := Next(b.stream, first);
      if n.kind == WAIT then (b.(stream := s), Pending)
      else if n.kind == ERROR then Finish(s, Failure(n.outcome))
      else if n.kind != ITEM || !readable then Finish(CancelStream(s, stopped), CommitUnknown)
      else
        var (t, m) := Next(s, second);
        if m.kind != DONE then Finish(CancelStream(t, stopped), Failure(m.outcome)) else Finish(t, Receipt)
  }

  /** A caller polls, or tries to cancel and cannot stop the operation in flight. */
  datatype Action = Poll(first: Answers, second: Answers, readable: bool, stopped: bool) | CancelFails

  function Act(b: Batch, a: Action): (Batch, Report) {
    match a
    case Poll(first, second, readable, stopped) => BatchNext(b, first, second, readable, stopped)
    case CancelFails => (if b.stream.ioActive then b.(stream := CancelStream(b.stream, false)) else b, Pending)
  }

  function After(b: Batch, actions: seq<Action>): Batch
    decreases |actions|
  {
    if actions == [] then b else After(Act(b, actions[0]).0, actions[1..])
  }

  /** Every report handed out. */
  function Reports(b: Batch, actions: seq<Action>): seq<Report>
    decreases |actions|
  {
    if actions == [] then [] else [Act(b, actions[0]).1] + Reports(Act(b, actions[0]).0, actions[1..])
  }

  // ---- what a report tells -------------------------------------------------------------------

  predicate Consistent(s: Stream) {
    && s.commandSize > 0 && (s.end.kind == DONE || s.end.kind == ERROR)
    && (s.phase == Sending ==>
          && (s.outcome == NOT_SENT <==> !s.accepted) && s.sendOffset <= s.commandSize && !s.replyRead
          && (s.sendOffset > 0 || s.ioActive <==> s.accepted))
    && (s.phase == Receiving ==> s.accepted && s.outcome == REPLY_UNKNOWN && s.sendOffset == s.commandSize)
    && (s.replyRead ==> s.sendOffset == s.commandSize && (s.phase == Receiving ==> !s.ioActive && s.usable))
  }

  lemma TakeIoKeeps(s: Stream, a: Answers)
    requires Consistent(s) && s.phase != Terminal && s.usable
    ensures
      match TakeIo(s, a)
      case Goes(t) =>
        Consistent(t) && t.phase == s.phase && t.accepted == s.accepted && t.replyRead == s.replyRead && !t.ioActive && t.usable
      case Returns((t, n)) =>
        && Consistent(t) && t.accepted == s.accepted && (n.kind == WAIT || n.kind == ERROR)
        && n.outcome != NOT_SENT && s.accepted && !s.replyRead && !t.replyRead && (n.kind == WAIT ==> t.phase != Terminal)
  {
  }

  /** One call: acceptance is never forgotten; an error says "not sent" exactly when no send was accepted; an item or
      the end comes only after the whole command went out. */
  lemma NextTells(s: Stream, a: Answers)
    requires Consistent(s) && s.phase != Terminal
    ensures
      var (t, n) := Next(s, a);
      && Consistent(t) && (s.accepted ==> t.accepted)
      && (n.kind == ERROR ==> (n.outcome == NOT_SENT <==> !t.accepted))
      && (n.kind == WAIT ==> t.phase != Terminal && t.accepted && !t.replyRead)
      && (n.kind == ITEM ==> t.accepted && t.replyRead && t.phase == Receiving && !s.replyRead)
      && (n.kind == DONE ==> t.accepted && s.replyRead && t.replyRead)
  {
    if s.usable { TakeIoKeeps(s, a); }
  }

  /** After a whole reply the next call is the end. */
  lemma ReplyThenEnd(s: Stream, a: Answers)
    requires Consistent(s) && s.phase == Receiving && s.replyRead
    ensures Next(s, a).1 == Step(DONE, REPLIED)
  {
  }

  /** The ways a call can leave a stream that is not over, and its connection. */
  lemma NextLeaves(s: Stream, a: Answers)
    requires Consistent(s) && s.phase != Terminal && s.usable
    ensures
      var (t, n) := Next(s, a);
      && (n.kind == WAIT || n.kind == ITEM ==> t.phase != Terminal && t.usable)
      && (n.kind == DONE ==> t.phase == Terminal && t.usable)
      && (n.kind == ERROR && t.phase != Terminal ==> t.usable && t.ioActive && !a.waitable)
      && (t.phase == Terminal ==> t.end == n)
  {
    TakeIoKeeps(s, a);
  }

  lemma CancelKeeps(s: Stream, stopped: bool)
    requires Consistent(s)
    ensures
      var t := CancelStream(s, stopped);
      && Consistent(t) && t.accepted == s.accepted && t.sendOffset == s.sendOffset && (t.phase != Terminal ==> s.ioActive && !stopped)
      && (s.phase != Terminal ==> !t.usable)
  {
  }

  predicate BatchOk(b: Batch) {
    && Consistent(b.stream)
    && (b.terminal ==> b.end != Pending && (b.end == StepError <==> !b.stream.accepted))
    && (b.terminal && b.end == Receipt ==> b.stream.replyRead)
    && (!b.terminal ==> b.stream.phase != Terminal && !b.stream.replyRead)
  }

  lemma ActKeeps(b: Batch, a: Action)
    requires BatchOk(b)
    ensures
      var (c, r) := Act(b, a);
      && BatchOk(c) && (b.terminal ==> c.terminal && c.end == b.end && (a.Poll? ==> r == b.end))
      && (b.stream.accepted ==> c.stream.accepted) && (r != Pending ==> c.terminal && c.end == r)
  {
    if a.Poll? && !b.terminal {
      NextTells(b.stream, a.first);
      var (s, n) := Next(b.stream, a.first);
      if n.kind == ITEM {
        ReplyThenEnd(s, a.second);
        NextTells(s, a.second);
      }
    }
  }

  /** HONEST REPORTS.  In every run of a batch operation, through partial sends, partial replies, failures at any
      point and failed cancellations: STEP_ERROR is reported only if no send was ever accepted, and once one has been,
      every failure is reported as COMMIT_UNKNOWN; a receipt means that the whole command went out and a whole reply
      came back. */
  lemma {:induction false} ReportsAreHonest(b: Batch, actions: seq<Action>, k: nat)
    requires BatchOk(b) && k < |Reports(b, actions)|
    ensures
      var r, end := Reports(b, actions)[k], After(b, actions);
      && BatchOk(end) && (b.stream.accepted ==> end.stream.accepted)
      && (b.terminal ==> end.terminal && end.end == b.end)
      && (r != Pending ==> end.terminal && end.end == r)
      && (r == StepError ==> !end.stream.accepted)
      && (r == CommitUnknown ==> end.stream.accepted)
      && (r == Receipt ==> end.stream.accepted && end.stream.replyRead && end.stream.sendOffset == end.stream.commandSize)
    decreases |actions|
  {
    var (c, r) := Act(b, actions[0]);
    ActKeeps(b, actions[0]);
    var rest := actions[1..];
    if rest == [] {
      assert k == 0;
    } else {
      ReportsAreHonest(c, rest, if k == 0 then 0 else k - 1);
    }
  }

  /** In particular for an operation just opened. */
  lemma OpenedIsHonest(commandSize: nat, actions: seq<Action>, k: nat)
    requires commandSize > 0
    requires k < |Reports(Batch(Opened(commandSize), false, Pending), actions)|
    ensures
      var b := Batch(Opened(commandSize), false, Pending);
      var r, end := Reports(b, actions)[k], After(b, actions);
      r != Pending ==> (r == StepError <==> !end.stream.accepted)
  {
    ReportsAreHonest(Batch(Opened(commandSize), false, Pending), actions, k);
  }
}
