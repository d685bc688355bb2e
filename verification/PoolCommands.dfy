/** What the pool sees of a command stream: every call on the stream is one of the answers the pool reckons with. */
module PoolCommands {
  import Pool
  import Outcome = CommandOutcome

  /** The pool's record of a stream tells how the command stands: ended or not, and until then whether its connection is
      usable. */
  predicate Shows(p: Pool.PoolState, id: nat, s: Outcome.Stream)
    requires Pool.Known(p, id)
  {
    && (p.streams[id].ended <==> s.phase.Terminal?)
    && (!p.streams[id].ended ==> p.slots[p.streams[id].slot].usable == s.usable)
  }

  /** The answer that a call amounts to. */
  function AnswerOf(s: Outcome.Stream, n: Outcome.Step): Pool.Answer {
    match n.kind
    case WAIT => Pool.Continues
    case ITEM => Pool.Continues
    case DONE => Pool.Ends
    case ERROR => if s.phase.Terminal? then Pool.Errs(s.usable) else Pool.NoWaitable
  }

  /** EVERY CALL of `next` on the command stream, whatever the I/O flow and the reader answer, is one of the four answers:
      the pool ends and spends the connection exactly when the command does, and takes for an end, or for a failure, exactly
      what the caller is handed as one. */
  lemma NextIsAnswer(p: Pool.PoolState, id: nat, s: Outcome.Stream, a: Outcome.Answers)
    requires Pool.Known(p, id) && Shows(p, id, s) && Outcome.Consistent(s)
    ensures
      var (t, n) := Outcome.Next(s, a);
      var q := Pool.InnerNext(p, id, AnswerOf(t, n));
      && Pool.Known(q, id) && Shows(q, id, t)
      && (!p.streams[id].ended ==> q.slots[p.streams[id].slot].usable == t.usable)
      && Pool.Terminates(p, id, AnswerOf(t, n)) == (n.kind.DONE? || n.kind.ERROR?, !n.kind.DONE?)
  {
    if !s.phase.Terminal? {
      Outcome.NextTells(s, a);
      if s.usable { Outcome.NextLeaves(s, a); }
    }
  }

  /** So is every cancellation; one with nothing in flight always succeeds. */
  lemma CancelIsAnswer(p: Pool.PoolState, id: nat, s: Outcome.Stream, stopped: bool)
    requires Pool.Known(p, id) && Shows(p, id, s) && Outcome.Consistent(s)
    ensures
      var t := Outcome.CancelStream(s, stopped);
      var q := Pool.InnerCancel(p, id, stopped || !s.ioActive);
      Pool.Known(q, id) && Shows(q, id, t) && (!p.streams[id].ended ==> q.slots[p.streams[id].slot].usable == t.usable)
  {
  }
}
