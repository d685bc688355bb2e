/** The reader gives the same answer however the input arrives, and that answer is the recursive decoder's. */
module RespProofs {
  import opened Decimal
  import opened Resp

  // ---- more input does not change what was already decided -----------------------------------

  lemma FindUnique(buf: string, from: nat, end: nat)
    requires from <= end && LineEnd(buf, end)
    requires forall i :: from <= i < end ==> !LineEnd(buf, i)
    ensures FindLine(buf, from) == Some(end)
  {
    var r := FindLine(buf, from);
    assert r.Some? && !(r.value < end) && !(end < r.value);
  }

  lemma FindStable(buf: string, more: string, from: nat)
    requires FindLine(buf, from).Some?
    ensures FindLine(buf + more, from) == FindLine(buf, from)
  {
    var end := FindLine(buf, from).value;
    assert forall i :: 0 <= i <= end ==> (LineEnd(buf + more, i) <==> LineEnd(buf, i));
    FindUnique(buf + more, from, end);
  }

  lemma HeaderStable(c: Config, buf: string, more: string, offset: nat, end: nat, alloc: nat)
    requires offset <= end && LineEnd(buf, end)
    ensures LineEnd(buf + more, end)
    ensures HeaderAt(c, buf + more, offset, end, alloc) == HeaderAt(c, buf, offset, end, alloc)
  {
    assert (buf + more)[offset..end + 2] == buf[offset..end + 2];
  }

  lemma BodyStable(c: Config, buf: string, more: string, offset: nat, header: nat, length: nat, alloc: nat)
    requires offset + header <= |buf|
    ensures
      var b := BodyAt(c, buf, offset, header, length, alloc);
      !b.Wait? ==> BodyAt(c, buf + more, offset, header, length, alloc) == b
  {
    var total := header + length + 2;
    if offset + total <= |buf| {
      assert (buf + more)[offset + header..offset + header + length] == buf[offset + header..offset + header + length];
      assert LineEnd(buf + more, offset + total - 2) <==> LineEnd(buf, offset + total - 2);
    }
  }

  lemma StepStable(c: Config, buf: string, more: string, st: State)
    requires Fits(buf, st) && !Step(c, buf, st).Starved?
    ensures Fits(buf + more, st) && Step(c, buf + more, st) == Step(c, buf, st)
  {
    match st.bulk
    case BulkOf(header, length) => BodyStable(c, buf, more, st.offset, header, length, st.alloc);
    case NoBulk =>
      if |st.frames| <= MAX_DEPTH {
        FindStable(buf, more, st.offset);
        HeaderStable(c, buf, more, st.offset, FindLine(buf, st.offset).value, st.alloc);
      }
  }

  /** Resuming the kept state on the longer buffer is the same as reading it from where `st` stood. */
  lemma {:induction false} RunResumes(c: Config, buf: string, more: string, st: State)
    requires Fits(buf, st)
    ensures Fits(buf + more, st)
    ensures
      match Run(c, buf, st)
      case More(kept) => Fits(buf, kept) && Fits(buf + more, kept) && Run(c, buf + more, st) == Run(c, buf + more, kept)
      case r => Run(c, buf + more, st) == r
    decreases |buf| - st.offset, if st.bulk.NoBulk? then 1 else 0
  {
    if !Step(c, buf, st).Starved? { StepStable(c, buf, more, st); }
    if Step(c, buf, st).Next? { RunResumes(c, buf, more, Step(c, buf, st).state); }
  }

  // ---- calls over a growing buffer -----------------------------------------------------------

  /** What the caller keeps between calls. */
  datatype Reader = Idle | Busy(state: State)

  datatype Answer = NeedMore | Value(value: Reply, consumed: nat) | Problem(code: int)

  function Call(c: Config, reader: Reader, buf: string): (Reader, Answer)
    requires reader.Busy? ==> Fits(buf, reader.state)
  {
    if c.max == 0 then (reader, Problem(PROTOCOL))
    else if buf == "" then (reader, NeedMore)
    else if reader.Idle? && c.owner > c.max then (Idle, Problem(LIMIT))
    else
      match Run(c, buf, if reader.Busy? then reader.state else Begin(c))
      case More(kept) => (Busy(kept), NeedMore)
      case Done(v, n) => (Idle, Value(v, n))
      case Fail(code) => (Idle, Problem(code))
  }

  function Concat(chunks: seq<string>): string {
    if chunks == [] then "" else chunks[0] + Concat(chunks[1..])
  }

  /** Append a chunk, call the reader, and so on until it has an answer. */
  function Feed(c: Config, reader: Reader, buf: string, chunks: seq<string>): Answer
    requires reader.Busy? ==> Fits(buf, reader.state)
    decreases chunks
  {
    if chunks == [] then NeedMore
    else
      var longer := buf + chunks[0];
      FitsLonger(buf, chunks[0], reader);
      var (kept, answer) := Call(c, reader, longer);
      CallFits(c, reader, longer);
      if answer.NeedMore? then Feed(c, kept, longer, chunks[1..]) else answer
  }

  lemma FitsLonger(buf: string, more: string, reader: Reader)
    requires reader.Busy? ==> Fits(buf, reader.state)
    ensures reader.Busy? ==> Fits(buf + more, reader.state)
  {
  }

  lemma CallFits(c: Config, reader: Reader, buf: string)
    requires reader.Busy? ==> Fits(buf, reader.state)
    ensures Call(c, reader, buf).0.Busy? ==> Fits(buf, Call(c, reader, buf).0.state)
  {
    if c.max != 0 && buf != "" && !(reader.Idle? && c.owner > c.max) {
      RunResumes(c, buf, "", if reader.Busy? then reader.state else Begin(c));
    }
  }

  /** The reader is where a first call on `buf` would have left it. */
  ghost predicate CaughtUp(c: Config, reader: Reader, buf: string) {
    && (reader.Busy? ==> Fits(buf, reader.state))
    && Call(c, Idle, buf) == (reader, NeedMore)
  }

  lemma CallContinues(c: Config, reader: Reader, buf: string, more: string)
    requires CaughtUp(c, reader, buf)
    ensures reader.Busy? ==> Fits(buf + more, reader.state)
    ensures Call(c, reader, buf + more) == Call(c, Idle, buf + more)
  {
    if buf == "" {
      assert buf + more == more;
    } else {
      RunResumes(c, buf, more, Begin(c));
    }
  }

  lemma AnswerStable(c: Config, buf: string, more: string)
    requires !Call(c, Idle, buf).1.NeedMore?
    ensures Call(c, Idle, buf + more).1 == Call(c, Idle, buf).1
  {
    if buf != "" { RunResumes(c, buf, more, Begin(c)); }
  }

  lemma {:induction false} FeedFrom(c: Config, reader: Reader, buf: string, chunks: seq<string>)
    requires CaughtUp(c, reader, buf)
    ensures Feed(c, reader, buf, chunks) == Call(c, Idle, buf + Concat(chunks)).1
    decreases chunks
  {
    if chunks == [] {
      assert buf + Concat(chunks) == buf;
    } else {
      var longer, rest := buf + chunks[0], Concat(chunks[1..]);
      assert buf + Concat(chunks) == longer + rest;
      CallContinues(c, reader, buf, chunks[0]);
      CallFits(c, Idle, longer);
      var (kept, answer) := Call(c, Idle, longer);
      if answer.NeedMore? { FeedFrom(c, kept, longer, chunks[1..]); } else { AnswerStable(c, longer, rest); }
    }
  }

  /** CHUNKING.  For every input and every way of cutting it into appends, calling the reader after each
      append ends with the same reply, consumed count or error code as one call on the whole input. */
  lemma ChunkingIrrelevant(c: Config, chunks: seq<string>)
    requires c.max > 0 || chunks != []
    ensures Feed(c, Idle, "", chunks) == Call(c, Idle, Concat(chunks)).1
  {
    if c.max > 0 { FeedFrom(c, Idle, "", chunks); }
    assert "" + Concat(chunks) == Concat(chunks);
  }

  // ---- the stack machine is the recursive decoder --------------------------------------------

  /** Carries on after a value has been read in front of `frames`. */
  function Resume(c: Config, buf: string, frames: seq<Frame>, v: Reply, next: nat, alloc: nat): Result
    requires next <= |buf|
  {
    match Complete(frames, v)
    case Root(r) => Done(r, next)
    case Open(fs) => Run(c, buf, State(alloc, fs, next, NoBulk))
  }

  ghost predicate Matches(c: Config, buf: string, frames: seq<Frame>, d: Decoded, r: Result) {
    match d
    case Ok(v, next, alloc) => next <= |buf| && r == Resume(c, buf, frames, v, next, alloc)
    case Short => r.More?
    case Bad(code) => r == Fail(code)
  }

  lemma BulkDecodes(c: Config, buf: string, frames: seq<Frame>, pos: nat, alloc: nat)
    requires pos <= |buf| && |frames| <= MAX_DEPTH && FindLine(buf, pos).Some?
    requires HeaderAt(c, buf, pos, FindLine(buf, pos).value, alloc).OpenBulk?
    ensures Matches(c, buf, frames, Decode(c, buf, pos, |frames|, alloc), Run(c, buf, State(alloc, frames, pos, NoBulk)))
  {
    var end := FindLine(buf, pos).value;
    var length := HeaderAt(c, buf, pos, end, alloc).length;
    var st := State(alloc, frames, pos, NoBulk);
    var st' := State(alloc, frames, pos, BulkOf(end + 2 - pos, length));
    assert Step(c, buf, st) == Next(st');
    assert Run(c, buf, st) == Run(c, buf, st');
  }

  lemma OpenArrayHasItems(c: Config, buf: string, pos: nat, end: nat, alloc: nat)
    requires pos <= end && LineEnd(buf, end) && HeaderAt(c, buf, pos, end, alloc).OpenArray?
    ensures HeaderAt(c, buf, pos, end, alloc).count > 0
  {
  }

  lemma ArrayOpens(c: Config, buf: string, frames: seq<Frame>, pos: nat, alloc: nat)
    requires pos <= |buf| && |frames| <= MAX_DEPTH && FindLine(buf, pos).Some?
    requires HeaderAt(c, buf, pos, FindLine(buf, pos).value, alloc).OpenArray?
    ensures
      var end := FindLine(buf, pos).value;
      var h := HeaderAt(c, buf, pos, end, alloc);
      && Run(c, buf, State(alloc, frames, pos, NoBulk)) ==
         Run(c, buf, State(h.alloc, frames + [Frame(h.count, [])], end + 2, NoBulk))
      && Decode(c, buf, pos, |frames|, alloc) == DecodeItems(c, buf, end + 2, |frames| + 1, h.alloc, h.count, [])
  {
    var end := FindLine(buf, pos).value;
    var h := HeaderAt(c, buf, pos, end, alloc);
    assert Step(c, buf, State(alloc, frames, pos, NoBulk)) ==
           Next(State(h.alloc, frames + [Frame(h.count, [])], end + 2, NoBulk));
  }

  lemma StopDecodes(c: Config, buf: string, frames: seq<Frame>, pos: nat, alloc: nat)
    requires pos <= |buf|
    requires |frames| > MAX_DEPTH || FindLine(buf, pos).None? || HeaderAt(c, buf, pos, FindLine(buf, pos).value, alloc).Refuse?
    ensures Matches(c, buf, frames, Decode(c, buf, pos, |frames|, alloc), Run(c, buf, State(alloc, frames, pos, NoBulk)))
  {
    var st := State(alloc, frames, pos, NoBulk);
    assert Step(c, buf, st).Failed? || Step(c, buf, st).Starved?;
  }

  lemma LeafDecodes(c: Config, buf: string, frames: seq<Frame>, pos: nat, alloc: nat)
    requires pos <= |buf| && |frames| <= MAX_DEPTH && FindLine(buf, pos).Some?
    requires HeaderAt(c, buf, pos, FindLine(buf, pos).value, alloc).Leaf?
    ensures Matches(c, buf, frames, Decode(c, buf, pos, |frames|, alloc), Run(c, buf, State(alloc, frames, pos, NoBulk)))
  {
    var end := FindLine(buf, pos).value;
    var h := HeaderAt(c, buf, pos, end, alloc);
    var st := State(alloc, frames, pos, NoBulk);
    assert Step(c, buf, st) == Attach(frames, h.value, end + 2, h.alloc);
    assert Decode(c, buf, pos, |frames|, alloc) == Ok(h.value, end + 2, h.alloc);
  }

  /** Reading one value off the stack machine is decoding it and carrying on. */
  lemma {:induction false} RunDecodes(c: Config, buf: string, frames: seq<Frame>, pos: nat, alloc: nat)
    requires pos <= |buf|
    ensures Matches(c, buf, frames, Decode(c, buf, pos, |frames|, alloc), Run(c, buf, State(alloc, frames, pos, NoBulk)))
    decreases |buf| - pos, 0, 0
  {
    if |frames| > MAX_DEPTH || FindLine(buf, pos).None? {
      StopDecodes(c, buf, frames, pos, alloc);
    } else {
      var end := FindLine(buf, pos).value;
      var h := HeaderAt(c, buf, pos, end, alloc);
      if h.OpenBulk? {
        BulkDecodes(c, buf, frames, pos, alloc);
      } else if h.OpenArray? {
        ArrayOpens(c, buf, frames, pos, alloc);
        OpenArrayHasItems(c, buf, pos, end, alloc);
        ItemsDecode(c, buf, frames, end + 2, h.alloc, h.count, []);
      } else if h.Leaf? {
        LeafDecodes(c, buf, frames, pos, alloc);
      } else {
        StopDecodes(c, buf, frames, pos, alloc);
      }
    }
  }

  lemma {:induction false} ItemsDecode(c: Config, buf: string, frames: seq<Frame>, pos: nat, alloc: nat, count: nat, items: seq<Reply>)
    requires pos <= |buf| && |items| < count
    ensures Matches(c, buf, frames, DecodeItems(c, buf, pos, |frames| + 1, alloc, count, items),
                    Run(c, buf, State(alloc, frames + [Frame(count, items)], pos, NoBulk)))
    decreases |buf| - pos, 1, count - |items|
  {
    var stack := frames + [Frame(count, items)];
    RunDecodes(c, buf, stack, pos, alloc);
    match Decode(c, buf, pos, |frames| + 1, alloc)
    case Ok(v, next, a) =>
      assert stack[..|stack| - 1] == frames;
      if |items| + 1 < count { ItemsDecode(c, buf, frames, next, a, count, items + [v]); }
    case _ =>
  }

  /** EQUIVALENCE.  A call on a fresh reader answers exactly what the recursive decoder says, once a zero budget
      and a budget that does not even cover the reply's owner have been refused. */
  lemma ReaderIsDecoder(c: Config, buf: string)
    ensures Call(c, Idle, buf).1 ==
      if c.max == 0 then Problem(PROTOCOL)
      else if buf != "" && c.owner > c.max then Problem(LIMIT)
      else match Decode(c, buf, 0, 0, c.owner)
        case Ok(v, next, _) => Value(v, next)
        case Short => NeedMore
        case Bad(code) => Problem(code)
  {
    if buf != "" { RunDecodes(c, buf, [], 0, c.owner); }
  }
}
