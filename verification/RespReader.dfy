/** The incremental reply reader as the client runs it: a fixed stack of array frames, a saved scan
    position and a byte budget, updated in place from one call to the next. */
module RespReader {
  import opened Decimal
  import opened Resp
  import opened RespProofs

  /** No line ends in the range, and the byte after it is there too. */
  ghost predicate NoLineEnd(buf: string, from: nat, to: nat) {
    (from < to ==> to < |buf|) && forall i :: from <= i < to ==> !LineEnd(buf, i)
  }

  lemma NoLineEndYet(shorter: string, buf: string, from: nat, to: nat)
    requires NoLineEnd(shorter, from, to) && shorter <= buf
    ensures NoLineEnd(buf, from, to)
  {
    forall i | from <= i < to ensures !LineEnd(buf, i) {
      assert !LineEnd(shorter, i) && buf[i] == shorter[i] && buf[i + 1] == shorter[i + 1];
    }
  }

  class ReplyReader {
    const config: Config
    var busy: bool
    const frames: array<Frame>
    var depth: nat
    var offset: nat
    var lineScan: nat
    var bulkPending: bool
    var bulkHeader: nat
    var bulkLength: nat
    var charged: nat
    ghost var seen: string // the buffer of the last call, which the next one extends

    constructor (config: Config)
      ensures Valid() && !busy && this.config == config && fresh(frames)
    {
      this.config := config;
      frames := new Frame[MAX_DEPTH + 1](_ => Frame(0, []));
      busy, depth, offset, lineScan, bulkPending, bulkHeader, bulkLength, charged := false, 0, 0, 0, false, 0, 0, 0;
      seen := "";
    }

    ghost function View(): State
      reads this`charged, this`depth, this`offset, this`bulkPending, this`bulkHeader, this`bulkLength, frames
      requires depth <= frames.Length
    {
      State(charged, frames[..depth], offset, if bulkPending then BulkOf(bulkHeader, bulkLength) else NoBulk)
    }

    /** The scan position never runs ahead of a line end: not even of one whose CR was the last byte seen. */
    ghost predicate Scanned(buf: string)
      reads this`offset, this`lineScan
    {
      NoLineEnd(buf, offset, lineScan)
    }

    ghost predicate Consistent(buf: string)
      reads this`charged, this`depth, this`offset, this`lineScan, this`bulkPending, this`bulkHeader, this`bulkLength, frames
    {
      && frames.Length == MAX_DEPTH + 1 && depth <= MAX_DEPTH + 1
      && charged <= config.max && Fits(buf, View()) && Scanned(buf)
    }

    ghost predicate Valid()
      reads this, frames
    {
      frames.Length == MAX_DEPTH + 1 && (busy ==> Consistent(seen) && seen != "" && config.max > 0)
    }

    ghost function Kept(): Reader
      reads this, frames
      requires Valid()
    {
      if busy then Busy(View()) else Idle
    }

    /** Hands a finished value to the innermost open array, closing the arrays it fills. */
    method CompleteValue(value: Reply) returns (root: Option<Reply>)
      requires frames.Length == MAX_DEPTH + 1 && depth <= frames.Length
      modifies this`depth, frames
      ensures depth <= old(depth)
      ensures
        match Complete(old(frames[..depth]), value)
        case Root(r) => root == Some(r)
        case Open(fs) => root.None? && frames[..depth] == fs
    {
      var v := value;
      while true
        invariant depth <= old(depth)
        invariant Complete(old(frames[..depth]), value) == Complete(frames[..depth], v)
        decreases depth
      {
        if depth == 0 { return Some(v); }
        var top := frames[depth - 1];
        var items := top.items + [v];
        assert frames[..depth][..depth - 1] == frames[..depth - 1];
        if |items| < top.count {
          frames[depth - 1] := Frame(top.count, items);
          assert frames[..depth] == frames[..depth - 1] + [Frame(top.count, items)];
          return None;
        }
        depth := depth - 1;
        v := Array(items);
      }
    }

    /** Finds the end of the line at `offset`, resuming at the saved scan position. */
    method ScanLine(buf: string) returns (end: Option<nat>)
      requires offset <= |buf| && Scanned(buf)
      modifies this`lineScan
      ensures end == FindLine(buf, offset)
      ensures end.None? ==> Scanned(buf)
      ensures end.Some? ==> lineScan == old(lineScan)
    {
      var index := if lineScan > offset then lineScan else offset;
      while index + 1 < |buf|
        invariant offset <= index
        invariant forall i :: offset <= i < index ==> !LineEnd(buf, i)
      {
        if buf[index] == '\r' && buf[index + 1] == '\n' {
          FindUnique(buf, offset, index);
          return Some(index);
        }
        index := index + 1;
      }
      lineScan := if |buf| > offset then |buf| - 1 else offset;
      end := None;
    }

    /** Charges the budget; a charge that does not fit changes nothing. */
    method Charge(bytes: nat) returns (ok: bool)
      requires charged <= config.max
      modifies this`charged
      ensures charged <= config.max
      ensures match Resp.Charge(config, old(charged), bytes)
              case None => !ok && charged == old(charged)
              case Some(a) => ok && charged == a
    {
      if bytes > config.max - charged { return false; }
      charged := charged + bytes;
      ok := true;
    }

    /** A value ending at `next` is complete. */
    method Deliver(value: Reply, next: nat, ghost buf: string) returns (turn: Turn)
      requires frames.Length == MAX_DEPTH + 1 && depth <= MAX_DEPTH && charged <= config.max && next <= |buf|
      modifies this`depth, this`offset, this`lineScan, this`bulkPending, frames
      ensures turn == Attach(old(frames[..depth]), value, next, charged)
      ensures turn.Next? ==> Consistent(buf) && View() == turn.state
    {
      offset, lineScan, bulkPending := next, next, false;
      var root := CompleteValue(value);
      turn := match root case Some(r) => Finished(r, offset) case None => Next(State(charged, frames[..depth], offset, NoBulk));
    }

    /** A turn of the loop while a bulk string's body is awaited. */
    method BodyTurn(buf: string) returns (turn: Turn)
      requires Consistent(buf) && bulkPending && depth <= MAX_DEPTH
      modifies this`depth, this`offset, this`lineScan, this`bulkPending, this`charged, frames
      ensures turn == Step(config, buf, old(View()))
      ensures turn.Next? ==> Consistent(buf) && View() == turn.state
      ensures turn.Starved? ==> Consistent(buf) && View() == old(View())
    {
      var total := bulkHeader + bulkLength + 2;
      if total > INT_MAX || offset > INT_MAX - total { return Failed(PROTOCOL); }
      if |buf| - offset < total { return Starved; }
      if buf[offset + total - 2] != '\r' || buf[offset + total - 1] != '\n' { return Failed(PROTOCOL); }
      var ok := Charge(config.node);
      if !ok { return Failed(LIMIT); }
      var text := buf[offset + bulkHeader..offset + bulkHeader + bulkLength];
      ok := Charge(config.str + |text|);
      if !ok { return Failed(LIMIT); }
      turn := Deliver(Bulk(text), offset + total, buf);
    }

    /** A turn of the loop at the start of a value. */
    method HeaderTurn(buf: string) returns (turn: Turn)
      requires Consistent(buf) && !bulkPending && depth <= MAX_DEPTH
      modifies this`depth, this`offset, this`lineScan, this`bulkPending, this`bulkHeader, this`bulkLength, this`charged, frames
      ensures turn == Step(config, buf, old(View()))
      ensures turn.Next? ==> Consistent(buf) && View() == turn.state
      ensures turn.Starved? ==> Consistent(buf) && View() == old(View())
    {
      var end := ScanLine(buf);
      if end.None? { return Starved; }
      var next := end.value + 2;
      var length := next - offset;
      var scanned := ScanToken(buf[offset..next]);
      if scanned.None? { return Failed(PROTOCOL); }
      var token := scanned.value;
      if length > INT_MAX || offset > INT_MAX - length { return Failed(PROTOCOL); }
      if token.kind == '$' && token.number >= 0 {
        bulkPending, bulkHeader, bulkLength := true, length, token.number;
        return Next(State(charged, frames[..depth], offset, BulkOf(length, token.number)));
      }
      turn := ValueTurn(buf, token, next);
    }

    /** The header is a complete value or opens an array. */
    method ValueTurn(buf: string, token: Token, next: nat) returns (turn: Turn)
      requires Consistent(buf) && !bulkPending && depth <= MAX_DEPTH && next <= |buf| && !(token.kind == '$' && token.number >= 0)
      modifies this`depth, this`offset, this`lineScan, this`bulkPending, this`charged, frames
      ensures turn ==
        match Classify(config, old(charged), token)
        case Refuse(code) => Failed(code)
        case OpenBulk(_) => Starved
        case Leaf(v, a) => Attach(old(frames[..depth]), v, next, a)
        case OpenArray(n, a) => Next(State(a, old(frames[..depth]) + [Frame(n, [])], next, NoBulk))
      ensures turn.Next? ==> Consistent(buf) && View() == turn.state
    {
      var ok := Charge(config.node);
      if !ok { return Failed(LIMIT); }
      match token.kind {
        case '+' | '-' =>
          ok := Charge(config.str + |token.text|);
          if !ok { return Failed(LIMIT); }
          turn := Deliver(if token.kind == '+' then Simple(token.text) else Error(token.text), next, buf);
        case ':' => turn := Deliver(Integer(token.number), next, buf);
        case '$' =>
          if token.number != -1 { return Failed(PROTOCOL); }
          turn := Deliver(Null, next, buf);
        case '*' =>
          if token.number == -1 {
            turn := Deliver(Null, next, buf);
          } else if token.number < 0 {
            return Failed(PROTOCOL);
          } else if token.number == 0 {
            turn := Deliver(Array([]), next, buf);
          } else {
            turn := OpenFrame(token.number, next, buf);
          }
        case _ => return Failed(PROTOCOL);
      }
    }

    /** Pushes the frame of a non-empty array. */
    method OpenFrame(count: nat, next: nat, ghost buf: string) returns (turn: Turn)
      requires frames.Length == MAX_DEPTH + 1 && depth <= MAX_DEPTH && charged <= config.max && next <= |buf| && !bulkPending
      modifies this`depth, this`offset, this`lineScan, this`charged, frames
      ensures turn ==
        if count * config.pointer > SIZE_MAX then Failed(PROTOCOL)
        else match Resp.Charge(config, old(charged), count * config.pointer)
          case None => Failed(LIMIT)
          case Some(a) => Next(State(a, old(frames[..depth]) + [Frame(count, [])], next, NoBulk))
      ensures turn.Next? ==> Consistent(buf) && View() == turn.state
    {
      if count * config.pointer > SIZE_MAX { return Failed(PROTOCOL); }
      var ok := Charge(count * config.pointer);
      if !ok { return Failed(LIMIT); }
      offset, lineScan := next, next;
      frames[depth] := Frame(count, []);
      depth := depth + 1;
      assert frames[..depth] == old(frames[..depth]) + [Frame(count, [])];
      turn := Next(State(charged, frames[..depth], offset, NoBulk));
    }

    /** The reader's loop: turns until a reply is complete, the input is refused or runs out. */
    method Loop(buf: string) returns (result: Result)
      requires Consistent(buf)
      modifies this`depth, this`offset, this`lineScan, this`bulkPending, this`bulkHeader, this`bulkLength, this`charged, frames
      ensures result == Run(config, buf, old(View()))
      ensures result.More? ==> Consistent(buf) && View() == result.state
    {
      ghost var goal := Run(config, buf, View());
      while true
        invariant Consistent(buf) && goal == Run(config, buf, View())
        decreases |buf| - offset, if bulkPending then 0 else 1
      {
        if depth > MAX_DEPTH { return Fail(PROTOCOL); }
        var turn: Turn;
        if bulkPending { turn := BodyTurn(buf); } else { turn := HeaderTurn(buf); }
        match turn {
          case Next(_) =>
          case Starved =>
            return More(State(charged, frames[..depth], offset, if bulkPending then BulkOf(bulkHeader, bulkLength) else NoBulk));
          case Failed(error) => return Fail(error);
          case Finished(v, consumed) => return Done(v, consumed);
        }
      }
    }

    /** What was consistent with the input seen so far is so with more of it. */
    lemma MoreInput(shorter: string, buf: string)
      requires Consistent(shorter) && shorter <= buf
      ensures Consistent(buf)
    {
      NoLineEndYet(shorter, buf, offset, lineScan);
    }

    /** A fresh reply, its owner charged. */
    method Start(buf: string)
      requires frames.Length == MAX_DEPTH + 1 && config.owner <= config.max
      modifies this`busy, this`depth, this`offset, this`lineScan, this`bulkPending, this`charged
      ensures busy && Consistent(buf) && View() == Begin(config)
    {
      busy, depth, offset, lineScan, bulkPending, charged := true, 0, 0, 0, false, config.owner;
      assert frames[..0] == [];
    }

    /** One call on the buffer: the number of bytes of a finished reply, 0 for more input, or an error code. */
    method NextBuffer(buf: string) returns (code: int, reply: Option<Reply>)
      requires Valid() && (busy ==> seen <= buf)
      modifies this, frames
      ensures Valid() && (busy ==> seen == buf)
      ensures
        var (kept, answer) := Call(config, old(Kept()), buf);
        && Kept() == kept
        && match answer
           case NeedMore => code == 0 && reply.None?
           case Value(v, n) => code == n && reply == Some(v)
           case Problem(error) => code == error && reply.None?
    {
      if config.max == 0 { return PROTOCOL, None; }
      if |buf| == 0 { return 0, None; }
      if busy {
        MoreInput(seen, buf);
      } else {
        if config.owner > config.max { return LIMIT, None; }
        Start(buf);
      }
      seen := buf;
      var result := Loop(buf);
      busy := result.More?;
      match result
      case More(_) => code, reply := 0, None;
      case Done(v, consumed) => code, reply := consumed, Some(v);
      case Fail(error) => code, reply := error, None;
    }
  }
}
