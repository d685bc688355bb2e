/** RESP2 replies: the token grammar, the reader as a machine with an explicit stack that can stop for more
    input at any point, and the recursive decoder it is compared with.  One `char` is one byte. */
module Resp {
  import opened Decimal

  datatype Option<T> = None | Some(value: T)

  datatype Reply =
    | Simple(text: string) | Error(text: string) | Integer(value: int)
    | Bulk(text: string) | Array(items: seq<Reply>) | Null

  const INT_MAX: nat := 0x7fff_ffff
  const SIZE_MAX: nat := 0xffff_ffff_ffff_ffff
  const INT64_MAX: nat := 0x7fff_ffff_ffff_ffff
  const MAX_DEPTH: nat := 128

  const PROTOCOL: int := -1
  const LIMIT: int := -2

  /** The reply budget and what is charged to it: the reply's owner, one node, one string (besides its
      bytes) and one element pointer. */
  datatype Config = Config(max: nat, owner: nat, node: nat, str: nat, pointer: nat)

  // ---- tokens --------------------------------------------------------------------------------

  datatype Token = Token(kind: char, number: int, text: string)

  predicate Plain(text: string) {
    forall i :: 0 <= i < |text| ==> text[i] != '\r' && text[i] != '\n'
  }

  /** An optional minus sign and at least one digit, within the signed 64-bit range. */
  predicate IsInt64(text: string) {
    if |text| > 0 && text[0] == '-' then
      |text| > 1 && AllDigits(text[1..]) && Value(text[1..]) <= INT64_MAX + 1
    else
      |text| > 0 && AllDigits(text) && Value(text) <= INT64_MAX
  }

  function Int64(text: string): int
    requires IsInt64(text)
  {
    if text[0] == '-' then -(Value(text[1..]) as int) else Value(text)
  }

  /** One header line, its CRLF included. */
  function ScanToken(line: string): Option<Token>
    requires |line| >= 2
  {
    if |line| == 2 then None
    else
      var kind, body := line[0], line[1..|line| - 2];
      if kind == '+' || kind == '-' then
        if Plain(body) then Some(Token(kind, 0, body)) else None
      else if kind == ':' || kind == '$' || kind == '*' then
        if IsInt64(body) then Some(Token(kind, Int64(body), body)) else None
      else None
  }

  predicate LineEnd(buf: string, i: nat) {
    i + 1 < |buf| && buf[i] == '\r' && buf[i + 1] == '\n'
  }

  /** The first CRLF at or after `from`. */
  function FindLine(buf: string, from: nat): (r: Option<nat>)
    ensures r.Some? ==> from <= r.value && LineEnd(buf, r.value)
    ensures r.Some? ==> forall i :: from <= i < r.value ==> !LineEnd(buf, i)
    ensures r.None? ==> forall i :: from <= i ==> !LineEnd(buf, i)
    decreases |buf| - from
  {
    if from + 1 >= |buf| then None
    else if LineEnd(buf, from) then Some(from)
    else FindLine(buf, from + 1)
  }

  // ---- what a header means -------------------------------------------------------------------

  /** A header line either is a complete value, opens a bulk string or a non-empty array, or is refused. */
  datatype Header =
    | Refuse(code: int)
    | Leaf(value: Reply, alloc: nat)
    | OpenBulk(length: nat)
    | OpenArray(count: nat, alloc: nat)

  function Charge(c: Config, alloc: nat, bytes: nat): Option<nat> {
    if alloc + bytes <= c.max then Some(alloc + bytes) else None
  }

  function Classify(c: Config, alloc: nat, t: Token): Header {
    if t.kind == '$' && t.number >= 0 then OpenBulk(t.number)
    else match Charge(c, alloc, c.node)
      case None => Refuse(LIMIT)
      case Some(a) =>
        match t.kind
        case '+' => ClassifyText(c, a, Simple(t.text))
        case '-' => ClassifyText(c, a, Error(t.text))
        case ':' => Leaf(Integer(t.number), a)
        case '$' => if t.number == -1 then Leaf(Null, a) else Refuse(PROTOCOL)
        case '*' =>
          if t.number == -1 then Leaf(Null, a)
          else if t.number < 0 then Refuse(PROTOCOL)
          else if t.number == 0 then Leaf(Array([]), a)
          else if t.number * c.pointer > SIZE_MAX then Refuse(PROTOCOL)
          else (match Charge(c, a, t.number * c.pointer)
                case None => Refuse(LIMIT)
                case Some(b) => OpenArray(t.number, b))
        case _ => Refuse(PROTOCOL)
  }

  function ClassifyText(c: Config, alloc: nat, v: Reply): Header
    requires v.Simple? || v.Error? || v.Bulk?
  {
    match Charge(c, alloc, c.str + |v.text|)
    case None => Refuse(LIMIT)
    case Some(a) => Leaf(v, a)
  }

  /** The header at `offset`, once its line is complete. */
  function HeaderAt(c: Config, buf: string, offset: nat, end: nat, alloc: nat): Header
    requires offset <= end && LineEnd(buf, end)
  {
    var length := end + 2 - offset;
    match ScanToken(buf[offset..end + 2])
    case None => Refuse(PROTOCOL)
    case Some(t) => if offset + length > INT_MAX then Refuse(PROTOCOL) else Classify(c, alloc, t)
  }

  /** The body of a bulk string whose header starts at `offset`. */
  datatype Body = Wait | Reject(code: int) | Text(value: Reply, next: nat, alloc: nat)

  function BodyAt(c: Config, buf: string, offset: nat, header: nat, length: nat, alloc: nat): Body
    requires offset + header <= |buf|
  {
    var total := header + length + 2;
    if offset + total > INT_MAX then Reject(PROTOCOL)
    else if offset + total > |buf| then Wait
    else if !LineEnd(buf, offset + total - 2) then Reject(PROTOCOL)
    else match Charge(c, alloc, c.node)
      case None => Reject(LIMIT)
      case Some(a) =>
        match ClassifyText(c, a, Bulk(buf[offset + header..offset + header + length]))
        case Leaf(v, b) => Text(v, offset + total, b)
        case _ => Reject(LIMIT)
  }

  // ---- the stack machine ---------------------------------------------------------------------

  /** An array under construction: how many elements it will have and those read so far. */
  datatype Frame = Frame(count: nat, items: seq<Reply>)

  datatype Pending = NoBulk | BulkOf(header: nat, length: nat)

  datatype State = State(alloc: nat, frames: seq<Frame>, offset: nat, bulk: Pending)

  datatype Completion = Root(value: Reply) | Open(frames: seq<Frame>)

  /** A finished value goes to the innermost array; arrays that become full are finished in turn. */
  function Complete(frames: seq<Frame>, v: Reply): Completion {
    if frames == [] then Root(v)
    else
      var top := frames[|frames| - 1];
      var items := top.items + [v];
      var below := frames[..|frames| - 1];
      if |items| < top.count then Open(below + [Frame(top.count, items)]) else Complete(below, Array(items))
  }

  datatype Turn = Next(state: State) | Starved | Finished(value: Reply, consumed: nat) | Failed(code: int)

  ghost predicate Fits(buf: string, st: State) {
    match st.bulk
    case NoBulk => st.offset <= |buf|
    case BulkOf(header, _) => st.offset + header <= |buf| && header > 0
  }

  function Attach(frames: seq<Frame>, v: Reply, offset: nat, alloc: nat): Turn {
    match Complete(frames, v)
    case Root(r) => Finished(r, offset)
    case Open(fs) => Next(State(alloc, fs, offset, NoBulk))
  }

  /** One turn of the reader's loop. */
  function Step(c: Config, buf: string, st: State): Turn
    requires Fits(buf, st)
  {
    if |st.frames| > MAX_DEPTH then Failed(PROTOCOL)
    else match st.bulk
      case BulkOf(header, length) =>
        (match BodyAt(c, buf, st.offset, header, length, st.alloc)
         case Wait => Starved
         case Reject(code) => Failed(code)
         case Text(v, next, alloc) => Attach(st.frames, v, next, alloc))
      case NoBulk =>
        match FindLine(buf, st.offset)
        case None => Starved
        case Some(end) =>
          match HeaderAt(c, buf, st.offset, end, st.alloc)
          case Refuse(code) => Failed(code)
          case OpenBulk(length) => Next(st.(bulk := BulkOf(end + 2 - st.offset, length)))
          case Leaf(v, alloc) => Attach(st.frames, v, end + 2, alloc)
          case OpenArray(count, alloc) => Next(State(alloc, st.frames + [Frame(count, [])], end + 2, NoBulk))
  }

  /** The outcome of one call: more input is needed (with the state kept for it), a reply, or an error. */
  datatype Result = More(state: State) | Done(value: Reply, consumed: nat) | Fail(code: int)

  function Run(c: Config, buf: string, st: State): Result
    requires Fits(buf, st)
    decreases |buf| - st.offset, if st.bulk.NoBulk? then 1 else 0
  {
    match Step(c, buf, st)
    case Next(st') => Run(c, buf, st')
    case Starved => More(st)
    case Finished(v, n) => Done(v, n)
    case Failed(code) => Fail(code)
  }

  function Begin(c: Config): State {
    State(c.owner, [], 0, NoBulk)
  }

  // ---- the recursive decoder -----------------------------------------------------------------

  datatype Decoded = Ok(value: Reply, next: nat, alloc: nat) | Short | Bad(code: int)

  /** One value at `pos`, inside `depth` arrays, after `alloc` bytes of the budget. */
  function Decode(c: Config, buf: string, pos: nat, depth: nat, alloc: nat): (d: Decoded)
    requires pos <= |buf|
    ensures d.Ok? ==> pos < d.next <= |buf|
    decreases |buf| - pos, 0, 0
  {
    if depth > MAX_DEPTH then Bad(PROTOCOL)
    else match FindLine(buf, pos)
      case None => Short
      case Some(end) =>
        match HeaderAt(c, buf, pos, end, alloc)
        case Refuse(code) => Bad(code)
        case Leaf(v, a) => Ok(v, end + 2, a)
        case OpenBulk(length) =>
          (match BodyAt(c, buf, pos, end + 2 - pos, length, alloc)
           case Wait => Short
           case Reject(code) => Bad(code)
           case Text(v, next, a) => Ok(v, next, a))
        case OpenArray(count, a) => DecodeItems(c, buf, end + 2, depth + 1, a, count, [])
  }

  /** The remaining elements of an array of `count`, after `items`. */
  function DecodeItems(c: Config, buf: string, pos: nat, depth: nat, alloc: nat, count: nat, items: seq<Reply>): (d: Decoded)
    requires pos <= |buf| && |items| <= count
    ensures d.Ok? ==> pos <= d.next <= |buf|
    decreases |buf| - pos, 1, count - |items|
  {
    if |items| == count then Ok(Array(items), pos, alloc)
    else match Decode(c, buf, pos, depth, alloc)
      case Ok(v, next, a) => DecodeItems(c, buf, next, depth, a, count, items + [v])
      case Short => Short
      case Bad(code) => Bad(code)
  }
}
