/** What an accepted reply costs, how deep it nests, and that printed values are read back. */
module RespRoundTrip {
  import opened Decimal
  import opened Resp
  import opened RespProofs

  // ---- budget and depth ----------------------------------------------------------------------

  function Cost(c: Config, v: Reply): nat {
    match v
    case Simple(t) => c.node + c.str + |t|
    case Error(t) => c.node + c.str + |t|
    case Bulk(t) => c.node + c.str + |t|
    case Integer(_) => c.node
    case Null => c.node
    case Array(items) => c.node + |items| * c.pointer + CostAll(c, items)
  }

  function CostAll(c: Config, vs: seq<Reply>): nat {
    if vs == [] then 0 else Cost(c, vs[0]) + CostAll(c, vs[1..])
  }

  /** How many non-empty arrays are nested inside each other. */
  function Nesting(v: Reply): nat {
    if v.Array? && v.items != [] then 1 + NestingAll(v.items) else 0
  }

  function NestingAll(vs: seq<Reply>): nat {
    if vs == [] then 0
    else var a, b := Nesting(vs[0]), NestingAll(vs[1..]); if a < b then b else a
  }

  ghost predicate Accounted(c: Config, d: Decoded, depth: nat, alloc: nat) {
    d.Ok? ==> d.alloc == alloc + Cost(c, d.value) && d.alloc <= c.max && depth + Nesting(d.value) <= MAX_DEPTH
  }

  lemma ClassifyCost(c: Config, alloc: nat, t: Token)
    ensures
      var h := Classify(c, alloc, t);
      && (h.Leaf? ==> h.alloc == alloc + Cost(c, h.value) && h.alloc <= c.max && Nesting(h.value) == 0)
      && (h.OpenArray? ==> h.count > 0 && h.alloc == alloc + c.node + h.count * c.pointer && h.alloc <= c.max)
  {
  }

  lemma {:induction false} CostSnoc(c: Config, vs: seq<Reply>, v: Reply)
    ensures CostAll(c, vs + [v]) == CostAll(c, vs) + Cost(c, v)
    ensures NestingAll(vs + [v]) == if NestingAll(vs) < Nesting(v) then Nesting(v) else NestingAll(vs)
  {
    if vs != [] {
      assert (vs + [v])[1..] == vs[1..] + [v];
      CostSnoc(c, vs[1..], v);
    } else {
      assert vs + [v] == [v];
    }
  }

  /** BUDGET AND DEPTH.  An accepted value has been charged exactly its cost, within the budget, and
      nests at most 128 non-empty arrays. */
  lemma {:induction false} DecodeAccounts(c: Config, buf: string, pos: nat, depth: nat, alloc: nat)
    requires pos <= |buf|
    ensures Accounted(c, Decode(c, buf, pos, depth, alloc), depth, alloc)
    decreases |buf| - pos, 0, 0
  {
    if depth <= MAX_DEPTH && FindLine(buf, pos).Some? {
      var end := FindLine(buf, pos).value;
      var t := ScanToken(buf[pos..end + 2]);
      if t.Some? { ClassifyCost(c, alloc, t.value); }
      var h := HeaderAt(c, buf, pos, end, alloc);
      if h.OpenArray? {
        ItemsAccount(c, buf, end + 2, depth + 1, h.alloc, h.count, []);
      }
    }
  }

  lemma {:induction false} ItemsAccount(c: Config, buf: string, pos: nat, depth: nat, alloc: nat, count: nat, items: seq<Reply>)
    requires pos <= |buf| && |items| <= count
    ensures
      var d := DecodeItems(c, buf, pos, depth, alloc, count, items);
      d.Ok? ==>
        && d.value.Array? && |d.value.items| == count && items <= d.value.items
        && d.alloc + CostAll(c, items) == alloc + CostAll(c, d.value.items)
        && (|items| < count ==> d.alloc <= c.max)
        && (depth + NestingAll(items) <= MAX_DEPTH ==> depth + NestingAll(d.value.items) <= MAX_DEPTH)
    decreases |buf| - pos, 1, count - |items|
  {
    if |items| < count {
      DecodeAccounts(c, buf, pos, depth, alloc);
      var d := Decode(c, buf, pos, depth, alloc);
      if d.Ok? {
        CostSnoc(c, items, d.value);
        ItemsAccount(c, buf, d.next, depth, d.alloc, count, items + [d.value]);
      }
    }
  }

  // ---- printing ------------------------------------------------------------------------------

  const CRLF := "\r\n"

  function IntText(n: int): string {
    if n < 0 then "-" + Numeral(-n) else Numeral(n)
  }

  function Print(v: Reply): string {
    match v
    case Simple(t) => "+" + t + CRLF
    case Error(t) => "-" + t + CRLF
    case Integer(n) => ":" + IntText(n) + CRLF
    case Bulk(t) => "$" + Numeral(|t|) + CRLF + t + CRLF
    case Null => "$-1" + CRLF
    case Array(items) => "*" + Numeral(|items|) + CRLF + PrintAll(items)
  }

  function PrintAll(vs: seq<Reply>): string {
    if vs == [] then "" else Print(vs[0]) + PrintAll(vs[1..])
  }

  /** Status texts are single lines and integers are 64-bit; everything else is unrestricted. */
  predicate Printable(v: Reply) {
    match v
    case Simple(t) => Plain(t)
    case Error(t) => Plain(t)
    case Integer(n) => -(INT64_MAX as int) - 1 <= n <= INT64_MAX
    case Array(items) => PrintableAll(items)
    case _ => true
  }

  predicate PrintableAll(vs: seq<Reply>) {
    vs == [] || (Printable(vs[0]) && PrintableAll(vs[1..]))
  }

  lemma NumeralIsInt64(n: nat)
    requires n <= INT64_MAX
    ensures Plain(Numeral(n)) && IsInt64(Numeral(n)) && Int64(Numeral(n)) == n
  {
    var s := Numeral(n);
    assert IsDigit(s[0]);
    assert forall i :: 0 <= i < |s| ==> IsDigit(s[i]);
  }

  lemma IntTextIsInt64(n: int)
    requires -(INT64_MAX as int) - 1 <= n <= INT64_MAX
    ensures Plain(IntText(n)) && IsInt64(IntText(n)) && Int64(IntText(n)) == n
  {
    if n < 0 {
      var s := Numeral(-n);
      var t := IntText(n);
      assert t[1..] == s && t[0] == '-';
      assert forall i :: 0 <= i < |s| ==> IsDigit(s[i]);
      assert forall i :: 0 < i < |t| ==> t[i] == s[i - 1];
    } else {
      NumeralIsInt64(n);
    }
  }

  /** `s` stands in the buffer at `pos`. */
  ghost predicate At(buf: string, pos: nat, s: string) {
    pos + |s| <= |buf| && buf[pos..pos + |s|] == s
  }

  lemma AtParts(buf: string, pos: nat, a: string, b: string)
    requires At(buf, pos, a + b)
    ensures At(buf, pos, a) && At(buf, pos + |a|, b)
  {
    var whole := buf[pos..pos + |a + b|];
    assert whole[..|a|] == a && whole[|a|..] == b;
    assert whole[..|a|] == buf[pos..pos + |a|];
    assert whole[|a|..] == buf[pos + |a|..pos + |a| + |b|];
  }

  function Line(kind: char, body: string): string {
    [kind] + body + CRLF
  }

  /** A printed header is found as written. */
  lemma HeaderRead(buf: string, pos: nat, kind: char, body: string)
    requires At(buf, pos, Line(kind, body)) && Plain(body) && kind != '\r'
    ensures
      var end := pos + 1 + |body|;
      && FindLine(buf, pos) == Some(end) && LineEnd(buf, end)
      && buf[pos..end + 2] == Line(kind, body)
  {
    var end := pos + 1 + |body|;
    var line := buf[pos..end + 2];
    assert line == Line(kind, body);
    assert buf[end] == line[1 + |body|] == '\r' && buf[end + 1] == line[2 + |body|] == '\n';
    assert buf[pos] == line[0] == kind;
    forall i | pos <= i < end ensures !LineEnd(buf, i) {
      if i > pos { assert buf[i] == line[i - pos] == body[i - pos - 1]; }
    }
    FindUnique(buf, pos, end);
  }

  lemma TokenRead(kind: char, body: string)
    requires if kind == '+' || kind == '-' then Plain(body) else (kind == ':' || kind == '$' || kind == '*') && IsInt64(body)
    ensures ScanToken(Line(kind, body)) == Some(Token(kind, if kind == '+' || kind == '-' then 0 else Int64(body), body))
  {
    var line := Line(kind, body);
    assert line[1..|line| - 2] == body && line[0] == kind;
  }

  /** What reading a printed value must give: the value, or a refusal for lack of budget. */
  function Expected(c: Config, v: Reply, next: nat, alloc: nat): Decoded {
    if alloc + Cost(c, v) <= c.max then Ok(v, next, alloc + Cost(c, v)) else Bad(LIMIT)
  }

  function ExpectedAll(c: Config, all: seq<Reply>, vs: seq<Reply>, next: nat, alloc: nat): Decoded {
    if alloc + CostAll(c, vs) <= c.max then Ok(Array(all), next, alloc + CostAll(c, vs)) else Bad(LIMIT)
  }

  lemma ClassifyArray(c: Config, alloc: nat, n: nat, body: string, bytes: nat)
    requires bytes == n * c.pointer <= SIZE_MAX
    ensures Classify(c, alloc, Token('*', n, body)) ==
      if alloc + c.node + bytes > c.max then Refuse(LIMIT)
      else if n == 0 then Leaf(Array([]), alloc + c.node) else OpenArray(n, alloc + c.node + bytes)
  {
  }

  lemma ClassifyLeaf(c: Config, alloc: nat, v: Reply)
    requires !v.Array? && !v.Bulk?
    ensures
      var (kind, body) := LeafHeader(v);
      Classify(c, alloc, Token(kind, if v.Integer? then v.value else if v.Null? then -1 else 0, body)) ==
        if alloc + Cost(c, v) <= c.max then Leaf(v, alloc + Cost(c, v)) else Refuse(LIMIT)
  {
  }

  lemma DecodeLeaf(c: Config, buf: string, pos: nat, end: nat, depth: nat, alloc: nat, h: Header)
    requires pos <= |buf| && depth <= MAX_DEPTH && FindLine(buf, pos) == Some(end) && HeaderAt(c, buf, pos, end, alloc) == h
    requires h.Leaf? || h.Refuse?
    ensures Decode(c, buf, pos, depth, alloc) == if h.Leaf? then Ok(h.value, end + 2, h.alloc) else Bad(h.code)
  {
  }

  lemma DecodeArray(c: Config, buf: string, pos: nat, end: nat, depth: nat, alloc: nat, count: nat, a: nat)
    requires pos <= |buf| && depth <= MAX_DEPTH && FindLine(buf, pos) == Some(end)
    requires HeaderAt(c, buf, pos, end, alloc) == OpenArray(count, a)
    ensures Decode(c, buf, pos, depth, alloc) == DecodeItems(c, buf, end + 2, depth + 1, a, count, [])
  {
  }

  lemma DecodeBulk(c: Config, buf: string, pos: nat, end: nat, depth: nat, alloc: nat, t: string)
    requires pos <= |buf| && depth <= MAX_DEPTH && FindLine(buf, pos) == Some(end) && HeaderAt(c, buf, pos, end, alloc) == OpenBulk(|t|)
    requires At(buf, end + 2, t) && LineEnd(buf, end + 2 + |t|) && end + |t| + 4 <= INT_MAX
    ensures Decode(c, buf, pos, depth, alloc) == Expected(c, Bulk(t), end + |t| + 4, alloc)
  {
    var b := BodyAt(c, buf, pos, end + 2 - pos, |t|, alloc);
    assert b == if alloc + Cost(c, Bulk(t)) <= c.max then Text(Bulk(t), end + |t| + 4, alloc + Cost(c, Bulk(t))) else Reject(LIMIT);
  }

  /** A place for a value at `pos`: not nested too deep, below the 31-bit position limit; element counts
      below that limit do not overflow the size of an array. */
  ghost predicate Place(c: Config, v: Reply, pos: nat, depth: nat) {
    depth + Nesting(v) <= MAX_DEPTH && pos + |Print(v)| <= INT_MAX && INT_MAX * c.pointer <= SIZE_MAX
  }

  function LeafHeader(v: Reply): (char, string)
    requires !v.Array? && !v.Bulk?
  {
    match v
    case Simple(t) => ('+', t)
    case Error(t) => ('-', t)
    case Integer(n) => (':', IntText(n))
    case Null => ('$', "-1")
  }

  lemma MinusOne()
    ensures Plain("-1") && IsInt64("-1") && Int64("-1") == -1
  {
    assert "-1"[1..] == "1" && "1"[..0] == "";
  }

  lemma LeafLine(v: Reply) returns (kind: char, body: string, number: int)
    requires Printable(v) && !v.Array? && !v.Bulk?
    ensures Print(v) == Line(kind, body) && Plain(body) && kind != '\r'
    ensures ScanToken(Line(kind, body)) == Some(Token(kind, number, body))
    ensures (kind, body) == LeafHeader(v) && number == if v.Integer? then v.value else if v.Null? then -1 else 0
  {
    kind, body := LeafHeader(v).0, LeafHeader(v).1;
    number := if v.Integer? then v.value else if v.Null? then -1 else 0;
    if v.Integer? { IntTextIsInt64(v.value); }
    if v.Null? { MinusOne(); }
    TokenRead(kind, body);
  }

  lemma TokenAt(c: Config, buf: string, pos: nat, kind: char, body: string, number: int, alloc: nat) returns (end: nat)
    requires At(buf, pos, Line(kind, body)) && Plain(body) && kind != '\r' && pos + |body| + 3 <= INT_MAX
    requires ScanToken(Line(kind, body)) == Some(Token(kind, number, body))
    ensures end == pos + 1 + |body| && FindLine(buf, pos) == Some(end) && LineEnd(buf, end)
    ensures HeaderAt(c, buf, pos, end, alloc) == Classify(c, alloc, Token(kind, number, body))
  {
    HeaderRead(buf, pos, kind, body);
    end := pos + 1 + |body|;
  }

  lemma LeafRead(c: Config, buf: string, v: Reply, pos: nat, alloc: nat) returns (end: nat)
    requires Printable(v) && !v.Array? && !v.Bulk? && At(buf, pos, Print(v)) && pos + |Print(v)| <= INT_MAX
    ensures pos < end && end + 2 == pos + |Print(v)| && FindLine(buf, pos) == Some(end) && LineEnd(buf, end)
    ensures HeaderAt(c, buf, pos, end, alloc) ==
              if alloc + Cost(c, v) <= c.max then Leaf(v, alloc + Cost(c, v)) else Refuse(LIMIT)
  {
    var kind, body, number := LeafLine(v);
    end := TokenAt(c, buf, pos, kind, body, number, alloc);
    ClassifyLeaf(c, alloc, v);
  }

  lemma LeafDecoded(c: Config, buf: string, v: Reply, pos: nat, end: nat, depth: nat, alloc: nat, next: nat)
    requires pos <= |buf| && depth <= MAX_DEPTH && FindLine(buf, pos) == Some(end) && next == end + 2
    requires HeaderAt(c, buf, pos, end, alloc) ==
               if alloc + Cost(c, v) <= c.max then Leaf(v, alloc + Cost(c, v)) else Refuse(LIMIT)
    ensures Decode(c, buf, pos, depth, alloc) == Expected(c, v, next, alloc)
  {
    DecodeLeaf(c, buf, pos, end, depth, alloc, HeaderAt(c, buf, pos, end, alloc));
  }

  lemma LeafReadBack(c: Config, buf: string, v: Reply, pos: nat, depth: nat, alloc: nat) returns (next: nat)
    requires Printable(v) && !v.Array? && !v.Bulk? && depth <= MAX_DEPTH && pos + |Print(v)| <= INT_MAX && At(buf, pos, Print(v))
    ensures next == pos + |Print(v)| && Decode(c, buf, pos, depth, alloc) == Expected(c, v, next, alloc)
  {
    var end := LeafRead(c, buf, v, pos, alloc);
    next := end + 2;
    LeafDecoded(c, buf, v, pos, end, depth, alloc, next);
  }

  /** A number in a header, as text. */
  ghost predicate Spells(body: string, n: nat) {
    Plain(body) && IsInt64(body) && Int64(body) == n
  }

  lemma NumberHeader(c: Config, buf: string, pos: nat, kind: char, n: nat, body: string, alloc: nat) returns (end: nat)
    requires (kind == '$' || kind == '*') && Spells(body, n)
    requires At(buf, pos, Line(kind, body)) && pos + |body| + 3 <= INT_MAX
    ensures end == pos + 1 + |body| && FindLine(buf, pos) == Some(end) && LineEnd(buf, end)
    ensures HeaderAt(c, buf, pos, end, alloc) == Classify(c, alloc, Token(kind, n, body))
  {
    TokenRead(kind, body);
    end := TokenAt(c, buf, pos, kind, body, n, alloc);
  }

  lemma BulkLayout(buf: string, t: string, pos: nat) returns (body: string)
    requires At(buf, pos, Print(Bulk(t))) && pos + |Print(Bulk(t))| <= INT_MAX
    ensures Spells(body, |t|) && |Print(Bulk(t))| == |body| + |t| + 5
    ensures At(buf, pos, Line('$', body)) && At(buf, pos + |body| + 3, t) && LineEnd(buf, pos + |body| + 3 + |t|)
  {
    body := Numeral(|t|);
    var head := Line('$', body);
    assert Print(Bulk(t)) == head + (t + CRLF);
    NumeralIsInt64(|t|);
    AtParts(buf, pos, head, t + CRLF);
    AtParts(buf, pos + |head|, t, CRLF);
    var end := pos + |head| + |t|;
    assert buf[end..end + 2][0] == '\r' && buf[end..end + 2][1] == '\n';
  }

  lemma BulkHead(c: Config, buf: string, t: string, body: string, pos: nat, depth: nat, alloc: nat)
    requires Spells(body, |t|) && depth <= MAX_DEPTH && pos + |body| + |t| + 5 <= INT_MAX
    requires At(buf, pos, Line('$', body)) && At(buf, pos + |body| + 3, t) && LineEnd(buf, pos + |body| + 3 + |t|)
    ensures Decode(c, buf, pos, depth, alloc) == Expected(c, Bulk(t), pos + |body| + |t| + 5, alloc)
  {
    var end := NumberHeader(c, buf, pos, '$', |t|, body, alloc);
    DecodeBulk(c, buf, pos, end, depth, alloc, t);
  }

  lemma BulkReadBack(c: Config, buf: string, t: string, pos: nat, depth: nat, alloc: nat) returns (next: nat)
    requires depth <= MAX_DEPTH && pos + |Print(Bulk(t))| <= INT_MAX && At(buf, pos, Print(Bulk(t)))
    ensures next == pos + |Print(Bulk(t))| && Decode(c, buf, pos, depth, alloc) == Expected(c, Bulk(t), next, alloc)
  {
    var body := BulkLayout(buf, t, pos);
    next := pos + |body| + |t| + 5;
    BulkHead(c, buf, t, body, pos, depth, alloc);
  }

  lemma {:induction false} CountBound(vs: seq<Reply>)
    ensures |vs| <= |PrintAll(vs)|
  {
    if vs != [] { CountBound(vs[1..]); }
  }

  /** ROUND TRIP.  Any printable value, printed anywhere in a buffer, is decoded back to itself exactly when
      the budget covers its cost, and refused for lack of budget otherwise. */
  lemma {:induction false} ReadBack(c: Config, buf: string, v: Reply, pos: nat, depth: nat, alloc: nat)
    requires Printable(v) && Place(c, v, pos, depth) && At(buf, pos, Print(v))
    ensures Decode(c, buf, pos, depth, alloc) == Expected(c, v, pos + |Print(v)|, alloc)
    decreases v, 0
  {
    match v
    case Array(items) =>
      var _ := ArrayReadBack(c, buf, items, pos, depth, alloc);
    case Bulk(t) =>
      var _ := BulkReadBack(c, buf, t, pos, depth, alloc);
    case _ =>
      var _ := LeafReadBack(c, buf, v, pos, depth, alloc);
  }

  /** The budget and nesting left for the elements once the array's header is charged. */
  ghost predicate Room(c: Config, items: seq<Reply>, depth: nat, alloc: nat, h: Header) {
    && (h == Refuse(LIMIT) || h.Leaf? || h.OpenArray?)
    && (h == Refuse(LIMIT) ==> alloc + Cost(c, Array(items)) > c.max)
    && (h.Leaf? ==> items == [] && h == Leaf(Array([]), alloc + Cost(c, Array(items))) && h.alloc <= c.max)
    && (h.OpenArray? ==>
          && h.count == |items| && h.alloc + CostAll(c, items) == alloc + Cost(c, Array(items)) && h.alloc <= c.max
          && depth + 1 + NestingAll(items) <= MAX_DEPTH)
  }

  lemma ArrayRoom(c: Config, items: seq<Reply>, depth: nat, alloc: nat, body: string, bytes: nat)
    requires depth + Nesting(Array(items)) <= MAX_DEPTH && bytes == |items| * c.pointer <= SIZE_MAX
    ensures Room(c, items, depth, alloc, Classify(c, alloc, Token('*', |items|, body)))
  {
    ClassifyArray(c, alloc, |items|, body, bytes);
  }

  lemma CountFits(n: nat, p: nat)
    requires n <= INT_MAX && INT_MAX * p <= SIZE_MAX
    ensures n * p <= SIZE_MAX
  {
    assert n * p <= INT_MAX * p;
  }

  lemma ArrayStart(c: Config, buf: string, items: seq<Reply>, pos: nat, depth: nat, alloc: nat)
    returns (next: nat, end: nat, h: Header)
    requires PrintableAll(items) && Place(c, Array(items), pos, depth) && At(buf, pos, Print(Array(items)))
    ensures next + |PrintAll(items)| == end == pos + |Print(Array(items))| <= INT_MAX && At(buf, next, PrintAll(items))
    ensures Room(c, items, depth, alloc, h) && Decode(c, buf, pos, depth, alloc) == ArrayOutcome(c, buf, next, depth, h)
  {
    var body := ArrayLayout(buf, items, pos);
    CountFits(|items|, c.pointer);
    ArrayRoom(c, items, depth, alloc, body, |items| * c.pointer);
    h := Classify(c, alloc, Token('*', |items|, body));
    next := ArrayHeader(c, buf, |items|, body, pos, depth, alloc, h);
    end := next + |PrintAll(items)|;
  }

  lemma ArrayConcludes(c: Config, buf: string, items: seq<Reply>, next: nat, end: nat, depth: nat, alloc: nat, h: Header)
    requires next <= |buf| && Room(c, items, depth, alloc, h) && (items == [] ==> next == end)
    requires h.OpenArray? ==>
               DecodeItems(c, buf, next, depth + 1, h.alloc, |items|, []) == ExpectedAll(c, items, items, end, h.alloc)
    ensures ArrayOutcome(c, buf, next, depth, h) == Expected(c, Array(items), end, alloc)
  {
  }

  lemma {:induction false} ArrayReadBack(c: Config, buf: string, items: seq<Reply>, pos: nat, depth: nat, alloc: nat)
    returns (end: nat)
    requires PrintableAll(items) && Place(c, Array(items), pos, depth) && At(buf, pos, Print(Array(items)))
    ensures end == pos + |Print(Array(items))| && Decode(c, buf, pos, depth, alloc) == Expected(c, Array(items), end, alloc)
    decreases items, 2
  {
    var next, h;
    next, end, h := ArrayStart(c, buf, items, pos, depth, alloc);
    if h.OpenArray? { NonemptyReadBack(c, buf, items, next, end, depth + 1, h.alloc); }
    ArrayConcludes(c, buf, items, next, end, depth, alloc, h);
  }

  lemma {:induction false} NonemptyReadBack(c: Config, buf: string, items: seq<Reply>, pos: nat, end: nat, depth: nat, alloc: nat)
    requires PrintableAll(items) && At(buf, pos, PrintAll(items)) && INT_MAX * c.pointer <= SIZE_MAX
    requires depth + NestingAll(items) <= MAX_DEPTH && pos + |PrintAll(items)| == end <= INT_MAX && alloc <= c.max
    ensures DecodeItems(c, buf, pos, depth, alloc, |items|, []) == ExpectedAll(c, items, items, end, alloc)
    decreases items, 1, 1
  {
    ItemsReadBack(c, buf, [], items, items, pos, end, depth, alloc);
  }

  lemma ArrayLayout(buf: string, items: seq<Reply>, pos: nat) returns (body: string)
    requires At(buf, pos, Print(Array(items))) && pos + |Print(Array(items))| <= INT_MAX
    ensures Spells(body, |items|) && |Print(Array(items))| == |body| + 3 + |PrintAll(items)| && |items| <= INT_MAX
    ensures At(buf, pos, Line('*', body)) && At(buf, pos + |body| + 3, PrintAll(items))
  {
    body := Numeral(|items|);
    assert Print(Array(items)) == Line('*', body) + PrintAll(items);
    AtParts(buf, pos, Line('*', body), PrintAll(items));
    CountBound(items);
    NumeralIsInt64(|items|);
  }

  /** What a decoded array header leads to. */
  function ArrayOutcome(c: Config, buf: string, next: nat, depth: nat, h: Header): Decoded
    requires next <= |buf|
  {
    match h
    case OpenArray(count, a) => DecodeItems(c, buf, next, depth + 1, a, count, [])
    case Leaf(v, a) => Ok(v, next, a)
    case Refuse(code) => Bad(code)
    case OpenBulk(_) => Short
  }

  lemma ArrayDecoded(c: Config, buf: string, pos: nat, end: nat, depth: nat, alloc: nat, h: Header)
    requires pos <= |buf| && depth <= MAX_DEPTH && FindLine(buf, pos) == Some(end) && HeaderAt(c, buf, pos, end, alloc) == h
    requires !h.OpenBulk?
    ensures Decode(c, buf, pos, depth, alloc) == ArrayOutcome(c, buf, end + 2, depth, h)
  {
    if h.OpenArray? {
      DecodeArray(c, buf, pos, end, depth, alloc, h.count, h.alloc);
    } else {
      DecodeLeaf(c, buf, pos, end, depth, alloc, h);
    }
  }

  lemma ArrayHeader(c: Config, buf: string, n: nat, body: string, pos: nat, depth: nat, alloc: nat, h: Header)
    returns (next: nat)
    requires Spells(body, n) && At(buf, pos, Line('*', body)) && pos + |body| + 3 <= INT_MAX
    requires depth <= MAX_DEPTH && Classify(c, alloc, Token('*', n, body)) == h && !h.OpenBulk?
    ensures next == pos + |body| + 3 <= |buf|
    ensures Decode(c, buf, pos, depth, alloc) == ArrayOutcome(c, buf, next, depth, h)
  {
    var end := NumberHeader(c, buf, pos, '*', n, body, alloc);
    next := end + 2;
    ArrayDecoded(c, buf, pos, end, depth, alloc, h);
  }

  lemma ItemsStep(c: Config, buf: string, pos: nat, depth: nat, alloc: nat, count: nat, items: seq<Reply>, d: Decoded)
    requires pos <= |buf| && |items| < count && Decode(c, buf, pos, depth, alloc) == d
    ensures DecodeItems(c, buf, pos, depth, alloc, count, items) ==
      if d.Ok? then DecodeItems(c, buf, d.next, depth, d.alloc, count, items + [d.value]) else d
  {
  }

  lemma ExpectedStep(c: Config, all: seq<Reply>, vs: seq<Reply>, end: nat, next: nat, alloc: nat)
    requires vs != []
    ensures
      var d := Expected(c, vs[0], next, alloc);
      ExpectedAll(c, all, vs, end, alloc) == if d.Ok? then ExpectedAll(c, all, vs[1..], end, d.alloc) else d
  {
  }

  lemma {:induction false} ItemsReadBack(c: Config, buf: string, items: seq<Reply>, vs: seq<Reply>, all: seq<Reply>,
                                         pos: nat, end: nat, depth: nat, alloc: nat)
    requires PrintableAll(vs) && At(buf, pos, PrintAll(vs)) && all == items + vs && INT_MAX * c.pointer <= SIZE_MAX
    requires depth + NestingAll(vs) <= MAX_DEPTH && pos + |PrintAll(vs)| == end <= INT_MAX && alloc <= c.max
    ensures DecodeItems(c, buf, pos, depth, alloc, |all|, items) == ExpectedAll(c, all, vs, end, alloc)
    decreases vs, 1, 0
  {
    if vs == [] {
      assert all == items;
    } else {
      var v, rest := vs[0], vs[1..];
      AtParts(buf, pos, Print(v), PrintAll(rest));
      ReadBack(c, buf, v, pos, depth, alloc);
      var next := pos + |Print(v)|;
      var d := Expected(c, v, next, alloc);
      ItemsStep(c, buf, pos, depth, alloc, |all|, items, d);
      ExpectedStep(c, all, vs, end, next, alloc);
      if d.Ok? {
        assert all == (items + [v]) + rest;
        ItemsReadBack(c, buf, items + [v], rest, all, next, end, depth, d.alloc);
      }
    }
  }

  lemma WholeAnswer(c: Config, buf: string, v: Reply, next: nat)
    requires 0 < c.max && c.owner <= c.max && Decode(c, buf, 0, 0, c.owner) == Expected(c, v, next, c.owner)
    ensures Call(c, Idle, buf).1 == if c.owner + Cost(c, v) <= c.max then Value(v, next) else Problem(LIMIT)
  {
    if buf != "" { ReaderIsDecoder(c, buf); }
  }

  lemma WholeReadBack(c: Config, v: Reply, buf: string)
    requires Printable(v) && Nesting(v) <= MAX_DEPTH && buf == Print(v) && |buf| <= INT_MAX
    requires 0 < c.max && INT_MAX * c.pointer <= SIZE_MAX && c.owner <= c.max
    ensures Decode(c, buf, 0, 0, c.owner) == Expected(c, v, |buf|, c.owner)
  {
    assert At(buf, 0, buf);
    ReadBack(c, buf, v, 0, 0, c.owner);
  }

  lemma WholeCall(c: Config, v: Reply, buf: string)
    requires Printable(v) && Nesting(v) <= MAX_DEPTH && buf == Print(v) && |buf| <= INT_MAX
    requires 0 < c.max && INT_MAX * c.pointer <= SIZE_MAX
    ensures Call(c, Idle, buf).1 == if c.owner + Cost(c, v) <= c.max then Value(v, |buf|) else Problem(LIMIT)
  {
    if c.owner <= c.max {
      WholeReadBack(c, v, buf);
      WholeAnswer(c, buf, v, |buf|);
    }
  }

  /** ROUND TRIP IN CHUNKS.  Print any printable value nested at most 128 deep and cut the text into any chunks: the
      reader gives the value back and consumes exactly its text if the budget covers it, and reports the limit
      otherwise. */
  lemma ChunkedReadBack(c: Config, v: Reply, chunks: seq<string>)
    requires Printable(v) && Nesting(v) <= MAX_DEPTH && Concat(chunks) == Print(v) && |Print(v)| <= INT_MAX
    requires 0 < c.max && INT_MAX * c.pointer <= SIZE_MAX
    ensures Feed(c, Idle, "", chunks) ==
      if c.owner + Cost(c, v) <= c.max then Value(v, |Print(v)|) else Problem(LIMIT)
  {
    ChunkingIrrelevant(c, chunks);
    WholeCall(c, v, Concat(chunks));
  }
}
