/** The ordered-apply journal as a machine over natural-number indices: the metadata hash, the
    journal hash, the identity hash and the outbox stream, and what each script replies and writes.
    `JournalScripts` holds the scripts themselves, over text keys, proved to follow this machine. */
module Journal {
  import opened Decimal

  datatype Option<T> = None | Some(value: T)

  /** One log record; an outbox event carries the same four fields. */
  datatype Record = Record(index: nat, term: string, id: string, payload: string)

  /** What the last completed compaction was asked for. */
  datatype Marker = Marker(first: nat, snapshot: nat, term: string)

  /** `events` is every event ever appended to the outbox; the first `trimmed` of them have since been
      removed by the consumer, so the stream holds `events[trimmed..]`; `last` is its last generated id. */
  datatype Store = Store(
    applied: nat, head: Option<(string, string)>,
    floor: nat, marker: Option<Marker>,
    journal: map<nat, string>, identity: map<nat, string>,
    events: seq<Record>, trimmed: nat, last: nat)

  const EMPTY := Store(0, None, 0, None, map[], map[], [], 0, 0)

  datatype Reply =
    | Applied(index: nat) | Replayed(index: nat) | Gap(index: nat)
    | Conflict(index: nat) | Pending(index: nat)
    | Invalid(reason: string)
    | Failed // the script raised an error part way through its writes

  /** The identity text: term, a zero byte, command id. */
  function Identity(term: string, id: string): string {
    term + "\0" + id
  }

  // ---- requests ------------------------------------------------------------------------------

  datatype Parsed = Bad(reason: string) | Batch(records: seq<Record>)

  predicate Refused(index: string, term: string, id: string) {
    !ValidU64(index) || index == "0" || !ValidU64(term) || term == "0" || |id| == 0
  }

  /** The request checks of the apply and reconcile scripts; `previous` is 0 before the first record. */
  function ParseRecords(argv: seq<string>, previous: nat): Parsed
    requires |argv| % 4 == 0
  {
    if argv == [] then Batch([])
    else if Refused(argv[0], argv[1], argv[2]) then Bad("record")
    else if previous != 0 && Value(argv[0]) != previous + 1 then Bad("range")
    else
      match ParseRecords(argv[4..], Value(argv[0]))
      case Bad(reason) => Bad(reason)
      case Batch(rest) => Batch([Record(Value(argv[0]), argv[1], argv[2], argv[3])] + rest)
  }

  function ParseBatch(argv: seq<string>): Parsed {
    if |argv| == 0 || |argv| % 4 != 0 then Bad("arguments") else ParseRecords(argv, 0)
  }

  const EXACT: nat := 0x20_0000_0000_0000

  /** Lua's `tonumber`: a double, exact up to 2^53 and beyond that rounded, half to even, to a multiple of the unit in which
      it has 53 bits. */
  function ToNumber(n: nat): (r: nat)
    ensures n <= EXACT ==> r == n
    ensures n > EXACT ==> r > 0
  {
    if n <= EXACT then n else RoundAt(n, 2)
  }

  function RoundAt(n: nat, unit: nat): (r: nat)
    requires 0 < unit <= n
    ensures r > 0
    decreases n - unit
  {
    if n >= EXACT * unit then RoundAt(n, 2 * unit) else Nearest(n, unit) * unit
  }

  /** How many units come nearest to `n`, the even number of them if it is half way. */
  function Nearest(n: nat, unit: nat): (q: nat)
    requires 0 < unit <= n
    ensures q > 0
  {
    var q, rest := n / unit, n % unit;
    if 2 * rest > unit || (2 * rest == unit && q % 2 == 1) then q + 1 else q
  }

  datatype CompactRequest = CompactRequest(
    first: nat, last: nat, snapshot: nat, term: string, limit: nat)

  /** The request checks of the two compaction scripts; the argument texts are first, last,
      snapshot index, snapshot term and the record limit. */
  function ParseCompact(argv: seq<string>): Option<CompactRequest> {
    if |argv| != 5 || !ValidU64(argv[0]) || argv[0] == "0" || !ValidU64(argv[1]) ||
       !ValidU64(argv[2]) || argv[2] == "0" || !ValidU64(argv[3]) || argv[3] == "0" ||
       !ValidU64(argv[4]) || argv[4] == "0" ||
       Compare(argv[1], argv[0]) < 0 || Compare(argv[2], argv[1]) < 0
    then None
    else Some(CompactRequest(Value(argv[0]), Value(argv[1]), Value(argv[2]), argv[3], ToNumber(Value(argv[4]))))
  }

  ghost predicate WellFormed(r: Record) {
    && 1 <= r.index <= MAX_U64_VALUE
    && AllDigits(r.term) && r.id != ""
  }

  ghost predicate Contiguous(records: seq<Record>) {
    && (forall k :: 0 <= k < |records| ==> WellFormed(records[k]))
    && (forall k :: 0 <= k < |records| ==> records[k].index == records[0].index + k)
  }

  // ---- what the scripts look at --------------------------------------------------------------

  predicate EventIn(events: seq<Record>, trimmed: nat, n: nat) {
    exists i :: trimmed <= i < |events| && events[i].index == n
  }

  predicate HasEvent(s: Store, n: nat) {
    EventIn(s.events, s.trimmed, n)
  }

  /** Something already stored at the record's index disagrees with it. */
  predicate Clashes(s: Store, r: Record) {
    || (r.index in s.identity && s.identity[r.index] != Identity(r.term, r.id))
    || (r.index in s.journal && s.journal[r.index] != r.payload)
    || (exists i :: s.trimmed <= i < |s.events| && s.events[i].index == r.index && s.events[i] != r)
  }

  /** The hashes hold exactly this record at its index. */
  predicate Stored(s: Store, r: Record) {
    && r.index in s.identity && s.identity[r.index] == Identity(r.term, r.id)
    && r.index in s.journal && s.journal[r.index] == r.payload
  }

  // ---- writes --------------------------------------------------------------------------------

  datatype Write =
    | SetPayload(n: nat, payload: string)
    | SetIdentity(n: nat, text: string)
    | AddEvent(r: Record)
    | Commit(n: nat, term: string, id: string)
    | DropPayloads(first: nat, last: nat)
    | DropIdentities(first: nat, last: nat)
    | SetFloor(n: nat, m: Marker)

  /** A stream refuses an entry whose id is not above every id it has ever held. */
  predicate Allowed(s: Store, w: Write) {
    w.AddEvent? ==> s.last < w.r.index
  }

  function Without(m: map<nat, string>, first: nat, last: nat): map<nat, string> {
    map n | n in m && !(first <= n <= last) :: m[n]
  }

  function Perform(s: Store, w: Write): Store {
    match w
    case SetPayload(n, p) => s.(journal := s.journal[n := p])
    case SetIdentity(n, t) => s.(identity := s.identity[n := t])
    case AddEvent(r) => s.(events := s.events + [r], last := r.index)
    case Commit(n, term, id) => s.(applied := n, head := Some((term, id)))
    case DropPayloads(first, last) => s.(journal := Without(s.journal, first, last))
    case DropIdentities(first, last) => s.(identity := Without(s.identity, first, last))
    case SetFloor(n, m) => s.(floor := n, marker := Some(m))
  }

  datatype Outcome = Outcome(store: Store, done: bool)

  /** Performs the writes in order until one is refused or the server gives up after `budget` of
      them; nothing already written is taken back. */
  function Run(s: Store, ws: seq<Write>, budget: nat): Outcome
    decreases ws
  {
    if ws == [] then Outcome(s, true)
    else if budget == 0 || !Allowed(s, ws[0]) then Outcome(s, false)
    else Run(Perform(s, ws[0]), ws[1..], budget - 1)
  }

  datatype Plan = Plan(writes: seq<Write>, reply: Reply)

  datatype Result = Result(store: Store, reply: Reply)

  function Execute(s: Store, p: Plan, budget: nat): Result {
    var o := Run(s, p.writes, budget);
    Result(o.store, if o.done then p.reply else Failed)
  }

  function RecordWrites(s: Store, r: Record): seq<Write> {
    [SetPayload(r.index, r.payload), SetIdentity(r.index, Identity(r.term, r.id))] +
    (if HasEvent(s, r.index) then [] else [AddEvent(r)])
  }

  function BatchWrites(s: Store, records: seq<Record>): seq<Write> {
    if records == [] then [] else RecordWrites(s, records[0]) + BatchWrites(s, records[1..])
  }

  /** The records of a batch that are not applied yet. */
  function Fresh(s: Store, records: seq<Record>): seq<Record>
    requires |records| > 0 && records[0].index <= s.applied + 1
    requires s.applied + 1 - records[0].index <= |records|
  {
    records[s.applied + 1 - records[0].index..]
  }

  /** What the third loop of the apply script amounts to; see `WriteLoop`. */
  function WritePlan(s: Store, records: seq<Record>): Plan
    requires |records| > 0 && Contiguous(records)
  {
    var last := records[|records| - 1];
    if records[0].index > s.applied + 1 then Plan([], Gap(s.applied))
    else if exists k :: 0 <= k < |records| && records[k].index <= s.applied && !Stored(s, records[k]) then
      Plan([], Conflict(s.applied))
    else if last.index <= s.applied then Plan([], Replayed(s.applied))
    else Plan(BatchWrites(s, Fresh(s, records)) + [Commit(last.index, last.term, last.id)], Applied(last.index))
  }

  function ApplyPlan(s: Store, records: seq<Record>): Plan
    requires |records| > 0 && Contiguous(records)
  {
    if exists k :: 0 <= k < |records| && Clashes(s, records[k]) then Plan([], Conflict(s.applied))
    else WritePlan(s, records)
  }

  /** The third loop of the apply script as it runs, from record `k` on: each record is compared with or
      written to the current state `cur`.  `s` is the state the script first read, `written` the last
      record written. */
  function WriteLoop(s: Store, cur: Store, records: seq<Record>, k: nat, written: Option<Record>, budget: nat): Result
    requires k <= |records|
    decreases |records| - k
  {
    if k == |records| then
      match written
      case None => Result(cur, Replayed(s.applied))
      case Some(last) => Execute(cur, Plan([Commit(last.index, last.term, last.id)], Applied(last.index)), budget)
    else
      var r := records[k];
      if r.index <= s.applied then
        if Stored(cur, r) then WriteLoop(s, cur, records, k + 1, written, budget) else Result(cur, Conflict(s.applied))
      else if r.index != Cursor(s, written) + 1 then Result(cur, Gap(s.applied))
      else
        var o := Run(cur, RecordWrites(s, r), budget);
        if !o.done || budget < |RecordWrites(s, r)| then Result(o.store, Failed)
        else WriteLoop(s, o.store, records, k + 1, Some(r), budget - |RecordWrites(s, r)|)
  }

  function Cursor(s: Store, written: Option<Record>): nat {
    match written case None => s.applied case Some(r) => r.index
  }

  function ReconcileReply(s: Store, records: seq<Record>): Reply
    requires |records| > 0 && Contiguous(records)
  {
    if records[0].index > s.applied + 1 then Gap(s.applied)
    else if exists k :: 0 <= k < |records| && records[k].index <= s.applied && !Stored(s, records[k]) then
      Conflict(s.applied)
    else if records[|records| - 1].index <= s.applied then Replayed(s.applied)
    else Pending(s.applied)
  }

  predicate Present(s: Store, n: nat) {
    n in s.journal && n in s.identity
  }

  /** The identity at the snapshot index starts with the snapshot's term, and has a command id. */
  predicate SnapshotMatches(s: Store, q: CompactRequest) {
    && q.snapshot in s.identity
    && |s.identity[q.snapshot]| > |q.term| + 1
    && q.term + "\0" <= s.identity[q.snapshot]
  }

  datatype ScanResult = Complete | Missing | TooMany

  /** The scan of the compaction scripts over `[cursor..last]` after `count` indices. */
  function Scan(s: Store, cursor: nat, last: nat, count: nat, limit: nat): ScanResult
    requires cursor <= last
    decreases last - cursor
  {
    if !Present(s, cursor) then Missing
    else if cursor == last then Complete
    else if count + 1 >= limit then TooMany
    else Scan(s, cursor + 1, last, count + 1, limit)
  }

  ghost predicate ValidCompact(q: CompactRequest) {
    1 <= q.first <= q.last <= q.snapshot <= MAX_U64_VALUE && q.limit >= 1 && AllDigits(q.term)
  }

  function CompactPlan(s: Store, q: CompactRequest): Plan
    requires ValidCompact(q)
  {
    if s.applied < q.snapshot || s.floor == MAX_U64_VALUE || q.first != s.floor + 1 then Plan([], Gap(s.floor))
    else if !SnapshotMatches(s, q) then Plan([], Conflict(s.floor))
    else
      match Scan(s, q.first, q.last, 0, q.limit)
      case Missing => Plan([], Gap(s.floor))
      case TooMany => Plan([], Conflict(s.floor))
      case Complete =>
        Plan([DropPayloads(q.first, q.last), DropIdentities(q.first, q.last),
              SetFloor(q.last, Marker(q.first, q.snapshot, q.term))], Applied(q.last))
  }

  function CompactReconcileReply(s: Store, q: CompactRequest): Reply
    requires ValidCompact(q)
  {
    if s.floor == q.last then
      if s.marker == Some(Marker(q.first, q.snapshot, q.term)) then Replayed(q.last) else Conflict(s.floor)
    else if s.applied < q.snapshot || s.floor == MAX_U64_VALUE || q.first != s.floor + 1 then Gap(s.floor)
    else if !SnapshotMatches(s, q) then Conflict(s.floor)
    else
      match Scan(s, q.first, q.last, 0, q.limit)
      case Missing => Gap(s.floor)
      case TooMany => Conflict(s.floor)
      case Complete => Pending(s.floor)
  }

  // ---- steps and runs ------------------------------------------------------------------------

  /** Everything that can touch the keys.  A budget says how many writes the server performs before
      it gives up on the script; replies may be lost, which changes nothing here. */
  datatype Op =
    | Apply(argv: seq<string>, budget: nat)
    | Reconcile(argv: seq<string>)
    | Compact(argv: seq<string>, budget: nat)
    | CompactReconcile(argv: seq<string>)
    | ReadFloor
    | Trim(count: nat) // the outbox consumer removes its oldest entries, applied ones only

  function IndexText(argv: seq<string>, k: nat): string
    requires 4 * k < |argv|
  {
    argv[4 * k]
  }

  /** The record at position `k` of a request is the four arguments from `4 * k` on. */
  ghost predicate Spells(argv: seq<string>, k: nat, r: Record)
    requires 4 * k + 4 <= |argv|
  {
    && IndexText(argv, k) == Numeral(r.index) && argv[4 * k + 1] == r.term
    && argv[4 * k + 2] == r.id && argv[4 * k + 3] == r.payload
  }

  lemma ConsContiguous(r: Record, rest: seq<Record>)
    requires WellFormed(r) && Contiguous(rest) && (rest != [] ==> rest[0].index == r.index + 1)
    ensures Contiguous([r] + rest)
  {
    var all := [r] + rest;
    forall k | 0 <= k < |all| ensures WellFormed(all[k]) && all[k].index == all[0].index + k {
      if k > 0 { assert all[k] == rest[k - 1]; }
    }
  }

  lemma ParsedHead(argv: seq<string>, previous: nat)
    requires |argv| % 4 == 0 && argv != [] && ParseRecords(argv, previous).Batch?
    ensures AllDigits(argv[0]) && argv[0] == Numeral(Value(argv[0]))
    ensures ParseRecords(argv[4..], Value(argv[0])).Batch?
    ensures
      var r := Record(Value(argv[0]), argv[1], argv[2], argv[3]);
      && WellFormed(r) && (previous != 0 ==> r.index == previous + 1)
      && ParseRecords(argv, previous).records == [r] + ParseRecords(argv[4..], r.index).records
  {
    AcceptedText(argv[0]);
    AcceptedText(argv[1]);
  }

  lemma SpellsCons(argv: seq<string>, r: Record, rest: seq<Record>)
    requires |argv| == 4 * |rest| + 4 && Spells(argv, 0, r)
    requires forall k :: 0 <= k < |rest| ==> Spells(argv[4..], k, rest[k])
    ensures forall k :: 0 <= k < |rest| + 1 ==> Spells(argv, k, ([r] + rest)[k])
  {
    forall k | 0 <= k < |rest| + 1 ensures Spells(argv, k, ([r] + rest)[k]) {
      if k > 0 {
        assert Spells(argv[4..], k - 1, rest[k - 1]);
      }
    }
  }

  /** A request that passes the checks is a run of consecutive, well-formed records, spelled by its
      arguments in order. */
  lemma {:induction false} ParsedIsContiguous(argv: seq<string>, previous: nat)
    requires |argv| % 4 == 0 && ParseRecords(argv, previous).Batch?
    ensures
      var rs := ParseRecords(argv, previous).records;
      && |argv| == 4 * |rs| && Contiguous(rs)
      && (previous != 0 && rs != [] ==> rs[0].index == previous + 1)
      && forall k :: 0 <= k < |rs| ==> Spells(argv, k, rs[k])
  {
    if argv != [] {
      ParsedHead(argv, previous);
      var r := Record(Value(argv[0]), argv[1], argv[2], argv[3]);
      ParsedIsContiguous(argv[4..], r.index);
      var rest := ParseRecords(argv[4..], r.index).records;
      ConsContiguous(r, rest);
      SpellsCons(argv, r, rest);
    }
  }

  lemma ParsedCompactIsValid(argv: seq<string>)
    ensures ParseCompact(argv).Some? ==> ValidCompact(ParseCompact(argv).value)
  {
    if ParseCompact(argv).Some? {
      CompareIsOrder(argv[1], argv[0]);
      CompareIsOrder(argv[2], argv[1]);
      AcceptedText(argv[0]);
      AcceptedText(argv[2]);
      AcceptedText(argv[3]);
      AcceptedText(argv[4]);
    }
  }

  function Step(s: Store, op: Op): Result {
    match op
    case Apply(argv, budget) =>
      (match ParseBatch(argv)
       case Bad(reason) => Result(s, Invalid(reason))
       case Batch(records) => ParsedIsContiguous(argv, 0); Execute(s, ApplyPlan(s, records), budget))
    case Reconcile(argv) =>
      (match ParseBatch(argv)
       case Bad(reason) => Result(s, Invalid(reason))
       case Batch(records) => ParsedIsContiguous(argv, 0); Result(s, ReconcileReply(s, records)))
    case Compact(argv, budget) =>
      (match ParseCompact(argv)
       case None => Result(s, Conflict(0))
       case Some(q) => ParsedCompactIsValid(argv); Execute(s, CompactPlan(s, q), budget))
    case CompactReconcile(argv) =>
      (match ParseCompact(argv)
       case None => Result(s, Conflict(0))
       case Some(q) => ParsedCompactIsValid(argv); Result(s, CompactReconcileReply(s, q)))
    case ReadFloor => Result(s, Applied(s.floor))
    case Trim(count) =>
      if s.trimmed + count <= s.applied && s.trimmed + count <= |s.events|
      then Result(s.(trimmed := s.trimmed + count), Applied(0)) else Result(s, Applied(0))
  }

  function After(s: Store, ops: seq<Op>): Store
    decreases ops
  {
    if ops == [] then s else After(Step(s, ops[0]).store, ops[1..])
  }

  function Replies(s: Store, ops: seq<Op>): seq<Reply>
    decreases ops
  {
    if ops == [] then [] else
      var r := Step(s, ops[0]);
      [r.reply] + Replies(r.store, ops[1..])
  }
}
