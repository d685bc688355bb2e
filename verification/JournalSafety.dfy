/** What every run of the journal machine keeps, whatever is aborted, retried, compacted or lost. */
module JournalSafety {
  import opened Decimal
  import opened Journal

  /** The identity text determines its term and its command id: a term is digits, so the first zero
      byte ends it. */
  lemma IdentityInjective(t1: string, i1: string, t2: string, i2: string)
    requires AllDigits(t1) && AllDigits(t2)
    requires Identity(t1, i1) == Identity(t2, i2)
    ensures t1 == t2 && i1 == i2
  {
    var a, b := Identity(t1, i1), Identity(t2, i2);
    assert a[|t1|] == '\0' && b[|t2|] == '\0';
    assert |t1| == |t2|;
    assert t1 == a[..|t1|] && t2 == b[..|t2|];
    assert i1 == a[|t1| + 1..] && i2 == b[|t2| + 1..];
  }

  // ---- the invariants ------------------------------------------------------------------------

  /** Up to `u`, whatever the hashes hold is what the event of that index says. */
  ghost predicate Faithful(s: Store, u: nat) {
    && u <= |s.events|
    && (forall n :: n in s.journal && n <= u ==> n >= 1 && s.journal[n] == s.events[n - 1].payload)
    && (forall n :: n in s.identity && n <= u ==>
          n >= 1 && s.identity[n] == Identity(s.events[n - 1].term, s.events[n - 1].id))
  }

  ghost predicate Numbered(events: seq<Record>) {
    forall i :: 0 <= i < |events| ==> events[i].index == i + 1 && WellFormed(events[i])
  }

  /** The outbox holds consecutive ids from 1, has caught up with the commit marker, and the first
      `applied` events are the committed log; whatever the hashes still hold at a committed index is
      that log's record. */
  ghost predicate Agrees(s: Store) {
    && s.floor <= s.applied && s.trimmed <= s.applied && Numbered(s.events) && s.last == |s.events| && Faithful(s, s.applied)
    && (s.applied > 0 ==> s.head == Some((s.events[s.applied - 1].term, s.events[s.applied - 1].id)))
  }

  /** Both hashes hold exactly the committed indices above the compaction floor (and possibly
      prepared ones above the commit marker). */
  ghost predicate Dense(s: Store) {
    forall n :: n <= s.applied ==>
      (n in s.journal <==> s.floor < n) && (n in s.identity <==> s.floor < n)
  }

  /** At the indices committed in `s`, the hashes of `later` have fields exactly where those of `s` have. */
  ghost predicate SameBelow(s: Store, later: Store) {
    forall n :: n <= s.applied ==> (n in later.journal <==> n in s.journal) && (n in later.identity <==> n in s.identity)
  }

  /** The records a reply acknowledges as part of the committed log. */
  ghost predicate Acknowledges(op: Op, reply: Reply, r: Record) {
    && (op.Apply? || op.Reconcile?) && (reply.Applied? || reply.Replayed?)
    && ParseBatch(op.argv).Batch? && r in ParseBatch(op.argv).records
  }

  /** `later` still contains everything committed or appended in `s`. */
  ghost predicate Extends(s: Store, later: Store) {
    s.applied <= later.applied && s.floor <= later.floor && s.events <= later.events
  }

  // ---- running writes ------------------------------------------------------------------------

  lemma {:induction false} RunAppend(s: Store, a: seq<Write>, b: seq<Write>, budget: nat)
    ensures
      var o := Run(s, a, budget);
      && (o.done ==> budget >= |a|)
      && Run(s, a + b, budget) == if o.done then Run(o.store, b, budget - |a|) else o
    decreases a
  {
    if a == [] {
      assert a + b == b;
    } else {
      assert (a + b)[0] == a[0] && (a + b)[1..] == a[1..] + b;
      if budget > 0 && Allowed(s, a[0]) {
        RunAppend(Perform(s, a[0]), a[1..], b, budget - 1);
      }
    }
  }

  lemma EventPresent(s: Store, n: nat)
    requires Agrees(s) && s.applied < n
    ensures HasEvent(s, n) <==> n <= |s.events|
  {
    if n <= |s.events| { assert s.events[n - 1].index == n; }
  }

  lemma NoClashMeansEqual(s: Store, r: Record)
    requires Agrees(s) && s.applied < r.index <= |s.events| && !Clashes(s, r)
    ensures s.events[r.index - 1] == r
  {
    assert s.events[r.index - 1].index == r.index;
  }

  /** The state while a batch is being written: `from` is the state the script read, the records up
      to `upTo` have been written, and the outbox has grown just enough to hold them. */
  ghost predicate Writing(from: Store, s: Store, upTo: nat) {
    && Agrees(s) && from.events <= s.events
    && s.applied == from.applied && s.floor == from.floor && s.marker == from.marker && s.trimmed == from.trimmed
    && from.applied <= upTo && Faithful(s, upTo)
    && |s.events| == (if |from.events| < upTo then upTo else |from.events|)
    && (forall n :: n <= from.applied ==> (n in s.journal <==> n in from.journal) && (n in s.identity <==> n in from.identity))
    && (forall n :: from.applied < n <= upTo ==> n in s.journal && n in s.identity)
  }

  lemma WritePayload(from: Store, s: Store, n: nat, p: string)
    requires n > 0 && Writing(from, s, n - 1)
    ensures Writing(from, Perform(s, SetPayload(n, p)), n - 1)
  {
  }

  lemma WriteIdentity(from: Store, s: Store, n: nat, text: string)
    requires n > 0 && Writing(from, s, n - 1)
    ensures Writing(from, Perform(s, SetIdentity(n, text)), n - 1)
  {
  }

  lemma KeepEvent(from: Store, s: Store, r: Record)
    requires Agrees(from) && WellFormed(r) && Writing(from, s, r.index - 1) && Stored(s, r)
    requires !Clashes(from, r) && HasEvent(from, r.index)
    ensures Writing(from, s, r.index) && s.events[r.index - 1] == r
  {
    EventPresent(from, r.index);
    NoClashMeansEqual(from, r);
  }

  /** A missing event belongs right after the last one, so the stream accepts it. */
  lemma AppendEvent(from: Store, s: Store, r: Record)
    requires Agrees(from) && WellFormed(r) && Writing(from, s, r.index - 1) && Stored(s, r)
    requires !HasEvent(from, r.index)
    ensures
      var s' := Perform(s, AddEvent(r));
      Allowed(s, AddEvent(r)) && Writing(from, s', r.index) && s.events <= s'.events && s'.events[r.index - 1] == r
  {
    EventPresent(from, r.index);
    var s' := Perform(s, AddEvent(r));
    assert forall i :: 0 <= i < |s.events| ==> s'.events[i] == s.events[i];
    assert Agrees(s');
  }

  function WithPayload(s: Store, r: Record): Store {
    Perform(s, SetPayload(r.index, r.payload))
  }

  function WithHashes(s: Store, r: Record): Store {
    Perform(WithPayload(s, r), SetIdentity(r.index, Identity(r.term, r.id)))
  }

  function WithRecord(from: Store, s: Store, r: Record): Store {
    if HasEvent(from, r.index) then WithHashes(s, r) else Perform(WithHashes(s, r), AddEvent(r))
  }

  lemma RunRecord(from: Store, s: Store, r: Record, budget: nat)
    ensures Run(s, RecordWrites(from, r), budget) ==
      if budget == 0 then Outcome(s, false)
      else if budget == 1 then Outcome(WithPayload(s, r), false)
      else if HasEvent(from, r.index) then Outcome(WithHashes(s, r), true)
      else if budget == 2 || !Allowed(WithHashes(s, r), AddEvent(r)) then Outcome(WithHashes(s, r), false)
      else Outcome(WithRecord(from, s, r), true)
  {
    var ws := RecordWrites(from, r);
    if budget > 1 {
      assert Run(s, ws, budget) == Run(WithPayload(s, r), ws[1..], budget - 1);
      assert ws[1..][1..] == ws[2..];
      assert Run(s, ws, budget) == Run(WithHashes(s, r), ws[2..], budget - 2);
      if !HasEvent(from, r.index) && budget > 2 && Allowed(WithHashes(s, r), AddEvent(r)) {
        assert ws[2..][1..] == [];
        assert Run(WithHashes(s, r), ws[2..], budget - 2) == Run(WithRecord(from, s, r), [], budget - 3);
      }
    }
  }

  lemma HashesWritten(from: Store, s: Store, r: Record)
    requires WellFormed(r) && Writing(from, s, r.index - 1)
    ensures Writing(from, WithPayload(s, r), r.index - 1)
    ensures Writing(from, WithHashes(s, r), r.index - 1) && Stored(WithHashes(s, r), r)
  {
    WritePayload(from, s, r.index, r.payload);
    WriteIdentity(from, WithPayload(s, r), r.index, Identity(r.term, r.id));
  }

  /** One record's writes, stopped anywhere. */
  lemma WriteRecord(from: Store, s: Store, r: Record, budget: nat)
    requires Agrees(from) && WellFormed(r) && Writing(from, s, r.index - 1)
    requires !Clashes(from, r)
    ensures
      var ws := RecordWrites(from, r);
      var o := Run(s, ws, budget);
      && (o.done <==> budget >= |ws|)
      && s.events <= o.store.events
      && (o.done ==> Writing(from, o.store, r.index) && o.store.events[r.index - 1] == r)
      && (!o.done ==> Writing(from, o.store, r.index - 1))
  {
    HashesWritten(from, s, r);
    var s2 := WithHashes(s, r);
    assert s2.events == s.events;
    if HasEvent(from, r.index) { KeepEvent(from, s2, r); } else { AppendEvent(from, s2, r); }
    RunRecord(from, s, r, budget);
  }

  /** The outbox holds `rs` at its own indices. */
  ghost predicate Logged(events: seq<Record>, rs: seq<Record>) {
    forall k :: 0 <= k < |rs| ==> 1 <= rs[k].index <= |events| && events[rs[k].index - 1] == rs[k]
  }

  /** What is left behind when the writes of `rs` run from `s`, all of them or not. */
  ghost predicate BatchLeft(from: Store, s: Store, rs: seq<Record>, o: Outcome) {
    && rs != [] && s.events <= o.store.events
    && (if o.done then Writing(from, o.store, rs[|rs| - 1].index) && Logged(o.store.events, rs)
        else exists u :: Writing(from, o.store, u))
  }

  ghost predicate NoClashes(s: Store, rs: seq<Record>) {
    forall k :: 0 <= k < |rs| ==> !Clashes(s, rs[k])
  }

  lemma TailFacts(s: Store, rs: seq<Record>)
    requires Contiguous(rs) && |rs| > 1 && NoClashes(s, rs)
    ensures Contiguous(rs[1..]) && rs[1].index == rs[0].index + 1 && NoClashes(s, rs[1..])
  {
    assert forall k :: 0 <= k < |rs| - 1 ==> rs[1..][k] == rs[k + 1];
  }

  lemma HeadFacts(s: Store, rs: seq<Record>)
    requires Contiguous(rs) && rs != [] && NoClashes(s, rs)
    ensures WellFormed(rs[0]) && !Clashes(s, rs[0])
  {
  }

  lemma LoggedMore(a: seq<Record>, b: seq<Record>, r: Record, rest: seq<Record>)
    requires a <= b && 1 <= r.index <= |a| && a[r.index - 1] == r && Logged(b, rest)
    ensures Logged(b, [r] + rest)
  {
    var rs := [r] + rest;
    forall k | 0 <= k < |rs| ensures 1 <= rs[k].index <= |b| && b[rs[k].index - 1] == rs[k] {
      if k > 0 { assert rs[k] == rest[k - 1]; }
    }
  }

  /** A batch's writes before its commit marker, stopped anywhere: only uncommitted data changes,
      and the outbox never refuses an entry. */
  lemma {:induction false} WriteBatch(from: Store, s: Store, rs: seq<Record>, budget: nat) returns (o: Outcome)
    requires Agrees(from) && Contiguous(rs) && rs != [] && NoClashes(from, rs)
    requires rs[0].index > 0 && Writing(from, s, rs[0].index - 1)
    ensures o == Run(s, BatchWrites(from, rs), budget) && (o.done <==> budget >= |BatchWrites(from, rs)|)
    ensures BatchLeft(from, s, rs, o)
    decreases rs
  {
    var r, rest := rs[0], rs[1..];
    var head, tail := RecordWrites(from, r), BatchWrites(from, rest);
    assert rs == [r] + rest;
    HeadFacts(from, rs);
    WriteRecord(from, s, r, budget);
    RunAppend(s, head, tail, budget);
    o := Run(s, head, budget);
    if o.done && rest != [] {
      var mid := o.store;
      TailFacts(from, rs);
      o := WriteBatch(from, mid, rest, budget - |head|);
      if o.done { LoggedMore(mid.events, o.store.events, r, rest); }
    } else if o.done {
      LoggedMore(o.store.events, o.store.events, r, rest);
    }
  }

  // ---- one step ------------------------------------------------------------------------------

  /** A committed index whose hashes hold a record holds the committed record. */
  lemma StoredIsCommitted(s: Store, r: Record)
    requires Agrees(s) && WellFormed(r) && r.index <= s.applied && Stored(s, r)
    ensures s.events[r.index - 1] == r
  {
    var e := s.events[r.index - 1];
    IdentityInjective(e.term, e.id, r.term, r.id);
  }

  /** The records are part of the committed log. */
  ghost predicate Holds(s: Store, rs: seq<Record>) {
    Logged(s.events, rs) && forall k :: 0 <= k < |rs| ==> rs[k].index <= s.applied
  }

  /** Writing the commit marker after a complete batch commits exactly that batch. */
  lemma CommitBatch(from: Store, s: Store, last: Record)
    requires Agrees(from) && 1 <= last.index && from.applied < last.index && Writing(from, s, last.index)
    requires s.events[last.index - 1] == last
    ensures
      var s' := Perform(s, Commit(last.index, last.term, last.id));
      Agrees(s') && Extends(from, s') && (Dense(from) ==> Dense(s'))
  {
  }

  lemma FreshFacts(s: Store, records: seq<Record>)
    requires Contiguous(records) && |records| > 0 && records[0].index <= s.applied + 1
    requires records[|records| - 1].index > s.applied
    ensures s.applied + 1 - records[0].index < |records|
    ensures Contiguous(Fresh(s, records)) && Fresh(s, records) != [] && Fresh(s, records)[0].index == s.applied + 1
    ensures forall r :: r in records ==> r.index <= s.applied || r in Fresh(s, records)
    ensures forall r :: r in Fresh(s, records) ==> r in records
    ensures var f := Fresh(s, records); f[|f| - 1] == records[|records| - 1]
  {
    var d := s.applied + 1 - records[0].index;
    var f := records[d..];
    assert forall k :: 0 <= k < |f| ==> f[k] == records[d + k];
    forall r | r in records ensures r.index <= s.applied || r in f {
      var k :| 0 <= k < |records| && records[k] == r;
      if k >= d { assert f[k - d] == r; }
    }
  }

  lemma FreshNoClashes(s: Store, records: seq<Record>)
    requires |records| > 0 && records[0].index <= s.applied + 1 && s.applied + 1 - records[0].index <= |records|
    requires NoClashes(s, records)
    ensures NoClashes(s, Fresh(s, records))
  {
    var d := s.applied + 1 - records[0].index;
    assert forall k :: 0 <= k < |records| - d ==> Fresh(s, records)[k] == records[d + k];
  }

  /** What an accepted batch promises about the state it was planned in. */
  ghost predicate Accepts(s: Store, records: seq<Record>, p: Plan)
    requires |records| > 0
  {
    var last := records[|records| - 1];
    && NoClashes(s, records) && records[0].index <= s.applied + 1
    && (forall k :: 0 <= k < |records| && records[k].index <= s.applied ==> Stored(s, records[k]))
    && (p.reply.Replayed? ==> p.writes == [] && last.index <= s.applied)
    && (p.reply.Applied? ==>
          && p.reply.index == last.index > s.applied
          && s.applied + 1 - records[0].index <= |records|
          && p.writes == BatchWrites(s, Fresh(s, records)) + [Commit(last.index, last.term, last.id)])
  }

  lemma PlanFacts(s: Store, records: seq<Record>)
    requires |records| > 0 && Contiguous(records)
    ensures
      var p := ApplyPlan(s, records);
      && (if p.reply.Applied? || p.reply.Replayed? then Accepts(s, records, p)
          else p.writes == [] && !p.reply.Failed?)
  {
  }

  /** The batch that an apply step commits, and what it leaves when it is cut short. */
  ghost predicate BatchCommitted(s: Store, f: seq<Record>, o: Outcome) {
    && Agrees(o.store) && Extends(s, o.store) && (Dense(s) ==> Dense(o.store)) && SameBelow(s, o.store)
    && o.store.floor == s.floor && o.store.marker == s.marker && o.store.trimmed == s.trimmed
    && (!o.done ==> o.store.applied == s.applied)
    && (o.done ==> f != [] && o.store.applied == f[|f| - 1].index && Holds(o.store, f))
  }

  lemma CutShort(s: Store, f: seq<Record>, o: Outcome)
    requires Agrees(s) && BatchLeft(s, s, f, o) && !o.done
    ensures BatchCommitted(s, f, o)
  {
  }

  lemma Completed(s: Store, f: seq<Record>, o: Outcome)
    requires Agrees(s) && Contiguous(f) && f != [] && f[0].index == s.applied + 1 && BatchLeft(s, s, f, o) && o.done
    ensures
      var last := f[|f| - 1];
      BatchCommitted(s, f, Outcome(Perform(o.store, Commit(last.index, last.term, last.id)), true))
  {
    CommitBatch(s, o.store, f[|f| - 1]);
    assert forall k :: 0 <= k < |f| ==> f[k].index <= f[|f| - 1].index;
  }

  lemma {:induction false} ApplyWrites(s: Store, f: seq<Record>, budget: nat)
    requires Agrees(s) && f != [] && Contiguous(f) && f[0].index == s.applied + 1 && NoClashes(s, f)
    ensures
      var last := f[|f| - 1];
      var ws := BatchWrites(s, f) + [Commit(last.index, last.term, last.id)];
      (Run(s, ws, budget).done <==> budget >= |ws|) && BatchCommitted(s, f, Run(s, ws, budget))
  {
    var last := f[|f| - 1];
    var ws, commit := BatchWrites(s, f), Commit(last.index, last.term, last.id);
    assert Writing(s, s, s.applied);
    var o := WriteBatch(s, s, f, budget);
    RunAppend(s, ws, [commit], budget);
    if o.done {
      Completed(s, f, o);
      assert [commit][1..] == [];
      if budget == |ws| { assert Run(o.store, [commit], 0) == Outcome(o.store, false); CutShort(s, f, Outcome(o.store, false)); }
    } else {
      CutShort(s, f, o);
    }
  }

  /** Everything one apply step promises: the invariants, and that only a complete batch changes
      what is committed. */
  ghost predicate Applies(s: Store, records: seq<Record>, x: Result) {
    && Agrees(x.store) && Extends(s, x.store) && (Dense(s) ==> Dense(x.store)) && SameBelow(s, x.store)
    && x.store.floor == s.floor && x.store.marker == s.marker
    && (!x.reply.Failed? && !x.reply.Applied? ==> x.store == s)
    && (x.reply.Failed? ==> x.store.applied == s.applied)
    && (x.reply.Applied? ==> records != [] && x.reply.index == x.store.applied == records[|records| - 1].index)
    && (x.reply.Applied? || x.reply.Replayed? ==> Holds(x.store, records))
  }

  /** What was stored at committed indices together with what has just been logged. */
  lemma AllHeld(s: Store, records: seq<Record>, f: seq<Record>, later: Store)
    requires Agrees(s) && Contiguous(records) && Extends(s, later) && Holds(later, f)
    requires forall k :: 0 <= k < |records| && records[k].index <= s.applied ==> Stored(s, records[k])
    requires forall r :: r in records ==> r.index <= s.applied || r in f
    ensures Holds(later, records)
  {
    forall k | 0 <= k < |records|
      ensures 1 <= records[k].index <= |later.events| && later.events[records[k].index - 1] == records[k]
      ensures records[k].index <= later.applied
    {
      if records[k].index <= s.applied {
        StoredIsCommitted(s, records[k]);
      } else {
        assert records[k] in f;
      }
    }
  }

  lemma ReplayedStep(s: Store, records: seq<Record>, p: Plan, budget: nat)
    requires Agrees(s) && |records| > 0 && Contiguous(records)
    requires p.reply.Replayed? && Accepts(s, records, p)
    ensures Execute(s, p, budget) == Result(s, p.reply) && Applies(s, records, Execute(s, p, budget))
  {
    assert forall r :: r in records ==> r.index <= s.applied;
    AllHeld(s, records, [], s);
  }

  lemma AppliedStep(s: Store, records: seq<Record>, f: seq<Record>, p: Plan, budget: nat)
    requires Agrees(s) && f != [] && Contiguous(f) && f[0].index == s.applied + 1 && NoClashes(s, f)
    requires records != [] && f[|f| - 1] == records[|records| - 1]
    requires
      var last := f[|f| - 1];
      p == Plan(BatchWrites(s, f) + [Commit(last.index, last.term, last.id)], Applied(last.index))
    requires forall later :: Extends(s, later) && Holds(later, f) ==> Holds(later, records)
    ensures Execute(s, p, budget).reply.Failed? <==> budget < |p.writes|
    ensures Applies(s, records, Execute(s, p, budget))
  {
    ApplyWrites(s, f, budget);
  }

  lemma AcceptedStep(s: Store, records: seq<Record>, p: Plan, budget: nat)
    requires Agrees(s) && |records| > 0 && Contiguous(records)
    requires p.reply.Applied? && Accepts(s, records, p)
    ensures Execute(s, p, budget).reply.Failed? <==> budget < |p.writes|
    ensures Applies(s, records, Execute(s, p, budget))
  {
    FreshFacts(s, records);
    FreshNoClashes(s, records);
    var f := Fresh(s, records);
    forall later | Extends(s, later) && Holds(later, f) ensures Holds(later, records) {
      AllHeld(s, records, f, later);
    }
    AppliedStep(s, records, f, p, budget);
  }

  /** One apply step, complete or cut short by the server after any number of writes. */
  lemma ApplyStep(s: Store, records: seq<Record>, budget: nat)
    requires Agrees(s) && |records| > 0 && Contiguous(records)
    ensures Execute(s, ApplyPlan(s, records), budget).reply.Failed? <==> budget < |ApplyPlan(s, records).writes|
    ensures Applies(s, records, Execute(s, ApplyPlan(s, records), budget))
  {
    PlanFacts(s, records);
    var p := ApplyPlan(s, records);
    if p.reply.Applied? { AcceptedStep(s, records, p, budget); }
    if p.reply.Replayed? { ReplayedStep(s, records, p, budget); }
  }
}
