/** Whole runs of the journal: agreement between clients, the outbox, reconciliation, compaction. */
module JournalRuns {
  import opened Decimal
  import opened Journal
  import opened JournalSafety

  // ---- compaction ----------------------------------------------------------------------------

  /** The scan completes exactly when every index is there and the range fits the limit. */
  lemma {:induction false} ScanMeaning(s: Store, cursor: nat, last: nat, count: nat, limit: nat)
    requires cursor <= last
    ensures Scan(s, cursor, last, count, limit).Complete? <==>
      && (forall n :: cursor <= n <= last ==> Present(s, n))
      && (cursor == last || count + (last - cursor) + 1 <= limit)
    decreases last - cursor
  {
    if Present(s, cursor) && cursor < last && count + 1 < limit {
      ScanMeaning(s, cursor + 1, last, count + 1, limit);
    }
  }

  /** Compaction applies exactly when its range starts right above the floor, is within the limit and
      complete, and the snapshot is applied and carries the given term. */
  lemma CompactCondition(s: Store, q: CompactRequest)
    requires ValidCompact(q)
    ensures CompactPlan(s, q).reply.Applied? <==>
      && q.snapshot <= s.applied && s.floor < MAX_U64_VALUE && q.first == s.floor + 1
      && SnapshotMatches(s, q) && q.last - q.first + 1 <= q.limit
      && forall n :: q.first <= n <= q.last ==> Present(s, n)
    ensures CompactPlan(s, q).reply.Applied? ==> CompactPlan(s, q).reply.index == q.last
  {
    ScanMeaning(s, q.first, q.last, 0, q.limit);
    if s.floor > MAX_U64_VALUE && q.first == s.floor + 1 { assert false; }
  }

  /** Compaction never touches the log; cut short it may lose hash entries, but never the floor. */
  lemma CompactStep(s: Store, q: CompactRequest, budget: nat)
    requires ValidCompact(q) && Agrees(s)
    ensures
      var p := CompactPlan(s, q);
      var x := Execute(s, p, budget);
      && Agrees(x.store) && Extends(s, x.store)
      && x.store.applied == s.applied && x.store.events == s.events
      && (x.reply.Failed? <==> p.reply.Applied? && budget < 3)
      && (x.reply.Applied? ==> x.store.floor == q.last > s.floor && x.store.marker == Some(Marker(q.first, q.snapshot, q.term)))
      && (!x.reply.Applied? ==> x.store.floor == s.floor && x.store.marker == s.marker)
      && (!x.reply.Applied? && !x.reply.Failed? ==> x.store == s)
      && (Dense(s) && !x.reply.Failed? ==> Dense(x.store))
  {
    CompactCondition(s, q);
    var p := CompactPlan(s, q);
    if p.reply.Applied? {
      var s1 := Perform(s, p.writes[0]);
      var s2 := Perform(s1, p.writes[1]);
      assert budget > 0 ==> Run(s, p.writes, budget) == Run(s1, p.writes[1..], budget - 1);
      assert budget > 1 ==> Run(s1, p.writes[1..], budget - 1) == Run(s2, p.writes[1..][1..], budget - 2);
      assert p.writes[1..][1..] == [p.writes[2]] && [p.writes[2]][1..] == [];
      assert budget > 2 ==> Run(s2, [p.writes[2]], budget - 2) == Outcome(Perform(s2, p.writes[2]), true);
    }
  }

  /** In every state, reconciling a compaction says PENDING exactly when compacting would apply. */
  lemma CompactReconcilePending(s: Store, q: CompactRequest)
    requires ValidCompact(q)
    ensures CompactReconcileReply(s, q).Pending? <==> CompactPlan(s, q).reply.Applied?
  {
  }

  // ---- steps and runs ------------------------------------------------------------------------

  ghost predicate StepKeeps(s: Store, op: Op, x: Result) {
    && Agrees(x.store) && Extends(s, x.store)
    && (Dense(s) && !(op.Compact? && x.reply.Failed?) ==> Dense(x.store))
    && (forall r :: Acknowledges(op, x.reply, r) ==>
          1 <= r.index <= x.store.applied && x.store.events[r.index - 1] == r)
  }

  lemma ReconcileHolds(s: Store, records: seq<Record>)
    requires Agrees(s) && |records| > 0 && Contiguous(records) && ReconcileReply(s, records).Replayed?
    ensures Holds(s, records)
  {
    assert forall r :: r in records ==> r.index <= s.applied;
    AllHeld(s, records, [], s);
  }

  lemma HeldIn(s: Store, rs: seq<Record>)
    requires Agrees(s) && Holds(s, rs)
    ensures forall r :: r in rs ==> 1 <= r.index <= s.applied && s.events[r.index - 1] == r
  {
  }

  lemma ApplySafe(s: Store, argv: seq<string>, budget: nat)
    requires Agrees(s)
    ensures StepKeeps(s, Apply(argv, budget), Step(s, Apply(argv, budget)))
  {
    if ParseBatch(argv).Batch? {
      ParsedIsContiguous(argv, 0);
      var records := ParseBatch(argv).records;
      ApplyStep(s, records, budget);
      var x := Step(s, Apply(argv, budget));
      if x.reply.Applied? || x.reply.Replayed? { HeldIn(x.store, records); }
    }
  }

  lemma ReconcileSafe(s: Store, argv: seq<string>)
    requires Agrees(s)
    ensures StepKeeps(s, Reconcile(argv), Step(s, Reconcile(argv)))
  {
    if ParseBatch(argv).Batch? {
      ParsedIsContiguous(argv, 0);
      var records := ParseBatch(argv).records;
      if ReconcileReply(s, records).Replayed? {
        ReconcileHolds(s, records);
        HeldIn(s, records);
      }
    }
  }

  /** Every step, cut short or not, keeps the log and only acknowledges what is in it. */
  lemma StepSafe(s: Store, op: Op)
    requires Agrees(s)
    ensures StepKeeps(s, op, Step(s, op))
  {
    match op
    case Apply(argv, budget) => ApplySafe(s, argv, budget);
    case Reconcile(argv) => ReconcileSafe(s, argv);
    case Compact(argv, budget) =>
      if ParseCompact(argv).Some? {
        ParsedCompactIsValid(argv);
        CompactStep(s, ParseCompact(argv).value, budget);
      }
    case CompactReconcile(_) =>
    case ReadFloor =>
    case Trim(_) =>
  }

  ghost predicate Logs(s: Store, r: Record) {
    1 <= r.index <= s.applied && r.index <= |s.events| && s.events[r.index - 1] == r
  }

  /** The invariant over any run, and every acknowledged record in the final log. */
  lemma {:induction false} RunSafe(s: Store, ops: seq<Op>)
    requires Agrees(s)
    ensures Agrees(After(s, ops)) && Extends(s, After(s, ops)) && |Replies(s, ops)| == |ops|
    ensures forall i, r :: 0 <= i < |ops| && Acknowledges(ops[i], Replies(s, ops)[i], r) ==> Logs(After(s, ops), r)
    decreases ops
  {
    if ops != [] {
      StepSafe(s, ops[0]);
      var x := Step(s, ops[0]);
      RunSafe(x.store, ops[1..]);
      forall i, r | 0 <= i < |ops| && Acknowledges(ops[i], Replies(s, ops)[i], r) ensures Logs(After(s, ops), r) {
        if i > 0 {
          assert Replies(s, ops)[i] == Replies(x.store, ops[1..])[i - 1];
          assert ops[1..][i - 1] == ops[i];
        }
      }
    }
  }

  /** AGREEMENT.  Whatever is aborted, retried, compacted, trimmed or lost: two requests that were both
      told APPLIED or REPLAYED carry the same record at any index they share. */
  lemma Agreement(ops: seq<Op>, i: nat, j: nat, r1: Record, r2: Record)
    requires i < |ops| && j < |ops| && |Replies(EMPTY, ops)| == |ops|
    requires Acknowledges(ops[i], Replies(EMPTY, ops)[i], r1)
    requires Acknowledges(ops[j], Replies(EMPTY, ops)[j], r2)
    requires r1.index == r2.index
    ensures r1 == r2
  {
    RunSafe(EMPTY, ops);
    assert Logs(After(EMPTY, ops), r1) && Logs(After(EMPTY, ops), r2);
  }

  /** An acknowledged record stays in the log at its index for the rest of the run. */
  lemma AcknowledgedIsDurable(ops: seq<Op>, i: nat, r: Record)
    requires i < |ops| && |Replies(EMPTY, ops)| == |ops| && Acknowledges(ops[i], Replies(EMPTY, ops)[i], r)
    ensures Logs(After(EMPTY, ops), r)
  {
    RunSafe(EMPTY, ops);
  }

  /** THE OUTBOX.  In every reachable state the events ever appended carry the ids 1, 2, 3, ... without
      gap or repetition, at least as far as the commit marker, and none is ever changed later; whatever the two hashes hold
      at a committed index is what the event of that index says. */
  lemma OutboxIsTheLog(ops: seq<Op>, more: seq<Op>)
    ensures
      var s := After(EMPTY, ops);
      && (forall i :: 0 <= i < |s.events| ==> s.events[i].index == i + 1)
      && s.trimmed <= s.applied <= |s.events|
      && s.events <= After(s, more).events && s.applied <= After(s, more).applied
      && (forall n :: n in s.journal && n <= s.applied ==> 1 <= n && s.journal[n] == s.events[n - 1].payload)
      && (forall n :: n in s.identity && n <= s.applied ==>
            1 <= n && s.identity[n] == Identity(s.events[n - 1].term, s.events[n - 1].id))
  {
    RunSafe(EMPTY, ops);
    RunSafe(After(EMPTY, ops), more);
  }

  /** In every reachable state the stream accepts every entry a script adds: an apply step fails
      only when the server itself gives up. */
  lemma StreamNeverRefuses(ops: seq<Op>, argv: seq<string>, budget: nat)
    requires ParseBatch(argv).Batch?
    ensures
      var s := After(EMPTY, ops);
      var records := ParseBatch(argv).records;
      && |records| > 0 && Contiguous(records)
      && (Step(s, Apply(argv, budget)).reply.Failed? <==> budget < |ApplyPlan(s, records).writes|)
  {
    RunSafe(EMPTY, ops);
    ParsedIsContiguous(argv, 0);
    ApplyStep(After(EMPTY, ops), ParseBatch(argv).records, budget);
  }

  /** The compaction would apply, but the server gives up after its first or its second write. */
  ghost predicate Interrupted(s: Store, op: Op) {
    && op.Compact? && ParseCompact(op.argv).Some? && (op.budget == 1 || op.budget == 2)
    && ValidCompact(ParseCompact(op.argv).value) && CompactPlan(s, ParseCompact(op.argv).value).reply.Applied?
  }

  /** Such a step occurs in the run. */
  ghost predicate InterruptedIn(s: Store, ops: seq<Op>)
    decreases ops
  {
    ops != [] && (Interrupted(s, ops[0]) || InterruptedIn(Step(s, ops[0]).store, ops[1..]))
  }

  /** The first index above the floor is committed, but a hash has lost it. */
  ghost predicate Stuck(s: Store) {
    s.floor < s.applied && !Present(s, s.floor + 1)
  }

  lemma CutIsStuck(s: Store, op: Op)
    requires Agrees(s) && Interrupted(s, op)
    ensures Stuck(Step(s, op).store)
  {
    var q := ParseCompact(op.argv).value;
    CompactCondition(s, q);
    CompactStep(s, q, op.budget);
    var p := CompactPlan(s, q);
    var s1 := Perform(s, p.writes[0]);
    assert Run(s, p.writes, op.budget) == Run(s1, p.writes[1..], op.budget - 1);
    assert op.budget == 2 ==> Run(s1, p.writes[1..], 1) == Run(Perform(s1, p.writes[1]), p.writes[1..][1..], 0);
    assert q.first !in s1.journal;
  }

  /** Nothing gets it back: no apply writes below the commit marker, and no compaction gets past the lost index. */
  lemma StuckStep(s: Store, op: Op)
    requires Agrees(s) && Stuck(s)
    ensures Stuck(Step(s, op).store) && !(op.Compact? && Step(s, op).reply.Applied?)
  {
    if op.Apply? && ParseBatch(op.argv).Batch? {
      ParsedIsContiguous(op.argv, 0);
      ApplyStep(s, ParseBatch(op.argv).records, op.budget);
    } else if op.Compact? && ParseCompact(op.argv).Some? {
      ParsedCompactIsValid(op.argv);
      CompactCondition(s, ParseCompact(op.argv).value);
      CompactStep(s, ParseCompact(op.argv).value, op.budget);
    }
  }

  /** A COMPACTION CUT SHORT IS THE LAST.  After one that was stopped between its writes, no compaction ever applies again. */
  lemma {:induction false} StuckForGood(s: Store, ops: seq<Op>)
    requires Agrees(s) && Stuck(s)
    ensures Stuck(After(s, ops)) && !CompactsIn(s, ops)
    decreases ops
  {
    if ops != [] {
      StuckStep(s, ops[0]);
      StepSafe(s, ops[0]);
      StuckForGood(Step(s, ops[0]).store, ops[1..]);
    }
  }

  lemma DenseStep(s: Store, op: Op)
    requires Agrees(s) && Dense(s) && !Interrupted(s, op)
    ensures Dense(Step(s, op).store)
  {
    StepSafe(s, op);
    if op.Compact? && ParseCompact(op.argv).Some? {
      ParsedCompactIsValid(op.argv);
      CompactStep(s, ParseCompact(op.argv).value, op.budget);
    }
  }

  /** DENSITY.  Both hashes hold exactly the committed indices above the floor, after any run, if and only if no compaction
      in it that would apply was stopped between its writes. */
  lemma {:induction false} DensityKept(s: Store, ops: seq<Op>)
    requires Agrees(s) && Dense(s)
    ensures Dense(After(s, ops)) <==> !InterruptedIn(s, ops)
    ensures After(s, ops).floor <= After(s, ops).applied
    decreases ops
  {
    RunSafe(s, ops);
    if ops != [] {
      var s' := Step(s, ops[0]).store;
      StepSafe(s, ops[0]);
      if Interrupted(s, ops[0]) {
        CutIsStuck(s, ops[0]);
        StuckForGood(s', ops[1..]);
      } else {
        DenseStep(s, ops[0]);
        DensityKept(s', ops[1..]);
      }
    }
  }

  // ---- reconciliation ------------------------------------------------------------------------

  /** Data prepared above the commit marker by some earlier, aborted batch agrees with the request. */
  ghost predicate PreparedMatches(s: Store, records: seq<Record>) {
    forall k :: 0 <= k < |records| && s.applied < records[k].index ==> !Clashes(s, records[k])
  }

  lemma CommittedNeverClashes(s: Store, r: Record)
    requires Agrees(s) && WellFormed(r) && r.index <= s.applied && Stored(s, r)
    ensures !Clashes(s, r)
  {
    StoredIsCommitted(s, r);
  }

  /** RECONCILIATION.  In every reachable state reconcile says REPLAYED exactly when apply would, and
      apply would say APPLIED exactly when reconcile says PENDING and no prepared data disagrees. */
  lemma ReconcileForecastsApply(s: Store, records: seq<Record>)
    requires Agrees(s) && |records| > 0 && Contiguous(records)
    ensures ReconcileReply(s, records).Replayed? <==> ApplyPlan(s, records).reply.Replayed?
    ensures ApplyPlan(s, records).reply.Applied? <==>
      ReconcileReply(s, records).Pending? && PreparedMatches(s, records)
    ensures ApplyPlan(s, records).reply.Applied? ==>
      ApplyPlan(s, records).reply.index == records[|records| - 1].index
  {
    if ReconcileReply(s, records).Replayed? || ReconcileReply(s, records).Pending? {
      forall k | 0 <= k < |records| && records[k].index <= s.applied ensures !Clashes(s, records[k]) {
        CommittedNeverClashes(s, records[k]);
      }
    }
  }

  /** The same over any run, for request texts and the replies themselves. */
  lemma ReconcileInEveryRun(ops: seq<Op>, argv: seq<string>, budget: nat)
    requires ParseBatch(argv).Batch?
    ensures
      var s, records := After(EMPTY, ops), ParseBatch(argv).records;
      var asked, applied := Step(s, Reconcile(argv)).reply, Step(s, Apply(argv, budget)).reply;
      && |records| > 0 && Contiguous(records)
      && (asked.Replayed? <==> applied.Replayed?)
      && (applied.Applied? ==> asked.Pending? && PreparedMatches(s, records) && applied.index == records[|records| - 1].index)
      && (asked.Pending? && PreparedMatches(s, records) && budget >= |ApplyPlan(s, records).writes| ==> applied.Applied?)
  {
    RunSafe(EMPTY, ops);
    ParsedIsContiguous(argv, 0);
    var s, records := After(EMPTY, ops), ParseBatch(argv).records;
    ReconcileForecastsApply(s, records);
    ApplyStep(s, records, budget);
  }

  // ---- compaction over time ------------------------------------------------------------------

  ghost predicate CompactsIn(s: Store, ops: seq<Op>)
    decreases ops
  {
    ops != [] &&
    ((ops[0].Compact? && Step(s, ops[0]).reply.Applied?) || CompactsIn(Step(s, ops[0]).store, ops[1..]))
  }

  lemma {:induction false} FloorMovesOnlyByCompaction(s: Store, ops: seq<Op>)
    requires Agrees(s)
    ensures
      var t := After(s, ops);
      if CompactsIn(s, ops) then s.floor < t.floor else t.floor == s.floor && t.marker == s.marker
    decreases ops
  {
    if ops != [] {
      var op, x := ops[0], Step(s, ops[0]);
      StepSafe(s, op);
      if op.Compact? && ParseCompact(op.argv).Some? {
        ParsedCompactIsValid(op.argv);
        CompactStep(s, ParseCompact(op.argv).value, op.budget);
      }
      if op.Apply? && ParseBatch(op.argv).Batch? {
        ParsedIsContiguous(op.argv, 0);
        ApplyStep(s, ParseBatch(op.argv).records, op.budget);
      }
      FloorMovesOnlyByCompaction(x.store, ops[1..]);
    }
  }

  /** Once a compaction has applied, reconciling the same request says REPLAYED, and keeps saying so
      exactly until another compaction applies. */
  lemma CompactionIsRemembered(s: Store, argv: seq<string>, budget: nat, ops: seq<Op>)
    requires Agrees(s) && ParseCompact(argv).Some? && Step(s, Compact(argv, budget)).reply.Applied?
    ensures
      var s1 := Step(s, Compact(argv, budget)).store;
      Step(After(s1, ops), CompactReconcile(argv)).reply.Replayed? <==> !CompactsIn(s1, ops)
  {
    ParsedCompactIsValid(argv);
    var q := ParseCompact(argv).value;
    CompactStep(s, q, budget);
    FloorMovesOnlyByCompaction(Step(s, Compact(argv, budget)).store, ops);
  }

  // ---- a documented promise that does not hold -----------------------------------------------

  /** PENDING is documented as leave to retry the request.  It is not enough: an aborted batch may have
      prepared another record at that index, and then apply answers CONFLICT.  `ReconcileForecastsApply`
      gives the exact condition. */
  lemma PendingIsNotEnough()
    ensures
      var s := EMPTY.(journal := map[1 := "x"]);
      var request := [Record(1, "1", "b", "y")];
      var aborted := [Record(1, "1", "a", "x")];
      && Contiguous(request) && Contiguous(aborted)
      && Execute(EMPTY, ApplyPlan(EMPTY, aborted), 1) == Result(s, Failed)
      && ReconcileReply(s, request).Pending? && ApplyPlan(s, request).reply.Conflict?
  {
    var s := EMPTY.(journal := map[1 := "x"]);
    var request := [Record(1, "1", "b", "y")];
    var aborted := [Record(1, "1", "a", "x")];
    var p := ApplyPlan(EMPTY, aborted);
    assert Fresh(EMPTY, aborted) == aborted;
    assert BatchWrites(EMPTY, aborted) == RecordWrites(EMPTY, aborted[0]) + BatchWrites(EMPTY, []);
    assert p.writes[0] == SetPayload(1, "x");
    assert Run(EMPTY, p.writes, 1) == Run(Perform(EMPTY, p.writes[0]), p.writes[1..], 0);
    assert Clashes(s, request[0]);
  }
}
