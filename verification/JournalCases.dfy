/** A run that stops a compaction between its writes. */
module JournalCases {
  import opened Decimal
  import opened Journal
  import opened JournalSafety
  import opened JournalRuns

  const BATCH: seq<string> := ["1", "1", "a", "x"]
  const RANGE: seq<string> := ["1", "1", "1", "1", "1"]
  const RECORD := Record(1, "1", "a", "x")

  /** One record is applied. */
  const APPLIED := Store(1, Some(("1", "a")), 0, None, map[1 := "x"], map[1 := "1\0a"], [RECORD], 0, 1)

  lemma One()
    ensures ValidU64("1") && Value("1") == 1 && Numeral(1) == "1"
  {
    assert "1"[..0] == "" && Value("") == 0;
    CanonicalIsNumeral("1");
  }

  lemma BatchParses()
    ensures ParseBatch(BATCH) == Batch([RECORD]) && Contiguous([RECORD])
  {
    One();
    assert BATCH[4..] == [];
    assert [RECORD] + [] == [RECORD];
  }

  lemma RecordIsApplied()
    ensures Step(EMPTY, Apply(BATCH, 4)) == Result(APPLIED, Applied(1))
  {
    BatchParses();
    var rs := [RECORD];
    var p := ApplyPlan(EMPTY, rs);
    assert Fresh(EMPTY, rs) == rs && rs[1..] == [];
    assert BatchWrites(EMPTY, rs) == RecordWrites(EMPTY, RECORD) + BatchWrites(EMPTY, []);
    assert p.writes == RecordWrites(EMPTY, RECORD) + [Commit(1, "1", "a")];
    RunAppend(EMPTY, RecordWrites(EMPTY, RECORD), [Commit(1, "1", "a")], 4);
    RunRecord(EMPTY, EMPTY, RECORD, 4);
    var written := WithRecord(EMPTY, EMPTY, RECORD);
    assert Identity("1", "a") == "1\0a";
    assert written == APPLIED.(applied := 0, head := None);
    assert [Commit(1, "1", "a")][1..] == [];
    assert Run(written, [Commit(1, "1", "a")], 1) == Outcome(Perform(written, Commit(1, "1", "a")), true);
  }

  lemma RangeParses()
    ensures ParseCompact(RANGE) == Some(CompactRequest(1, 1, 1, "1", 1)) && ValidCompact(CompactRequest(1, 1, 1, "1", 1))
  {
    One();
    CompareIsOrder("1", "1");
    ParsedCompactIsValid(RANGE);
  }

  const CUT: Op := Compact(RANGE, 1)

  lemma AppliedIsDense()
    ensures Agrees(APPLIED) && Dense(APPLIED)
  {
    assert WellFormed(RECORD);
    assert Identity("1", "a") == "1\0a";
  }

  lemma AfterApply()
    ensures After(EMPTY, [Apply(BATCH, 4)]) == APPLIED
    ensures After(EMPTY, [Apply(BATCH, 4), CUT]) == Step(APPLIED, CUT).store
  {
    RecordIsApplied();
    assert [Apply(BATCH, 4), CUT][1..] == [CUT] && [CUT][1..] == [] && [Apply(BATCH, 4)][1..] == [];
    assert After(APPLIED, [CUT]) == Step(APPLIED, CUT).store;
  }

  lemma CutInterrupts()
    ensures Interrupted(APPLIED, CUT)
  {
    RangeParses();
    var q := CompactRequest(1, 1, 1, "1", 1);
    assert "1" + "\0" == "1\0" && "1\0" <= "1\0a";
    assert SnapshotMatches(APPLIED, q) && Present(APPLIED, 1);
    CompactCondition(APPLIED, q);
  }

  lemma StuckIsNotDense(s: Store)
    requires Stuck(s)
    ensures !Dense(s)
  {
  }

  /** A compaction of that record would apply.  Stopped after its first write it leaves the store stuck: it was dense, and
      is no longer, and whatever follows no compaction ever applies. */
  lemma CompactionIsCut(ops: seq<Op>)
    ensures
      var s, t := After(EMPTY, [Apply(BATCH, 4)]), After(EMPTY, [Apply(BATCH, 4), CUT]);
      && Dense(s) && Interrupted(s, CUT) && t == Step(s, CUT).store && Stuck(t) && !Dense(t)
      && !CompactsIn(t, ops) && !Dense(After(t, ops))
  {
    AppliedIsDense();
    CutInterrupts();
    AfterApply();
    var t := Step(APPLIED, CUT).store;
    CutIsStuck(APPLIED, CUT);
    StepSafe(APPLIED, CUT);
    StuckForGood(t, ops);
    StuckIsNotDense(t);
    StuckIsNotDense(After(t, ops));
  }
}
