/** The third loop of the apply script compares and writes record by record in the state it is changing;
    consecutive indices make that the same as deciding first and writing afterwards. */
module JournalLoop {
  import opened Journal
  import opened JournalSafety

  /** How many leading records of a batch are at or below the commit marker. */
  ghost function Split(s: Store, records: seq<Record>): nat
    requires |records| > 0
  {
    if records[0].index > s.applied then 0
    else if s.applied + 1 - records[0].index > |records| then |records|
    else s.applied + 1 - records[0].index
  }

  lemma SplitMeaning(s: Store, records: seq<Record>, k: nat)
    requires k < |records| && Contiguous(records)
    ensures k < Split(s, records) <==> records[k].index <= s.applied
  {
  }

  ghost function Batch(s: Store, records: seq<Record>, k: nat): Plan
    requires k <= |records| && |records| > 0
  {
    var last := records[|records| - 1];
    Plan(BatchWrites(s, records[k..]) + [Commit(last.index, last.term, last.id)], Applied(last.index))
  }

  /** From the first written record on, the loop writes the rest of the batch and commits it. */
  lemma {:induction false} LoopWrites(s: Store, cur: Store, records: seq<Record>, k: nat, budget: nat)
    requires Contiguous(records) && 0 < k <= |records| && records[k - 1].index > s.applied
    ensures WriteLoop(s, cur, records, k, Some(records[k - 1]), budget) == Execute(cur, Batch(s, records, k), budget)
    decreases |records| - k
  {
    var last := records[|records| - 1];
    var commit := Commit(last.index, last.term, last.id);
    if k == |records| {
      assert BatchWrites(s, records[k..]) + [commit] == [commit];
    } else {
      TurnWrites(s, cur, records, k, budget);
      var head := RecordWrites(s, records[k]);
      var o := Run(cur, head, budget);
      if o.done { LoopWrites(s, o.store, records, k + 1, budget - |head|); }
    }
  }

  lemma TurnWrites(s: Store, cur: Store, records: seq<Record>, k: nat, budget: nat)
    requires |records| > 0 && k < |records|
    ensures
      var head := RecordWrites(s, records[k]);
      var o := Run(cur, head, budget);
      && (o.done ==> budget >= |head|)
      && Execute(cur, Batch(s, records, k), budget) ==
         if o.done then Execute(o.store, Batch(s, records, k + 1), budget - |head|) else Result(o.store, Failed)
  {
    var last := records[|records| - 1];
    var commit := Commit(last.index, last.term, last.id);
    var head, tail := RecordWrites(s, records[k]), BatchWrites(s, records[k + 1..]) + [commit];
    assert records[k..][1..] == records[k + 1..];
    assert BatchWrites(s, records[k..]) + [commit] == head + tail;
    RunAppend(cur, head, tail, budget);
  }

  /** Up to the commit marker the loop only compares, in the state it started from. */
  lemma {:induction false} LoopCompares(s: Store, records: seq<Record>, k: nat, budget: nat)
    requires Contiguous(records) && |records| > 0 && k <= Split(s, records)
    requires records[0].index <= s.applied + 1
    ensures WriteLoop(s, s, records, k, None, budget) ==
      if exists i :: k <= i < Split(s, records) && !Stored(s, records[i]) then Result(s, Conflict(s.applied))
      else if Split(s, records) == |records| then Result(s, Replayed(s.applied))
      else Execute(s, Batch(s, records, Split(s, records)), budget)
    decreases |records| - k
  {
    var d := Split(s, records);
    if k < |records| { SplitMeaning(s, records, k); }
    if k < d {
      LoopCompares(s, records, k + 1, budget);
    } else if k < |records| {
      assert records[k].index == s.applied + 1;
      TurnWrites(s, s, records, k, budget);
      var head := RecordWrites(s, records[k]);
      var o := Run(s, head, budget);
      if o.done { LoopWrites(s, o.store, records, k + 1, budget - |head|); }
    }
  }

  /** The loop replies, writes and stops exactly as planned from the state it first read: any CONFLICT
      or GAP is found before the first write. */
  lemma LoopIsPlan(s: Store, records: seq<Record>, budget: nat)
    requires Contiguous(records) && |records| > 0
    ensures WriteLoop(s, s, records, 0, None, budget) == Execute(s, WritePlan(s, records), budget)
  {
    if records[0].index <= s.applied + 1 {
      LoopCompares(s, records, 0, budget);
      forall i | 0 <= i < |records| ensures i < Split(s, records) <==> records[i].index <= s.applied {
        SplitMeaning(s, records, i);
      }
    }
  }
}
