/** From the client's request to the script's arguments: a request that passes the client-side checks is
    printed into arguments that the scripts accept and read back unchanged. */
module JournalRequests {
  import opened Decimal
  import opened Journal

  /** A record of the client request; index and term are 64-bit numbers. */
  datatype RequestRecord = RequestRecord(index: nat, term: nat, id: string, payload: string)

  const MAX_RECORDS := 1024

  predicate FitsU64(r: RequestRecord) {
    r.index <= MAX_U64_VALUE && r.term <= MAX_U64_VALUE
  }

  /** The record checks of the client: `true` is acceptance. */
  method Validate(records: seq<RequestRecord>) returns (ok: bool)
    requires forall i :: 0 <= i < |records| ==> FitsU64(records[i])
    ensures ok <==> Acceptable(records)
  {
    if |records| == 0 || |records| > MAX_RECORDS { return false; }
    for index := 0 to |records|
      invariant forall i :: 0 <= i < index ==> Sound(records[i])
      invariant forall i :: 0 < i < index ==> records[i].index == records[i - 1].index + 1
    {
      var record := records[index];
      if record.index == 0 || record.term == 0 || |record.id| == 0 { return false; }
      if index != 0 && (records[index - 1].index == MAX_U64_VALUE || record.index != records[index - 1].index + 1) {
        return false;
      }
    }
    ok := true;
  }

  predicate Sound(r: RequestRecord) {
    r.index != 0 && r.term != 0 && r.id != ""
  }

  ghost predicate Consecutive(records: seq<RequestRecord>) {
    && (forall i :: 0 <= i < |records| ==> Sound(records[i]))
    && (forall i :: 0 < i < |records| ==> records[i].index == records[i - 1].index + 1)
  }

  ghost predicate Acceptable(records: seq<RequestRecord>) {
    1 <= |records| <= MAX_RECORDS && Consecutive(records)
  }

  /** The four arguments of each record, numbers printed in decimal. */
  function Arguments(records: seq<RequestRecord>): seq<string> {
    if records == [] then []
    else [Numeral(records[0].index), Numeral(records[0].term), records[0].id, records[0].payload] + Arguments(records[1..])
  }

  function Logged(r: RequestRecord): Record {
    Record(r.index, Numeral(r.term), r.id, r.payload)
  }

  lemma {:induction false} ArgumentCount(records: seq<RequestRecord>)
    ensures |Arguments(records)| == 4 * |records|
  {
    if records != [] { ArgumentCount(records[1..]); }
  }

  lemma PrintedNumber(n: nat)
    requires n <= MAX_U64_VALUE
    ensures ValidU64(Numeral(n)) && (Numeral(n) == "0" <==> n == 0)
  {
    ValidU64IsRange(Numeral(n));
    AcceptedText(Numeral(n));
  }

  lemma RefusedIsUnsound(r: RequestRecord)
    requires FitsU64(r)
    ensures Refused(Numeral(r.index), Numeral(r.term), r.id) <==> !Sound(r)
  {
    PrintedNumber(r.index);
    PrintedNumber(r.term);
  }

  ghost predicate ReadsBack(p: Parsed, records: seq<RequestRecord>) {
    p.Batch? && |p.records| == |records| && forall i :: 0 <= i < |records| ==> p.records[i] == Logged(records[i])
  }

  lemma {:induction false} ParsePrinted(records: seq<RequestRecord>, previous: nat)
    requires forall i :: 0 <= i < |records| ==> FitsU64(records[i])
    ensures |Arguments(records)| % 4 == 0
    ensures
      var p := ParseRecords(Arguments(records), previous);
      var fits := Consecutive(records) && (previous != 0 && records != [] ==> records[0].index == previous + 1);
      (p.Batch? <==> fits) && (fits ==> ReadsBack(p, records))
    decreases records
  {
    ArgumentCount(records);
    if records != [] {
      var r, rest := records[0], records[1..];
      ArgumentCount(rest);
      PrintedHead(r, Arguments(rest), previous);
      assert forall i :: 0 <= i < |rest| ==> rest[i] == records[i + 1];
      if Sound(r) && (previous == 0 || r.index == previous + 1) {
        ParsePrinted(rest, r.index);
        ConsecutiveCons(records);
      }
    }
  }

  lemma ParseCons(r: RequestRecord, index: string, term: string, rest: seq<string>, previous: nat)
    requires |rest| % 4 == 0 && (Refused(index, term, r.id) <==> !Sound(r)) && AllDigits(index) && Value(index) == r.index
    ensures
      var p := ParseRecords([index, term, r.id, r.payload] + rest, previous);
      if Sound(r) && (previous == 0 || r.index == previous + 1) then
        p == match ParseRecords(rest, r.index)
          case Bad(reason) => Bad(reason)
          case Batch(rs) => Batch([Record(r.index, term, r.id, r.payload)] + rs)
      else p.Bad?
  {
    var argv := [index, term, r.id, r.payload] + rest;
    assert argv[4..] == rest;
  }

  /** The parser takes the first record, or refuses it, and goes on with the rest. */
  lemma PrintedHead(r: RequestRecord, rest: seq<string>, previous: nat)
    requires FitsU64(r) && |rest| % 4 == 0
    ensures
      var p := ParseRecords([Numeral(r.index), Numeral(r.term), r.id, r.payload] + rest, previous);
      if Sound(r) && (previous == 0 || r.index == previous + 1) then
        p == match ParseRecords(rest, r.index) case Bad(reason) => Bad(reason) case Batch(rs) => Batch([Logged(r)] + rs)
      else p.Bad?
  {
    RefusedIsUnsound(r);
    ParseCons(r, Numeral(r.index), Numeral(r.term), rest, previous);
  }

  lemma ConsecutiveCons(records: seq<RequestRecord>)
    requires records != [] && Sound(records[0])
    ensures Consecutive(records) <==>
      Consecutive(records[1..]) && (|records| > 1 ==> records[1].index == records[0].index + 1)
  {
    var rest := records[1..];
    assert forall i :: 0 <= i < |rest| ==> rest[i] == records[i + 1];
    if Consecutive(rest) && (|records| > 1 ==> records[1].index == records[0].index + 1) {
      forall i | 0 < i < |records| ensures records[i].index == records[i - 1].index + 1 && Sound(records[i]) {
        assert records[i] == rest[i - 1];
        if i > 1 { assert rest[i - 1].index == rest[i - 2].index + 1; }
      }
    }
    if Consecutive(records) {
      forall i | 0 < i < |rest| ensures rest[i].index == rest[i - 1].index + 1 {
        assert records[i + 1].index == records[i].index + 1;
      }
    }
  }

  /** The scripts refuse a printed request exactly when its records are not consecutive and sound, and
      otherwise read back the very records the client meant. */
  lemma RequestRoundTrip(records: seq<RequestRecord>)
    requires records != [] && forall i :: 0 <= i < |records| ==> FitsU64(records[i])
    ensures ParseBatch(Arguments(records)).Batch? <==> Consecutive(records)
    ensures Consecutive(records) ==> ReadsBack(ParseBatch(Arguments(records)), records)
  {
    ArgumentCount(records);
    ParsePrinted(records, 0);
  }
}
