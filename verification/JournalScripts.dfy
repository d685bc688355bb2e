/** The five scripts as they run on the server: loops over text arguments that read and write the four
    keys in place.  Each is proved to follow the machine of `Journal`, including where the server
    stops it after any number of writes. */
module JournalScripts {
  import opened Decimal
  import opened Journal
  import opened JournalSafety
  import opened JournalLoop

  /** The fields of the metadata hash. */
  datatype Metadata = Metadata(
    appliedIndex: Option<string>, term: Option<string>, commandId: Option<string>,
    journalFloor: Option<string>, compactionFirst: Option<string>,
    compactionSnapshot: Option<string>, compactionTerm: Option<string>)

  /** A stream entry with id `ms-sub` and its field/value list. */
  datatype Entry = Entry(ms: nat, sub: nat, fields: seq<string>)

  function EntryOf(r: Record): Entry {
    Entry(r.index, 0, ["index", Numeral(r.index), "term", r.term, "command_id", r.id, "payload", r.payload])
  }

  /** HGET: a missing field reads as nil. */
  function HGet(h: map<string, string>, field: string): Option<string> {
    if field in h then Some(h[field]) else None
  }

  function Or(o: Option<string>, other: string): string {
    match o case None => other case Some(v) => v
  }

  /** XRANGE with equal bounds `ms-0`; stream ids are distinct, so there is at most one entry. */
  function XRange(outbox: seq<Entry>, ms: nat): (found: seq<Entry>)
    ensures |found| <= 1 && (found != [] ==> found[0].ms == ms && found[0].sub == 0)
  {
    if outbox == [] then [] else if outbox[0].ms == ms && outbox[0].sub == 0 then [outbox[0]] else XRange(outbox[1..], ms)
  }

  function EventMatches(e: Entry, index: string, term: string, id: string, payload: string): bool {
    && Numeral(e.ms) + "-" + Numeral(e.sub) == index + "-0"
    && e.fields == ["index", index, "term", term, "command_id", id, "payload", payload]
  }

  // ---- the hashes and the stream as maps over indices ----------------------------------------

  ghost predicate SameHash(h: map<string, string>, m: map<nat, string>) {
    forall n: nat {:trigger HGet(h, Numeral(n))} :: HGet(h, Numeral(n)) == if n in m then Some(m[n]) else None
  }

  lemma SameHashSet(h: map<string, string>, m: map<nat, string>, n: nat, v: string)
    requires SameHash(h, m)
    ensures SameHash(h[Numeral(n) := v], m[n := v])
  {
    forall k: nat ensures HGet(h[Numeral(n) := v], Numeral(k)) == if k in m[n := v] then Some(m[n := v][k]) else None {
      assert Numeral(k) == Numeral(n) ==> Value(Numeral(k)) == Value(Numeral(n));
      assert HGet(h, Numeral(k)) == if k in m then Some(m[k]) else None;
    }
  }

  ghost predicate Texts(fields: seq<string>, first: nat) {
    forall i :: 0 <= i < |fields| ==> fields[i] == Numeral(first + i)
  }

  lemma SameHashDelete(h: map<string, string>, m: map<nat, string>, fields: seq<string>, gone: set<string>, first: nat, last: nat)
    requires SameHash(h, m) && first <= last && |fields| == last - first + 1 && Texts(fields, first)
    requires gone == set f | f in fields
    ensures SameHash(h - gone, Without(m, first, last))
  {
    var m' := Without(m, first, last);
    forall k: nat ensures HGet(h - gone, Numeral(k)) == if k in m' then Some(m'[k]) else None {
      assert HGet(h, Numeral(k)) == if k in m then Some(m[k]) else None;
      if first <= k <= last {
        assert fields[k - first] == Numeral(first + (k - first)) == Numeral(k);
      } else {
        assert forall i :: 0 <= i < |fields| ==> Value(fields[i]) == first + i != Value(Numeral(k));
      }
    }
  }

  /** An entry that is the event of some record with a command id. */
  predicate Proper(e: Entry) {
    && e.sub == 0 && |e.fields| == 8 && e.fields[0] == "index" && e.fields[1] == Numeral(e.ms) && e.fields[2] == "term"
    && e.fields[4] == "command_id" && e.fields[5] != "" && e.fields[6] == "payload"
  }

  /** The entry is the record's event; any other entry is read as a record without a command id, which no request has. */
  predicate Reads(e: Entry, r: Record) {
    e == EntryOf(r) || (r.id == "" && !Proper(e))
  }

  /** What the lookup of an id finds is what the events say, whatever else the stream holds. */
  ghost predicate SameEvent(found: seq<Entry>, events: seq<Record>, trimmed: nat, n: nat) {
    && (found != [] <==> EventIn(events, trimmed, n))
    && (found != [] ==> forall i :: trimmed <= i < |events| && events[i].index == n ==> Reads(found[0], events[i]))
  }

  ghost predicate SameStream(outbox: seq<Entry>, events: seq<Record>, trimmed: nat) {
    trimmed <= |events| && forall n: nat {:trigger XRange(outbox, n)} :: SameEvent(XRange(outbox, n), events, trimmed, n)
  }

  ghost predicate UpTo(outbox: seq<Entry>, lastId: nat) {
    forall i :: 0 <= i < |outbox| ==> outbox[i].ms <= lastId
  }

  lemma {:induction false} XRangeAppend(outbox: seq<Entry>, e: Entry, n: nat)
    requires e.sub == 0
    ensures XRange(outbox + [e], n) == if XRange(outbox, n) != [] then XRange(outbox, n) else if e.ms == n then [e] else []
  {
    if outbox == [] {
      assert outbox + [e] == [e] && [e][1..] == [];
    } else {
      assert (outbox + [e])[1..] == outbox[1..] + [e];
      XRangeAppend(outbox[1..], e, n);
    }
  }

  lemma {:induction false} XRangeBeyond(outbox: seq<Entry>, lastId: nat, n: nat)
    requires UpTo(outbox, lastId) && lastId < n
    ensures XRange(outbox, n) == []
  {
    if outbox != [] {
      assert forall i :: 0 < i < |outbox| ==> outbox[i] == outbox[1..][i - 1];
      XRangeBeyond(outbox[1..], lastId, n);
    }
  }

  lemma SameEventAdd(found: seq<Entry>, found': seq<Entry>, events: seq<Record>, trimmed: nat, r: Record, n: nat)
    requires SameEvent(found, events, trimmed, n) && trimmed <= |events|
    requires found' == if found != [] then found else if r.index == n then [EntryOf(r)] else []
    requires r.index == n ==> found == []
    ensures SameEvent(found', events + [r], trimmed, n)
  {
    var all := events + [r];
    assert all[|events|] == r && forall i :: trimmed <= i < |events| ==> all[i] == events[i];
    if EventIn(events, trimmed, n) {
      var i :| trimmed <= i < |events| && events[i].index == n;
      assert all[i].index == n;
    }
  }

  lemma SameStreamAdd(outbox: seq<Entry>, lastId: nat, events: seq<Record>, trimmed: nat, r: Record)
    requires SameStream(outbox, events, trimmed) && UpTo(outbox, lastId) && lastId < r.index
    ensures SameStream(outbox + [EntryOf(r)], events + [r], trimmed) && UpTo(outbox + [EntryOf(r)], r.index)
  {
    var outbox' := outbox + [EntryOf(r)];
    forall n: nat ensures SameEvent(XRange(outbox', n), events + [r], trimmed, n) {
      XRangeAppend(outbox, EntryOf(r), n);
      XRangeBeyond(outbox, lastId, r.index);
      SameEventAdd(XRange(outbox, n), XRange(outbox', n), events, trimmed, r, n);
    }
  }

  lemma MatchIsEntry(e: Entry, r: Record)
    requires e.ms == r.index && e.sub == 0
    ensures EventMatches(e, Numeral(r.index), r.term, r.id, r.payload) <==> e == EntryOf(r)
  {
    assert Numeral(0) == "0";
    assert Numeral(r.index) + "-" + "0" == Numeral(r.index) + "-0";
  }

  lemma EntryDetermines(e: Record, r: Record)
    requires e.index == r.index && EntryOf(e) == EntryOf(r)
    ensures e == r
  {
    var f, g := EntryOf(e).fields, EntryOf(r).fields;
    assert f[3] == g[3] && f[5] == g[5] && f[7] == g[7];
  }

  /** A number kept as text in the metadata, absent meaning zero. */
  ghost predicate SameNumber(field: Option<string>, n: nat) {
    n <= MAX_U64_VALUE && Or(field, "0") == Numeral(n)
  }

  /** The compaction marker: all three fields, with indices that the scripts could have written. */
  function MarkerOf(d: Metadata): Option<Marker> {
    if d.compactionFirst.Some? && d.compactionSnapshot.Some? && d.compactionTerm.Some? &&
       Canonical(d.compactionFirst.value) && Canonical(d.compactionSnapshot.value)
    then Some(Marker(Value(d.compactionFirst.value), Value(d.compactionSnapshot.value), d.compactionTerm.value)) else None
  }

  /** An unreadable floor stands for any. */
  ghost predicate SameMetadata(d: Metadata, s: Store) {
    && SameNumber(d.appliedIndex, s.applied)
    && (ValidU64(Or(d.journalFloor, "0")) ==> SameNumber(d.journalFloor, s.floor))
    && (s.head.Some? ==> d.term == Some(s.head.value.0) && d.commandId == Some(s.head.value.1))
    && s.marker == MarkerOf(d)
  }

  function Refusal(p: Parsed): string {
    match p case Bad(reason) => reason case Batch(_) => ""
  }

  lemma RefusalStep(argv: seq<string>, offset: nat, before: nat)
    requires |argv| % 4 == 0 && offset % 4 == 0 && offset < |argv|
    ensures offset + 4 <= |argv|
    ensures
      Refusal(ParseRecords(argv[offset..], before)) ==
        if Refused(argv[offset], argv[offset + 1], argv[offset + 2]) then "record"
        else if before != 0 && Value(argv[offset]) != before + 1 then "range"
        else Refusal(ParseRecords(argv[offset + 4..], Value(argv[offset])))
  {
    assert argv[offset..][4..] == argv[offset + 4..];
  }

  /** The first check of the apply and reconcile scripts over the request's records, returning the
      reason for refusal or the empty text. */
  method CheckRecords(argv: seq<string>) returns (problem: string)
    requires |argv| % 4 == 0
    ensures problem == Refusal(ParseRecords(argv, 0))
  {
    var previous: Option<string> := None;
    ghost var before := 0;
    var offset := 0;
    assert argv[0..] == argv;
    while offset < |argv|
      invariant 0 <= offset <= |argv| && offset % 4 == 0
      invariant if previous.Some? then ValidU64(previous.value) && Value(previous.value) == before > 0 else before == 0
      invariant Refusal(ParseRecords(argv, 0)) == Refusal(ParseRecords(argv[offset..], before))
    {
      RefusalStep(argv, offset, before);
      var index, term, id := argv[offset], argv[offset + 1], argv[offset + 2];
      if !ValidU64(index) || index == "0" || !ValidU64(term) || term == "0" || |id| == 0 {
        return "record";
      }
      AcceptedText(index);
      if previous.Some? {
        AcceptedText(previous.value);
        var next := Increment(previous.value);
        if index != next { return "range"; }
      }
      previous, before := Some(index), Value(index);
      offset := offset + 4;
    }
    assert argv[|argv|..] == [];
    problem := "";
  }

  /** The script's test of one record against what is stored at its index. */
  predicate ScriptClash(identity: Option<string>, stored: Option<string>, event: seq<Entry>,
                        index: string, term: string, id: string, payload: string)
  {
    || (identity.Some? && identity.value != term + "\0" + id)
    || (stored.Some? && stored.value != payload)
    || (|event| != 0 && (|event| != 1 || !EventMatches(event[0], index, term, id, payload)))
  }

  /** For a record with a command id, on any stream. */
  lemma ScriptClashIsClash(journal: map<string, string>, identity: map<string, string>, outbox: seq<Entry>, s: Store, r: Record)
    requires SameHash(journal, s.journal) && SameHash(identity, s.identity) && SameStream(outbox, s.events, s.trimmed)
    requires r.id != ""
    ensures
      var index := Numeral(r.index);
      Clashes(s, r) <==>
        ScriptClash(HGet(identity, index), HGet(journal, index), XRange(outbox, r.index), index, r.term, r.id, r.payload)
  {
    var found := XRange(outbox, r.index);
    assert SameEvent(found, s.events, s.trimmed, r.index);
    if found != [] {
      MatchIsEntry(found[0], r);
      EventClash(found[0], s, r);
    }
  }

  lemma EventClash(e: Entry, s: Store, r: Record)
    requires SameEvent([e], s.events, s.trimmed, r.index) && r.id != ""
    ensures e != EntryOf(r) <==> exists i :: s.trimmed <= i < |s.events| && s.events[i].index == r.index && s.events[i] != r
  {
    var i :| s.trimmed <= i < |s.events| && s.events[i].index == r.index;
    assert Reads(e, s.events[i]);
    if e == EntryOf(r) {
      assert Proper(e);
      forall j | s.trimmed <= j < |s.events| && s.events[j].index == r.index ensures s.events[j] == r {
        assert Reads(e, s.events[j]);
        EntryDetermines(s.events[j], r);
      }
    }
  }

  // ---- every key contents is represented -----------------------------------------------------

  /** What Redis keeps of every stream: ids increase, and none is above the last one generated. */
  ghost predicate IsStream(outbox: seq<Entry>, lastId: nat) {
    && UpTo(outbox, lastId)
    && forall i, j :: 0 <= i < j < |outbox| ==>
         outbox[i].ms < outbox[j].ms || (outbox[i].ms == outbox[j].ms && outbox[i].sub < outbox[j].sub)
  }

  function RecordOf(e: Entry): Record {
    if Proper(e) then Record(e.ms, e.fields[3], e.fields[5], e.fields[7]) else Record(e.ms, "", "", "")
  }

  function EventsOf(outbox: seq<Entry>): seq<Record> {
    if outbox == [] then [] else (if outbox[0].sub == 0 then [RecordOf(outbox[0])] else []) + EventsOf(outbox[1..])
  }

  lemma RecordReads(e: Entry)
    ensures Reads(e, RecordOf(e)) && RecordOf(e).index == e.ms
  {
    if Proper(e) { assert EntryOf(RecordOf(e)).fields == e.fields; }
  }

  lemma {:induction false} StreamIsRepresented(outbox: seq<Entry>, lastId: nat, n: nat)
    requires IsStream(outbox, lastId)
    ensures SameEvent(XRange(outbox, n), EventsOf(outbox), 0, n)
  {
    if outbox != [] {
      var e, rest := outbox[0], outbox[1..];
      assert forall i :: 0 <= i < |rest| ==> rest[i] == outbox[i + 1];
      StreamIsRepresented(rest, lastId, n);
      RecordReads(e);
      if e.sub == 0 {
        if e.ms == n { LaterIsOther(rest, lastId, e, n); }
        SameEventCons(XRange(rest, n), EventsOf(rest), e, n);
      } else {
        assert EventsOf(outbox) == EventsOf(rest);
      }
    }
  }

  lemma {:induction false} LaterIsOther(rest: seq<Entry>, lastId: nat, e: Entry, n: nat)
    requires IsStream([e] + rest, lastId) && e.ms == n && e.sub == 0
    ensures XRange(rest, n) == []
    decreases |rest|
  {
    if rest != [] {
      var all, less := [e] + rest, [e] + rest[1..];
      assert all[0] == e && all[1] == rest[0] && forall i :: 0 < i < |less| ==> less[i] == all[i + 1];
      LaterIsOther(rest[1..], lastId, e, n);
    }
  }

  lemma SameEventCons(found: seq<Entry>, events: seq<Record>, e: Entry, n: nat)
    requires SameEvent(found, events, 0, n) && e.sub == 0 && (e.ms == n ==> found == [])
    ensures SameEvent(if e.ms == n then [e] else found, [RecordOf(e)] + events, 0, n)
  {
    RecordReads(e);
    var all := [RecordOf(e)] + events;
    assert all[0] == RecordOf(e) && forall i :: 0 < i < |all| ==> all[i] == events[i - 1];
    if EventIn(events, 0, n) {
      var i :| 0 <= i < |events| && events[i].index == n;
      assert all[i + 1].index == n;
    }
  }

  lemma HashIsRepresented(h: map<string, string>) returns (m: map<nat, string>)
    ensures SameHash(h, m)
  {
    var indices := set f | f in h && AllDigits(f) :: Value(f);
    m := map n | n in indices && Numeral(n) in h :: h[Numeral(n)];
    forall n: nat ensures HGet(h, Numeral(n)) == if n in m then Some(m[n]) else None {
      if Numeral(n) in h { assert Value(Numeral(n)) in indices; }
    }
  }

  lemma Advance(cur: Store, w: Write, rest: seq<Write>, budget: nat)
    ensures Run(cur, [w] + rest, budget) ==
      if budget == 0 || !Allowed(cur, w) then Outcome(cur, false) else Run(Perform(cur, w), rest, budget - 1)
  {
    assert ([w] + rest)[1..] == rest;
  }

  class Keys {
    var metadata: Metadata
    var journal: map<string, string>
    var identity: map<string, string>
    var outbox: seq<Entry>
    var lastId: nat // the first part of the stream's last generated id, kept when entries are trimmed
    var foreignMetadata: bool // the metadata key holds a value of another type
    var foreignOther: bool // another of the keys does
    var budget: nat // writes the server will still perform before it gives up

    constructor ()
      ensures Represents(EMPTY) && Readable()
    {
      metadata := Metadata(None, None, None, None, None, None, None);
      journal, identity, outbox, lastId, foreignMetadata, foreignOther, budget := map[], map[], [], 0, false, false, 0;
    }

    ghost predicate Represents(s: Store)
      reads this
    {
      && SameMetadata(metadata, s)
      && SameHash(journal, s.journal) && SameHash(identity, s.identity)
      && SameStream(outbox, s.events, s.trimmed) && UpTo(outbox, lastId) && lastId == s.last
    }

    /** NO HIDDEN PRECONDITION.  Whatever readable keys hold, also what no script has written, some store represents it. */
    lemma Represented() returns (s: Store)
      requires Readable() && IsStream(outbox, lastId)
      ensures Represents(s)
    {
      var payloads := HashIsRepresented(journal);
      var identities := HashIsRepresented(identity);
      AcceptedText(Or(metadata.appliedIndex, "0"));
      var floor := 0;
      if ValidU64(Or(metadata.journalFloor, "0")) {
        AcceptedText(Or(metadata.journalFloor, "0"));
        floor := Value(Or(metadata.journalFloor, "0"));
      }
      s := Store(Value(Or(metadata.appliedIndex, "0")), None, floor, MarkerOf(metadata),
                 payloads, identities, EventsOf(outbox), 0, lastId);
      forall n: nat ensures SameEvent(XRange(outbox, n), EventsOf(outbox), 0, n) { StreamIsRepresented(outbox, lastId, n); }
    }

    /** All that the keys hold. */
    ghost function Contents(): (Metadata, map<string, string>, map<string, string>, seq<Entry>, nat)
      reads this
    {
      (metadata, journal, identity, outbox, lastId)
    }

    // ---- single writes -----------------------------------------------------------------------

    method SetPayload(index: string, payload: string, ghost n: nat, ghost s: Store) returns (ok: bool)
      requires Represents(s) && index == Numeral(n)
      modifies this`journal, this`budget
      ensures ok <==> old(budget) > 0
      ensures if ok then budget == old(budget) - 1 && Represents(Perform(s, Write.SetPayload(n, payload)))
              else budget == 0 && journal == old(journal)
    {
      if budget == 0 { return false; }
      SameHashSet(journal, s.journal, n, payload);
      journal := journal[index := payload];
      budget := budget - 1;
      ok := true;
    }

    method SetIdentity(index: string, text: string, ghost n: nat, ghost s: Store) returns (ok: bool)
      requires Represents(s) && index == Numeral(n)
      modifies this`identity, this`budget
      ensures ok <==> old(budget) > 0
      ensures if ok then budget == old(budget) - 1 && Represents(Perform(s, Write.SetIdentity(n, text)))
              else budget == 0 && identity == old(identity)
    {
      if budget == 0 { return false; }
      SameHashSet(identity, s.identity, n, text);
      identity := identity[index := text];
      budget := budget - 1;
      ok := true;
    }

    /** XADD with an explicit id: refused unless the id is above every id the stream has held. */
    method AddEvent(r: Record, ghost s: Store) returns (ok: bool)
      requires Represents(s)
      modifies this`outbox, this`lastId, this`budget
      ensures ok <==> old(budget) > 0 && Allowed(s, Write.AddEvent(r))
      ensures if ok then budget == old(budget) - 1 && Represents(Perform(s, Write.AddEvent(r)))
              else budget == old(budget) && outbox == old(outbox) && lastId == old(lastId)
    {
      if budget == 0 || r.index <= lastId { return false; }
      SameStreamAdd(outbox, lastId, s.events, s.trimmed, r);
      outbox := outbox + [EntryOf(r)];
      lastId := r.index;
      budget := budget - 1;
      ok := true;
    }
  
    method Commit(index: string, term: string, id: string, ghost n: nat, ghost s: Store) returns (ok: bool)
      requires Represents(s) && index == Numeral(n) && n <= MAX_U64_VALUE
      modifies this`metadata, this`budget
      ensures ok <==> old(budget) > 0
      ensures if ok then budget == old(budget) - 1 && Represents(Perform(s, Write.Commit(n, term, id)))
              else budget == 0 && metadata == old(metadata)
    {
      if budget == 0 { return false; }
      metadata := metadata.(appliedIndex := Some(index), term := Some(term), commandId := Some(id));
      budget := budget - 1;
      ok := true;
    }

    // ---- the apply script --------------------------------------------------------------------

    /** The test of one record, and whether the outbox already holds its event. */
    method CheckRecord(index: string, term: string, id: string, payload: string, ghost r: Record, ghost s: Store)
      returns (clash: bool, exists_: bool)
      requires Represents(s) && id != ""
      requires index == Numeral(r.index) && term == r.term && id == r.id && payload == r.payload
      ensures clash <==> Clashes(s, r)
      ensures exists_ <==> HasEvent(s, r.index)
    {
      var event := XRange(outbox, Value(index));
      ScriptClashIsClash(journal, identity, outbox, s, r);
      assert SameEvent(event, s.events, s.trimmed, r.index);
      clash := ScriptClash(HGet(identity, index), HGet(journal, index), event, index, term, id, payload);
      exists_ := |event| == 1;
    }

    /** The second loop: nothing stored at any of the indices may disagree with the request.  `clash`
        and `here` spell out, record by record, what it is to find. */
    method CheckStored(argv: seq<string>, ghost records: seq<Record>, ghost s: Store,
                       ghost clash: seq<bool>, ghost here: seq<bool>)
      returns (conflict: bool, prepared: map<string, bool>)
      requires Represents(s) && |argv| == 4 * |records| && |clash| == |here| == |records|
      requires Contiguous(records) && forall k :: 0 <= k < |records| ==> Spells(argv, k, records[k])
      requires forall k {:trigger Clashes(s, records[k])} :: 0 <= k < |records| ==> clash[k] == Clashes(s, records[k])
      requires forall k {:trigger HasEvent(s, records[k].index)} :: 0 <= k < |records| ==> here[k] == HasEvent(s, records[k].index)
      ensures conflict <==> exists k :: 0 <= k < |clash| && clash[k]
      ensures !conflict ==> forall k :: 0 <= k < |here| ==> Knows(prepared, IndexText(argv, k), here[k])
    {
      prepared := map[];
      var k := 0;
      while 4 * k < |argv|
        invariant 0 <= k <= |records|
        invariant forall i :: 0 <= i < k ==> !clash[i]
        invariant forall i :: 0 <= i < k ==> Knows(prepared, IndexText(argv, i), here[i])
      {
        assert Spells(argv, k, records[k]);
        DistinctTexts(argv, records, k);
        var bad, found := CheckRecord(argv[4 * k], argv[4 * k + 1], argv[4 * k + 2], argv[4 * k + 3], records[k], s);
        if bad { return true, prepared; }
        prepared := prepared[IndexText(argv, k) := found];
        k := k + 1;
      }
      conflict := false;
    }

    /** The writes of one record. */
    method WriteRecord(index: string, term: string, id: string, payload: string, prepared: map<string, bool>,
                       ghost r: Record, ghost s: Store, ghost cur: Store)
      returns (ok: bool)
      requires Represents(cur) && Knows(prepared, index, HasEvent(s, r.index))
      requires index == Numeral(r.index) && term == r.term && id == r.id && payload == r.payload
      modifies this`journal, this`identity, this`outbox, this`lastId, this`budget
      ensures
        var o := Run(cur, RecordWrites(s, r), old(budget));
        && Represents(o.store) && ok == o.done
        && (ok ==> budget == old(budget) - |RecordWrites(s, r)|)
    {
      RunRecord(s, cur, r, budget);
      ok := SetPayload(index, payload, r.index, cur);
      if !ok { return; }
      ok := SetIdentity(index, term + "\0" + id, r.index, WithPayload(cur, r));
      if !ok { return; }
      if !prepared[index] {
        ok := AddEvent(Record(Value(index), term, id, payload), WithHashes(cur, r));
      }
    }
  
    /** One turn of the third loop: a record at or below the commit marker is compared, any other
        written.  `verdict` is the script's reply if it ends here. */
    method Consider(index: string, term: string, id: string, payload: string, applied: string, cursor: string,
                prepared: map<string, bool>, ghost r: Record, ghost s: Store, ghost cur: Store, ghost at: nat)
      returns (verdict: Option<Reply>, wrote: bool, ghost next: Store)
      requires Represents(cur) && Knows(prepared, index, HasEvent(s, r.index))
      requires index == Numeral(r.index) && term == r.term && id == r.id && payload == r.payload
      requires applied == Numeral(s.applied) && cursor == Numeral(at)
      modifies this`journal, this`identity, this`outbox, this`lastId, this`budget
      ensures Represents(next) && wrote == (r.index > s.applied && verdict.None?)
      ensures
        var o := Run(cur, RecordWrites(s, r), old(budget));
        if r.index <= s.applied then
          next == cur && budget == old(budget) && verdict == if Stored(cur, r) then None else Some(Conflict(s.applied))
        else if r.index != at + 1 then next == cur && verdict == Some(Gap(s.applied))
        else
          && next == o.store && verdict == (if o.done then None else Some(Failed))
          && (o.done ==> budget == old(budget) - |RecordWrites(s, r)|)
      ensures !wrote && verdict != Some(Failed) ==> Contents() == old(Contents())
    {
      CompareNumerals(r.index, s.applied);
      next, wrote := cur, false;
      if Compare(index, applied) <= 0 {
        var same := Compares(index, term, id, payload, r, cur);
        return if same then None else Some(Conflict(Value(applied))), false, cur;
      }
      var expected := Increment(cursor);
      if index != expected { return Some(Gap(Value(applied))), false, cur; }
      ghost var o := Run(cur, RecordWrites(s, r), budget);
      wrote := WriteRecord(index, term, id, payload, prepared, r, s, cur);
      verdict, next := if wrote then None else Some(Failed), o.store;
    }

    /** The same turn, as a step of `WriteLoop`. */
    method Turn(argv: seq<string>, k: nat, applied: string, cursor: string, prepared: map<string, bool>,
                ghost records: seq<Record>, ghost s: Store, ghost cur: Store, ghost written: Option<Record>)
      returns (verdict: Option<Reply>, wrote: bool, ghost next: Store)
      requires Represents(cur) && k < |records| && |argv| == 4 * |records| && Spells(argv, k, records[k])
      requires Knows(prepared, IndexText(argv, k), HasEvent(s, records[k].index))
      requires applied == Numeral(s.applied) && cursor == Numeral(Cursor(s, written))
      modifies this`journal, this`identity, this`outbox, this`lastId, this`budget
      ensures Represents(next)
      ensures WriteLoop(s, cur, records, k, written, old(budget)) ==
        match verdict
        case Some(reply) => Result(next, reply)
        case None => WriteLoop(s, next, records, k + 1, if wrote then Some(records[k]) else written, budget)
      ensures !wrote && verdict != Some(Failed) ==> Contents() == old(Contents())
      ensures records[k].index == Cursor(s, written) + 1 > s.applied ==> wrote || verdict == Some(Failed)
      ensures wrote ==> verdict.None? && records[k].index > s.applied
    {
      LoopStep(s, cur, records, k, written, budget);
      verdict, wrote, next := Consider(argv[4 * k], argv[4 * k + 1], argv[4 * k + 2], argv[4 * k + 3], applied, cursor,
                                       prepared, records[k], s, cur, Cursor(s, written));
    }

    /** The third loop and the commit marker. */
    method WriteRecords(argv: seq<string>, applied: string, prepared: map<string, bool>,
                        ghost records: seq<Record>, ghost s: Store, ghost here: seq<bool>)
      returns (reply: Reply, ghost end: Store)
      requires Represents(s) && |argv| == 4 * |records| && |here| == |records| && applied == Numeral(s.applied) && Contiguous(records)
      requires forall k :: 0 <= k < |records| ==> Spells(argv, k, records[k])
      requires forall k {:trigger HasEvent(s, records[k].index)} :: 0 <= k < |records| ==> here[k] == HasEvent(s, records[k].index)
      requires forall k :: 0 <= k < |here| ==> Knows(prepared, IndexText(argv, k), here[k])
      modifies this`metadata, this`journal, this`identity, this`outbox, this`lastId, this`budget
      ensures Represents(end) && Result(end, reply) == WriteLoop(s, s, records, 0, None, old(budget))
      ensures !reply.Applied? && !reply.Failed? ==> Contents() == old(Contents())
    {
      var cursor := applied;
      var appliedAny := false;
      var finalTerm, finalId := "", "";
      ghost var cur: Store, written: Option<Record> := s, None;
      ghost var goal := WriteLoop(s, s, records, 0, None, budget);
      var k := 0;
      while 4 * k < |argv|
        invariant 0 <= k <= |records| && Represents(cur) && cursor == Numeral(Cursor(s, written))
        invariant appliedAny == written.Some?
        invariant appliedAny ==> k > 0 && written.value == records[k - 1] && written.value.index > s.applied
        invariant appliedAny ==> finalTerm == written.value.term && finalId == written.value.id
        invariant !appliedAny ==> Contents() == old(Contents())
        invariant goal == WriteLoop(s, cur, records, k, written, budget)
      {
        assert Spells(argv, k, records[k]) && here[k] == HasEvent(s, records[k].index);
        ghost var chained := appliedAny;
        assert chained ==> records[k].index == Cursor(s, written) + 1 > s.applied by { Following(records, k); }
        var verdict, wrote;
        verdict, wrote, cur := Turn(argv, k, applied, cursor, prepared, records, s, cur, written);
        if verdict.Some? { return verdict.value, cur; }
        if wrote {
          cursor, finalTerm, finalId, appliedAny := argv[4 * k], argv[4 * k + 1], argv[4 * k + 2], true;
          written := Some(records[k]);
        }
        k := k + 1;
      }
      if !appliedAny { return Replayed(Value(applied)), cur; }
      Following(records, k - 1);
      reply, end := FinishBatch(cursor, finalTerm, finalId, written.value, cur);
    }

    /** The commit marker of a batch whose records are all written. */
    method FinishBatch(cursor: string, term: string, id: string, ghost last: Record, ghost cur: Store)
      returns (reply: Reply, ghost end: Store)
      requires Represents(cur) && cursor == Numeral(last.index) && term == last.term && id == last.id && last.index <= MAX_U64_VALUE
      modifies this`metadata, this`budget
      ensures Represents(end)
      ensures Result(end, reply) == Execute(cur, Plan([Write.Commit(last.index, last.term, last.id)], Applied(last.index)), old(budget))
      ensures reply.Applied? || reply.Failed?
    {
      ghost var commit := Write.Commit(last.index, term, id);
      Advance(cur, commit, [], budget);
      assert [commit] + [] == [commit];
      var ok := Commit(cursor, term, id, last.index, cur);
      reply := if ok then Applied(Value(cursor)) else Failed;
      end := if ok then Perform(cur, commit) else cur;
    }

    method Compares(index: string, term: string, id: string, payload: string, ghost r: Record, ghost s: Store) returns (same: bool)
      requires Represents(s)
      requires index == Numeral(r.index) && term == r.term && id == r.id && payload == r.payload
      ensures same <==> Stored(s, r)
    {
      same := HGet(identity, index) == Some(term + "\0" + id) && HGet(journal, index) == Some(payload);
    }

    /** The keys hold values of the right types and a readable commit marker. */
    predicate Readable()
      reads this
    {
      !foreignMetadata && !foreignOther && ValidU64(Or(metadata.appliedIndex, "0"))
    }

    /** The apply script after its argument checks. */
    method ApplyBatch(argv: seq<string>, applied: string, ghost records: seq<Record>, ghost s: Store)
      returns (reply: Reply, ghost end: Store)
      requires Represents(s) && applied == Numeral(s.applied)
      requires |records| > 0 && Contiguous(records) && |argv| == 4 * |records|
      requires forall k :: 0 <= k < |records| ==> Spells(argv, k, records[k])
      modifies this`metadata, this`journal, this`identity, this`outbox, this`lastId, this`budget
      ensures Represents(end) && Result(end, reply) == Execute(s, ApplyPlan(s, records), old(budget))
      ensures !reply.Applied? && !reply.Failed? ==> Contents() == old(Contents())
    {
      ghost var clash := seq(|records|, k requires 0 <= k < |records| => Clashes(s, records[k]));
      ghost var here := seq(|records|, k requires 0 <= k < |records| => HasEvent(s, records[k].index));
      var conflict, prepared := CheckStored(argv, records, s, clash, here);
      assert conflict <==> exists k :: 0 <= k < |records| && Clashes(s, records[k]) by {
        assert forall k :: 0 <= k < |records| ==> clash[k] == Clashes(s, records[k]);
      }
      if conflict { return Conflict(Value(applied)), s; }
      LoopIsPlan(s, records, budget);
      reply, end := WriteRecords(argv, applied, prepared, records, s, here);
    }

    /** The apply script. */
    method Apply(argv: seq<string>, ghost s: Store) returns (reply: Reply, ghost end: Store)
      requires Readable() ==> Represents(s)
      modifies this`metadata, this`journal, this`identity, this`outbox, this`lastId, this`budget
      ensures !old(Readable()) ==> unchanged(this) && reply.Invalid?
      ensures old(Readable()) ==> Represents(end) && Result(end, reply) == Step(s, Op.Apply(argv, old(budget)))
      ensures !reply.Applied? && !reply.Failed? ==> Contents() == old(Contents())
    {
      var refusal := Examine(argv);
      if refusal.Some? { return Invalid(refusal.value), s; }
      ParsedIsContiguous(argv, 0);
      reply, end := ApplyBatch(argv, Or(metadata.appliedIndex, "0"), ParseBatch(argv).records, s);
    }

    /** The checks that the apply and reconcile scripts begin with. */
    method Examine(argv: seq<string>) returns (refusal: Option<string>)
      ensures Readable() ==> refusal == match ParseBatch(argv) case Bad(reason) => Some(reason) case Batch(_) => None
      ensures !Readable() ==> refusal.Some?
    {
      if |argv| == 0 || |argv| % 4 != 0 { return Some("arguments"); }
      if foreignMetadata || foreignOther { return Some("key_type"); }
      if !ValidU64(Or(metadata.appliedIndex, "0")) { return Some("applied_index"); }
      RefusalIsNamed(argv, 0);
      var problem := CheckRecords(argv);
      refusal := if problem == "" then None else Some(problem);
    }

    // ---- the reconcile script ----------------------------------------------------------------

    method CompareBatch(argv: seq<string>, applied: string, ghost records: seq<Record>, ghost s: Store, ghost stored: seq<bool>)
      returns (reply: Reply)
      requires Represents(s) && applied == Numeral(s.applied)
      requires |records| > 0 && Contiguous(records) && |argv| == 4 * |records| && |stored| == |records|
      requires forall k :: 0 <= k < |records| ==> Spells(argv, k, records[k])
      requires forall k {:trigger Stored(s, records[k])} :: 0 <= k < |records| ==> stored[k] == Stored(s, records[k])
      ensures reply == Verdict(s.applied, records, stored)
    {
      var k := 0;
      while 4 * k < |argv|
        invariant 0 <= k <= |records|
        invariant forall i :: 0 <= i < k ==> records[i].index <= s.applied && stored[i]
      {
        assert Spells(argv, k, records[k]);
        var index := argv[4 * k];
        CompareNumerals(records[k].index, s.applied);
        if Compare(index, applied) <= 0 {
          var same := Compares(index, argv[4 * k + 1], argv[4 * k + 2], argv[4 * k + 3], records[k], s);
          if !same { return Conflict(Value(applied)); }
        } else {
          VerdictAt(s.applied, records, stored, k);
          var next := Increment(applied);
          return if index != next then Gap(Value(applied)) else Pending(Value(applied));
        }
        k := k + 1;
      }
      reply := Replayed(Value(applied));
    }

    /** The reconcile script: it only reads. */
    method Reconcile(argv: seq<string>, ghost s: Store) returns (reply: Reply)
      requires Readable() ==> Represents(s)
      ensures !Readable() ==> reply.Invalid?
      ensures Readable() ==> Result(s, reply) == Step(s, Op.Reconcile(argv))
    {
      var refusal := Examine(argv);
      if refusal.Some? { return Invalid(refusal.value); }
      ParsedIsContiguous(argv, 0);
      ghost var records := ParseBatch(argv).records;
      ghost var stored := seq(|records|, k requires 0 <= k < |records| => Stored(s, records[k]));
      reply := CompareBatch(argv, Or(metadata.appliedIndex, "0"), records, s, stored);
      VerdictIsReply(s, records, stored);
    }

    // ---- the compaction scripts --------------------------------------------------------------

    predicate ReadableFloor()
      reads this
    {
      Readable() && ValidU64(Or(metadata.journalFloor, "0"))
    }

    /** The argument checks of the compaction scripts. */
    method ExamineCompact(argv: seq<string>) returns (ok: bool)
      ensures ok <==> ParseCompact(argv).Some? && ReadableFloor()
    {
      if |argv| != 5 { return false; }
      var first, last, snapshot, term, limit := argv[0], argv[1], argv[2], argv[3], argv[4];
      if !ValidU64(first) || first == "0" || !ValidU64(last) || !ValidU64(snapshot) || snapshot == "0" ||
         !ValidU64(term) || term == "0" || !ValidU64(limit) || limit == "0" { return false; }
      if Compare(last, first) < 0 || Compare(snapshot, last) < 0 { return false; }
      if foreignMetadata || foreignOther { return false; }
      ok := ValidU64(Or(metadata.appliedIndex, "0")) && ValidU64(Or(metadata.journalFloor, "0"));
    }

    /** The scan of the range to compact, collecting its field names. */
    method ScanRange(first: string, last: string, limit: string, ghost q: CompactRequest, ghost s: Store)
      returns (result: ScanResult, fields: seq<string>)
      requires Represents(s) && ValidCompact(q)
      requires first == Numeral(q.first) && last == Numeral(q.last) && AllDigits(limit) && ToNumber(Value(limit)) == q.limit
      ensures result == Scan(s, q.first, q.last, 0, q.limit)
      ensures result.Complete? ==> |fields| == q.last - q.first + 1 && Texts(fields, q.first)
    {
      fields := [];
      var cursor := first;
      ghost var n := q.first;
      while true
        invariant q.first <= n <= q.last && cursor == Numeral(n) && |fields| == n - q.first && Texts(fields, q.first)
        invariant Scan(s, q.first, q.last, 0, q.limit) == Scan(s, n, q.last, |fields|, q.limit)
        decreases q.last - n
      {
        if HGet(journal, cursor).None? || HGet(identity, cursor).None? { return Missing, fields; }
        fields := fields + [cursor];
        SameNumeral(n, q.last);
        if cursor == last { return Complete, fields; }
        if |fields| >= ToNumber(Value(limit)) { return TooMany, fields; }
        cursor := Increment(cursor);
        n := n + 1;
        NumeralIsValid(n);
        if !ValidU64(cursor) { assert false; return TooMany, fields; }
      }
    }

    method SnapshotKnown(snapshot: string, term: string, ghost q: CompactRequest, ghost s: Store) returns (known: bool)
      requires Represents(s) && snapshot == Numeral(q.snapshot) && term == q.term
      ensures known <==> SnapshotMatches(s, q)
    {
      var text := HGet(identity, snapshot);
      var prefix := term + "\0";
      known := text.Some? && |text.value| > |prefix| && text.value[..|prefix|] == prefix;
    }

    method DropPayloads(fields: seq<string>, ghost q: CompactRequest, ghost s: Store) returns (ok: bool)
      requires Represents(s) && q.first <= q.last && |fields| == q.last - q.first + 1 && Texts(fields, q.first)
      modifies this`journal, this`budget
      ensures ok <==> old(budget) > 0
      ensures if ok then budget == old(budget) - 1 && Represents(Perform(s, Write.DropPayloads(q.first, q.last)))
              else budget == 0 && journal == old(journal)
    {
      if budget == 0 { return false; }
      var gone := set f | f in fields;
      SameHashDelete(journal, s.journal, fields, gone, q.first, q.last);
      journal := journal - gone;
      budget := budget - 1;
      ok := true;
    }

    method DropIdentities(fields: seq<string>, ghost q: CompactRequest, ghost s: Store) returns (ok: bool)
      requires Represents(s) && q.first <= q.last && |fields| == q.last - q.first + 1 && Texts(fields, q.first)
      modifies this`identity, this`budget
      ensures ok <==> old(budget) > 0
      ensures if ok then budget == old(budget) - 1 && Represents(Perform(s, Write.DropIdentities(q.first, q.last)))
              else budget == 0 && identity == old(identity)
    {
      if budget == 0 { return false; }
      var gone := set f | f in fields;
      SameHashDelete(identity, s.identity, fields, gone, q.first, q.last);
      identity := identity - gone;
      budget := budget - 1;
      ok := true;
    }

    method SetFloor(first: string, last: string, snapshot: string, term: string, ghost q: CompactRequest, ghost s: Store)
      returns (ok: bool)
      requires Represents(s) && ValidCompact(q)
      requires first == Numeral(q.first) && last == Numeral(q.last) && snapshot == Numeral(q.snapshot) && term == q.term
      modifies this`metadata, this`budget
      ensures ok <==> old(budget) > 0
      ensures if ok then budget == old(budget) - 1 && Represents(Perform(s, Write.SetFloor(q.last, Marker(q.first, q.snapshot, q.term))))
              else budget == 0 && metadata == old(metadata)
    {
      if budget == 0 { return false; }
      metadata := metadata.(journalFloor := Some(last), compactionFirst := Some(first),
                            compactionSnapshot := Some(snapshot), compactionTerm := Some(term));
      MarkerMatches(metadata, q);
      budget := budget - 1;
      ok := true;
    }

    /** The three writes of a compaction. */
    method DropRange(fields: seq<string>, first: string, last: string, snapshot: string, term: string,
                     ghost q: CompactRequest, ghost s: Store)
      returns (ok: bool, ghost end: Store)
      requires Represents(s) && ValidCompact(q)
      requires first == Numeral(q.first) && last == Numeral(q.last) && snapshot == Numeral(q.snapshot) && term == q.term
      requires |fields| == q.last - q.first + 1 && Texts(fields, q.first)
      modifies this`metadata, this`journal, this`identity, this`budget
      ensures Represents(end) && Outcome(end, ok) == Run(s, CompactWrites(q), old(budget))
    {
      CompactRun(s, q, budget);
      end := s;
      ok := DropPayloads(fields, q, end);
      if !ok { return; }
      end := Perform(end, Write.DropPayloads(q.first, q.last));
      ok := DropIdentities(fields, q, end);
      if !ok { return; }
      end := Perform(end, Write.DropIdentities(q.first, q.last));
      ok := SetFloor(first, last, snapshot, term, q, end);
      if ok { end := Perform(end, Write.SetFloor(q.last, Marker(q.first, q.snapshot, q.term))); }
    }

    /** The compact script. */
    method Compact(argv: seq<string>, ghost s: Store) returns (reply: Reply, ghost end: Store)
      requires ReadableFloor() ==> Represents(s)
      modifies this`metadata, this`journal, this`identity, this`budget
      ensures !old(ReadableFloor()) ==> unchanged(this) && reply == Conflict(0)
      ensures old(ReadableFloor()) ==> Represents(end) && Result(end, reply) == Step(s, Op.Compact(argv, old(budget)))
      ensures !reply.Applied? && !reply.Failed? ==> Contents() == old(Contents())
    {
      end := s;
      var ok := ExamineCompact(argv);
      if !ok { return Conflict(0), s; }
      ghost var q := CompactFields(argv);
      var floor := Or(metadata.journalFloor, "0");
      var inRange := StartsAtFloor(argv, floor, q, s);
      if !inRange { return Gap(Value(floor)), s; }
      var known := SnapshotKnown(argv[2], argv[3], q, s);
      if !known { return Conflict(Value(floor)), s; }
      var result, fields := ScanRange(argv[0], argv[1], argv[4], q, s);
      if result.Missing? { return Gap(Value(floor)), s; }
      if result.TooMany? { return Conflict(Value(floor)), s; }
      ok, end := DropRange(fields, argv[0], argv[1], argv[2], argv[3], q, s);
      reply := if ok then Applied(Value(argv[1])) else Failed;
    }

    method StartsAtFloor(argv: seq<string>, floor: string, ghost q: CompactRequest, ghost s: Store) returns (yes: bool)
      requires Represents(s) && ReadableFloor() && |argv| == 5 && floor == Numeral(s.floor)
      requires argv[0] == Numeral(q.first) && argv[2] == Numeral(q.snapshot)
      ensures yes <==> !(s.applied < q.snapshot || s.floor == MAX_U64_VALUE || q.first != s.floor + 1)
    {
      CompareNumerals(q.snapshot, s.applied);
      if Compare(argv[2], Or(metadata.appliedIndex, "0")) > 0 { return false; }
      MaxU64Text();
      CanonicalIsNumeral(MAX_U64);
      SameNumeral(s.floor, MAX_U64_VALUE);
      if floor == MAX_U64 { return false; }
      var next := Increment(floor);
      SameNumeral(q.first, s.floor + 1);
      yes := argv[0] == next;
    }

    /** The compact-reconcile script: it only reads. */
    method CompactReconcile(argv: seq<string>, ghost s: Store) returns (reply: Reply)
      requires ReadableFloor() ==> Represents(s)
      ensures !ReadableFloor() ==> reply == Conflict(0)
      ensures ReadableFloor() ==> Result(s, reply) == Step(s, Op.CompactReconcile(argv))
    {
      var ok := ExamineCompact(argv);
      if !ok { return Conflict(0); }
      ghost var q := CompactFields(argv);
      var floor := Or(metadata.journalFloor, "0");
      SameNumeral(s.floor, q.last);
      if floor == argv[1] {
        MarkerMatches(metadata, q);
        return if metadata.compactionFirst == Some(argv[0]) && metadata.compactionSnapshot == Some(argv[2]) &&
                  metadata.compactionTerm == Some(argv[3]) then Replayed(Value(argv[1])) else Conflict(Value(floor));
      }
      var inRange := StartsAtFloor(argv, floor, q, s);
      if !inRange { return Gap(Value(floor)); }
      var known := SnapshotKnown(argv[2], argv[3], q, s);
      if !known { return Conflict(Value(floor)); }
      var result, fields := ScanRange(argv[0], argv[1], argv[4], q, s);
      reply := match result
        case Missing => Gap(Value(floor))
        case TooMany => Conflict(Value(floor))
        case Complete => Pending(Value(floor));
    }

    /** The compact-state script. */
    method ReadFloor(ghost s: Store) returns (reply: Reply)
      requires ReadableFloor() ==> Represents(s)
      ensures foreignMetadata || !ValidU64(Or(metadata.journalFloor, "0")) ==> reply == Conflict(0)
      ensures !foreignMetadata && ValidU64(Or(metadata.journalFloor, "0")) ==>
                reply.Applied? && Numeral(reply.index) == Or(metadata.journalFloor, "0")
      ensures ReadableFloor() ==> Result(s, reply) == Step(s, Op.ReadFloor)
    {
      if foreignMetadata { return Conflict(0); }
      var floor := Or(metadata.journalFloor, "0");
      if !ValidU64(floor) { return Conflict(0); }
      AcceptedText(floor);
      reply := Applied(Value(floor));
    }
  }

  lemma MarkerMatches(d: Metadata, q: CompactRequest)
    ensures MarkerOf(d) == Some(Marker(q.first, q.snapshot, q.term)) <==>
      d.compactionFirst == Some(Numeral(q.first)) && d.compactionSnapshot == Some(Numeral(q.snapshot)) && d.compactionTerm == Some(q.term)
  {
    if MarkerOf(d).Some? {
      CanonicalIsNumeral(d.compactionFirst.value);
      CanonicalIsNumeral(d.compactionSnapshot.value);
    }
  }

  lemma CompactFields(argv: seq<string>) returns (q: CompactRequest)
    requires ParseCompact(argv).Some?
    ensures ParseCompact(argv) == Some(q) && ValidCompact(q)
    ensures argv[0] == Numeral(q.first) && argv[1] == Numeral(q.last) && argv[2] == Numeral(q.snapshot)
    ensures argv[3] == q.term && AllDigits(argv[4]) && ToNumber(Value(argv[4])) == q.limit
  {
    q := ParseCompact(argv).value;
    ParsedCompactIsValid(argv);
    AcceptedText(argv[0]);
    AcceptedText(argv[1]);
    AcceptedText(argv[2]);
    AcceptedText(argv[4]);
  }

  function CompactWrites(q: CompactRequest): seq<Write> {
    [Write.DropPayloads(q.first, q.last), Write.DropIdentities(q.first, q.last), Write.SetFloor(q.last, Marker(q.first, q.snapshot, q.term))]
  }

  lemma CompactRun(s: Store, q: CompactRequest, budget: nat)
    ensures
      var s1 := Perform(s, DropPayloads(q.first, q.last));
      var s2 := Perform(s1, DropIdentities(q.first, q.last));
      var s3 := Perform(s2, SetFloor(q.last, Marker(q.first, q.snapshot, q.term)));
      Run(s, CompactWrites(q), budget) ==
        if budget == 0 then Outcome(s, false) else if budget == 1 then Outcome(s1, false)
        else if budget == 2 then Outcome(s2, false) else Outcome(s3, true)
  {
    var ws := CompactWrites(q);
    var s1 := Perform(s, ws[0]);
    var s2 := Perform(s1, ws[1]);
    assert budget > 0 ==> Run(s, ws, budget) == Run(s1, ws[1..], budget - 1);
    assert ws[1..][1..] == [ws[2]] && [ws[2]][1..] == [];
    assert budget > 1 ==> Run(s1, ws[1..], budget - 1) == Run(s2, [ws[2]], budget - 2);
    assert budget > 2 ==> Run(s2, [ws[2]], budget - 2) == Outcome(Perform(s2, ws[2]), true);
  }

  lemma SameNumeral(a: nat, b: nat)
    ensures Numeral(a) == Numeral(b) <==> a == b
  {
    assert Numeral(a) == Numeral(b) ==> Value(Numeral(a)) == Value(Numeral(b));
  }

  lemma NumeralIsValid(n: nat)
    requires n <= MAX_U64_VALUE
    ensures ValidU64(Numeral(n))
  {
    ValidU64IsRange(Numeral(n));
  }

  /** `ReconcileReply` with the comparisons spelled out record by record. */
  ghost function Verdict(applied: nat, records: seq<Record>, stored: seq<bool>): Reply
    requires |records| == |stored| && |records| > 0
  {
    if records[0].index > applied + 1 then Gap(applied)
    else if exists k :: 0 <= k < |records| && records[k].index <= applied && !stored[k] then Conflict(applied)
    else if records[|records| - 1].index <= applied then Replayed(applied)
    else Pending(applied)
  }

  lemma VerdictAt(applied: nat, records: seq<Record>, stored: seq<bool>, k: nat)
    requires |records| == |stored| && k < |records| && Contiguous(records) && records[k].index > applied
    requires forall i :: 0 <= i < k ==> records[i].index <= applied && stored[i]
    ensures Verdict(applied, records, stored) == if records[k].index != applied + 1 then Gap(applied) else Pending(applied)
  {
    if k > 0 { assert records[k - 1].index <= applied; }
    assert forall i :: k <= i < |records| ==> records[i].index > applied;
  }

  lemma VerdictIsReply(s: Store, records: seq<Record>, stored: seq<bool>)
    requires |records| == |stored| && |records| > 0 && Contiguous(records)
    requires forall k :: 0 <= k < |records| ==> stored[k] == Stored(s, records[k])
    ensures Verdict(s.applied, records, stored) == ReconcileReply(s, records)
  {
  }

  lemma {:induction false} RefusalIsNamed(argv: seq<string>, previous: nat)
    requires |argv| % 4 == 0
    ensures ParseRecords(argv, previous).Bad? ==> ParseRecords(argv, previous).reason != ""
  {
    if argv != [] && !Refused(argv[0], argv[1], argv[2]) { RefusalIsNamed(argv[4..], Value(argv[0])); }
  }

  lemma LoopStep(s: Store, cur: Store, records: seq<Record>, k: nat, written: Option<Record>, budget: nat)
    requires k < |records|
    ensures
      var r := records[k];
      var o := Run(cur, RecordWrites(s, r), budget);
      WriteLoop(s, cur, records, k, written, budget) ==
        if r.index <= s.applied then
          if Stored(cur, r) then WriteLoop(s, cur, records, k + 1, written, budget) else Result(cur, Conflict(s.applied))
        else if r.index != Cursor(s, written) + 1 then Result(cur, Gap(s.applied))
        else if !o.done || budget < |RecordWrites(s, r)| then Result(o.store, Failed)
        else WriteLoop(s, o.store, records, k + 1, Some(r), budget - |RecordWrites(s, r)|)
  {
  }

  lemma Following(records: seq<Record>, k: nat)
    requires Contiguous(records) && k < |records|
    ensures k > 0 ==> records[k].index == records[k - 1].index + 1
    ensures records[k].index <= MAX_U64_VALUE
  {
    assert WellFormed(records[k]);
    if k > 0 { assert records[k - 1].index == records[0].index + (k - 1); }
  }

  lemma CompareNumerals(a: nat, b: nat)
    ensures Compare(Numeral(a), Numeral(b)) <= 0 <==> a <= b
  {
    CompareIsOrder(Numeral(a), Numeral(b));
  }

  /** The script has noted whether the outbox already holds the event of an index. */
  ghost predicate Knows(prepared: map<string, bool>, text: string, here: bool) {
    text in prepared && prepared[text] == here
  }

  lemma DistinctTexts(argv: seq<string>, records: seq<Record>, k: nat)
    requires k < |records| && |argv| == 4 * |records| && Contiguous(records)
    requires forall i :: 0 <= i < |records| ==> Spells(argv, i, records[i])
    ensures forall i :: 0 <= i < k ==> IndexText(argv, i) != IndexText(argv, k)
  {
    forall i | 0 <= i < k ensures IndexText(argv, i) != IndexText(argv, k) {
      assert Spells(argv, i, records[i]) && Spells(argv, k, records[k]);
      assert records[i].index != records[k].index;
    }
  }
}
