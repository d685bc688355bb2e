/** Outbound commands: the bounded printer, and the reader's view of what it prints. */
module RespCommand {
  import opened Decimal
  import opened Resp
  import opened RespProofs
  import opened RespRoundTrip

  function Bulks(argv: seq<string>): seq<Reply> {
    if argv == [] then [] else [Bulk(argv[0])] + Bulks(argv[1..])
  }

  /** A command is an array of bulk strings. */
  function Command(argv: seq<string>): Reply {
    Array(Bulks(argv))
  }

  lemma {:induction false} BulksFacts(argv: seq<string>)
    ensures |Bulks(argv)| == |argv| && PrintableAll(Bulks(argv)) && NestingAll(Bulks(argv)) == 0
    ensures forall i :: 0 <= i < |argv| ==> Bulks(argv)[i] == Bulk(argv[i])
  {
    if argv != [] {
      BulksFacts(argv[1..]);
      assert Bulks(argv)[1..] == Bulks(argv[1..]);
      assert forall i :: 0 < i < |argv| ==> argv[i] == argv[1..][i - 1];
    }
  }

  lemma {:induction false} PrintBulksSnoc(argv: seq<string>, last: string)
    ensures PrintAll(Bulks(argv + [last])) == PrintAll(Bulks(argv)) + Print(Bulk(last))
  {
    if argv == [] {
      assert [last][1..] == [];
      assert Bulks([last]) == [Bulk(last)];
      assert [Bulk(last)][1..] == [];
      assert argv + [last] == [last];
    } else {
      assert (argv + [last])[1..] == argv[1..] + [last];
      PrintBulksSnoc(argv[1..], last);
      assert Bulks(argv + [last])[1..] == Bulks(argv[1..] + [last]);
      assert Bulks(argv)[1..] == Bulks(argv[1..]);
    }
  }

  /** The number of decimal digits of a value. */
  method DecimalDigits(value: nat) returns (digits: nat)
    ensures digits == |Numeral(value)|
  {
    digits := 1;
    var v := value;
    while v >= 10
      invariant |Numeral(value)| == digits - 1 + |Numeral(v)|
    {
      v := v / 10;
      digits := digits + 1;
    }
  }

  datatype BuildStatus = Built(command: string) | NoRoom | Malformed

  /** The header line of a command and one argument with its framing, as printed lengths. */
  function HeaderSize(n: nat): nat {
    1 + |Numeral(n)| + 2
  }

  lemma ArgumentSize(argument: string)
    ensures |Print(Bulk(argument))| == HeaderSize(|argument|) + 2 + |argument|
  {
  }

  lemma {:induction false} PrintBulksGrows(argv: seq<string>, k: nat)
    requires k <= |argv|
    ensures |PrintAll(Bulks(argv[..k]))| <= |PrintAll(Bulks(argv))|
    decreases |argv| - k
  {
    if k == |argv| {
      assert argv[..k] == argv;
    } else {
      assert argv[..k + 1] == argv[..k] + [argv[k]];
      PrintBulksSnoc(argv[..k], argv[k]);
      PrintBulksGrows(argv, k + 1);
    }
  }

  /** The size after one more argument, never above the size of the whole. */
  lemma MeasureStep(argv: seq<string>, index: nat)
    requires index < |argv|
    ensures
      var before, after := |PrintAll(Bulks(argv[..index]))|, |PrintAll(Bulks(argv[..index + 1]))|;
      after == before + (HeaderSize(|argv[index]|) + 2 + |argv[index]|) <= |PrintAll(Bulks(argv))|
  {
    assert argv[..index + 1] == argv[..index] + [argv[index]];
    PrintBulksSnoc(argv[..index], argv[index]);
    ArgumentSize(argv[index]);
    PrintBulksGrows(argv, index + 1);
  }

  lemma CommandSize(argv: seq<string>)
    ensures |Print(Command(argv))| == HeaderSize(|argv|) + |PrintAll(Bulks(argv))|
  {
    BulksFacts(argv);
  }

  /** First pass: the exact size of the command, or nothing if it exceeds the limit. */
  method Measure(argv: seq<string>, limit: nat) returns (total: Option<nat>)
    ensures total == if |Print(Command(argv))| <= limit then Some(|Print(Command(argv))|) else None
  {
    CommandSize(argv);
    var digits := DecimalDigits(|argv|);
    var size: nat := 1 + digits + 2;
    if size > limit { return None; }
    for index := 0 to |argv|
      invariant size == HeaderSize(|argv|) + |PrintAll(Bulks(argv[..index]))| <= limit
    {
      MeasureStep(argv, index);
      var length := |argv[index]|;
      digits := DecimalDigits(length);
      var framing := 1 + digits + 2 + 2;
      if length > limit { return None; }
      var room: nat := limit - length;
      if framing > room { return None; }
      room := room - framing;
      if size > room { return None; }
      size := size + framing + length;
    }
    assert argv[..|argv|] == argv;
    total := Some(size);
  }

  lemma BuildStep(argv: seq<string>, index: nat)
    requires index < |argv|
    ensures PrintAll(Bulks(argv[..index + 1])) ==
      PrintAll(Bulks(argv[..index])) + ("$" + Numeral(|argv[index]|) + CRLF + argv[index] + CRLF)
  {
    assert argv[..index + 1] == argv[..index] + [argv[index]];
    PrintBulksSnoc(argv[..index], argv[index]);
  }

  lemma CommandText(argv: seq<string>)
    ensures Print(Command(argv)) == Line('*', Numeral(|argv|)) + PrintAll(Bulks(argv[..|argv|]))
  {
    BulksFacts(argv);
    assert argv[..|argv|] == argv;
  }

  /** The printer: refuses an empty command or limit, refuses what does not fit before printing anything,
      and otherwise prints exactly the measured number of bytes. */
  method BuildBounded(argv: seq<string>, limit: nat) returns (status: BuildStatus)
    ensures status ==
      if |argv| == 0 || limit == 0 then Malformed
      else if |Print(Command(argv))| > limit then NoRoom
      else Built(Print(Command(argv)))
  {
    if |argv| == 0 || limit == 0 { return Malformed; }
    var total := Measure(argv, limit);
    if total.None? { return NoRoom; }
    CommandText(argv);
    var command := "*" + Numeral(|argv|) + CRLF;
    for index := 0 to |argv|
      invariant command == Line('*', Numeral(|argv|)) + PrintAll(Bulks(argv[..index]))
    {
      BuildStep(argv, index);
      command := command + ("$" + Numeral(|argv[index]|) + CRLF + argv[index] + CRLF);
    }
    status := Built(command);
  }

  lemma {:induction false} CommandCost(c: Config, argv: seq<string>)
    ensures CostAll(c, Bulks(argv)) == |argv| * (c.node + c.str) + TotalLength(argv)
  {
    if argv != [] {
      CommandCost(c, argv[1..]);
      assert Bulks(argv)[1..] == Bulks(argv[1..]);
      assert |argv| * (c.node + c.str) == (|argv| - 1) * (c.node + c.str) + (c.node + c.str);
    }
  }

  function TotalLength(argv: seq<string>): nat {
    if argv == [] then 0 else |argv[0]| + TotalLength(argv[1..])
  }

  /** ROUND TRIP.  Cut a printed command into any chunks: the reader gives back an array of exactly the
      arguments, byte for byte, and consumes exactly the command, if and only if its budget covers the owner,
      the nodes, the element pointers and the strings; otherwise it reports the limit. */
  lemma CommandRoundTrip(c: Config, argv: seq<string>, chunks: seq<string>)
    requires Concat(chunks) == Print(Command(argv)) && |Print(Command(argv))| <= INT_MAX && argv != []
    requires 0 < c.max && INT_MAX * c.pointer <= SIZE_MAX
    ensures Feed(c, Idle, "", chunks) ==
      if c.owner + Cost(c, Command(argv)) <= c.max then Value(Command(argv), |Print(Command(argv))|) else Problem(LIMIT)
    ensures |Command(argv).items| == |argv| && forall i :: 0 <= i < |argv| ==> Command(argv).items[i] == Bulk(argv[i])
    ensures Cost(c, Command(argv)) == c.node + |argv| * c.pointer + (|argv| * (c.node + c.str) + TotalLength(argv))
  {
    BulksFacts(argv);
    CommandCost(c, argv);
    ChunkedReadBack(c, Command(argv), chunks);
  }
}
