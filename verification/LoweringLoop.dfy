/** The lowering as it runs: one loop over the input, writing into the caller's text and bind-order buffers. */
module LoweringLoop {
  import opened Decimal
  import opened Lowering

  const UINT64_MAX: nat := MAX_U64_VALUE

  lemma {:induction false} PrefixAtMost(s: string, k: nat)
    requires k <= |s| && AllDigits(s)
    ensures Value(s[..k]) <= Value(s)
    decreases |s| - k
  {
    if k == |s| {
      assert s[..k] == s;
    } else {
      PrefixAtMost(s, k + 1);
      ValuePrefix(s, k);
    }
  }

  /** `mysql_parameter_parse_portable_index`: the number after `?`, with the 64-bit overflow check. */
  method ParsePortableIndex(sql: string, start: nat, maxParameters: Word32) returns (status: Status, index: nat, end: nat)
    requires start < |sql| && IsDigit(sql[start])
    ensures
      var v := Value(sql[start..][..LeadingDigits(sql[start..])]);
      if 1 <= v <= maxParameters then status == OK && index == v && end == start + LeadingDigits(sql[start..]) else status == LIMIT
  {
    ghost var digits := sql[start..][..LeadingDigits(sql[start..])];
    var cursor, value := start, 0;
    while cursor < |sql| && IsDigit(sql[cursor])
      invariant start <= cursor <= start + |digits| <= |sql|
      invariant value == Value(digits[..cursor - start]) <= UINT64_MAX
    {
      var digit := Digit(sql[cursor]);
      assert cursor - start < |digits| && digits[cursor - start] == sql[cursor];
      ValuePrefix(digits, cursor - start);
      if value > (UINT64_MAX - digit) / 10 {
        PrefixAtMost(digits, cursor - start + 1);
        return LIMIT, 0, start;
      }
      value := value * 10 + digit;
      cursor := cursor + 1;
    }
    assert digits[..cursor - start] == digits;
    if value == 0 || value > UINT32_MAX || value > maxParameters {
      return LIMIT, 0, start;
    }
    return OK, value, cursor;
  }

  /** How many bytes the turn at `input` copies and the mode after them; none at a placeholder. */
  method CopyLength(sql: string, input: nat, m: Mode, raw: bool) returns (copy: nat, after: Mode)
    requires input < |sql|
    ensures
      var p := Next(sql[input..], m, raw);
      if p.Copy? then copy == p.length > 0 && after == p.after else copy == 0 && sql[input] == '?' && m.region.Code?
  {
    var ch, left := sql[input], |sql| - input;
    if m.region.LineComment? {
      return 1, if ch == '\n' || ch == '\r' then m.(region := Code) else m;
    }
    if m.region.BlockComment? {
      if left > 1 && ch == '*' && sql[input + 1] == '/' { return 2, m.(region := Code); }
      return 1, m;
    }
    if m.region.SingleQuote? || m.region.DoubleQuote? || m.region.Backtick? {
      var terminator := if m.region.SingleQuote? then '\'' else if m.region.DoubleQuote? then '"' else '`';
      if ch == terminator {
        if left > 1 && sql[input + 1] == terminator { return 2, m; }
        return 1, m.(region := Code);
      }
      if ch == '\\' && !m.region.Backtick? && !raw { return if left > 1 then 2 else 1, m; }
      return 1, m;
    }
    if m.executable && left > 1 && ch == '*' && sql[input + 1] == '/' { return 2, m.(executable := false); }
    if left > 2 && ch == '/' && sql[input + 1] == '*' && sql[input + 2] == '!' { return 3, m.(executable := true); }
    if left > 1 && ch == '/' && sql[input + 1] == '*' { return 2, m.(region := BlockComment); }
    if ch == '#' { return 1, m.(region := LineComment); }
    if ch == '-' && left > 1 && sql[input + 1] == '-' && (left == 2 || IsSpace(sql[input + 2])) {
      return 2, m.(region := LineComment);
    }
    if ch == '\'' { return 1, m.(region := SingleQuote); }
    if ch == '"' { return 1, m.(region := DoubleQuote); }
    if ch == '`' { return 1, m.(region := Backtick); }
    if ch == '?' { return 0, m; }
    return 1, m;
  }

  /** The outcome, once `done` has been lowered and the text from `input` is still to come. */
  function Pending(l: Limits, sql: string, input: nat, m: Mode, raw: bool, done: Lowered): Lowered
    requires input <= |sql|
  {
    LowerAll(l, Elements(sql[input..], m, raw), done)
  }

  function Ends(sql: string, input: nat, m: Mode, raw: bool): Mode
    requires input <= |sql|
  {
    EndMode(sql[input..], m, raw)
  }

  lemma PendingStart(l: Limits, sql: string, m: Mode, raw: bool, done: Lowered)
    ensures Pending(l, sql, 0, m, raw, done) == LowerAll(l, Elements(sql, m, raw), done)
    ensures Ends(sql, 0, m, raw) == EndMode(sql, m, raw)
  {
    assert sql[0..] == sql;
  }

  lemma PendingEnd(l: Limits, sql: string, m: Mode, raw: bool, done: Lowered)
    ensures Pending(l, sql, |sql|, m, raw, done) == done && Ends(sql, |sql|, m, raw) == m
  {
  }

  lemma PendingRefused(l: Limits, sql: string, input: nat, m: Mode, raw: bool, status: Status)
    requires input <= |sql|
    ensures Pending(l, sql, input, m, raw, Refused(status)) == Refused(status)
  {
  }

  lemma LowerUnrolls(l: Limits, e: Element, es: seq<Element>, done: Lowered)
    requires done.Lowered?
    ensures LowerAll(l, [e] + es, done) == LowerAll(l, es, LowerOne(l, e, done))
  {
    assert ([e] + es)[1..] == es;
  }

  /** At the front of `s` stand `n` bytes that take `done` to `one` and the mode to `rest`. */
  predicate Scanned(s: string, m: Mode, raw: bool, l: Limits, done: Lowered, one: Lowered, n: nat, rest: Mode) {
    && s != "" && done.Lowered? && 0 < n <= |s| && n == Size(Next(s, m, raw)) && rest == After(Next(s, m, raw), m)
    && one == LowerOne(l, ElementOf(s, Next(s, m, raw)), done)
  }

  /** What one turn does to what is still to be lowered. */
  lemma TurnUnrolls(sql: string, input: nat, m: Mode, raw: bool, l: Limits, done: Lowered, all: Lowered, ending: Mode)
    returns (one: Lowered, at: nat, rest: Mode)
    requires input < |sql| && done.Lowered?
    requires Pending(l, sql, input, m, raw, done) == all && Ends(sql, input, m, raw) == ending
    ensures input < at <= |sql| && Scanned(sql[input..], m, raw, l, done, one, at - input, rest)
    ensures Ends(sql, at, rest, raw) == ending && Pending(l, sql, at, rest, raw, one) == all
  {
    var s := sql[input..];
    PieceFits(s, m, raw);
    var p := Next(s, m, raw);
    at, rest, one := input + Size(p), After(p, m), LowerOne(l, ElementOf(s, p), done);
    assert s[Size(p)..] == sql[at..];
    LowerUnrolls(l, ElementOf(s, p), Elements(sql[at..], rest, raw), done);
  }

  /** The digits after a `?` are the digits of the placeholder. */
  lemma PlaceholderPiece(sql: string, input: nat, m: Mode, raw: bool)
    requires input < |sql| && sql[input] == '?' && m.region.Code?
    ensures
      var p := Next(sql[input..], m, raw);
      if input + 1 < |sql| && IsDigit(sql[input + 1]) then
        p == Portable(sql[input + 1..][..LeadingDigits(sql[input + 1..])])
      else p == Native
  {
    assert sql[input..][1..] == sql[input + 1..];
  }

  /** The caller's buffers and the result record. */
  class Sink {
    const out: array<char>
    const bindOrder: array<nat>
    var used: nat
    var bindCount: nat
    var style: Style

    constructor (out: array<char>, bindOrder: array<nat>)
      ensures this.out == out && this.bindOrder == bindOrder
      ensures used == 0 && bindCount == 0 && style == NoStyle
    {
      this.out, this.bindOrder := out, bindOrder;
      used, bindCount, style := 0, 0, NoStyle;
    }

    ghost predicate Valid()
      reads this
    {
      used <= out.Length && bindCount <= bindOrder.Length
    }

    /** What has been lowered so far. */
    ghost function Done(): Lowered
      requires Valid()
      reads this, out, bindOrder
    {
      Lowered(out[..used], bindOrder[..bindCount], style)
    }

    ghost function LimitsFor(maxParameters: Word32): Limits {
      Limits(maxParameters, out.Length, bindOrder.Length)
    }

    /** `mysql_parameter_emit`. */
    method Emit(data: string) returns (status: Status)
      requires Valid()
      modifies `used, out
      ensures Valid()
      ensures
        var r := Lowering.Emit(LimitsFor(1), data, old(Done()));
        if status == OK then r == Done() else r == Refused(status)
    {
      if |data| > out.Length - used { return LIMIT; }
      forall i | 0 <= i < |data| {
        out[used + i] := data[i];
      }
      assert out[..used + |data|] == old(out[..used]) + data;
      used := used + |data|;
      return OK;
    }

    /** `mysql_parameter_record`, then the `?`. */
    method Record(newStyle: Style, index: nat, maxParameters: Word32) returns (status: Status)
      requires Valid() && maxParameters > 0
      modifies this, out, bindOrder
      ensures Valid()
      ensures
        var r := Lowering.Record(LimitsFor(maxParameters), newStyle, index, old(Done()));
        if status == OK then r == Done() else r == Refused(status)
    {
      if index == 0 || index > maxParameters { return INVALID; }
      if style != NoStyle && style != newStyle { return INVALID; }
      if bindCount >= bindOrder.Length || bindCount >= maxParameters { return LIMIT; }
      style := newStyle;
      bindOrder[bindCount] := index;
      bindCount := bindCount + 1;
      assert bindOrder[..bindCount] == old(bindOrder[..bindCount]) + [index];
      status := Emit("?");
    }

    /** The turn at a `?`, with or without a number. */
    method Placeholder(sql: string, input: nat, maxParameters: Word32, ghost m: Mode, ghost raw: bool)
      returns (status: Status, next: nat)
      requires Valid() && maxParameters > 0
      requires input < |sql| && sql[input] == '?' && m.region.Code?
      modifies this, out, bindOrder
      ensures Valid()
      ensures
        var s := sql[input..];
        var p := Next(s, m, raw);
        && !p.Copy? && Size(p) <= |s|
        && var r := LowerOne(LimitsFor(maxParameters), ElementOf(s, p), old(Done()));
           if status == OK then r == Done() && next == input + Size(p) else r == Refused(status)
    {
      PlaceholderPiece(sql, input, m, raw);
      next := input;
      if input + 1 < |sql| && IsDigit(sql[input + 1]) {
        var index, end;
        status, index, end := ParsePortableIndex(sql, input + 1, maxParameters);
        if status != OK { return; }
        status := Record(PortableStyle, index, maxParameters);
        next := end;
      } else {
        if bindCount >= UINT32_MAX { return LIMIT, input; }
        status := Record(NativeStyle, bindCount + 1, maxParameters);
        next := input + 1;
      }
    }

    /** The turn at any other place. */
    method CopyBytes(sql: string, input: nat, copy: nat, ghost l: Limits, ghost m: Mode, ghost raw: bool)
      returns (status: Status, next: nat)
      requires Valid() && input < |sql| && l == LimitsFor(l.maxParameters)
      requires Next(sql[input..], m, raw).Copy? && copy == Size(Next(sql[input..], m, raw)) <= |sql| - input
      modifies `used, out
      ensures Valid()
      ensures
        var p := Next(sql[input..], m, raw);
        var r := LowerOne(l, ElementOf(sql[input..], p), old(Done()));
        if status == OK then r == Done() && next == input + Size(p) else r == Refused(status)
    {
      next := input + copy;
      assert sql[input..][..copy] == sql[input..next];
      status := Emit(sql[input..next]);
    }

    /** Lowers the element at `input`. */
    method Element(sql: string, input: nat, m: Mode, maxParameters: Word32, raw: bool, ghost one: Lowered, ghost n: nat,
        ghost rest: Mode)
      returns (status: Status, next: nat, after: Mode)
      requires Valid() && maxParameters > 0 && input < |sql|
      requires Scanned(sql[input..], m, raw, LimitsFor(maxParameters), Done(), one, n, rest)
      modifies this, out, bindOrder
      ensures Valid()
      ensures if status == OK then one == Done() && next == input + n && after == rest else one == Refused(status)
    {
      var copy;
      copy, after := CopyLength(sql, input, m, raw);
      if copy == 0 {
        after := m;
        status, next := Placeholder(sql, input, maxParameters, m, raw);
      } else {
        status, next := CopyBytes(sql, input, copy, LimitsFor(maxParameters), m, raw);
      }
    }

    /** One turn of the loop, which is to end with `all` in mode `ending`: it leaves `one` done and `rest` to be read
        from `at`. */
    method Turn(sql: string, input: nat, m: Mode, maxParameters: Word32, raw: bool, ghost l: Limits, ghost all: Lowered,
        ghost ending: Mode)
      returns (status: Status, next: nat, after: Mode, ghost one: Lowered, ghost at: nat, ghost rest: Mode)
      requires Valid() && maxParameters > 0 && input < |sql| && l == LimitsFor(maxParameters)
      requires Pending(l, sql, input, m, raw, Done()) == all && Ends(sql, input, m, raw) == ending
      modifies this, out, bindOrder
      ensures Valid() && input < at <= |sql|
      ensures Ends(sql, at, rest, raw) == ending && Pending(l, sql, at, rest, raw, one) == all
      ensures if status == OK then next == at && after == rest && Done() == one else one == Refused(status)
    {
      one, at, rest := TurnUnrolls(sql, input, m, raw, l, Done(), all, ending);
      status, next, after := Element(sql, input, m, maxParameters, raw, one, at - input, rest);
    }

    /** `mysql_parameter_lower`: computes exactly the lowered text, bind order and style, or the refusal. */
    method Lower(sql: string, maxParameters: Word32, raw: bool) returns (status: Status, outSize: nat)
      requires used == 0 && bindCount == 0 && style == NoStyle
      modifies this, out, bindOrder
      ensures Valid()
      ensures
        var r := Lowering.Lower(sql, LimitsFor(maxParameters), raw);
        if status == OK then r == Done() && outSize == used else r == Refused(status) && outSize == 0
    {
      if maxParameters == 0 { return INVALID, 0; }
      ghost var l := LimitsFor(maxParameters);
      var input, m := 0, START;
      assert Done() == Lowered("", [], NoStyle);
      PendingStart(l, sql, m, raw, Done());
      ghost var all, ending := Pending(l, sql, 0, START, raw, Done()), Ends(sql, 0, START, raw);
      ghost var one, at, rest := Done(), input, m;
      while input < |sql|
        invariant input == at <= |sql| && m == rest && Valid() && Done() == one
        invariant Pending(l, sql, at, rest, raw, one) == all && Ends(sql, at, rest, raw) == ending
      {
        status, input, m, one, at, rest := Turn(sql, input, m, maxParameters, raw, l, all, ending);
        if status != OK {
          PendingRefused(l, sql, at, rest, raw, status);
          return status, 0;
        }
      }
      PendingEnd(l, sql, m, raw, Done());
      if IsQuote(m.region) || m.region.BlockComment? || m.executable { return INVALID, 0; }
      return OK, used;
    }
  }
}
