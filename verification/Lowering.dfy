/** Placeholder lowering: SQL text with `?` or `?N` placeholders becomes text with `?` only, plus the order in
    which the values are to be bound.  One `char` is one byte. */
module Lowering {
  import opened Decimal

  const UINT32_MAX: nat := 0xffff_ffff

  type Word32 = n: nat | n <= UINT32_MAX

  datatype Region = Code | SingleQuote | DoubleQuote | Backtick | LineComment | BlockComment

  /** Where the scan is; `executable` is set inside a `/*! ... */` comment, whose text is code. */
  datatype Mode = Mode(region: Region, executable: bool)

  predicate IsSpace(c: char) {
    c == ' ' || c == '\t' || c == '\r' || c == '\n' || c == '\U{000C}'
  }

  predicate IsQuote(region: Region) {
    region.SingleQuote? || region.DoubleQuote? || region.Backtick?
  }

  function Terminator(region: Region): char
    requires IsQuote(region)
  {
    match region case SingleQuote => '\'' case DoubleQuote => '"' case Backtick => '`'
  }

  /** What stands at the front of the text: bytes to copy (with the mode after them), a bare `?`, or a `?`
      followed by the given digits. */
  datatype Piece = Copy(length: nat, after: Mode) | Native | Portable(digits: string)

  function LeadingDigits(s: string): (n: nat)
    ensures n <= |s| && AllDigits(s[..n]) && (n < |s| ==> !IsDigit(s[n]))
  {
    if s == "" || !IsDigit(s[0]) then 0
    else
      var n := LeadingDigits(s[1..]);
      assert forall i :: 0 < i <= n ==> s[i] == s[1..][i - 1];
      n + 1
  }

  function InQuote(s: string, m: Mode, raw: bool): Piece
    requires s != "" && IsQuote(m.region)
  {
    var q := Terminator(m.region);
    if s[0] == q then
      if |s| > 1 && s[1] == q then Copy(2, m) else Copy(1, m.(region := Code))
    else if s[0] == '\\' && !m.region.Backtick? && !raw then Copy(if |s| > 1 then 2 else 1, m)
    else Copy(1, m)
  }

  function InCode(s: string, m: Mode): Piece
    requires s != "" && m.region.Code?
  {
    if m.executable && |s| > 1 && s[0] == '*' && s[1] == '/' then Copy(2, m.(executable := false))
    else if |s| > 2 && s[0] == '/' && s[1] == '*' && s[2] == '!' then Copy(3, m.(executable := true))
    else if |s| > 1 && s[0] == '/' && s[1] == '*' then Copy(2, m.(region := BlockComment))
    else if s[0] == '#' then Copy(1, m.(region := LineComment))
    else if |s| > 1 && s[0] == '-' && s[1] == '-' && (|s| == 2 || IsSpace(s[2])) then Copy(2, m.(region := LineComment))
    else if s[0] == '\'' then Copy(1, m.(region := SingleQuote))
    else if s[0] == '"' then Copy(1, m.(region := DoubleQuote))
    else if s[0] == '`' then Copy(1, m.(region := Backtick))
    else if s[0] == '?' then
      if |s| > 1 && IsDigit(s[1]) then Portable(s[1..1 + LeadingDigits(s[1..])]) else Native
    else Copy(1, m)
  }

  /** One turn of the scan.  `raw` is the server mode in which backslash is an ordinary byte. */
  function Next(s: string, m: Mode, raw: bool): Piece
    requires s != ""
  {
    if m.region.LineComment? then Copy(1, if s[0] == '\n' || s[0] == '\r' then m.(region := Code) else m)
    else if m.region.BlockComment? then
      if |s| > 1 && s[0] == '*' && s[1] == '/' then Copy(2, m.(region := Code)) else Copy(1, m)
    else if IsQuote(m.region) then InQuote(s, m, raw)
    else InCode(s, m)
  }

  function Size(p: Piece): nat {
    match p case Copy(n, _) => n case Native => 1 case Portable(d) => 1 + |d|
  }

  function After(p: Piece, m: Mode): Mode {
    match p case Copy(_, after) => after case _ => m
  }

  lemma PieceFits(s: string, m: Mode, raw: bool)
    requires s != ""
    ensures 0 < Size(Next(s, m, raw)) <= |s|
  {
  }

  // ---- the whole text ------------------------------------------------------------------------

  datatype Element = Verbatim(text: string) | Bare | Numbered(digits: string)

  function ElementOf(s: string, p: Piece): Element
    requires Size(p) <= |s|
  {
    match p case Copy(n, _) => Verbatim(s[..n]) case Native => Bare case Portable(d) => Numbered(d)
  }

  /** The text as literal pieces and placeholders. */
  function Elements(s: string, m: Mode, raw: bool): seq<Element>
    decreases |s|
  {
    if s == "" then []
    else
      PieceFits(s, m, raw);
      var p := Next(s, m, raw);
      [ElementOf(s, p)] + Elements(s[Size(p)..], After(p, m), raw)
  }

  function EndMode(s: string, m: Mode, raw: bool): Mode
    decreases |s|
  {
    if s == "" then m
    else
      PieceFits(s, m, raw);
      var p := Next(s, m, raw);
      EndMode(s[Size(p)..], After(p, m), raw)
  }

  /** The text the elements came from. */
  function SourceText(es: seq<Element>): string {
    if es == [] then ""
    else (match es[0] case Verbatim(t) => t case Bare => "?" case Numbered(d) => "?" + d) + SourceText(es[1..])
  }

  /** The text with every placeholder bare. */
  function BareText(es: seq<Element>): string {
    if es == [] then ""
    else (match es[0] case Verbatim(t) => t case Bare => "?" case Numbered(_) => "?") + BareText(es[1..])
  }

  function Bared(es: seq<Element>): seq<Element> {
    if es == [] then [] else [if es[0].Numbered? then Bare else es[0]] + Bared(es[1..])
  }

  /** The text with the values in place: placeholder `?N` stands for value N, the k-th bare `?` for the value
      that `order` binds to it. */
  function Substituted(es: seq<Element>, order: seq<nat>, values: nat -> string): string {
    if es == [] then ""
    else match es[0]
      case Verbatim(t) => t + Substituted(es[1..], order, values)
      case Numbered(d) => (if AllDigits(d) then values(Value(d)) else "") + Substituted(es[1..], order, values)
      case Bare =>
        (if order == [] then "" else values(order[0])) + Substituted(es[1..], if order == [] then [] else order[1..], values)
  }

  // ---- lowering ------------------------------------------------------------------------------

  datatype Style = NoStyle | NativeStyle | PortableStyle

  datatype Status = OK | INVALID | LIMIT

  datatype Limits = Limits(maxParameters: Word32, outCapacity: nat, bindCapacity: nat)

  datatype Lowered = Lowered(text: string, order: seq<nat>, style: Style) | Refused(status: Status)

  /** Recording one placeholder, then emitting its `?`. */
  function Record(l: Limits, style: Style, index: nat, done: Lowered): Lowered
    requires done.Lowered?
  {
    if index == 0 || index > l.maxParameters then Refused(INVALID)
    else if done.style != NoStyle && done.style != style then Refused(INVALID)
    else if |done.order| >= l.bindCapacity || |done.order| >= l.maxParameters then Refused(LIMIT)
    else Emit(l, "?", Lowered(done.text, done.order + [index], style))
  }

  function Emit(l: Limits, text: string, done: Lowered): Lowered
    requires done.Lowered?
  {
    if l.outCapacity < |done.text| + |text| then Refused(LIMIT) else done.(text := done.text + text)
  }

  function LowerOne(l: Limits, e: Element, done: Lowered): Lowered
    requires done.Lowered?
  {
    match e
    case Verbatim(t) => Emit(l, t, done)
    case Bare => if |done.order| >= UINT32_MAX then Refused(LIMIT) else Record(l, NativeStyle, |done.order| + 1, done)
    case Numbered(d) =>
      if !AllDigits(d) || Value(d) == 0 || Value(d) > UINT32_MAX || Value(d) > l.maxParameters then Refused(LIMIT)
      else Record(l, PortableStyle, Value(d), done)
  }

  function LowerAll(l: Limits, es: seq<Element>, done: Lowered): Lowered {
    if es == [] || done.Refused? then done else LowerAll(l, es[1..], LowerOne(l, es[0], done))
  }

  predicate Terminated(m: Mode) {
    !IsQuote(m.region) && !m.region.BlockComment? && !m.executable
  }

  const START := Mode(Code, false)

  function Lower(sql: string, l: Limits, raw: bool): Lowered {
    if l.maxParameters == 0 then Refused(INVALID)
    else
      var r := LowerAll(l, Elements(sql, START, raw), Lowered("", [], NoStyle));
      if r.Lowered? && !Terminated(EndMode(sql, START, raw)) then Refused(INVALID) else r
  }
}
