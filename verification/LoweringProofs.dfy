/** Lowering keeps the meaning of a statement, touches nothing but placeholders, and is idempotent. */
module LoweringProofs {
  import opened Decimal
  import opened Lowering

  // ---- nothing is lost by cutting the text up ------------------------------------------------

  lemma PieceIsText(s: string, m: Mode, raw: bool)
    requires s != ""
    ensures 0 < Size(Next(s, m, raw)) <= |s|
    ensures
      var p := Next(s, m, raw);
      ElementText(ElementOf(s, p)) == s[..Size(p)]
  {
    PieceFits(s, m, raw);
  }

  function ElementText(e: Element): string {
    match e case Verbatim(t) => t case Bare => "?" case Numbered(d) => "?" + d
  }

  lemma SourceStep(s: string, m: Mode, raw: bool)
    requires s != ""
    ensures 0 < Size(Next(s, m, raw)) <= |s|
    ensures
      var p := Next(s, m, raw);
      SourceText(Elements(s, m, raw)) ==
        ElementText(ElementOf(s, p)) + SourceText(Elements(s[Size(p)..], After(p, m), raw))
  {
    PieceFits(s, m, raw);
    var p := Next(s, m, raw);
    assert Elements(s, m, raw)[1..] == Elements(s[Size(p)..], After(p, m), raw);
  }

  /** Nothing is lost by cutting the text up. */
  lemma {:induction false} SourceIsText(s: string, m: Mode, raw: bool)
    ensures SourceText(Elements(s, m, raw)) == s
    decreases |s|
  {
    if s != "" {
      PieceIsText(s, m, raw);
      SourceStep(s, m, raw);
      var n := Size(Next(s, m, raw));
      SourceIsText(s[n..], After(Next(s, m, raw), m), raw);
      assert s[..n] + s[n..] == s;
    }
  }

  // ---- the lowered text reads the same way ---------------------------------------------------

  /** The lowered form of a suffix read in mode `m`. */
  function LoweredText(s: string, m: Mode, raw: bool): string {
    BareText(Elements(s, m, raw))
  }

  lemma BaredStep(s: string, m: Mode, raw: bool)
    requires s != ""
    ensures 0 < Size(Next(s, m, raw)) <= |s|
    ensures
      var p := Next(s, m, raw);
      LoweredText(s, m, raw) == (if p.Copy? then s[..p.length] else "?") + LoweredText(s[Size(p)..], After(p, m), raw)
  {
    PieceFits(s, m, raw);
    var p := Next(s, m, raw);
    assert Elements(s, m, raw)[1..] == Elements(s[Size(p)..], After(p, m), raw);
  }

  lemma FirstChar(s: string, m: Mode, raw: bool)
    ensures s == "" <==> LoweredText(s, m, raw) == ""
    ensures s != "" ==> LoweredText(s, m, raw)[0] == s[0]
  {
    if s != "" {
      BaredStep(s, m, raw);
      var p := Next(s, m, raw);
      if !p.Copy? { assert s[0] == '?'; }
    }
  }

  lemma SecondChar(s: string, m: Mode, raw: bool)
    requires s != "" && Next(s, m, raw).Copy?
    ensures var t := LoweredText(s, m, raw); (|s| > 1 <==> |t| > 1) && (|s| > 1 ==> t[1] == s[1])
  {
    BaredStep(s, m, raw);
    var p := Next(s, m, raw);
    FirstChar(s[Size(p)..], After(p, m), raw);
  }

  /** After two copied bytes the third is the same too. */
  lemma ThirdChar(s: string, m: Mode, raw: bool)
    requires |s| > 1 && Next(s, m, raw).Copy?
    requires Size(Next(s, m, raw)) > 1 || Next(s[1..], After(Next(s, m, raw), m), raw).Copy?
    ensures var t := LoweredText(s, m, raw); (|s| > 2 <==> |t| > 2) && (|s| > 2 ==> t[2] == s[2])
  {
    BaredStep(s, m, raw);
    var p := Next(s, m, raw);
    if Size(p) == 1 {
      SecondChar(s[1..], After(p, m), raw);
    } else {
      FirstChar(s[Size(p)..], After(p, m), raw);
    }
  }

  /** In code, a dash or a star is never the start of a placeholder. */
  lemma PlainIsCopied(s: string, m: Mode, raw: bool)
    requires s != "" && s[0] != '?'
    ensures Next(s, m, raw).Copy?
  {
  }

  lemma PlaceholderEnds(s: string, m: Mode, raw: bool)
    requires s != "" && !Next(s, m, raw).Copy?
    ensures var t := LoweredText(s, m, raw); t[0] == '?' && !(|t| > 1 && IsDigit(t[1]))
    ensures m.region.Code?
  {
    BaredStep(s, m, raw);
    var p := Next(s, m, raw);
    var rest := s[Size(p)..];
    FirstChar(rest, After(p, m), raw);
    if p.Portable? && rest != "" { assert rest[0] == s[1..][LeadingDigits(s[1..])]; }
  }

  /** The scan takes the same turn on the lowered text. */
  lemma SameTurn(s: string, m: Mode, raw: bool)
    requires s != ""
    ensures LoweredText(s, m, raw) != ""
    ensures
      var p := Next(s, m, raw);
      Next(LoweredText(s, m, raw), m, raw) == if p.Copy? then p else Native
  {
    var t := LoweredText(s, m, raw);
    FirstChar(s, m, raw);
    if Next(s, m, raw).Copy? {
      SecondChar(s, m, raw);
      if m.region.Code? && |s| > 1 && (s[1] == '*' || s[1] == '-') {
        PlainIsCopied(s[1..], After(Next(s, m, raw), m), raw);
        ThirdChar(s, m, raw);
      }
    } else {
      PlaceholderEnds(s, m, raw);
    }
  }

  /** RE-READING.  The lowered text splits into the same pieces, with every placeholder bare. */
  lemma {:induction false} Rereads(s: string, m: Mode, raw: bool)
    ensures Elements(LoweredText(s, m, raw), m, raw) == Bared(Elements(s, m, raw))
    ensures EndMode(LoweredText(s, m, raw), m, raw) == EndMode(s, m, raw)
    decreases |s|
  {
    if s != "" {
      var t := LoweredText(s, m, raw);
      BaredStep(s, m, raw);
      SameTurn(s, m, raw);
      PieceFits(t, m, raw);
      var p := Next(s, m, raw);
      var rest := s[Size(p)..];
      Rereads(rest, After(p, m), raw);
      var head := if p.Copy? then s[..p.length] else "?";
      assert t[..|head|] == head && t[|head|..] == LoweredText(rest, After(p, m), raw);
      assert Elements(s, m, raw)[1..] == Elements(rest, After(p, m), raw);
    }
  }

  // ---- when lowering succeeds, and what it gives ---------------------------------------------

  /** The value each placeholder is bound to, when `k` bare ones came before. */
  function Order(es: seq<Element>, k: nat): seq<nat> {
    if es == [] then []
    else match es[0]
      case Verbatim(_) => Order(es[1..], k)
      case Bare => [k + 1] + Order(es[1..], k + 1)
      case Numbered(d) => [if AllDigits(d) then Value(d) else 0] + Order(es[1..], k + 1)
  }

  predicate Indexed(l: Limits, e: Element) {
    e.Numbered? ==> AllDigits(e.digits) && 1 <= Value(e.digits) <= l.maxParameters
  }

  /** No placeholder is of another style. */
  predicate Uniform(es: seq<Element>, style: Style) {
    && (style != NativeStyle ==> Bare !in es)
    && (style != PortableStyle ==> forall e :: e in es ==> !e.Numbered?)
  }

  /** The style of the text, `style` being that of what came before it. */
  function StyleOf(es: seq<Element>, style: Style): Style {
    if style != NoStyle || es == [] then style
    else StyleOf(es[1..], if es[0].Bare? then NativeStyle else if es[0].Numbered? then PortableStyle else NoStyle)
  }

  function Min(a: nat, b: nat): nat { if a < b then a else b }

  /** Exactly the texts that are accepted after `done`. */
  predicate Acceptable(l: Limits, es: seq<Element>, done: Lowered)
    requires done.Lowered?
  {
    && Uniform(es, StyleOf(es, done.style))
    && (forall e :: e in es ==> Indexed(l, e))
    && |done.order| + |Order(es, |done.order|)| <= Min(l.bindCapacity, l.maxParameters)
    && |done.text| + |BareText(es)| <= l.outCapacity
  }

  lemma UniformStep(es: seq<Element>, style: Style)
    requires es != []
    ensures Uniform(es, style) <==> Uniform(es[..1], style) && Uniform(es[1..], style)
  {
    assert es == es[..1] + es[1..];
    assert forall e :: e in es <==> e in es[..1] || e in es[1..];
  }

  lemma IndexedStep(l: Limits, es: seq<Element>)
    requires es != []
    ensures (forall e :: e in es ==> Indexed(l, e)) <==> Indexed(l, es[0]) && forall e :: e in es[1..] ==> Indexed(l, e)
  {
    assert forall e :: e in es <==> e == es[0] || e in es[1..];
  }

  predicate Within(l: Limits, done: Lowered)
    requires done.Lowered?
  {
    |done.text| <= l.outCapacity && |done.order| <= Min(l.bindCapacity, l.maxParameters)
  }

  lemma Reassociated<T>(a: seq<T>, b: seq<T>, c: seq<T>)
    ensures (a + b) + c == a + (b + c)
  {
  }

  lemma StyleStays(es: seq<Element>, style: Style)
    requires style != NoStyle
    ensures StyleOf(es, style) == style
  {
  }

  lemma MoveText(l: Limits, es: seq<Element>, done: Lowered, x: Lowered)
    requires es != [] && done.Lowered? && x == LowerOne(l, es[0], done) && x.Lowered?
    ensures |x.text| <= l.outCapacity
    ensures x.text + BareText(es[1..]) == done.text + BareText(es)
  {
    var t := match es[0] case Verbatim(t) => t case Bare => "?" case Numbered(_) => "?";
    Reassociated(done.text, t, BareText(es[1..]));
  }

  lemma MoveOrder(l: Limits, es: seq<Element>, done: Lowered, x: Lowered)
    requires es != [] && done.Lowered? && x == LowerOne(l, es[0], done) && x.Lowered?
    requires Within(l, done)
    ensures |x.order| <= Min(l.bindCapacity, l.maxParameters)
    ensures x.order + Order(es[1..], |x.order|) == done.order + Order(es, |done.order|)
  {
    if !es[0].Verbatim? {
      var i := if es[0].Bare? then |done.order| + 1 else Value(es[0].digits);
      assert x.order == done.order + [i];
      Reassociated(done.order, [i], Order(es[1..], |x.order|));
    }
  }

  /** One accepted element moves its text and its value from what is to come to what is done. */
  lemma StepMoves(l: Limits, es: seq<Element>, done: Lowered, x: Lowered)
    requires es != [] && done.Lowered? && x == LowerOne(l, es[0], done) && x.Lowered?
    requires Within(l, done)
    ensures Within(l, x)
    ensures x.text + BareText(es[1..]) == done.text + BareText(es)
    ensures x.order + Order(es[1..], |x.order|) == done.order + Order(es, |done.order|)
    ensures StyleOf(es[1..], x.style) == StyleOf(es, done.style)
    ensures Indexed(l, es[0]) && Uniform(es[..1], StyleOf(es, done.style))
  {
    MoveText(l, es, done, x);
    MoveOrder(l, es, done, x);
    StyleStays(es, NativeStyle);
    StyleStays(es, PortableStyle);
    StyleStays(es[1..], NativeStyle);
    StyleStays(es[1..], PortableStyle);
    assert forall e :: e in es[..1] ==> e == es[0];
  }

  lemma StepRefuses(l: Limits, es: seq<Element>, done: Lowered)
    requires es != [] && done.Lowered? && LowerOne(l, es[0], done).Refused?
    requires Indexed(l, es[0]) && Uniform(es[..1], StyleOf(es, done.style))
    ensures |done.order| + |Order(es, |done.order|)| > Min(l.bindCapacity, l.maxParameters) || |done.text| + |BareText(es)| > l.outCapacity
  {
    assert es[..1] == [es[0]];
    assert es[0] in es[..1];
    StyleStays(es, NativeStyle);
    StyleStays(es, PortableStyle);
  }

  lemma AcceptStep(l: Limits, es: seq<Element>, done: Lowered, x: Lowered)
    requires es != [] && done.Lowered? && x == LowerOne(l, es[0], done)
    requires Within(l, done)
    ensures Acceptable(l, es, done) <==> x.Lowered? && Acceptable(l, es[1..], x)
  {
    UniformStep(es, StyleOf(es, done.style));
    IndexedStep(l, es);
    if x.Lowered? {
      StepMoves(l, es, done, x);
      assert |x.text + BareText(es[1..])| == |done.text + BareText(es)|;
      assert |x.order + Order(es[1..], |x.order|)| == |done.order + Order(es, |done.order|)|;
    } else if Indexed(l, es[0]) && Uniform(es[..1], StyleOf(es, done.style)) {
      StepRefuses(l, es, done);
    }
  }

  /** Lowering succeeds exactly on the acceptable texts and yields the bare text, the bind order and the style. */
  lemma {:induction false} LowerAllIff(l: Limits, es: seq<Element>, done: Lowered)
    requires done.Lowered?
    requires Within(l, done)
    ensures LowerAll(l, es, done).Lowered? <==> Acceptable(l, es, done)
    ensures
      Acceptable(l, es, done) ==>
        var text, order := done.text + BareText(es), done.order + Order(es, |done.order|);
        LowerAll(l, es, done) == Lowered(text, order, StyleOf(es, done.style))
  {
    if es != [] {
      var x := LowerOne(l, es[0], done);
      AcceptStep(l, es, done, x);
      if x.Lowered? {
        StepMoves(l, es, done, x);
        LowerAllIff(l, es[1..], x);
      }
    }
  }

  const NOTHING := Lowered("", [], NoStyle)

  /** WHEN LOWERING SUCCEEDS.  Exactly when the text ends outside quotes and comments, uses one placeholder style,
      numbers within 1..max, and fits the buffers; and then the result is determined. */
  lemma LowerIff(sql: string, l: Limits, raw: bool)
    ensures
      var es := Elements(sql, START, raw);
      && (Lower(sql, l, raw).Lowered? <==>
            l.maxParameters > 0 && Terminated(EndMode(sql, START, raw)) && Acceptable(l, es, NOTHING))
      && (Lower(sql, l, raw).Lowered? ==>
            Lower(sql, l, raw) == Lowered(BareText(es), Order(es, 0), StyleOf(es, NoStyle)))
  {
    LowerAllIff(l, Elements(sql, START, raw), NOTHING);
  }

  // ---- meaning -------------------------------------------------------------------------------

  /** The first `n` values in order. */
  function FirstValues(n: nat): seq<nat> {
    seq(n, i => i + 1)
  }

  lemma {:induction false} BareOrder(es: seq<Element>, k: nat)
    requires forall e :: e in es ==> !e.Numbered?
    ensures forall i :: 0 <= i < |Order(es, k)| ==> Order(es, k)[i] == k + 1 + i
  {
    if es != [] {
      BareOrder(es[1..], if es[0].Bare? then k + 1 else k);
    }
  }

  /** Bound in order, the bare text says what the numbered text says; a text without bare placeholders does not
      depend on any order. */
  lemma {:induction false} NumberedMeaning(l: Limits, es: seq<Element>, k: nat, any: seq<nat>, values: nat -> string)
    requires Bare !in es && forall e :: e in es ==> Indexed(l, e)
    ensures Substituted(Bared(es), Order(es, k), values) == Substituted(es, any, values)
  {
    if es != [] {
      assert Bared(es)[1..] == Bared(es[1..]) && es[0] in es;
      NumberedMeaning(l, es[1..], if es[0].Numbered? then k + 1 else k, any, values);
    }
  }

  lemma {:induction false} BaredBare(es: seq<Element>)
    requires forall e :: e in es ==> !e.Numbered?
    ensures Bared(es) == es
  {
    if es != [] {
      BaredBare(es[1..]);
      assert es[0] in es;
    }
  }

  /** LOWERING KEEPS THE MEANING.  Putting the bound values at the placeholders of the lowered text gives the same
      text as putting value N at each `?N`, or value k at the k-th `?`, of the original. */
  lemma MeaningKept(sql: string, l: Limits, raw: bool, values: nat -> string)
    requires Lower(sql, l, raw).Lowered?
    ensures
      var out := Lower(sql, l, raw);
      Substituted(Elements(out.text, START, raw), out.order, values) ==
        Substituted(Elements(sql, START, raw), FirstValues(|out.order|), values)
  {
    var es, out := Elements(sql, START, raw), Lower(sql, l, raw);
    LowerIff(sql, l, raw);
    Rereads(sql, START, raw);
    if Bare in es {
      BareOrder(es, 0);
      BaredBare(es);
      assert out.order == FirstValues(|out.order|);
    } else {
      NumberedMeaning(l, es, 0, FirstValues(|out.order|), values);
    }
  }

  // ---- idempotence ---------------------------------------------------------------------------

  lemma {:induction false} BaredAgain(es: seq<Element>, k: nat)
    ensures BareText(Bared(es)) == BareText(es)
    ensures |Order(Bared(es), k)| == |Order(es, k)|
    ensures forall e :: e in Bared(es) ==> !e.Numbered?
    ensures Order(es, k) == [] ==> Bare !in Bared(es)
  {
    if es != [] {
      assert Bared(es)[1..] == Bared(es[1..]);
      BaredAgain(es[1..], if es[0].Verbatim? then k else k + 1);
      assert forall e :: e in Bared(es) ==> e == Bared(es)[0] || e in Bared(es[1..]);
    }
  }

  lemma {:induction false} NativeOnly(es: seq<Element>)
    requires forall e :: e in es ==> !e.Numbered?
    ensures StyleOf(es, NoStyle) == if Order(es, 0) == [] then NoStyle else NativeStyle
  {
    if es != [] {
      assert es[0] in es;
      if es[0].Verbatim? { NativeOnly(es[1..]); } else { StyleStays(es[1..], NativeStyle); }
    }
  }

  lemma BaredAcceptable(l: Limits, es: seq<Element>)
    requires Acceptable(l, es, NOTHING)
    ensures Acceptable(l, Bared(es), NOTHING)
    ensures Order(Bared(es), 0) == FirstValues(|Order(es, 0)|)
    ensures StyleOf(Bared(es), NoStyle) == if Order(es, 0) == [] then NoStyle else NativeStyle
  {
    var bs := Bared(es);
    BaredAgain(es, 0);
    NativeOnly(bs);
    BareOrder(bs, 0);
    if Order(es, 0) == [] { assert Bare !in bs; }
    assert Uniform(bs, StyleOf(bs, NoStyle));
    assert Order(bs, 0) == FirstValues(|Order(es, 0)|);
  }

  /** LOWERING IS IDEMPOTENT.  The lowered text lowers to itself, its placeholders bound 1..n. */
  lemma LoweringIsIdempotent(sql: string, l: Limits, raw: bool)
    requires Lower(sql, l, raw).Lowered?
    ensures
      var out := Lower(sql, l, raw);
      var style := if out.order == [] then NoStyle else NativeStyle;
      Lower(out.text, l, raw) == Lowered(out.text, FirstValues(|out.order|), style)
  {
    var es, text := Elements(sql, START, raw), Lower(sql, l, raw).text;
    LowerIff(sql, l, raw);
    Rereads(sql, START, raw);
    assert Elements(text, START, raw) == Bared(es) && EndMode(text, START, raw) == EndMode(sql, START, raw);
    BaredAcceptable(l, es);
    BaredAgain(es, 0);
    LowerIff(text, l, raw);
  }

  // ---- quotes and comments -------------------------------------------------------------------

  /** What may stand between two quotes `q`: doubled quotes, escape pairs where they exist, anything else. */
  predicate QuotedBody(s: string, q: char, escapes: bool) {
    s == "" ||
    if s[0] == q then |s| > 1 && s[1] == q && QuotedBody(s[2..], q, escapes)
    else if escapes && s[0] == '\\' then |s| > 1 && QuotedBody(s[2..], q, escapes)
    else QuotedBody(s[1..], q, escapes)
  }

  /** Copying the front of a stretch and then the rest of it copies the stretch. */
  lemma CopyExtends(body: string, close: string, rest: string, n: nat, m: Mode, raw: bool)
    requires 0 < n <= |body|
    requires Next(body + close + rest, m, raw) == Copy(n, m)
    requires LoweredText(body[n..] + close + rest, m, raw) == body[n..] + close + LoweredText(rest, m.(region := Code), raw)
    ensures LoweredText(body + close + rest, m, raw) == body + close + LoweredText(rest, m.(region := Code), raw)
  {
    BaredStep(body + close + rest, m, raw);
    Cut(body, close, rest, LoweredText(rest, m.(region := Code), raw), n);
  }

  lemma Cut(body: string, close: string, rest: string, after: string, n: nat)
    requires n <= |body|
    ensures (body + close + rest)[n..] == body[n..] + close + rest
    ensures (body + close + rest)[..n] + (body[n..] + close + after) == body + close + after
  {
    assert (body + close + rest)[..n] == body[..n];
    assert body[..n] + body[n..] == body;
  }

  lemma CopyCloses(close: string, rest: string, m: Mode, raw: bool)
    requires close != "" && Next(close + rest, m, raw) == Copy(|close|, m.(region := Code))
    ensures LoweredText("" + close + rest, m, raw) == "" + close + LoweredText(rest, m.(region := Code), raw)
  {
    var s := close + rest;
    BaredStep(s, m, raw);
    assert s[..|close|] == close && s[|close|..] == rest;
    assert "" + close + rest == s;
  }

  lemma QuotedTurn(body: string, rest: string, m: Mode, raw: bool) returns (n: nat)
    requires IsQuote(m.region) && body != ""
    requires QuotedBody(body, Terminator(m.region), !m.region.Backtick? && !raw)
    ensures 0 < n <= |body| && QuotedBody(body[n..], Terminator(m.region), !m.region.Backtick? && !raw)
    ensures Next(body + [Terminator(m.region)] + rest, m, raw) == Copy(n, m)
  {
    var q := Terminator(m.region);
    n := if body[0] == q || (body[0] == '\\' && !m.region.Backtick? && !raw) then 2 else 1;
  }

  /** A quoted string is copied byte for byte, and code resumes right after its closing quote. */
  lemma {:induction false} QuotedIsCopied(body: string, rest: string, m: Mode, raw: bool)
    requires IsQuote(m.region)
    requires QuotedBody(body, Terminator(m.region), !m.region.Backtick? && !raw)
    requires rest == "" || rest[0] != Terminator(m.region)
    ensures
      var s := body + [Terminator(m.region)] + rest;
      LoweredText(s, m, raw) == body + [Terminator(m.region)] + LoweredText(rest, m.(region := Code), raw)
    decreases |body|
  {
    var q := Terminator(m.region);
    if body == "" {
      CopyCloses([q], rest, m, raw);
    } else {
      var n := QuotedTurn(body, rest, m, raw);
      QuotedIsCopied(body[n..], rest, m, raw);
      CopyExtends(body, [q], rest, n, m, raw);
    }
  }

  lemma LineTurn(c: char, rest: string, m: Mode, raw: bool)
    requires m.region.LineComment?
    ensures LoweredText([c] + rest, m, raw) == [c] + LoweredText(rest, if c == '\n' || c == '\r' then m.(region := Code) else m, raw)
  {
    OpenCopied([c], rest, m, if c == '\n' || c == '\r' then m.(region := Code) else m, raw);
  }

  /** The rest of a line comment is copied up to the end of the line, or of the text. */
  lemma {:induction false} LineCommentIsCopied(body: string, rest: string, m: Mode, raw: bool)
    requires m.region.LineComment? && '\n' !in body && '\r' !in body
    requires rest == "" || rest[0] == '\n' || rest[0] == '\r'
    ensures LoweredText(body + rest, m, raw) == body + AfterLine(rest, m, raw)
    decreases |body|
  {
    if body == "" {
      assert body + rest == rest;
      if rest != "" {
        LineTurn(rest[0], rest[1..], m, raw);
        assert [rest[0]] + rest[1..] == rest && [rest[0]] == rest[..1];
      }
    } else {
      LineCommentIsCopied(body[1..], rest, m, raw);
      assert body[0] in body && [body[0]] + body[1..] == body && body + rest == [body[0]] + (body[1..] + rest);
      LineTurn(body[0], body[1..] + rest, m, raw);
      assert [body[0]] + (body[1..] + AfterLine(rest, m, raw)) == body + AfterLine(rest, m, raw);
    }
  }

  /** The end of the line, if there is one, and code after it. */
  function AfterLine(rest: string, m: Mode, raw: bool): string {
    if rest == "" then "" else rest[..1] + LoweredText(rest[1..], m.(region := Code), raw)
  }

  /** No comment end inside, also not across the closing one. */
  predicate NoStarSlash(s: string) {
    forall i :: 0 <= i < |s| - 1 ==> !(s[i] == '*' && s[i + 1] == '/')
  }

  lemma {:induction false} BlockCommentIsCopied(body: string, rest: string, m: Mode, raw: bool)
    requires m.region.BlockComment? && NoStarSlash(body)
    ensures LoweredText(body + "*/" + rest, m, raw) == body + "*/" + LoweredText(rest, m.(region := Code), raw)
    decreases |body|
  {
    if body == "" {
      CopyCloses("*/", rest, m, raw);
    } else {
      BlockCommentIsCopied(body[1..], rest, m, raw);
      assert |body| > 1 ==> (body + "*/" + rest)[1] == body[1];
      CopyExtends(body, "*/", rest, 1, m, raw);
    }
  }

  /** A copied opening followed by what the new mode makes of the rest. */
  lemma OpenCopied(open: string, s: string, m: Mode, after: Mode, raw: bool)
    requires open != "" && Next(open + s, m, raw) == Copy(|open|, after)
    ensures LoweredText(open + s, m, raw) == open + LoweredText(s, after, raw)
  {
    BaredStep(open + s, m, raw);
    assert (open + s)[..|open|] == open && (open + s)[|open|..] == s;
  }

  /** A whole quoted literal in code is copied, and code goes on after it. */
  lemma LiteralIsCopied(region: Region, body: string, rest: string, m: Mode, raw: bool)
    requires m.region.Code? && IsQuote(region) && QuotedBody(body, Terminator(region), !region.Backtick? && !raw)
    requires rest == "" || rest[0] != Terminator(region)
    ensures
      var q := Terminator(region);
      LoweredText([q] + (body + [q] + rest), m, raw) == [q] + (body + [q] + LoweredText(rest, m, raw))
  {
    var q := Terminator(region);
    OpenCopied([q], body + [q] + rest, m, m.(region := region), raw);
    QuotedIsCopied(body, rest, m.(region := region), raw);
    assert m.(region := region).(region := Code) == m;
  }

  /** So is a whole comment: from `#`, or from two dashes and white space, to the end of the line or of the text. */
  lemma CommentIsCopied(open: string, body: string, rest: string, m: Mode, raw: bool)
    requires m.region.Code? && '\n' !in body && '\r' !in body && (rest == "" || rest[0] == '\n' || rest[0] == '\r')
    requires open == "#" || (open == "--" && (body == "" || IsSpace(body[0])))
    ensures LoweredText(open + (body + rest), m, raw) == open + (body + AfterLine(rest, m, raw))
  {
    OpenCopied(open, body + rest, m, m.(region := LineComment), raw);
    LineCommentIsCopied(body, rest, m.(region := LineComment), raw);
    assert m.(region := LineComment).(region := Code) == m;
  }

  lemma BlockIsCopied(body: string, rest: string, m: Mode, raw: bool)
    requires m.region.Code? && NoStarSlash(body) && (body == "" || body[0] != '!')
    ensures LoweredText("/*" + (body + "*/" + rest), m, raw) == "/*" + (body + "*/" + LoweredText(rest, m, raw))
  {
    OpenCopied("/*", body + "*/" + rest, m, m.(region := BlockComment), raw);
    BlockCommentIsCopied(body, rest, m.(region := BlockComment), raw);
    assert m.(region := BlockComment).(region := Code) == m;
  }

  /** The text of an executable comment is code, up to the mark that closes it. */
  lemma ExecutableIsCode(s: string, m: Mode, raw: bool)
    requires m.region.Code?
    ensures LoweredText("/*!" + s, m, raw) == "/*!" + LoweredText(s, m.(executable := true), raw)
    ensures m.executable ==> LoweredText("*/" + s, m, raw) == "*/" + LoweredText(s, m.(executable := false), raw)
  {
    OpenCopied("/*!", s, m, m.(executable := true), raw);
    if m.executable { OpenCopied("*/", s, m, m.(executable := false), raw); }
  }

  /** In code a `?` is a placeholder, with all the digits that follow it; nowhere else, and nothing else, is. */
  lemma PlaceholdersInCode(s: string, m: Mode, raw: bool)
    requires s != ""
    ensures !Next(s, m, raw).Copy? <==> m.region.Code? && s[0] == '?'
    ensures Next(s, m, raw).Portable? ==>
              var n := |Next(s, m, raw).digits|;
              n > 0 && AllDigits(s[1..1 + n]) && (1 + n < |s| ==> !IsDigit(s[1 + n])) && Next(s, m, raw).digits == s[1..1 + n]
  {
    if Next(s, m, raw).Portable? {
      var n := LeadingDigits(s[1..]);
      assert s[1..][..n] == s[1..1 + n];
      if n < |s[1..]| { assert s[1..][n] == s[1 + n]; }
    }
  }
}
