/** The scanner that finds the instruction statements of comment-free PTX. */
module PtxScan {
  import opened Wrappers
  import opened PtxText
  import opened PtxLex

  datatype Statement = Idle | Instruction | Directive(line: bool)

  /** Outside every function body, or inside one at some brace depth with a statement pending or not. */
  datatype Mode = Module(awaiting: bool) | Body(depth: nat, stmt: Statement)

  datatype Span = Span(start: nat, end: nat)

  const START := Module(false)

  /** Directives that end at a newline rather than at a semicolon. */
  predicate EndsAtNewline(head: string) {
    head == ".loc" || head == ".file" || head == ".section"
  }

  predicate OpensFunction(t: string) {
    t == ".entry" || t == ".func"
  }

  predicate IsColon(t: string) {
    t == ":"
  }

  predicate OpensScope(t: string) {
    t == "{"
  }

  predicate ClosesScope(t: string) {
    t == "}"
  }

  function Head(x: Stream): string {
    if x.Cons? then x.tok else ""
  }

  /** Whether token `t`, seen before token `next`, starts a statement. */
  predicate Begins(m: Mode, t: string, next: string) {
    m.Body? && m.stmt.Idle? && !IsColon(next) && !IsColon(t) && !OpensScope(t) && !ClosesScope(t)
  }

  predicate IsDirective(t: string) {
    t != "" && t[0] == '.'
  }

  /** The statement that token `t` is part of. */
  function Current(m: Mode, t: string, next: string): Statement {
    if Begins(m, t, next) then
      if IsDirective(t) then Directive(EndsAtNewline(t)) else Instruction
    else if m.Body? then m.stmt
    else Idle
  }

  /** The mode after token `t`; `newline` says whether a newline separates it from what follows. */
  function Step(m: Mode, t: string, next: string, newline: bool): Mode {
    match m
    case Module(awaiting) =>
      if OpensFunction(t) then Module(true)
      else if t == ";" then Module(false)
      else if awaiting && OpensScope(t) then Body(1, Idle)
      else m
    case Body(depth, _) =>
      var s := Current(m, t, next);
      if s.Idle? then
        if IsColon(next) || IsColon(t) then m
        else if OpensScope(t) then Body(depth + 1, Idle)
        else if depth <= 1 then Module(false)
        else Body(depth - 1, Idle)
      else if t == ";" || (s == Directive(true) && newline) then Body(depth, Idle)
      else Body(depth, s)
  }

  function After(m: Mode, x: Stream): Mode
    requires x.Cons?
  {
    Step(m, x.tok, Head(x.rest), '\n' in x.rest.gap)
  }

  // ----- instructions of a stream -----

  predicate HasSemi(x: Stream) {
    x.Cons? && (x.tok == ";" || HasSemi(x.rest))
  }

  /** The text from the first token through the first semicolon token. */
  function UpToSemi(x: Stream): (s: string)
    requires HasSemi(x)
    ensures s != ""
  {
    if x.tok == ";" then x.tok else
      var s := x.tok + x.rest.gap + UpToSemi(x.rest);
      assert s[|s| - 1] == UpToSemi(x.rest)[|UpToSemi(x.rest)| - 1];
      s
  }

  /** The stream after the first semicolon token. */
  function PastSemi(x: Stream): (y: Stream)
    requires HasSemi(x)
    ensures Size(y) < Size(x)
  {
    if x.tok == ";" then x.rest else PastSemi(x.rest)
  }

  function Size(x: Stream): nat {
    if x.End? then 0 else 1 + Size(x.rest)
  }

  /** A completed instruction starts with the first token of `x`. */
  predicate StartsInstruction(m: Mode, x: Stream) {
    HasSemi(x) && Begins(m, x.tok, Head(x.rest)) && !IsDirective(x.tok)
  }

  lemma StartFacts(m: Mode, x: Stream)
    requires StartsInstruction(m, x)
    ensures x.Cons? && HasSemi(x) && m.Body? && m.stmt == Idle && !IsColon(x.tok)
  {
  }

  /** The spans of the completed instructions of `x`, a stream that starts at position `pos` of the source. */
  function Spans(m: Mode, x: Stream, pos: nat): seq<Span>
    decreases x
  {
    if x.End? then []
    else
      (if StartsInstruction(m, x) then [Span(pos + |x.gap|, pos + |x.gap| + |UpToSemi(x)|)] else [])
      + Spans(After(m, x), x.rest, pos + |x.gap| + |x.tok|)
  }

  function InstructionTexts(m: Mode, x: Stream): seq<string>
    decreases x
  {
    if x.End? then []
    else (if StartsInstruction(m, x) then [UpToSemi(x)] else []) + InstructionTexts(After(m, x), x.rest)
  }

  /** The tokens through the first semicolon. */
  function TokensToSemi(x: Stream): seq<string>
    requires HasSemi(x)
  {
    if x.tok == ";" then [x.tok] else [x.tok] + TokensToSemi(x.rest)
  }

  function InstructionTokens(m: Mode, x: Stream): seq<seq<string>>
    decreases x
  {
    if x.End? then []
    else (if StartsInstruction(m, x) then [TokensToSemi(x)] else []) + InstructionTokens(After(m, x), x.rest)
  }

  /** The instruction spans of a comment-free source. */
  function SourceSpans(source: string): seq<Span> {
    Spans(START, Lex(source), 0)
  }

  /** Python's `source[a:b]`. */
  function Slice(source: string, a: nat, b: nat): string {
    var hi := if b <= |source| then b else |source|;
    if a < hi then source[a..hi] else ""
  }

  function Slices(source: string, spans: seq<Span>): seq<string> {
    seq(|spans|, i requires 0 <= i < |spans| => Slice(source, spans[i].start, spans[i].end))
  }

  lemma {:induction false} CutAtSemi(x: Stream)
    requires HasSemi(x)
    ensures Text(x) == x.gap + UpToSemi(x) + Text(PastSemi(x))
  {
    if x.tok != ";" {
      CutAtSemi(x.rest);
    }
  }

  /** Spans in order: each is not empty, lies in the stream, and ends before the next starts. */
  ghost predicate Ordered(spans: seq<Span>, lo: nat, hi: nat) {
    && (forall s | s in spans :: lo <= s.start < s.end <= hi)
    && (forall i, j | 0 <= i < j < |spans| :: spans[i].end <= spans[j].start)
  }

  /** Inside a pending instruction nothing happens until its semicolon. */
  lemma {:induction false} SpansPastSemi(m: Mode, x: Stream, pos: nat)
    requires HasSemi(x) && m.Body? && m.stmt == Instruction
    ensures Spans(m, x, pos) == Spans(m.(stmt := Idle), PastSemi(x), pos + |x.gap| + |UpToSemi(x)|)
  {
    if x.tok != ";" {
      SpansPastSemi(m, x.rest, pos + |x.gap| + |x.tok|);
    }
  }

  lemma StartThenRest(m: Mode, x: Stream, pos: nat)
    requires StartsInstruction(m, x)
    ensures var end := pos + |x.gap| + |UpToSemi(x)|;
            Spans(m, x, pos) == [Span(pos + |x.gap|, end)] + Spans(m, PastSemi(x), end)
  {
    if x.tok != ";" {
      SpansPastSemi(After(m, x), x.rest, pos + |x.gap| + |x.tok|);
    }
  }

  lemma SpansSkip(m: Mode, x: Stream, pos: nat)
    requires x.Cons? && !StartsInstruction(m, x)
    ensures Spans(m, x, pos) == Spans(After(m, x), x.rest, pos + |x.gap| + |x.tok|)
    ensures InstructionTexts(m, x) == InstructionTexts(After(m, x), x.rest)
  {
    hide Step, StartsInstruction;
  }

  lemma SpansTake(m: Mode, x: Stream, pos: nat)
    requires StartsInstruction(m, x)
    ensures Spans(m, x, pos) == [Span(pos + |x.gap|, pos + |x.gap| + |UpToSemi(x)|)]
                                + Spans(After(m, x), x.rest, pos + |x.gap| + |x.tok|)
    ensures InstructionTexts(m, x) == [UpToSemi(x)] + InstructionTexts(After(m, x), x.rest)
  {
  }

  lemma TextLength(x: Stream)
    requires x.Cons?
    ensures |Text(x)| == |x.gap| + |x.tok| + |Text(x.rest)|
  {
  }

  lemma OrderedFrom(spans: seq<Span>, lo: nat, less: nat, hi: nat)
    requires less <= lo && Ordered(spans, lo, hi)
    ensures Ordered(spans, less, hi)
  {
  }

  lemma OrderedCons(s: Span, spans: seq<Span>, lo: nat, hi: nat)
    requires lo <= s.start < s.end <= hi && Ordered(spans, s.end, hi)
    ensures Ordered([s] + spans, lo, hi)
  {
  }

  lemma {:induction false} SpansOrdered(m: Mode, x: Stream, pos: nat)
    ensures Ordered(Spans(m, x, pos), pos, pos + |Text(x)|)
    decreases Size(x)
  {
    hide Spans, Step, Begins, Text, Ordered;
    if StartsInstruction(m, x) {
      var end := pos + |x.gap| + |UpToSemi(x)|;
      StartThenRest(m, x, pos);
      CutAtSemi(x);
      SpansOrdered(m, PastSemi(x), end);
      OrderedCons(Span(pos + |x.gap|, end), Spans(m, PastSemi(x), end), pos, pos + |Text(x)|);
    } else if x.Cons? {
      var end := pos + |x.gap| + |x.tok|;
      SpansSkip(m, x, pos);
      TextLength(x);
      SpansOrdered(After(m, x), x.rest, end);
      OrderedFrom(Spans(After(m, x), x.rest, end), end, pos, pos + |Text(x)|);
    } else {
      NoSpans(m, x, pos);
    }
  }

  lemma NoSpans(m: Mode, x: Stream, pos: nat)
    requires x.End?
    ensures Ordered(Spans(m, x, pos), pos, pos + |Text(x)|)
  {
  }

  lemma SlicesCons(source: string, s: Span, spans: seq<Span>)
    ensures Slices(source, [s] + spans) == [Slice(source, s.start, s.end)] + Slices(source, spans)
  {
  }

  lemma Descend(source: string, x: Stream, pos: nat)
    requires x.Cons? && pos <= |source| && source[pos..] == Text(x)
    ensures var end := pos + |x.gap| + |x.tok|; end <= |source| && source[end..] == Text(x.rest)
  {
    assert Text(x) == x.gap + x.tok + Text(x.rest);
    assert source[pos..][|x.gap| + |x.tok|..] == source[pos + |x.gap| + |x.tok|..];
  }

  lemma SliceSplit(source: string, a: nat, b: nat, c: nat)
    requires a <= b <= c <= |source|
    ensures Slice(source, a, c) == Slice(source, a, b) + Slice(source, b, c)
  {
  }

  lemma SliceHead(source: string, x: Stream, pos: nat)
    requires x.Cons? && pos <= |source| && source[pos..] == Text(x)
    ensures var end := pos + |x.gap| + |x.tok|; end <= |source| && Slice(source, pos, end) == x.gap + x.tok
    ensures Slice(source, pos, pos + |x.gap|) == x.gap
  {
    var g, t := x.gap, x.tok;
    assert Text(x) == g + t + Text(x.rest);
    assert source[pos..][..|g| + |t|] == g + t;
    assert source[pos..][..|g|] == g;
    assert source[pos..pos + |g| + |t|] == source[pos..][..|g| + |t|];
    assert source[pos..pos + |g|] == source[pos..][..|g|];
  }

  lemma CutInstruction(source: string, x: Stream, pos: nat)
    requires HasSemi(x) && pos <= |source| && source[pos..] == Text(x)
    ensures Slice(source, pos + |x.gap|, pos + |x.gap| + |UpToSemi(x)|) == UpToSemi(x)
    ensures var end := pos + |x.gap| + |UpToSemi(x)|; end <= |source| && source[end..] == Text(PastSemi(x))
  {
    hide Text, UpToSemi, HasSemi, PastSemi;
    CutAtSemi(x);
    var g, u := |x.gap|, |UpToSemi(x)|;
    assert source[pos..][g..g + u] == UpToSemi(x);
    assert source[pos + g..pos + g + u] == source[pos..][g..g + u];
    assert source[pos + g + u..] == source[pos..][g + u..];
  }

  /** The span positions cut the instruction texts out of the source. */
  lemma {:induction false} SpansCutTexts(m: Mode, x: Stream, source: string, pos: nat)
    requires pos <= |source| && source[pos..] == Text(x)
    ensures Slices(source, Spans(m, x, pos)) == InstructionTexts(m, x)
    decreases x
  {
    if x.Cons? {
      hide Step, Begins, Spans, InstructionTexts, Slice, Slices;
      var end := pos + |x.gap| + |x.tok|;
      Descend(source, x, pos);
      SpansCutTexts(After(m, x), x.rest, source, end);
      if StartsInstruction(m, x) {
        SpansTake(m, x, pos);
        CutInstruction(source, x, pos);
        SlicesCons(source, Span(pos + |x.gap|, pos + |x.gap| + |UpToSemi(x)|), Spans(After(m, x), x.rest, end));
      } else {
        SpansSkip(m, x, pos);
      }
    }
  }

  /** The texts the scanner's caller sees: the slices of the source at its spans. */
  lemma SourceTexts(source: string)
    ensures var spans := SourceSpans(source);
            && Ordered(spans, 0, |source|)
            && Slices(source, spans) == InstructionTexts(START, Lex(source))
  {
    hide Lex, Spans, InstructionTexts, Slices, WellFormed, Text;
    LexIsWellFormed(source);
    SpansOrdered(START, Lex(source), 0);
    SpansCutTexts(START, Lex(source), source, 0);
  }

  // ----- every token has one role -----

  datatype Role = Outside | Label | Scope | InDirective | InInstruction | Unfinished

  function RoleOf(m: Mode, x: Stream): Role
    requires x.Cons?
  {
    match Current(m, x.tok, Head(x.rest))
    case Idle =>
      if m.Module? then Outside
      else if IsColon(Head(x.rest)) || IsColon(x.tok) then Label
      else Scope
    case Directive(_) => InDirective
    case Instruction => if HasSemi(x) then InInstruction else Unfinished
  }

  datatype Token = Token(start: nat, value: string) {
    function End(): nat { start + |value| }
  }

  function TokensAt(x: Stream, pos: nat): seq<Token>
    decreases x
  {
    if x.End? then []
    else [Token(pos + |x.gap|, x.tok)] + TokensAt(x.rest, pos + |x.gap| + |x.tok|)
  }

  function Roles(m: Mode, x: Stream): (r: seq<Role>)
    decreases x
  {
    if x.End? then [] else [RoleOf(m, x)] + Roles(After(m, x), x.rest)
  }

  lemma {:induction false} OneRoleEach(m: Mode, x: Stream, pos: nat)
    ensures |Roles(m, x)| == |TokensAt(x, pos)|
    decreases x
  {
    if x.Cons? {
      OneRoleEach(After(m, x), x.rest, pos + |x.gap| + |x.tok|);
    }
  }

  ghost predicate InSome(spans: seq<Span>, p: nat) {
    exists s | s in spans :: s.start <= p < s.end
  }

  /** Position `p` is in a span of `x`, or in the instruction that was pending before `x`. */
  ghost predicate Covered(m: Mode, x: Stream, pos: nat, p: nat) {
    || (m.Body? && m.stmt == Instruction && HasSemi(x) && p < pos + |x.gap| + |UpToSemi(x)|)
    || InSome(Spans(m, x, pos), p)
  }

  lemma CoveredLater(m: Mode, x: Stream, pos: nat, p: nat)
    requires x.Cons? && pos + |x.gap| + |x.tok| <= p
    ensures Covered(m, x, pos, p) <==> Covered(After(m, x), x.rest, pos + |x.gap| + |x.tok|, p)
  {
    var spans := Spans(After(m, x), x.rest, pos + |x.gap| + |x.tok|);
    if StartsInstruction(m, x) {
      var s := Span(pos + |x.gap|, pos + |x.gap| + |UpToSemi(x)|);
      assert Spans(m, x, pos) == [s] + spans;
      assert InSome([s] + spans, p) <==> p < s.end || InSome(spans, p) by {
        assert s in [s] + spans;
        assert forall z :: z in [s] + spans <==> z == s || z in spans;
      }
    } else {
      assert Spans(m, x, pos) == spans;
    }
  }

  lemma CoveredHead(m: Mode, x: Stream, pos: nat)
    requires x.Cons? && x.tok != ""
    ensures Covered(m, x, pos, pos + |x.gap|) <==> RoleOf(m, x) == InInstruction
  {
    var p := pos + |x.gap|;
    var spans := Spans(After(m, x), x.rest, p + |x.tok|);
    SpansOrdered(After(m, x), x.rest, p + |x.tok|);
    assert !InSome(spans, p);
    if StartsInstruction(m, x) {
      var s := Span(p, p + |UpToSemi(x)|);
      assert s in Spans(m, x, pos) && s.start <= p < s.end;
    } else {
      assert Spans(m, x, pos) == spans;
    }
  }

  lemma {:induction false} TokenAfter(x: Stream, pos: nat, k: nat)
    requires k < |TokensAt(x, pos)|
    ensures TokensAt(x, pos)[k].start >= pos
  {
    if k > 0 {
      TokenAfter(x.rest, pos + |x.gap| + |x.tok|, k - 1);
    }
  }

  /** The head of the token and role lists, and their later entries. */
  lemma Lists(m: Mode, x: Stream, pos: nat)
    requires x.Cons?
    ensures var pos' := pos + |x.gap| + |x.tok|;
            && TokensAt(x, pos) == [Token(pos + |x.gap|, x.tok)] + TokensAt(x.rest, pos')
            && Roles(m, x) == [RoleOf(m, x)] + Roles(After(m, x), x.rest)
  {
  }

  lemma MoreTokens(x: Stream, pos: nat)
    ensures x.End? <==> TokensAt(x, pos) == []
  {
  }

  lemma WellFormedHead(x: Stream)
    requires WellFormed(x) && x.Cons?
    ensures WellFormed(x.rest) && x.tok != ""
  {
  }

  lemma {:induction false} RoleClassified(m: Mode, x: Stream, pos: nat, k: nat)
    requires WellFormed(x) && x.Cons? && k < |TokensAt(x, pos)|
    ensures k < |Roles(m, x)|
    ensures Roles(m, x)[k] == InInstruction <==> Covered(m, x, pos, TokensAt(x, pos)[k].start)
    decreases k
  {
    hide Covered, Roles, TokensAt, Step, RoleOf, WellFormed;
    var pos' := pos + |x.gap| + |x.tok|;
    WellFormedHead(x);
    Lists(m, x, pos);
    if k == 0 {
      CoveredHead(m, x, pos);
    } else {
      MoreTokens(x.rest, pos');
      TokenAfter(x.rest, pos', k - 1);
      RoleClassified(After(m, x), x.rest, pos', k - 1);
      CoveredLater(m, x, pos, TokensAt(x.rest, pos')[k - 1].start);
    }
  }

  lemma {:induction false} PendingToTheEnd(m: Mode, x: Stream, k: nat)
    requires m.Body? && m.stmt == Instruction && !HasSemi(x) && k < |Roles(m, x)|
    ensures Roles(m, x)[k] == Unfinished
    decreases k
  {
    if k > 0 {
      PendingToTheEnd(After(m, x), x.rest, k - 1);
    }
  }

  lemma {:induction false} UnfinishedIsLast(m: Mode, x: Stream, i: nat, j: nat)
    requires i < j < |Roles(m, x)| && Roles(m, x)[i] == Unfinished
    ensures Roles(m, x)[j] == Unfinished
    decreases i
  {
    if i == 0 {
      PendingToTheEnd(After(m, x), x.rest, j - 1);
    } else {
      UnfinishedIsLast(After(m, x), x.rest, i - 1, j - 1);
    }
  }

  // ----- directives -----

  function TokAt(x: Stream, k: nat): string {
    Head(Drop(x, k))
  }

  /** A directive that the `i`-th token begins ends with the `j`-th: a semicolon, or the last token of the line for some. */
  predicate EndsDirective(x: Stream, i: nat, j: nat) {
    TokAt(x, j) == ";" || (EndsAtNewline(TokAt(x, i)) && '\n' in Drop(x, j + 1).gap)
  }

  /** The `i`-th token begins a directive, with a dot, and no token from it to before the `k`-th ends it. */
  predicate DirectiveRun(m: Mode, x: Stream, i: nat, k: nat) {
    && i <= k
    && Begins(ModeAt(m, x, i), TokAt(x, i), TokAt(x, i + 1)) && IsDirective(TokAt(x, i))
    && forall j | i <= j < k :: !EndsDirective(x, i, j)
  }

  lemma {:induction false} DropNext(m: Mode, x: Stream, k: nat)
    requires Drop(x, k).Cons?
    ensures Drop(x, k + 1) == Drop(x, k).rest && ModeAt(m, x, k + 1) == After(ModeAt(m, x, k), Drop(x, k))
    ensures k > 0 ==> Drop(x, k - 1).Cons?
    decreases k
  {
    hide Step;
    if k > 0 {
      DropNext(After(m, x), x.rest, k - 1);
    }
  }

  /** A pending directive stays pending through a token that does not end it, and not through one that does. */
  lemma DirectiveStep(m: Mode, y: Stream, line: bool)
    requires y.Cons? && Current(m, y.tok, Head(y.rest)) == Directive(line)
    ensures After(m, y).Body?
    ensures After(m, y).stmt == if y.tok == ";" || (line && '\n' in y.rest.gap) then Idle else Directive(line)
  {
  }

  lemma DirectiveGoesOn(m: Mode, t: string, next: string)
    requires m.Body? && m.stmt != Idle
    ensures Current(m, t, next) == m.stmt
  {
  }

  lemma {:induction false} RunIsDirective(m: Mode, x: Stream, i: nat, k: nat)
    requires DirectiveRun(m, x, i, k) && Drop(x, k).Cons?
    ensures Current(ModeAt(m, x, k), TokAt(x, k), TokAt(x, k + 1)) == Directive(EndsAtNewline(TokAt(x, i)))
    decreases k
  {
    hide Step, ModeAt, Drop, EndsAtNewline;
    DropNext(m, x, k);
    if i < k {
      DropNext(m, x, k - 1);
      RunIsDirective(m, x, i, k - 1);
      assert !EndsDirective(x, i, k - 1);
      DirectiveStep(ModeAt(m, x, k - 1), Drop(x, k - 1), EndsAtNewline(TokAt(x, i)));
      DirectiveGoesOn(ModeAt(m, x, k), TokAt(x, k), TokAt(x, k + 1));
    }
  }

  /** What a token that goes on a directive says about the token before it. */
  lemma DirectiveCame(m: Mode, y: Stream, line: bool)
    requires y.Cons? && After(m, y).Body? && After(m, y).stmt == Directive(line)
    ensures Current(m, y.tok, Head(y.rest)) == Directive(line)
    ensures y.tok != ";" && !(line && '\n' in y.rest.gap)
  {
  }

  lemma NotBegun(m: Mode, t: string, next: string, line: bool)
    requires Current(m, t, next) == Directive(line)
    ensures Begins(m, t, next) ==> IsDirective(t) && line == EndsAtNewline(t)
    ensures !Begins(m, t, next) ==> m.Body? && m.stmt == Directive(line)
  {
  }

  lemma {:induction false} DirectiveHasRun(m: Mode, x: Stream, k: nat, line: bool) returns (i: nat)
    requires m.Module? && Drop(x, k).Cons?
    requires Current(ModeAt(m, x, k), TokAt(x, k), TokAt(x, k + 1)) == Directive(line)
    ensures DirectiveRun(m, x, i, k) && line == EndsAtNewline(TokAt(x, i))
    decreases k
  {
    hide Step, Drop, EndsAtNewline, Current;
    DropNext(m, x, k);
    NotBegun(ModeAt(m, x, k), TokAt(x, k), TokAt(x, k + 1), line);
    i := k;
    if !Begins(ModeAt(m, x, k), TokAt(x, k), TokAt(x, k + 1)) {
      assert k > 0;
      DropNext(m, x, k - 1);
      DirectiveCame(ModeAt(m, x, k - 1), Drop(x, k - 1), line);
      i := DirectiveHasRun(m, x, k - 1, line);
    }
  }

  /** A directive goes on until the first token that ends it, and the next token is in no statement. */
  lemma DirectiveEnds(m: Mode, x: Stream, i: nat, k: nat)
    requires DirectiveRun(m, x, i, k) && Drop(x, k).Cons?
    ensures ModeAt(m, x, k + 1).Body?
    ensures ModeAt(m, x, k + 1).stmt == Idle <==> EndsDirective(x, i, k)
  {
    hide Step, ModeAt, Drop, EndsAtNewline, DirectiveRun;
    RunIsDirective(m, x, i, k);
    DropNext(m, x, k);
    DirectiveStep(ModeAt(m, x, k), Drop(x, k), EndsAtNewline(TokAt(x, i)));
  }

  lemma RoleIsDirective(m: Mode, y: Stream)
    requires y.Cons?
    ensures RoleOf(m, y) == InDirective <==> Current(m, y.tok, Head(y.rest)).Directive?
  {
  }

  ghost predicate InRun(m: Mode, x: Stream, k: nat) {
    exists i: nat :: DirectiveRun(m, x, i, k)
  }

  lemma DirectiveClassified(m: Mode, x: Stream, pos: nat, k: nat)
    requires m.Module? && k < |TokensAt(x, pos)|
    ensures k < |Roles(m, x)| && (Roles(m, x)[k] == InDirective <==> InRun(m, x, k))
  {
    hide Step, ModeAt, Drop, TokensAt, Roles, RoleOf, Current, DirectiveRun;
    TokenOf(m, x, pos, k);
    DropNext(m, x, k);
    var y := Drop(x, k);
    RoleIsDirective(ModeAt(m, x, k), y);
    if Roles(m, x)[k] == InDirective {
      var i := DirectiveHasRun(m, x, k, Current(ModeAt(m, x, k), y.tok, Head(y.rest)).line);
    }
    if InRun(m, x, k) {
      var i: nat :| DirectiveRun(m, x, i, k);
      RunIsDirective(m, x, i, k);
    }
  }

  /**
   Every token of the source has one role. It is an instruction token exactly when it stands in a span, and a
   directive token exactly when a token with a dot has begun a directive at or before it that no token between has
   ended. An instruction that never meets its semicolon takes all remaining tokens.
   */
  lemma RolesClassify(source: string)
    ensures var toks, roles := TokensAt(Lex(source), 0), Roles(START, Lex(source));
            && |roles| == |toks|
            && (forall k | 0 <= k < |toks| ::
                  roles[k] == InInstruction <==> InSome(SourceSpans(source), toks[k].start))
            && (forall k: nat | k < |toks| :: roles[k] == InDirective <==> InRun(START, Lex(source), k))
            && (forall i, j | 0 <= i < j < |roles| :: roles[i] == Unfinished ==> roles[j] == Unfinished)
  {
    hide Lex, Roles, TokensAt, Spans, InRun, InSome, WellFormed;
    var x := Lex(source);
    LexIsWellFormed(source);
    OneRoleEach(START, x, 0);
    MoreTokens(x, 0);
    forall k: nat | k < |TokensAt(x, 0)|
      ensures Roles(START, x)[k] == InInstruction <==> InSome(SourceSpans(source), TokensAt(x, 0)[k].start)
      ensures Roles(START, x)[k] == InDirective <==> InRun(START, x, k)
    {
      RoleClassified(START, x, 0, k);
      NothingPending(x, 0, TokensAt(x, 0)[k].start);
      DirectiveClassified(START, x, 0, k);
    }
    forall i: nat, j: nat | i < j < |Roles(START, x)| && Roles(START, x)[i] == Unfinished
      ensures Roles(START, x)[j] == Unfinished
    {
      UnfinishedIsLast(START, x, i, j);
    }
  }

  lemma NothingPending(x: Stream, pos: nat, p: nat)
    ensures Covered(START, x, pos, p) <==> InSome(Spans(START, x, pos), p)
  {
  }

  // ----- tokens in place -----

  lemma {:induction false} TokensOrdered(x: Stream, pos: nat, i: nat, j: nat)
    requires i < j < |TokensAt(x, pos)|
    ensures TokensAt(x, pos)[i].End() <= TokensAt(x, pos)[j].start
    decreases i
  {
    var end := pos + |x.gap| + |x.tok|;
    if i == 0 {
      TokenAfter(x.rest, end, j - 1);
    } else {
      TokensOrdered(x.rest, end, i - 1, j - 1);
    }
  }

  /** A token is not empty, lies in the source, and ends in a character that is not white space. */
  lemma {:induction false} TokenInPlace(x: Stream, source: string, pos: nat, k: nat)
    requires WellFormed(x) && pos <= |source| && source[pos..] == Text(x) && k < |TokensAt(x, pos)|
    ensures var t := TokensAt(x, pos)[k]; t.start < t.End() <= |source| && !IsSpace(source[t.End() - 1])
    decreases k
  {
    hide Text, WellFormed;
    WellFormedHead(x);
    Descend(source, x, pos);
    if k == 0 {
      TokenInk(x);
      SliceHead(source, x, pos);
      var end := pos + |x.gap| + |x.tok|;
      assert Slice(source, pos, end)[|x.gap| + |x.tok| - 1] == source[end - 1];
    } else {
      TokenInPlace(x.rest, source, pos + |x.gap| + |x.tok|, k - 1);
    }
  }

  lemma TokenInk(x: Stream)
    requires WellFormed(x) && x.Cons?
    ensures x.tok != "" && !IsSpace(x.tok[|x.tok| - 1])
  {
    TokenShape(x.tok, Text(x.rest));
    if x.tok != "\"" {
      TokenEndsInk(x.tok);
    }
  }

  /** Position `p` splits no token. */
  ghost predicate BetweenTokens(toks: seq<Token>, p: nat) {
    forall k | 0 <= k < |toks| :: !(toks[k].start < p < toks[k].End())
  }

  lemma InkBeforeSpace(source: string, p: nat, start: nat, last: nat)
    requires p <= start <= |source| && last < start && AllSpace(source[p..start]) && !IsSpace(source[last])
    ensures last < p
  {
    hide IsSpace;
    forall i | p <= i < start ensures IsSpace(source[i]) {
      assert source[p..start][i - p] == source[i];
    }
  }

  /** A position with only white space between it and a token splits no token. */
  lemma SpaceSplitsNone(source: string, p: nat, i: nat)
    requires i < |TokensAt(Lex(source), 0)|
    requires p <= TokensAt(Lex(source), 0)[i].start <= |source|
    requires AllSpace(source[p..TokensAt(Lex(source), 0)[i].start])
    ensures BetweenTokens(TokensAt(Lex(source), 0), p)
  {
    hide Lex, TokensAt, WellFormed, Text, IsSpace;
    var x := Lex(source);
    var toks := TokensAt(x, 0);
    LexIsWellFormed(source);
    assert source[0..] == source;
    forall k: nat | k < |toks| ensures !(toks[k].start < p < toks[k].End()) {
      TokenInPlace(x, source, 0, k);
      if k < i {
        TokensOrdered(x, 0, k, i);
        InkBeforeSpace(source, p, toks[i].start, toks[k].End() - 1);
      } else if i < k {
        TokensOrdered(x, 0, i, k);
        TokenInPlace(x, source, 0, i);
      }
    }
  }

  /** The span `s` covers the tokens i..j: it opens with a token that is no directive and closes with the first semicolon. */
  ghost predicate Delimits(toks: seq<Token>, s: Span, i: nat, j: nat) {
    && i <= j < |toks|
    && toks[i].start == s.start && !IsDirective(toks[i].value)
    && toks[j].End() == s.end && toks[j].value == ";"
    && (forall k | i <= k < j :: toks[k].value != ";")
  }

  ghost predicate Delimited(toks: seq<Token>, s: Span) {
    exists i: nat, j: nat :: Delimits(toks, s, i, j)
  }

  lemma {:induction false} SemiAt(x: Stream, pos: nat) returns (j: nat)
    requires HasSemi(x)
    ensures var toks := TokensAt(x, pos);
            && j < |toks| && toks[j].End() == pos + |x.gap| + |UpToSemi(x)| && toks[j].value == ";"
            && (forall k | 0 <= k < j :: toks[k].value != ";")
  {
    j := 0;
    if x.tok != ";" {
      var i := SemiAt(x.rest, pos + |x.gap| + |x.tok|);
      j := i + 1;
    }
  }

  lemma {:induction false} SpansDelimited(m: Mode, x: Stream, pos: nat)
    ensures forall s | s in Spans(m, x, pos) :: Delimited(TokensAt(x, pos), s)
    decreases x
  {
    if x.Cons? {
      var pos' := pos + |x.gap| + |x.tok|;
      var toks, toks' := TokensAt(x, pos), TokensAt(x.rest, pos');
      SpansDelimited(After(m, x), x.rest, pos');
      forall s | s in Spans(m, x, pos) ensures Delimited(toks, s) {
        if s in Spans(After(m, x), x.rest, pos') {
          var i: nat, j: nat :| Delimits(toks', s, i, j);
          assert Delimits(toks, s, i + 1, j + 1);
        } else {
          var j := SemiAt(x, pos);
          assert Delimits(toks, s, 0, j);
        }
      }
    }
  }

  /** The spans of a source: in order, disjoint, each from a non-directive token to the first semicolon after it. */
  lemma SourceSpansDelimited(source: string)
    ensures Ordered(SourceSpans(source), 0, |source|)
    ensures forall s | s in SourceSpans(source) :: Delimited(TokensAt(Lex(source), 0), s)
  {
    SourceTexts(source);
    SpansDelimited(START, Lex(source), 0);
  }

  // ----- the depth counts the scope braces -----

  /** The stream from the `k`-th token on. */
  function Drop(x: Stream, k: nat): Stream {
    if k == 0 || x.End? then x else Drop(x.rest, k - 1)
  }

  /** The mode in which the `k`-th token is met. */
  function ModeAt(m: Mode, x: Stream, k: nat): Mode
    decreases k
  {
    if k == 0 || x.End? then m else ModeAt(After(m, x), x.rest, k - 1)
  }

  lemma {:induction false} TokenOf(m: Mode, x: Stream, pos: nat, k: nat)
    requires k < |TokensAt(x, pos)|
    ensures var y := Drop(x, k);
            && y.Cons? && |Roles(m, x)| == |TokensAt(x, pos)|
            && TokensAt(x, pos)[k].value == y.tok
            && Roles(m, x)[k] == RoleOf(ModeAt(m, x, k), y)
            && ModeAt(m, x, k + 1) == After(ModeAt(m, x, k), y)
    decreases k
  {
    hide Step, RoleOf;
    OneRoleEach(m, x, pos);
    Lists(m, x, pos);
    if k > 0 {
      TokenOf(After(m, x), x.rest, pos + |x.gap| + |x.tok|, k - 1);
    }
  }

  /** Opening minus closing braces among the tokens from the `i`-th to before the `k`-th, those of scopes only. */
  function ScopeBalance(toks: seq<Token>, roles: seq<Role>, i: nat, k: nat): int
    requires k <= |toks| == |roles|
    decreases k
  {
    if k <= i then 0
    else
      ScopeBalance(toks, roles, i, k - 1)
      + if roles[k - 1] != Scope then 0 else if toks[k - 1].value == "{" then 1 else -1
  }

  /** What a token does to the depth: only a brace of a scope counts. */
  lemma ScopeStep(m: Mode, y: Stream)
    requires m.Body? && m.depth >= 1 && y.Cons?
    ensures var change := if RoleOf(m, y) != Scope then 0 else if y.tok == "{" then 1 else -1;
            if m.depth + change == 0 then After(m, y).Module?
            else After(m, y).Body? && After(m, y).depth == m.depth + change
  {
  }

  /**
   In the function body that the `i`-th token opens, the depth at any token is 1 plus the opening minus the
   closing scope braces since then, whatever braces statements hold; and the body ends with the brace that
   closes the first.
   */
  lemma {:induction false} DepthCountsScopes(source: string, i: nat, k: nat)
    requires i < k < |TokensAt(Lex(source), 0)|
    requires ModeAt(START, Lex(source), i).Module?
    requires forall j: nat | i < j <= k :: ModeAt(START, Lex(source), j).Body?
    ensures |Roles(START, Lex(source))| == |TokensAt(Lex(source), 0)|
    ensures var x := Lex(source);
            var toks, roles := TokensAt(x, 0), Roles(START, x);
            && toks[i].value == "{"
            && ModeAt(START, x, k).depth == 1 + ScopeBalance(toks, roles, i + 1, k) >= 1
            && (ModeAt(START, x, k + 1).Module? <==> 1 + ScopeBalance(toks, roles, i + 1, k + 1) == 0)
    decreases k
  {
    hide ModeAt, TokensAt, Roles, Lex, RoleOf, Step;
    var x := Lex(source);
    TokenOf(START, x, 0, i);
    TokenOf(START, x, 0, k);
    BodyOpens(ModeAt(START, x, i), Drop(x, i));
    if k > i + 1 {
      DepthCountsScopes(source, i, k - 1);
      TokenOf(START, x, 0, k - 1);
      ScopeStep(ModeAt(START, x, k - 1), Drop(x, k - 1));
    }
    ScopeStep(ModeAt(START, x, k), Drop(x, k));
  }

  lemma BodyOpens(m: Mode, y: Stream)
    requires m.Module? && y.Cons? && After(m, y).Body?
    ensures y.tok == "{" && After(m, y) == Body(1, Idle)
  {
  }

  // ----- the scanning loop -----

  /** The mode that the loop variables stand for. */
  function ModeOf(awaiting: bool, depth: int, statement: Option<Token>, directive: bool): Mode
    requires depth >= 0
  {
    if depth == 0 then Module(awaiting)
    else Body(depth,
              if statement.None? then Idle
              else if directive then Directive(EndsAtNewline(statement.value.value))
              else Instruction)
  }

  /** The span of the instruction pending since `start`, once its semicolon is known to come. */
  function Pending(m: Mode, start: nat, x: Stream, pos: nat): seq<Span> {
    if m.Body? && m.stmt == Instruction && HasSemi(x)
    then [Span(start, pos + |x.gap| + |UpToSemi(x)|)]
    else []
  }

  /** What the loop has yet to add to `found`. */
  function Total(found: seq<Span>, m: Mode, start: nat, x: Stream, pos: nat): seq<Span> {
    found + Pending(m, start, x, pos) + Spans(m, x, pos)
  }

  lemma TotalStart(source: string)
    ensures Total([], START, 0, Lex(source), 0) == SourceSpans(source)
  {
    assert [] + SourceSpans(source) == SourceSpans(source);
  }

  lemma TotalEnd(found: seq<Span>, m: Mode, start: nat, x: Stream, pos: nat)
    requires x.End?
    ensures Total(found, m, start, x, pos) == found
  {
  }

  /** One token of the loop: the span it completes, if any, is the next one of the specification. */
  lemma TotalStep(found: seq<Span>, m: Mode, start: nat, x: Stream, pos: nat)
    requires x.Cons?
    ensures var pos' := pos + |x.gap| + |x.tok|;
            var start' := if Begins(m, x.tok, Head(x.rest)) then pos + |x.gap| else start;
            var done := Current(m, x.tok, Head(x.rest)) == Instruction && x.tok == ";";
            var found' := if done then found + [Span(start', pos')] else found;
            Total(found, m, start, x, pos) == Total(found', After(m, x), start', x.rest, pos')
  {
    if StartsInstruction(m, x) && x.tok != ";" {
      var s := Span(pos + |x.gap|, pos + |x.gap| + |UpToSemi(x)|);
      var later := Spans(After(m, x), x.rest, pos + |x.gap| + |x.tok|);
      assert found + ([s] + later) == found + [s] + later;
    }
  }

  /**
   The loop over the tokens. `tokens` is the list still to visit, with the white space around each token,
   and `pos` is where it starts in the source.
   */
  method InstructionSpans(source: string) returns (spans: seq<Span>)
    ensures spans == SourceSpans(source)
  {
    hide Total, Lex, EndsAtNewline, IsDirective, SourceSpans, OpensFunction, IsColon, OpensScope, ClosesScope;
    var tokens, pos: nat := Lex(source), 0;
    spans := [];
    var awaitingBody := false;
    var depth := 0;
    var statement: Option<Token> := None;
    var directive := false;
    ghost var mode, start: nat := START, 0;
    TotalStart(source);
    while tokens.Cons?
      invariant depth >= 0
      invariant if depth == 0 then statement.None? else !awaitingBody
      invariant statement.Some? ==> directive == IsDirective(statement.value.value) && start == statement.value.start
      invariant mode == ModeOf(awaitingBody, depth, statement, directive)
      invariant SourceSpans(source) == Total(spans, mode, start, tokens, pos)
      decreases tokens
    {
      TotalStep(spans, mode, start, tokens, pos);
      var token := Token(pos + |tokens.gap|, tokens.tok);
      var value, next := token.value, Head(tokens.rest);
      ghost var done := Current(mode, value, next) == Instruction && value == ";";
      start := if Begins(mode, value, next) then token.start else start;
      mode := After(mode, tokens);
      tokens, pos := tokens.rest, token.End();
      ghost var aim := if done then spans + [Span(start, pos)] else spans;
      assert SourceSpans(source) == Total(aim, mode, start, tokens, pos);
      if depth == 0 {
        if OpensFunction(value) {
          awaitingBody := true;
        } else if value == ";" {
          awaitingBody := false;
        } else if awaitingBody && OpensScope(value) {
          depth := 1;
          awaitingBody := false;
        }
      } else if statement.None? && (IsColon(next) || IsColon(value)) {
        // A label, or its colon, can share a line with an instruction.
      } else if statement.None? && (OpensScope(value) || ClosesScope(value)) {
        depth := depth + (if OpensScope(value) then 1 else -1);
      } else {
        if statement.None? {
          statement := Some(token);
          directive := IsDirective(value);
        }
        if value == ";" {
          if !directive {
            spans := spans + [Span(statement.value.start, token.End())];
          }
          statement := None;
        } else if directive && EndsAtNewline(statement.value.value) {
          if '\n' in tokens.gap {
            statement := None;
          }
        }
      }
    }
    TotalEnd(spans, mode, start, tokens, pos);
  }
}
