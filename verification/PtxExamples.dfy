/** Small modules that meet the conditions of the main results, and two that show their limits. */
module PtxExamples {
  import opened Wrappers
  import opened PtxText
  import opened PtxLex
  import opened PtxComments
  import opened PtxLoosen
  import opened PtxScan
  import opened PtxNormalize
  import opened PtxMarkers
  import opened PtxMark
  import opened PtxMarkComments
  import opened PtxGuide
  import opened PtxPipeline

  // ----- the tokens -----

  lemma {:induction false} AllParts(u: string)
    requires forall i | 0 <= i < |u| :: IsIdPart(u[i])
    ensures IdTail(u) == |u|
  {
    if u != "" {
      AllParts(u[1..]);
    }
  }

  lemma WordIsToken(t: string)
    requires t != "" && IsIdStart(t[0]) && forall i | 0 < i < |t| :: IsIdPart(t[i])
    ensures IsIdentifier(t) && IsToken(t)
  {
    AllParts(t[1..]);
  }

  lemma SymbolIsToken(t: string)
    requires |t| == 1 && !IsSpace(t[0]) && t[0] != '"' && !IsIdStart(t[0])
    ensures IsToken(t) && !IsIdentifier(t)
  {
  }

  lemma Letters()
    ensures forall t | t in {"}", "{", ";", "6", "4", "/", "*"} :: IsToken(t) && !IsIdentifier(t)
    ensures forall t | t in {"f", "ret", ".entry", ADDRESS} :: IsToken(t)
  {
    hide IsToken, IsIdentifier;
    SymbolIsToken("}");
    SymbolIsToken("{");
    SymbolIsToken(";");
    SymbolIsToken("6");
    SymbolIsToken("4");
    SymbolIsToken("/");
    SymbolIsToken("*");
    WordIsToken("f");
    WordIsToken("ret");
    WordIsToken(".entry");
    WordIsToken(ADDRESS);
  }

  predicate Blank(g: string) {
    g == "" || g == " " || g == "\n" || g == " \n" || g == "\n "
  }

  lemma NotContinued(r: Stream)
    requires r.Cons? && Blank(r.gap) && (r.gap == "" ==> r.tok == ";")
    ensures !ContinuesId(Text(r))
  {
    assert Text(r)[0] == if r.gap == "" then ';' else r.gap[0];
  }

  /** A stream with one more token at the front. */
  lemma Extended(g: string, t: string, r: Stream)
    requires Blank(g) && IsToken(t) && Closed(r) && Separated(r)
    requires IsIdentifier(t) ==> r.Cons? && Blank(r.gap) && (r.gap == "" ==> r.tok == ";")
    ensures Closed(Cons(g, t, r)) && Separated(Cons(g, t, r))
    ensures Text(Cons(g, t, r)) == g + (t + Text(r))
  {
    hide IsToken, IsIdentifier, ContinuesId, IsSpace, Blank;
    BlankIsSpace(g);
    if IsIdentifier(t) {
      NotContinued(r);
    }
    assert g + t + Text(r) == g + (t + Text(r));
  }

  lemma BlankIsSpace(g: string)
    requires Blank(g)
    ensures AllSpace(g)
  {
  }

  // ----- the module -----

  /** A function with one instruction, with `gap` before its semicolon. */
  function FunctionTokens(gap: string): Stream {
    Cons(" ", "f", Cons(" ", "{", Cons(" ", "ret", Cons(gap, ";", Cons(" ", "}", End(""))))))
  }

  function NumberTokens(gap: string): Stream {
    Cons(" ", "6", Cons("", "4", Cons(" ", ".entry", FunctionTokens(gap))))
  }

  /** The module, after an opener of a block comment that nothing closes if `open`. */
  function ModuleTokens(open: bool, gap: string): Stream {
    if open then Cons("", "/", Cons("", "*", Cons(" ", ADDRESS, NumberTokens(gap))))
    else Cons("", ADDRESS, NumberTokens(gap))
  }

  function FunctionText(gap: string): string {
    " f { ret" + gap + "; }"
  }

  function NumberText(gap: string): string {
    " 64 .entry" + FunctionText(gap)
  }

  function ModuleText(open: bool, gap: string): string {
    (if open then "/* " else "") + ADDRESS + NumberText(gap)
  }

  lemma Blanks(gap: string)
    requires gap == "" || gap == "\n"
    ensures Blank("") && Blank(" ") && Blank(gap)
  {
  }

  lemma NoTokens()
    ensures Closed(End("")) && Separated(End("")) && Text(End("")) == ""
  {
  }

  lemma FunctionConcat(gap: string)
    ensures " " + ("f" + (" " + ("{" + (" " + ("ret" + (gap + (";" + (" " + ("}" + "")))))))))
         == " f { ret" + gap + "; }"
  {
    var end := ";" + (" " + ("}" + ""));
    assert end == "; }";
    assert " " + ("f" + (" " + ("{" + (" " + ("ret" + (gap + end)))))) == " f { ret" + (gap + end);
  }

  lemma FunctionTokensText(gap: string)
    requires gap == "" || gap == "\n"
    ensures var x := FunctionTokens(gap); Closed(x) && Separated(x) && Text(x) == FunctionText(gap)
    ensures FunctionTokens(gap).Cons? && FunctionTokens(gap).gap == " "
  {
    hide IsToken, IsIdentifier, IsIdStart, IsIdPart, Closed, Separated, Text, Blank;
    Letters();
    NoTokens();
    Blanks(gap);
    var x1 := Cons(" ", "}", End(""));
    var x2 := Cons(gap, ";", x1);
    var x3 := Cons(" ", "ret", x2);
    var x4 := Cons(" ", "{", x3);
    Extended(" ", "}", End(""));
    Extended(gap, ";", x1);
    Extended(" ", "ret", x2);
    Extended(" ", "{", x3);
    Extended(" ", "f", x4);
    FunctionConcat(gap);
  }

  lemma NumberConcat(u: string)
    ensures " " + ("6" + ("" + ("4" + (" " + (".entry" + u))))) == " 64 .entry" + u
  {
  }

  lemma NumberTokensText(gap: string)
    requires gap == "" || gap == "\n"
    ensures var x := NumberTokens(gap); Closed(x) && Separated(x) && Text(x) == NumberText(gap)
    ensures NumberTokens(gap).Cons? && NumberTokens(gap).gap == " "
  {
    hide IsToken, IsIdentifier, IsIdStart, IsIdPart, Closed, Separated, Text, Blank, FunctionText, FunctionTokens;
    Letters();
    Blanks(gap);
    var x0 := FunctionTokens(gap);
    FunctionTokensText(gap);
    NumberConcat(FunctionText(gap));
    Extended(" ", ".entry", x0);
    Extended("", "4", Cons(" ", ".entry", x0));
    Extended(" ", "6", Cons("", "4", Cons(" ", ".entry", x0)));
  }

  lemma ModuleTokensText(open: bool, gap: string)
    requires gap == "" || gap == "\n"
    ensures var x := ModuleTokens(open, gap); Closed(x) && Separated(x) && Text(x) == ModuleText(open, gap)
  {
    hide IsToken, IsIdentifier, IsIdStart, IsIdPart, Closed, Separated, Text, NumberTokens, Blank, NumberText;
    Letters();
    Blanks("");
    var x0 := NumberTokens(gap);
    NumberTokensText(gap);
    if open {
      Extended(" ", ADDRESS, x0);
      Extended("", "*", Cons(" ", ADDRESS, x0));
      Extended("", "/", Cons("", "*", Cons(" ", ADDRESS, x0)));
    } else {
      Extended("", ADDRESS, x0);
    }
  }

  // ----- what is read from it -----

  predicate NoMarks(s: string) {
    '"' !in s && '/' !in s
  }

  lemma ModuleNoMarks(gap: string)
    requires gap == "" || gap == "\n"
    ensures NoMarks(ADDRESS + NumberText(gap)) && NoMarks(" " + (ADDRESS + NumberText(gap)))
  {
    assert NoMarks(FunctionText(gap));
  }

  lemma PlainText(s: string)
    requires NoMarks(s)
    ensures WithoutComments(s) == s
  {
    hide WithoutComments;
    BlankPlain(s, "");
    assert s + "" == s;
    NothingBlank();
  }

  lemma UnclosedText(s: string)
    requires NoMarks(s)
    ensures WithoutComments("/*" + s) == "/*" + s
  {
    hide WithoutComments;
    var u := "*" + s;
    PlainText(u);
    NoBlockTail(s);
    assert "/*" + s == ['/'] + u && (['/'] + u)[2..] == s;
    BlankUnfold(['/'] + u);
    assert (['/'] + u)[..1] == ['/'] && (['/'] + u)[1..] == u;
  }

  lemma ModuleBlank(open: bool, gap: string)
    requires gap == "" || gap == "\n"
    ensures WithoutComments(ModuleText(open, gap)) == ModuleText(open, gap)
  {
    hide WithoutComments, NoMarks, NumberText;
    var s := ADDRESS + NumberText(gap);
    ModuleNoMarks(gap);
    if open {
      UnclosedText(" " + s);
      assert "/*" + (" " + s) == ModuleText(open, gap);
    } else {
      PlainText(s);
      assert s == ModuleText(open, gap);
    }
  }

  lemma ModuleLexes(open: bool, gap: string)
    requires gap == "" || gap == "\n"
    ensures var s := ModuleText(open, gap);
            WithoutComments(s) == s && Lex(s) == ModuleTokens(open, gap) && QuotesClosed(s)
  {
    hide Closed, Separated, ModuleTokens, Lex, WithoutComments, Text, WellFormed, Tokens, ModuleText;
    ModuleTokensText(open, gap);
    ModuleBlank(open, gap);
    ClosedIsWellFormed(ModuleTokens(open, gap));
    LexText(ModuleTokens(open, gap));
    LexClosed(ModuleTokens(open, gap));
  }

  lemma TwoDigits(u: string)
    requires u != "" && !IsDigit(u[0])
    ensures DigitRun("64" + u) == 2
  {
    var v := "64" + u;
    assert v[1..] == "4" + u && ("4" + u)[1..] == u;
  }

  lemma SixIsInk()
    ensures IsSpace(' ') && !IsSpace('6')
  {
  }

  lemma KeywordThen(s: string, g: string, v: string)
    requires |s| >= 13 && s[..13] == ADDRESS && s[13..] == g + v
    requires SpaceRun(g + v) == |g| > 0 && DigitRun(v) > 0
    ensures KeywordNumber(s, ADDRESS).Some? && KeywordNumber(s, ADDRESS).value.0 == 13 + |g| + DigitRun(v)
  {
    hide SpaceRun, DigitRun, DecimalValue;
    assert (g + v)[|g|..] == v;
  }

  lemma SixtyFour(u: string)
    requires u != "" && !IsDigit(u[0])
    ensures AddressEnd(ADDRESS + " " + ("64" + u)) == Some(16)
  {
    hide IsSpace, DigitRun, SpaceRun, IsDigit, AddressEnd, KeywordNumber;
    SixIsInk();
    var w := "64" + u;
    var s := ADDRESS + " " + w;
    assert s[..13] == ADDRESS && s[13..] == " " + w;
    SpaceRunOf(" ", w);
    TwoDigits(u);
    KeywordThen(s, " ", w);
    AddressUnfold(s);
  }

  lemma AddressLater(c: char, s: string)
    requires c != '.' && AddressEnd(s).Some?
    ensures AddressEnd([c] + s) == Some(AddressEnd(s).value + 1)
  {
    hide *;
    var t := [c] + s;
    assert t[1..] == s;
    NoKeyword(t);
    AddressUnfold(t);
  }

  lemma NoKeyword(t: string)
    requires t != "" && t[0] != '.'
    ensures KeywordNumber(t, ADDRESS).None?
  {
    FirstDiffers(t, ADDRESS);
  }

  function Shift(open: bool): nat {
    if open then 3 else 0
  }

  lemma ModuleAddress(open: bool, gap: string)
    ensures AddressEnd(ModuleText(open, gap)) == Some(16 + Shift(open))
  {
    hide AddressEnd, FunctionText;
    var u := " .entry" + FunctionText(gap);
    var s := ADDRESS + " " + ("64" + u);
    SixtyFour(u);
    assert s == ADDRESS + NumberText(gap);
    if open {
      AddressLater(' ', s);
      AddressLater('*', [' '] + s);
      AddressLater('/', ['*'] + ([' '] + s));
      assert ['/'] + (['*'] + ([' '] + s)) == ModuleText(open, gap);
    } else {
      assert s == ModuleText(open, gap);
    }
  }

  lemma ModuleModes(x: Stream)
    requires x.Cons?
    ensures x.tok in {ADDRESS, "6", "4", "/", "*"} ==> After(Module(false), x) == Module(false)
    ensures x.tok == ".entry" ==> After(Module(false), x) == Module(true)
    ensures x.tok == "f" ==> After(Module(true), x) == Module(true)
    ensures x.tok == "{" ==> After(Module(true), x) == Body(1, Idle)
    ensures !StartsInstruction(Module(false), x) && !StartsInstruction(Module(true), x)
  {
  }

  lemma ReturnStarts(x: Stream)
    requires x.Cons? && x.tok == "ret" && Head(x.rest) == ";"
    ensures StartsInstruction(Body(1, Idle), x) && UpToSemi(x) == "ret" + x.rest.gap + ";"
  {
    assert x.rest.Cons?;
    assert HasSemi(x.rest);
  }

  lemma FunctionSpans(gap: string, pos: nat)
    ensures var spans := Spans(Module(true), FunctionTokens(gap), pos);
            spans != [] && spans[0] == Span(pos + 5, pos + 9 + |gap|)
  {
    hide Step, StartsInstruction, Spans, HasSemi, UpToSemi;
    var x := FunctionTokens(gap);
    ModuleModes(x);
    ModuleModes(x.rest);
    ReturnStarts(x.rest.rest);
    SpansSkip(Module(true), x, pos);
    SpansSkip(Module(true), x.rest, pos + 2);
    SpansTake(Body(1, Idle), x.rest.rest, pos + 4);
  }

  lemma NumberSpans(gap: string, pos: nat)
    ensures Spans(Module(false), NumberTokens(gap), pos) == Spans(Module(true), FunctionTokens(gap), pos + 10)
  {
    hide Step, StartsInstruction, Spans, FunctionTokens;
    var x := NumberTokens(gap);
    ModuleModes(x);
    ModuleModes(x.rest);
    ModuleModes(x.rest.rest);
    SpansSkip(Module(false), x, pos);
    SpansSkip(Module(false), x.rest, pos + 2);
    SpansSkip(Module(false), x.rest.rest, pos + 3);
  }

  lemma ModuleSpans(open: bool, gap: string)
    ensures var spans := Spans(START, ModuleTokens(open, gap), 0);
            spans != [] && spans[0] == Span(28 + Shift(open), 32 + Shift(open) + |gap|)
  {
    hide Step, StartsInstruction, Spans, NumberTokens, FunctionTokens;
    var x := ModuleTokens(open, gap);
    ModuleModes(x);
    SpansSkip(Module(false), x, 0);
    if open {
      ModuleModes(x.rest);
      ModuleModes(x.rest.rest);
      SpansSkip(Module(false), x.rest, 1);
      SpansSkip(Module(false), x.rest.rest, 2);
    }
    NumberSpans(gap, 13 + Shift(open));
    FunctionSpans(gap, 23 + Shift(open));
  }

  lemma ModuleBoundary(open: bool, gap: string)
    ensures Boundary(START, ModuleTokens(open, gap), 16 + Shift(open))
    ensures open ==> OpenBefore(ModuleTokens(open, gap), 16 + Shift(open))
  {
    hide Step;
    var x := ModuleTokens(open, gap);
    var x0 := NumberTokens(gap);
    ModuleModes(x);
    ModuleModes(x0);
    ModuleModes(x0.rest);
    assert Boundary(Module(false), x0.rest, 1);
    assert Boundary(Module(false), x0, 3);
    if open {
      ModuleModes(x.rest);
      ModuleModes(x.rest.rest);
      assert Boundary(Module(false), x.rest.rest, 17);
      assert Boundary(Module(false), x.rest, 18);
    }
  }

  predicate FirstSpan(s: string, p: Span) {
    SourceSpans(s) != [] && SourceSpans(s)[0] == p
  }

  lemma MarkableFrom(s: string, x: Stream, a: nat, first: Span)
    requires WithoutComments(s) == s && Lex(s) == x && QuotesClosed(s)
    requires AddressEnd(s) == Some(a) && Boundary(START, x, a)
    requires Spans(START, x, 0) != [] && Spans(START, x, 0)[0] == first && a < first.start
    ensures Markable(s) && AddressFirst(s) && FirstSpan(s, first)
    ensures OpenBefore(x, a) ==> OpenAtFile(s)
  {
    hide WithoutComments, AddressEnd, Lex, QuotesClosed, Boundary, Spans, OpenBefore;
  }

  /** The conditions of the marking and pipeline results are met by modules as small as these. */
  lemma ModuleIsMarkable(open: bool, gap: string)
    requires gap == "" || gap == "\n"
    ensures Markable(ModuleText(open, gap)) && AddressFirst(ModuleText(open, gap))
    ensures open ==> OpenAtFile(ModuleText(open, gap))
    ensures FirstSpan(ModuleText(open, gap), Span(28 + Shift(open), 32 + Shift(open) + |gap|))
  {
    hide *;
    ModuleLexes(open, gap);
    ModuleAddress(open, gap);
    ModuleSpans(open, gap);
    ModuleBoundary(open, gap);
    MarkableFrom(ModuleText(open, gap), ModuleTokens(open, gap), 16 + Shift(open),
                 Span(28 + Shift(open), 32 + Shift(open) + |gap|));
  }

  // ----- limits -----

  lemma LinesDiffer(s: string, p: Span, i: nat)
    requires p.start <= i < p.end <= |s| && s[i] == '\n' && s[p.end - 1] == ';'
    ensures LineNumber(s, p.start) != LineNumber(s, p.end - 1)
  {
    hide *;
    LineOfInstruction(s, p);
    assert s[p.start..p.end][i - p.start] == '\n';
  }

  lemma TwoLines()
    ensures var s := ModuleText(false, "\n"); |s| == 35 && s[31] == '\n' && s[32] == ';'
  {
    assert ModuleText(false, "\n") == ".address_size 64 .entry f { ret\n; }";
  }

  lemma NoShift()
    ensures Shift(false) == 0
  {
  }

  /** The marker's number is not the line of the first token. */
  predicate NumberedLater(s: string, p: Span) {
    p.start < p.end <= |s| && LineNumber(s, p.start) != LineNumber(s, p.end - 1)
  }

  /** An instruction whose semicolon stands on the next line is marked with the number of that line. */
  lemma SemicolonLineDiffers()
    ensures var s, p := ModuleText(false, "\n"), Span(28, 33);
            Markable(s) && FirstSpan(s, p) && NumberedLater(s, p)
  {
    hide Markable, FirstSpan, LineNumber, ModuleText, AddressFirst, OpenAtFile;
    ModuleIsMarkable(false, "\n");
    NoShift();
    TwoLines();
    LinesDiffer(ModuleText(false, "\n"), Span(28, 33), 31);
  }

  /** A file name that closes the source's open block comment turns the code between them into a comment. */
  lemma NameClosesComment()
    ensures var r := LineMarked(ModuleText(true, ""), "*/"); r.Marked? && WithoutComments(r.text) != r.text
  {
    hide Markable, OpenAtFile, LineMarked, WithoutComments;
    ModuleIsMarkable(true, "");
    MarkedHasNoComments(ModuleText(true, ""), "*/");
    assert BlockTail("*/").Some?;
  }
}
