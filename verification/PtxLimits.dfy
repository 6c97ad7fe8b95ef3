/** Inputs outside the conditions of the main results, on which the rewriting does change the program. */
module PtxLimits {
  import opened Wrappers
  import opened PtxText
  import opened PtxLex
  import opened PtxComments
  import opened PtxLoosen
  import opened PtxScan
  import opened PtxNormalize
  import opened PtxMarkers
  import opened PtxMark
  import opened PtxGuide
  import opened PtxPipeline
  import opened PtxAddress
  import opened PtxExamples

  // ----- an `.address_size` inside an instruction -----

  function AddTokens(): Stream {
    Cons(" ", "add", Cons(" ", ADDRESS, Cons(" ", "6", Cons("", "4", Cons("", ";", Cons(" ", "}", End("")))))))
  }

  /** `.entry f { add .address_size 64; }` */
  function InsideTokens(): Stream {
    Cons("", ".entry", Cons(" ", "f", Cons(" ", "{", AddTokens())))
  }

  function InsideText(): string {
    ".entry f { add " + (ADDRESS + " " + ("64" + "; }"))
  }

  lemma AddIsToken()
    ensures IsToken("add")
  {
    WordIsToken("add");
  }

  lemma AddConcat()
    ensures " " + ("add" + (" " + (ADDRESS + (" " + ("6" + ("" + ("4" + ("" + (";" + (" " + ("}" + "")))))))))))
         == " add " + (ADDRESS + " " + ("64" + "; }"))
  {
    var end := "" + (";" + (" " + ("}" + "")));
    assert end == "; }";
    assert " " + ("6" + ("" + ("4" + end))) == " " + ("64" + end);
    var u := " " + ("64" + end);
    assert " " + ("add" + (" " + (ADDRESS + u))) == " add " + (ADDRESS + u);
    assert ADDRESS + u == ADDRESS + " " + ("64" + end);
  }

  lemma AddTokensText()
    ensures var x := AddTokens(); Closed(x) && Separated(x) && Text(x) == " add " + (ADDRESS + " " + ("64" + "; }"))
  {
    hide IsToken, IsIdentifier, IsIdStart, IsIdPart, Closed, Separated, Text, Blank, ADDRESS;
    Letters();
    AddIsToken();
    NoTokens();
    Blanks("");
    var x1 := Cons(" ", "}", End(""));
    var x2 := Cons("", ";", x1);
    var x3 := Cons("", "4", x2);
    var x4 := Cons(" ", "6", x3);
    var x5 := Cons(" ", ADDRESS, x4);
    Extended(" ", "}", End(""));
    Extended("", ";", x1);
    Extended("", "4", x2);
    Extended(" ", "6", x3);
    Extended(" ", ADDRESS, x4);
    Extended(" ", "add", x5);
    AddConcat();
  }

  lemma InsideTokensText()
    ensures var x := InsideTokens(); Closed(x) && Separated(x) && Text(x) == InsideText()
  {
    hide IsToken, IsIdentifier, IsIdStart, IsIdPart, Closed, Separated, Text, Blank, ADDRESS, AddTokens;
    Letters();
    Blanks("");
    AddTokensText();
    AddHead();
    var x1 := AddTokens();
    Extended(" ", "{", x1);
    Extended(" ", "f", Cons(" ", "{", x1));
    Extended("", ".entry", Cons(" ", "f", Cons(" ", "{", x1)));
    HeadConcat(ADDRESS + " " + ("64" + "; }"));
  }

  lemma AddHead()
    ensures AddTokens().Cons? && AddTokens().gap == " " && AddTokens().tok == "add"
  {
  }

  lemma HeadConcat(u: string)
    ensures "" + (".entry" + (" " + ("f" + (" " + ("{" + (" add " + u)))))) == ".entry f { add " + u
  {
  }

  lemma InsideBlank()
    ensures WithoutComments(InsideText()) == InsideText()
  {
    hide WithoutComments;
    assert NoMarks(InsideText());
    PlainText(InsideText());
  }

  lemma InsideLexes()
    ensures var s := InsideText(); WithoutComments(s) == s && Lex(s) == InsideTokens() && QuotesClosed(s)
  {
    hide Closed, Separated, InsideTokens, Lex, WithoutComments, Text, WellFormed, Tokens, InsideText;
    InsideTokensText();
    InsideBlank();
    ClosedIsWellFormed(InsideTokens());
    LexText(InsideTokens());
    LexClosed(InsideTokens());
  }

  /** No dot of the text starts the keyword. */
  predicate NoAddressIn(p: string) {
    forall i | 0 <= i < |p| && p[i] == '.' :: i + 1 < |p| && p[i + 1] != 'a'
  }

  lemma {:induction false} AddressAfter(p: string, s: string)
    requires NoAddressIn(p) && AddressEnd(s).Some?
    ensures AddressEnd(p + s) == Some(|p| + AddressEnd(s).value)
  {
    hide AddressEnd, KeywordNumber;
    if p == "" {
      assert p + s == s;
    } else {
      var t := p + s;
      assert t[1..] == p[1..] + s;
      AddressAfter(p[1..], s);
      NoKeywordHere(t);
      AddressUnfold(t);
    }
  }

  lemma NoKeywordHere(t: string)
    requires t != "" && (t[0] == '.' ==> |t| >= 2 && t[1] != 'a')
    ensures KeywordNumber(t, ADDRESS).None?
  {
    assert |t| >= 13 ==> t[..13][0] == t[0] && t[..13][1] == t[1];
    assert ADDRESS[0] == '.' && ADDRESS[1] == 'a';
  }

  lemma InsideAddress()
    ensures AddressEnd(InsideText()) == Some(31)
  {
    hide AddressEnd;
    SixtyFour("; }");
    AddressAfter(".entry f { add ", ADDRESS + " " + ("64" + "; }"));
  }

  lemma InsideModes(x: Stream)
    requires x.Cons?
    ensures x.tok == "add" && Head(x.rest) == ADDRESS ==> After(Body(1, Idle), x) == Body(1, Instruction)
    ensures x.tok in {ADDRESS, "6", "4"} ==> After(Body(1, Instruction), x) == Body(1, Instruction)
  {
  }

  lemma InsidePlace()
    ensures Place(START, InsideTokens(), 31)
  {
    hide Step;
    var x := InsideTokens();
    var x3 := AddTokens();
    ModuleModes(x);
    ModuleModes(x.rest);
    ModuleModes(x.rest.rest);
    InsideModes(x3);
    InsideModes(x3.rest);
    InsideModes(x3.rest.rest);
    InsideModes(x3.rest.rest.rest);
    var m := Body(1, Instruction);
    assert Place(m, x3.rest.rest.rest, 1);
    assert Place(m, x3.rest.rest, 3);
    assert Place(m, x3.rest, 17);
    assert Place(Body(1, Idle), x3, 21);
    assert Place(Module(true), x.rest.rest, 23);
    assert Place(Module(true), x.rest, 25);
  }

  lemma AddStarts()
    ensures StartsInstruction(Body(1, Idle), AddTokens()) && |UpToSemi(AddTokens())| == 21
  {
    var x := AddTokens();
    assert HasSemi(x.rest.rest.rest.rest) && UpToSemi(x.rest.rest.rest.rest) == ";";
    assert HasSemi(x.rest.rest.rest) && UpToSemi(x.rest.rest.rest) == "4;";
    assert HasSemi(x.rest.rest) && |UpToSemi(x.rest.rest)| == 3;
    assert HasSemi(x.rest) && |UpToSemi(x.rest)| == 17;
  }

  lemma InsideSpans()
    ensures var spans := Spans(START, InsideTokens(), 0); spans != [] && InsideSome(spans, 31)
  {
    hide Step, StartsInstruction, Spans, HasSemi, UpToSemi, AddTokens, InsideSome;
    AddHead();
    AddStarts();
    var add := AddTokens();
    var x2 := Cons(" ", "{", add);
    var x1 := Cons(" ", "f", x2);
    var x := Cons("", ".entry", x1);
    ModuleModes(x);
    ModuleModes(x1);
    ModuleModes(x2);
    SpansSkip(Module(false), x, 0);
    SpansSkip(Module(true), x1, 6);
    SpansSkip(Module(true), x2, 8);
    SpansTake(Body(1, Idle), add, 10);
    InsideFirst(Span(11, 32), Spans(After(Body(1, Idle), add), add.rest, 14), 31);
  }

  lemma InsideFirst(s: Span, spans: seq<Span>, a: nat)
    requires s.start < a < s.end
    ensures InsideSome([s] + spans, a)
  {
    InsideCons(s, spans, a);
  }

  lemma PlaceableFrom(s: string, x: Stream, a: nat)
    requires WithoutComments(s) == s && Lex(s) == x && QuotesClosed(s)
    requires AddressEnd(s) == Some(a) && Place(START, x, a)
    requires Spans(START, x, 0) != [] && InsideSome(Spans(START, x, 0), a)
    ensures Placeable(s) && AddressEnd(WithoutComments(s)) == Some(a) && InsideSome(SourceSpans(WithoutComments(s)), a)
  {
    hide WithoutComments, AddressEnd, Lex, QuotesClosed, Place, Spans, InsideSome;
  }

  ghost predicate SameProgram(c: string, text: string) {
    Slices(text, SourceSpans(text)) == Slices(c, SourceSpans(c))
  }

  /** An `.address_size` inside an instruction gets the `.file` directive put in there, and changes the program. */
  lemma AddressInsideInstruction(name: string)
    ensures var c, r := WithoutComments(InsideText()), LineMarked(InsideText(), name);
            r.Marked? && !SameProgram(c, r.text)
  {
    hide Placeable, AddressEnd, InsideSome, Spans, LineMarked, WithoutComments, Lex, Slices, InsideText, InsideTokens,
         Place, QuotesClosed;
    InsideLexes();
    InsideAddress();
    InsidePlace();
    InsideSpans();
    PlaceableFrom(InsideText(), InsideTokens(), 31);
    MarkingPreservesIff(InsideText(), name);
  }

  // ----- a backslash at the end of a line in a string -----

  /** The comment scan closes this string; the token scan does not, since no backslash escapes a newline there. */
  const BROKEN := "\" \\\n \""

  function BrokenText(): string {
    ".entry f { " + (BROKEN + " ; }")
  }

  function BrokenTokens(): Stream {
    Cons("", ".entry", Cons(" ", "f", Cons(" ", "{", QuoteTokens())))
  }

  function QuoteTokens(): Stream {
    Cons(" ", "\"", Cons(" ", "\\", Cons("\n ", "\"", Cons(" ", ";", Cons(" ", "}", End(""))))))
  }

  lemma BrokenLiteral()
    ensures LiteralLen(BROKEN) == Some(6)
  {
    var u := BROKEN[1..];
    assert u == " \\\n \"" && u[1..] == "\\\n \"" && u[1..][2..] == " \"" && u[1..][2..][1..] == "\"";
    assert StringTail(u[1..][2..][1..], true) == Some(1);
    assert StringTail(u[1..][2..], true) == Some(2);
    assert StringTail(u[1..], true) == Some(4);
  }

  lemma BrokenBlank()
    ensures WithoutComments(BrokenText()) == BrokenText()
  {
    hide WithoutComments, LiteralLen, CommentLen;
    BrokenLiteral();
    LiteralThen(BROKEN, " ; }");
    var s := BROKEN + " ; }";
    assert s[..6] == BROKEN && s[6..] == " ; }";
    BlankUnfold(s);
    assert NoMarks(" ; }") && NoMarks(".entry f { ");
    PlainText(" ; }");
    BlankPlain(".entry f { ", s);
  }

  lemma BackslashIsToken()
    ensures IsToken("\\") && !IsIdentifier("\\")
  {
    SymbolIsToken("\\");
  }

  lemma TokenBefore(g: string, t: string, r: Stream)
    requires AllSpace(g) && t != "" && !IsSpace(t[0]) && TokenLen(t + Text(r)) == |t| && WellFormed(r)
    ensures WellFormed(Cons(g, t, r)) && Text(Cons(g, t, r)) == g + (t + Text(r))
  {
    assert g + t + Text(r) == g + (t + Text(r));
  }

  /** A quote that nothing closes is a token by itself. */
  lemma QuoteBefore(g: string, r: Stream)
    requires AllSpace(g) && StringTail(Text(r), false).None? && WellFormed(r)
    ensures WellFormed(Cons(g, "\"", r)) && Text(Cons(g, "\"", r)) == g + ("\"" + Text(r))
  {
    hide StringTail, WellFormed, Text, TokenLen;
    LoneQuote(Text(r));
    TokenBefore(g, "\"", r);
  }

  lemma QuoteConcat()
    ensures " " + (";" + (" " + ("}" + ""))) == " ; }"
    ensures "\n " + ("\"" + " ; }") == "\n \" ; }"
    ensures " " + ("\\" + "\n \" ; }") == " \\\n \" ; }"
    ensures " " + ("\"" + " \\\n \" ; }") == " " + (BROKEN + " ; }")
  {
  }

  lemma NoTokensFormed()
    ensures WellFormed(End("")) && Text(End("")) == ""
  {
  }

  lemma QuoteTokensText()
    ensures WellFormed(QuoteTokens()) && Text(QuoteTokens()) == " " + (BROKEN + " ; }")
    ensures QuoteTokens().Cons? && QuoteTokens().gap == " " && "\"" in Tokens(QuoteTokens())
  {
    hide IsToken, IsIdentifier, IsIdStart, IsIdPart, WellFormed, Text, StringTail, IsSpace, BROKEN, Blank;
    Letters();
    BackslashIsToken();
    MoreBlanks();
    BlankIsSpace(" ");
    BlankIsSpace("\n ");
    NoTokensFormed();
    QuoteConcat();
    var x1 := Cons(" ", "}", End(""));
    var x2 := Cons(" ", ";", x1);
    var x3 := Cons("\n ", "\"", x2);
    var x4 := Cons(" ", "\\", x3);
    WordBefore(" ", "}", End(""));
    WordBefore(" ", ";", x1);
    NeverCloses(" ; }");
    QuoteBefore("\n ", x2);
    WordBefore(" ", "\\", x3);
    NewlineBreaks(" \\\n \" ; }");
    QuoteBefore(" ", x4);
  }

  lemma {:induction false} NeverCloses(u: string)
    requires '"' !in u
    ensures StringTail(u, false).None?
    decreases |u|
  {
    if u != "" {
      var k := if u[0] == '\\' then 2 else 1;
      if k <= |u| {
        NeverCloses(u[k..]);
      }
    }
  }

  lemma NewlineBreaks(u: string)
    requires |u| >= 3 && u[0] == ' ' && u[1] == '\\' && u[2] == '\n'
    ensures StringTail(u, false).None?
  {
    assert u[1..][0] == '\\' && u[1..][1] == '\n';
  }

  lemma LoneQuote(u: string)
    requires StringTail(u, false).None?
    ensures TokenLen("\"" + u) == 1
  {
    assert ("\"" + u)[1..] == u;
  }

  lemma WordBefore(g: string, t: string, r: Stream)
    requires AllSpace(g) && IsToken(t) && WellFormed(r) && (IsIdentifier(t) ==> r.Cons? && r.gap == " ")
    ensures WellFormed(Cons(g, t, r)) && Text(Cons(g, t, r)) == g + (t + Text(r))
  {
    hide IsToken, IsIdentifier;
    if IsIdentifier(t) {
      NotContinued(r);
    }
    TokenThen(t, Text(r));
    assert g + t + Text(r) == g + (t + Text(r));
  }

  lemma BrokenTokensText()
    ensures WellFormed(BrokenTokens()) && Text(BrokenTokens()) == BrokenText() && "\"" in Tokens(BrokenTokens())
  {
    hide IsToken, IsIdentifier, WellFormed, Text, QuoteTokens, BROKEN;
    Letters();
    QuoteTokensText();
    Blanks("");
    BlankIsSpace("");
    BlankIsSpace(" ");
    var x := QuoteTokens();
    WordBefore(" ", "{", x);
    WordBefore(" ", "f", Cons(" ", "{", x));
    WordBefore("", ".entry", Cons(" ", "f", Cons(" ", "{", x)));
    BrokenConcat(BROKEN + " ; }");
  }

  lemma BrokenConcat(u: string)
    ensures "" + (".entry" + (" " + ("f" + (" " + ("{" + (" " + u)))))) == ".entry f { " + u
  {
  }

  lemma QuoteStarts()
    ensures StartsInstruction(Body(1, Idle), QuoteTokens()) && |UpToSemi(QuoteTokens())| == 8
  {
    var x := QuoteTokens();
    assert HasSemi(x.rest.rest.rest) && UpToSemi(x.rest.rest.rest) == ";";
    assert HasSemi(x.rest.rest) && |UpToSemi(x.rest.rest)| == 3;
    assert HasSemi(x.rest) && |UpToSemi(x.rest)| == 6;
  }

  lemma BrokenSpans()
    ensures Spans(START, BrokenTokens(), 0) == [Span(11, 19)]
  {
    hide Step, StartsInstruction, Spans, HasSemi, UpToSemi;
    var x := BrokenTokens();
    ModuleModes(x);
    ModuleModes(x.rest);
    ModuleModes(x.rest.rest);
    QuoteStarts();
    SpansSkip(Module(false), x, 0);
    SpansSkip(Module(true), x.rest, 6);
    SpansSkip(Module(true), x.rest.rest, 8);
    StartThenRest(Body(1, Idle), QuoteTokens(), 10);
    QuotePast();
  }

  lemma QuotePast()
    ensures HasSemi(QuoteTokens()) && Spans(Body(1, Idle), PastSemi(QuoteTokens()), 19) == []
  {
    var x := QuoteTokens();
    assert HasSemi(x.rest.rest.rest) && PastSemi(x.rest.rest.rest) == Cons(" ", "}", End(""));
    assert HasSemi(x.rest.rest) && HasSemi(x.rest);
  }

  /** Folded, the newline after the backslash is a space, and the token scan closes the string. */
  const MENDED := "\" \\ \""

  lemma SecondQuoteFolds()
    ensures FoldSpaces(['"'] + (" " + [';'])) == ['"'] + (" " + [';'])
  {
    hide FoldSpaces, StringTail;
    var u := " " + [';'];
    NeverCloses(u);
    FoldQuote(u);
    FoldSpace(" ", [';']);
    FoldOne(';', "");
    FoldEnd();
    assert [';'] + "" == [';'];
  }

  lemma BackslashFolds(u: string)
    requires u != "" && u[0] == '"'
    ensures FoldSpaces(" " + (['\\'] + ("\n " + u))) == " " + (['\\'] + (" " + FoldSpaces(u)))
  {
    hide FoldSpaces;
    FoldSpace(" ", ['\\'] + ("\n " + u));
    FoldOne('\\', "\n " + u);
    FoldSpace("\n ", u);
  }

  lemma BrokenFolds()
    ensures FoldSpaces(BROKEN + " ;") == MENDED + " ;"
  {
    hide FoldSpaces, StringTail;
    var u := ['"'] + (" " + [';']);
    var v := " " + (['\\'] + ("\n " + u));
    NewlineBreaks(v);
    FoldQuote(v);
    BackslashFolds(u);
    SecondQuoteFolds();
    assert BROKEN + " ;" == ['"'] + v;
    assert MENDED + " ;" == ['"'] + (" " + (['\\'] + (" " + u)));
  }

  lemma FoldEnd()
    ensures FoldSpaces("") == ""
  {
  }

  lemma FoldQuote(u: string)
    requires StringTail(u, false).None?
    ensures FoldSpaces(['"'] + u) == ['"'] + FoldSpaces(u)
  {
    assert (['"'] + u)[1..] == u;
  }

  lemma FoldSpace(g: string, u: string)
    requires (g == " " || g == "\n ") && u != "" && (u[0] == '\\' || u[0] == '"' || u[0] == ';')
    ensures FoldSpaces(g + u) == " " + FoldSpaces(u)
  {
    SpaceRunOf(g, u);
    Appended(g, u);
  }

  function MendedText(): string {
    ".entry f { " + ("\n" + (MENDED + (" ;" + ("\n" + " }"))))
  }

  lemma BrokenNormalized()
    ensures Normalized(BrokenText()) == MendedText()
  {
    hide WithoutComments, FoldSpaces, Lex, WellFormed, Text, Spans, BrokenTokens;
    BrokenBlank();
    BrokenTokensText();
    LexText(BrokenTokens());
    BrokenSpans();
    var s := BrokenText();
    assert |s| == 21 && s[..11] == ".entry f { " && s[11..19] == BROKEN + " ;" && s[19..21] == " }";
    BrokenFolds();
    var spans := [Span(11, 19)];
    assert spans[1..] == [];
    assert Rebuild(s, 19, []) == " }";
    assert Rebuild(s, 0, spans) == ".entry f { " + ("\n" + (MENDED + " ;") + "\n") + " }";
  }

  function MendedTokens(): Stream {
    Cons("", ".entry", Cons(" ", "f", Cons(" ", "{", Cons(" \n", MENDED, Cons(" ", ";", Cons("\n ", "}", End("")))))))
  }

  lemma MendedIsString()
    ensures IsString(MENDED) && IsToken(MENDED) && !IsIdentifier(MENDED)
  {
    var u := MENDED[1..];
    assert u == " \\ \"" && u[1..] == "\\ \"" && u[1..][2..] == "\"";
    assert StringTail(u[1..][2..], false) == Some(1);
    assert StringTail(u[1..], false) == Some(3);
  }

  lemma MendedConcat(q: string)
    ensures "" + (".entry" + (" " + ("f" + (" " + ("{" + (" \n" + (q + (" " + (";" + ("\n " + ("}" + "")))))))))))
         == ".entry f { " + ("\n" + (q + (" ;" + ("\n" + " }"))))
  {
    var end := " " + (";" + ("\n " + ("}" + "")));
    assert end == " ;" + ("\n" + " }");
    var u := q + end;
    assert "" + (".entry" + (" " + ("f" + (" " + ("{" + (" \n" + u)))))) == ".entry f { " + ("\n" + u);
  }

  lemma MendedTokensText()
    ensures var x := MendedTokens(); Closed(x) && Separated(x) && Text(x) == MendedText()
  {
    hide IsToken, IsIdentifier, IsString, Closed, Separated, Text, Blank, MENDED;
    Letters();
    MendedIsString();
    NoTokens();
    MoreBlanks();
    var x1 := Cons("\n ", "}", End(""));
    var x2 := Cons(" ", ";", x1);
    var x3 := Cons(" \n", MENDED, x2);
    Extended("\n ", "}", End(""));
    Extended(" ", ";", x1);
    Extended(" \n", MENDED, x2);
    Extended(" ", "{", x3);
    Extended(" ", "f", Cons(" ", "{", x3));
    Extended("", ".entry", Cons(" ", "f", Cons(" ", "{", x3)));
    MendedConcat(MENDED);
  }

  lemma MoreBlanks()
    ensures Blank("") && Blank(" ") && Blank(" \n") && Blank("\n ")
  {
  }

  lemma MendedHasNoQuote()
    ensures "\"" !in Tokens(MendedTokens())
  {
    hide Closed, Separated, Text;
    MendedTokensText();
    ClosedIsWellFormed(MendedTokens());
    LexClosed(MendedTokens());
  }

  /** A string with a backslash at the end of a line is three tokens before normalising, and one after. */
  lemma NormalizingJoinsTokens()
    ensures Tokens(Lex(Normalized(BrokenText()))) != Tokens(Lex(WithoutComments(BrokenText())))
  {
    hide Lex, Text, WellFormed, Closed, Separated, Normalized, WithoutComments, Tokens, MendedTokens, BrokenTokens,
         MendedText, BrokenText;
    BrokenBlank();
    BrokenTokensText();
    LexText(BrokenTokens());
    BrokenNormalized();
    MendedTokensText();
    ClosedIsWellFormed(MendedTokens());
    LexText(MendedTokens());
    MendedHasNoQuote();
  }
}
