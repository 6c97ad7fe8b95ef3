/** The `.file` and `.address_size` directives the marker pass looks for, said of the text. */
module PtxIndices {
  import opened Wrappers
  import opened PtxText
  import opened PtxComments
  import opened PtxScan
  import opened PtxInsert
  import opened PtxMarkers
  import opened PtxGuide
  import opened PtxPipeline

  /** `keyword`, `w` characters of white space and `d` digits, as many as there are, stand at position `p`. */
  ghost predicate NumberAfter(s: string, keyword: string, p: nat, w: nat, d: nat) {
    var k := p + |keyword|;
    && k + w + d <= |s| && w > 0 && d > 0
    && s[p..k] == keyword && AllSpace(s[k..k + w]) && AllDigits(s[k + w..k + w + d])
    && (k + w + d < |s| ==> !IsDigit(s[k + w + d]))
  }

  lemma {:induction false} DigitRunOf(g: string, u: string)
    requires AllDigits(g) && (u == "" || !IsDigit(u[0]))
    ensures DigitRun(g + u) == |g|
  {
    if g == "" {
      assert g + u == u;
    } else {
      HeadTail(g, u);
      DigitRunOf(g[1..], u);
    }
  }

  lemma DigitIsNoSpace(c: char)
    requires IsDigit(c)
    ensures !IsSpace(c)
  {
  }

  /** The matcher finds a keyword and its number exactly where they stand. */
  lemma KeywordFound(s: string, keyword: string, w: nat, d: nat)
    requires NumberAfter(s, keyword, 0, w, d)
    ensures KeywordNumber(s, keyword)
         == Some((|keyword| + w + d, DecimalValue(s[|keyword| + w..|keyword| + w + d])))
  {
    hide SpaceRun, DigitRun, DecimalValue, IsSpace, IsDigit, AllSpace, AllDigits;
    var k := |keyword|;
    var u := s[k..];
    var v := u[w..];
    DropThenTake(s, k, 0, w);
    WholeDrop(u);
    DropThenTake(s, k, w, d);
    Split(u, w);
    Split(v, d);
    FirstDigit(s[k + w..k + w + d]);
    assert v[0] == s[k + w..k + w + d][0];
    DigitIsNoSpace(v[0]);
    SpaceRunOf(u[..w], v);
    assert v[d..] != "" ==> v[d..][0] == s[k + w + d];
    DigitRunOf(v[..d], v[d..]);
  }

  lemma FirstDigit(t: string)
    requires t != "" && AllDigits(t)
    ensures IsDigit(t[0])
  {
  }

  lemma KeywordParts(s: string, keyword: string) returns (w: nat, d: nat)
    requires KeywordNumber(s, keyword).Some?
    ensures NumberAfter(s, keyword, 0, w, d) && KeywordNumber(s, keyword).value.0 == |keyword| + w + d
  {
    hide SpaceRun, DigitRun, DecimalValue, IsSpace, IsDigit, AllSpace, AllDigits;
    var k := |keyword|;
    var u := s[k..];
    w := SpaceRun(u);
    d := DigitRun(u[w..]);
    DropThenTake(s, k, 0, w);
    WholeDrop(u);
    DropThenTake(s, k, w, d);
    assert k + w + d < |s| ==> u[w..][d] == s[k + w + d];
    assert s[0..k] == s[..k];
  }

  lemma NumberShift(s: string, keyword: string, p: nat, w: nat, d: nat)
    requires p <= |s|
    ensures NumberAfter(s[p..], keyword, 0, w, d) <==> NumberAfter(s, keyword, p, w, d)
  {
    hide AllSpace, AllDigits, IsDigit;
    var t, k := s[p..], |keyword|;
    if p + k + w + d <= |s| {
      SliceDropTake(s, p, 0, k);
      SliceDropTake(s, p, k, w);
      SliceDropTake(s, p, k + w, d);
      assert k + w + d < |t| ==> t[k + w + d] == s[p + k + w + d];
    }
  }

  // ----- the index for the new file -----

  /** A `.file` directive with a number starts the line at `p`, after `g` characters of white space. */
  ghost predicate FileAt(c: string, p: nat, g: nat, w: nat, d: nat) {
    && (p == 0 || (p <= |c| && c[p - 1] == '\n'))
    && p + g <= |c| && AllSpace(c[p..p + g])
    && NumberAfter(c, ".file", p + g, w, d)
    && (p + g + 5 + w + d < |c| ==> !IsWord(c[p + g + 5 + w + d]))
  }

  function FileNumber(c: string, p: nat, g: nat, w: nat, d: nat): nat
    requires FileAt(c, p, g, w, d)
  {
    DecimalValue(c[p + g + 5 + w..p + g + 5 + w + d])
  }

  lemma DotIsInk()
    ensures !IsSpace('.')
  {
  }

  lemma FileFacts(c: string, p: nat, g: nat, w: nat, d: nat)
    requires FileAt(c, p, g, w, d)
    ensures p + g + 5 + w + d <= |c| && c[p + g] == '.' && AllSpace(c[p..p + g])
    ensures NumberAfter(c, ".file", p + g, w, d)
    ensures p + g + 5 + w + d < |c| ==> !IsWord(c[p + g + 5 + w + d])
  {
    hide AllSpace, AllDigits, IsWord, IsDigit;
    assert c[p + g..p + g + 5][0] == c[p + g];
  }

  /** A directive in the text is matched, with its number. */
  lemma FileMatched(c: string, p: nat, g: nat, w: nat, d: nat)
    requires FileAt(c, p, g, w, d)
    ensures FileMatch(c[p..]).Some? && FileMatch(c[p..]).value.1 == FileNumber(c, p, g, w, d)
  {
    hide SpaceRun, KeywordNumber, DecimalValue, IsSpace, IsDigit, AllSpace, AllDigits, IsWord, FileAt, NumberAfter;
    FileFacts(c, p, g, w, d);
    var t := c[p..];
    var u := t[g..];
    assert u == c[p + g..];
    DropThenTake(c, p, 0, g);
    WholeDrop(t);
    NumberShift(c, ".file", p + g, w, d);
    KeywordFound(u, ".file", w, d);
    DotIsInk();
    Split(t, g);
    SpaceRunOf(t[..g], u);
    SliceDropTake(c, p + g, 5 + w, d);
    assert 5 + w + d < |u| ==> u[5 + w + d] == c[p + g + 5 + w + d];
  }

  /** What a match is made of. */
  lemma MatchedAfterSpace(t: string)
    requires FileMatch(t).Some?
    ensures var u := t[SpaceRun(t)..];
            && KeywordNumber(u, ".file").Some?
            && var n := KeywordNumber(u, ".file").value.0; n < |u| ==> !IsWord(u[n])
  {
    hide SpaceRun, KeywordNumber, IsWord;
  }

  lemma SpaceAt(c: string, p: nat)
    requires p <= |c|
    ensures var g := SpaceRun(c[p..]); p + g <= |c| && AllSpace(c[p..p + g]) && c[p..][g..] == c[p + g..]
  {
    hide SpaceRun, AllSpace;
    var g := SpaceRun(c[p..]);
    DropThenTake(c, p, 0, g);
    WholeDrop(c[p..]);
  }

  lemma MatchIsFile(c: string, p: nat) returns (g: nat, w: nat, d: nat)
    requires p <= |c| && (p == 0 || c[p - 1] == '\n') && FileMatch(c[p..]).Some?
    ensures FileAt(c, p, g, w, d)
  {
    hide SpaceRun, KeywordNumber, NumberAfter, FileMatch, AllSpace, IsWord;
    g := SpaceRun(c[p..]);
    SpaceAt(c, p);
    MatchedAfterSpace(c[p..]);
    var u := c[p + g..];
    w, d := KeywordParts(u, ".file");
    NumberShift(c, ".file", p + g, w, d);
    NumberEnds(c, ".file", p + g, w, d);
    assert 5 + w + d < |u| ==> u[5 + w + d] == c[p + g + 5 + w + d];
  }

  lemma NumberEnds(s: string, keyword: string, p: nat, w: nat, d: nat)
    requires NumberAfter(s, keyword, p, w, d)
    ensures p + |keyword| + w + d <= |s|
  {
  }

  /** Every index the scan collects is that of a match at the start of a line. */
  lemma {:induction false} IndexComes(s: string, lineStart: bool, n: nat) returns (p: nat)
    requires n in FileIndices(s, lineStart)
    ensures p <= |s| && (if p == 0 then lineStart else s[p - 1] == '\n')
    ensures FileMatch(s[p..]).Some? && FileMatch(s[p..]).value.1 == n
    decreases |s|
  {
    hide FileMatch, FileIndices;
    IndicesOfNone(s, lineStart, n);
    if lineStart && FileMatch(s).Some? {
      IndicesMatch(s);
      var k := FileMatch(s).value.0;
      if n == FileMatch(s).value.1 {
        p := 0;
        WholeDrop(s);
      } else {
        var q := IndexComes(s[k..], false, n);
        p := q + k;
        assert s[k..][q..] == s[p..] && s[k..][q - 1] == s[p - 1];
      }
    } else {
      IndicesStep(s, lineStart);
      var q := IndexComes(s[1..], s[0] == '\n', n);
      p := q + 1;
      assert s[1..][q..] == s[p..];
      assert q > 0 ==> s[1..][q - 1] == s[p - 1];
    }
  }

  lemma IndicesOfNone(s: string, lineStart: bool, n: nat)
    requires n in FileIndices(s, lineStart)
    ensures s != ""
  {
  }

  /**
   The new file's index is above that of every `.file` directive that starts a line, and no higher than it must be:
   it is 1, or one above the index of such a directive.
   */
  lemma FileIndexIsNext(c: string)
    ensures forall p: nat, g: nat, w: nat, d: nat | FileAt(c, p, g, w, d) :: FileNumber(c, p, g, w, d) < NextFileIndex(c)
    ensures NextFileIndex(c) == 1
            || exists p: nat, g: nat, w: nat, d: nat ::
                 FileAt(c, p, g, w, d) && NextFileIndex(c) == FileNumber(c, p, g, w, d) + 1
  {
    hide FileMatch, FileIndices, FileAt, FileNumber;
    forall p: nat, g: nat, w: nat, d: nat | FileAt(c, p, g, w, d) ensures FileNumber(c, p, g, w, d) < NextFileIndex(c) {
      StartsLine(c, p, g, w, d);
      FileMatched(c, p, g, w, d);
      FileIndexIsFresh(c, p);
    }
    var indices := FileIndices(c, true);
    if indices != [] {
      var p := IndexComes(c, true, Max(indices));
      var g, w, d := MatchIsFile(c, p);
      FileMatched(c, p, g, w, d);
    }
  }

  lemma StartsLine(c: string, p: nat, g: nat, w: nat, d: nat)
    requires FileAt(c, p, g, w, d)
    ensures p <= |c| && (p == 0 || c[p - 1] == '\n')
  {
  }

  // ----- the first `.address_size` -----

  /** An `.address_size` directive with a number stands at `p`, and the number ends at `a`. */
  ghost predicate AddressAt(c: string, p: nat, a: nat) {
    exists w: nat, d: nat :: NumberAfter(c, ".address_size", p, w, d) && a == p + 13 + w + d
  }

  lemma AddressMatched(c: string, p: nat)
    requires p <= |c|
    ensures KeywordNumber(c[p..], ADDRESS).Some? <==> exists a: nat :: AddressAt(c, p, a)
    ensures KeywordNumber(c[p..], ADDRESS).Some? ==>
              forall a: nat :: AddressAt(c, p, a) <==> a == p + KeywordNumber(c[p..], ADDRESS).value.0
  {
    hide KeywordNumber, NumberAfter;
    var t := c[p..];
    forall w: nat, d: nat | NumberAfter(c, ".address_size", p, w, d)
      ensures KeywordNumber(t, ADDRESS).Some? && KeywordNumber(t, ADDRESS).value.0 == 13 + w + d
    {
      NumberShift(c, ".address_size", p, w, d);
      KeywordFound(t, ADDRESS, w, d);
    }
    if KeywordNumber(t, ADDRESS).Some? {
      var w, d := KeywordParts(t, ADDRESS);
      NumberShift(c, ".address_size", p, w, d);
      assert AddressAt(c, p, p + 13 + w + d);
    }
  }

  /** From `p` on, the first directive ends at `a`. */
  ghost predicate FirstAddress(c: string, p: nat, a: nat) {
    exists q: nat :: p <= q <= |c| && AddressAt(c, q, a) && NoAddress(c, p, q)
  }

  ghost predicate NoAddress(c: string, p: nat, q: nat) {
    forall r: nat, b: nat | p <= r < q :: !AddressAt(c, r, b)
  }

  lemma AddressHere(c: string, p: nat, a: nat)
    requires p <= |c| && AddressAt(c, p, a)
    ensures FirstAddress(c, p, a)
    ensures forall b: nat :: FirstAddress(c, p, b) ==> AddressAt(c, p, b)
  {
    hide AddressAt;
    assert NoAddress(c, p, p);
    forall b: nat | FirstAddress(c, p, b) ensures AddressAt(c, p, b) {
      var q: nat :| p <= q <= |c| && AddressAt(c, q, b) && NoAddress(c, p, q);
      assert q > p ==> !AddressAt(c, p, a);
    }
  }

  lemma AddressNotHere(c: string, p: nat)
    requires p < |c| && forall a: nat :: !AddressAt(c, p, a)
    ensures forall a: nat :: FirstAddress(c, p, a) <==> FirstAddress(c, p + 1, a)
    ensures NoAddress(c, p, |c| + 1) <==> NoAddress(c, p + 1, |c| + 1)
  {
    hide AddressAt;
    forall a: nat ensures FirstAddress(c, p, a) <==> FirstAddress(c, p + 1, a) {
      if FirstAddress(c, p, a) {
        var q: nat :| p <= q <= |c| && AddressAt(c, q, a) && NoAddress(c, p, q);
        assert NoAddress(c, p + 1, q);
      }
      if FirstAddress(c, p + 1, a) {
        var q: nat :| p + 1 <= q <= |c| && AddressAt(c, q, a) && NoAddress(c, p + 1, q);
        assert NoAddress(c, p, q);
      }
    }
  }

  lemma {:induction false} AddressFrom(c: string, p: nat)
    requires p <= |c|
    ensures AddressEnd(c[p..]).Some? ==> FirstAddress(c, p, p + AddressEnd(c[p..]).value)
    ensures AddressEnd(c[p..]).None? ==> NoAddress(c, p, |c| + 1)
    decreases |c| - p
  {
    hide KeywordNumber, AddressEnd, AddressAt, FirstAddress, NoAddress;
    AddressMatched(c, p);
    if p == |c| {
      AddressAtEnd(c);
    } else {
      AddressUnfold(c[p..]);
      assert c[p..][1..] == c[p + 1..];
      if KeywordNumber(c[p..], ADDRESS).Some? {
        AddressHere(c, p, p + KeywordNumber(c[p..], ADDRESS).value.0);
      } else {
        AddressFrom(c, p + 1);
        AddressNotHere(c, p);
      }
    }
  }

  lemma AddressAtEnd(c: string)
    ensures AddressEnd(c[|c|..]).None? && NoAddress(c, |c|, |c| + 1)
  {
    assert c[|c|..] == "";
  }

  /** The file directive goes after the number of the first `.address_size` of the text, if there is one. */
  lemma AddressMeans(c: string)
    ensures AddressEnd(c).Some? ==> FirstAddress(c, 0, AddressEnd(c).value)
    ensures AddressEnd(c).None? ==> NoAddress(c, 0, |c| + 1)
  {
    hide AddressEnd, FirstAddress, NoAddress;
    AddressFrom(c, 0);
    WholeDrop(c);
  }

  /**
   How the marker pass ends: with the error for a missing `.address_size` when the comment-free text has none, else
   with the error for missing instructions when it has none of those, else with text and as many markers as there
   are instructions.
   */
  lemma OutcomeMeans(source: string, name: string)
    ensures var c, r := WithoutComments(source), LineMarked(source, name);
            && (r == NoAddressSize <==> NoAddress(c, 0, |c| + 1))
            && (r == NoInstructions <==> !NoAddress(c, 0, |c| + 1) && SourceSpans(c) == [])
            && (r.Marked? ==> r.count == |SourceSpans(c)|)
  {
    hide AddressEnd, NoAddress, FirstAddress, SourceSpans, WithoutComments, Apply, InsertionsOf;
    var c := WithoutComments(source);
    AddressMeans(c);
    if AddressEnd(c).Some? {
      SomeAddress(c, AddressEnd(c).value);
    }
  }

  lemma SomeAddress(c: string, a: nat)
    requires FirstAddress(c, 0, a)
    ensures !NoAddress(c, 0, |c| + 1)
  {
    hide AddressAt;
    var q: nat :| 0 <= q <= |c| && AddressAt(c, q, a) && NoAddress(c, 0, q);
  }
}
