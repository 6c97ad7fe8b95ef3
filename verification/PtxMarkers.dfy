/** Adding `.file` and `.loc` markers with physical line numbers to PTX text. */
module PtxMarkers {
  import opened Wrappers
  import opened PtxText
  import opened PtxComments
  import opened PtxScan
  import opened PtxInsert

  predicate StartsWith(s: string, prefix: string) {
    |prefix| <= |s| && s[..|prefix|] == prefix
  }

  /** Length of the digits at the front of `s`. */
  function DigitRun(s: string): (n: nat)
    ensures n <= |s|
    ensures AllDigits(s[..n])
    ensures n < |s| ==> !IsDigit(s[n])
  {
    if s != "" && IsDigit(s[0]) then 1 + DigitRun(s[1..]) else 0
  }

  /** `keyword`, white space and a number at the front of `s`: the length of it all, and the number. */
  function KeywordNumber(s: string, keyword: string): (r: Option<(nat, nat)>)
    ensures r.Some? ==> 0 < r.value.0 <= |s| && IsDigit(s[r.value.0 - 1])
  {
    if !StartsWith(s, keyword) then None
    else
      var u := s[|keyword|..];
      var w := SpaceRun(u);
      var v := u[w..];
      var d := DigitRun(v);
      if w == 0 || d == 0 then None
      else
        var n := |keyword| + w + d;
        assert s[n - 1] == u[w + d - 1] == v[d - 1] == v[..d][d - 1];
        Some((n, DecimalValue(v[..d])))
  }

  // ----- the index for the new file -----

  /** A `.file` directive with its index, after white space: how long the match is, and the index. */
  function FileMatch(s: string): (r: Option<(nat, nat)>)
    ensures r.Some? ==> 0 < r.value.0 <= |s|
  {
    var g := SpaceRun(s);
    var u := s[g..];
    match KeywordNumber(u, ".file")
    case None => None
    case Some((n, index)) => if n < |u| && IsWord(u[n]) then None else Some((g + n, index))
  }

  /** The indices of the matches at line starts, scanned from the left without overlaps. */
  function FileIndices(s: string, lineStart: bool): seq<nat>
    decreases |s|
  {
    if s == "" then []
    else if lineStart && FileMatch(s).Some? then
      [FileMatch(s).value.1] + FileIndices(s[FileMatch(s).value.0..], false)
    else FileIndices(s[1..], s[0] == '\n')
  }

  function Max(xs: seq<nat>): (m: nat)
    ensures forall x | x in xs :: x <= m
    ensures xs != [] ==> m in xs
    ensures xs == [] ==> m == 0
  {
    if xs == [] then 0
    else
      var m := Max(xs[1..]);
      assert xs == [xs[0]] + xs[1..];
      if xs[1..] == [] || xs[0] > m then xs[0] else m
  }

  function NextFileIndex(source: string): nat {
    Max(FileIndices(source, true)) + 1
  }

  // ----- the pieces that are inserted -----

  function Replace(s: string, c: char, replacement: string): string {
    if s == "" then "" else (if s[0] == c then replacement else [s[0]]) + Replace(s[1..], c, replacement)
  }

  function Escaped(name: string): string {
    Replace(Replace(name, '\\', "\\\\"), '"', "\\\"")
  }

  /** The file name as a PTX string literal. */
  function Quoted(name: string): string {
    "\"" + Escaped(name) + "\""
  }

  function FileText(index: nat, name: string): string {
    "\n.file " + Decimal(index) + " " + Quoted(name) + "\n"
  }

  function LocText(index: nat, line: nat): string {
    ".loc " + Decimal(index) + " " + Decimal(line) + " 0\n"
  }

  /** Where the number of the first `.address_size` directive ends. */
  function AddressEnd(s: string): (r: Option<nat>)
    ensures r.Some? ==> 0 < r.value <= |s| && IsDigit(s[r.value - 1])
  {
    if s == "" then None
    else
      match KeywordNumber(s, ".address_size")
      case Some((n, _)) => Some(n)
      case None =>
        match AddressEnd(s[1..])
        case None => None
        case Some(n) => Some(n + 1)
  }

  /** The number of the physical line that holds position `p`. */
  function LineNumber(source: string, p: nat): nat
    requires p <= |source|
  {
    1 + Newlines(source[..p])
  }

  /**
   The marker of an instruction at `start`, on a line that begins at `lineStart`: before the line if nothing
   but white space precedes the instruction there, else right before the instruction, on a new line.
   */
  function MarkerAt(source: string, index: nat, start: nat, lineStart: nat, line: nat): Insertion
    requires lineStart <= start <= |source|
  {
    var at := if AllSpace(source[lineStart..start]) then lineStart else start;
    var prefix := if at == 0 || source[at - 1] == '\n' then "" else "\n";
    Insertion(at, prefix + LocText(index, line))
  }

  /** The marker carries the number of the line that holds the instruction's semicolon. */
  function Marker(source: string, index: nat, s: Span): Insertion
    requires s.start < s.end <= |source|
  {
    MarkerAt(source, index, s.start, LineStart(source[..s.start]), LineNumber(source, s.end - 1))
  }

  predicate Inside(source: string, spans: seq<Span>) {
    forall k | 0 <= k < |spans| :: spans[k].start < spans[k].end <= |source|
  }

  function MarkersOf(source: string, index: nat, spans: seq<Span>): seq<Insertion>
    requires Inside(source, spans)
  {
    if spans == [] then []
    else [Marker(source, index, spans[0])] + MarkersOf(source, index, spans[1..])
  }

  datatype Outcome = Marked(text: string, count: nat) | NoAddressSize | NoInstructions

  function InsertionsOf(c: string, name: string): seq<Insertion>
    requires AddressEnd(c).Some?
  {
    SourceTexts(c);
    var index := NextFileIndex(c);
    [Insertion(AddressEnd(c).value, FileText(index, name))] + MarkersOf(c, index, SourceSpans(c))
  }

  /** What the loop below computes, said position by position. */
  function LineMarked(source: string, name: string): Outcome {
    var c := WithoutComments(source);
    if AddressEnd(c).None? then NoAddressSize
    else if SourceSpans(c) == [] then NoInstructions
    else Marked(Apply(c, InsertionsOf(c, name)), |SourceSpans(c)|)
  }

  // ----- the one-pass line counter -----

  function NewlinePositions(s: string): (r: seq<nat>)
    ensures forall k | 0 <= k < |r| :: r[k] < |s|
  {
    if s == "" then []
    else
      var n := |s| - 1;
      NewlinePositions(s[..n]) + (if s[n] == '\n' then [n] else [])
  }

  lemma PositionsStep(s: string)
    requires s != ""
    ensures var n := |s| - 1;
            var qs := NewlinePositions(s[..n]);
            && NewlinePositions(s) == (if s[n] == '\n' then qs + [n] else qs)
            && Newlines(s) == Newlines(s[..n]) + (if s[n] == '\n' then 1 else 0)
  {
    var n := |s| - 1;
    Split(s, n);
    NewlinesConcat(s[..n], s[n..]);
    assert s[n..] == [s[n]] && Newlines([s[n]][1..]) == 0;
  }

  /** One position for each newline, the last one just before the last line starts. */
  lemma {:induction false} PositionsCount(s: string)
    ensures var ps := NewlinePositions(s);
            && |ps| == Newlines(s)
            && LineStart(s) == (if ps == [] then 0 else ps[|ps| - 1] + 1)
  {
    if s != "" {
      hide NewlinePositions, Newlines;
      PositionsStep(s);
      PositionsCount(s[..|s| - 1]);
    }
  }

  /** The counter `k` has passed the newlines before `p` and no other. */
  ghost predicate At(source: string, k: nat, p: nat) {
    var ps := NewlinePositions(source);
    k <= |ps| && (forall j | 0 <= j < k :: ps[j] < p) && (forall j | k <= j < |ps| :: p <= ps[j])
  }

  function LineStartAfter(ps: seq<nat>, k: nat): nat
    requires k <= |ps|
  {
    if k == 0 then 0 else ps[k - 1] + 1
  }

  lemma TakeTake(s: string, p: nat, n: nat)
    requires p <= n <= |s|
    ensures s[..n][..p] == s[..p]
  {
  }

  /** The positions before `p` come first, and are those of the text before `p`. */
  lemma {:induction false} PositionsSplit(s: string, p: nat)
    requires p <= |s|
    ensures var ps, qs := NewlinePositions(s), NewlinePositions(s[..p]);
            |qs| <= |ps| && ps[..|qs|] == qs && forall j | |qs| <= j < |ps| :: p <= ps[j]
    decreases |s|
  {
    hide NewlinePositions;
    if p == |s| {
      assert s[..p] == s;
    } else {
      var n := |s| - 1;
      PositionsStep(s);
      TakeTake(s, p, n);
      PositionsSplit(s[..n], p);
    }
  }

  lemma CutUnique(ps: seq<nat>, p: nat, j: nat, k: nat)
    requires j <= |ps| && (forall i | 0 <= i < j :: ps[i] < p) && (forall i | j <= i < |ps| :: p <= ps[i])
    requires k <= |ps| && (forall i | 0 <= i < k :: ps[i] < p) && (forall i | k <= i < |ps| :: p <= ps[i])
    ensures j == k
  {
    assert j < |ps| ==> p <= ps[j];
    assert k < |ps| ==> p <= ps[k];
  }

  /** The running count is the recount, and the running line start is the recomputed one. */
  lemma CounterIsRecount(s: string, p: nat, k: nat)
    requires p <= |s| && At(s, k, p)
    ensures 1 + k == LineNumber(s, p)
    ensures LineStartAfter(NewlinePositions(s), k) == LineStart(s[..p])
  {
    hide NewlinePositions, Newlines, LineStart;
    var ps, qs := NewlinePositions(s), NewlinePositions(s[..p]);
    PositionsSplit(s, p);
    forall i | 0 <= i < |qs| ensures ps[i] < p {
      assert ps[i] == qs[i];
    }
    CutUnique(ps, p, k, |qs|);
    PositionsCount(s[..p]);
  }

  /** The counter has passed `passed` newlines, all of them before `p`. */
  ghost predicate Counted(source: string, newlines: seq<nat>, passed: nat, lineNumber: nat, lineStart: nat, p: nat) {
    && newlines == NewlinePositions(source)
    && passed <= |newlines|
    && (forall j | 0 <= j < passed :: newlines[j] < p)
    && lineNumber == 1 + passed
    && lineStart == LineStartAfter(newlines, passed)
  }

  lemma {:induction false} PositionsRise(s: string, j: nat, k: nat)
    requires j < k < |NewlinePositions(s)|
    ensures NewlinePositions(s)[j] < NewlinePositions(s)[k]
  {
    assert s != "";
    hide NewlinePositions;
    PositionsStep(s);
    if k < |NewlinePositions(s[..|s| - 1])| {
      PositionsRise(s[..|s| - 1], j, k);
    }
  }

  lemma CountNone(source: string)
    ensures Counted(source, NewlinePositions(source), 0, 1, 0, 0)
  {
  }

  lemma CountedEarlier(source: string, newlines: seq<nat>, passed: nat, lineNumber: nat, lineStart: nat, p: nat, q: nat)
    requires Counted(source, newlines, passed, lineNumber, lineStart, p) && p <= q
    ensures Counted(source, newlines, passed, lineNumber, lineStart, q)
  {
  }

  /** The loop that moves the counter past the newlines before position `p`. */
  method PassNewlines(source: string, newlines: seq<nat>, passed0: nat, lineNumber0: nat, lineStart0: nat,
                      ghost p0: nat, p: nat)
    returns (passed: nat, lineNumber: nat, lineStart: nat)
    requires Counted(source, newlines, passed0, lineNumber0, lineStart0, p0) && p0 <= p <= |source|
    ensures Counted(source, newlines, passed, lineNumber, lineStart, p)
    ensures lineNumber == LineNumber(source, p) && lineStart == LineStart(source[..p])
  {
    hide NewlinePositions, LineNumber, LineStart;
    CountedEarlier(source, newlines, passed0, lineNumber0, lineStart0, p0, p);
    passed, lineNumber, lineStart := passed0, lineNumber0, lineStart0;
    while passed < |newlines| && newlines[passed] < p
      invariant Counted(source, newlines, passed, lineNumber, lineStart, p)
    {
      lineNumber := lineNumber + 1;
      lineStart := newlines[passed] + 1;
      passed := passed + 1;
    }
    forall j | passed <= j < |newlines| ensures p <= newlines[j] {
      if j > passed {
        PositionsRise(source, passed, j);
      }
    }
    CounterIsRecount(source, p, passed);
  }

  lemma MarkersFirst(source: string, index: nat, s: Span, spans: seq<Span>)
    requires Inside(source, [s] + spans)
    ensures Inside(source, spans) && s.start < s.end <= |source|
    ensures MarkersOf(source, index, [s] + spans) == [Marker(source, index, s)] + MarkersOf(source, index, spans)
  {
    var all := [s] + spans;
    assert all[0] == s && all[1..] == spans;
    forall k | 0 <= k < |spans| ensures spans[k].start < spans[k].end <= |source| {
      assert spans[k] == all[k + 1];
    }
  }

  lemma MarkersNext(a: seq<Insertion>, i: Insertion, b: seq<Insertion>)
    ensures a + ([i] + b) == (a + [i]) + b
  {
  }

  lemma OrderedInside(source: string, spans: seq<Span>, lo: nat)
    requires Ordered(spans, lo, |source|)
    ensures Inside(source, spans)
  {
    forall k | 0 <= k < |spans| ensures spans[k].start < spans[k].end <= |source| {
      assert spans[k] in spans;
    }
  }

  lemma OrderedAt(source: string, spans: seq<Span>, k: nat)
    requires Ordered(spans, 0, |source|) && k < |spans|
    ensures spans[k].start < spans[k].end <= |source|
    ensures k + 1 < |spans| ==> spans[k].end <= spans[k + 1].start
  {
    assert spans[k] in spans;
  }

  method AddLineMarkers(original: string, sourceName: string) returns (r: Outcome)
    ensures r == LineMarked(original, sourceName)
  {
    hide WithoutComments, NextFileIndex, SourceSpans, Apply, MarkersOf, FileText, LocText, NewlinePositions,
         AddressEnd, LineStart, LineNumber;
    var source := WithoutComments(original);
    var fileIndex := NextFileIndex(source);
    var address := AddressEnd(source);
    if address.None? {
      return NoAddressSize;
    }
    var insertions := [Insertion(address.value, FileText(fileIndex, sourceName))];
    var spans := InstructionSpans(source);
    if spans == [] {
      return NoInstructions;
    }
    SourceTexts(source);
    OrderedInside(source, spans, 0);
    var markers := LocMarkers(source, fileIndex, spans);
    insertions := insertions + markers;
    var text := ApplyInsertions(source, insertions);
    r := Marked(text, |spans|);
  }

  /** The loop over the spans: the newline counter runs through the source once. */
  method LocMarkers(source: string, fileIndex: nat, spans: seq<Span>) returns (markers: seq<Insertion>)
    requires Ordered(spans, 0, |source|) && Inside(source, spans)
    ensures markers == MarkersOf(source, fileIndex, spans)
  {
    hide Inside, Counted, NewlinePositions, LineNumber, LineStart, MarkerAt, MarkersOf, Ordered, Made;
    var newlines := NewlinePositions(source);
    var passed, lineNumber, lineStart := 0, 1, 0;
    CountNone(source);
    markers := [];
    MadeNone(source, fileIndex, spans);
    ghost var reached: nat := 0;
    for k := 0 to |spans|
      invariant Counted(source, newlines, passed, lineNumber, lineStart, reached)
      invariant k < |spans| ==> reached <= spans[k].start
      invariant Made(source, fileIndex, markers, spans, k)
    {
      OrderedAt(source, spans, k);
      var start, end := spans[k].start, spans[k].end;
      passed, lineNumber, lineStart :=
        PassNewlines(source, newlines, passed, lineNumber, lineStart, reached, start);
      var instructionLineStart := lineStart;
      passed, lineNumber, lineStart :=
        PassNewlines(source, newlines, passed, lineNumber, lineStart, start, end - 1);
      reached := end - 1;
      var marker := MarkerAt(source, fileIndex, start, instructionLineStart, lineNumber);
      MadeMore(source, fileIndex, markers, spans, k);
      markers := markers + [marker];
    }
    MadeAll(source, fileIndex, markers, spans);
  }

  /** The markers made so far, for the first `k` spans. */
  ghost predicate Made(source: string, index: nat, markers: seq<Insertion>, spans: seq<Span>, k: nat)
    requires Inside(source, spans)
  {
    && k <= |spans|
    && Inside(source, spans[k..])
    && markers + MarkersOf(source, index, spans[k..]) == MarkersOf(source, index, spans)
  }

  lemma MadeNone(source: string, index: nat, spans: seq<Span>)
    requires Inside(source, spans)
    ensures Made(source, index, [], spans, 0)
  {
    assert spans[0..] == spans;
    assert [] + MarkersOf(source, index, spans) == MarkersOf(source, index, spans);
  }

  lemma MadeMore(source: string, index: nat, markers: seq<Insertion>, spans: seq<Span>, k: nat)
    requires Inside(source, spans) && k < |spans| && Made(source, index, markers, spans, k)
    ensures Made(source, index, markers + [Marker(source, index, spans[k])], spans, k + 1)
  {
    hide MarkersOf, Marker;
    assert spans[k..] == [spans[k]] + spans[k + 1..];
    MarkersFirst(source, index, spans[k], spans[k + 1..]);
    MarkersNext(markers, Marker(source, index, spans[k]), MarkersOf(source, index, spans[k + 1..]));
  }

  lemma MadeAll(source: string, index: nat, markers: seq<Insertion>, spans: seq<Span>)
    requires Inside(source, spans) && Made(source, index, markers, spans, |spans|)
    ensures markers == MarkersOf(source, index, spans)
  {
    assert spans[|spans|..] == [];
  }
}
