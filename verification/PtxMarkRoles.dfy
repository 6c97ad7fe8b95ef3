/** Every source token keeps its role in the marked text. */
module PtxMarkRoles {
  import opened PtxText
  import opened PtxLex
  import opened PtxComments
  import opened PtxScan
  import opened PtxNormalize
  import opened PtxMarkers
  import opened PtxMarkStream
  import opened PtxMark
  import opened PtxGuide

  /** A token with its role. */
  datatype Placed = Placed(tok: string, role: Role)

  /** The tokens of a source stream with their roles. */
  function Placements(m: Mode, x: Stream): seq<Placed>
    decreases x
  {
    if x.End? then [] else [Placed(x.tok, RoleOf(m, x))] + Placements(After(m, x), x.rest)
  }

  /** Which tokens of the marked stream are inserted: those of the directives, and no others. */
  function InsertedIn(m: Mode, x: Stream, f: string, n: nat, a: nat, q: string): seq<bool>
    decreases x
  {
    if x.End? then []
    else
      (if StartsInstruction(m, x) then Yes(|f| + |Decimal(MarkLine(x, n))| + 2) else [])
      + [false]
      + (if a == |x.gap| + |x.tok| then Yes(|f| + 2) else [])
      + InsertedIn(After(m, x), x.rest, f, n + Newlines(x.gap + x.tok), Less(a, |x.gap| + |x.tok|), q)
  }

  function Yes(k: nat): seq<bool> {
    seq(k, _ => true)
  }

  /** The tokens that are not inserted. */
  function Kept(places: seq<Placed>, inserted: seq<bool>): seq<Placed>
    requires |places| == |inserted|
  {
    if places == [] then []
    else (if inserted[0] then [] else [places[0]]) + Kept(places[1..], inserted[1..])
  }

  /** The inserted tokens are of directives, or stand outside every body. */
  predicate InsertedRoles(places: seq<Placed>, inserted: seq<bool>)
    requires |places| == |inserted|
  {
    forall k | 0 <= k < |places| && inserted[k] :: places[k].role == InDirective || places[k].role == Outside
  }

  /** Without the inserted tokens, `places` are the tokens and roles of the source. */
  ghost predicate Restores(places: seq<Placed>, inserted: seq<bool>, source: seq<Placed>) {
    |places| == |inserted| && InsertedRoles(places, inserted) && Kept(places, inserted) == source
  }

  lemma {:induction false} RestoresInserted(
      front: seq<Placed>, places: seq<Placed>, inserted: seq<bool>, source: seq<Placed>)
    requires Restores(places, inserted, source)
    requires forall k | 0 <= k < |front| :: front[k].role == InDirective || front[k].role == Outside
    ensures Restores(front + places, Yes(|front|) + inserted, source)
  {
    if front == [] {
      assert front + places == places && Yes(0) + inserted == inserted;
    } else {
      RestoresInserted(front[1..], places, inserted, source);
      var all, mask := front + places, Yes(|front|) + inserted;
      assert all[1..] == front[1..] + places && mask[1..] == Yes(|front| - 1) + inserted;
      assert Kept(all, mask) == [] + Kept(all[1..], mask[1..]);
      forall k | 0 <= k < |all| && mask[k] ensures all[k].role == InDirective || all[k].role == Outside {
        if k > 0 { assert all[k] == all[1..][k - 1] && mask[k] == mask[1..][k - 1]; }
      }
    }
  }

  lemma RestoresKept(p: Placed, places: seq<Placed>, inserted: seq<bool>, source: seq<Placed>)
    requires Restores(places, inserted, source)
    ensures Restores([p] + places, [false] + inserted, [p] + source)
  {
    assert ([p] + places)[1..] == places && ([false] + inserted)[1..] == inserted;
  }

  // ----- the inserted directives -----

  lemma PlacedUnfold(m: Mode, x: Stream)
    requires x.Cons?
    ensures Placements(m, x) == [Placed(x.tok, RoleOf(m, x))] + Placements(After(m, x), x.rest)
  {
    hide Step, RoleOf;
  }

  /** Digits in a line directive, or outside every body. */
  lemma {:induction false} DigitsPlaced(m: Mode, gap: string, digits: string, y: Stream) returns (front: seq<Placed>)
    requires digits != "" && AllDigits(digits)
    requires m.Module? || (m.stmt == Directive(true) && '\n' !in y.gap)
    ensures |front| == |digits| && Placements(m, Digits(gap, digits, y)) == front + Placements(m, y)
    ensures forall k | 0 <= k < |front| :: front[k].role == InDirective || front[k].role == Outside
    decreases |digits|
  {
    hide Placements;
    var x := Digits(gap, digits, y);
    DigitPlaced(m, gap, digits, y);
    PlacedUnfold(m, x);
    front := [Placed(x.tok, RoleOf(m, x))];
    if |digits| > 1 {
      var rest := DigitsPlaced(m, "", digits[1..], y);
      assert front + (rest + Placements(m, y)) == (front + rest) + Placements(m, y);
      front := front + rest;
    }
  }

  lemma DigitPlaced(m: Mode, gap: string, digits: string, y: Stream)
    requires digits != "" && AllDigits(digits)
    requires m.Module? || (m.stmt == Directive(true) && '\n' !in y.gap)
    ensures var x := Digits(gap, digits, y);
            After(m, x) == m && (RoleOf(m, x) == InDirective || RoleOf(m, x) == Outside)
  {
    var x := Digits(gap, digits, y);
    assert |x.tok| == 1 && x.tok[0] == digits[0] && IsDigit(x.tok[0]);
    if |digits| > 1 {
      DigitsGap("", digits[1..], y);
    }
    assert x.tok != ";" && !OpensFunction(x.tok) && !OpensScope(x.tok);
    assert m.Body? ==> Current(m, x.tok, Head(x.rest)) == Directive(true);
  }

  lemma LocPlaced(m: Mode, gap: string, f: string, l: string, y: Stream) returns (front: seq<Placed>)
    requires f != "" && AllDigits(f) && l != "" && AllDigits(l)
    requires m.Body? && m.stmt == Idle && '\n' in y.gap
    ensures |front| == |f| + |l| + 2 && Placements(m, LocStream(gap, f, l, y)) == front + Placements(m, y)
    ensures forall k | 0 <= k < |front| :: front[k].role == InDirective || front[k].role == Outside
  {
    hide Placements;
    var zero := Cons(" ", "0", y);
    var line := Digits(" ", l, zero);
    var index := Digits(" ", f, line);
    var x := Cons(gap, ".loc", index);
    var d := m.(stmt := Directive(true));
    assert index.tok[0] == f[0];
    assert After(m, x) == d && RoleOf(m, x) == InDirective;
    DigitsGap(" ", l, zero);
    PlacedUnfold(m, x);
    var fs := DigitsPlaced(d, " ", f, line);
    var ls := DigitsPlaced(d, " ", l, zero);
    assert After(d, zero) == m && RoleOf(d, zero) == InDirective;
    PlacedUnfold(d, zero);
    var first, last := Placed(".loc", InDirective), Placed("0", InDirective);
    front := [first] + fs + ls + [last];
    var rest := Placements(m, y);
    assert [first] + (fs + (ls + ([last] + rest))) == front + rest;
  }

  lemma FilePlaced(m: Mode, f: string, q: string, y: Stream) returns (front: seq<Placed>)
    requires Parts(f, q) && m.Module?
    ensures |front| == |f| + 2 && Placements(m, FileStream(f, q, y)) == front + Placements(m, y)
    ensures forall k | 0 <= k < |front| :: front[k].role == InDirective || front[k].role == Outside
  {
    hide Placements;
    var z := AddGap("\n", y);
    var name := Cons(" ", q, z);
    var index := Digits(" ", f, name);
    var x := Cons("\n", ".file", index);
    assert After(m, x) == m && RoleOf(m, x) == Outside;
    PlacedUnfold(m, x);
    var fs := DigitsPlaced(m, " ", f, name);
    assert q[0] == '"' && After(m, name) == m && RoleOf(m, name) == Outside;
    PlacedUnfold(m, name);
    GapPlaced(m, "\n", y);
    var first, last := Placed(".file", Outside), Placed(q, Outside);
    front := [first] + fs + [last];
    var rest := Placements(m, y);
    assert [first] + (fs + ([last] + rest)) == front + rest;
  }

  lemma GapPlaced(m: Mode, gap: string, y: Stream)
    ensures Placements(m, AddGap(gap, y)) == Placements(m, y)
  {
    if y.Cons? {
      var z := AddGap(gap, y);
      assert HasSemi(z) <==> HasSemi(y);
      PlacedUnfold(m, y);
      PlacedUnfold(m, z);
    }
  }

  // ----- the marked stream -----

  /** The first token plays the part it played, whatever is now before and after it. */
  lemma SameRole(m: Mode, x: Stream, gap: string, f: string, n: nat, a: nat, q: string)
    requires Parts(f, q) && Closed(x) && x.Cons? && Boundary(m, x, a)
    ensures var y := Cons(gap, x.tok, MarkRest(m, x, f, n, a, q));
            After(m, y) == After(m, x) && RoleOf(m, y) == RoleOf(m, x)
  {
    hide IsToken, IsString, Closed, Boundary, Newlines;
    MarkSemi(m, x, f, n, a, q);
    MarkStep(m, x, gap, f, n, a, q);
    if m.Body? {
      BoundaryInBody(m, x, a);
    }
  }

  lemma RestPlaced(m: Mode, x: Stream, f: string, n: nat, a: nat, q: string, inserted: seq<bool>, source: seq<Placed>)
    requires Parts(f, q) && Closed(x) && x.Cons? && Boundary(m, x, a)
    requires var tail := Mark(After(m, x), x.rest, f, n + Newlines(x.gap + x.tok), Less(a, |x.gap| + |x.tok|), q);
             Restores(Placements(After(m, x), tail), inserted, source)
    ensures Restores(Placements(After(m, x), MarkRest(m, x, f, n, a, q)),
                     (if a == |x.gap| + |x.tok| then Yes(|f| + 2) else []) + inserted, source)
  {
    hide Step, Placements, FileStream, Mark, Newlines, Restores, Yes;
    ClosedHead(x);
    var k := |x.gap| + |x.tok|;
    var tail := Mark(After(m, x), x.rest, f, n + Newlines(x.gap + x.tok), Less(a, k), q);
    if a == k {
      var front := FilePlaced(After(m, x), f, q, tail);
      RestoresInserted(front, Placements(After(m, x), tail), inserted, source);
    } else {
      assert [] + inserted == inserted;
    }
  }

  lemma InsertedUnfold(m: Mode, x: Stream, f: string, n: nat, a: nat, q: string)
    requires x.Cons?
    ensures InsertedIn(m, x, f, n, a, q)
         == (if StartsInstruction(m, x) then Yes(|f| + |Decimal(MarkLine(x, n))| + 2) else [])
            + ([false]
               + ((if a == |x.gap| + |x.tok| then Yes(|f| + 2) else [])
                  + InsertedIn(After(m, x), x.rest, f, n + Newlines(x.gap + x.tok), Less(a, |x.gap| + |x.tok|), q)))
  {
    hide Step, Yes, Newlines, Decimal, Less;
  }

  lemma {:induction false} MarkKeepsRoles(m: Mode, x: Stream, f: string, n: nat, a: nat, q: string)
    requires Parts(f, q) && Closed(x) && Boundary(m, x, a)
    ensures Restores(Placements(m, Mark(m, x, f, n, a, q)), InsertedIn(m, x, f, n, a, q), Placements(m, x))
    decreases x
  {
    hide Step, StartsInstruction, Placements, InsertedIn, Boundary, Closed, Newlines, MarkLine, MarkRest, LocStream,
         Decimal, RestGap, MarkGap, Restores, RoleOf, Yes;
    if x.End? {
      NothingPlaced(m, x, f, n, a, q);
    } else {
      ClosedHead(x);
      var n', a' := n + Newlines(x.gap + x.tok), Less(a, |x.gap| + |x.tok|);
      BoundaryOfRest(m, x, a);
      MarkKeepsRoles(After(m, x), x.rest, f, n', a', q);
      var file := if a == |x.gap| + |x.tok| then Yes(|f| + 2) else [];
      var later := file + InsertedIn(After(m, x), x.rest, f, n', a', q);
      RestPlaced(m, x, f, n, a, q, InsertedIn(After(m, x), x.rest, f, n', a', q), Placements(After(m, x), x.rest));
      var gap := if StartsInstruction(m, x) then "\n" + RestGap(x.gap) else x.gap;
      var y := Cons(gap, x.tok, MarkRest(m, x, f, n, a, q));
      SameRole(m, x, gap, f, n, a, q);
      PlacedUnfold(m, x);
      PlacedUnfold(m, y);
      InsertedUnfold(m, x, f, n, a, q);
      var p := Placed(x.tok, RoleOf(m, x));
      RestoresKept(p, Placements(After(m, x), y.rest), later, Placements(After(m, x), x.rest));
      if StartsInstruction(m, x) {
        StartFacts(m, x);
        assert gap[0] == '\n';
        var front := LocPlaced(m, MarkGap(x.gap), f, Decimal(MarkLine(x, n)), y);
        RestoresInserted(front, Placements(m, y), [false] + later, Placements(m, x));
      } else {
        assert [] + ([false] + later) == [false] + later;
      }
    }
  }

  lemma BoundaryOfRest(m: Mode, x: Stream, a: nat)
    requires x.Cons? && Boundary(m, x, a)
    ensures Boundary(After(m, x), x.rest, Less(a, |x.gap| + |x.tok|))
  {
    hide Step;
  }

  lemma NothingPlaced(m: Mode, x: Stream, f: string, n: nat, a: nat, q: string)
    requires x.End? && f != ""
    ensures Restores(Placements(m, Mark(m, x, f, n, a, q)), InsertedIn(m, x, f, n, a, q), Placements(m, x))
  {
  }

  /**
   In the marked text every token of the source is there, in order and in its role, be it in an instruction, a
   directive, a label, a scope brace or outside every body; all other tokens are those of the `.file` and `.loc`
   directives, which are read as directives or outside every body.
   */
  lemma MarkingKeepsRoles(source: string, name: string)
    requires Markable(source)
    ensures var c, r := WithoutComments(source), LineMarked(source, name);
            && r.Marked?
            && Restores(Placements(START, Lex(r.text)),
                        InsertedIn(START, Lex(c), Decimal(NextFileIndex(c)), 0, AddressEnd(c).value, Quoted(name)),
                        Placements(START, Lex(c)))
  {
    hide Restores, Placements, InsertedIn, Lex, Closed, Boundary, LineMarked, WithoutComments, AddressEnd, NextFileIndex,
         Decimal, Quoted, Mark, Text, WellFormed;
    var c := WithoutComments(source);
    MarkableIsPlaceable(source);
    MarkedLexes(source, name);
    ClosedSource(source);
    QuotedIsString(name);
    MarkKeepsRoles(START, Lex(c), Decimal(NextFileIndex(c)), 0, AddressEnd(c).value, Quoted(name));
  }
}
