/** Which tokens open a body, a scope and a statement, and which end them, by name. */
module PtxStatements {
  import opened PtxText
  import opened PtxLex
  import opened PtxScan

  // ----- function bodies -----

  /** The `i`-th token announces a function, and up to the `k`-th token nothing has ended the announcement. */
  ghost predicate Announces(x: Stream, i: nat, k: nat) {
    && i < k && (TokAt(x, i) == ".entry" || TokAt(x, i) == ".func")
    && (forall j: nat | i <= j <= k :: ModeAt(START, x, j).Module?)
    && (forall j: nat | i < j < k :: TokAt(x, j) != ";")
  }

  ghost predicate Announced(x: Stream, k: nat) {
    exists i: nat :: Announces(x, i, k)
  }

  /** One token outside every body. */
  lemma ModuleStep(awaiting: bool, y: Stream)
    requires y.Cons?
    ensures After(Module(awaiting), y)
         == if y.tok == ".entry" || y.tok == ".func" then Module(true)
            else if y.tok == ";" then Module(false)
            else if awaiting && y.tok == "{" then Body(1, Idle)
            else Module(awaiting)
  {
  }

  lemma ModuleAgain(m: Mode, y: Stream)
    requires y.Cons? && m.Body? && After(m, y).Module?
    ensures After(m, y) == Module(false)
  {
  }

  lemma AnnouncesMore(x: Stream, i: nat, k: nat)
    requires ModeAt(START, x, k + 1).Module? && i < k
    ensures Announces(x, i, k + 1) <==> Announces(x, i, k) && TokAt(x, k) != ";"
  {
    hide ModeAt, TokAt;
  }

  lemma AnnouncesNow(x: Stream, k: nat)
    requires ModeAt(START, x, k + 1).Module?
    ensures Announces(x, k, k + 1) <==> ModeAt(START, x, k).Module? && (TokAt(x, k) == ".entry" || TokAt(x, k) == ".func")
  {
    hide ModeAt, TokAt;
  }

  /** A body is awaited exactly after an announcement that no semicolon has ended. */
  lemma {:induction false} AwaitingMeans(x: Stream, k: nat)
    requires ModeAt(START, x, k).Module? && (k > 0 ==> Drop(x, k - 1).Cons?)
    ensures ModeAt(START, x, k).awaiting <==> Announced(x, k)
    decreases k
  {
    hide ModeAt, Drop, Step, Announces;
    if k == 0 {
      NoneAnnounced(x);
    } else {
      var m, y := ModeAt(START, x, k - 1), Drop(x, k - 1);
      DropNext(START, x, k - 1);
      AnnouncesNow(x, k - 1);
      forall i: nat | i < k - 1 ensures Announces(x, i, k) <==> Announces(x, i, k - 1) && y.tok != ";" {
        AnnouncesMore(x, i, k - 1);
      }
      AnnouncesEarlier(x, k);
      AnnouncesEarlier(x, k - 1);
      if m.Module? {
        AwaitingMeans(x, k - 1);
        ModuleStep(m.awaiting, y);
        if m.awaiting && y.tok != ";" {
          var i: nat :| Announces(x, i, k - 1);
          assert Announces(x, i, k);
        }
      } else {
        ModuleAgain(m, y);
        NotFromBody(x, k);
      }
    }
  }

  lemma NoneAnnounced(x: Stream)
    ensures ModeAt(START, x, 0) == Module(false) && !Announced(x, 0)
  {
  }

  lemma AnnouncesEarlier(x: Stream, k: nat)
    ensures forall i: nat :: Announces(x, i, k) ==> i < k
  {
  }

  lemma NotFromBody(x: Stream, k: nat)
    requires k > 0 && ModeAt(START, x, k - 1).Body?
    ensures !Announced(x, k)
  {
    hide ModeAt, TokAt;
  }

  /**
   Outside every body, the scanner enters one exactly at an opening brace after `.entry` or `.func` with no semicolon
   and no body between.
   */
  lemma BodyOpensAt(source: string, k: nat)
    requires k < |TokensAt(Lex(source), 0)| && ModeAt(START, Lex(source), k).Module?
    ensures var x := Lex(source);
            ModeAt(START, x, k + 1).Body? <==> TokAt(x, k) == "{" && Announced(x, k)
    ensures ModeAt(START, Lex(source), 0).Module?
  {
    hide Lex, ModeAt, Drop, TokensAt, Step, Announced;
    var x := Lex(source);
    TokenOf(START, x, 0, k);
    if k > 0 {
      DropNext(START, x, k);
    }
    AwaitingMeans(x, k);
    ModuleStep(ModeAt(START, x, k).awaiting, Drop(x, k));
    NoneAnnounced(x);
  }

  // ----- statements -----

  /** The `i`-th token is met in a body with no statement pending. */
  predicate IdleAt(x: Stream, i: nat) {
    ModeAt(START, x, i).Body? && ModeAt(START, x, i).stmt == Idle
  }

  /** The `i`-th token begins a statement: it is no brace and no colon, and no colon follows it. */
  predicate BeginsAt(x: Stream, i: nat) {
    && IdleAt(x, i)
    && TokAt(x, i) != "{" && TokAt(x, i) != "}" && TokAt(x, i) != ":" && TokAt(x, i + 1) != ":"
  }

  predicate StartsWithDot(t: string) {
    t != "" && t[0] == '.'
  }

  /** The `j`-th token ends a directive that begins with `head`. */
  predicate EndsDirectiveAt(x: Stream, head: string, j: nat) {
    || TokAt(x, j) == ";"
    || ((head == ".loc" || head == ".file" || head == ".section") && '\n' in Drop(x, j + 1).gap)
  }

  /** The `i`-th token begins a directive that no token before the `k`-th ends. */
  predicate DirectiveFrom(x: Stream, i: nat, k: nat) {
    && i <= k && BeginsAt(x, i) && StartsWithDot(TokAt(x, i))
    && forall j | i <= j < k :: !EndsDirectiveAt(x, TokAt(x, i), j)
  }

  /** The `i`-th token begins an instruction that no token before the `k`-th ends. */
  predicate InstructionFrom(x: Stream, i: nat, k: nat) {
    && i <= k && BeginsAt(x, i) && !StartsWithDot(TokAt(x, i))
    && forall j | i <= j < k :: TokAt(x, j) != ";"
  }

  lemma SameEnds(x: Stream, i: nat, j: nat)
    ensures EndsDirectiveAt(x, TokAt(x, i), j) <==> EndsDirective(x, i, j)
  {
    hide Drop, TokAt;
  }

  lemma SameBegins(x: Stream, i: nat)
    ensures BeginsAt(x, i) <==> Begins(ModeAt(START, x, i), TokAt(x, i), TokAt(x, i + 1))
    ensures StartsWithDot(TokAt(x, i)) <==> IsDirective(TokAt(x, i))
  {
    hide ModeAt, TokAt;
  }

  lemma SameRun(x: Stream, i: nat, k: nat)
    ensures DirectiveFrom(x, i, k) <==> DirectiveRun(START, x, i, k)
  {
    hide BeginsAt, StartsWithDot, Begins, IsDirective, EndsDirective, EndsDirectiveAt, TokAt, ModeAt;
    SameBegins(x, i);
    forall j ensures EndsDirectiveAt(x, TokAt(x, i), j) <==> EndsDirective(x, i, j) {
      SameEnds(x, i, j);
    }
  }

  /**
   A directive ends with its first semicolon or, when it begins with `.loc`, `.file` or `.section`, with its first
   token that a newline follows.
   */
  lemma DirectiveEndsAt(x: Stream, i: nat, k: nat)
    requires DirectiveFrom(x, i, k) && Drop(x, k).Cons?
    ensures IdleAt(x, k + 1) <==> EndsDirectiveAt(x, TokAt(x, i), k)
  {
    hide DirectiveFrom, DirectiveRun, EndsDirectiveAt, EndsDirective, ModeAt, Drop, TokAt;
    SameRun(x, i, k);
    SameEnds(x, i, k);
    DirectiveEnds(START, x, i, k);
  }

  /** A pending instruction goes on to its semicolon. */
  lemma InstructionStep(m: Mode, y: Stream)
    requires y.Cons? && Current(m, y.tok, Head(y.rest)) == Instruction
    ensures After(m, y).Body? && After(m, y).stmt == if y.tok == ";" then Idle else Instruction
  {
  }

  lemma InstructionCame(m: Mode, y: Stream)
    requires y.Cons? && After(m, y).Body? && After(m, y).stmt == Instruction
    ensures Current(m, y.tok, Head(y.rest)) == Instruction && y.tok != ";"
  {
  }

  lemma InstructionGoesOn(m: Mode, t: string, next: string)
    requires m.Body? && m.stmt == Instruction
    ensures Current(m, t, next) == Instruction
  {
  }

  lemma InstructionBegins(m: Mode, t: string, next: string)
    ensures Begins(m, t, next) ==> (Current(m, t, next) == Instruction <==> !IsDirective(t))
    ensures !Begins(m, t, next) ==> (Current(m, t, next) == Instruction <==> m.Body? && m.stmt == Instruction)
  {
  }

  lemma {:induction false} RunIsInstruction(x: Stream, i: nat, k: nat)
    requires InstructionFrom(x, i, k) && Drop(x, k).Cons?
    ensures Current(ModeAt(START, x, k), TokAt(x, k), TokAt(x, k + 1)) == Instruction
    decreases k
  {
    hide Step, ModeAt, Drop, Current, BeginsAt, StartsWithDot, Begins, IsDirective;
    DropNext(START, x, k);
    SameBegins(x, i);
    if i == k {
      InstructionBegins(ModeAt(START, x, k), TokAt(x, k), TokAt(x, k + 1));
    } else {
      DropNext(START, x, k - 1);
      RunIsInstruction(x, i, k - 1);
      assert TokAt(x, k - 1) != ";";
      InstructionStep(ModeAt(START, x, k - 1), Drop(x, k - 1));
      InstructionGoesOn(ModeAt(START, x, k), TokAt(x, k), TokAt(x, k + 1));
    }
  }

  lemma {:induction false} InstructionHasRun(x: Stream, k: nat) returns (i: nat)
    requires Drop(x, k).Cons? && Current(ModeAt(START, x, k), TokAt(x, k), TokAt(x, k + 1)) == Instruction
    ensures InstructionFrom(x, i, k)
    decreases k
  {
    hide Step, Drop, ModeAt, Current, BeginsAt, StartsWithDot, Begins, IsDirective;
    DropNext(START, x, k);
    SameBegins(x, k);
    InstructionBegins(ModeAt(START, x, k), TokAt(x, k), TokAt(x, k + 1));
    i := k;
    if !Begins(ModeAt(START, x, k), TokAt(x, k), TokAt(x, k + 1)) {
      StartsInModule(x, k);
      DropNext(START, x, k - 1);
      InstructionCame(ModeAt(START, x, k - 1), Drop(x, k - 1));
      i := InstructionHasRun(x, k - 1);
    }
  }

  lemma StartsInModule(x: Stream, k: nat)
    requires ModeAt(START, x, k).Body?
    ensures k > 0
  {
  }

  lemma {:induction false} SemiAhead(x: Stream, k: nat)
    ensures HasSemi(Drop(x, k)) <==> exists j: nat :: k <= j && Drop(x, j).Cons? && TokAt(x, j) == ";"
    decreases Size(Drop(x, k))
  {
    hide Step, HasSemi;
    SemiUnfold(Drop(x, k));
    if Drop(x, k).Cons? && Drop(x, k).tok != ";" {
      DropNext(START, x, k);
      SemiAhead(x, k + 1);
      if HasSemi(Drop(x, k)) {
        var j: nat :| k + 1 <= j && Drop(x, j).Cons? && TokAt(x, j) == ";";
      }
      forall j: nat | k <= j && Drop(x, j).Cons? && TokAt(x, j) == ";" ensures k + 1 <= j {
      }
    } else if Drop(x, k).End? {
      forall j: nat | k <= j ensures !Drop(x, j).Cons? {
        DropPastEnd(x, k, j);
      }
    } else {
      assert TokAt(x, k) == ";";
    }
  }

  lemma {:induction false} DropPastEnd(x: Stream, k: nat, j: nat)
    requires k <= j && Drop(x, k).End?
    ensures Drop(x, j).End?
    decreases k
  {
    if x.Cons? && k > 0 {
      DropPastEnd(x.rest, k - 1, j - 1);
    }
  }

  lemma SemiUnfold(y: Stream)
    ensures HasSemi(y) <==> y.Cons? && (y.tok == ";" || HasSemi(y.rest))
  {
  }

  /** A token met outside statements: what its role says. */
  lemma IdleRoles(m: Mode, y: Stream)
    requires y.Cons?
    ensures RoleOf(m, y) == Outside <==> m.Module?
    ensures m.Body? && m.stmt == Idle ==>
              && (RoleOf(m, y) == Label <==> y.tok == ":" || Head(y.rest) == ":")
              && (RoleOf(m, y) == Scope <==>
                    y.tok != ":" && Head(y.rest) != ":" && (y.tok == "{" || y.tok == "}"))
    ensures RoleOf(m, y) == Label || RoleOf(m, y) == Scope ==> m.Body? && m.stmt == Idle
    ensures RoleOf(m, y) == InInstruction <==> Current(m, y.tok, Head(y.rest)) == Instruction && HasSemi(y)
    ensures RoleOf(m, y) == Unfinished <==> Current(m, y.tok, Head(y.rest)) == Instruction && !HasSemi(y)
  {
    hide HasSemi;
  }

  ghost predicate InInstructionRun(x: Stream, k: nat) {
    exists i: nat :: InstructionFrom(x, i, k)
  }

  ghost predicate InDirectiveRun(x: Stream, k: nat) {
    exists i: nat :: DirectiveFrom(x, i, k)
  }

  ghost predicate SemiFrom(x: Stream, k: nat) {
    exists j: nat :: k <= j && Drop(x, j).Cons? && TokAt(x, j) == ";"
  }

  /**
   The role of every token by name: outside bodies; in a directive or an instruction that a token at or before it has
   begun and none between has ended; else a label or its colon; else a scope brace. An instruction is unfinished when
   no semicolon comes.
   */
  lemma RolesMean(source: string, k: nat)
    requires k < |TokensAt(Lex(source), 0)|
    ensures k < |Roles(START, Lex(source))|
    ensures var x, role := Lex(source), Roles(START, Lex(source))[k];
            && (role == Outside <==> ModeAt(START, x, k).Module?)
            && (role == InDirective <==> InDirectiveRun(x, k))
            && (role == InInstruction <==> InInstructionRun(x, k) && SemiFrom(x, k))
            && (role == Unfinished <==> InInstructionRun(x, k) && !SemiFrom(x, k))
            && (role == Label <==> IdleAt(x, k) && (TokAt(x, k) == ":" || TokAt(x, k + 1) == ":"))
            && (role == Scope <==>
                  && IdleAt(x, k) && TokAt(x, k) != ":" && TokAt(x, k + 1) != ":"
                  && (TokAt(x, k) == "{" || TokAt(x, k) == "}"))
  {
    hide Lex, ModeAt, Drop, TokensAt, Roles, RoleOf, Current, DirectiveFrom, DirectiveRun, InstructionFrom, HasSemi, Step;
    var x := Lex(source);
    var m, y := ModeAt(START, x, k), Drop(x, k);
    TokenOf(START, x, 0, k);
    DropNext(START, x, k);
    IdleRoles(m, y);
    SemiAhead(x, k);
    DirectiveClassified(START, x, 0, k);
    forall i: nat ensures DirectiveFrom(x, i, k) <==> DirectiveRun(START, x, i, k) {
      SameRun(x, i, k);
    }
    if Current(m, y.tok, Head(y.rest)) == Instruction {
      var i := InstructionHasRun(x, k);
    }
    forall i: nat | InstructionFrom(x, i, k) ensures Current(m, y.tok, Head(y.rest)) == Instruction {
      RunIsInstruction(x, i, k);
    }
  }
}
