/** The cuobjdump section list: dropping the images that are not used, and merging the PTX of one file. */
module CudaSections {
  import opened Wrappers
  import opened Subsequences

  datatype Section =
    | Elf(identifier: string, arch: nat)
    | Ptx(identifier: string, arch: nat, file: string)

  /** How much of each older PTX file, its version and target lines, is not appended. */
  const HEADER: nat := 50

  // ----- pruning -----

  /** PTX sections the cap on the capability allows; a cap of 0 is none. */
  predicate Eligible(s: Section, cap: nat) {
    s.Ptx? && (s.arch <= cap || cap == 0)
  }

  /** The highest capability among the eligible PTX sections of each identifier. */
  function BestArch(sections: seq<Section>, cap: nat): map<string, nat> {
    if sections == [] then map[]
    else
      var best, s := BestArch(sections[..|sections| - 1], cap), sections[|sections| - 1];
      if Eligible(s, cap) && (s.identifier !in best || best[s.identifier] < s.arch)
      then best[s.identifier := s.arch]
      else best
  }

  /** The capability a section is compared with; a missing entry reads as 0. */
  function Wanted(best: map<string, nat>, identifier: string): nat {
    if identifier in best then best[identifier] else 0
  }

  function Keep(sections: seq<Section>, best: map<string, nat>): seq<Section> {
    if sections == [] then []
    else
      var s := sections[|sections| - 1];
      Keep(sections[..|sections| - 1], best) + (if s.arch == Wanted(best, s.identifier) then [s] else [])
  }

  /** The cap that applies: PTXPlus stops at capability 19. */
  function EffectiveCap(forced: nat, ptxplus: bool): nat {
    if ptxplus && (forced == 0 || forced >= 20) then 19 else forced
  }

  function Pruned(sections: seq<Section>, cap: nat): seq<Section> {
    Keep(sections, BestArch(sections, cap))
  }

  lemma {:induction false} BestIsBest(sections: seq<Section>, cap: nat)
    ensures var best := BestArch(sections, cap);
            && (forall s | s in sections && Eligible(s, cap) :: s.identifier in best && s.arch <= best[s.identifier])
            && (forall id | id in best :: exists s | s in sections :: Eligible(s, cap) && s.identifier == id && s.arch == best[id])
  {
    if sections != [] {
      var init, s := sections[..|sections| - 1], sections[|sections| - 1];
      assert sections == init + [s];
      BestIsBest(init, cap);
    }
  }

  lemma {:induction false} KeepIsFilter(sections: seq<Section>, best: map<string, nat>, s: Section)
    ensures s in Keep(sections, best) <==> s in sections && s.arch == Wanted(best, s.identifier)
  {
    if sections != [] {
      var init, last := sections[..|sections| - 1], sections[|sections| - 1];
      assert sections == init + [last];
      KeepIsFilter(init, best, s);
    }
  }

  lemma {:induction false} KeepIsSubsequence(sections: seq<Section>, best: map<string, nat>)
    ensures Subsequence(Keep(sections, best), sections)
  {
    if sections != [] {
      var init := sections[..|sections| - 1];
      KeepIsSubsequence(init, best);
      assert Keep(init, best) + [] == Keep(init, best);
      assert (Keep(init, best) + [sections[|sections| - 1]])[..|Keep(init, best)|] == Keep(init, best);
    }
  }

  /** The section has the highest eligible PTX capability of its identifier. */
  ghost predicate HasBestImage(sections: seq<Section>, cap: nat, s: Section) {
    && (exists p | p in sections :: Eligible(p, cap) && p.identifier == s.identifier && p.arch == s.arch)
    && (forall p | p in sections && Eligible(p, cap) && p.identifier == s.identifier :: p.arch <= s.arch)
  }

  /**
   Pruning keeps, in order, exactly the sections with the highest eligible PTX capability of their identifier,
   when no capability is 0.
   */
  lemma PruneKeepsBest(sections: seq<Section>, cap: nat, s: Section)
    requires forall t | t in sections :: t.arch != 0
    ensures Subsequence(Pruned(sections, cap), sections)
    ensures s in Pruned(sections, cap) <==> s in sections && HasBestImage(sections, cap, s)
  {
    var best := BestArch(sections, cap);
    BestIsBest(sections, cap);
    KeepIsFilter(sections, best, s);
    KeepIsSubsequence(sections, best);
  }

  /** No identifier with an eligible PTX is lost, and all its surviving PTX have one capability, within the cap. */
  lemma PruneKeepsIdentifiers(sections: seq<Section>, cap: nat, p: Section)
    requires forall t | t in sections :: t.arch != 0
    requires p in sections && Eligible(p, cap)
    ensures exists k | k in Pruned(sections, cap) :: Eligible(k, cap) && k.identifier == p.identifier && k.arch >= p.arch
    ensures forall k, l | k in Pruned(sections, cap) && l in Pruned(sections, cap)
                          && k.identifier == l.identifier == p.identifier ::
              k.arch == l.arch
  {
    var best := BestArch(sections, cap);
    BestIsBest(sections, cap);
    var k :| k in sections && Eligible(k, cap) && k.identifier == p.identifier && k.arch == best[p.identifier];
    KeepIsFilter(sections, best, k);
    forall k, l | k in Pruned(sections, cap) && l in Pruned(sections, cap)
                  && k.identifier == l.identifier == p.identifier
      ensures k.arch == l.arch
    {
      KeepIsFilter(sections, best, k);
      KeepIsFilter(sections, best, l);
    }
  }

  // ----- merging -----

  predicate IsPtxOf(s: Section, identifier: string) {
    s.Ptx? && s.identifier == identifier
  }

  /** The PTX sections of an identifier. */
  function Matching(sections: seq<Section>, identifier: string): (r: seq<Section>)
    ensures forall s | s in r :: s in sections && IsPtxOf(s, identifier)
  {
    if sections == [] then []
    else
      var init, s := sections[..|sections| - 1], sections[|sections| - 1];
      assert sections == init + [s];
      Matching(init, identifier) + (if IsPtxOf(s, identifier) then [s] else [])
  }

  /** All other sections. */
  function Others(sections: seq<Section>, identifier: string): seq<Section> {
    if sections == [] then []
    else
      var init, s := sections[..|sections| - 1], sections[|sections| - 1];
      Others(init, identifier) + (if IsPtxOf(s, identifier) then [] else [s])
  }

  function TextOf(files: map<string, string>, name: string): string {
    if name in files then files[name] else ""
  }

  /** The file of `s` with the code of the older section's file, from the header on, appended. */
  function Appended(files: map<string, string>, older: string, s: string): map<string, string> {
    var code := TextOf(files, older);
    if |code| >= HEADER then files[s := TextOf(files, s) + code[HEADER..]] else files
  }

  /** The files after merging these PTX sections in order; None if a file to read is missing or empty. */
  function MergedFiles(files: map<string, string>, ptx: seq<Section>): Option<map<string, string>>
    requires forall s | s in ptx :: s.Ptx?
  {
    if |ptx| <= 1 then Some(files)
    else
      match MergedFiles(files, ptx[..|ptx| - 1])
      case None => None
      case Some(before) =>
        var older, s := ptx[|ptx| - 2].file, ptx[|ptx| - 1].file;
        if TextOf(before, older) == "" then None else Some(Appended(before, older, s))
  }

  function LastOf(ptx: seq<Section>): (r: Option<Section>)
    requires forall s | s in ptx :: s.Ptx?
    ensures r.Some? ==> r.value.Ptx?
  {
    if ptx == [] then None else
      assert ptx[|ptx| - 1] in ptx;
      Some(ptx[|ptx| - 1])
  }

  lemma MatchNone(sections: seq<Section>, files: map<string, string>, identifier: string)
    ensures Matching(sections[..0], identifier) == [] && Others(sections[..0], identifier) == []
    ensures MergedFiles(files, []) == Some(files)
  {
  }

  lemma MatchStep(sections: seq<Section>, identifier: string, k: nat)
    requires k < |sections|
    ensures var s, ptx, others := sections[k], Matching(sections[..k], identifier), Others(sections[..k], identifier);
            && Matching(sections[..k + 1], identifier) == (if IsPtxOf(s, identifier) then ptx + [s] else ptx)
            && Others(sections[..k + 1], identifier) == (if IsPtxOf(s, identifier) then others else others + [s])
  {
    assert sections[..k + 1] == sections[..k] + [sections[k]];
    Snoc(sections[..k], sections[k], identifier);
  }

  lemma MergedStep(files: map<string, string>, ptx: seq<Section>, s: Section)
    requires s.Ptx? && (forall p | p in ptx :: p.Ptx?) && MergedFiles(files, ptx).Some?
    ensures var before := MergedFiles(files, ptx).value;
            MergedFiles(files, ptx + [s])
            == if ptx == [] then Some(before)
               else if TextOf(before, LastOf(ptx).value.file) == "" then None
               else Some(Appended(before, LastOf(ptx).value.file, s.file))
  {
    assert (ptx + [s])[..|ptx|] == ptx;
  }

  class SectionList {
    var sections: seq<Section>
    var files: map<string, string>

    /** The pass over the list that drops what is not used; None if nothing is left. */
    method PruneSectionList(forced: nat, ptxplus: bool) returns (r: Option<seq<Section>>)
      ensures var pruned := Pruned(sections, EffectiveCap(forced, ptxplus));
              r == if pruned == [] then None else Some(pruned)
    {
      var cap := forced;
      if ptxplus && (cap == 0 || cap >= 20) {
        cap := 19;
      }
      var best: map<string, nat> := map[];
      for k := 0 to |sections|
        invariant best == BestArch(sections[..k], cap)
      {
        assert sections[..k + 1][..k] == sections[..k];
        var s := sections[k];
        if s.Ptx? && (s.arch <= cap || cap == 0) {
          if s.identifier !in best || best[s.identifier] < s.arch {
            best := best[s.identifier := s.arch];
          }
        }
      }
      assert sections[..|sections|] == sections;
      var kept := [];
      for k := 0 to |sections|
        invariant kept == Keep(sections[..k], best)
      {
        assert sections[..k + 1][..k] == sections[..k];
        var s := sections[k];
        if s.arch == Wanted(best, s.identifier) {
          kept := kept + [s];
        }
      }
      r := if kept == [] then None else Some(kept);
    }

    /** Merges the PTX of one identifier into the file of its last section; false if a file cannot be read. */
    method MergeMatchingSections(identifier: string) returns (ok: bool, merged: seq<Section>)
      requires Matching(sections, identifier) != []
      modifies this`files
      ensures var ptx := Matching(sections, identifier);
              && ok == MergedFiles(old(files), ptx).Some?
              && (ok ==> files == MergedFiles(old(files), ptx).value
                         && merged == Others(sections, identifier) + [ptx[|ptx| - 1]])
    {
      hide Matching, Others, MergedFiles;
      var code := "";
      var older: Option<Section> := None;
      merged := [];
      MatchNone(sections, files, identifier);
      for k := 0 to |sections|
        invariant merged == Others(sections[..k], identifier)
        invariant MergedFiles(old(files), Matching(sections[..k], identifier)) == Some(files)
        invariant older == LastOf(Matching(sections[..k], identifier))
        invariant older.None? ==> code == ""
      {
        MatchStep(sections, identifier, k);
        var s := sections[k];
        if s.Ptx? && s.identifier == identifier {
          MergedStep(old(files), Matching(sections[..k], identifier), s);
          if older.Some? {
            code := TextOf(files, older.value.file);
            if code == "" {
              LaterFails(old(files), sections, identifier, k + 1);
              return false, [];
            }
          }
          if |code| >= HEADER {
            files := files[s.file := TextOf(files, s.file) + code[HEADER..]];
          }
          older := Some(s);
        } else {
          merged := merged + [s];
        }
      }
      assert sections[..|sections|] == sections;
      merged := merged + [older.value];
      ok := true;
    }

    /** The loop that collects the identifiers of the PTX sections. */
    method CollectIdentifiers() returns (identifiers: seq<string>)
      ensures identifiers == Identifiers(sections)
    {
      identifiers := [];
      for k := 0 to |sections|
        invariant identifiers == Identifiers(sections[..k])
      {
        assert sections[..k + 1][..k] == sections[..k];
        var s := sections[k];
        if s.Ptx? && s.identifier !in identifiers {
          identifiers := identifiers + [s.identifier];
        }
      }
      assert sections[..|sections|] == sections;
    }

    /** Merges the PTX of every identifier; false if a file cannot be read. */
    method MergeSections() returns (ok: bool)
      modifies this
      ensures ok == MergeAll(old(sections), old(files), Identifiers(old(sections))).Some?
      ensures ok ==> (sections, files) == MergeAll(old(sections), old(files), Identifiers(old(sections))).value
    {
      hide MergeAll, Matching, Others, MergedFiles, Identifiers;
      var identifiers := CollectIdentifiers();
      IdentifiersMatch(sections);
      MergeNone(sections, files);
      Whole(identifiers);
      for k := 0 to |identifiers|
        invariant forall i | k <= i < |identifiers| :: Matching(sections, identifiers[i]) != []
        invariant MergeAll(old(sections), old(files), identifiers[..k]) == Some((sections, files))
      {
        MergeStep(old(sections), old(files), identifiers, k);
        var done, merged := MergeMatchingSections(identifiers[k]);
        if !done {
          MergeStops(old(sections), old(files), identifiers, k + 1);
          return false;
        }
        forall i | k + 1 <= i < |identifiers| ensures Matching(merged, identifiers[i]) != [] {
          MatchingElsewhere(sections, identifiers[k], identifiers[i]);
        }
        sections := merged;
      }
      ok := true;
    }
  }

  lemma Whole(identifiers: seq<string>)
    ensures identifiers[..|identifiers|] == identifiers && identifiers[..0] == []
  {
  }

  lemma MergeNone(sections: seq<Section>, files: map<string, string>)
    ensures MergeAll(sections, files, []) == Some((sections, files))
  {
  }

  lemma MergeStep(sections: seq<Section>, files: map<string, string>, identifiers: seq<string>, k: nat)
    requires k < |identifiers| && MergeAll(sections, files, identifiers[..k]).Some?
    ensures var (list, texts) := MergeAll(sections, files, identifiers[..k]).value;
            var ptx := Matching(list, identifiers[k]);
            MergeAll(sections, files, identifiers[..k + 1])
            == match MergedFiles(texts, ptx)
               case None => None
               case Some(merged) =>
                 Some((Others(list, identifiers[k]) + (if ptx == [] then [] else [ptx[|ptx| - 1]]), merged))
  {
    hide Matching, Others, MergedFiles;
    assert identifiers[..k + 1][..k] == identifiers[..k];
  }

  /** The identifiers of the PTX sections, in the order they are first seen. */
  function Identifiers(sections: seq<Section>): seq<string> {
    if sections == [] then []
    else
      var before, s := Identifiers(sections[..|sections| - 1]), sections[|sections| - 1];
      if s.Ptx? && s.identifier !in before then before + [s.identifier] else before
  }

  /** The list and the files after merging these identifiers in turn. */
  function MergeAll(sections: seq<Section>, files: map<string, string>, identifiers: seq<string>)
    : Option<(seq<Section>, map<string, string>)>
  {
    if identifiers == [] then Some((sections, files))
    else
      match MergeAll(sections, files, identifiers[..|identifiers| - 1])
      case None => None
      case Some((list, texts)) =>
        var id := identifiers[|identifiers| - 1];
        var ptx := Matching(list, id);
        match MergedFiles(texts, ptx)
        case None => None
        case Some(merged) => Some((Others(list, id) + (if ptx == [] then [] else [ptx[|ptx| - 1]]), merged))
  }

  lemma {:induction false} LaterFails(files: map<string, string>, sections: seq<Section>, identifier: string, k: nat)
    requires k <= |sections| && MergedFiles(files, Matching(sections[..k], identifier)).None?
    ensures MergedFiles(files, Matching(sections, identifier)).None?
    decreases |sections| - k
  {
    if k == |sections| {
      assert sections[..k] == sections;
    } else {
      assert sections[..k + 1][..k] == sections[..k];
      var ptx := Matching(sections[..k], identifier);
      assert (ptx + [sections[k]])[..|ptx|] == ptx && ptx + [] == ptx;
      LaterFails(files, sections, identifier, k + 1);
    }
  }

  lemma {:induction false} MergeStops(sections: seq<Section>, files: map<string, string>, identifiers: seq<string>, k: nat)
    requires k <= |identifiers| && MergeAll(sections, files, identifiers[..k]).None?
    ensures MergeAll(sections, files, identifiers[..|identifiers|]).None?
    decreases |identifiers| - k
  {
    if k < |identifiers| {
      assert identifiers[..k + 1][..k] == identifiers[..k];
      MergeStops(sections, files, identifiers, k + 1);
    }
  }

  lemma Snoc(a: seq<Section>, s: Section, id: string)
    ensures Matching(a + [s], id) == if IsPtxOf(s, id) then Matching(a, id) + [s] else Matching(a, id)
    ensures Others(a + [s], id) == if IsPtxOf(s, id) then Others(a, id) else Others(a, id) + [s]
  {
    assert (a + [s])[..|a|] == a;
  }

  lemma NoneOf(id: string)
    ensures Matching([], id) == [] && Others([], id) == []
  {
  }

  lemma {:induction false} MatchingConcat(a: seq<Section>, b: seq<Section>, id: string)
    ensures Matching(a + b, id) == Matching(a, id) + Matching(b, id)
    ensures Others(a + b, id) == Others(a, id) + Others(b, id)
    decreases |b|
  {
    hide Matching, Others, IsPtxOf;
    NoneOf(id);
    if b == [] {
      assert a + b == a;
    } else {
      var init, s := b[..|b| - 1], b[|b| - 1];
      assert b == init + [s] && a + b == (a + init) + [s];
      MatchingConcat(a, init, id);
      Snoc(init, s, id);
      Snoc(a + init, s, id);
    }
  }

  lemma {:induction false} MatchingOthers(sections: seq<Section>, id: string, other: string)
    requires id != other
    ensures Matching(Others(sections, id), other) == Matching(sections, other)
    decreases |sections|
  {
    hide Matching, Others;
    NoneOf(id);
    NoneOf(other);
    if sections != [] {
      var init, s := sections[..|sections| - 1], sections[|sections| - 1];
      assert sections == init + [s];
      MatchingOthers(init, id, other);
      Snoc(init, s, id);
      Snoc(init, s, other);
      Snoc(Others(init, id), s, other);
    }
  }

  /** Merging one identifier leaves the PTX sections of another, in order. */
  lemma MatchingElsewhere(sections: seq<Section>, id: string, other: string)
    requires id != other && Matching(sections, id) != []
    ensures var ptx := Matching(sections, id);
            Matching(Others(sections, id) + [ptx[|ptx| - 1]], other) == Matching(sections, other)
  {
    hide Matching, Others;
    var ptx := Matching(sections, id);
    MatchingOthers(sections, id, other);
    assert ptx[|ptx| - 1] in ptx;
    Snoc(Others(sections, id), ptx[|ptx| - 1], other);
  }

  lemma {:induction false} IdentifiersMatch(sections: seq<Section>)
    ensures var ids := Identifiers(sections);
            && (forall i | 0 <= i < |ids| :: Matching(sections, ids[i]) != [])
            && (forall i, j | 0 <= i < j < |ids| :: ids[i] != ids[j])
            && (forall s | s in sections && s.Ptx? :: s.identifier in ids)
  {
    if sections != [] {
      var init, s := sections[..|sections| - 1], sections[|sections| - 1];
      assert sections == init + [s];
      IdentifiersMatch(init);
    }
  }
}
