/** Merging the section list conserves its code. */
module CudaSectionLaws {
  import opened Wrappers
  import opened CudaSections

  /** Every PTX section has a file of its own. */
  ghost predicate OwnFiles(sections: seq<Section>) {
    forall i, j | 0 <= i < j < |sections| && sections[i].Ptx? && sections[j].Ptx? ::
      sections[i].file != sections[j].file
  }

  /** Every PTX file is there, with a full header. */
  ghost predicate FullFiles(files: map<string, string>, sections: seq<Section>) {
    forall s | s in sections && s.Ptx? :: s.file in files && |files[s.file]| >= HEADER
  }

  ghost predicate AllPtx(ptx: seq<Section>) {
    forall s | s in ptx :: s.Ptx?
  }

  /** The code of all these files without their headers, newest first. */
  function Codes(files: map<string, string>, ptx: seq<Section>): string
    requires AllPtx(ptx) && FullFiles(files, ptx)
  {
    if ptx == [] then ""
    else
      var init, s := ptx[..|ptx| - 1], ptx[|ptx| - 1];
      assert s in ptx;
      assert forall p | p in init :: p in ptx;
      files[s.file][HEADER..] + Codes(files, init)
  }

  /** The newest file as it is, then the code of the older ones. */
  function MergedText(files: map<string, string>, ptx: seq<Section>): string
    requires AllPtx(ptx) && FullFiles(files, ptx) && ptx != []
  {
    var init, s := ptx[..|ptx| - 1], ptx[|ptx| - 1];
    assert s in ptx;
    assert forall p | p in init :: p in ptx;
    files[s.file] + Codes(files, init)
  }

  ghost predicate FileOf(ptx: seq<Section>, name: string)
    requires AllPtx(ptx)
  {
    exists p | p in ptx :: p.file == name
  }

  lemma InitFacts(files: map<string, string>, ptx: seq<Section>)
    requires AllPtx(ptx) && OwnFiles(ptx) && FullFiles(files, ptx) && ptx != []
    ensures var init, s := ptx[..|ptx| - 1], ptx[|ptx| - 1];
            && AllPtx(init) && OwnFiles(init) && FullFiles(files, init)
            && s.Ptx? && s.file in files && |files[s.file]| >= HEADER
            && !FileOf(init, s.file)
            && (forall name :: FileOf(ptx, name) <==> FileOf(init, name) || name == s.file)
  {
    var init, s := ptx[..|ptx| - 1], ptx[|ptx| - 1];
    assert ptx == init + [s];
    assert s in ptx;
    assert forall p | p in init :: p in ptx;
    forall p | p in init ensures p.file != s.file {
      var i :| 0 <= i < |init| && init[i] == p;
      assert ptx[i] == p;
    }
  }

  lemma DropHead(a: string, b: string)
    requires |a| >= HEADER
    ensures (a + b)[HEADER..] == a[HEADER..] + b
  {
  }

  /**
   Merging the PTX sections of one identifier: the last file gets the code of all the others, newest to oldest,
   and files of other sections stay as they are.
   */
  lemma {:induction false} MergeConserves(files: map<string, string>, ptx: seq<Section>)
    requires AllPtx(ptx) && OwnFiles(ptx) && FullFiles(files, ptx) && ptx != []
    ensures MergedFiles(files, ptx).Some?
    ensures var r, s := MergedFiles(files, ptx).value, ptx[|ptx| - 1];
            && s.Ptx? && s.file in r && r[s.file] == MergedText(files, ptx)
            && (forall name :: !FileOf(ptx, name) ==> Unchanged(files, r, name))
  {
    InitFacts(files, ptx);
    var init, s := ptx[..|ptx| - 1], ptx[|ptx| - 1];
    if init == [] {
      assert files[s.file] + "" == files[s.file];
    } else {
      InitFacts(files, init);
      MergeConserves(files, init);
      var older := init[|init| - 1];
      assert older == ptx[|ptx| - 2];
      var before := MergedFiles(files, init).value;
      var text := MergedText(files, init);
      DropHead(files[older.file], Codes(files, init[..|init| - 1]));
      assert TextOf(before, older.file) == text && |text| >= HEADER;
      assert text[HEADER..] == Codes(files, init);
      assert TextOf(before, s.file) == files[s.file];
    }
  }

  // ----- all identifiers -----

  /** The sections that are not PTX of these identifiers. */
  function Remaining(sections: seq<Section>, ids: seq<string>): seq<Section> {
    if sections == [] then []
    else
      var s := sections[|sections| - 1];
      Remaining(sections[..|sections| - 1], ids) + (if s.Ptx? && s.identifier in ids then [] else [s])
  }

  /** The last PTX section of each identifier. */
  function Survivors(sections: seq<Section>, ids: seq<string>): seq<Section>
    requires forall id | id in ids :: Matching(sections, id) != []
  {
    if ids == [] then []
    else
      var ptx := Matching(sections, ids[|ids| - 1]);
      assert ids[|ids| - 1] in ids;
      Survivors(sections, ids[..|ids| - 1]) + [ptx[|ptx| - 1]]
  }

  function Elves(sections: seq<Section>): seq<Section> {
    if sections == [] then []
    else
      var s := sections[|sections| - 1];
      Elves(sections[..|sections| - 1]) + (if s.Elf? then [s] else [])
  }

  lemma RemainingSnoc(a: seq<Section>, s: Section, ids: seq<string>)
    ensures Remaining(a + [s], ids)
         == if s.Ptx? && s.identifier in ids then Remaining(a, ids) else Remaining(a, ids) + [s]
  {
    assert (a + [s])[..|a|] == a;
  }

  lemma {:induction false} RemainingStep(sections: seq<Section>, ids: seq<string>, id: string)
    requires id !in ids
    ensures Matching(Remaining(sections, ids), id) == Matching(sections, id)
    ensures Others(Remaining(sections, ids), id) == Remaining(sections, ids + [id])
    decreases |sections|
  {
    hide Matching, Others, Remaining;
    if sections == [] {
      RemainingNone(ids, id);
    } else {
      var init, s := sections[..|sections| - 1], sections[|sections| - 1];
      assert sections == init + [s];
      RemainingStep(init, ids, id);
      Snoc(init, s, id);
      RemainingSnoc(init, s, ids);
      RemainingSnoc(init, s, ids + [id]);
      Snoc(Remaining(init, ids), s, id);
    }
  }

  lemma RemainingNone(ids: seq<string>, id: string)
    ensures Matching(Remaining([], ids), id) == Matching([], id)
    ensures Others(Remaining([], ids), id) == Remaining([], ids + [id])
  {
  }

  lemma {:induction false} RemainingWithoutIds(sections: seq<Section>)
    ensures Remaining(sections, []) == sections
  {
    if sections != [] {
      RemainingWithoutIds(sections[..|sections| - 1]);
    }
  }

  lemma {:induction false} RemainingIsElves(sections: seq<Section>, ids: seq<string>)
    requires forall s | s in sections && s.Ptx? :: s.identifier in ids
    ensures Remaining(sections, ids) == Elves(sections)
  {
    if sections != [] {
      var init, s := sections[..|sections| - 1], sections[|sections| - 1];
      assert sections == init + [s];
      RemainingIsElves(init, ids);
    }
  }

  ghost predicate HaveSections(sections: seq<Section>, ids: seq<string>) {
    && (forall id | id in ids :: Matching(sections, id) != [])
    && (forall i, j | 0 <= i < j < |ids| :: ids[i] != ids[j])
  }

  lemma HaveInit(sections: seq<Section>, ids: seq<string>)
    requires HaveSections(sections, ids) && ids != []
    ensures var init, id := ids[..|ids| - 1], ids[|ids| - 1];
            HaveSections(sections, init) && id !in init && Matching(sections, id) != [] && ids == init + [id]
  {
    hide Matching;
    var init, id := ids[..|ids| - 1], ids[|ids| - 1];
    assert id in ids;
    assert forall i | i in init :: i in ids;
  }

  /** Survivors of other identifiers are not touched by merging `id`. */
  lemma {:induction false} SurvivorsElsewhere(sections: seq<Section>, ids: seq<string>, id: string)
    requires HaveSections(sections, ids) && id !in ids
    ensures Matching(Survivors(sections, ids), id) == []
    ensures Others(Survivors(sections, ids), id) == Survivors(sections, ids)
    decreases |ids|
  {
    if ids != [] {
      hide Others, MergedFiles;
      HaveInit(sections, ids);
      var init := ids[..|ids| - 1];
      SurvivorsElsewhere(sections, init, id);
      var ptx := Matching(sections, ids[|ids| - 1]);
      assert ptx[|ptx| - 1] in ptx;
      Snoc(Survivors(sections, init), ptx[|ptx| - 1], id);
    } else {
      NoneOf(id);
    }
  }

  /** The surviving PTX section of `id` has a file with the code of all of them. */
  ghost predicate SurvivorHolds(sections: seq<Section>, files: map<string, string>, id: string, r: map<string, string>)
    requires FullFiles(files, sections) && Matching(sections, id) != []
  {
    var ptx := Matching(sections, id);
    MatchingFull(files, sections, id);
    var s := ptx[|ptx| - 1];
    s.Ptx? && s.file in r && r[s.file] == MergedText(files, ptx)
  }

  /** `name` is a file of a PTX section of one of `ids`. */
  ghost predicate Involved(sections: seq<Section>, ids: seq<string>, name: string) {
    exists s | s in sections :: s.Ptx? && s.identifier in ids && s.file == name
  }

  ghost predicate Unchanged(files: map<string, string>, r: map<string, string>, name: string) {
    (name in r <==> name in files) && (name in files ==> r[name] == files[name])
  }

  /** What the merging of `ids` has done to the files. */
  ghost predicate FilesMerged(sections: seq<Section>, files: map<string, string>, ids: seq<string>, r: map<string, string>)
    requires OwnFiles(sections) && FullFiles(files, sections) && HaveSections(sections, ids)
  {
    && (forall id | id in ids :: SurvivorHolds(sections, files, id, r))
    && (forall name :: !Involved(sections, ids, name) ==> Unchanged(files, r, name))
  }

  lemma MatchingFull(files: map<string, string>, sections: seq<Section>, id: string)
    requires FullFiles(files, sections)
    ensures AllPtx(Matching(sections, id)) && FullFiles(files, Matching(sections, id))
  {
  }

  lemma {:induction false} MatchingOwn(sections: seq<Section>, id: string)
    requires OwnFiles(sections)
    ensures OwnFiles(Matching(sections, id))
  {
    if sections != [] {
      var init, s := sections[..|sections| - 1], sections[|sections| - 1];
      MatchingOwn(init, id);
      forall p | p in Matching(init, id) && s.Ptx? ensures p.file != s.file {
        var i :| 0 <= i < |init| && init[i] == p;
        assert sections[i] == p;
      }
    }
  }

  /** Sections of different identifiers have different files. */
  lemma OtherFiles(sections: seq<Section>, p: Section, q: Section)
    requires OwnFiles(sections) && p in sections && q in sections && p.Ptx? && q.Ptx?
    requires p.identifier != q.identifier
    ensures p.file != q.file
  {
    var i :| 0 <= i < |sections| && sections[i] == p;
    var j :| 0 <= j < |sections| && sections[j] == q;
    assert i != j;
  }

  lemma {:induction false} AllMatching(sections: seq<Section>, s: Section)
    requires s in sections && s.Ptx?
    ensures s in Matching(sections, s.identifier)
  {
    var init, last := sections[..|sections| - 1], sections[|sections| - 1];
    assert sections == init + [last];
    if s in init {
      AllMatching(init, s);
    }
  }

  ghost predicate Agrees(r: map<string, string>, files: map<string, string>, ptx: seq<Section>)
    requires AllPtx(ptx)
  {
    forall s | s in ptx :: s.file in r && s.file in files && r[s.file] == files[s.file]
  }

  lemma {:induction false} SameCodes(files: map<string, string>, r: map<string, string>, ptx: seq<Section>)
    requires AllPtx(ptx) && FullFiles(files, ptx) && Agrees(r, files, ptx)
    ensures FullFiles(r, ptx) && Codes(r, ptx) == Codes(files, ptx)
    ensures ptx != [] ==> MergedText(r, ptx) == MergedText(files, ptx)
  {
    if ptx != [] {
      var init := ptx[..|ptx| - 1];
      assert forall p | p in init :: p in ptx;
      assert ptx[|ptx| - 1] in ptx;
      SameCodes(files, r, init);
    }
  }

  lemma MergedOthers(sections: seq<Section>, files: map<string, string>, ids: seq<string>, texts: map<string, string>, id: string)
    requires OwnFiles(sections) && FullFiles(files, sections) && HaveSections(sections, ids)
    requires FilesMerged(sections, files, ids, texts) && id !in ids
    ensures Agrees(texts, files, Matching(sections, id))
  {
    forall p | p in Matching(sections, id)
      ensures p.file in texts && p.file in files && texts[p.file] == files[p.file]
    {
      forall s | s in sections && s.Ptx? && s.identifier in ids ensures s.file != p.file {
        OtherFiles(sections, s, p);
      }
      assert !Involved(sections, ids, p.file);
      assert Unchanged(files, texts, p.file);
    }
  }

  /** A step of merging that changes no file but those of `id`. */
  ghost predicate ChangesOnly(sections: seq<Section>, id: string, texts: map<string, string>, r: map<string, string>)
    requires AllPtx(Matching(sections, id))
  {
    forall name :: !FileOf(Matching(sections, id), name) ==> Unchanged(texts, r, name)
  }

  lemma SurvivorStays(sections: seq<Section>, files: map<string, string>, other: string, id: string,
                      texts: map<string, string>, r: map<string, string>)
    requires OwnFiles(sections) && FullFiles(files, sections) && other != id && Matching(sections, other) != []
    requires AllPtx(Matching(sections, id)) && ChangesOnly(sections, id, texts, r)
    requires SurvivorHolds(sections, files, other, texts)
    ensures SurvivorHolds(sections, files, other, r)
  {
    hide MergedText, OwnFiles;
    MatchingFull(files, sections, other);
    var m := Matching(sections, other);
    var s := m[|m| - 1];
    assert s in m;
    forall p | p in Matching(sections, id) ensures p.file != s.file {
      OtherFiles(sections, p, s);
    }
    assert !FileOf(Matching(sections, id), s.file);
    assert Unchanged(texts, r, s.file);
  }

  lemma UninvolvedStays(sections: seq<Section>, files: map<string, string>, ids: seq<string>, id: string,
                        texts: map<string, string>, r: map<string, string>, name: string)
    requires AllPtx(Matching(sections, id)) && ChangesOnly(sections, id, texts, r)
    requires !Involved(sections, ids, name) ==> Unchanged(files, texts, name)
    requires !Involved(sections, ids + [id], name)
    ensures Unchanged(files, r, name)
  {
    assert !Involved(sections, ids, name) by {
      forall s | s in sections && s.Ptx? && s.identifier in ids ensures s.file != name {
        assert s.identifier in ids + [id];
      }
    }
    assert !FileOf(Matching(sections, id), name) by {
      forall p | p in Matching(sections, id) ensures p.file != name {
        assert p in sections && p.identifier in ids + [id];
      }
    }
  }

  lemma FilesMergedMore(sections: seq<Section>, files: map<string, string>, ids: seq<string>, texts: map<string, string>,
                        id: string, r: map<string, string>)
    requires OwnFiles(sections) && FullFiles(files, sections) && HaveSections(sections, ids + [id])
    requires HaveSections(sections, ids) && id !in ids && FilesMerged(sections, files, ids, texts)
    requires AllPtx(Matching(sections, id)) && ChangesOnly(sections, id, texts, r)
    requires Matching(sections, id) != [] && SurvivorHolds(sections, files, id, r)
    ensures FilesMerged(sections, files, ids + [id], r)
  {
    hide SurvivorHolds, ChangesOnly, Unchanged, OwnFiles, FullFiles, Involved, Matching, AllPtx;
    forall other | other in ids + [id] ensures Matching(sections, other) != [] && SurvivorHolds(sections, files, other, r) {
      if other != id {
        assert other in ids;
        SurvivorStays(sections, files, other, id, texts, r);
      }
    }
    forall name | !Involved(sections, ids + [id], name) ensures Unchanged(files, r, name) {
      UninvolvedStays(sections, files, ids, id, texts, r, name);
    }
  }

  /** The list and the files after merging some identifiers. */
  lemma {:induction false} MergeAllConserves(sections: seq<Section>, files: map<string, string>, ids: seq<string>)
    requires OwnFiles(sections) && FullFiles(files, sections) && HaveSections(sections, ids)
    ensures MergeAll(sections, files, ids).Some?
    ensures MergeAll(sections, files, ids).value.0 == Remaining(sections, ids) + Survivors(sections, ids)
    ensures FilesMerged(sections, files, ids, MergeAll(sections, files, ids).value.1)
    decreases |ids|
  {
    hide MergeAll, Matching, Others, Remaining, MergedFiles, MergedText, Codes, FilesMerged, OwnFiles, FullFiles, Agrees;
    if ids == [] {
      NothingMerged(sections, files);
    } else {
      HaveInit(sections, ids);
      var init, id := ids[..|ids| - 1], ids[|ids| - 1];
      MergeAllConserves(sections, files, init);
      var (list, texts) := MergeAll(sections, files, init).value;
      var remaining, survivors, ptx := Remaining(sections, init), Survivors(sections, init), Matching(sections, id);
      RemainingStep(sections, init, id);
      SurvivorsElsewhere(sections, init, id);
      MatchingConcat(remaining, survivors, id);
      assert ptx + [] == ptx;
      MatchingFull(files, sections, id);
      MergedOthers(sections, files, init, texts, id);
      MergeStep(sections, files, ids, |ids| - 1);
      assert ids[..|ids| - 1 + 1] == ids;
      MergedHolds(sections, files, texts, id);
      FilesMergedMore(sections, files, init, texts, id, MergedFiles(texts, ptx).value);
      assert Remaining(sections, ids) + survivors + [ptx[|ptx| - 1]]
          == Remaining(sections, ids) + (survivors + [ptx[|ptx| - 1]]);
    }
  }

  lemma MergedHolds(sections: seq<Section>, files: map<string, string>, texts: map<string, string>, id: string)
    requires OwnFiles(sections) && FullFiles(files, sections)
    requires Matching(sections, id) != [] && AllPtx(Matching(sections, id)) && Agrees(texts, files, Matching(sections, id))
    ensures MergedFiles(texts, Matching(sections, id)).Some?
    ensures var r := MergedFiles(texts, Matching(sections, id)).value;
            SurvivorHolds(sections, files, id, r) && ChangesOnly(sections, id, texts, r)
  {
    hide Codes, MergedText, Agrees, OwnFiles, Unchanged, MergedFiles;
    var ptx := Matching(sections, id);
    MatchingFull(files, sections, id);
    MatchingOwn(sections, id);
    SameCodes(files, texts, ptx);
    MergeConserves(texts, ptx);
  }

  lemma NothingMerged(sections: seq<Section>, files: map<string, string>)
    ensures MergeAll(sections, files, []) == Some((sections, files))
    ensures Remaining(sections, []) + Survivors(sections, []) == sections
    ensures OwnFiles(sections) && FullFiles(files, sections) ==> FilesMerged(sections, files, [], files)
  {
    RemainingWithoutIds(sections);
  }

  /**
   The merged list is all ELF sections in their order, then one PTX section for each identifier in first-seen
   order; the file of each holds the code of every PTX section of its identifier, and no other file changes.
   */
  lemma MergeSectionsConserves(sections: seq<Section>, files: map<string, string>)
    requires OwnFiles(sections) && FullFiles(files, sections)
    ensures var ids := Identifiers(sections);
            && HaveSections(sections, ids)
            && MergeAll(sections, files, ids).Some?
            && var (list, r) := MergeAll(sections, files, ids).value;
               && list == Elves(sections) + Survivors(sections, ids)
               && FilesMerged(sections, files, ids, r)
  {
    hide MergeAll, Matching, Remaining, Elves, Survivors, FilesMerged, OwnFiles, FullFiles, Identifiers;
    var ids := Identifiers(sections);
    HaveAll(sections);
    MergeAllConserves(sections, files, ids);
    RemainingIsElves(sections, ids);
  }

  lemma HaveAll(sections: seq<Section>)
    ensures HaveSections(sections, Identifiers(sections))
    ensures forall s | s in sections && s.Ptx? :: s.identifier in Identifiers(sections)
  {
    hide Identifiers, Matching;
    IdentifiersMatch(sections);
  }
}
