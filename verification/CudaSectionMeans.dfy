/** Pruning and merging the section list, said of the sections and the texts themselves. */
module CudaSectionMeans {
  import opened Wrappers
  import opened CudaSections
  import opened CudaSectionLaws

  // ----- pruning -----

  /** The options allow images of this capability: at most 19 for PTXPlus, and at most the forced one, if one is. */
  predicate Allowed(forced: nat, ptxplus: bool, arch: nat) {
    (ptxplus ==> arch <= 19) && (forced != 0 ==> arch <= forced)
  }

  /** The section is of the highest capability that some allowed PTX of its identifier has. */
  ghost predicate OfBestPtx(sections: seq<Section>, forced: nat, ptxplus: bool, s: Section) {
    && (exists p | p in sections :: p.Ptx? && p.identifier == s.identifier && p.arch == s.arch
                                    && Allowed(forced, ptxplus, p.arch))
    && (forall p | p in sections :: p.Ptx? && p.identifier == s.identifier && Allowed(forced, ptxplus, p.arch) ==>
          p.arch <= s.arch)
  }

  lemma AllowedMeans(forced: nat, ptxplus: bool, p: Section)
    ensures Eligible(p, EffectiveCap(forced, ptxplus)) <==> p.Ptx? && Allowed(forced, ptxplus, p.arch)
  {
  }

  /** What pruning keeps, for every forced capability and with and without PTXPlus. */
  lemma PrunedMeans(sections: seq<Section>, forced: nat, ptxplus: bool, s: Section)
    requires forall t | t in sections :: t.arch != 0
    ensures s in Pruned(sections, EffectiveCap(forced, ptxplus))
       <==> s in sections && OfBestPtx(sections, forced, ptxplus, s)
  {
    hide Pruned, Eligible, EffectiveCap, Allowed;
    var cap := EffectiveCap(forced, ptxplus);
    PruneKeepsBest(sections, cap, s);
    forall p | p in sections ensures Eligible(p, cap) <==> p.Ptx? && Allowed(forced, ptxplus, p.arch) {
      AllowedMeans(forced, ptxplus, p);
    }
  }

  /** Pruning decides on each section by itself and keeps their order and number. */
  lemma {:induction false} PrunedOneByOne(a: seq<Section>, b: seq<Section>, best: map<string, nat>, s: Section)
    ensures CudaSections.Keep(a + b, best) == CudaSections.Keep(a, best) + CudaSections.Keep(b, best)
    ensures CudaSections.Keep([s], best)
         == if s.arch == (if s.identifier in best then best[s.identifier] else 0) then [s] else []
    decreases |b|
  {
    assert [s][..0] == [];
    if b == [] {
      assert a + b == a;
    } else {
      var n := |b| - 1;
      assert (a + b)[..|a + b| - 1] == a + b[..n];
      PrunedOneByOne(a, b[..n], best, s);
    }
  }

  // ----- merging -----

  /** Which sections are merged and which are not, one section at a time and in order. */
  lemma PartsOfList(a: seq<Section>, b: seq<Section>, s: Section, id: string)
    ensures Matching([s], id) == (if s.Ptx? && s.identifier == id then [s] else [])
    ensures Others([s], id) == (if s.Ptx? && s.identifier == id then [] else [s])
    ensures Elves([s]) == (if s.Elf? then [s] else [])
    ensures Matching(a + b, id) == Matching(a, id) + Matching(b, id)
    ensures Others(a + b, id) == Others(a, id) + Others(b, id)
    ensures Elves(a + b) == Elves(a) + Elves(b)
  {
    MatchingConcat(a, b, id);
    ElvesConcat(a, b);
    assert [s][..0] == [];
    NoneOf(id);
  }

  lemma {:induction false} ElvesConcat(a: seq<Section>, b: seq<Section>)
    ensures Elves(a + b) == Elves(a) + Elves(b)
    decreases |b|
  {
    if b == [] {
      assert a + b == a;
    } else {
      var n := |b| - 1;
      assert (a + b)[..|a + b| - 1] == a + b[..n];
      ElvesConcat(a, b[..n]);
    }
  }

  /** A PTX section of `id` stands at place `k`. */
  predicate PtxAt(sections: seq<Section>, id: string, k: nat) {
    k < |sections| && sections[k].Ptx? && sections[k].identifier == id
  }

  /** `id` is seen before place `k`. */
  ghost predicate SeenBefore(sections: seq<Section>, id: string, k: nat) {
    exists j: nat :: j < k && PtxAt(sections, id, j)
  }

  /** The identifiers come in the order in which they are first seen. */
  lemma {:induction false} FirstSeenOrder(sections: seq<Section>, i: nat, j: nat, k: nat)
    requires i < j < |Identifiers(sections)| && PtxAt(sections, Identifiers(sections)[j], k)
    ensures SeenBefore(sections, Identifiers(sections)[i], k)
    decreases |sections|
  {
    var n := |sections| - 1;
    var init, s := sections[..n], sections[n];
    var before := Identifiers(init);
    if j < |before| {
      if k < n {
        assert PtxAt(init, before[j], k);
        FirstSeenOrder(init, i, j, k);
      } else {
        Occurs(init, before[i]);
      }
      var l: nat :| l < (if k < n then k else n) && PtxAt(init, before[i], l);
      assert PtxAt(sections, before[i], l);
    } else {
      assert Identifiers(sections)[j] == s.identifier && s.identifier !in before;
      if k < n {
        assert PtxAt(init, s.identifier, k);
        Collected(init, k);
      }
      Occurs(init, before[i]);
      var l: nat :| l < n && PtxAt(init, before[i], l);
      assert PtxAt(sections, before[i], l);
    }
  }

  lemma {:induction false} Occurs(sections: seq<Section>, id: string)
    requires id in Identifiers(sections)
    ensures exists l: nat :: l < |sections| && PtxAt(sections, id, l)
  {
    var n := |sections| - 1;
    var init := sections[..n];
    if id in Identifiers(init) {
      Occurs(init, id);
      var l: nat :| l < n && PtxAt(init, id, l);
      assert PtxAt(sections, id, l);
    } else {
      assert PtxAt(sections, id, n);
    }
  }

  lemma {:induction false} Collected(sections: seq<Section>, k: nat)
    requires k < |sections| && sections[k].Ptx?
    ensures sections[k].identifier in Identifiers(sections)
  {
    if k < |sections| - 1 {
      Collected(sections[..|sections| - 1], k);
    }
  }

  /** The text of a file; a missing file reads as empty. */
  function FileText(files: map<string, string>, name: string): string {
    if name in files then files[name] else ""
  }

  /**
   One more section of the identifier: an older file that cannot be read, or is empty, is an error; one of at least 50
   characters is appended from its 51st character on; a shorter one is not.
   */
  lemma MergeOneMore(files: map<string, string>, ptx: seq<Section>, s: Section)
    requires s.Ptx? && (forall p | p in ptx :: p.Ptx?)
    ensures ptx == [] ==> MergedFiles(files, ptx + [s]) == Some(files)
    ensures MergedFiles(files, ptx).None? ==> MergedFiles(files, ptx + [s]).None?
    ensures ptx != [] && MergedFiles(files, ptx).Some? ==>
              var before := MergedFiles(files, ptx).value;
              var older := FileText(before, ptx[|ptx| - 1].file);
              MergedFiles(files, ptx + [s])
              == if older == "" then None
                 else if |older| < 50 then Some(before)
                 else Some(before[s.file := FileText(before, s.file) + older[50..]])
  {
    assert (ptx + [s])[..|ptx|] == ptx;
  }

  /** The code of the older files: each without its first 50 characters, newest first. */
  lemma CodesMean(files: map<string, string>, ptx: seq<Section>)
    requires AllPtx(ptx) && FullFiles(files, ptx)
    ensures ptx == [] ==> Codes(files, ptx) == ""
    ensures ptx != [] ==>
              var s := ptx[|ptx| - 1];
              && AllPtx(ptx[..|ptx| - 1]) && FullFiles(files, ptx[..|ptx| - 1])
              && s.Ptx? && s.file in files && |files[s.file]| >= 50
              && Codes(files, ptx) == files[s.file][50..] + Codes(files, ptx[..|ptx| - 1])
              && MergedText(files, ptx) == files[s.file] + Codes(files, ptx[..|ptx| - 1])
  {
    if ptx != [] {
      assert ptx[|ptx| - 1] in ptx;
      assert forall p | p in ptx[..|ptx| - 1] :: p in ptx;
    }
  }
}
