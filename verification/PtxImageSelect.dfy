/** Choosing which extracted PTX images to load, by the names cuobjdump gives them. */
module PtxImageSelect {
  import opened Wrappers
  import opened Subsequences
  import opened PtxText

  /** `pattern` stands at position `k` of `s`. */
  predicate At(s: string, pattern: string, k: nat) {
    k + |pattern| <= |s| && s[k..k + |pattern|] == pattern
  }

  /** The last position up to `k` where `pattern` stands. */
  function RFindFrom(s: string, pattern: string, k: nat): (r: Option<nat>)
    ensures r.Some? ==> r.value <= k && At(s, pattern, r.value) && forall j | r.value < j <= k :: !At(s, pattern, j)
    ensures r.None? ==> forall j | 0 <= j <= k :: !At(s, pattern, j)
  {
    if At(s, pattern, k) then Some(k)
    else if k == 0 then None
    else RFindFrom(s, pattern, k - 1)
  }

  function RFind(s: string, pattern: string): Option<nat> {
    RFindFrom(s, pattern, |s|)
  }

  /** The first position from `k` on where `c` stands. */
  function FindChar(s: string, c: char, k: nat): (r: Option<nat>)
    ensures r.Some? ==> k <= r.value < |s| && s[r.value] == c && forall j | k <= j < r.value :: s[j] != c
    ensures r.None? ==> forall j | k <= j < |s| :: s[j] != c
    decreases |s| - k
  {
    if k >= |s| then None else if s[k] == c then Some(k) else FindChar(s, c, k + 1)
  }

  /** The module an image belongs to; "" if the name has no `.sm_` part. */
  function ModuleName(name: string): string {
    match RFind(name, "sm_")
    case None => ""
    case Some(sm) =>
      if sm == 0 || name[sm - 1] != '.' || sm == 1 then ""
      else
        var dot := sm - 1;
        match RFindFrom(name, ".", dot - 1)
        case None => name[..dot]
        case Some(prev) => if prev + 1 < dot && AllDigits(name[prev + 1..dot]) then name[..prev] else name[..dot]
  }

  /** The architecture, between `sm_` and the next dot; "" if there is none. */
  function ArchPart(name: string): string {
    match RFind(name, "sm_")
    case None => ""
    case Some(sm) =>
      match FindChar(name, '.', sm)
      case None => ""
      case Some(dot) => DotAfter(name, sm, dot); name[sm + 3..dot]
  }

  lemma DotAfter(name: string, sm: nat, dot: nat)
    requires At(name, "sm_", sm) && sm <= dot < |name| && name[dot] == '.'
    ensures sm + 3 <= dot
  {
    assert name[sm..sm + 3][0] == name[sm] && name[sm..sm + 3][1] == name[sm + 1] && name[sm..sm + 3][2] == name[sm + 2];
  }

  predicate HasSuffix(arch: string) {
    !AllDigits(arch)
  }

  predicate IsSuffixed(name: string) {
    HasSuffix(ArchPart(name))
  }

  // ----- the parsers as the source runs them -----

  method ImageModuleName(name: string) returns (r: string)
    ensures r == ModuleName(name)
  {
    var sm := RFind(name, "sm_");
    if sm.None? || sm.value == 0 || name[sm.value - 1] != '.' {
      return "";
    }
    var dot := sm.value - 1;
    if dot == 0 {
      return "";
    }
    var prev := RFindFrom(name, ".", dot - 1);
    if prev.Some? {
      var index := prev.value + 1 < dot;
      var k := prev.value + 1;
      while index && k < dot
        invariant prev.value + 1 <= k <= dot
        invariant index ==> forall i | prev.value + 1 <= i < k :: IsDigit(name[i])
        invariant !index ==> prev.value + 1 == dot || exists i | prev.value + 1 <= i < dot :: !IsDigit(name[i])
        invariant index ==> prev.value + 1 < dot
        decreases dot - k, index
      {
        if !IsDigit(name[k]) {
          index := false;
        }
        if index {
          k := k + 1;
        }
      }
      DigitsBetween(name, prev.value + 1, dot);
      if index {
        return name[..prev.value];
      }
    }
    r := name[..dot];
  }

  lemma DigitsBetween(s: string, a: nat, b: nat)
    requires a <= b <= |s|
    ensures AllDigits(s[a..b]) <==> forall i | a <= i < b :: IsDigit(s[i])
  {
    if AllDigits(s[a..b]) {
      forall i | a <= i < b ensures IsDigit(s[i]) {
        assert s[a..b][i - a] == s[i];
      }
    }
  }

  method ArchHasSuffix(arch: string) returns (r: bool)
    ensures r == HasSuffix(arch)
  {
    for j := 0 to |arch|
      invariant forall i | 0 <= i < j :: IsDigit(arch[i])
    {
      if !IsDigit(arch[j]) {
        return true;
      }
    }
    r := false;
  }

  /** The modules of the suffixed images. */
  function SuffixModules(names: seq<string>): seq<string> {
    if names == [] then []
    else
      var before, n := SuffixModules(names[..|names| - 1]), names[|names| - 1];
      if IsSuffixed(n) && ModuleName(n) != "" then before + [ModuleName(n)] else before
  }

  predicate Dropped(modules: seq<string>, name: string) {
    ModuleName(name) != "" && !IsSuffixed(name) && ModuleName(name) in modules
  }

  function Keep(names: seq<string>, modules: seq<string>): seq<string> {
    if names == [] then []
    else
      var before, n := Keep(names[..|names| - 1], modules), names[|names| - 1];
      if Dropped(modules, n) then before else before + [n]
  }

  function Selected(names: seq<string>): seq<string> {
    Keep(names, SuffixModules(names))
  }

  method DropBaseWhenSuffixPresent(names: seq<string>) returns (kept: seq<string>)
    ensures kept == Selected(names)
  {
    hide ModuleName, ArchPart, HasSuffix;
    var modules: seq<string> := [];
    for k := 0 to |names|
      invariant modules == SuffixModules(names[..k])
    {
      assert names[..k + 1][..k] == names[..k];
      var suffixed := ArchHasSuffix(ArchPart(names[k]));
      if suffixed {
        var m := ImageModuleName(names[k]);
        if m != "" {
          modules := modules + [m];
        }
      }
    }
    assert names[..|names|] == names;
    kept := [];
    for k := 0 to |names|
      invariant kept == Keep(names[..k], modules)
    {
      assert names[..k + 1][..k] == names[..k];
      var m := ImageModuleName(names[k]);
      var suffixed := ArchHasSuffix(ArchPart(names[k]));
      var drop := false;
      if m != "" && !suffixed {
        drop := Contains(modules, m);
      }
      if !drop {
        kept := kept + [names[k]];
      }
    }
  }

  method Contains(modules: seq<string>, m: string) returns (found: bool)
    ensures found == (m in modules)
  {
    for k := 0 to |modules|
      invariant m !in modules[..k]
    {
      if modules[k] == m {
        return true;
      }
    }
    found := false;
  }

  // ----- parsing undoes printing -----

  lemma AtMiddle(a: string, p: string, b: string)
    ensures At(a + p + b, p, |a|)
  {
  }

  /** Nothing to the right of the printed `sm_` looks like another one. */
  lemma LastSm(head: string, arch: string)
    requires '.' !in arch && forall k :: !At(arch, "sm_", k)
    ensures RFind(head + "sm_" + arch + ".ptx", "sm_") == Some(|head|)
  {
    var s := head + "sm_" + arch + ".ptx";
    var k := |head|;
    AtMiddle(head, "sm_", arch + ".ptx");
    assert s == head + "sm_" + (arch + ".ptx");
    forall j | k < j <= |s| ensures !At(s, "sm_", j) {
      if At(s, "sm_", j) {
        assert s[j..j + 3] == "sm_";
        assert s[j] == s[j..j + 3][0] && s[j + 1] == s[j..j + 3][1] && s[j + 2] == s[j..j + 3][2];
        PlaceOfSm(head, arch, s, j);
      }
    }
  }

  lemma PlaceOfSm(head: string, arch: string, s: string, j: nat)
    requires s == head + "sm_" + arch + ".ptx" && '.' !in arch && (forall k :: !At(arch, "sm_", k))
    requires |head| < j && j + 3 <= |s|
    ensures !(s[j] == 's' && s[j + 1] == 'm' && s[j + 2] == '_')
  {
    var a := |head| + 3;
    var e := a + |arch|;
    assert s[|head| + 1] == 'm' && s[|head| + 2] == '_';
    assert s[e] == '.' && s[e + 1] == 'p' && s[e + 2] == 't' && s[e + 3] == 'x';
    if a <= j && j + 3 <= e {
      assert arch == s[a..e];
      var i := j - a;
      assert !At(arch, "sm_", i);
      assert arch[i] == s[j] && arch[i + 1] == s[j + 1] && arch[i + 2] == s[j + 2];
      assert arch[i..i + 3] == [s[j], s[j + 1], s[j + 2]];
    }
  }

  lemma AtDot(s: string, j: nat)
    ensures At(s, ".", j) <==> j < |s| && s[j] == '.'
  {
    if j < |s| {
      assert s[j..j + 1] == [s[j]];
    }
  }

  lemma LastDot(a: string, b: string)
    requires '.' !in b
    ensures RFindFrom(a + "." + b, ".", |a| + |b|) == Some(|a|)
  {
    hide At, RFindFrom;
    var s := a + "." + b;
    AtDot(s, |a|);
    forall j | |a| < j <= |a| + |b| ensures !At(s, ".", j) {
      AtDot(s, j);
      assert s[j] == b[j - |a| - 1];
    }
  }

  lemma {:induction false} RFindPrefix(s: string, t: string, pattern: string, k: nat)
    requires k + |pattern| <= |s|
    ensures RFindFrom(s + t, pattern, k) == RFindFrom(s, pattern, k)
  {
    assert (s + t)[k..k + |pattern|] == s[k..k + |pattern|];
    if k > 0 {
      RFindPrefix(s, t, pattern, k - 1);
    }
  }

  function Suffix(arch: string): string {
    "sm_" + arch + ".ptx"
  }

  /** An architecture as cuobjdump prints it. */
  ghost predicate PlainArch(arch: string) {
    '.' !in arch && forall k :: !At(arch, "sm_", k)
  }

  lemma ArchRoundTrip(head: string, arch: string)
    requires PlainArch(arch)
    ensures ArchPart(head + Suffix(arch)) == arch
  {
    var s := head + Suffix(arch);
    assert s == head + "sm_" + arch + ".ptx";
    LastSm(head, arch);
    var k := |head|;
    var e := k + 3 + |arch|;
    assert s[e] == '.';
    forall j | k <= j < e ensures s[j] != '.' {
      if j >= k + 3 { assert s[j] == arch[j - k - 3]; }
    }
    assert s[k + 3..e] == arch;
  }

  /** `<module>.<index>.sm_<arch>.ptx` */
  lemma IndexedNameRoundTrip(m: string, index: string, arch: string)
    requires PlainArch(arch) && index != "" && AllDigits(index)
    ensures ModuleName(m + "." + index + "." + Suffix(arch)) == m
    ensures ArchPart(m + "." + index + "." + Suffix(arch)) == arch
  {
    hide RFind, RFindFrom, ArchPart;
    var front := m + "." + index;
    var head := front + ".";
    var s := head + Suffix(arch);
    assert s == head + "sm_" + arch + ".ptx";
    ArchRoundTrip(head, arch);
    LastSm(head, arch);
    NoDot(index);
    LastDot(m, index);
    RFindPrefix(front, "." + Suffix(arch), ".", |m| + |index|);
    assert s == front + ("." + Suffix(arch));
    assert s[|m| + 1..|front|] == index && s[..|m|] == m && s[|front|] == '.';
  }

  lemma NoDot(index: string)
    requires AllDigits(index)
    ensures '.' !in index
  {
  }

  /** The module name ends in a dot and digits, and would be read as one with an index. */
  predicate EndsInIndex(m: string) {
    exists k | 0 <= k < |m| - 1 :: m[k] == '.' && AllDigits(m[k + 1..])
  }

  /** `<module>.sm_<arch>.ptx` is read as that module exactly when the module does not itself end in an index. */
  lemma PlainNameRoundTrip(m: string, arch: string)
    requires PlainArch(arch)
    ensures ModuleName(m + "." + Suffix(arch)) == m <==> !EndsInIndex(m)
    ensures ArchPart(m + "." + Suffix(arch)) == arch
  {
    hide RFind, RFindFrom, ArchPart, At;
    var head := m + ".";
    var s := head + Suffix(arch);
    assert s == head + "sm_" + arch + ".ptx";
    ArchRoundTrip(head, arch);
    LastSm(head, arch);
    assert s[|m|] == '.' && s[..|m|] == m;
    if m != "" {
      RFindPrefix(m, "." + Suffix(arch), ".", |m| - 1);
      assert s == m + ("." + Suffix(arch));
      forall j | 0 <= j < |m| ensures At(m, ".", j) <==> m[j] == '.' {
        AtDot(m, j);
      }
      var prev := RFindFrom(m, ".", |m| - 1);
      if prev.Some? {
        assert s[prev.value + 1..|m|] == m[prev.value + 1..];
        IndexIsLast(m, prev.value);
      }
    }
  }

  lemma IndexIsLast(m: string, prev: nat)
    requires prev < |m| && m[prev] == '.' && forall j | prev < j < |m| :: m[j] != '.'
    ensures EndsInIndex(m) <==> prev + 1 < |m| && AllDigits(m[prev + 1..])
  {
    if EndsInIndex(m) {
      var k :| 0 <= k < |m| - 1 && m[k] == '.' && AllDigits(m[k + 1..]);
      assert m[k + 1..] == m[k + 1..|m|];
      DigitsBetween(m, k + 1, |m|);
      assert k == prev;
    }
  }

  // ----- every name -----

  predicate SmAt(name: string, k: nat) {
    k + 3 <= |name| && name[k] == 's' && name[k + 1] == 'm' && name[k + 2] == '_'
  }

  /** The last `sm_` of the name stands at `k`. */
  ghost predicate LastSmAt(name: string, k: nat) {
    SmAt(name, k) && forall j: nat :: k < j ==> !SmAt(name, j)
  }

  /** Position `p` has the last dot before `dot`. */
  predicate LastDotAt(name: string, p: nat, dot: nat) {
    p < dot <= |name| && name[p] == '.' && forall j | p < j < dot :: name[j] != '.'
  }

  predicate Number(t: string) {
    t != "" && forall i | 0 <= i < |t| :: '0' <= t[i] <= '9'
  }

  lemma SmMeans(name: string, k: nat)
    ensures At(name, "sm_", k) <==> SmAt(name, k)
  {
    if k + 3 <= |name| {
      assert name[k..k + 3] == [name[k], name[k + 1], name[k + 2]];
    }
  }

  lemma SmFound(name: string, k: nat)
    requires LastSmAt(name, k)
    ensures RFind(name, "sm_") == Some(k)
  {
    hide SmAt, At, RFindFrom;
    LastSmIn(name, k);
    SmMeans(name, k);
    forall j: nat ensures At(name, "sm_", j) <==> SmAt(name, j) {
      SmMeans(name, j);
    }
  }

  /** A name without `sm_` has neither a module nor an architecture. */
  lemma NamelessImage(name: string)
    requires forall j: nat :: !SmAt(name, j)
    ensures ModuleName(name) == "" && ArchPart(name) == ""
  {
    hide SmAt, At;
    forall j: nat ensures !At(name, "sm_", j) {
      SmMeans(name, j);
    }
  }

  /**
   The module is what stands before the dot before the last `sm_`, less a dot and a number at its end; without such a
   dot there is none.
   */
  lemma ModuleMeans(name: string, k: nat)
    requires LastSmAt(name, k)
    ensures k < 2 || name[k - 1] != '.' ==> ModuleName(name) == ""
    ensures k >= 2 && name[k - 1] == '.' ==>
              && ((forall j | 0 <= j < k - 1 :: name[j] != '.') ==> ModuleName(name) == name[..k - 1])
              && (forall p: nat | LastDotAt(name, p, k - 1) ::
                    ModuleName(name) == if Number(name[p + 1..k - 1]) then name[..p] else name[..k - 1])
  {
    hide RFind, RFindFrom, LastSmAt, At;
    SmFound(name, k);
    LastSmIn(name, k);
    if k >= 2 && name[k - 1] == '.' {
      forall j: nat | j < |name| ensures At(name, ".", j) <==> name[j] == '.' {
        AtDot(name, j);
      }
      forall p: nat | LastDotAt(name, p, k - 1)
        ensures ModuleName(name) == if Number(name[p + 1..k - 1]) then name[..p] else name[..k - 1]
      {
        LastDotFound(name, p, k - 1);
      }
    }
  }

  lemma LastDotFound(name: string, p: nat, dot: nat)
    requires LastDotAt(name, p, dot)
    ensures RFindFrom(name, ".", dot - 1) == Some(p)
  {
    hide At, RFindFrom;
    forall j: nat | j < |name| ensures At(name, ".", j) <==> name[j] == '.' {
      AtDot(name, j);
    }
    assert At(name, ".", p);
  }

  lemma LastSmIn(name: string, k: nat)
    requires LastSmAt(name, k)
    ensures k + 3 <= |name| && name[k] != '.' && name[k + 1] != '.' && name[k + 2] != '.'
  {
  }

  /** The architecture runs from the last `sm_` to the next dot; without one there is none. */
  lemma ArchMeans(name: string, k: nat)
    requires LastSmAt(name, k)
    ensures (forall j | k + 3 <= j < |name| :: name[j] != '.') ==> ArchPart(name) == ""
    ensures forall e: nat | k + 3 <= e < |name| && name[e] == '.' && (forall j | k + 3 <= j < e :: name[j] != '.') ::
              ArchPart(name) == name[k + 3..e]
  {
    hide RFind, LastSmAt;
    SmFound(name, k);
    LastSmIn(name, k);
    var dot := FindChar(name, '.', k);
    assert dot.Some? ==> dot.value != k && dot.value != k + 1 && dot.value != k + 2;
  }

  /** A suffix is a character other than a digit. */
  lemma SuffixMeans(arch: string)
    ensures HasSuffix(arch) <==> exists i :: 0 <= i < |arch| && !('0' <= arch[i] <= '9')
  {
  }

  // ----- what the filter keeps -----

  /** Some suffixed image of the list has this module. */
  ghost predicate SuffixPresent(names: seq<string>, m: string) {
    exists n | n in names :: IsSuffixed(n) && ModuleName(n) == m
  }

  lemma {:induction false} SuffixModulesMean(names: seq<string>, m: string)
    requires m != ""
    ensures m in SuffixModules(names) <==> SuffixPresent(names, m)
  {
    hide ModuleName, IsSuffixed;
    if names != [] {
      var init, n := names[..|names| - 1], names[|names| - 1];
      assert names == init + [n];
      SuffixModulesMean(init, m);
    }
  }

  lemma {:induction false} KeepMeans(names: seq<string>, modules: seq<string>, n: string)
    ensures n in Keep(names, modules) <==> n in names && !Dropped(modules, n)
  {
    hide Dropped;
    if names != [] {
      var init := names[..|names| - 1];
      assert names == init + [names[|names| - 1]];
      KeepMeans(init, modules, n);
    }
  }

  lemma {:induction false} KeepIsSubsequence(names: seq<string>, modules: seq<string>)
    ensures Subsequence(Keep(names, modules), names)
  {
    hide Dropped;
    if names != [] {
      var init, n := names[..|names| - 1], names[|names| - 1];
      KeepIsSubsequence(init, modules);
      assert (Keep(init, modules) + [n])[..|Keep(init, modules)|] == Keep(init, modules);
    }
  }

  /** The filter decides on each name by itself and keeps their order and number. */
  lemma {:induction false} KeptOneByOne(a: seq<string>, b: seq<string>, modules: seq<string>, n: string)
    ensures Keep(a + b, modules) == Keep(a, modules) + Keep(b, modules)
    ensures Keep([n], modules)
         == if ModuleName(n) != "" && !IsSuffixed(n) && ModuleName(n) in modules then [] else [n]
    decreases |b|
  {
    hide ModuleName, IsSuffixed;
    assert [n][..0] == [];
    if b == [] {
      assert a + b == a;
    } else {
      var k := |b| - 1;
      assert (a + b)[..|a + b| - 1] == a + b[..k];
      KeptOneByOne(a, b[..k], modules, n);
    }
  }

  lemma {:induction false} KeepAll(names: seq<string>, modules: seq<string>)
    requires forall n | n in names :: !Dropped(modules, n)
    ensures Keep(names, modules) == names
  {
    hide Dropped;
    if names != [] {
      KeepAll(names[..|names| - 1], modules);
    }
  }

  /** The base images of modules that also have a suffixed image are dropped, and nothing else; the order stays. */
  lemma SelectedMeans(names: seq<string>, n: string)
    ensures Subsequence(Selected(names), names)
    ensures n in Selected(names)
       <==> n in names && !(ModuleName(n) != "" && !IsSuffixed(n) && SuffixPresent(names, ModuleName(n)))
  {
    hide ModuleName, IsSuffixed, Keep, SuffixModules;
    KeepIsSubsequence(names, SuffixModules(names));
    KeepMeans(names, SuffixModules(names), n);
    if ModuleName(n) != "" {
      SuffixModulesMean(names, ModuleName(n));
    }
  }

  /** Every module of the list is still represented. */
  lemma ModulesStay(names: seq<string>, n: string)
    requires n in names
    ensures exists k | k in Selected(names) :: ModuleName(k) == ModuleName(n)
  {
    hide ModuleName, IsSuffixed, Selected;
    SelectedMeans(names, n);
    if n !in Selected(names) {
      var k :| k in names && IsSuffixed(k) && ModuleName(k) == ModuleName(n);
      SelectedMeans(names, k);
    }
  }

  /** A second selection drops nothing more. */
  lemma SelectedTwice(names: seq<string>)
    ensures Selected(Selected(names)) == Selected(names)
  {
    hide ModuleName, IsSuffixed, Keep, SuffixModules;
    var kept := Selected(names);
    forall n | n in kept ensures !Dropped(SuffixModules(kept), n) {
      SelectedMeans(names, n);
      if ModuleName(n) != "" {
        SuffixModulesMean(kept, ModuleName(n));
        if SuffixPresent(kept, ModuleName(n)) {
          var k :| k in kept && IsSuffixed(k) && ModuleName(k) == ModuleName(n);
          SelectedMeans(names, k);
        }
      }
    }
    KeepAll(kept, SuffixModules(kept));
  }

  // ----- the version to load -----

  predicate Ascending(versions: seq<nat>) {
    forall i, j | 0 <= i < j < |versions| :: versions[i] < versions[j]
  }

  /** `v` is a version that the search through the versions within the cap can settle on. */
  predicate Found(cap: nat, v: nat) {
    0 < v <= cap
  }

  ghost predicate IsLargest(versions: seq<nat>, r: nat) {
    r in versions && forall v | v in versions :: v <= r
  }

  /**
   The largest version within the cap, unless that is version 0 or there is none or no cap is set: then the
   largest of all.
   */
  ghost predicate IsSelected(versions: seq<nat>, cap: nat, r: nat) {
    if cap != 0 && exists v | v in versions :: Found(cap, v)
    then r in versions && Found(cap, r) && forall v | v in versions && v <= cap :: v <= r
    else IsLargest(versions, r)
  }

  /** The versions are the keys of an ordered map; the code takes 0 for "none found yet". */
  method SelectVersion(versions: seq<nat>, cap: nat) returns (r: nat)
    requires versions != [] && Ascending(versions)
    ensures IsSelected(versions, cap, r)
  {
    var largest := versions[|versions| - 1];
    r := 0;
    if cap != 0 {
      var k := |versions|;
      while k > 0
        invariant 0 <= k <= |versions| && r == 0
        invariant forall i | k <= i < |versions| :: versions[i] > cap
      {
        k := k - 1;
        if versions[k] <= cap {
          r := versions[k];
          break;
        }
      }
      if r == 0 {
        r := largest;
      }
    } else {
      r := largest;
    }
  }

  /** A version within the cap is selected whenever there is one. */
  ghost predicate CapKept(versions: seq<nat>, cap: nat, r: nat) {
    (exists v | v in versions :: v <= cap) ==> r <= cap
  }

  /**
   A set cap is kept exactly when version 0, the version of a name without a number, is not the only one within
   it beside larger ones.
   */
  lemma CapKeptUnless(versions: seq<nat>, cap: nat, r: nat)
    requires versions != [] && Ascending(versions) && cap != 0 && IsSelected(versions, cap, r)
    ensures CapKept(versions, cap, r) <==> !(versions[0] == 0 && |versions| > 1 && versions[1] > cap)
  {
    if versions[0] == 0 && |versions| > 1 && versions[1] > cap {
      forall v | v in versions ensures !Found(cap, v) {
        var i :| 0 <= i < |versions| && versions[i] == v;
        assert i > 1 ==> versions[1] < versions[i];
      }
      assert versions[1] in versions && versions[0] in versions && versions[0] <= cap;
    } else {
      forall v | v in versions && v <= cap ensures r <= cap {
        var i :| 0 <= i < |versions| && versions[i] == v;
        assert Found(cap, v) || i == 0;
        assert |versions| > 1 ==> versions[1] in versions;
        assert Found(cap, v) || |versions| == 1 || Found(cap, versions[1]);
      }
    }
  }

  /** With versions 0 and 90 and a cap of 80, version 90 is loaded. */
  lemma CapMissed(r: nat)
    requires IsSelected([0, 90], 80, r)
    ensures r == 90 && !CapKept([0, 90], 80, r)
  {
    assert 90 in [0, 90] && 0 in [0, 90];
  }

  // ----- a module name that is misread -----

  /** The image of module "a.1" is taken for the first image of module "a". */
  lemma ModuleMisread()
    ensures ModuleName("a.1.sm_90.ptx") == "a" && EndsInIndex("a.1")
  {
    hide ModuleName;
    forall k ensures !At("90", "sm_", k) {
    }
    IndexedNameRoundTrip("a", "1", "90");
    assert "a" + "." + "1" + "." + Suffix("90") == "a.1.sm_90.ptx";
    assert "a.1"[1] == '.' && "a.1"[2..] == "1";
  }
}
