/** What one run of init keeps about the contents of objects and ELF. */
module BuildContents {
  import opened Build
  import opened BuildProofs

  // ---- The invariants -----------------------------------------------------------------

  /** No two listed paths share an object file. */
  ghost predicate NoClash(fs: Fs) {
    forall p, q :: Source(fs, p) && Source(fs, q) && OutFile(p) == OutFile(q) ==> p == q
  }

  /** An up-to-date object file holds what its source gives. */
  ghost predicate ObjectGood(tools: Tools, fs: Fs, p: Path) {
    Fresh(fs, p) && fs.IsFile(OutFile(p)) ==>
      fs.IsFile(p) && Read(fs, OutFile(p)) == Compiled(tools, fs, p)
  }

  ghost predicate ObjectsGood(tools: Tools, fs: Fs) {
    forall p :: Source(fs, p) ==> ObjectGood(tools, fs, p)
  }

  /** A link takes files only: what is a directory now was made one later, or is
      asked for by a source that is newer. */
  ghost predicate LinkInput(fs: Fs, p: Path) {
    fs.IsFile(ELF) && fs.IsDir(OutFile(p)) && p in fs.nodes ==>
      || fs.nodes[p].mtime > fs.nodes[ELF].mtime
      || fs.nodes[OutFile(p)].mtime > fs.nodes[ELF].mtime
  }

  ghost predicate LinkInputs(fs: Fs) {
    forall p :: Source(fs, p) ==> LinkInput(fs, p)
  }

  /** What every edit, every deletion and every step of every run keeps. */
  ghost predicate Good(tools: Tools, fs: Fs) {
    Lists(tools) && Stamped(fs) && Rooted(fs) && NoClash(fs) && ObjectsGood(tools, fs) && LinkInputs(fs)
  }

  /** An up-to-date ELF is the link of the objects. */
  ghost predicate ElfGood(tools: Tools, fs: Fs) {
    AllFresh(fs) && ElfLast(fs) && fs.IsFile(ELF) ==> Read(fs, ELF) == Linked(tools, fs)
  }

  ghost predicate NewerBelowElf(fs: Fs, p: Path) {
    && Source(fs, p) && ELF < OutFile(p) && ELF in fs.nodes
    && (Fresh(fs, p) ==> fs.nodes[OutFile(p)].mtime > fs.nodes[ELF].mtime)
  }

  /** A directory in place of the ELF is older than some object in it. */
  ghost predicate ElfDirOlder(fs: Fs) {
    fs.IsDir(ELF) ==> exists p :: NewerBelowElf(fs, p)
  }

  ghost predicate InitSource(fs: Fs, p: Path) {
    Source(fs, p) && p[0] == "init"
  }

  ghost predicate InitDirUsed(fs: Fs) {
    fs.IsDir(INIT_DIR) ==> exists p :: InitSource(fs, p)
  }

  /** What every step keeps that deletes no source. */
  ghost predicate Tidy(tools: Tools, fs: Fs) {
    ElfGood(tools, fs) && ElfDirOlder(fs) && InitDirUsed(fs)
  }

  lemma GoodIsStamped(tools: Tools, fs: Fs)
    requires Good(tools, fs)
    ensures Stamped(fs) && Rooted(fs) && Lists(tools)
  {
    hide Stamped, Rooted, Lists, NoClash, ObjectsGood, LinkInputs;
  }

  // ---- One change among the outputs ------------------------------------------------------

  lemma SameCompiled(tools: Tools, fs: Fs, fs': Fs, p: Path)
    requires SameInputs(fs, fs') && IsSource(p)
    ensures Compiled(tools, fs, p) == Compiled(tools, fs', p)
    ensures fs.IsFile(p) <==> fs'.IsFile(p)
  {
    FixedNames();
    OutFileIsOutput(p);
  }

  /** An object that a change leaves a file is the one it was. */
  lemma SameObject(tools: Tools, fs: Fs, fs': Fs, x: Path, p: Path)
    requires Advances(fs, fs') && Changes(fs, fs', x) && Source(fs, p) && OutFile(p) != x
    requires ObjectGood(tools, fs, p)
    ensures ObjectGood(tools, fs', p)
  {
    hide Stamped, Rooted, Later, Compiled;
    var o := OutFile(p);
    StillSource(fs, fs', p);
    SameCompiled(tools, fs, fs', p);
    FixedNames();
    assert o in fs'.nodes ==> SameOrTouched(fs, fs', x, o);
  }

  lemma ChangeKeepsObjects(tools: Tools, fs: Fs, fs': Fs, x: Path)
    requires Advances(fs, fs') && Changes(fs, fs', x) && ObjectsGood(tools, fs)
    requires forall p :: Source(fs, p) && OutFile(p) == x ==> ObjectGood(tools, fs', p)
    ensures ObjectsGood(tools, fs')
  {
    hide Stamped, Rooted, Later, ObjectGood, SameInputs;
    forall p | Source(fs', p)
      ensures ObjectGood(tools, fs', p)
    {
      StillSource(fs, fs', p);
      if OutFile(p) != x { SameObject(tools, fs, fs', x, p); }
    }
  }

  lemma ChangeKeepsLinkInputs(fs: Fs, fs': Fs, x: Path)
    requires Stamped(fs) && Advances(fs, fs') && Changes(fs, fs', x) && x != ELF && LinkInputs(fs)
    ensures LinkInputs(fs')
  {
    hide Rooted, Later;
    forall p | Source(fs', p)
      ensures LinkInput(fs', p)
    {
      StillSource(fs, fs', p);
      assert LinkInput(fs, p);
      assert ELF in fs'.nodes ==> SameOrTouched(fs, fs', x, ELF);
      assert OutFile(p) != x && OutFile(p) in fs'.nodes ==> SameOrTouched(fs, fs', x, OutFile(p));
    }
  }

  lemma SameInputsKeepNoClash(fs: Fs, fs': Fs)
    requires SameInputs(fs, fs') && NoClash(fs)
    ensures NoClash(fs')
  {
    forall p, q | Source(fs', p) && Source(fs', q) && OutFile(p) == OutFile(q)
      ensures p == q
    {
      StillSource(fs, fs', p);
      StillSource(fs, fs', q);
    }
  }

  lemma ChangeKeepsGood(tools: Tools, fs: Fs, fs': Fs, x: Path)
    requires Good(tools, fs) && Advances(fs, fs') && Changes(fs, fs', x) && x != ELF
    requires forall p :: Source(fs, p) && OutFile(p) == x ==> ObjectGood(tools, fs', p)
    ensures Good(tools, fs')
  {
    hide Stamped, Rooted, Later, SameInputs, Changes, NoClash, ObjectsGood, LinkInputs, Lists;
    SameInputsKeepNoClash(fs, fs');
    ChangeKeepsObjects(tools, fs, fs', x);
    ChangeKeepsLinkInputs(fs, fs', x);
  }

  /** What is below a directory in place of the ELF stays newer than it. */
  lemma ChangeKeepsElfDir(fs: Fs, fs': Fs, x: Path)
    requires Stamped(fs) && Advances(fs, fs') && Changes(fs, fs', x) && ElfDirOlder(fs)
    requires x != ELF && Parent(x) != ELF
    ensures ElfDirOlder(fs')
  {
    hide Rooted, Later, Stamped;
    if fs'.IsDir(ELF) {
      assert SameOrTouched(fs, fs', x, ELF);
      var p :| NewerBelowElf(fs, p);
      NewerStays(fs, fs', x, p);
    }
  }

  lemma NewerStays(fs: Fs, fs': Fs, x: Path, p: Path)
    requires Stamped(fs) && Advances(fs, fs') && Changes(fs, fs', x) && NewerBelowElf(fs, p)
    requires ELF in fs'.nodes && fs'.nodes[ELF] == fs.nodes[ELF]
    ensures NewerBelowElf(fs', p)
  {
    hide Rooted, Later;
    StillSource(fs, fs', p);
    FixedNames();
    var o := OutFile(p);
    assert o != x && o in fs'.nodes ==> SameOrTouched(fs, fs', x, o);
  }

  lemma ChangeKeepsInitDir(fs: Fs, fs': Fs, x: Path)
    requires Advances(fs, fs') && Changes(fs, fs', x) && InitDirUsed(fs) && x != INIT_DIR
    ensures InitDirUsed(fs')
  {
    hide Rooted, Later, Stamped;
    if fs'.IsDir(INIT_DIR) {
      assert SameOrTouched(fs, fs', x, INIT_DIR);
      var p :| InitSource(fs, p);
      StillSource(fs, fs', p);
      assert InitSource(fs', p);
    }
  }

  // ---- Steps of a build -----------------------------------------------------------------

  /** A directory is made on the way to an object that does not exist yet. */
  lemma MakeDirKeeps(tools: Tools, fs: Fs, d: Path, p: Path)
    requires Good(tools, fs) && Source(fs, p) && OutFile(p) !in fs.nodes && d < OutFile(p)
    requires Output(d) && d !in fs.nodes && (|d| > 1 ==> fs.IsDir(Parent(d)))
    ensures Good(tools, MakeDir(fs, d)) && (Tidy(tools, fs) ==> Tidy(tools, MakeDir(fs, d)))
  {
    hide Stamped, Rooted, ObjectsGood, LinkInputs, NoClash, Lists, Advances, Changes, Tidy;
    var fs' := MakeDir(fs, d);
    MakeDirAdvances(fs, d);
    forall q | Source(fs, q) && OutFile(q) == d
      ensures ObjectGood(tools, fs', q)
    {
    }
    if d == ELF {
      NoElfIsGood(tools, fs, fs', d);
    } else {
      ChangeKeepsGood(tools, fs, fs', d);
    }
    if Tidy(tools, fs) {
      MakeDirKeepsTidy(tools, fs, d, p);
    }
  }

  /** While there is no ELF file, nothing is said about its inputs. */
  lemma NoElfIsGood(tools: Tools, fs: Fs, fs': Fs, x: Path)
    requires Good(tools, fs) && Advances(fs, fs') && Changes(fs, fs', x) && !fs'.IsFile(ELF)
    requires forall p :: Source(fs, p) && OutFile(p) == x ==> ObjectGood(tools, fs', p)
    ensures Good(tools, fs')
  {
    hide Stamped, Rooted, Later, SameInputs, Changes, NoClash, ObjectsGood, Lists;
    SameInputsKeepNoClash(fs, fs');
    ChangeKeepsObjects(tools, fs, fs', x);
  }

  lemma MakeDirKeepsTidy(tools: Tools, fs: Fs, d: Path, p: Path)
    requires Stamped(fs) && Rooted(fs) && Tidy(tools, fs)
    requires Source(fs, p) && OutFile(p) !in fs.nodes && d < OutFile(p)
    requires Output(d) && d !in fs.nodes && (|d| > 1 ==> fs.IsDir(Parent(d)))
    ensures Tidy(tools, MakeDir(fs, d))
  {
    hide Stamped, Rooted, Advances, Changes, ElfGood, ElfDirOlder, InitDirUsed, Fresh;
    var fs' := MakeDir(fs, d);
    MakeDirAdvances(fs, d);
    StillMissing(tools, fs, d, p);
    OutFileIsOutput(p);
    if d != INIT_DIR {
      ChangeKeepsInitDir(fs, fs', d);
    } else {
      InitDirIsUsed(fs', p);
    }
    if d != ELF && Parent(d) != ELF {
      ChangeKeepsElfDir(fs, fs', d);
    }
  }

  lemma InitDirIsUsed(fs: Fs, p: Path)
    requires InitSource(fs, p)
    ensures InitDirUsed(fs)
  {
  }

  /** Without its object, `p` is not up to date. */
  lemma StillMissing(tools: Tools, fs: Fs, d: Path, p: Path)
    requires Source(fs, p) && Advances(fs, MakeDir(fs, d)) && OutFile(p) !in fs.nodes && d < OutFile(p)
    ensures var fs' := MakeDir(fs, d);
      && Source(fs', p) && !Fresh(fs', p) && ElfGood(tools, fs')
      && (d == ELF || Parent(d) == ELF ==> ElfDirOlder(fs'))
  {
    hide Stamped, Rooted, Later, SameInputs;
    var fs' := MakeDir(fs, d);
    StillSource(fs, fs', p);
    assert OutFile(p) !in fs'.nodes;
    if (d == ELF || Parent(d) == ELF) && fs'.IsDir(ELF) {
      assert NewerBelowElf(fs', p);
    }
  }

  lemma {:induction false} MkDirsKeeps(tools: Tools, fs: Fs, d: Path, p: Path)
    requires Good(tools, fs) && Source(fs, p) && OutFile(p) !in fs.nodes && d < OutFile(p)
    requires CanMake(fs, d)
    ensures Good(tools, MkDirs(fs, d)) && (Tidy(tools, fs) ==> Tidy(tools, MkDirs(fs, d)))
    decreases |d|
  {
    hide Good, Tidy, Stamped, Rooted, SameInputs, Later, Grows, KeepsElf, CanMake, MakeDir;
    if d != [] && d !in fs.nodes {
      GoodIsStamped(tools, fs);
      CanMakeParent(fs, d);
      MkDirsKeeps(tools, fs, Parent(d), p);
      MkDirsAdvances(fs, Parent(d));
      var m := MkDirs(fs, Parent(d));
      NotOnTheWay(fs, m, Parent(d), OutFile(p));
      NotOnTheWay(fs, m, Parent(d), d);
      StillSource(fs, m, p);
      MakeDirKeeps(tools, m, d, p);
    }
  }

  lemma NotOnTheWay(fs: Fs, m: Fs, d: Path, x: Path)
    requires AlongPath(fs, m, d) && !(x <= d) && x !in fs.nodes
    ensures x !in m.nodes
  {
  }

  lemma WriteObjectKeeps(tools: Tools, fs: Fs, p: Path)
    requires Good(tools, fs) && Source(fs, p) && fs.IsFile(p)
    requires fs.IsDir(Parent(OutFile(p))) && !fs.IsDir(OutFile(p))
    ensures var fs' := Write(fs, OutFile(p), Compiled(tools, fs, p));
      Good(tools, fs') && (Tidy(tools, fs) ==> Tidy(tools, fs'))
  {
    hide Stamped, Rooted, ObjectsGood, LinkInputs, Lists, Advances, Changes, Tidy, Compiled;
    var o, c := OutFile(p), Compiled(tools, fs, p);
    var fs' := Write(fs, o, c);
    OutFileIsOutput(p);
    WriteAdvances(fs, o, c);
    SameCompiled(tools, fs, fs', p);
    ChangeKeepsGood(tools, fs, fs', o);
    if Tidy(tools, fs) {
      WriteObjectKeepsTidy(tools, fs, p, c);
    }
  }

  lemma WriteObjectKeepsTidy(tools: Tools, fs: Fs, p: Path, c: Content)
    requires Stamped(fs) && Rooted(fs) && Tidy(tools, fs) && Source(fs, p)
    requires fs.IsDir(Parent(OutFile(p))) && !fs.IsDir(OutFile(p))
    ensures Tidy(tools, Write(fs, OutFile(p), c))
  {
    hide Rooted, Stamped, Advances, Changes, Fresh, Linked, ElfDirOlder, InitDirUsed;
    var fs' := Write(fs, OutFile(p), c);
    OutFileIsOutput(p);
    WriteAdvances(fs, OutFile(p), c);
    ChangeKeepsInitDir(fs, fs', OutFile(p));
    if Parent(OutFile(p)) != ELF {
      ChangeKeepsElfDir(fs, fs', OutFile(p));
    }
    WrittenIsNewest(tools, fs, p, c);
  }

  lemma WrittenIsNewest(tools: Tools, fs: Fs, p: Path, c: Content)
    requires Stamped(fs) && Source(fs, p) && Advances(fs, Write(fs, OutFile(p), c))
    requires fs.IsDir(Parent(OutFile(p)))
    ensures var fs' := Write(fs, OutFile(p), c);
      ElfGood(tools, fs') && (Parent(OutFile(p)) == ELF ==> ElfDirOlder(fs'))
  {
    hide Rooted, Later, SameInputs, Fresh, Linked;
    var fs' := Write(fs, OutFile(p), c);
    StillSource(fs, fs', p);
    OutFileIsOutput(p);
    assert fs'.nodes[OutFile(p)].mtime == fs.clock + 2;
    if fs'.IsFile(ELF) {
      assert fs'.nodes[ELF] == fs.nodes[ELF];
      assert !NotNewer(fs', p);
    }
    if Parent(OutFile(p)) == ELF {
      assert NewerBelowElf(fs', p);
    }
  }

  lemma RemoveObjectKeeps(tools: Tools, fs: Fs, p: Path)
    requires Good(tools, fs) && Source(fs, p) && fs.IsFile(OutFile(p))
    ensures var fs' := Remove(fs, OutFile(p));
      Good(tools, fs') && (Tidy(tools, fs) ==> Tidy(tools, fs'))
  {
    hide Stamped, Rooted, ObjectsGood, LinkInputs, Lists, Advances, Changes, Tidy, NoClash;
    var fs' := Remove(fs, OutFile(p));
    OutFileIsOutput(p);
    RemoveAdvances(fs, OutFile(p));
    ChangeKeepsGood(tools, fs, fs', OutFile(p));
    if Tidy(tools, fs) {
      RemoveObjectKeepsTidy(tools, fs, p);
    }
  }

  lemma RemoveObjectKeepsTidy(tools: Tools, fs: Fs, p: Path)
    requires Stamped(fs) && Rooted(fs) && Tidy(tools, fs) && Source(fs, p) && fs.IsFile(OutFile(p))
    ensures Tidy(tools, Remove(fs, OutFile(p)))
  {
    hide Rooted, Stamped, Advances, Changes, Linked, ElfDirOlder, InitDirUsed;
    var fs' := Remove(fs, OutFile(p));
    OutFileIsOutput(p);
    RemoveAdvances(fs, OutFile(p));
    ChangeKeepsInitDir(fs, fs', OutFile(p));
    if Parent(OutFile(p)) != ELF {
      ChangeKeepsElfDir(fs, fs', OutFile(p));
    }
    RemovedIsMissing(tools, fs, p);
  }

  lemma RemovedIsMissing(tools: Tools, fs: Fs, p: Path)
    requires Source(fs, p) && Advances(fs, Remove(fs, OutFile(p)))
    ensures var fs' := Remove(fs, OutFile(p));
      ElfGood(tools, fs') && (Parent(OutFile(p)) == ELF ==> ElfDirOlder(fs'))
  {
    hide Stamped, Rooted, Later, SameInputs, Linked;
    var fs' := Remove(fs, OutFile(p));
    StillSource(fs, fs', p);
    assert !Fresh(fs', p);
    if Parent(OutFile(p)) == ELF && fs'.IsDir(ELF) {
      assert NewerBelowElf(fs', p);
    }
  }

  lemma GccObjectKeeps(tools: Tools, fs: Fs, p: Path, faults: Faults)
    requires Good(tools, fs) && Source(fs, p)
    ensures var r := Gcc(fs, [p], OutFile(p), Compiled(tools, fs, p), faults);
      Good(tools, r.fs) && (Tidy(tools, fs) ==> Tidy(tools, r.fs))
  {
    hide Good, Tidy, Compiled;
    if Refused(fs, [p], OutFile(p)) || OutFile(p) in faults {
      if fs.IsFile(OutFile(p)) { RemoveObjectKeeps(tools, fs, p); }
    } else {
      assert fs.IsFile([p][0]);
      WriteObjectKeeps(tools, fs, p);
    }
  }

  /** The way to an object that exists is there. */
  lemma WayExists(fs: Fs, p: Path)
    requires Rooted(fs) && Source(fs, p) && OutFile(p) in fs.nodes
    ensures MkDirs(fs, Parent(OutFile(p))) == fs
  {
    OutFileIsOutput(p);
    assert InPlace(fs, OutFile(p));
  }

  lemma GccCKeeps(tools: Tools, fs: Fs, p: Path, faults: Faults)
    requires Good(tools, fs) && Source(fs, p)
    ensures var r := GccC(tools, fs, p, faults);
      Good(tools, r.fs) && (Tidy(tools, fs) ==> Tidy(tools, r.fs))
  {
    hide Good, Tidy, Stamped, Rooted, SameInputs, Later, Grows, KeepsElf, CanMake, MkDirs, Gcc, Compiled, Source;
    var d := Parent(OutFile(p));
    GoodIsStamped(tools, fs);
    OutFileFacts(fs, p);
    if CanMake(fs, d) {
      MkDirsAdvances(fs, d);
      var m := MkDirs(fs, d);
      if OutFile(p) in fs.nodes {
        WayExists(fs, p);
      } else {
        MkDirsKeeps(tools, fs, d, p);
      }
      StillSource(fs, m, p);
      GccObjectKeeps(tools, m, p, faults);
    }
  }

  lemma OutFileFacts(fs: Fs, p: Path)
    requires Source(fs, p)
    ensures var d := Parent(OutFile(p)); Output(d) && d < OutFile(p) && IsSource(p)
  {
    OutFileIsOutput(p);
  }

  lemma AdvancesKeepsInputs(fs: Fs, fs': Fs)
    requires Advances(fs, fs')
    ensures SameInputs(fs, fs') && Stamped(fs') && Rooted(fs')
  {
  }

  lemma {:induction false} CompileAllKeeps(tools: Tools, fs: Fs, ps: seq<Path>, faults: Faults)
    requires Good(tools, fs) && forall k :: 0 <= k < |ps| ==> Source(fs, ps[k])
    ensures var r := CompileAll(tools, fs, ps, faults);
      Good(tools, r.fs) && (Tidy(tools, fs) ==> Tidy(tools, r.fs))
    decreases |ps|
  {
    hide Good, Tidy, Fresh, GccC, Advances, Grows, KeepsElf, Source;
    if ps != [] {
      var before := ps[..|ps| - 1];
      CompileAllKeeps(tools, fs, before, faults);
      var r := CompileAll(tools, fs, before, faults);
      if r.ok {
        GoodIsStamped(tools, fs);
        CompileAllAdvances(tools, fs, before, faults);
        AdvancesKeepsInputs(fs, r.fs);
        StillSource(fs, r.fs, ps[|ps| - 1]);
        GccCKeeps(tools, r.fs, ps[|ps| - 1], faults);
      }
    }
  }

  // ---- Linking ------------------------------------------------------------------------------

  /** Listing, reading and linking see only inputs and objects. */
  lemma SameLinked(tools: Tools, fs: Fs, fs': Fs)
    requires SameInputs(fs, fs') && Lists(tools)
    requires forall p :: Source(fs, p) ==> Read(fs, OutFile(p)) == Read(fs', OutFile(p))
    ensures Linked(tools, fs) == Linked(tools, fs')
  {
    hide CFiles, OutFile;
    FixedNames();
    SameListing(tools, fs, fs', "init");
    SameListing(tools, fs, fs', "util");
    ListedAreSources(tools, fs);
    var ps := LinkOrder(tools, fs);
    forall k | 0 <= k < |ps|
      ensures Read(fs', OutFile(ps[k])) == Read(fs, OutFile(ps[k]))
    {
      assert Source(fs, ps[k]);
    }
    assert Contents(fs', Objects(ps)) == Contents(fs, Objects(ps));
  }

  lemma ObjectsAreFiles(tools: Tools, fs: Fs)
    requires Lists(tools) && AllFiles(fs, Objects(LinkOrder(tools, fs)))
    ensures forall p :: Source(fs, p) ==> fs.IsFile(OutFile(p))
  {
    hide CFiles, OutFile;
    ListedAreSources(tools, fs);
    var ps := LinkOrder(tools, fs);
    forall p | Source(fs, p)
      ensures fs.IsFile(OutFile(p))
    {
      var k :| 0 <= k < |ps| && ps[k] == p;
      assert Objects(ps)[k] == OutFile(p);
    }
  }

  lemma WriteElfKeepsGood(tools: Tools, fs: Fs, c: Content)
    requires Good(tools, fs) && fs.IsDir(INIT_DIR) && !fs.IsDir(ELF)
    requires forall p :: Source(fs, p) ==> fs.IsFile(OutFile(p))
    ensures Good(tools, Write(fs, ELF, c))
    ensures forall p :: Source(fs, p) ==> Read(fs, OutFile(p)) == Read(Write(fs, ELF, c), OutFile(p))
  {
    hide Stamped, Rooted, ObjectsGood, Lists, Advances, Changes, NoClash;
    var fs' := Write(fs, ELF, c);
    FixedNames();
    WriteAdvances(fs, ELF, c);
    AdvancesKeepsInputs(fs, fs');
    SameInputsKeepNoClash(fs, fs');
    forall p | Source(fs, p)
      ensures OutFile(p) != ELF && OutFile(p) in fs'.nodes && fs'.nodes[OutFile(p)] == fs.nodes[OutFile(p)]
    {
      ElfKeepsObject(fs, fs', p);
    }
    ChangeKeepsObjects(tools, fs, fs', ELF);
    forall p | Source(fs', p)
      ensures LinkInput(fs', p)
    {
      StillSource(fs, fs', p);
    }
  }

  lemma ElfKeepsObject(fs: Fs, fs': Fs, p: Path)
    requires Source(fs, p) && fs.IsFile(OutFile(p)) && Changes(fs, fs', ELF)
    ensures OutFile(p) != ELF && OutFile(p) in fs'.nodes && fs'.nodes[OutFile(p)] == fs.nodes[OutFile(p)]
  {
    OutFileIsOutput(p);
    assert SameOrTouched(fs, fs', ELF, OutFile(p));
  }

  lemma LinkKeeps(tools: Tools, fs: Fs)
    requires Good(tools, fs) && fs.IsDir(INIT_DIR) && !fs.IsDir(ELF)
    requires AllFiles(fs, Objects(LinkOrder(tools, fs)))
    ensures var fs' := Write(fs, ELF, Linked(tools, fs));
      Good(tools, fs') && (Tidy(tools, fs) ==> Tidy(tools, fs'))
  {
    hide Good, Linked, LinkOrder, Advances, Changes, AllFresh, ElfLast, InitSource, NewerBelowElf;
    var c := Linked(tools, fs);
    var fs' := Write(fs, ELF, c);
    GoodIsStamped(tools, fs);
    FixedNames();
    ObjectsAreFiles(tools, fs);
    WriteElfKeepsGood(tools, fs, c);
    WriteAdvances(fs, ELF, c);
    AdvancesKeepsInputs(fs, fs');
    SameLinked(tools, fs, fs');
    if Tidy(tools, fs) { ChangeKeepsInitDir(fs, fs', ELF); }
  }

  lemma RemoveElfKeeps(tools: Tools, fs: Fs)
    requires Good(tools, fs) && fs.IsFile(ELF)
    ensures Good(tools, Remove(fs, ELF)) && (Tidy(tools, fs) ==> Tidy(tools, Remove(fs, ELF)))
  {
    hide Good, Linked, Advances, Changes, AllFresh, InitSource, NewerBelowElf;
    var fs' := Remove(fs, ELF);
    GoodIsStamped(tools, fs);
    FixedNames();
    RemoveAdvances(fs, ELF);
    forall p | Source(fs, p)
      ensures OutFile(p) != ELF
    {
      OutFileIsOutput(p);
    }
    NoElfIsGood(tools, fs, fs', ELF);
    if Tidy(tools, fs) { ChangeKeepsInitDir(fs, fs', ELF); }
  }

  lemma InitBodyKeeps(tools: Tools, fs: Fs, faults: Faults)
    requires Good(tools, fs)
    ensures var r := InitBody(tools, fs, faults);
      Good(tools, r.fs) && (Tidy(tools, fs) ==> Tidy(tools, r.fs))
  {
    hide Good, Tidy, Linked, LinkOrder, AllFiles;
    FixedNames();
    if fs.IsFile(ELF) { RemoveElfKeeps(tools, fs); }
    if !Refused(fs, Objects(LinkOrder(tools, fs)), ELF) { LinkKeeps(tools, fs); }
  }

  lemma RunInitKeeps(tools: Tools, fs: Fs, faults: Faults)
    requires Good(tools, fs)
    ensures var r := RunInit(tools, fs, faults);
      Good(tools, r.fs) && (Tidy(tools, fs) ==> Tidy(tools, r.fs))
  {
    hide Good, Tidy, CFiles, InitBody, Source;
    GoodIsStamped(tools, fs);
    ListedAreSources(tools, fs);
    CompileAllKeeps(tools, fs, CFiles(tools, fs, "util"), faults);
    var u := LibUtil(tools, fs, faults);
    if u.ok {
      ListedAreSources(tools, u.fs);
      CompileAllKeeps(tools, u.fs, CFiles(tools, u.fs, "init"), faults);
      var i := LibInit(tools, u.fs, faults);
      if i.ok {
        InitBodyKeeps(tools, i.fs, faults);
      }
    }
  }

  // ---- A finished build ---------------------------------------------------------------------

  /** What the ELF should be: the link of the compilations of the sources. */
  function Reference(tools: Tools, fs: Fs): Content {
    tools.ld(
      Texts(tools, fs, CFiles(tools, fs, "init")) + Texts(tools, fs, CFiles(tools, fs, "util")), Read(fs, SCRIPT))
  }

  /** What the compiler makes of each. */
  function Texts(tools: Tools, fs: Fs, ps: seq<Path>): (cs: seq<Content>)
    ensures |cs| == |ps|
    ensures forall k :: 0 <= k < |ps| ==> cs[k] == tools.cc(ps[k], Read(fs, ps[k]), Read(fs, SCRIPT))
  {
    seq(|ps|, k requires 0 <= k < |ps| => tools.cc(ps[k], Read(fs, ps[k]), Read(fs, SCRIPT)))
  }

  /** Source and object are files, and the object in `out` holds what the compiler
      makes of the source and the script that `inputs` has. */
  ghost predicate ObjectRight(tools: Tools, inputs: Fs, out: Fs, p: Path) {
    && inputs.IsFile(SCRIPT) && inputs.IsFile(p) && out.IsFile(OutFile(p))
    && out.nodes[OutFile(p)].content == tools.cc(p, inputs.nodes[p].content, inputs.nodes[SCRIPT].content)
  }

  /** Source and object are files, and the object is the compilation. */
  ghost predicate Built(tools: Tools, fs: Fs, p: Path) {
    fs.IsFile(p) && fs.IsFile(OutFile(p)) && Read(fs, OutFile(p)) == Compiled(tools, fs, p)
  }

  lemma FinishedIsBuilt(tools: Tools, fs: Fs)
    requires Good(tools, fs) && AllFresh(fs) && ElfLast(fs) && !fs.IsDir(ELF)
    ensures fs.IsFile(ELF) && forall p :: Source(fs, p) ==> Built(tools, fs, p)
  {
    hide Stamped, Rooted, NoClash, Lists, Compiled;
    forall p | Source(fs, p)
      ensures Built(tools, fs, p)
    {
      assert Fresh(fs, p) && NotNewer(fs, p) && ObjectGood(tools, fs, p) && LinkInput(fs, p);
    }
  }

  /** With everything up to date, no directory stands in place of the ELF. */
  lemma TidyElfIsFile(tools: Tools, fs: Fs)
    requires Tidy(tools, fs) && AllFresh(fs) && ElfLast(fs)
    ensures !fs.IsDir(ELF)
  {
    hide ElfGood, InitDirUsed;
    forall p | Source(fs, p)
      ensures !NewerBelowElf(fs, p)
    {
      assert Fresh(fs, p) && NotNewer(fs, p);
    }
  }

  lemma BuiltIsReference(tools: Tools, fs: Fs)
    requires Lists(tools) && forall p :: Source(fs, p) ==> Built(tools, fs, p)
    ensures Linked(tools, fs) == Reference(tools, fs)
  {
    hide CFiles, OutFile;
    var ins, utils := CFiles(tools, fs, "init"), CFiles(tools, fs, "util");
    ListedAreSources(tools, fs);
    forall p | p in ins + utils
      ensures Read(fs, OutFile(p)) == tools.cc(p, Read(fs, p), Read(fs, SCRIPT))
    {
      assert Source(fs, p) && Built(tools, fs, p);
    }
    assert Contents(fs, Objects(ins + utils)) == Texts(tools, fs, ins) + Texts(tools, fs, utils);
  }

  /** The inputs alone determine what is up to date. */
  lemma SameInputsSameReference(tools: Tools, fs: Fs, fs': Fs)
    requires SameInputs(fs, fs') && Lists(tools)
    ensures Reference(tools, fs) == Reference(tools, fs')
    ensures forall p :: Source(fs, p) ==> Compiled(tools, fs, p) == Compiled(tools, fs', p)
  {
    hide CFiles, Texts;
    FixedNames();
    SameListing(tools, fs, fs', "init");
    SameListing(tools, fs, fs', "util");
    ListedAreSources(tools, fs);
    forall p | Source(fs, p)
      ensures Compiled(tools, fs, p) == Compiled(tools, fs', p)
    {
      SameCompiled(tools, fs, fs', p);
    }
    SameTexts(tools, fs, fs', CFiles(tools, fs, "init"));
    SameTexts(tools, fs, fs', CFiles(tools, fs, "util"));
  }

  lemma SameTexts(tools: Tools, fs: Fs, fs': Fs, ps: seq<Path>)
    requires SameInputs(fs, fs') && forall p :: p in ps ==> Source(fs, p)
    ensures Texts(tools, fs, ps) == Texts(tools, fs', ps) && Read(fs, SCRIPT) == Read(fs', SCRIPT)
  {
    FixedNames();
    forall k | 0 <= k < |ps|
      ensures Read(fs, ps[k]) == Read(fs', ps[k])
    {
      assert ps[k] in ps;
      SameCompiled(tools, fs, fs', ps[k]);
    }
    assert Read(fs, SCRIPT) == Read(fs', SCRIPT);
    assert Texts(tools, fs, ps) == Texts(tools, fs', ps);
  }
}
