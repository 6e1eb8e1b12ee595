/** What one run of init does to stamps and directories, from any prior state. */
module BuildProofs {
  import opened Prelude
  import opened Build

  // ---- Freshness ---------------------------------------------------------------

  /** A path that c_files lists. */
  ghost predicate Source(fs: Fs, p: Path) {
    p in fs.nodes && IsSource(p)
  }

  /** Every stamp given so far is at most the clock. */
  ghost predicate Stamped(fs: Fs) {
    fs.IsFile(SCRIPT) && forall p :: p in fs.nodes ==> fs.nodes[p].mtime <= fs.clock
  }

  ghost predicate InPlace(fs: Fs, p: Path) {
    p in fs.nodes ==> p != [] && (|p| > 1 ==> fs.IsDir(Parent(p)))
  }

  /** Everything lies in a directory. */
  ghost predicate Rooted(fs: Fs) {
    forall p :: InPlace(fs, p)
  }

  lemma {:induction false} AncestorIsDir(fs: Fs, p: Path, k: nat)
    requires Rooted(fs) && p in fs.nodes && 0 < k < |p|
    ensures fs.IsDir(p[..k])
    decreases |p|
  {
    assert InPlace(fs, p);
    if k < |p| - 1 {
      AncestorIsDir(fs, Parent(p), k);
      assert Parent(p)[..k] == p[..k];
    }
  }

  /** The object of source `p` exists and is no older than what it is made from. */
  ghost predicate Fresh(fs: Fs, p: Path) {
    && p in fs.nodes && SCRIPT in fs.nodes && OutFile(p) in fs.nodes
    && fs.nodes[p].mtime <= fs.nodes[OutFile(p)].mtime
    && fs.nodes[SCRIPT].mtime <= fs.nodes[OutFile(p)].mtime
  }

  ghost predicate AllFresh(fs: Fs) {
    forall p :: Source(fs, p) ==> Fresh(fs, p)
  }

  /** The ELF exists and no object of a source is newer. */
  ghost predicate ElfLast(fs: Fs) {
    && ELF in fs.nodes
    && forall p :: Source(fs, p) ==> NotNewer(fs, p)
  }

  ghost predicate NotNewer(fs: Fs, p: Path) {
    ELF in fs.nodes && OutFile(p) in fs.nodes && fs.nodes[OutFile(p)].mtime <= fs.nodes[ELF].mtime
  }

  ghost predicate SomeSource(fs: Fs) {
    exists p :: Source(fs, p)
  }

  // ---- What a step of a build may do ----------------------------------------------

  /** The same nodes outside the output directory. */
  ghost predicate SameInputs(fs: Fs, fs': Fs) {
    forall p :: !Output(p) ==>
      (p in fs.nodes <==> p in fs'.nodes) && (p in fs.nodes ==> fs'.nodes[p] == fs.nodes[p])
  }

  /** What is new or changed is stamped later than all there was. */
  ghost predicate Later(fs: Fs, fs': Fs) {
    && fs.clock <= fs'.clock
    && forall p :: p in fs'.nodes ==>
         (p in fs.nodes && fs'.nodes[p] == fs.nodes[p]) || fs'.nodes[p].mtime > fs.clock
  }

  ghost predicate Advances(fs: Fs, fs': Fs) {
    Stamped(fs') && Rooted(fs') && SameInputs(fs, fs') && Later(fs, fs')
  }

  /** Nothing is lost, turned from file to directory or back, or made older. */
  ghost predicate Grows(fs: Fs, fs': Fs) {
    forall p :: p in fs.nodes ==>
      p in fs'.nodes && fs'.nodes[p].mtime >= fs.nodes[p].mtime && (fs.nodes[p].Dir? <==> fs'.nodes[p].Dir?)
  }

  /** An ELF stays as it is, and none appears. */
  ghost predicate KeepsElf(fs: Fs, fs': Fs) {
    && (fs.IsFile(ELF) ==> ELF in fs'.nodes && fs'.nodes[ELF] == fs.nodes[ELF])
    && (fs'.IsFile(ELF) ==> fs.IsFile(ELF))
  }

  lemma NothingAdvances(fs: Fs)
    requires Stamped(fs) && Rooted(fs)
    ensures Advances(fs, fs) && Grows(fs, fs) && KeepsElf(fs, fs)
  {
  }

  lemma AdvancesTrans(a: Fs, b: Fs, c: Fs)
    requires Advances(a, b) && Advances(b, c)
    ensures Advances(a, c)
  {
    hide Stamped, Rooted;
  }

  lemma GrowsTrans(a: Fs, b: Fs, c: Fs)
    requires Grows(a, b) && Grows(b, c)
    ensures Grows(a, c)
  {
  }

  lemma KeepsElfTrans(a: Fs, b: Fs, c: Fs)
    requires KeepsElf(a, b) && KeepsElf(b, c)
    ensures KeepsElf(a, c)
  {
  }

  lemma StillSource(fs: Fs, fs': Fs, p: Path)
    requires SameInputs(fs, fs')
    ensures Source(fs, p) <==> Source(fs', p)
    ensures Source(fs, p) ==> fs'.nodes[p] == fs.nodes[p]
  {
  }

  lemma StillFresh(fs: Fs, fs': Fs, p: Path)
    requires Advances(fs, fs') && Grows(fs, fs') && Source(fs, p) && Fresh(fs, p)
    ensures Fresh(fs', p)
  {
    hide Rooted, Later, Stamped;
    StillSource(fs, fs', p);
    FixedNames();
  }

  /** An object brought up to date is newer than everything before. */
  lemma Renewed(fs: Fs, fs': Fs, p: Path)
    requires Advances(fs, fs') && Source(fs, p) && !Fresh(fs, p) && Fresh(fs', p)
    ensures fs'.nodes[OutFile(p)].mtime > fs.clock
  {
    hide Rooted, Stamped;
    StillSource(fs, fs', p);
    FixedNames();
  }

  // ---- Single steps ------------------------------------------------------------------

  /** The directory of an output is an output, or the root, which is no node. */
  lemma ParentIsOutput(fs: Fs, p: Path)
    requires Rooted(fs) && Output(p)
    ensures Parent(p) in fs.nodes ==> Output(Parent(p)) && Parent(p) != p
  {
    assert InPlace(fs, Parent(p));
  }

  /** A directory keeps its place, stamped anew. */
  ghost predicate SameOrTouched(fs: Fs, fs': Fs, p: Path, x: Path) {
    && x in fs.nodes && x in fs'.nodes
    && (fs'.nodes[x] == fs.nodes[x] ||
        (x == Parent(p) && fs.IsDir(x) && fs'.nodes[x] == Dir(fs.clock + 1)))
  }

  /** Only `p` changes, and the stamp of the directory it is in. */
  ghost predicate Changes(fs: Fs, fs': Fs, p: Path) {
    && (forall x :: x != p && (x in fs.nodes || x in fs'.nodes) ==> SameOrTouched(fs, fs', p, x))
    && fs.clock < fs'.clock
    && (p in fs'.nodes ==> fs.clock < fs'.nodes[p].mtime <= fs'.clock)
  }

  lemma MakeDirChanges(fs: Fs, d: Path)
    requires d != []
    ensures Changes(fs, MakeDir(fs, d), d)
  {
  }

  lemma WriteChanges(fs: Fs, p: Path, c: Content)
    requires p != []
    ensures Changes(fs, Write(fs, p, c), p)
  {
  }

  lemma RemoveChanges(fs: Fs, p: Path)
    requires p != []
    ensures Changes(fs, Remove(fs, p), p)
  {
  }

  lemma ChangeKeepsPlaces(fs: Fs, fs': Fs, p: Path)
    requires Rooted(fs) && Changes(fs, fs', p) && InPlace(fs', p) && (fs.IsDir(p) ==> fs'.IsDir(p))
    ensures Rooted(fs')
  {
    forall x
      ensures InPlace(fs', x)
    {
      assert InPlace(fs, x);
      if x in fs'.nodes && x != p {
        assert SameOrTouched(fs, fs', p, x);
        assert Parent(x) in fs.nodes && Parent(x) != p ==> SameOrTouched(fs, fs', p, Parent(x));
      }
    }
  }

  lemma ChangeIsLater(fs: Fs, fs': Fs, p: Path)
    requires Stamped(fs) && Changes(fs, fs', p) && p != SCRIPT
    ensures Later(fs, fs') && Stamped(fs')
  {
    assert SameOrTouched(fs, fs', p, SCRIPT);
    forall x | x in fs'.nodes
      ensures (x in fs.nodes && fs'.nodes[x] == fs.nodes[x]) || fs'.nodes[x].mtime > fs.clock
      ensures fs'.nodes[x].mtime <= fs'.clock
    {
      assert x != p ==> SameOrTouched(fs, fs', p, x);
    }
  }

  lemma ChangeKeepsInputs(fs: Fs, fs': Fs, p: Path)
    requires Rooted(fs) && Changes(fs, fs', p) && Output(p)
    ensures SameInputs(fs, fs')
  {
    ParentIsOutput(fs, p);
    forall x | !Output(x)
      ensures (x in fs.nodes <==> x in fs'.nodes) && (x in fs.nodes ==> fs'.nodes[x] == fs.nodes[x])
    {
      assert x in fs.nodes || x in fs'.nodes ==> SameOrTouched(fs, fs', p, x);
    }
  }

  lemma ChangeGrows(fs: Fs, fs': Fs, p: Path)
    requires Stamped(fs) && Changes(fs, fs', p)
    requires p in fs.nodes ==> p in fs'.nodes && (fs.nodes[p].Dir? <==> fs'.nodes[p].Dir?)
    ensures Grows(fs, fs')
  {
    forall x | x in fs.nodes
      ensures x in fs'.nodes && fs'.nodes[x].mtime >= fs.nodes[x].mtime
      ensures fs.nodes[x].Dir? <==> fs'.nodes[x].Dir?
    {
      assert x != p ==> SameOrTouched(fs, fs', p, x);
    }
  }

  lemma ChangeKeepsElf(fs: Fs, fs': Fs, p: Path)
    requires Changes(fs, fs', p) && (p == ELF ==> !fs.IsFile(ELF) && !fs'.IsFile(ELF))
    ensures KeepsElf(fs, fs')
  {
    assert p != ELF && (ELF in fs.nodes || ELF in fs'.nodes) ==> SameOrTouched(fs, fs', p, ELF);
  }

  lemma ChangeAdvances(fs: Fs, fs': Fs, p: Path)
    requires Stamped(fs) && Rooted(fs) && Output(p)
    requires Changes(fs, fs', p) && InPlace(fs', p) && (fs.IsDir(p) ==> fs'.IsDir(p))
    ensures Advances(fs, fs')
  {
    hide Stamped, Rooted, Changes, SameInputs, Later;
    FixedNames();
    ChangeKeepsPlaces(fs, fs', p);
    ChangeIsLater(fs, fs', p);
    ChangeKeepsInputs(fs, fs', p);
  }

  lemma MakeDirAdvances(fs: Fs, d: Path)
    requires Stamped(fs) && Rooted(fs) && Output(d) && d !in fs.nodes && (|d| > 1 ==> fs.IsDir(Parent(d)))
    ensures var fs' := MakeDir(fs, d);
      Advances(fs, fs') && Grows(fs, fs') && KeepsElf(fs, fs') && Changes(fs, fs', d)
  {
    hide Stamped, Rooted, Changes, Advances, Grows, KeepsElf;
    var fs' := MakeDir(fs, d);
    MakeDirChanges(fs, d);
    ChangeAdvances(fs, fs', d);
    ChangeGrows(fs, fs', d);
    ChangeKeepsElf(fs, fs', d);
  }

  lemma WriteAdvances(fs: Fs, out: Path, c: Content)
    requires Stamped(fs) && Rooted(fs) && Output(out) && |out| > 1 && fs.IsDir(Parent(out)) && !fs.IsDir(out)
    ensures var fs' := Write(fs, out, c);
      Advances(fs, fs') && Grows(fs, fs') && (out != ELF ==> KeepsElf(fs, fs')) && Changes(fs, fs', out)
  {
    hide Stamped, Rooted, Changes, Advances, Grows, KeepsElf;
    var fs' := Write(fs, out, c);
    WriteChanges(fs, out, c);
    ChangeAdvances(fs, fs', out);
    ChangeGrows(fs, fs', out);
    if out != ELF { ChangeKeepsElf(fs, fs', out); }
  }

  lemma RemoveAdvances(fs: Fs, out: Path)
    requires Stamped(fs) && Rooted(fs) && Output(out) && fs.IsFile(out)
    ensures var fs' := Remove(fs, out);
      Advances(fs, fs') && (out != ELF ==> KeepsElf(fs, fs')) && Changes(fs, fs', out)
  {
    hide Stamped, Rooted, Changes, Advances, KeepsElf;
    var fs' := Remove(fs, out);
    RemoveChanges(fs, out);
    ChangeAdvances(fs, fs', out);
    if out != ELF { ChangeKeepsElf(fs, fs', out); }
  }

  /** Only directories on the way to `d` are made or stamped. */
  ghost predicate AlongPath(fs: Fs, fs': Fs, d: Path) {
    forall x :: x in fs'.nodes ==> (x in fs.nodes && fs'.nodes[x] == fs.nodes[x]) || (x <= d && fs'.IsDir(x))
  }

  lemma AlongParent(fs: Fs, m: Fs, d: Path)
    requires d != [] && AlongPath(fs, m, Parent(d))
    ensures d in m.nodes ==> d in fs.nodes
    ensures AlongPath(fs, MakeDir(m, d), d)
  {
  }

  lemma CanMakeParent(fs: Fs, d: Path)
    requires CanMake(fs, d) && d != []
    ensures CanMake(fs, Parent(d)) && !fs.IsFile(d)
  {
    assert d[..|d|] == d;
    forall k | 0 < k <= |Parent(d)|
      ensures !fs.IsFile(Parent(d)[..k])
    {
      assert Parent(d)[..k] == d[..k];
    }
  }

  lemma {:induction false} MkDirsAdvances(fs: Fs, d: Path)
    requires Stamped(fs) && Rooted(fs) && CanMake(fs, d) && (d != [] ==> Output(d))
    ensures var m := MkDirs(fs, d);
      && Advances(fs, m) && Grows(fs, m) && KeepsElf(fs, m) && AlongPath(fs, m, d)
      && (d != [] ==> m.IsDir(d))
    decreases |d|
  {
    hide Stamped, Rooted, SameInputs, Later, Grows, KeepsElf, AlongPath, MakeDir, CanMake;
    NothingAdvances(fs);
    if d == [] || d in fs.nodes {
      NothingAlong(fs, d);
      if d != [] { CanMakeParent(fs, d); }
    } else {
      CanMakeParent(fs, d);
      MkDirsAdvances(fs, Parent(d));
      var m := MkDirs(fs, Parent(d));
      AlongParent(fs, m, d);
      MakeDirAdvances(m, d);
      var m' := MakeDir(m, d);
      AdvancesTrans(fs, m, m');
      GrowsTrans(fs, m, m');
      KeepsElfTrans(fs, m, m');
      MadeIsDir(m, d);
    }
  }

  lemma NothingAlong(fs: Fs, d: Path)
    ensures AlongPath(fs, fs, d)
  {
  }

  lemma MadeIsDir(fs: Fs, d: Path)
    ensures MakeDir(fs, d).IsDir(d)
  {
  }

  lemma FreshIsNotNewer(fs: Fs, p: Path)
    requires p in fs.nodes && SCRIPT in fs.nodes
    ensures AnyNewer(fs, OutFile(p), [p, SCRIPT]) == Some(!Fresh(fs, p))
  {
    if OutFile(p) in fs.nodes {
      var mtime := fs.nodes[OutFile(p)].mtime;
      assert [p, SCRIPT][1..] == [SCRIPT] && [SCRIPT][1..] == [];
      assert Scan(fs, mtime, [SCRIPT]) == Some(fs.nodes[SCRIPT].mtime > mtime);
    }
  }

  lemma ScriptExists(fs: Fs)
    requires Stamped(fs)
    ensures SCRIPT in fs.nodes && fs.IsFile(SCRIPT)
  {
  }

  lemma GccAdvances(fs: Fs, p: Path, c: Content, faults: Faults)
    requires Stamped(fs) && Rooted(fs) && Source(fs, p)
    ensures var r := Gcc(fs, [p], OutFile(p), c, faults);
      && Advances(fs, r.fs) && KeepsElf(fs, r.fs)
      && (r.ok ==> Grows(fs, r.fs) && Fresh(r.fs, p))
  {
    hide Advances, Grows, KeepsElf, Stamped, Rooted;
    var o := OutFile(p);
    OutFileIsOutput(p);
    NothingAdvances(fs);
    if Refused(fs, [p], o) || o in faults {
      if fs.IsFile(o) { RemoveAdvances(fs, o); }
    } else {
      WriteAdvances(fs, o, c);
      WrittenIsFresh(fs, p, c);
    }
  }

  lemma WrittenIsFresh(fs: Fs, p: Path, c: Content)
    requires Stamped(fs) && Source(fs, p) && !fs.IsDir(OutFile(p))
    ensures Fresh(Write(fs, OutFile(p), c), p)
  {
    OutFileIsOutput(p);
    FixedNames();
    var fs', d := Write(fs, OutFile(p), c), Parent(OutFile(p));
    assert d[0] == "build" && p[0] != "build" && SCRIPT[0] != "build";
    assert fs'.nodes[p] == fs.nodes[p] && fs'.nodes[SCRIPT] == fs.nodes[SCRIPT];
  }

  lemma GccCAdvances(tools: Tools, fs: Fs, p: Path, faults: Faults)
    requires Stamped(fs) && Rooted(fs) && Source(fs, p)
    ensures var r := GccC(tools, fs, p, faults);
      && Advances(fs, r.fs) && KeepsElf(fs, r.fs)
      && (r.ok ==> Grows(fs, r.fs) && Fresh(r.fs, p))
  {
    hide Stamped, Rooted, SameInputs, Later, Grows, KeepsElf, CanMake, MkDirs, Gcc, Fresh;
    var d := Parent(OutFile(p));
    OutFileIsOutput(p);
    NothingAdvances(fs);
    if CanMake(fs, d) {
      MkDirsAdvances(fs, d);
      var m := MkDirs(fs, d);
      StillSource(fs, m, p);
      ScriptExists(m);
      FreshIsNotNewer(m, p);
      var c := Compiled(tools, m, p);
      GccAdvances(m, p, c, faults);
      var m' := Gcc(m, [p], OutFile(p), c, faults).fs;
      AdvancesTrans(fs, m, m');
      KeepsElfTrans(fs, m, m');
      if Grows(m, m') { GrowsTrans(fs, m, m'); }
    }
  }

  // ---- A whole run --------------------------------------------------------------------

  lemma {:induction false} CompileAllAdvances(tools: Tools, fs: Fs, ps: seq<Path>, faults: Faults)
    requires Stamped(fs) && Rooted(fs) && forall k :: 0 <= k < |ps| ==> Source(fs, ps[k])
    ensures var r := CompileAll(tools, fs, ps, faults);
      && Advances(fs, r.fs) && KeepsElf(fs, r.fs)
      && (r.ok ==> Grows(fs, r.fs) && forall k :: 0 <= k < |ps| ==> Fresh(r.fs, ps[k]))
    decreases |ps|
  {
    hide Fresh, GccC, Stamped, Rooted, SameInputs, Later, Grows, KeepsElf;
    if ps == [] {
      NothingAdvances(fs);
    } else {
      var before, p := ps[..|ps| - 1], ps[|ps| - 1];
      CompileAllAdvances(tools, fs, before, faults);
      var r := CompileAll(tools, fs, before, faults);
      if r.ok {
        StillSource(fs, r.fs, p);
        GccCAdvances(tools, r.fs, p, faults);
        var r' := GccC(tools, r.fs, p, faults);
        AdvancesTrans(fs, r.fs, r'.fs);
        KeepsElfTrans(fs, r.fs, r'.fs);
        if r'.ok {
          GrowsTrans(fs, r.fs, r'.fs);
          forall k | 0 <= k < |ps|
            ensures Fresh(r'.fs, ps[k])
          {
            if k < |ps| - 1 {
              assert Fresh(r.fs, before[k]);
              StillSource(fs, r.fs, ps[k]);
              StillFresh(r.fs, r'.fs, ps[k]);
            }
          }
        }
      }
    }
  }

  lemma CFilesMembers(tools: Tools, fs: Fs, dir: string, p: Path)
    requires Lists(tools)
    ensures p in CFiles(tools, fs, dir) <==> p in fs.nodes && InDir(dir, p)
  {
  }

  /** The listing depends on the inputs alone. */
  lemma SameListing(tools: Tools, fs: Fs, fs': Fs, dir: string)
    requires SameInputs(fs, fs') && (dir == "init" || dir == "util")
    ensures CFiles(tools, fs, dir) == CFiles(tools, fs', dir)
  {
    var a, b := set p | p in fs.nodes && InDir(dir, p), set p | p in fs'.nodes && InDir(dir, p);
    forall p
      ensures p in a <==> p in b
    {
      assert InDir(dir, p) ==> !Output(p);
    }
    assert a == b;
  }

  lemma ListedAreSources(tools: Tools, fs: Fs)
    requires Lists(tools)
    ensures forall k :: 0 <= k < |CFiles(tools, fs, "init")| ==> Source(fs, CFiles(tools, fs, "init")[k])
    ensures forall k :: 0 <= k < |CFiles(tools, fs, "util")| ==> Source(fs, CFiles(tools, fs, "util")[k])
    ensures forall k :: 0 <= k < |LinkOrder(tools, fs)| ==> Source(fs, LinkOrder(tools, fs)[k])
    ensures forall p :: Source(fs, p) ==> p in LinkOrder(tools, fs)
  {
    hide CFiles, InDir;
    forall dir, k | 0 <= k < |CFiles(tools, fs, dir)|
      ensures CFiles(tools, fs, dir)[k] in fs.nodes && InDir(dir, CFiles(tools, fs, dir)[k])
    {
      CFilesMembers(tools, fs, dir, CFiles(tools, fs, dir)[k]);
    }
    forall p | Source(fs, p)
      ensures p in LinkOrder(tools, fs)
    {
      CFilesMembers(tools, fs, "init", p);
      CFilesMembers(tools, fs, "util", p);
    }
  }

  lemma SourcesFreshen(tools: Tools, fs: Fs, faults: Faults)
    requires Stamped(fs) && Rooted(fs) && Lists(tools)
    ensures var u := LibUtil(tools, fs, faults);
      && Advances(fs, u.fs) && KeepsElf(fs, u.fs)
      && (u.ok ==> var i := LibInit(tools, u.fs, faults);
            && Advances(fs, i.fs) && KeepsElf(fs, i.fs)
            && (i.ok ==> AllFresh(i.fs) && Grows(fs, i.fs)))
  {
    hide Fresh, Stamped, Rooted, CFiles, Later, Grows, KeepsElf, SameInputs, IsSource;
    var u := LibUtil(tools, fs, faults);
    ListedAreSources(tools, fs);
    CompileAllAdvances(tools, fs, CFiles(tools, fs, "util"), faults);
    if u.ok {
      var i := LibInit(tools, u.fs, faults);
      ListedAreSources(tools, u.fs);
      CompileAllAdvances(tools, u.fs, CFiles(tools, u.fs, "init"), faults);
      AdvancesTrans(fs, u.fs, i.fs);
      KeepsElfTrans(fs, u.fs, i.fs);
      if i.ok {
        GrowsTrans(fs, u.fs, i.fs);
        SameListing(tools, fs, u.fs, "util");
        forall p | Source(i.fs, p)
          ensures Fresh(i.fs, p)
        {
          StillSource(u.fs, i.fs, p);
          if p in CFiles(tools, u.fs, "util") {
            StillFresh(u.fs, i.fs, p);
          }
        }
      }
    }
  }

  /** The scan for newer objects, as a statement about all of them. */
  lemma {:induction false} ScanMeans(fs: Fs, mtime: nat, os: seq<Path>)
    requires forall k :: 0 <= k < |os| ==> os[k] in fs.nodes
    ensures Scan(fs, mtime, os).Some?
    ensures !Scan(fs, mtime, os).value <==> forall k :: 0 <= k < |os| ==> fs.nodes[os[k]].mtime <= mtime
    decreases |os|
  {
    if os != [] {
      assert forall k :: 0 <= k < |os| - 1 ==> os[1..][k] == os[k + 1];
      ScanMeans(fs, mtime, os[1..]);
      assert forall k :: 0 < k < |os| ==> os[k] == os[1..][k - 1];
    }
  }

  lemma FreshObjectsExist(tools: Tools, fs: Fs)
    requires Lists(tools) && AllFresh(fs)
    ensures forall k :: 0 <= k < |LinkOrder(tools, fs)| ==> OutFile(LinkOrder(tools, fs)[k]) in fs.nodes
    ensures LinkOrder(tools, fs) != [] <==> SomeSource(fs)
  {
    ListedAreSources(tools, fs);
    var ps := LinkOrder(tools, fs);
    forall k | 0 <= k < |ps|
      ensures OutFile(ps[k]) in fs.nodes
    {
      assert Fresh(fs, ps[k]);
    }
    if ps != [] { assert Source(fs, ps[0]); }
  }

  /** init's body relinks exactly when the ELF is missing or older than an object. */
  lemma LinkDecision(tools: Tools, fs: Fs)
    requires Lists(tools) && AllFresh(fs)
    ensures AnyNewer(fs, ELF, Objects(LinkOrder(tools, fs))) == Some(!ElfLast(fs))
  {
    hide Fresh, CFiles;
    FreshObjectsExist(tools, fs);
    ListedAreSources(tools, fs);
    var ps := LinkOrder(tools, fs);
    if ELF in fs.nodes {
      ScanMeans(fs, fs.nodes[ELF].mtime, Objects(ps));
      if ElfLast(fs) {
        forall k | 0 <= k < |ps|
          ensures fs.nodes[Objects(ps)[k]].mtime <= fs.nodes[ELF].mtime
        {
          assert NotNewer(fs, ps[k]);
        }
      }
      if forall k :: 0 <= k < |ps| ==> fs.nodes[Objects(ps)[k]].mtime <= fs.nodes[ELF].mtime {
        forall p | Source(fs, p)
          ensures NotNewer(fs, p)
        {
          var k :| 0 <= k < |ps| && ps[k] == p;
          assert Objects(ps)[k] == OutFile(p);
        }
      }
    }
  }

  lemma WrittenElfIsLast(fs: Fs, c: Content)
    requires Stamped(fs) && AllFresh(fs) && fs.IsDir(INIT_DIR)
    ensures AllFresh(Write(fs, ELF, c)) && ElfLast(Write(fs, ELF, c))
  {
    var fs' := Write(fs, ELF, c);
    FixedNames();
    forall p | Source(fs', p)
      ensures Fresh(fs', p) && NotNewer(fs', p)
    {
      OutFileIsOutput(p);
      assert Source(fs, p) && Fresh(fs, p);
    }
  }

  lemma LinkAdvances(fs: Fs, inputs: seq<Path>, c: Content, faults: Faults)
    requires Stamped(fs) && Rooted(fs) && AllFresh(fs)
    ensures var r := Gcc(fs, inputs, ELF, c, faults);
      Advances(fs, r.fs) && (r.ok ==> AllFresh(r.fs) && ElfLast(r.fs))
  {
    hide Stamped, Rooted, AllFresh, ElfLast, Advances, Grows, KeepsElf;
    FixedNames();
    NothingAdvances(fs);
    if Refused(fs, inputs, ELF) || ELF in faults {
      if fs.IsFile(ELF) { RemoveAdvances(fs, ELF); }
    } else {
      WriteAdvances(fs, ELF, c);
      WrittenElfIsLast(fs, c);
    }
  }

  lemma InitBodyFinishes(tools: Tools, fs: Fs, faults: Faults)
    requires Stamped(fs) && Rooted(fs) && Lists(tools) && AllFresh(fs)
    ensures var r := InitBody(tools, fs, faults);
      Advances(fs, r.fs) && (r.ok ==> AllFresh(r.fs) && ElfLast(r.fs))
  {
    hide Fresh, CFiles, ElfLast, Stamped, Rooted, Advances, AllFresh, Grows, KeepsElf, Gcc;
    NothingAdvances(fs);
    LinkDecision(tools, fs);
    LinkAdvances(fs, Objects(LinkOrder(tools, fs)), Linked(tools, fs), faults);
  }

  /** From any prior state, a successful init leaves every listed source with an
      object that is no older, and no object newer than the ELF. */
  lemma RunInitFinishes(tools: Tools, fs: Fs, faults: Faults)
    requires Stamped(fs) && Rooted(fs) && Lists(tools)
    ensures var r := RunInit(tools, fs, faults);
      Advances(fs, r.fs) && (r.ok ==> AllFresh(r.fs) && ElfLast(r.fs))
  {
    hide Fresh, Stamped, Rooted, LibUtil, LibInit, InitBody, ElfLast, AllFresh, SameInputs, Later, Grows, KeepsElf;
    SourcesFreshen(tools, fs, faults);
    var u := LibUtil(tools, fs, faults);
    if u.ok {
      var i := LibInit(tools, u.fs, faults);
      if i.ok {
        InitBodyFinishes(tools, i.fs, faults);
        AdvancesTrans(fs, i.fs, InitBody(tools, i.fs, faults).fs);
      }
    }
  }

  // ---- A run with nothing to do -----------------------------------------------------------

  lemma FreshGccCIsIdle(tools: Tools, fs: Fs, p: Path, faults: Faults)
    requires Stamped(fs) && Rooted(fs) && Source(fs, p) && Fresh(fs, p)
    ensures GccC(tools, fs, p, faults) == Result(fs, true)
  {
    hide Stamped, Rooted;
    var o := OutFile(p);
    OutFileIsOutput(p);
    ScriptExists(fs);
    FreshIsNotNewer(fs, p);
    forall k | 0 < k <= |Parent(o)|
      ensures fs.IsDir(Parent(o)[..k])
    {
      AncestorIsDir(fs, o, k);
      assert Parent(o)[..k] == o[..k];
    }
    assert Parent(o)[..|Parent(o)|] == Parent(o);
  }

  lemma {:induction false} FreshCompileAllIsIdle(tools: Tools, fs: Fs, ps: seq<Path>, faults: Faults)
    requires Stamped(fs) && Rooted(fs) && forall k :: 0 <= k < |ps| ==> Source(fs, ps[k]) && Fresh(fs, ps[k])
    ensures CompileAll(tools, fs, ps, faults) == Result(fs, true)
    decreases |ps|
  {
    hide Stamped, Rooted, GccC, Fresh;
    if ps != [] {
      FreshCompileAllIsIdle(tools, fs, ps[..|ps| - 1], faults);
      FreshGccCIsIdle(tools, fs, ps[|ps| - 1], faults);
    }
  }

  lemma DoneIsIdle(tools: Tools, fs: Fs, faults: Faults)
    requires Stamped(fs) && Rooted(fs) && Lists(tools) && AllFresh(fs) && ElfLast(fs)
    ensures RunInit(tools, fs, faults) == Result(fs, true)
  {
    hide Fresh, Stamped, Rooted, CFiles, ElfLast;
    ListedAreSources(tools, fs);
    FreshCompileAllIsIdle(tools, fs, CFiles(tools, fs, "util"), faults);
    FreshCompileAllIsIdle(tools, fs, CFiles(tools, fs, "init"), faults);
    LinkDecision(tools, fs);
  }

  /** After a successful init from any prior state, another one in a fresh process
      compiles nothing and does not link. */
  lemma RebuildIsIdle(tools: Tools, fs: Fs, faults: Faults, faults': Faults)
    requires Stamped(fs) && Rooted(fs) && Lists(tools) && RunInit(tools, fs, faults).ok
    ensures var r := RunInit(tools, fs, faults);
      RunInit(tools, r.fs, faults') == r
  {
    hide RunInit, Fresh, ElfLast, AllFresh;
    RunInitFinishes(tools, fs, faults);
    DoneIsIdle(tools, RunInit(tools, fs, faults).fs, faults');
  }
}
