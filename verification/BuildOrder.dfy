/** What the names in a build are, and the order in which a build compiles. */
module BuildOrder {
  import opened Build
  import opened BuildProofs
  import opened BuildContents
  import opened CleanBuild

  // ---- Names --------------------------------------------------------------------------

  lemma EndsInCIff(name: string)
    ensures EndsInC(name) <==> exists stem: string :: name == stem + ".c"
  {
    if EndsInC(name) {
      assert name == name[..|name| - 2] + ".c";
    }
  }

  /** c_files lists, at any depth below the directory, the files and directories
      whose names end in .c. */
  lemma CFilesAre(tools: Tools, fs: Fs, dir: string, p: Path)
    requires Lists(tools)
    ensures p in CFiles(tools, fs, dir) <==>
      p in fs.nodes && exists mid: Path, stem: string :: p == [dir] + mid + [stem + ".c"]
  {
    hide InDir, CFiles;
    CFilesMembers(tools, fs, dir, p);
    if InDir(dir, p) {
      var mid, stem := InDirParts(dir, p);
    }
    forall mid: Path, stem: string | p == [dir] + mid + [stem + ".c"]
      ensures InDir(dir, p)
    {
      PartsInDir(dir, mid, stem);
    }
  }

  lemma InDirParts(dir: string, p: Path) returns (mid: Path, stem: string)
    requires InDir(dir, p)
    ensures p == [dir] + mid + [stem + ".c"]
  {
    hide EndsInC;
    EndsInCIff(Name(p));
    stem :| Name(p) == stem + ".c";
    mid := p[1..|p| - 1];
  }

  lemma PartsInDir(dir: string, mid: Path, stem: string)
    ensures InDir(dir, [dir] + mid + [stem + ".c"])
  {
    hide EndsInC;
    EndsInCIff(stem + ".c");
  }

  /** The object of a source lies below build/bin where the source lies below the
      root, and its name ends in .o instead of .c, but for a name that is `.c`. */
  lemma OutFileOf(dirs: Path, stem: string)
    ensures OutFile(dirs + [stem + ".c"])
         == ["build", "bin"] + dirs + [if stem == "" then ".c.o" else stem + ".o"]
  {
    var p := dirs + [stem + ".c"];
    assert Parent(p) == dirs && Name(p) == stem + ".c";
    assert (stem + ".c")[..|stem|] == stem;
    assert stem == "" ==> stem + ".c" == ".c" && ".c" + ".o" == ".c.o";
  }

  // ---- Stamps ---------------------------------------------------------------------------

  /** The directory of a new, rewritten or removed entry has a stamp later than all
      before it, and a file one later still. */
  lemma EntriesStampDirectories(fs: Fs, p: Path, c: Content)
    requires Stamped(fs) && p != [] && fs.IsDir(Parent(p))
    ensures var d := Parent(p);
      var written, made, removed := Write(fs, p, c), MakeDir(fs, p), Remove(fs, p);
      && written.nodes[p].mtime > written.nodes[d].mtime > fs.clock
      && made.nodes[p].mtime >= made.nodes[d].mtime > fs.clock
      && p !in removed.nodes && removed.nodes[d].mtime > fs.clock
      && written.nodes[d].Dir? && made.nodes[d].Dir? && removed.nodes[d].Dir?
  {
  }

  /** A gcc that fails leaves everything as it was, or its output alone is gone. */
  lemma FailedGcc(fs: Fs, inputs: seq<Path>, out: Path, c: Content, faults: Faults)
    requires out != [] && out in faults
    ensures var r := Gcc(fs, inputs, out, c, faults);
      && !r.ok
      && (faults[out] && fs.IsFile(out) ==> out !in r.fs.nodes)
      && (!faults[out] || !fs.IsFile(out) ==> r.fs == fs)
      && forall x :: x != out && x != Parent(out) ==> SameNode(fs, r.fs, x)
  {
  }

  // ---- The order -------------------------------------------------------------------------

  /** Neither lost nor made nor changed. */
  ghost predicate SameNode(fs: Fs, fs': Fs, x: Path) {
    (x in fs.nodes <==> x in fs'.nodes) && (x in fs.nodes ==> fs'.nodes[x] == fs.nodes[x])
  }

  ghost predicate NoneOnTheWay(fs: Fs) {
    forall p, q :: Source(fs, p) && Source(fs, q) ==> !(OutFile(q) < OutFile(p))
  }

  lemma MkDirsLeaves(fs: Fs, p: Path, x: Path)
    requires Stamped(fs) && Rooted(fs) && Source(fs, p) && CanMake(fs, Parent(OutFile(p))) && !(x < OutFile(p))
    ensures SameNode(fs, MkDirs(fs, Parent(OutFile(p))), x)
  {
    hide Stamped, Rooted, SameInputs, Later, KeepsElf, CanMake, MkDirs;
    var d := Parent(OutFile(p));
    OutFileIsOutput(p);
    MkDirsAdvances(fs, d);
    assert x <= d ==> x < OutFile(p);
  }

  lemma GccLeaves(fs: Fs, p: Path, c: Content, faults: Faults, x: Path)
    requires Source(fs, p) && x != OutFile(p) && !(x < OutFile(p))
    ensures SameNode(fs, Gcc(fs, [p], OutFile(p), c, faults).fs, x)
  {
    var o := OutFile(p);
    OutFileIsOutput(p);
    assert Parent(o) < o;
  }

  /** gcc_c leaves every object alone but its own, if none lies on the way. */
  lemma GccCLeaves(tools: Tools, fs: Fs, p: Path, faults: Faults, x: Path)
    requires Stamped(fs) && Rooted(fs) && Source(fs, p)
    requires x != OutFile(p) && !(x < OutFile(p))
    ensures SameNode(fs, GccC(tools, fs, p, faults).fs, x)
  {
    hide Stamped, Rooted, SameInputs, Later, Grows, KeepsElf, CanMake, MkDirs, Gcc, Compiled;
    var d := Parent(OutFile(p));
    if CanMake(fs, d) {
      OutFileIsOutput(p);
      MkDirsLeaves(fs, p, x);
      MkDirsAdvances(fs, d);
      var m := MkDirs(fs, d);
      AdvancesKeepsInputs(fs, m);
      StillSource(fs, m, p);
      GccLeaves(m, p, Compiled(tools, m, p), faults, x);
    }
  }

  /** gcc_c does nothing for an object that is up to date. */
  lemma FreshIsLeft(tools: Tools, fs: Fs, p: Path, faults: Faults)
    requires Stamped(fs) && Rooted(fs) && Source(fs, p) && Fresh(fs, p)
    ensures GccC(tools, fs, p, faults).fs == fs
  {
    hide Stamped, Rooted, CanMake, MkDirs, Gcc;
    ScriptExists(fs);
    WayExists(fs, p);
    FreshIsNotNewer(fs, p);
  }

  ghost predicate Earlier(fs: Fs, p: Path, q: Path) {
    && OutFile(p) in fs.nodes && OutFile(q) in fs.nodes
    && fs.nodes[OutFile(p)].mtime < fs.nodes[OutFile(q)].mtime
  }

  /** The objects of `ps` were made in the order of `ps`, each where it is listed
      first. */
  ghost predicate InOrder(fs: Fs, ps: seq<Path>) {
    forall k, l :: 0 <= k < l < |ps| && ps[l] !in ps[..l] ==> Earlier(fs, ps[k], ps[l])
  }

  lemma StampBound(fs: Fs, x: Path)
    requires Stamped(fs) && x in fs.nodes
    ensures fs.nodes[x].mtime <= fs.clock
  {
  }

  /** One more is compiled. */
  lemma OneMore(tools: Tools, fs: Fs, ps: seq<Path>, p: Path, faults: Faults)
    requires Stamped(fs) && Rooted(fs) && Source(fs, p) && forall q :: q in ps ==> Source(fs, q) && Fresh(fs, q)
    requires NoneOnTheWay(fs) && NoClash(fs) && InOrder(fs, ps)
    requires forall q :: Source(fs, q) && OutFile(q) in fs.nodes ==> q in ps
    requires GccC(tools, fs, p, faults).ok
    ensures var fs' := GccC(tools, fs, p, faults).fs;
      && Advances(fs, fs') && NoneOnTheWay(fs') && NoClash(fs') && InOrder(fs', ps + [p])
      && (forall q :: q in ps + [p] ==> Source(fs', q) && Fresh(fs', q))
      && (forall q :: Source(fs', q) && OutFile(q) in fs'.nodes ==> q in ps + [p])
  {
    hide Stamped, Rooted, SameInputs, Later, Grows, KeepsElf, GccC, Fresh, OutFile, IsSource, InOrder, SameNode;
    var fs' := GccC(tools, fs, p, faults).fs;
    GccCAdvances(tools, fs, p, faults);
    AdvancesKeepsInputs(fs, fs');
    forall q
      ensures Source(fs, q) <==> Source(fs', q)
      ensures Source(fs, q) && q != p ==> SameNode(fs, fs', OutFile(q))
    {
      StillSource(fs, fs', q);
      if Source(fs, q) && q != p { GccCLeaves(tools, fs, p, faults, OutFile(q)); }
    }
    forall q | q in ps + [p]
      ensures Source(fs', q) && Fresh(fs', q)
    {
      if q != p { StillFresh(fs, fs', q); }
    }
    forall q | Source(fs', q) && OutFile(q) in fs'.nodes
      ensures q in ps + [p]
    {
      if q != p { SameNodeIn(fs, fs', OutFile(q)); }
    }
    if p in ps {
      FreshIsLeft(tools, fs, p, faults);
      RepeatInOrder(fs, ps, p);
    } else {
      FreshHas(fs', p);
      NewInOrder(fs, fs', ps, p);
    }
  }

  lemma SameNodeIn(fs: Fs, fs': Fs, x: Path)
    requires SameNode(fs, fs', x)
    ensures x in fs.nodes <==> x in fs'.nodes
  {
  }

  lemma FreshHas(fs: Fs, p: Path)
    requires Fresh(fs, p)
    ensures OutFile(p) in fs.nodes
  {
  }

  lemma RepeatInOrder(fs: Fs, ps: seq<Path>, p: Path)
    requires InOrder(fs, ps) && p in ps
    ensures InOrder(fs, ps + [p])
  {
    hide Earlier;
    var more := ps + [p];
    assert forall l :: 0 <= l <= |ps| ==> more[..l] == ps[..l];
    assert ps[..|ps|] == ps;
    forall k, l | 0 <= k < l < |more| && more[l] !in more[..l]
      ensures Earlier(fs, more[k], more[l])
    {
    }
  }

  lemma NewInOrder(fs: Fs, fs': Fs, ps: seq<Path>, p: Path)
    requires Stamped(fs) && Advances(fs, fs') && InOrder(fs, ps) && p !in ps
    requires OutFile(p) !in fs.nodes && OutFile(p) in fs'.nodes
    requires forall q :: q in ps ==> Fresh(fs, q) && SameNode(fs, fs', OutFile(q))
    ensures InOrder(fs', ps + [p])
  {
    hide OutFile, Rooted, SameInputs;
    var more := ps + [p];
    forall k, l | 0 <= k < l < |more| && more[l] !in more[..l]
      ensures Earlier(fs', more[k], more[l])
    {
      assert more[k] in ps && Fresh(fs, more[k]);
      StampBound(fs, OutFile(more[k]));
      if l < |ps| {
        assert more[..l] == ps[..l];
        assert Earlier(fs, ps[k], ps[l]) && ps[l] in ps;
      }
    }
  }

  /** Before anything is made. */
  ghost predicate NoneMade(fs: Fs) {
    forall q :: Source(fs, q) ==> OutFile(q) !in fs.nodes
  }

  /** From a state without objects, the objects are made in the order listed. */
  lemma {:induction false} CompiledInListedOrder(tools: Tools, fs: Fs, ps: seq<Path>, faults: Faults)
    requires Stamped(fs) && Rooted(fs) && (forall q :: q in ps ==> Source(fs, q))
    requires NoneOnTheWay(fs) && NoClash(fs) && NoneMade(fs)
    requires CompileAll(tools, fs, ps, faults).ok
    ensures var fs' := CompileAll(tools, fs, ps, faults).fs;
      && Advances(fs, fs') && NoneOnTheWay(fs') && NoClash(fs') && InOrder(fs', ps)
      && (forall q :: q in ps ==> Source(fs', q) && Fresh(fs', q))
      && (forall q :: Source(fs', q) && OutFile(q) in fs'.nodes ==> q in ps)
    decreases |ps|
  {
    hide Stamped, Rooted, SameInputs, Later, GccC, Fresh, OutFile, IsSource, NoneOnTheWay, NoClash;
    if ps == [] {
      NothingAdvances(fs);
    } else {
      var before, p := ps[..|ps| - 1], ps[|ps| - 1];
      hide InOrder;
      CompiledInListedOrder(tools, fs, before, faults);
      var m := CompileAll(tools, fs, before, faults).fs;
      AdvancesKeepsInputs(fs, m);
      StillSource(fs, m, p);
      OneMore(tools, m, before, p, faults);
      AdvancesTrans(fs, m, GccC(tools, m, p, faults).fs);
      assert before + [p] == ps;
    }
  }

  lemma {:induction false} CompileAllConcat(tools: Tools, fs: Fs, a: seq<Path>, b: seq<Path>, faults: Faults)
    ensures var r := CompileAll(tools, fs, a, faults);
      CompileAll(tools, fs, a + b, faults) == if r.ok then CompileAll(tools, r.fs, b, faults) else r
    decreases |b|
  {
    hide GccC;
    if b == [] {
      assert a + b == a;
    } else {
      var c := b[..|b| - 1];
      CompileAllConcat(tools, fs, a, c, faults);
      assert (a + b)[..|a + b| - 1] == a + c;
    }
  }

  lemma LinkLeavesObjects(tools: Tools, fs: Fs, faults: Faults, ps: seq<Path>)
    requires InOrder(fs, ps) && forall q :: q in ps ==> IsSource(q)
    ensures InOrder(InitBody(tools, fs, faults).fs, ps)
  {
    hide OutFile, LinkOrder, Linked, IsSource, Refused;
    var out := InitBody(tools, fs, faults).fs;
    FixedNames();
    forall q | q in ps
      ensures SameNode(fs, out, OutFile(q))
    {
      OutFileIsOutput(q);
    }
    forall k, l | 0 <= k < l < |ps| && ps[l] !in ps[..l]
      ensures Earlier(out, ps[k], ps[l])
    {
      assert ps[k] in ps && ps[l] in ps && Earlier(fs, ps[k], ps[l]);
    }
  }

  /** From a checkout init compiles util's sources and then its own, each in the
      order listed, as the stamps of their objects show. */
  lemma ScratchInListedOrder(tools: Tools, fs: Fs, faults: Faults)
    requires Lists(tools) && Checkout(fs) && NoClash(fs) && RunInit(tools, fs, faults).ok
    ensures InOrder(RunInit(tools, fs, faults).fs, CFiles(tools, fs, "util") + CFiles(tools, fs, "init"))
  {
    hide Good, Tidy, Stamped, Rooted, InOrder, CFiles, InitBody, NoClash, Checkout, Source, CompileAll, SameInputs;
    hide Later, KeepsElf, Grows;
    CheckoutIsStamped(fs);
    CheckoutIsGood(tools, fs);
    SuccessIsUpToDate(tools, fs, faults);
    BuildableIsApart(fs);
    CheckoutMadeNone(fs);
    SourcesFreshen(tools, fs, faults);
    var utils, ins := CFiles(tools, fs, "util"), CFiles(tools, fs, "init");
    var u := LibUtil(tools, fs, faults).fs;
    AdvancesKeepsInputs(fs, u);
    SameListing(tools, fs, u, "init");
    ListedAreSources(tools, fs);
    CompileAllConcat(tools, fs, utils, ins, faults);
    CompiledInListedOrder(tools, fs, utils + ins, faults);
    SourcesAre(fs, utils + ins);
    LinkLeavesObjects(tools, LibInit(tools, u, faults).fs, faults, utils + ins);
  }

  lemma SourcesAre(fs: Fs, ps: seq<Path>)
    requires forall q :: q in ps ==> Source(fs, q)
    ensures forall q :: q in ps ==> IsSource(q)
  {
    forall q | q in ps
      ensures IsSource(q)
    {
      assert Source(fs, q);
    }
  }

  // ---- Where a failure stops ---------------------------------------------------------------

  /** Only listed sources have objects. */
  ghost predicate MadeOf(fs: Fs, ps: seq<Path>) {
    forall q :: Source(fs, q) && OutFile(q) in fs.nodes ==> q in ps
  }

  lemma OneMoreOrNot(tools: Tools, fs: Fs, ps: seq<Path>, p: Path, faults: Faults)
    requires Stamped(fs) && Rooted(fs) && Source(fs, p) && NoneOnTheWay(fs) && NoClash(fs) && MadeOf(fs, ps)
    ensures var fs' := GccC(tools, fs, p, faults).fs;
      Advances(fs, fs') && NoneOnTheWay(fs') && NoClash(fs') && MadeOf(fs', ps + [p])
  {
    hide Stamped, Rooted, SameInputs, Later, Grows, KeepsElf, GccC, Fresh, OutFile, IsSource, SameNode;
    var fs' := GccC(tools, fs, p, faults).fs;
    GccCAdvances(tools, fs, p, faults);
    AdvancesKeepsInputs(fs, fs');
    forall q
      ensures Source(fs, q) <==> Source(fs', q)
      ensures Source(fs, q) && q != p ==> (OutFile(q) in fs.nodes <==> OutFile(q) in fs'.nodes)
    {
      StillSource(fs, fs', q);
      if Source(fs, q) && q != p {
        GccCLeaves(tools, fs, p, faults, OutFile(q));
        SameNodeIn(fs, fs', OutFile(q));
      }
    }
  }

  lemma {:induction false} OnlyListedAreMade(tools: Tools, fs: Fs, ps: seq<Path>, faults: Faults)
    requires Stamped(fs) && Rooted(fs) && (forall q :: q in ps ==> Source(fs, q))
    requires NoneOnTheWay(fs) && NoClash(fs) && NoneMade(fs)
    ensures var fs' := CompileAll(tools, fs, ps, faults).fs;
      Advances(fs, fs') && NoneOnTheWay(fs') && NoClash(fs') && MadeOf(fs', ps)
    decreases |ps|
  {
    hide Stamped, Rooted, SameInputs, Later, GccC, OutFile, IsSource, NoneOnTheWay, NoClash;
    if ps == [] {
      NothingAdvances(fs);
    } else {
      var before, p := ps[..|ps| - 1], ps[|ps| - 1];
      OnlyListedAreMade(tools, fs, before, faults);
      var m := CompileAll(tools, fs, before, faults).fs;
      AdvancesKeepsInputs(fs, m);
      StillSource(fs, m, p);
      OneMoreOrNot(tools, m, before, p, faults);
      AdvancesTrans(fs, m, GccC(tools, m, p, faults).fs);
      assert before + [p] == ps;
    }
  }

  /** Where gcc cannot make an object that is not there, gcc_c fails and there is
      still none. */
  lemma FaultFails(tools: Tools, fs: Fs, p: Path, faults: Faults)
    requires Stamped(fs) && Rooted(fs) && Source(fs, p) && OutFile(p) in faults && OutFile(p) !in fs.nodes
    ensures var r := GccC(tools, fs, p, faults); !r.ok && OutFile(p) !in r.fs.nodes
  {
    hide Stamped, Rooted, SameInputs, Later, Grows, KeepsElf, CanMake, MkDirs, Compiled, OutFile;
    if CanMake(fs, Parent(OutFile(p))) {
      MkDirsLeaves(fs, p, OutFile(p));
    }
  }

  lemma {:induction false} StopsAtFault(tools: Tools, fs: Fs, ps: seq<Path>, faults: Faults, k: nat)
    requires Stamped(fs) && Rooted(fs) && (forall q :: q in ps ==> Source(fs, q))
    requires NoneOnTheWay(fs) && NoClash(fs) && NoneMade(fs)
    requires k < |ps| && OutFile(ps[k]) in faults
    ensures var r := CompileAll(tools, fs, ps, faults);
      !r.ok && forall q :: Source(fs, q) && q !in ps[..k] ==> OutFile(q) !in r.fs.nodes
    decreases k
  {
    hide Stamped, Rooted, SameInputs, Later, GccC, OutFile, IsSource, NoneOnTheWay, NoClash, NoneMade;
    var before, p := ps[..k], ps[k];
    if p in before {
      var j :| 0 <= j < k && ps[j] == p;
      StopsAtFault(tools, fs, ps, faults, j);
      assert forall q :: q in ps[..j] ==> q in ps[..k];
    } else {
      StopsThere(tools, fs, before, p, ps[k + 1..], faults);
      assert before + [p] + ps[k + 1..] == ps;
    }
  }

  lemma StopsThere(tools: Tools, fs: Fs, before: seq<Path>, p: Path, after: seq<Path>, faults: Faults)
    requires Stamped(fs) && Rooted(fs) && (forall q :: q in before ==> Source(fs, q)) && Source(fs, p)
    requires NoneOnTheWay(fs) && NoClash(fs) && NoneMade(fs) && p !in before && OutFile(p) in faults
    ensures var r := CompileAll(tools, fs, before + [p] + after, faults);
      !r.ok && forall q :: Source(fs, q) && q !in before ==> OutFile(q) !in r.fs.nodes
  {
    hide Stamped, Rooted, SameInputs, Later, GccC, OutFile, IsSource, NoneMade, SameNode;
    OnlyListedAreMade(tools, fs, before, faults);
    var m := CompileAll(tools, fs, before, faults);
    AdvancesKeepsInputs(fs, m.fs);
    CompileAllConcat(tools, fs, before + [p], after, faults);
    CompileAllConcat(tools, fs, before, [p], faults);
    assert CompileAll(tools, m.fs, [p], faults) == GccC(tools, m.fs, p, faults) by {
      CompileOne(tools, m.fs, p, faults);
    }
    forall q | Source(fs, q)
      ensures Source(m.fs, q)
      ensures q != p ==> SameNode(m.fs, GccC(tools, m.fs, p, faults).fs, OutFile(q))
    {
      StillSource(fs, m.fs, q);
      StillSource(fs, m.fs, p);
      if q != p { GccCLeaves(tools, m.fs, p, faults, OutFile(q)); }
    }
    FaultFails(tools, m.fs, p, faults);
    forall q | Source(fs, q) && q !in before
      ensures OutFile(q) !in GccC(tools, m.fs, p, faults).fs.nodes
    {
      if q != p { SameNodeIn(m.fs, GccC(tools, m.fs, p, faults).fs, OutFile(q)); }
    }
  }

  lemma CompileOne(tools: Tools, fs: Fs, p: Path, faults: Faults)
    ensures CompileAll(tools, fs, [p], faults) == GccC(tools, fs, p, faults)
  {
    hide GccC;
    assert [p][..0] == [];
    assert CompileAll(tools, fs, [], faults) == Result(fs, true);
  }

  /** From a checkout, init stops at the first object that cannot be made: no later
      source of util, and then of init, gets an object, and nothing is linked. */
  lemma FailureStopsInit(tools: Tools, fs: Fs, faults: Faults, k: nat)
    requires Lists(tools) && Checkout(fs) && NoClash(fs) && NoneOnTheWay(fs)
    requires var ps := CFiles(tools, fs, "util") + CFiles(tools, fs, "init"); k < |ps| && OutFile(ps[k]) in faults
    ensures var ps := CFiles(tools, fs, "util") + CFiles(tools, fs, "init");
      var r := RunInit(tools, fs, faults);
      && !r.ok && !r.fs.IsFile(ELF)
      && forall q :: Source(fs, q) && q !in ps[..k] ==> OutFile(q) !in r.fs.nodes
  {
    hide Stamped, Rooted, CFiles, InitBody, NoClash, Checkout, Source, CompileAll, SameInputs, NoneOnTheWay, NoneMade;
    hide Later, Grows;
    CheckoutIsStamped(fs);
    CheckoutMadeNone(fs);
    var utils, ins := CFiles(tools, fs, "util"), CFiles(tools, fs, "init");
    ListedAreSources(tools, fs);
    SourcesFreshen(tools, fs, faults);
    CompileAllConcat(tools, fs, utils, ins, faults);
    StopsAtFault(tools, fs, utils + ins, faults, k);
    var u := LibUtil(tools, fs, faults).fs;
    AdvancesKeepsInputs(fs, u);
    SameListing(tools, fs, u, "init");
    NoElfYet(fs, RunInit(tools, fs, faults).fs);
  }

  lemma NoElfYet(fs: Fs, fs': Fs)
    requires Checkout(fs) && KeepsElf(fs, fs')
    ensures !fs'.IsFile(ELF)
  {
    hide Stamped, Rooted;
    FixedNames();
  }

  lemma BuildableIsApart(fs: Fs)
    requires Buildable(fs)
    ensures NoneOnTheWay(fs)
  {
    hide OutFile, InitSource;
  }

  lemma CheckoutMadeNone(fs: Fs)
    requires Checkout(fs)
    ensures NoneMade(fs)
  {
    hide Rooted, Stamped;
    forall q | Source(fs, q)
      ensures OutFile(q) !in fs.nodes
    {
      OutFileIsOutput(q);
    }
  }
}
