/** Two sources that share an object file: for them, and only for them, the
    incremental build and the clean one can differ. */
module SharedObjects {
  import opened Build
  import opened BuildProofs
  import opened BuildContents
  import opened CleanBuild
  import opened Checkouts

  /** A source in whose way nothing stands: no directory above it is listed, and
      its object does not lie below the ELF or below the object of MAIN. */
  ghost predicate Plain(p: Path) {
    Unlisted(p) && !(ELF < OutFile(p)) && !(OutFile(MAIN) < OutFile(p))
  }

  ghost predicate OnlyEdits(history: seq<Event>, S: set<Path>) {
    forall k :: 0 <= k < |history| && history[k].Edit? ==> history[k].p in S || history[k].p == SCRIPT
  }

  /** A history without deletions over the sources of `S`. */
  ghost predicate Over(tools: Tools, start: Fs, history: seq<Event>, S: set<Path>) {
    && Lists(tools) && Checkout(start) && ListsOnly(start, S)
    && AllAllowed(history) && NoDrop(history) && OnlyEdits(history, S)
  }

  /** If init succeeds, so does a build from scratch, with the same contents. */
  ghost predicate Agrees(tools: Tools, start: Fs, history: seq<Event>, faults: Faults) {
    var fs := Replay(tools, start, history);
    var built, clean := RunInit(tools, fs, faults), RunInit(tools, Clean(fs), map[]);
    built.ok ==>
      && clean.ok && Read(built.fs, ELF) == Read(clean.fs, ELF)
      && forall p :: Source(fs, p) ==> Read(built.fs, OutFile(p)) == Read(clean.fs, OutFile(p))
  }

  // ---- Without a shared object they agree -------------------------------------------------

  lemma EditListsOnly(fs: Fs, p: Path, c: Content, S: set<Path>)
    requires Stamped(fs) && Rooted(fs) && ListsOnly(fs, S) && (p in S || p == SCRIPT)
    requires forall s :: s in S ==> Unlisted(s)
    ensures ListsOnly(Save(fs, p, c), S)
  {
    hide Stamped, Rooted, Save;
    forall x | Source(Save(fs, p, c), x)
      ensures x in S
    {
      assert p in S ==> Unlisted(p);
      SaveAdds(fs, p, c, x);
      if x !in fs.nodes {
        assert x == p[..|x|];
        NoSourceAbove(p, x);
      }
    }
  }

  lemma NoSourceAbove(p: Path, x: Path)
    requires (Unlisted(p) || p == SCRIPT) && x <= p && IsSource(x)
    ensures x == p
  {
    assert x == p[..|x|];
    assert x[0] == p[0];
  }

  lemma StepListsOnly(tools: Tools, fs: Fs, e: Event, S: set<Path>)
    requires Stamped(fs) && Rooted(fs) && Lists(tools) && ListsOnly(fs, S) && Allowed(e) && !e.Drop?
    requires (e.Edit? ==> e.p in S || e.p == SCRIPT) && forall s :: s in S ==> Unlisted(s)
    ensures ListsOnly(Step(tools, fs, e), S)
  {
    hide Stamped, Rooted, RunInit, Save, Unlisted, Later;
    match e
    case Edit(p, c) => EditListsOnly(fs, p, c, S);
    case Run(faults) =>
      RunInitFinishes(tools, fs, faults);
      var out := RunInit(tools, fs, faults).fs;
      forall x | Source(out, x)
        ensures x in S
      {
        StillSource(fs, out, x);
      }
  }

  lemma {:induction false} ReplayListsOnly(tools: Tools, start: Fs, history: seq<Event>, S: set<Path>)
    requires Over(tools, start, history, S) && forall s :: s in S ==> Unlisted(s)
    ensures ListsOnly(Replay(tools, start, history), S)
    decreases |history|
  {
    hide Stamped, Rooted, Step, Unlisted, ListsOnly, Checkout, Allowed;
    if history != [] {
      var before := history[..|history| - 1];
      CheckoutIsStamped(start);
      ReplayKeepsStamps(tools, start, before);
      ReplayListsOnly(tools, start, before, S);
      StepListsOnly(tools, Replay(tools, start, before), history[|history| - 1], S);
    }
  }

  /** The names a clash takes. */
  lemma MainIsAlone(p: Path)
    requires IsSource(p) && OutFile(p) == OutFile(MAIN)
    ensures p == MAIN
  {
    MainIsUnlisted();
    OutFileInjective(p, MAIN);
  }

  ghost predicate NoneShared(S: set<Path>) {
    forall p, q :: p in S && q in S && OutFile(p) == OutFile(q) ==> p == q
  }

  lemma DistinctAgree(tools: Tools, start: Fs, history: seq<Event>, faults: Faults, S: set<Path>)
    requires NoneShared(S) && (forall s :: s in S ==> Unlisted(s)) && Over(tools, start, history, S)
    ensures Agrees(tools, start, history, faults)
  {
    hide Unlisted, Checkout, RunInit, Replay, Clean, Reference, Compiled, OutFile, Buildable, Lists, AllAllowed, NoDrop;
    ReplayListsOnly(tools, start, history, S);
    assert NoClash(Replay(tools, start, history));
    IncrementalEqualsClean(tools, start, history, faults);
  }

  // ---- With one they need not -----------------------------------------------------------------

  /** Tools that list `p` first and give its compilation away. */
  ghost predicate Telling(tools: Tools, p: Path) {
    && (forall x: Path, c: Content, s: Content :: tools.cc(x, c, s) == if x == p then "first" else "other")
    && (forall S: set<Path> :: p in S ==> tools.list(S) != [] && tools.list(S)[0] == p)
  }

  lemma TellingTools(p: Path) returns (tools: Tools)
    ensures Lists(tools) && Telling(tools, p)
  {
    tools := Tools(
      (x, c, s) => if x == p then "first" else "other",
      (cs, s) => "",
      S => (if p in S then [p] else []) + Enumerate(S - {p}));
  }

  /** The object of `p` and `q` is a file; it is up to date for `p`, and holds
      `text` as soon as it is up to date for `q`. */
  ghost predicate Settled(fs: Fs, p: Path, q: Path, text: Content) {
    && fs.IsFile(OutFile(p)) && Fresh(fs, p)
    && (if Fresh(fs, q) then Read(fs, OutFile(p)) == text else text == "other")
  }

  lemma UntouchedIsSettled(fs: Fs, fs': Fs, p: Path, q: Path, text: Content)
    requires Settled(fs, p, q, text) && SameInputs(fs, fs') && Source(fs, p) && Source(fs, q)
    requires OutFile(p) == OutFile(q)
    requires OutFile(p) in fs'.nodes && fs'.nodes[OutFile(p)] == fs.nodes[OutFile(p)]
    ensures Settled(fs', p, q, text)
  {
    FixedNames();
    StillSource(fs, fs', p);
    StillSource(fs, fs', q);
  }

  /** Compiling a source writes its object, and a stamp newer than all. */
  lemma CompiledIsFresh(tools: Tools, fs: Fs, p: Path, q: Path)
    requires Stamped(fs) && Rooted(fs) && Source(fs, p) && Source(fs, q) && OutFile(p) == OutFile(q)
    requires !Fresh(fs, p) && GccC(tools, fs, p, map[]).ok
    ensures var r := GccC(tools, fs, p, map[]);
      && Fresh(r.fs, p) && Fresh(r.fs, q) && r.fs.IsFile(OutFile(p))
      && Read(r.fs, OutFile(p)) == Compiled(tools, fs, p)
  {
    hide Stamped, Rooted, Later, Grows, KeepsElf, CanMake, MkDirs, Compiled;
    var d := Parent(OutFile(p));
    OutFileIsOutput(p);
    MkDirsAdvances(fs, d);
    var m := MkDirs(fs, d);
    AdvancesKeepsInputs(fs, m);
    StillSource(fs, m, p);
    StillSource(fs, m, q);
    ScriptExists(m);
    FreshIsNotNewer(m, p);
    StillStale(fs, m, p);
    SameCompiled(tools, fs, m, p);
    WrittenIsFresh(m, p, Compiled(tools, m, p));
    WrittenIsFresh(m, q, Compiled(tools, m, p));
  }

  /** Making directories brings no object up to date that is to be a file. */
  lemma StillStale(fs: Fs, m: Fs, p: Path)
    requires Source(fs, p) && SameInputs(fs, m) && AlongPath(fs, m, Parent(OutFile(p))) && !Fresh(fs, p)
    ensures !Fresh(m, p)
  {
    FixedNames();
    StillSource(fs, m, p);
  }

  lemma GccCKeepsSettled(tools: Tools, fs: Fs, p: Path, q: Path, z: Path, text: Content)
    requires Stamped(fs) && Rooted(fs) && Telling(tools, p) && Settled(fs, p, q, text)
    requires Source(fs, p) && Source(fs, q) && p != q && OutFile(p) == OutFile(q)
    requires Source(fs, z) && (z == p || z == q || OutFile(z) != OutFile(p)) && GccC(tools, fs, z, map[]).ok
    ensures Settled(GccC(tools, fs, z, map[]).fs, p, q, text)
  {
    hide Stamped, Rooted, GccC, Fresh, SameInputs, Later, Grows, KeepsElf, OutFile;
    GccCAdvances(tools, fs, z, map[]);
    var r := GccC(tools, fs, z, map[]);
    AdvancesKeepsInputs(fs, r.fs);
    if z != p && z != q {
      OtherObjectStays(tools, fs, z, OutFile(p));
      UntouchedIsSettled(fs, r.fs, p, q, text);
    } else if Fresh(fs, z) {
      FreshGccCIsIdle(tools, fs, z, map[]);
    } else {
      CompiledIsFresh(tools, fs, q, p);
      assert Compiled(tools, fs, q) == "other";
    }
  }

  ghost predicate AllThese(ps: seq<Path>, p: Path, q: Path) {
    forall k :: 0 <= k < |ps| ==> ps[k] == p || ps[k] == q || OutFile(ps[k]) != OutFile(p)
  }

  lemma {:induction false} CompileAllKeepsSettled(
      tools: Tools, fs: Fs, p: Path, q: Path, ps: seq<Path>, text: Content)
    requires Stamped(fs) && Rooted(fs) && Telling(tools, p) && Settled(fs, p, q, text)
    requires Source(fs, p) && Source(fs, q) && p != q && OutFile(p) == OutFile(q) && AllThese(ps, p, q)
    requires (forall k :: 0 <= k < |ps| ==> Source(fs, ps[k])) && CompileAll(tools, fs, ps, map[]).ok
    ensures Settled(CompileAll(tools, fs, ps, map[]).fs, p, q, text)
    decreases |ps|
  {
    hide Stamped, Rooted, GccC, Fresh, SameInputs, Later, Grows, KeepsElf, OutFile, Telling, Settled;
    if ps != [] {
      var before, z := ps[..|ps| - 1], ps[|ps| - 1];
      CompileAllKeepsSettled(tools, fs, p, q, before, text);
      CompileAllAdvances(tools, fs, before, map[]);
      var m := CompileAll(tools, fs, before, map[]).fs;
      AdvancesKeepsInputs(fs, m);
      StillSource(fs, m, p);
      StillSource(fs, m, q);
      StillSource(fs, m, z);
      GccCKeepsSettled(tools, m, p, q, z, text);
    }
  }

  /** From scratch, `p` is compiled first, and then `q` looks up to date. */
  lemma {:induction false} CompileAllSettles(tools: Tools, fs: Fs, p: Path, q: Path, ps: seq<Path>)
    requires Stamped(fs) && Rooted(fs) && Telling(tools, p) && OutFile(p) !in fs.nodes
    requires Source(fs, p) && Source(fs, q) && p != q && OutFile(p) == OutFile(q) && AllThese(ps, p, q)
    requires (forall k :: 0 <= k < |ps| ==> Source(fs, ps[k])) && CompileAll(tools, fs, ps, map[]).ok
    requires ps != [] && ps[0] == p
    ensures Settled(CompileAll(tools, fs, ps, map[]).fs, p, q, "first")
    decreases |ps|
  {
    hide Stamped, Rooted, GccC, SameInputs, Later, Grows, KeepsElf, OutFile, Settled;
    var before, z := ps[..|ps| - 1], ps[|ps| - 1];
    if before == [] {
      CompiledIsFresh(tools, fs, p, q);
      assert Compiled(tools, fs, p) == "first";
      FirstIsSettled(GccC(tools, fs, p, map[]).fs, p, q);
    } else {
      CompileAllSettles(tools, fs, p, q, before);
      CompileAllAdvances(tools, fs, before, map[]);
      var m := CompileAll(tools, fs, before, map[]).fs;
      AdvancesKeepsInputs(fs, m);
      StillSource(fs, m, p);
      StillSource(fs, m, q);
      StillSource(fs, m, z);
      GccCKeepsSettled(tools, m, p, q, z, "first");
    }
  }

  lemma FirstIsSettled(fs: Fs, p: Path, q: Path)
    requires Fresh(fs, p) && Fresh(fs, q) && fs.IsFile(OutFile(p)) && Read(fs, OutFile(p)) == "first"
    ensures Settled(fs, p, q, "first")
  {
  }

  lemma LinkKeepsSettled(tools: Tools, fs: Fs, p: Path, q: Path, text: Content)
    requires Stamped(fs) && Rooted(fs) && Lists(tools) && AllFresh(fs) && Settled(fs, p, q, text)
    requires Source(fs, p) && Source(fs, q) && OutFile(p) == OutFile(q) && InitBody(tools, fs, map[]).ok
    ensures Read(InitBody(tools, fs, map[]).fs, OutFile(p)) == text
  {
    hide Linked, LinkOrder, Refused;
    OutFileIsOutput(p);
    FixedNames();
    assert Fresh(fs, q);
  }

  /** A state in which nothing but MAIN, `p` and `q` is listed. */
  ghost predicate Three(fs: Fs, p: Path, q: Path) {
    Stamped(fs) && Rooted(fs) && ListsOnly(fs, {MAIN, p, q}) && Source(fs, p) && Source(fs, q)
  }

  lemma ListedAreThese(tools: Tools, fs: Fs, p: Path, q: Path, dir: string)
    requires Three(fs, p, q) && Lists(tools) && (dir == "init" || dir == "util")
    requires OutFile(p) != OutFile(MAIN)
    ensures AllThese(CFiles(tools, fs, dir), p, q)
  {
    hide Stamped, Rooted, CFiles, OutFile;
    ListedAreSources(tools, fs);
    forall k | 0 <= k < |CFiles(tools, fs, dir)|
      ensures var z := CFiles(tools, fs, dir)[k]; z == p || z == q || OutFile(z) != OutFile(p)
    {
      assert Source(fs, CFiles(tools, fs, dir)[k]);
    }
  }

  lemma SettledRun(tools: Tools, fs: Fs, p: Path, q: Path, text: Content)
    requires Three(fs, p, q) && Lists(tools) && Telling(tools, p) && Settled(fs, p, q, text)
    requires p != q && OutFile(p) == OutFile(q) && OutFile(p) != OutFile(MAIN) && RunInit(tools, fs, map[]).ok
    ensures Read(RunInit(tools, fs, map[]).fs, OutFile(p)) == text
  {
    hide Stamped, Rooted, CFiles, SameInputs, Later, Grows, KeepsElf, OutFile, Telling, Settled, InitBody, AllFresh;
    hide AllThese, ListsOnly, Fresh;
    SourcesFreshen(tools, fs, map[]);
    ListedAreSources(tools, fs);
    ListedAreThese(tools, fs, p, q, "util");
    CompileAllKeepsSettled(tools, fs, p, q, CFiles(tools, fs, "util"), text);
    var u := LibUtil(tools, fs, map[]).fs;
    StillThree(fs, u, p, q);
    SettledInit(tools, u, p, q, text);
  }

  lemma StillThree(fs: Fs, fs': Fs, p: Path, q: Path)
    requires Three(fs, p, q) && Advances(fs, fs')
    ensures Three(fs', p, q)
  {
    hide Stamped, Rooted, Later;
    forall x
      ensures Source(fs, x) <==> Source(fs', x)
    {
      StillSource(fs, fs', x);
    }
  }

  /** lib_init and init. */
  lemma SettledInit(tools: Tools, u: Fs, p: Path, q: Path, text: Content)
    requires Three(u, p, q) && Lists(tools) && Telling(tools, p) && Settled(u, p, q, text)
    requires p != q && OutFile(p) == OutFile(q) && OutFile(p) != OutFile(MAIN)
    requires var i := LibInit(tools, u, map[]); i.ok && AllFresh(i.fs) && InitBody(tools, i.fs, map[]).ok
    ensures Read(InitBody(tools, LibInit(tools, u, map[]).fs, map[]).fs, OutFile(p)) == text
  {
    hide Stamped, Rooted, CFiles, SameInputs, Later, Grows, KeepsElf, OutFile, Telling, Settled, InitBody, AllFresh;
    hide AllThese, ListsOnly, Fresh;
    ListedAreSources(tools, u);
    ListedAreThese(tools, u, p, q, "init");
    CompileAllAdvances(tools, u, CFiles(tools, u, "init"), map[]);
    CompileAllKeepsSettled(tools, u, p, q, CFiles(tools, u, "init"), text);
    var i := LibInit(tools, u, map[]).fs;
    StillThree(u, i, p, q);
    LinkKeepsSettled(tools, i, p, q, text);
  }

  /** A build from scratch keeps the object compiled from `p`. */
  lemma ScratchRun(tools: Tools, fs: Fs, p: Path, q: Path)
    requires Three(fs, p, q) && Lists(tools) && Telling(tools, p) && OutFile(p) !in fs.nodes
    requires p != q && OutFile(p) == OutFile(q) && OutFile(p) != OutFile(MAIN) && RunInit(tools, fs, map[]).ok
    ensures Read(RunInit(tools, fs, map[]).fs, OutFile(p)) == "first"
  {
    hide Stamped, Rooted, CFiles, SameInputs, Later, Grows, KeepsElf, OutFile, Telling, Settled, InitBody, AllFresh;
    hide AllThese, ListsOnly, Fresh;
    SourcesFreshen(tools, fs, map[]);
    ListedAreSources(tools, fs);
    ListedAreThese(tools, fs, p, q, "util");
    ListedAreThese(tools, fs, p, q, "init");
    if p[0] == "util" {
      FirstInList(tools, fs, p, "util");
      CompileAllSettles(tools, fs, p, q, CFiles(tools, fs, "util"));
      var u := LibUtil(tools, fs, map[]).fs;
      StillThree(fs, u, p, q);
      SettledInit(tools, u, p, q, "first");
    } else {
      NothingInUtil(tools, fs, p, q);
      FirstInList(tools, fs, p, "init");
      CompileAllSettles(tools, fs, p, q, CFiles(tools, fs, "init"));
      var i := LibInit(tools, fs, map[]).fs;
      StillThree(fs, i, p, q);
      LinkKeepsSettled(tools, i, p, q, "first");
    }
  }

  lemma FirstInList(tools: Tools, fs: Fs, p: Path, dir: string)
    requires Telling(tools, p) && p in fs.nodes && InDir(dir, p)
    ensures CFiles(tools, fs, dir) != [] && CFiles(tools, fs, dir)[0] == p
  {
    hide InDir;
  }

  lemma HeadIsMember(ps: seq<Path>)
    ensures ps == [] || ps[0] in ps
  {
  }

  lemma NothingInUtil(tools: Tools, fs: Fs, p: Path, q: Path)
    requires Three(fs, p, q) && Lists(tools) && OutFile(p) == OutFile(q) && p[0] != "util"
    ensures CFiles(tools, fs, "util") == []
  {
    hide Stamped, Rooted, CFiles;
    OutFileIsOutput(p);
    OutFileIsOutput(q);
    var ps := CFiles(tools, fs, "util");
    forall x
      ensures x !in ps
    {
      CFilesMembers(tools, fs, "util", x);
      assert x in ps ==> Source(fs, x);
    }
    HeadIsMember(ps);
  }

  // ---- The checkout and its history ---------------------------------------------------------------

  lemma ThreeLaid(p: Path, q: Path) returns (start: Fs)
    requires Plain(p) && Plain(q)
    ensures Checkout(start) && ListsOnly(start, {MAIN, p, q})
    ensures start.IsFile(MAIN) && start.IsFile(p) && start.IsFile(q)
  {
    hide Unlisted, Laid, OutFile;
    MainIsUnlisted();
    var ps := [MAIN, p, q];
    start := LayOut(ps);
    LaidIsCheckout(start, Members(ps));
    assert Members(ps) == {MAIN, p, q};
    assert MAIN in ps && p in ps && q in ps;
  }

  lemma ThreeBuildable(fs: Fs, p: Path, q: Path)
    requires Plain(p) && Plain(q) && OutFile(p) == OutFile(q) && ListsOnly(fs, {MAIN, p, q})
    requires fs.IsFile(MAIN) && fs.IsFile(p) && fs.IsFile(q)
    ensures Buildable(fs)
  {
    hide ListsOnly, OutFile, Unlisted;
    MainIsUnlisted();
    PlainIsSource(p);
    PlainIsSource(q);
    OutFileIsOutput(p);
    OutFileIsOutput(q);
    assert InitSource(fs, MAIN);
    forall x | Source(fs, x)
      ensures x == MAIN || x == p || x == q
    {
      assert ListsOnly(fs, {MAIN, p, q});
      OnlyThese(fs, x, p, q);
    }
  }

  lemma OnlyThese(fs: Fs, x: Path, p: Path, q: Path)
    requires ListsOnly(fs, {MAIN, p, q}) && Source(fs, x)
    ensures x == MAIN || x == p || x == q
  {
  }

  /** Editing `q` after a build leaves `p` up to date, and nothing in the way. */
  lemma EditAfterBuild(fs: Fs, p: Path, q: Path)
    requires Stamped(fs) && Rooted(fs) && AllFresh(fs) && Clear(fs) && Source(fs, p) && Source(fs, q) && p != q
    requires fs.IsFile(p) && fs.IsFile(q) && OutFile(p) == OutFile(q)
    ensures var fs' := Save(fs, q, "");
      && Stamped(fs') && Rooted(fs') && Clear(fs') && Settled(fs', p, q, "other")
      && (forall x :: x in fs'.nodes <==> x in fs.nodes) && (forall x :: fs.IsFile(x) ==> fs'.IsFile(x))
  {
    hide Stamped, Rooted, Later, Clear;
    var fs' := Save(fs, q, "");
    OutFileOrScript(q);
    OutFileIsOutput(p);
    OutFileIsOutput(q);
    assert InPlace(fs, q) && fs.IsDir(Parent(q)) by { PlaceOf(fs, q); }
    WayUp(fs, q);
    assert fs' == Write(fs, q, "");
    SaveIsOutside(fs, q, "");
    assert Fresh(fs, p) && Fresh(fs, q);
    assert !fs.IsDir(OutFile(p)) by { ClearObject(fs, p); }
    FixedNames();
    assert fs'.nodes[OutFile(p)] == fs.nodes[OutFile(p)] && fs'.nodes[p] == fs.nodes[p];
    StampBound(fs, OutFile(q));
    ClearOutside(fs, fs');
  }

  lemma PlaceOf(fs: Fs, q: Path)
    requires Rooted(fs) && q in fs.nodes && |q| > 1
    ensures fs.IsDir(Parent(q)) && InPlace(fs, q)
  {
    assert InPlace(fs, q);
  }

  lemma WayUp(fs: Fs, q: Path)
    requires Rooted(fs) && q in fs.nodes && |q| > 1
    ensures CanMake(fs, Parent(q)) && MkDirs(fs, Parent(q)) == fs
  {
    PlaceOf(fs, q);
    var d := Parent(q);
    forall k | 0 < k <= |d|
      ensures !fs.IsFile(d[..k])
    {
      AncestorIsDir(fs, q, k);
      assert d[..k] == q[..k];
    }
  }

  lemma ClearObject(fs: Fs, p: Path)
    requires Clear(fs) && Source(fs, p)
    ensures !fs.IsDir(OutFile(p))
  {
    assert Unblocked(fs, p);
  }

  lemma StampBound(fs: Fs, x: Path)
    requires Stamped(fs) && x in fs.nodes
    ensures fs.nodes[x].mtime <= fs.clock
  {
  }

  lemma ClearOutside(fs: Fs, fs': Fs)
    requires Clear(fs) && Outside(fs, fs') && forall x :: x in fs'.nodes <==> x in fs.nodes
    ensures Clear(fs')
  {
    hide Stamped, Rooted, Later;
    FixedNames();
    forall p | Source(fs', p)
      ensures Unblocked(fs', p)
    {
      assert Unblocked(fs, p);
      OutFileIsOutput(p);
      var d := Parent(OutFile(p));
      forall k | 0 < k <= |d|
        ensures !fs'.IsFile(d[..k])
      {
        assert Output(d[..k]);
      }
    }
  }

  /** Build, edit the second of two sources with one object, and build: the object
      is the second's; from scratch it is the first's. */
  lemma SharedDisagree(p: Path, q: Path) returns (tools: Tools, start: Fs, history: seq<Event>)
    requires Plain(p) && Plain(q) && p != q && OutFile(p) == OutFile(q)
    ensures Over(tools, start, history, {MAIN, p, q}) && !Agrees(tools, start, history, map[])
  {
    hide Plain, Stamped, Rooted, RunInit, Buildable, Clear, Checkout, Save, ListsOnly, OutFile, Telling, IsSource;
    hide AllFresh, ElfLast, SameInputs, Later, Settled, Lists;
    tools := TellingTools(p);
    start := ThreeLaid(p, q);
    history := [Run(map[]), Edit(q, "")];
    assert IsSource(p) && IsSource(q) by { PlainIsSource(p); PlainIsSource(q); }
    if OutFile(p) == OutFile(MAIN) { MainIsAlone(p); MainIsAlone(q); }
    ThreeBuildable(start, p, q);
    CheckoutIsStamped(start);
    CheckoutIsClear(start);
    ClearSucceeds(tools, start);
    RunInitFinishes(tools, start, map[]);
    var fs := RunInit(tools, start, map[]).fs;
    AdvancesKeepsInputs(start, fs);
    KeepsThree(start, fs, p, q);
    EditAfterBuild(fs, p, q);
    var now := Save(fs, q, "");
    SameNodesList(fs, now, {MAIN, p, q});
    ThreeBuildable(now, p, q);
    ClearSucceeds(tools, now);
    SettledRun(tools, now, p, q, "other");
    var c := Clean(now);
    CleanIsThree(now, p, q);
    ThreeBuildable(c, p, q);
    CheckoutIsStamped(c);
    CheckoutIsClear(c);
    ClearSucceeds(tools, c);
    ScratchRun(tools, c, p, q);
    ReplayTwo(tools, start, history, q);
    assert Source(now, p);
  }

  lemma PlainIsSource(p: Path)
    requires Plain(p)
    ensures IsSource(p)
  {
    hide IsSource, OutFile;
  }

  lemma KeepsThree(start: Fs, fs: Fs, p: Path, q: Path)
    requires SameInputs(start, fs) && ListsOnly(start, {MAIN, p, q}) && IsSource(p) && IsSource(q)
    requires start.IsFile(MAIN) && start.IsFile(p) && start.IsFile(q)
    ensures ListsOnly(fs, {MAIN, p, q}) && fs.IsFile(MAIN) && fs.IsFile(p) && fs.IsFile(q)
    ensures Source(fs, p) && Source(fs, q)
  {
    MainIsUnlisted();
    forall x
      ensures Source(start, x) <==> Source(fs, x)
      ensures Source(start, x) ==> fs.nodes[x] == start.nodes[x]
    {
      StillSource(start, fs, x);
    }
    assert Source(start, MAIN) && Source(start, p) && Source(start, q);
  }

  lemma SameNodesList(fs: Fs, fs': Fs, S: set<Path>)
    requires ListsOnly(fs, S) && forall x :: x in fs'.nodes <==> x in fs.nodes
    ensures ListsOnly(fs', S)
  {
  }

  lemma CleanIsThree(fs: Fs, p: Path, q: Path)
    requires Stamped(fs) && Rooted(fs) && ListsOnly(fs, {MAIN, p, q}) && IsSource(p) && IsSource(q)
    requires fs.IsFile(MAIN) && fs.IsFile(p) && fs.IsFile(q)
    ensures var c := Clean(fs);
      && Checkout(c) && Three(c, p, q) && c.IsFile(MAIN) && c.IsFile(p) && c.IsFile(q)
      && OutFile(p) !in c.nodes && OutFile(q) !in c.nodes
  {
    hide Stamped, Rooted, IsSource;
    CleanIsCheckout(fs);
    CheckoutIsStamped(Clean(fs));
    OutFileIsOutput(p);
    OutFileIsOutput(q);
    assert !Output(MAIN);
  }

  lemma ReplayTwo(tools: Tools, start: Fs, history: seq<Event>, q: Path)
    requires history == [Run(map[]), Edit(q, "")]
    ensures Replay(tools, start, history) == Save(RunInit(tools, start, map[]).fs, q, "")
  {
    hide RunInit, Save;
    var first := history[..1];
    assert first == [Run(map[])] && first[..0] == [];
    assert Replay(tools, start, first) == RunInit(tools, start, map[]).fs;
  }

  lemma MoreSources(tools: Tools, start: Fs, history: seq<Event>, S: set<Path>, T: set<Path>)
    requires Over(tools, start, history, S) && S <= T
    ensures Over(tools, start, history, T)
  {
    hide Checkout, Lists, AllAllowed, NoDrop;
  }

  /** For any set of sources with init/init.c among them, none in another's way:
      over every history of edits and builds of them, incremental and clean build
      agree, exactly when no two of the set share an object. */
  lemma AgreeIff(S: set<Path>)
    requires MAIN in S && forall p :: p in S ==> Plain(p)
    ensures (forall tools: Tools, start: Fs, history: seq<Event>, faults: Faults ::
               Over(tools, start, history, S) ==> Agrees(tools, start, history, faults))
            <==> NoneShared(S)
  {
    hide Over, Agrees, OutFile, Unlisted;
    if NoneShared(S) {
      assert forall p :: p in S ==> Unlisted(p);
      forall tools: Tools, start: Fs, history: seq<Event>, faults: Faults | Over(tools, start, history, S)
        ensures Agrees(tools, start, history, faults)
      {
        DistinctAgree(tools, start, history, faults, S);
      }
    } else {
      var p, q :| p in S && q in S && OutFile(p) == OutFile(q) && p != q;
      var tools, start, history := SharedDisagree(p, q);
      MoreSources(tools, start, history, {MAIN, p, q}, S);
    }
  }

  lemma UtilIsPlain(name: string)
    requires EndsInC(name)
    ensures Plain(["util", name])
  {
    var p := ["util", name];
    MainIsUnlisted();
    OutFileIsOutput(p);
    assert ELF[2] == INIT_DIR[2] == "init" && OutFile(MAIN)[2] == "init";
  }

  /** Such a pair there is: `.c` and `.c.c` in the directory util. */
  lemma DotCIsShared()
    ensures var p, q := ["util", ".c"], ["util", ".c.c"];
      Plain(p) && Plain(q) && p != q && OutFile(p) == OutFile(q)
  {
    hide Plain;
    UtilIsPlain(".c");
    UtilIsPlain(".c.c");
    OutFileInjective(["util", ".c"], ["util", ".c.c"]);
  }
}
