/** What deleting sources does to the incremental build: objects stay right, and
    the ELF goes stale exactly when everything looks up to date. */
module Deletions {
  import opened Build
  import opened BuildProofs
  import opened BuildContents
  import opened Checkouts
  import opened CleanBuild

  /** By its stamps alone there is nothing to compile and nothing to link. */
  ghost predicate LooksDone(fs: Fs) {
    AllFresh(fs) && ElfLast(fs)
  }

  // ---- What a run does to a directory in place of the ELF ------------------------------------

  /** The object of `p` has the latest stamp of all. */
  ghost predicate Newest(fs: Fs, p: Path) {
    && OutFile(p) in fs.nodes
    && forall x :: x in fs.nodes && x != OutFile(p) ==> fs.nodes[x].mtime < fs.nodes[OutFile(p)].mtime
  }

  /** A gcc_c that succeeds does nothing at all, or what it stamps last is the
      object: directories come before it. */
  lemma CompileIsLast(tools: Tools, fs: Fs, p: Path, faults: Faults)
    requires Stamped(fs) && Rooted(fs) && Source(fs, p) && GccC(tools, fs, p, faults).ok
    ensures var r := GccC(tools, fs, p, faults); r.fs == fs || Newest(r.fs, p)
  {
    hide Stamped, Rooted, SameInputs, Later, Grows, KeepsElf, CanMake, MkDirs, Fresh, Compiled;
    var d := Parent(OutFile(p));
    OutFileIsOutput(p);
    MkDirsAdvances(fs, d);
    var m := MkDirs(fs, d);
    AdvancesKeepsInputs(fs, m);
    StillSource(fs, m, p);
    ScriptExists(m);
    FreshIsNotNewer(m, p);
    if Fresh(m, p) {
      FreshHasObject(m, p);
      assert OutFile(p) in fs.nodes by { NotMadeOnTheWay(fs, m, p); }
      WayExists(fs, p);
    } else {
      WrittenIsLast(m, p, Compiled(tools, m, p));
    }
  }

  lemma NotMadeOnTheWay(fs: Fs, m: Fs, p: Path)
    requires AlongPath(fs, m, Parent(OutFile(p))) && OutFile(p) in m.nodes
    ensures OutFile(p) in fs.nodes
  {
  }

  lemma WrittenIsLast(fs: Fs, p: Path, c: Content)
    requires Stamped(fs)
    ensures Newest(Write(fs, OutFile(p), c), p)
  {
    hide OutFile;
  }

  lemma FreshHasObject(fs: Fs, p: Path)
    requires Fresh(fs, p)
    ensures OutFile(p) in fs.nodes
  {
  }

  ghost predicate NewerThanElf(fs: Fs, p: Path) {
    Source(fs, p) && ELF in fs.nodes && OutFile(p) in fs.nodes && fs.nodes[OutFile(p)].mtime > fs.nodes[ELF].mtime
  }

  /** A directory in place of the ELF is the one that was there before the run,
      stamp and all, or older than some object. */
  ghost predicate ElfDirOld(fs: Fs, m: Fs) {
    m.IsDir(ELF) ==>
      || (ELF in fs.nodes && fs.nodes[ELF] == m.nodes[ELF])
      || exists p :: NewerThanElf(m, p)
  }

  lemma GccCKeepsElfDirOld(tools: Tools, fs: Fs, m: Fs, p: Path, faults: Faults)
    requires Stamped(m) && Rooted(m) && Source(m, p) && ElfDirOld(fs, m) && GccC(tools, m, p, faults).ok
    ensures ElfDirOld(fs, GccC(tools, m, p, faults).fs)
  {
    hide Stamped, Rooted, SameInputs, Later, Grows, KeepsElf, GccC, Fresh;
    var m' := GccC(tools, m, p, faults).fs;
    CompileIsLast(tools, m, p, faults);
    OutFileIsOutput(p);
    GccCAdvances(tools, m, p, faults);
    AdvancesKeepsInputs(m, m');
    StillSource(m, m', p);
    assert m' != m && m'.IsDir(ELF) ==> NewerThanElf(m', p);
  }

  lemma {:induction false} CompileAllKeepsElfDirOld(tools: Tools, fs: Fs, m: Fs, ps: seq<Path>, faults: Faults)
    requires Stamped(m) && Rooted(m) && ElfDirOld(fs, m) && forall k :: 0 <= k < |ps| ==> Source(m, ps[k])
    requires CompileAll(tools, m, ps, faults).ok
    ensures ElfDirOld(fs, CompileAll(tools, m, ps, faults).fs)
    decreases |ps|
  {
    hide Stamped, Rooted, ElfDirOld, GccC, SameInputs, Later, Grows, KeepsElf, Fresh;
    if ps != [] {
      var before, p := ps[..|ps| - 1], ps[|ps| - 1];
      CompileAllKeepsElfDirOld(tools, fs, m, before, faults);
      var r := CompileAll(tools, m, before, faults);
      CompileAllAdvances(tools, m, before, faults);
      StillSource(m, r.fs, p);
      GccCKeepsElfDirOld(tools, fs, r.fs, p, faults);
    }
  }

  lemma NothingElfDirOld(fs: Fs)
    ensures ElfDirOld(fs, fs)
  {
  }

  /** The state in which init's body runs. */
  function AfterLibs(tools: Tools, fs: Fs, faults: Faults): Result {
    var u := LibUtil(tools, fs, faults);
    if u.ok then LibInit(tools, u.fs, faults) else u
  }

  lemma LibsKeep(tools: Tools, fs: Fs, faults: Faults)
    requires Good(tools, fs)
    ensures var i := AfterLibs(tools, fs, faults);
      && Good(tools, i.fs) && Advances(fs, i.fs) && KeepsElf(fs, i.fs)
      && (i.ok ==> AllFresh(i.fs) && Grows(fs, i.fs) && ElfDirOld(fs, i.fs))
      && RunInit(tools, fs, faults) == if i.ok then InitBody(tools, i.fs, faults) else i
  {
    hide Good, Stamped, Rooted, ElfDirOld, CFiles, SameInputs, Later, Grows, KeepsElf, AllFresh, InitBody, Source;
    GoodIsStamped(tools, fs);
    SourcesFreshen(tools, fs, faults);
    ListedAreSources(tools, fs);
    CompileAllKeeps(tools, fs, CFiles(tools, fs, "util"), faults);
    var u := LibUtil(tools, fs, faults);
    if u.ok {
      NothingElfDirOld(fs);
      CompileAllKeepsElfDirOld(tools, fs, fs, CFiles(tools, fs, "util"), faults);
      ListedAreSources(tools, u.fs);
      CompileAllKeeps(tools, u.fs, CFiles(tools, u.fs, "init"), faults);
      if LibInit(tools, u.fs, faults).ok {
        CompileAllKeepsElfDirOld(tools, fs, u.fs, CFiles(tools, u.fs, "init"), faults);
      }
    }
  }

  // ---- When the link test fires -----------------------------------------------------------------

  lemma OldElf(fs: Fs, i: Fs)
    requires KeepsElf(fs, i) && ElfDirOld(fs, i) && ElfLast(i)
    ensures ELF in fs.nodes && ELF in i.nodes && i.nodes[ELF] == fs.nodes[ELF]
  {
    hide OutFile;
    forall p | Source(i, p)
      ensures !NewerThanElf(i, p)
    {
      assert NotNewer(i, p);
    }
  }

  /** After the libraries have been compiled the ELF is older than some object,
      unless everything looked up to date before. */
  lemma LinkFiresUnlessDone(fs: Fs, i: Fs)
    requires Stamped(fs) && Advances(fs, i) && KeepsElf(fs, i) && Grows(fs, i)
    requires AllFresh(i) && ElfDirOld(fs, i)
    ensures ElfLast(i) ==> LooksDone(fs)
  {
    hide Rooted, SameInputs, Later, Fresh, OutFile, KeepsElf, ElfDirOld;
    AdvancesKeepsInputs(fs, i);
    if ElfLast(i) {
      OldElf(fs, i);
      forall p | Source(fs, p)
        ensures Fresh(fs, p) && NotNewer(fs, p)
      {
        StillSource(fs, i, p);
        assert Fresh(i, p) && NotNewer(i, p);
        if !Fresh(fs, p) { Renewed(fs, i, p); }
        FreshHasObject(fs, p);
      }
    }
  }

  lemma LinkedContent(tools: Tools, fs: Fs, faults: Faults)
    requires Good(tools, fs) && AllFresh(fs) && !ElfLast(fs) && InitBody(tools, fs, faults).ok
    ensures var out := InitBody(tools, fs, faults).fs;
      && out.IsFile(ELF) && Good(tools, out) && SameInputs(fs, out)
      && AllFresh(out) && ElfLast(out) && Read(out, ELF) == Linked(tools, out)
  {
    hide Good, AllFresh, ElfLast, Linked, LinkOrder, Stamped, Rooted, Later;
    GoodIsStamped(tools, fs);
    LinkDecision(tools, fs);
    InitBodyFinishes(tools, fs, faults);
    InitBodyKeeps(tools, fs, faults);
    var out := InitBody(tools, fs, faults).fs;
    AdvancesKeepsInputs(fs, out);
    FixedNames();
    ObjectsAreFiles(tools, fs);
    WriteElfKeepsGood(tools, fs, Linked(tools, fs));
    SameLinked(tools, fs, out);
  }

  // ---- One successful run -----------------------------------------------------------------------

  /** Every listed source is a file, and its object in `out` its compilation. */
  ghost predicate ObjectsRight(tools: Tools, fs: Fs, out: Fs) {
    forall p :: Source(fs, p) ==> ObjectRight(tools, fs, out, p)
  }

  /** No output lies on the way to another. */
  ghost predicate Apart(fs: Fs) {
    && (forall p :: Source(fs, p) ==> !(ELF < OutFile(p)))
    && (forall p, q :: Source(fs, p) && Source(fs, q) ==> !(OutFile(p) < OutFile(q)))
  }

  /** Nothing happens if everything looks up to date. Else objects and ELF are
      what the sources there are give. Only a directory in place of the ELF can
      hide an object that is not right, and only as long as nothing happens. */
  lemma SuccessWithDeletions(tools: Tools, fs: Fs, faults: Faults)
    requires Good(tools, fs) && RunInit(tools, fs, faults).ok
    ensures var out := RunInit(tools, fs, faults).fs;
      && (LooksDone(fs) ==> out == fs)
      && (!LooksDone(fs) ==> UpToDate(tools, fs, out))
      && (!LooksDone(fs) || fs.IsFile(ELF) ==> ObjectsRight(tools, fs, out) && Apart(fs))
  {
    hide Good, AllFresh, ElfLast, Linked, Reference, Compiled, InitBody, OutFile, AfterLibs, Apart, ElfDirOld;
    hide ObjectRight, UpToDate;
    hide Stamped, Rooted, SameInputs, Later, KeepsElf, Grows, RunInit;
    GoodIsStamped(tools, fs);
    LibsKeep(tools, fs, faults);
    var i := AfterLibs(tools, fs, faults).fs;
    var out := RunInit(tools, fs, faults).fs;
    GoodIsStamped(tools, i);
    AdvancesKeepsInputs(fs, i);
    SameInputsRefl(fs);
    if LooksDone(fs) {
      DoneIsIdle(tools, fs, faults);
      if fs.IsFile(ELF) { BuiltFor(tools, fs, fs); }
    } else {
      LinkFiresUnlessDone(fs, i);
      LinkedContent(tools, i, faults);
      SameInputsTrans(fs, i, out);
      BuiltFor(tools, fs, out);
      NoDirElf(out);
      FinishedIsBuilt(tools, out);
      LinkedIsReference(tools, fs, out);
      ScriptExists(fs);
      LinkIsReference(tools, fs, out);
    }
  }

  lemma NoDirElf(fs: Fs)
    requires fs.IsFile(ELF)
    ensures !fs.IsDir(ELF)
  {
  }

  lemma ScriptStaysFile(fs: Fs, out: Fs)
    requires SameInputs(fs, out) && Stamped(out)
    ensures fs.IsFile(SCRIPT)
  {
    FixedNames();
  }

  lemma SameInputsRefl(fs: Fs)
    ensures SameInputs(fs, fs)
  {
  }

  lemma SameInputsTrans(a: Fs, b: Fs, c: Fs)
    requires SameInputs(a, b) && SameInputs(b, c)
    ensures SameInputs(a, c)
  {
  }

  lemma BuiltFor(tools: Tools, fs: Fs, out: Fs)
    requires Good(tools, out) && AllFresh(out) && ElfLast(out) && SameInputs(fs, out) && out.IsFile(ELF)
    ensures ObjectsRight(tools, fs, out) && Apart(fs)
  {
    hide Good, AllFresh, ElfLast, Compiled, OutFile, SameInputs, Rooted, ObjectRight;
    GoodIsStamped(tools, out);
    ScriptStaysFile(fs, out);
    NoDirElf(out);
    FinishedIsBuilt(tools, out);
    forall p | Source(fs, p)
      ensures ObjectRight(tools, fs, out, p)
      ensures !(ELF < OutFile(p))
    {
      StillSource(fs, out, p);
      SameCompiled(tools, fs, out, p);
      assert Built(tools, out, p);
      BuiltIsRight(tools, fs, out, p);
      FileIsNotAbove(out, ELF, OutFile(p));
    }
    forall p, q | Source(fs, p) && Source(fs, q)
      ensures !(OutFile(p) < OutFile(q))
    {
      StillSource(fs, out, p);
      StillSource(fs, out, q);
      assert Built(tools, out, p) && Built(tools, out, q);
      FileIsNotAbove(out, OutFile(p), OutFile(q));
    }
  }

  lemma LinkedIsReference(tools: Tools, fs: Fs, out: Fs)
    requires Lists(tools) && SameInputs(fs, out) && forall p :: Source(out, p) ==> Built(tools, out, p)
    ensures Linked(tools, out) == Reference(tools, fs)
  {
    hide Linked, Reference, SameInputs;
    BuiltIsReference(tools, out);
    SameInputsSameReference(tools, fs, out);
  }

  // ---- Histories with deletions --------------------------------------------------------------------

  /** No two listed paths share an object at any point of the history. */
  ghost predicate NeverClash(tools: Tools, start: Fs, history: seq<Event>) {
    forall k :: 0 <= k <= |history| ==> NoClash(Replay(tools, start, history[..k]))
  }

  lemma HistoryIsGood(tools: Tools, start: Fs, history: seq<Event>)
    requires Lists(tools) && Checkout(start) && AllAllowed(history) && NeverClash(tools, start, history)
    ensures Good(tools, Replay(tools, start, history)) && NoClash(Replay(tools, start, history))
  {
    hide Good, NoClash, Checkout, AllAllowed;
    assert history[..0] == [] && history[..|history|] == history;
    assert NoClash(Replay(tools, start, history[..0]));
    CheckoutIsGood(tools, start);
    ReplayKeepsGood(tools, start, history);
  }

  /** Over every history, deletions included, in which no two listed paths ever
      share an object: a successful init leaves objects and ELF right exactly when
      not everything looked up to date beforehand, or they were right already. The
      objects alone are right too whenever there is an ELF file. */
  lemma DeletionsAndTheElf(tools: Tools, start: Fs, history: seq<Event>, faults: Faults)
    requires Lists(tools) && Checkout(start) && AllAllowed(history) && NeverClash(tools, start, history)
    ensures var fs := Replay(tools, start, history);
      var built := RunInit(tools, fs, faults);
      built.ok ==>
        && (UpToDate(tools, fs, built.fs) <==> !LooksDone(fs) || UpToDate(tools, fs, fs))
        && (LooksDone(fs) ==> built.fs == fs)
        && (!LooksDone(fs) || fs.IsFile(ELF) ==> ObjectsRight(tools, fs, built.fs))
  {
    hide Good, RunInit, UpToDate, LooksDone, NeverClash, Checkout, AllAllowed, ObjectsRight, Replay;
    HistoryIsGood(tools, start, history);
    var fs := Replay(tools, start, history);
    if RunInit(tools, fs, faults).ok {
      SuccessWithDeletions(tools, fs, faults);
    }
  }

  // ---- An edit reaches what is built from it ------------------------------------------------------

  lemma SavedHolds(fs: Fs, p: Path, c: Content)
    requires CanMake(fs, Parent(p)) && !fs.IsDir(p)
    ensures Save(fs, p, c) != fs && Save(fs, p, c).IsFile(p) && Save(fs, p, c).nodes[p].content == c
  {
    hide CanMake;
    LongerClock(fs, Parent(p));
  }

  lemma {:induction false} LongerClock(fs: Fs, d: Path)
    ensures MkDirs(fs, d).clock >= fs.clock
    decreases |d|
  {
    if d != [] && d !in fs.nodes { LongerClock(fs, Parent(d)); }
  }

  lemma ReplayMore(tools: Tools, start: Fs, history: seq<Event>, e: Event)
    ensures Replay(tools, start, history + [e]) == Step(tools, Replay(tools, start, history), e)
  {
    hide Step;
    assert (history + [e])[..|history|] == history;
  }

  lemma FewerNeverClash(tools: Tools, start: Fs, history: seq<Event>, e: Event)
    requires NeverClash(tools, start, history + [e])
    ensures NeverClash(tools, start, history)
  {
    hide Replay, NoClash;
    forall k | 0 <= k <= |history|
      ensures NoClash(Replay(tools, start, history[..k]))
    {
      assert (history + [e])[..k] == history[..k];
    }
  }

  /** After an edit that took effect, a successful init leaves everything right,
      whatever was edited, deleted and built before: source `q` is compiled as it
      is now. `p` is `q` or the script. */
  lemma EditIsNoticed(tools: Tools, start: Fs, history: seq<Event>, p: Path, c: Content, faults: Faults, q: Path)
    requires Lists(tools) && Checkout(start) && AllAllowed(history) && (p == q || p == SCRIPT) && IsSource(q)
    requires NeverClash(tools, start, history + [Edit(p, c)])
    requires CanMake(Replay(tools, start, history), Parent(p)) && !Replay(tools, start, history).IsDir(p)
    requires Source(Replay(tools, start, history + [Edit(p, c)]), q)
    ensures var fs := Replay(tools, start, history + [Edit(p, c)]);
      var built := RunInit(tools, fs, faults);
      built.ok ==> UpToDate(tools, fs, built.fs) && fs.IsFile(p) && fs.nodes[p].content == c
  {
    hide Good, RunInit, UpToDate, NeverClash, Checkout, Replay, OutFile, IsSource, Save, CanMake, Fresh, SameOutputs;
    hide Stamped, Rooted, Later, Grows;
    var was, fs := Replay(tools, start, history), Replay(tools, start, history + [Edit(p, c)]);
    ReplayMore(tools, start, history, Edit(p, c));
    FewerNeverClash(tools, start, history, Edit(p, c));
    HistoryIsGood(tools, start, history);
    HistoryIsGood(tools, start, history + [Edit(p, c)]);
    GoodIsStamped(tools, was);
    SavedHolds(was, p, c);
    SaveIsOutside(was, p, c);
    StaleAfter(was, fs, p, q);
    if RunInit(tools, fs, faults).ok { SuccessWithDeletions(tools, fs, faults); }
  }

  /** A new text for a source reaches its object. */
  lemma EditReachesObject(tools: Tools, start: Fs, history: seq<Event>, p: Path, c: Content, faults: Faults)
    requires Lists(tools) && Checkout(start) && AllAllowed(history) && IsSource(p)
    requires NeverClash(tools, start, history + [Edit(p, c)])
    requires CanMake(Replay(tools, start, history), Parent(p)) && !Replay(tools, start, history).IsDir(p)
    ensures var fs := Replay(tools, start, history + [Edit(p, c)]);
      var built := RunInit(tools, fs, faults);
      built.ok ==>
        && fs.IsFile(SCRIPT) && built.fs.IsFile(OutFile(p))
        && built.fs.nodes[OutFile(p)].content == tools.cc(p, c, fs.nodes[SCRIPT].content)
        && UpToDate(tools, fs, built.fs)
  {
    hide RunInit, NeverClash, Checkout, Replay, OutFile, IsSource, Save, CanMake, AllAllowed, Texts, CFiles;
    ReplayMore(tools, start, history, Edit(p, c));
    SavedHolds(Replay(tools, start, history), p, c);
    var fs := Replay(tools, start, history + [Edit(p, c)]);
    EditIsNoticed(tools, start, history, p, c, faults, p);
    assert RunInit(tools, fs, faults).ok ==> ObjectRight(tools, fs, RunInit(tools, fs, faults).fs, p);
  }

  /** A new text for the script, which holds the flags, reaches every object. */
  lemma ScriptEditReachesObjects(tools: Tools, start: Fs, history: seq<Event>, c: Content, faults: Faults, q: Path)
    requires Lists(tools) && Checkout(start) && AllAllowed(history)
    requires NeverClash(tools, start, history + [Edit(["buildscript", "targets", "project.py"], c)])
    requires Source(Replay(tools, start, history), q)
    ensures var fs := Replay(tools, start, history + [Edit(["buildscript", "targets", "project.py"], c)]);
      var built := RunInit(tools, fs, faults);
      built.ok ==>
        && fs.IsFile(q) && built.fs.IsFile(OutFile(q))
        && built.fs.nodes[OutFile(q)].content == tools.cc(q, fs.nodes[q].content, c)
        && UpToDate(tools, fs, built.fs)
  {
    hide RunInit, NeverClash, Checkout, Replay, OutFile, IsSource, Save, CanMake, AllAllowed, Texts, CFiles, Good;
    hide Stamped, Rooted, Later, Grows, SameOutputs;
    var was, fs := Replay(tools, start, history), Replay(tools, start, history + [Edit(SCRIPT, c)]);
    ReplayMore(tools, start, history, Edit(SCRIPT, c));
    FewerNeverClash(tools, start, history, Edit(SCRIPT, c));
    HistoryIsGood(tools, start, history);
    GoodIsStamped(tools, was);
    ScriptCanBeSaved(was);
    SaveIsOutside(was, SCRIPT, c);
    GrownSource(was, fs, q);
    EditIsNoticed(tools, start, history, SCRIPT, c, faults, q);
    assert RunInit(tools, fs, faults).ok ==> ObjectRight(tools, fs, RunInit(tools, fs, faults).fs, q);
  }

  lemma ScriptCanBeSaved(fs: Fs)
    requires Stamped(fs) && Rooted(fs)
    ensures CanMake(fs, Parent(SCRIPT)) && !fs.IsDir(SCRIPT)
  {
    var d := Parent(SCRIPT);
    forall k | 0 < k <= |d|
      ensures !fs.IsFile(d[..k])
    {
      AncestorIsDir(fs, SCRIPT, k);
      assert d[..k] == SCRIPT[..k];
    }
  }

  // ---- Sources that cannot be built -----------------------------------------------------------------

  lemma DoneWithDirElf(tools: Tools, fs: Fs, faults: Faults)
    requires Good(tools, fs) && RunInit(tools, fs, faults).ok && LooksDone(fs) && !fs.IsFile(ELF)
    ensures fs.IsDir(ELF) && RunInit(tools, fs, faults).fs == fs
  {
    hide Good, RunInit, AllFresh, OutFile;
    SuccessWithDeletions(tools, fs, faults);
  }

  /** The object of a source below init/init lies below the ELF. */
  lemma BelowElf(p: Path)
    requires |p| > 2 && p[0] == "init" && p[1] == "init"
    ensures ELF < OutFile(p)
  {
    assert OutFile(p)[2] == p[0] && OutFile(p)[3] == p[1];
  }

  /** While a source lies below init/init no build does anything: at most it finds
      a directory in place of the ELF that looks up to date, and that only after
      a deletion. */
  lemma BelowElfNeverBuilds(tools: Tools, start: Fs, history: seq<Event>, faults: Faults, p: Path)
    requires Lists(tools) && Checkout(start) && AllAllowed(history) && NeverClash(tools, start, history)
    requires Source(Replay(tools, start, history), p) && |p| > 2 && p[0] == "init" && p[1] == "init"
    ensures var fs := Replay(tools, start, history);
      var built := RunInit(tools, fs, faults);
      built.ok ==> !NoDrop(history) && fs.IsDir(ELF) && built.fs == fs
  {
    hide Good, RunInit, Replay, Checkout, AllAllowed, NoDrop, NoClash, NeverClash, OutFile, LooksDone, UpToDate;
    HistoryIsGood(tools, start, history);
    BelowElf(p);
    var fs := Replay(tools, start, history);
    if RunInit(tools, fs, faults).ok {
      SuccessWithDeletions(tools, fs, faults);
      DoneWithDirElf(tools, fs, faults);
      if NoDrop(history) { IncrementalEqualsClean(tools, start, history, faults); }
    }
  }

  /** The same of a source in a directory that is named like a source. */
  lemma InListedDirNeverBuilds(tools: Tools, start: Fs, history: seq<Event>, faults: Faults, p: Path, k: nat)
    requires Lists(tools) && Checkout(start) && AllAllowed(history) && NeverClash(tools, start, history)
    requires Source(Replay(tools, start, history), p) && 0 < k < |p| && IsSource(p[..k])
    ensures var fs := Replay(tools, start, history);
      var built := RunInit(tools, fs, faults);
      built.ok ==> !NoDrop(history) && fs.IsDir(ELF) && built.fs == fs
  {
    hide Good, RunInit, Replay, Checkout, AllAllowed, NoDrop, NoClash, NeverClash, OutFile, LooksDone, UpToDate;
    hide Stamped, Rooted, IsSource, InitSource, Compiled;
    HistoryIsGood(tools, start, history);
    var fs := Replay(tools, start, history);
    GoodIsStamped(tools, fs);
    AncestorIsDir(fs, p, k);
    assert Source(fs, p[..k]) && !fs.IsFile(p[..k]);
    if RunInit(tools, fs, faults).ok {
      SuccessWithDeletions(tools, fs, faults);
      DoneWithDirElf(tools, fs, faults);
      if NoDrop(history) { IncrementalEqualsClean(tools, start, history, faults); }
    }
  }

  // ---- A source that is deleted -------------------------------------------------------------------------

  /** Deleting a source after a finished build goes unnoticed. */
  lemma DeletionIsMissed(tools: Tools, fs: Fs, p: Path, faults: Faults)
    requires Good(tools, fs) && LooksDone(fs) && IsSource(p) && fs.IsFile(p)
    requires forall q :: Source(fs, q) ==> fs.IsFile(q)
    ensures var gone := Delete(fs, p);
      LooksDone(gone) && RunInit(tools, gone, faults) == Result(gone, true)
  {
    hide Stamped, Rooted, RunInit, Changes, NoClash, ObjectsGood, LinkInputs, Lists;
    var gone := Delete(fs, p);
    DeleteIsOutside(fs, p);
    RemoveChanges(fs, p);
    FixedNames();
    forall q | Source(gone, q)
      ensures Fresh(gone, q) && NotNewer(gone, q)
    {
      OthersStay(fs, p, q);
    }
    DoneIsIdle(tools, gone, faults);
  }

  lemma OthersStay(fs: Fs, p: Path, q: Path)
    requires LooksDone(fs) && Stamped(fs) && IsSource(p) && fs.IsFile(p) && Source(Remove(fs, p), q)
    requires Outside(fs, Remove(fs, p)) && forall x :: Source(fs, x) ==> fs.IsFile(x)
    ensures Fresh(Remove(fs, p), q) && NotNewer(Remove(fs, p), q)
  {
    hide Rooted, Later;
    var gone := Remove(fs, p);
    FixedNames();
    OutFileIsOutput(q);
    assert Source(fs, q) && Fresh(fs, q) && NotNewer(fs, q);
    assert gone.nodes[q] == fs.nodes[q] && gone.nodes[SCRIPT] == fs.nodes[SCRIPT];
  }

  // ---- An ELF that really goes stale -------------------------------------------------------------------

  ghost predicate Enumerates(tools: Tools) {
    forall S :: tools.list(S) == Enumerate(S)
  }

  /** A linker that tells whether it was given `n` objects. */
  ghost predicate Counts(tools: Tools, n: nat) {
    forall cs: seq<Content>, c: Content :: tools.ld(cs, c) == if |cs| == n then "all" else "some"
  }

  lemma CountingTools(n: nat) returns (tools: Tools)
    ensures Lists(tools) && Enumerates(tools) && Counts(tools, n)
  {
    tools := Tools((p, c, s) => c, (cs, c) => if |cs| == n then "all" else "some", S => Enumerate(S));
  }

  lemma CFilesLength(tools: Tools, fs: Fs, dir: string)
    requires Enumerates(tools)
    ensures |CFiles(tools, fs, dir)| == |set x | x in fs.nodes && InDir(dir, x)|
  {
    hide InDir, Enumerate;
  }

  lemma ListLength(tools: Tools, fs: Fs, fs': Fs, dir: string, p: Path)
    requires Enumerates(tools) && p in fs.nodes
    requires forall x :: InDir(dir, x) ==> (x in fs'.nodes <==> x in fs.nodes && x != p)
    ensures |CFiles(tools, fs', dir)| == |CFiles(tools, fs, dir)| - (if InDir(dir, p) then 1 else 0)
  {
    hide InDir, Enumerates, CFiles;
    CFilesLength(tools, fs, dir);
    CFilesLength(tools, fs', dir);
    var a, b := set x | x in fs.nodes && InDir(dir, x), set x | x in fs'.nodes && InDir(dir, x);
    assert b == a - {p};
    assert p in a <==> InDir(dir, p);
  }

  lemma OneListedLess(tools: Tools, fs: Fs, fs': Fs, p: Path)
    requires Enumerates(tools) && Source(fs, p)
    requires forall x :: IsSource(x) ==> (x in fs'.nodes <==> x in fs.nodes && x != p)
    ensures |LinkOrder(tools, fs')| == |LinkOrder(tools, fs)| - 1
  {
    hide CFiles, Enumerates;
    ListLength(tools, fs, fs', "init", p);
    ListLength(tools, fs, fs', "util", p);
    assert p[0] == "init" || p[0] == "util";
  }

  lemma ReferenceCounts(tools: Tools, n: nat, fs: Fs)
    requires Counts(tools, n)
    ensures Reference(tools, fs) == if |LinkOrder(tools, fs)| == n then "all" else "some"
  {
    hide CFiles;
  }

  /** For every checkout that builds, and every source of it: over some tools the
      build, the deletion of the source and another successful init leave an ELF
      that a build from scratch does not make. */
  lemma DeletionGoesStale(start: Fs, p: Path) returns (tools: Tools)
    requires Checkout(start) && NoClash(start) && Buildable(start) && Source(start, p)
    ensures Lists(tools)
    ensures var built := RunInit(tools, start, map[]);
      var gone := Delete(built.fs, p);
      var again := RunInit(tools, gone, map[]);
      && built.ok && UpToDate(tools, start, built.fs)
      && again.ok && again.fs.IsFile(ELF) && Read(again.fs, ELF) != Reference(tools, gone)
  {
    hide Checkout, NoClash, Good, Tidy, RunInit, Compiled, LooksDone, OutFile, Lists, Enumerates, Counts, Delete;
    hide SameInputs, InitSource, LinkOrder, Reference, Buildable, IsSource, UpToDate;
    var t := CountingTools(0);
    tools := CountingTools(|LinkOrder(t, start)|);
    SameOrder(t, tools, start);
    BuildableIsFile(start, p);
    CheckoutIsGood(tools, start);
    ScratchSucceedsIff(tools, start);
    SuccessIsUpToDate(tools, start, map[]);
    FinishedLooksDone(tools, start);
    var fs := RunInit(tools, start, map[]).fs;
    UpToDateElf(tools, start, fs);
    StillSource(start, fs, p);
    DeletionIsMissed(tools, fs, p, map[]);
    GoneIsOneLess(tools, start, fs, p);
  }

  lemma SameOrder(t: Tools, tools: Tools, fs: Fs)
    requires Enumerates(t) && Enumerates(tools)
    ensures LinkOrder(t, fs) == LinkOrder(tools, fs)
  {
  }

  lemma BuildableIsFile(fs: Fs, p: Path)
    requires Buildable(fs) && Source(fs, p)
    ensures fs.IsFile(p)
  {
    hide InitSource, OutFile;
  }

  lemma FinishedLooksDone(tools: Tools, start: Fs)
    requires Good(tools, start) && Buildable(start) && RunInit(tools, start, map[]).ok
    ensures var fs := RunInit(tools, start, map[]).fs;
      && Good(tools, fs) && LooksDone(fs) && SameInputs(start, fs)
      && forall q :: Source(fs, q) ==> fs.IsFile(q)
  {
    hide Good, RunInit, AllFresh, ElfLast, SameInputs, OutFile, InitSource;
    GoodIsStamped(tools, start);
    RunInitFinishes(tools, start, map[]);
    RunInitKeeps(tools, start, map[]);
    var fs := RunInit(tools, start, map[]).fs;
    AdvancesKeepsInputs(start, fs);
    forall q | Source(fs, q)
      ensures fs.IsFile(q)
    {
      StillSource(start, fs, q);
    }
  }

  lemma GoneIsOneLess(tools: Tools, start: Fs, fs: Fs, p: Path)
    requires SameInputs(start, fs) && Source(start, p) && start.IsFile(p)
    requires Enumerates(tools) && Counts(tools, |LinkOrder(tools, start)|)
    ensures Reference(tools, start) == "all" && Reference(tools, Delete(fs, p)) == "some"
    ensures Read(Delete(fs, p), ELF) == Read(fs, ELF)
  {
    hide LinkOrder, Reference, InDir, SameInputs, Enumerates, Counts;
    var gone := Delete(fs, p);
    StillSource(start, fs, p);
    DeletedOnly(fs, p);
    forall x | IsSource(x)
      ensures x in gone.nodes <==> x in start.nodes && x != p
    {
      StillSource(start, fs, x);
    }
    OneListedLess(tools, start, gone, p);
    ReferenceCounts(tools, |LinkOrder(tools, start)|, start);
    ReferenceCounts(tools, |LinkOrder(tools, start)|, gone);
  }

  lemma DeletedOnly(fs: Fs, p: Path)
    requires Source(fs, p) && fs.IsFile(p)
    ensures var gone := Delete(fs, p);
      && (forall x :: x in gone.nodes <==> x in fs.nodes && x != p)
      && Read(gone, ELF) == Read(fs, ELF)
  {
    OutFileIsOutput(p);
    FixedNames();
  }
}
