/** Over every history of edits and builds, a successful incremental build leaves
    what a build from scratch leaves. */
module CleanBuild {
  import opened Build
  import opened BuildProofs
  import opened BuildContents

  // ---- Edits and histories -------------------------------------------------------------

  /** Nothing below the output directory changes. */
  ghost predicate SameOutputs(fs: Fs, fs': Fs) {
    forall p :: Output(p) ==>
      (p in fs.nodes <==> p in fs'.nodes) && (p in fs.nodes ==> fs'.nodes[p] == fs.nodes[p])
  }

  /** What a user may do to the sources. */
  ghost predicate Outside(fs: Fs, fs': Fs) {
    Stamped(fs') && Rooted(fs') && Later(fs, fs') && SameOutputs(fs, fs')
  }

  /** Saves a file, in directories made as needed, unless a file or a directory is
      in the way. */
  function Save(fs: Fs, p: Path, c: Content): Fs {
    if CanMake(fs, Parent(p)) && !fs.IsDir(p) then Write(MkDirs(fs, Parent(p)), p, c) else fs
  }

  /** Deletes a file; its directory stays. */
  function Delete(fs: Fs, p: Path): Fs {
    if fs.IsFile(p) then Remove(fs, p) else fs
  }

  datatype Event = Edit(p: Path, content: Content) | Drop(p: Path) | Run(faults: Faults)

  /** Edits, additions and deletions of .c files, edits of the script, and builds
      that may fail midway. */
  predicate Allowed(e: Event) {
    match e
    case Edit(p, _) => IsSource(p) || p == SCRIPT
    case Drop(p) => IsSource(p)
    case Run(_) => true
  }

  function Step(tools: Tools, fs: Fs, e: Event): Fs {
    match e
    case Edit(p, c) => Save(fs, p, c)
    case Drop(p) => Delete(fs, p)
    case Run(faults) => RunInit(tools, fs, faults).fs
  }

  function Replay(tools: Tools, fs: Fs, history: seq<Event>): Fs {
    if history == [] then fs
    else Step(tools, Replay(tools, fs, history[..|history| - 1]), history[|history| - 1])
  }

  ghost predicate AllAllowed(history: seq<Event>) {
    forall k :: 0 <= k < |history| ==> Allowed(history[k])
  }

  ghost predicate NoDrop(history: seq<Event>) {
    forall k :: 0 <= k < |history| ==> !history[k].Drop?
  }

  /** A fresh checkout: no output yet. */
  ghost predicate Checkout(fs: Fs) {
    Stamped(fs) && Rooted(fs) && forall p :: p in fs.nodes ==> !Output(p)
  }

  // ---- What an edit does ------------------------------------------------------------------

  lemma ChangeIsOutside(fs: Fs, fs': Fs, p: Path)
    requires Stamped(fs) && Rooted(fs) && Changes(fs, fs', p) && !Output(p) && p != []
    requires InPlace(fs', p) && (fs.IsDir(p) ==> fs'.IsDir(p)) && fs'.IsFile(SCRIPT)
    ensures Outside(fs, fs')
  {
    ChangeKeepsPlaces(fs, fs', p);
    forall x | x in fs'.nodes
      ensures (x in fs.nodes && fs'.nodes[x] == fs.nodes[x]) || fs'.nodes[x].mtime > fs.clock
      ensures fs'.nodes[x].mtime <= fs'.clock
    {
      assert x != p ==> SameOrTouched(fs, fs', p, x);
    }
    forall x | Output(x)
      ensures (x in fs.nodes <==> x in fs'.nodes) && (x in fs.nodes ==> fs'.nodes[x] == fs.nodes[x])
    {
      assert x in fs.nodes || x in fs'.nodes ==> SameOrTouched(fs, fs', p, x);
    }
  }

  lemma OutsideTrans(a: Fs, b: Fs, c: Fs)
    requires Outside(a, b) && Outside(b, c)
    ensures Outside(a, c)
  {
    hide Stamped, Rooted;
  }

  lemma NothingIsOutside(fs: Fs)
    requires Stamped(fs) && Rooted(fs)
    ensures Outside(fs, fs) && Grows(fs, fs)
  {
  }

  lemma {:induction false} MkDirsOutside(fs: Fs, d: Path)
    requires Stamped(fs) && Rooted(fs) && CanMake(fs, d) && (d != [] ==> !Output(d))
    ensures var m := MkDirs(fs, d);
      Outside(fs, m) && Grows(fs, m) && AlongPath(fs, m, d) && (d != [] ==> m.IsDir(d))
    decreases |d|
  {
    hide Stamped, Rooted, Later, SameOutputs, Grows, AlongPath, MakeDir, CanMake, Changes;
    NothingIsOutside(fs);
    NothingAlong(fs, d);
    if d != [] {
      CanMakeParent(fs, d);
      if d !in fs.nodes {
        MkDirsOutside(fs, Parent(d));
        var m := MkDirs(fs, Parent(d));
        AlongParent(fs, m, d);
        MadeOutside(m, d);
        OutsideTrans(fs, m, MakeDir(m, d));
        GrowsTrans(fs, m, MakeDir(m, d));
      }
    }
  }

  lemma MadeOutside(fs: Fs, d: Path)
    requires Stamped(fs) && Rooted(fs) && d !in fs.nodes && d != [] && !Output(d)
    requires |d| > 1 ==> fs.IsDir(Parent(d))
    ensures var fs' := MakeDir(fs, d); Outside(fs, fs') && Grows(fs, fs') && fs'.IsDir(d)
  {
    hide Stamped, Rooted, Changes, Outside, Grows;
    ScriptExists(fs);
    MakeDirChanges(fs, d);
    MadeIsDir(fs, d);
    ChangeGrows(fs, MakeDir(fs, d), d);
    ScriptStays(fs, MakeDir(fs, d), d);
    ChangeIsOutside(fs, MakeDir(fs, d), d);
  }

  lemma ScriptStays(fs: Fs, fs': Fs, p: Path)
    requires fs.IsFile(SCRIPT) && Changes(fs, fs', p) && p != SCRIPT
    ensures fs'.IsFile(SCRIPT)
  {
    assert SameOrTouched(fs, fs', p, SCRIPT);
  }

  lemma WroteOutside(fs: Fs, p: Path, c: Content)
    requires Stamped(fs) && Rooted(fs) && |p| > 1 && !Output(p) && fs.IsDir(Parent(p)) && !fs.IsDir(p)
    ensures var fs' := Write(fs, p, c);
      Outside(fs, fs') && Grows(fs, fs') && fs'.IsFile(p) && fs'.nodes[p].mtime > fs.clock
  {
    hide Stamped, Rooted, Changes, Outside, Grows;
    var fs' := Write(fs, p, c);
    ScriptExists(fs);
    WriteChanges(fs, p, c);
    ChangeGrows(fs, fs', p);
    if p != SCRIPT { ScriptStays(fs, fs', p); }
    ChangeIsOutside(fs, fs', p);
  }

  lemma SaveIsOutside(fs: Fs, p: Path, c: Content)
    requires Stamped(fs) && Rooted(fs) && (IsSource(p) || p == SCRIPT)
    ensures var fs' := Save(fs, p, c);
      && Outside(fs, fs') && Grows(fs, fs')
      && (fs' == fs || (fs'.IsFile(p) && fs'.nodes[p].mtime > fs.clock))
  {
    hide Stamped, Rooted, Later, SameOutputs, Grows, CanMake, MkDirs, Write, AlongPath;
    var d := Parent(p);
    NothingIsOutside(fs);
    if CanMake(fs, d) && !fs.IsDir(p) {
      MkDirsOutside(fs, d);
      var m := MkDirs(fs, d);
      StillNoDir(fs, m, p);
      WroteOutside(m, p, c);
      OutsideTrans(fs, m, Write(m, p, c));
      GrowsTrans(fs, m, Write(m, p, c));
      assert fs.clock <= m.clock by { LaterClock(fs, m); }
    }
  }

  lemma StillNoDir(fs: Fs, m: Fs, p: Path)
    requires AlongPath(fs, m, Parent(p)) && !fs.IsDir(p) && p != []
    ensures !m.IsDir(p)
  {
  }

  lemma LaterClock(fs: Fs, fs': Fs)
    requires Later(fs, fs')
    ensures fs.clock <= fs'.clock
  {
  }

  lemma DeleteIsOutside(fs: Fs, p: Path)
    requires Stamped(fs) && Rooted(fs) && IsSource(p)
    ensures Outside(fs, Delete(fs, p))
    ensures forall x :: x in Delete(fs, p).nodes ==> x in fs.nodes
  {
    hide Stamped, Rooted, Changes, Outside;
    NothingIsOutside(fs);
    if fs.IsFile(p) {
      OutFileIsOutput(p);
      ScriptExists(fs);
      RemoveChanges(fs, p);
      ScriptStays(fs, Remove(fs, p), p);
      ChangeIsOutside(fs, Remove(fs, p), p);
    }
  }

  /** A source that an edit changed is newer than its object. */
  lemma OutsideKeepsSource(tools: Tools, fs: Fs, fs': Fs, p: Path)
    requires Good(tools, fs) && Outside(fs, fs') && Source(fs', p)
    ensures ObjectGood(tools, fs', p) && LinkInput(fs', p)
    ensures Fresh(fs', p) ==> Source(fs, p) && Fresh(fs, p)
  {
    hide Rooted, NoClash, Lists;
    FixedNames();
    OutFileIsOutput(p);
    assert Source(fs, p) ==> ObjectGood(tools, fs, p) && LinkInput(fs, p);
  }

  lemma OutsideKeepsGood(tools: Tools, fs: Fs, fs': Fs)
    requires Good(tools, fs) && Outside(fs, fs') && NoClash(fs')
    ensures Good(tools, fs')
  {
    hide Stamped, Rooted, Later, SameOutputs, ObjectGood, LinkInput, NoClash, Lists, Fresh;
    forall p | Source(fs', p)
      ensures ObjectGood(tools, fs', p) && LinkInput(fs', p)
    {
      OutsideKeepsSource(tools, fs, fs', p);
    }
  }

  lemma ElfNeedsInitSource(tools: Tools, fs: Fs)
    requires Good(tools, fs) && Tidy(tools, fs) && ELF in fs.nodes
    ensures exists p :: InitSource(fs, p)
  {
    hide ObjectsGood, LinkInputs, NoClash, ElfGood, ElfDirOlder, InitSource;
    FixedNames();
    assert InPlace(fs, ELF);
  }

  /** After an edit something is out of date. */
  lemma EditedIsNotFresh(tools: Tools, fs: Fs, fs': Fs, p: Path)
    requires Good(tools, fs) && Tidy(tools, fs) && Outside(fs, fs') && Grows(fs, fs')
    requires (IsSource(p) || p == SCRIPT) && p in fs'.nodes && fs'.nodes[p].mtime > fs.clock
    ensures AllFresh(fs') ==> ELF !in fs'.nodes
  {
    hide Good, Tidy, Stamped, Rooted, Later, Grows;
    FixedNames();
    if ELF in fs'.nodes {
      ElfNeedsInitSource(tools, fs);
      var q :| InitSource(fs, q);
      var r := if p == SCRIPT then q else p;
      GrownSource(fs, fs', q);
      GoodIsStamped(tools, fs);
      StaleAfter(fs, fs', p, r);
    }
  }

  lemma GrownSource(fs: Fs, fs': Fs, p: Path)
    requires Grows(fs, fs') && Source(fs, p)
    ensures Source(fs', p)
  {
  }

  lemma StaleAfter(fs: Fs, fs': Fs, p: Path, q: Path)
    requires Stamped(fs) && Outside(fs, fs') && Source(fs', q) && (p == q || p == SCRIPT)
    requires p in fs'.nodes && fs'.nodes[p].mtime > fs.clock
    ensures !Fresh(fs', q)
  {
    hide Rooted, Later;
    OutFileIsOutput(q);
  }

  lemma EditKeepsTidy(tools: Tools, fs: Fs, fs': Fs, p: Path)
    requires Good(tools, fs) && Tidy(tools, fs) && Outside(fs, fs') && Grows(fs, fs')
    requires (IsSource(p) || p == SCRIPT) && p in fs'.nodes && fs'.nodes[p].mtime > fs.clock
    ensures Tidy(tools, fs')
  {
    hide Good, Stamped, Rooted, Later, Grows, Fresh, Linked, OutFile;
    EditedIsNotFresh(tools, fs, fs', p);
    FixedNames();
    if fs'.IsDir(ELF) {
      var q :| NewerBelowElf(fs, q);
      GrownSource(fs, fs', q);
      NewerOutside(tools, fs, fs', q);
    }
    if fs'.IsDir(INIT_DIR) {
      var q :| InitSource(fs, q);
      GrownSource(fs, fs', q);
      assert InitSource(fs', q);
    }
  }

  lemma NewerOutside(tools: Tools, fs: Fs, fs': Fs, q: Path)
    requires Good(tools, fs) && NewerBelowElf(fs, q) && Outside(fs, fs') && Source(fs', q)
    ensures NewerBelowElf(fs', q)
  {
    hide Good, Stamped, Rooted, Later;
    FixedNames();
    OutsideKeepsSource(tools, fs, fs', q);
  }

  // ---- Along a history ----------------------------------------------------------------------

  lemma StepKeepsStamps(tools: Tools, fs: Fs, e: Event)
    requires Stamped(fs) && Rooted(fs) && Lists(tools) && Allowed(e)
    ensures var fs' := Step(tools, fs, e);
      && Stamped(fs') && Rooted(fs')
      && (!e.Drop? ==> forall p :: Source(fs, p) ==> Source(fs', p))
  {
    hide Stamped, Rooted, Later, SameOutputs, Save, Delete, RunInit;
    match e
    case Edit(p, c) => SaveIsOutside(fs, p, c);
    case Drop(p) => DeleteIsOutside(fs, p);
    case Run(faults) =>
      RunInitFinishes(tools, fs, faults);
      forall p | Source(fs, p)
        ensures Source(RunInit(tools, fs, faults).fs, p)
      {
        StillSource(fs, RunInit(tools, fs, faults).fs, p);
      }
  }

  lemma StepKeepsGood(tools: Tools, fs: Fs, e: Event)
    requires Good(tools, fs) && Allowed(e) && NoClash(Step(tools, fs, e))
    ensures Good(tools, Step(tools, fs, e))
    ensures !e.Drop? && Tidy(tools, fs) ==> Tidy(tools, Step(tools, fs, e))
  {
    hide Good, Tidy, NoClash, Outside, Save, Delete, RunInit, Grows;
    GoodIsStamped(tools, fs);
    match e
    case Edit(p, c) =>
      SaveIsOutside(fs, p, c);
      OutsideKeepsGood(tools, fs, Save(fs, p, c));
      if Tidy(tools, fs) && Save(fs, p, c) != fs { EditKeepsTidy(tools, fs, Save(fs, p, c), p); }
    case Drop(p) =>
      DeleteIsOutside(fs, p);
      OutsideKeepsGood(tools, fs, Delete(fs, p));
    case Run(faults) => RunInitKeeps(tools, fs, faults);
  }

  /** In every history, deletions included, in which no two listed paths ever share
      an object: each up-to-date object file holds what its source gives. */
  lemma {:induction false} ReplayKeepsGood(tools: Tools, start: Fs, history: seq<Event>)
    requires Good(tools, start) && AllAllowed(history)
    requires forall k :: 0 <= k <= |history| ==> NoClash(Replay(tools, start, history[..k]))
    ensures Good(tools, Replay(tools, start, history))
    decreases |history|
  {
    hide Good, NoClash, Step, Allowed;
    if history != [] {
      var before, e := history[..|history| - 1], history[|history| - 1];
      forall k | 0 <= k <= |before|
        ensures NoClash(Replay(tools, start, before[..k]))
      {
        assert before[..k] == history[..k];
      }
      ReplayKeepsGood(tools, start, before);
      assert history[..|history|] == history;
      StepKeepsGood(tools, Replay(tools, start, before), e);
    }
  }

  lemma {:induction false} ReplayKeepsStamps(tools: Tools, start: Fs, history: seq<Event>)
    requires Stamped(start) && Rooted(start) && Lists(tools) && AllAllowed(history)
    ensures Stamped(Replay(tools, start, history)) && Rooted(Replay(tools, start, history))
    decreases |history|
  {
    hide Stamped, Rooted, Step, Allowed;
    if history != [] {
      ReplayKeepsStamps(tools, start, history[..|history| - 1]);
      StepKeepsStamps(tools, Replay(tools, start, history[..|history| - 1]), history[|history| - 1]);
    }
  }

  lemma FewerNoClash(fs: Fs, fs': Fs)
    requires NoClash(fs') && forall p :: Source(fs, p) ==> Source(fs', p)
    ensures NoClash(fs)
  {
  }

  /** Without deletions it is enough that no listed paths share an object now. */
  lemma {:induction false} ReplayKeepsTidy(tools: Tools, start: Fs, history: seq<Event>)
    requires Lists(tools) && Checkout(start) && AllAllowed(history) && NoDrop(history)
    requires NoClash(Replay(tools, start, history))
    ensures Good(tools, Replay(tools, start, history)) && Tidy(tools, Replay(tools, start, history))
    decreases |history|
  {
    hide Good, Tidy, NoClash, Step, Allowed, Checkout;
    if history == [] {
      CheckoutIsGood(tools, start);
    } else {
      var before, e := history[..|history| - 1], history[|history| - 1];
      var fs := Replay(tools, start, before);
      CheckoutIsStamped(start);
      ReplayKeepsStamps(tools, start, before);
      StepKeepsStamps(tools, fs, e);
      FewerNoClash(fs, Step(tools, fs, e));
      ReplayKeepsTidy(tools, start, before);
      StepKeepsGood(tools, fs, e);
    }
  }

  lemma CheckoutIsStamped(fs: Fs)
    requires Checkout(fs)
    ensures Stamped(fs) && Rooted(fs)
  {
  }

  lemma CheckoutIsGood(tools: Tools, fs: Fs)
    requires Lists(tools) && Checkout(fs) && NoClash(fs)
    ensures Good(tools, fs) && Tidy(tools, fs)
  {
    hide NoClash, Stamped, Rooted, Lists;
    FixedNames();
    assert Output(INIT_DIR);
  }

  // ---- Success ---------------------------------------------------------------------------------

  /** Objects and ELF of `fs` hold what the sources of `inputs` give: the ELF is
      the link of init's objects and then util's, each in listing order. */
  ghost predicate UpToDate(tools: Tools, inputs: Fs, fs: Fs) {
    && inputs.IsFile(SCRIPT) && fs.IsFile(ELF)
    && (forall p :: Source(inputs, p) ==> ObjectRight(tools, inputs, fs, p))
    && fs.nodes[ELF].content == tools.ld(
         Texts(tools, inputs, CFiles(tools, inputs, "init")) + Texts(tools, inputs, CFiles(tools, inputs, "util")),
         inputs.nodes[SCRIPT].content)
  }

  lemma BuiltIsRight(tools: Tools, inputs: Fs, out: Fs, p: Path)
    requires inputs.IsFile(SCRIPT) && inputs.IsFile(p) && Built(tools, out, p)
    requires Compiled(tools, inputs, p) == Compiled(tools, out, p)
    ensures ObjectRight(tools, inputs, out, p)
  {
  }

  lemma UpToDateElf(tools: Tools, inputs: Fs, out: Fs)
    requires UpToDate(tools, inputs, out)
    ensures out.IsFile(ELF) && Read(out, ELF) == Reference(tools, inputs)
  {
    hide ObjectRight, CFiles, Texts;
  }

  /** What is up to date for one state is so for every other with the same inputs. */
  lemma UpToDateFor(tools: Tools, fs: Fs, fs': Fs, out: Fs)
    requires SameInputs(fs, fs') && Lists(tools) && Stamped(fs) && UpToDate(tools, fs', out)
    ensures UpToDate(tools, fs, out)
  {
    hide SameInputs, UpToDate, Reference, OutFile, Compiled;
    ScriptExists(fs);
    SameInputsSameReference(tools, fs, fs');
    forall p | Source(fs, p)
      ensures ObjectRight(tools, fs, out, p)
    {
      StillSource(fs, fs', p);
      SameInputRight(tools, fs, fs', out, p);
    }
    UpToDateElf(tools, fs', out);
    LinkIsReference(tools, fs, out);
  }

  lemma SameInputRight(tools: Tools, fs: Fs, fs': Fs, out: Fs, p: Path)
    requires SameInputs(fs, fs') && Source(fs, p) && UpToDate(tools, fs', out)
    ensures ObjectRight(tools, fs, out, p)
  {
    hide OutFile;
    StillSource(fs, fs', p);
    FixedNames();
    assert ObjectRight(tools, fs', out, p);
  }

  lemma LinkIsReference(tools: Tools, inputs: Fs, out: Fs)
    requires inputs.IsFile(SCRIPT) && out.IsFile(ELF) && Read(out, ELF) == Reference(tools, inputs)
    requires forall p :: Source(inputs, p) ==> ObjectRight(tools, inputs, out, p)
    ensures UpToDate(tools, inputs, out)
  {
    hide ObjectRight, CFiles, Texts;
  }

  /** No output lies on the way to another, nothing but files is listed, and there
      is a source in init, whose directory the ELF shares. */
  ghost predicate Buildable(fs: Fs) {
    && (exists p :: InitSource(fs, p))
    && (forall p :: Source(fs, p) ==> fs.IsFile(p) && !(ELF < OutFile(p)))
    && (forall p, q :: Source(fs, p) && Source(fs, q) ==> !(OutFile(p) < OutFile(q)))
  }

  lemma FileIsNotAbove(fs: Fs, p: Path, q: Path)
    requires Rooted(fs) && fs.IsFile(p) && q in fs.nodes && p != []
    ensures !(p < q)
  {
    if |p| < |q| {
      AncestorIsDir(fs, q, |p|);
      assert q[..|p|] != p;
    }
  }

  lemma FinishedIsBuildable(tools: Tools, fs: Fs)
    requires Good(tools, fs) && Tidy(tools, fs) && AllFresh(fs) && ElfLast(fs)
    ensures Buildable(fs) && fs.IsFile(ELF) && Read(fs, ELF) == Linked(tools, fs) == Reference(tools, fs)
    ensures forall p :: Source(fs, p) ==> Built(tools, fs, p)
  {
    hide Good, Tidy, AllFresh, ElfLast, Reference, Linked, Stamped, Rooted, InitSource, Compiled, OutFile;
    GoodIsStamped(tools, fs);
    TidyElfIsFile(tools, fs);
    FinishedIsBuilt(tools, fs);
    ElfNeedsInitSource(tools, fs);
    TidyElfIsLinked(tools, fs);
    BuiltIsReference(tools, fs);
    forall p | Source(fs, p)
      ensures fs.IsFile(p) && fs.IsFile(OutFile(p)) && !(ELF < OutFile(p))
    {
      assert Built(tools, fs, p);
      FileIsNotAbove(fs, ELF, OutFile(p));
    }
    forall p, q | Source(fs, p) && Source(fs, q)
      ensures !(OutFile(p) < OutFile(q))
    {
      FileIsNotAbove(fs, OutFile(p), OutFile(q));
    }
  }

  lemma TidyElfIsLinked(tools: Tools, fs: Fs)
    requires Tidy(tools, fs) && AllFresh(fs) && ElfLast(fs) && fs.IsFile(ELF)
    ensures Read(fs, ELF) == Linked(tools, fs)
  {
    hide AllFresh, ElfLast, Linked, ElfDirOlder, InitDirUsed;
  }

  lemma BuildableStays(fs: Fs, fs': Fs)
    requires SameInputs(fs, fs') && Buildable(fs)
    ensures Buildable(fs')
  {
    forall p
      ensures Source(fs, p) <==> Source(fs', p)
      ensures Source(fs, p) ==> fs'.nodes[p] == fs.nodes[p]
    {
      StillSource(fs, fs', p);
    }
    var p :| InitSource(fs, p);
    assert InitSource(fs', p);
  }

  lemma SuccessIsUpToDate(tools: Tools, fs: Fs, faults: Faults)
    requires Good(tools, fs) && Tidy(tools, fs) && RunInit(tools, fs, faults).ok
    ensures UpToDate(tools, fs, RunInit(tools, fs, faults).fs) && Buildable(fs)
    ensures RunInit(tools, fs, faults).fs.IsFile(["build", "bin", "init", "init"])
  {
    hide Good, Tidy, RunInit, Reference, Compiled, Buildable, AllFresh, ElfLast, OutFile, ObjectRight, UpToDate;
    hide Stamped, Rooted, SameInputs, Later;
    GoodIsStamped(tools, fs);
    RunInitFinishes(tools, fs, faults);
    RunInitKeeps(tools, fs, faults);
    var out := RunInit(tools, fs, faults).fs;
    AdvancesKeepsInputs(fs, out);
    FinishedIsBuildable(tools, out);
    SameInputsBack(fs, out);
    BuildableStays(out, fs);
    SameInputsSameReference(tools, fs, out);
    ScriptExists(fs);
    forall p | Source(fs, p)
      ensures ObjectRight(tools, fs, out, p)
    {
      StillSource(fs, out, p);
      BuiltIsRight(tools, fs, out, p);
    }
    LinkIsReference(tools, fs, out);
  }

  lemma SameInputsBack(fs: Fs, fs': Fs)
    requires SameInputs(fs, fs')
    ensures SameInputs(fs', fs)
  {
  }

  // ---- Building from scratch ---------------------------------------------------------------------

  /** Nothing stands in the way of a source's object. */
  ghost predicate Unblocked(fs: Fs, p: Path) {
    CanMake(fs, Parent(OutFile(p))) && !fs.IsDir(OutFile(p))
  }

  ghost predicate Clear(fs: Fs) {
    !fs.IsDir(ELF) && forall p :: Source(fs, p) ==> Unblocked(fs, p)
  }

  /** New directories lie on the way to `o`, and the only new file is `o`. */
  ghost predicate AddsFor(fs: Fs, fs': Fs, o: Path) {
    && (forall x :: fs'.IsDir(x) ==> fs.IsDir(x) || x < o)
    && (forall x :: fs'.IsFile(x) ==> fs.IsFile(x) || x == o)
  }

  lemma AddsKeepClear(fs: Fs, fs': Fs, p: Path)
    requires Buildable(fs) && Clear(fs) && Source(fs, p) && AddsFor(fs, fs', OutFile(p)) && SameInputs(fs, fs')
    ensures Clear(fs')
  {
    hide InitSource, OutFile;
    forall q | Source(fs', q)
      ensures Unblocked(fs', q)
    {
      StillSource(fs, fs', q);
      assert Unblocked(fs, q);
      var d := Parent(OutFile(q));
      forall k | 0 < k <= |d|
        ensures !fs'.IsFile(d[..k])
      {
        assert d[..k] < OutFile(q);
      }
    }
  }

  /** gcc_c succeeds where nothing is in its way. */
  lemma UnblockedSucceeds(tools: Tools, fs: Fs, p: Path)
    requires Stamped(fs) && Rooted(fs) && Source(fs, p) && fs.IsFile(p) && Unblocked(fs, p)
    ensures var r := GccC(tools, fs, p, map[]); r.ok && AddsFor(fs, r.fs, OutFile(p))
  {
    hide Stamped, Rooted, SameInputs, Later, Grows, KeepsElf, CanMake, MkDirs, Fresh, Compiled;
    var o := OutFile(p);
    OutFileIsOutput(p);
    MkDirsAdvances(fs, Parent(o));
    var m := MkDirs(fs, Parent(o));
    AdvancesKeepsInputs(fs, m);
    StillSource(fs, m, p);
    ScriptExists(m);
    FreshIsNotNewer(m, p);
  }

  lemma ClearGccCSucceeds(tools: Tools, fs: Fs, p: Path)
    requires Stamped(fs) && Rooted(fs) && Buildable(fs) && Clear(fs) && Source(fs, p)
    ensures var r := GccC(tools, fs, p, map[]); r.ok && AddsFor(fs, r.fs, OutFile(p))
  {
    hide Stamped, Rooted, GccC, InitSource, Unblocked, OutFile;
    UnblockedSucceeds(tools, fs, p);
  }

  lemma {:induction false} ClearCompileAllSucceeds(tools: Tools, fs: Fs, ps: seq<Path>)
    requires Stamped(fs) && Rooted(fs) && Buildable(fs) && Clear(fs)
    requires forall k :: 0 <= k < |ps| ==> Source(fs, ps[k])
    ensures var r := CompileAll(tools, fs, ps, map[]);
      r.ok && Advances(fs, r.fs) && Buildable(r.fs) && Clear(r.fs)
    decreases |ps|
  {
    hide Stamped, Rooted, Buildable, Clear, GccC, Later, Grows, KeepsElf, Fresh, AddsFor, SameInputs;
    if ps == [] {
      NothingAdvances(fs);
    } else {
      var before, p := ps[..|ps| - 1], ps[|ps| - 1];
      ClearCompileAllSucceeds(tools, fs, before);
      var r := CompileAll(tools, fs, before, map[]);
      StillSource(fs, r.fs, p);
      ClearGccCSucceeds(tools, r.fs, p);
      GccCAdvances(tools, r.fs, p, map[]);
      var r' := GccC(tools, r.fs, p, map[]);
      AddsKeepClear(r.fs, r'.fs, p);
      BuildableStays(r.fs, r'.fs);
      AdvancesTrans(fs, r.fs, r'.fs);
    }
  }

  lemma ElfIsClear(fs: Fs, c: Content)
    requires Buildable(fs) && Clear(fs)
    ensures Clear(Write(fs, ELF, c))
  {
    hide InitSource, Parent, OutFile, CanMake;
    var fs' := Write(fs, ELF, c);
    forall p | Source(fs', p)
      ensures Unblocked(fs', p)
    {
      ElfUnblocks(fs, c, p);
    }
  }

  lemma ElfUnblocks(fs: Fs, c: Content, p: Path)
    requires Clear(fs) && Source(Write(fs, ELF, c), p) && (Source(fs, p) ==> !(ELF < OutFile(p)))
    ensures Unblocked(Write(fs, ELF, c), p)
  {
    var fs' := Write(fs, ELF, c);
    FixedNames();
    OutFileIsOutput(p);
    assert Unblocked(fs, p);
    var d := Parent(OutFile(p));
    forall k | 0 < k <= |d|
      ensures !fs'.IsFile(d[..k])
    {
      assert d[..k] < OutFile(p);
    }
  }

  lemma ClearIsNotRefused(tools: Tools, fs: Fs)
    requires Rooted(fs) && Lists(tools) && Buildable(fs) && Clear(fs) && AllFresh(fs)
    ensures !Refused(fs, Objects(LinkOrder(tools, fs)), ELF)
  {
    hide Rooted, CFiles, Fresh, CanMake, OutFile;
    FreshObjectsExist(tools, fs);
    ListedAreSources(tools, fs);
    FixedNames();
    var p :| InitSource(fs, p);
    InitDirExists(fs, p);
    var ps := LinkOrder(tools, fs);
    forall k | 0 <= k < |ps|
      ensures fs.IsFile(Objects(ps)[k])
    {
      assert Source(fs, ps[k]) && Unblocked(fs, ps[k]);
    }
    assert p in ps;
  }

  lemma ClearLinkSucceeds(tools: Tools, fs: Fs)
    requires Stamped(fs) && Rooted(fs) && Lists(tools) && Buildable(fs) && Clear(fs) && AllFresh(fs)
    ensures var r := InitBody(tools, fs, map[]); r.ok && Clear(r.fs)
  {
    hide Stamped, Rooted, LinkOrder, Linked, Buildable, Clear, AllFresh, ElfLast, Refused, Write;
    LinkDecision(tools, fs);
    ClearIsNotRefused(tools, fs);
    ElfIsClear(fs, Linked(tools, fs));
  }

  lemma InitDirExists(fs: Fs, p: Path)
    requires Rooted(fs) && AllFresh(fs) && InitSource(fs, p)
    ensures fs.IsDir(INIT_DIR)
  {
    hide Rooted;
    OutFileIsOutput(p);
    assert Fresh(fs, p);
    AncestorIsDir(fs, OutFile(p), 3);
    assert OutFile(p)[..3] == INIT_DIR;
  }

  lemma CheckoutIsClear(fs: Fs)
    requires Checkout(fs)
    ensures Clear(fs)
  {
    hide Rooted, Stamped;
    forall p | Source(fs, p)
      ensures Unblocked(fs, p)
    {
      OutFileIsOutput(p);
    }
  }

  /** Where nothing is in the way, a run without faults succeeds, and leaves
      nothing in the way. */
  lemma ClearSucceeds(tools: Tools, fs: Fs)
    requires Stamped(fs) && Rooted(fs) && Lists(tools) && Buildable(fs) && Clear(fs)
    ensures var r := RunInit(tools, fs, map[]); r.ok && Clear(r.fs)
  {
    hide Stamped, Rooted, Buildable, Clear, CFiles, Source, Fresh, SameInputs, Later, Grows, KeepsElf;
    hide InitBody, AllFresh;
    SourcesFreshen(tools, fs, map[]);
    ListedAreSources(tools, fs);
    ClearCompileAllSucceeds(tools, fs, CFiles(tools, fs, "util"));
    var u := LibUtil(tools, fs, map[]);
    ListedAreSources(tools, u.fs);
    ClearCompileAllSucceeds(tools, u.fs, CFiles(tools, u.fs, "init"));
    ClearLinkSucceeds(tools, LibInit(tools, u.fs, map[]).fs);
  }

  /** From a fresh checkout and without faults, init succeeds exactly when there is
      a source in init, only files are listed, and no output lies on the way to
      another. */
  lemma ScratchSucceedsIff(tools: Tools, fs: Fs)
    requires Lists(tools) && Checkout(fs) && NoClash(fs)
    ensures RunInit(tools, fs, map[]).ok <==> Buildable(fs)
  {
    hide RunInit, Buildable, Checkout, NoClash;
    CheckoutIsGood(tools, fs);
    if Buildable(fs) {
      CheckoutIsStamped(fs);
      CheckoutIsClear(fs);
      ClearSucceeds(tools, fs);
    } else if RunInit(tools, fs, map[]).ok {
      SuccessIsUpToDate(tools, fs, map[]);
    }
  }

  function Clean(fs: Fs): Fs {
    fs.(nodes := map p | p in fs.nodes && !Output(p) :: fs.nodes[p])
  }

  lemma CleanIsCheckout(fs: Fs)
    requires Stamped(fs) && Rooted(fs)
    ensures Checkout(Clean(fs)) && SameInputs(fs, Clean(fs))
  {
    var c := Clean(fs);
    FixedNames();
    forall x
      ensures InPlace(c, x)
    {
      assert InPlace(fs, x);
    }
  }

  /** For every history of edits, additions and possibly failing builds from a
      fresh checkout, with no two listed paths sharing an object: if init succeeds
      now, building the same sources from scratch succeeds too, and objects and
      ELF have the same contents. Nothing is in the way then. */
  lemma IncrementalEqualsClean(tools: Tools, start: Fs, history: seq<Event>, faults: Faults)
    requires Lists(tools) && Checkout(start) && AllAllowed(history) && NoDrop(history)
    requires NoClash(Replay(tools, start, history))
    ensures var fs := Replay(tools, start, history);
      var built, clean := RunInit(tools, fs, faults), RunInit(tools, Clean(fs), map[]);
      built.ok ==>
        Buildable(fs) && clean.ok && UpToDate(tools, fs, built.fs) && UpToDate(tools, fs, clean.fs)
  {
    hide Good, Tidy, RunInit, Clean, Checkout, UpToDate, Buildable, NoClash, AllAllowed, NoDrop;
    ReplayKeepsTidy(tools, start, history);
    var fs := Replay(tools, start, history);
    if RunInit(tools, fs, faults).ok {
      GoodIsStamped(tools, fs);
      SuccessIsUpToDate(tools, fs, faults);
      ScratchIsUpToDate(tools, fs);
    }
  }

  lemma ScratchIsUpToDate(tools: Tools, fs: Fs)
    requires Lists(tools) && Stamped(fs) && Rooted(fs) && NoClash(fs) && Buildable(fs)
    ensures var clean := RunInit(tools, Clean(fs), map[]);
      clean.ok && UpToDate(tools, fs, clean.fs)
  {
    hide Good, Tidy, RunInit, Clean, Checkout, Buildable, NoClash, UpToDate, SameInputs;
    var c := Clean(fs);
    CleanIsCheckout(fs);
    SameInputsKeepNoClash(fs, c);
    BuildableStays(fs, c);
    CheckoutIsGood(tools, c);
    ScratchSucceedsIff(tools, c);
    SuccessIsUpToDate(tools, c, map[]);
    UpToDateFor(tools, fs, c, RunInit(tools, c, map[]).fs);
  }
}
