/** A history after which init succeeds with a directory where the ELF should be. */
module DirectoryElf {
  import opened Build
  import opened BuildProofs
  import opened BuildContents
  import opened CleanBuild
  import opened Checkouts
  import opened Deletions

  /** Tools that list MAIN first. */
  ghost predicate MainFirst(tools: Tools) {
    forall S: set<Path> :: MAIN in S ==> tools.list(S) == [MAIN] + Enumerate(S - {MAIN})
  }

  lemma MainFirstTools() returns (tools: Tools)
    ensures Lists(tools) && MainFirst(tools)
  {
    tools := Tools(
      (x, c, s) => c,
      (cs, s) => "",
      S => (if MAIN in S then [MAIN] else []) + Enumerate(S - {MAIN}));
  }

  /** Nothing but MAIN and `p` is listed, and `p` asks for the ELF to be a directory. */
  ghost predicate TwoListed(fs: Fs, p: Path) {
    && Stamped(fs) && Rooted(fs) && ListsOnly(fs, {MAIN, p})
    && fs.IsFile(MAIN) && fs.IsFile(p) && IsSource(p) && ELF < OutFile(p)
  }

  lemma BelowElfIsInit(p: Path)
    requires IsSource(p) && ELF < OutFile(p)
    ensures InDir("init", p) && !InDir("util", p) && p != MAIN && OutFile(p) != OutFile(MAIN)
    ensures |OutFile(p)| > 4 && OutFile(p)[..4] == ELF
  {
    OutFileIsOutput(p);
    MainIsUnlisted();
    assert ELF[2] == OutFile(p)[2];
  }

  lemma OneEnumerated(S: set<Path>, p: Path)
    requires S == {p}
    ensures Enumerate(S) == [p]
  {
    var ps := Enumerate(S);
    assert |ps| == 1 && ps[0] in ps;
  }

  lemma ListedInInit(fs: Fs, p: Path)
    requires TwoListed(fs, p)
    ensures (set x | x in fs.nodes && InDir("init", x)) == {MAIN, p}
    ensures (set x | x in fs.nodes && InDir("util", x)) == {}
  {
    hide Stamped, Rooted, OutFile, InDir;
    BelowElfIsInit(p);
    MainInInit();
    assert Source(fs, MAIN) && Source(fs, p);
    forall x | x in fs.nodes && (InDir("init", x) || InDir("util", x))
      ensures x == MAIN || x == p
    {
      assert Source(fs, x);
    }
  }

  lemma MainInInit()
    ensures InDir("init", MAIN) && !InDir("util", MAIN) && IsSource(MAIN)
  {
    MainIsUnlisted();
  }

  lemma ListsMainThenIt(tools: Tools, fs: Fs, p: Path)
    requires TwoListed(fs, p) && Lists(tools) && MainFirst(tools)
    ensures CFiles(tools, fs, "util") == [] && CFiles(tools, fs, "init") == [MAIN, p]
  {
    hide TwoListed, InDir, Enumerate, Lists, MainFirst;
    ListedInInit(fs, p);
    TwoDiffer(fs, p);
    ListOfTwo(tools, p);
    ListOfNone(tools);
  }

  lemma ListOfTwo(tools: Tools, p: Path)
    requires MainFirst(tools) && p != MAIN
    ensures tools.list({MAIN, p}) == [MAIN, p]
  {
    ListOfPair(tools.list, MAIN, p);
  }

  lemma ListOfPair(list: set<Path> -> seq<Path>, m: Path, p: Path)
    requires m != p && list({m, p}) == [m] + Enumerate({m, p} - {m})
    ensures list({m, p}) == [m, p]
  {
    hide Enumerate;
    assert {m, p} - {m} == {p};
    OneEnumerated({m, p} - {m}, p);
  }

  lemma ListOfNone(tools: Tools)
    requires Lists(tools)
    ensures tools.list({}) == []
  {
    NoMembers(tools.list({}));
  }

  lemma TwoDiffer(fs: Fs, p: Path)
    requires TwoListed(fs, p)
    ensures p != MAIN
  {
    BelowElfIsInit(p);
  }

  lemma NoMembers(ps: seq<Path>)
    ensures ps == [] || ps[0] in ps
  {
  }

  lemma MainNotAbove(p: Path)
    requires IsSource(p) && ELF < OutFile(p)
    ensures !(OutFile(MAIN) <= OutFile(p))
  {
    MainIsUnlisted();
    assert OutFile(p)[3] == ELF[3] == "init" && OutFile(MAIN)[3] == "init.o";
  }

  lemma CompileTwo(tools: Tools, fs: Fs, p: Path, q: Path, faults: Faults)
    requires GccC(tools, fs, p, faults).ok
    ensures CompileAll(tools, fs, [p, q], faults) == GccC(tools, GccC(tools, fs, p, faults).fs, q, faults)
  {
    hide GccC;
    assert [p, q][..1] == [p] && [p][..0] == [];
    assert CompileAll(tools, fs, [p], faults) == GccC(tools, fs, p, faults);
  }

  /** After MAIN is compiled nothing is in the way of the other object yet. */
  lemma StillUnblocked(fs: Fs, a: Fs, p: Path)
    requires Unblocked(fs, p) && AddsFor(fs, a, OutFile(MAIN)) && IsSource(p) && ELF < OutFile(p) && ELF !in fs.nodes
    ensures Unblocked(a, p) && ELF !in a.nodes
  {
    MainIsUnlisted();
    BelowElfIsInit(p);
    MainNotAbove(p);
    var d := Parent(OutFile(p));
    forall k | 0 < k <= |d|
      ensures !a.IsFile(d[..k])
    {
      assert d[..k] <= OutFile(p);
    }
    assert a.IsFile(ELF) || a.IsDir(ELF) || ELF !in a.nodes;
  }

  /** What the compilations make of the ELF: a directory newer than MAIN's object. */
  lemma CompiledBelow(tools: Tools, fs: Fs, p: Path) returns (b: Fs)
    requires TwoListed(fs, p) && Checkout(fs)
    ensures var a := GccC(tools, fs, MAIN, map[]);
      a.ok && GccC(tools, a.fs, p, map[]) == Result(b, true)
    ensures Advances(fs, b) && b.IsDir(ELF) && NotNewer(b, MAIN) && Fresh(b, MAIN)
  {
    hide Stamped, Rooted, GccC, Later, SameInputs, Grows;
    hide KeepsElf, OutFile, CanMake, Unblocked, AddsFor, IsSource, Fresh;
    MainIsUnlisted();
    BelowElfIsInit(p);
    CheckoutIsClear(fs);
    FixedNames();
    assert Source(fs, MAIN) && Source(fs, p) && ELF !in fs.nodes;
    UnblockedSucceeds(tools, fs, MAIN);
    GccCAdvances(tools, fs, MAIN, map[]);
    var a := GccC(tools, fs, MAIN, map[]).fs;
    AdvancesKeepsInputs(fs, a);
    StillSource(fs, a, MAIN);
    StillSource(fs, a, p);
    StillUnblocked(fs, a, p);
    UnblockedSucceeds(tools, a, p);
    GccCAdvances(tools, a, p, map[]);
    b := GccC(tools, a, p, map[]).fs;
    AdvancesTrans(fs, a, b);
    AdvancesKeepsInputs(a, b);
    StillFresh(a, b, MAIN);
    ElfIsNewer(tools, a, b, p);
  }

  lemma ElfIsNewer(tools: Tools, a: Fs, b: Fs, p: Path)
    requires Stamped(a) && Rooted(a) && Source(a, p) && ELF < OutFile(p) && ELF !in a.nodes && Fresh(a, MAIN)
    requires b == GccC(tools, a, p, map[]).fs && Advances(a, b) && Grows(a, b) && Fresh(b, p)
    ensures b.IsDir(ELF) && (a.IsFile(OutFile(MAIN)) || Fresh(b, MAIN) ==> NotNewer(b, MAIN))
  {
    hide GccC, SameInputs, Rooted, OutFile;
    BelowElfIsInit(p);
    FreshHasObject(b, p);
    FreshHasObject(a, MAIN);
    AncestorIsDir(b, OutFile(p), 4);
    MainObjectStays(tools, a, p);
  }

  lemma MainObjectStays(tools: Tools, a: Fs, p: Path)
    requires Stamped(a) && Rooted(a) && Source(a, p) && ELF < OutFile(p) && OutFile(MAIN) in a.nodes
    ensures var b := GccC(tools, a, p, map[]).fs;
      OutFile(MAIN) in b.nodes && b.nodes[OutFile(MAIN)].mtime <= a.nodes[OutFile(MAIN)].mtime
  {
    hide Stamped, Rooted, SameInputs, Later, KeepsElf, CanMake, MkDirs, Compiled;
    MainIsUnlisted();
    BelowElfIsInit(p);
    var d := Parent(OutFile(p));
    OutFileIsOutput(p);
    MainNotAbove(p);
    if CanMake(a, d) {
      MkDirsAdvances(a, d);
      var m := MkDirs(a, d);
      assert OutFile(MAIN) in m.nodes && m.nodes[OutFile(MAIN)] == a.nodes[OutFile(MAIN)];
    }
  }

  /** A link that finds a directory in place of the ELF changes nothing. */
  lemma DirElfIsNotLinked(tools: Tools, fs: Fs)
    requires fs.IsDir(ELF)
    ensures InitBody(tools, fs, map[]).fs == fs
  {
  }

  lemma FirstRun(tools: Tools, start: Fs, p: Path)
    requires TwoListed(start, p) && Checkout(start) && Lists(tools) && MainFirst(tools)
    ensures var fs := RunInit(tools, start, map[]).fs;
      Advances(start, fs) && fs.IsDir(ELF) && NotNewer(fs, MAIN) && Fresh(fs, MAIN)
  {
    hide TwoListed, Checkout, MainFirst, CFiles, GccC, InitBody, Stamped, Rooted, Later, SameInputs, Fresh;
    ListsMainThenIt(tools, start, p);
    var b := CompiledBelow(tools, start, p);
    CompileTwo(tools, start, MAIN, p, map[]);
    assert LibUtil(tools, start, map[]) == Result(start, true);
    DirElfIsNotLinked(tools, b);
  }

  lemma AfterDrop(start: Fs, fs: Fs, p: Path)
    requires TwoListed(start, p) && Advances(start, fs) && fs.IsDir(ELF) && NotNewer(fs, MAIN) && Fresh(fs, MAIN)
    ensures var gone := Delete(fs, p);
      Stamped(gone) && Rooted(gone) && gone.IsDir(ELF) && LooksDone(gone) && Source(gone, MAIN)
  {
    hide Later, OutFile, Outside;
    MainIsUnlisted();
    BelowElfIsInit(p);
    var gone := Delete(fs, p);
    AdvancesKeepsInputs(start, fs);
    KeepsListed(start, fs, {MAIN, p});
    StillSource(start, fs, p);
    StillSource(start, fs, MAIN);
    DeleteIsOutside(fs, p);
    OutsideIsRooted(fs, gone);
    DeletedRest(fs, p);
    forall x | Source(gone, x)
      ensures x == MAIN
    {
      assert Source(fs, x);
    }
  }

  lemma OutsideIsRooted(fs: Fs, fs': Fs)
    requires Outside(fs, fs')
    ensures Stamped(fs') && Rooted(fs')
  {
  }

  /** Deleting `p` leaves MAIN, the script and every output as they are. */
  lemma DeletedRest(fs: Fs, p: Path)
    requires Rooted(fs) && IsSource(p) && fs.IsFile(p) && fs.IsFile(MAIN) && fs.IsFile(SCRIPT) && p != MAIN
    ensures var gone := Delete(fs, p);
      && p !in gone.nodes && (forall x :: x in gone.nodes ==> x in fs.nodes)
      && MAIN in gone.nodes && gone.nodes[MAIN] == fs.nodes[MAIN]
      && SCRIPT in gone.nodes && gone.nodes[SCRIPT] == fs.nodes[SCRIPT]
      && forall x :: Output(x) && x in fs.nodes ==> x in gone.nodes && gone.nodes[x] == fs.nodes[x]
  {
    hide Rooted;
    OutFileOrScript(p);
    assert Parent(p)[0] == p[0];
  }

  /** For every source below init/init in directories that are not listed: build a
      checkout of it and MAIN, delete it, and init succeeds without doing anything
      and without an ELF. */
  lemma SuccessWithoutElf(p: Path) returns (tools: Tools, start: Fs, history: seq<Event>)
    requires Unlisted(p) && ELF < OutFile(p)
    ensures Lists(tools) && Checkout(start) && AllAllowed(history) && NeverClash(tools, start, history)
    ensures var fs := Replay(tools, start, history);
      && Source(fs, MAIN) && fs.IsDir(ELF)
      && forall faults :: RunInit(tools, fs, faults) == Result(fs, true)
  {
    hide RunInit, Delete, TwoListed, MainFirst, Laid, Stamped, Rooted, OutFile, LooksDone, Unlisted, SameInputs, Later;
    hide Fresh, NotNewer, Checkout, IsSource;
    tools := MainFirstTools();
    MainIsUnlisted();
    var ps := [MAIN, p];
    assert MAIN in ps && p in ps;
    start := LayOut(ps);
    LaidTwo(start, p);
    history := [Run(map[]), Drop(p)];
    FirstRun(tools, start, p);
    var one := RunInit(tools, start, map[]).fs;
    AfterDrop(start, one, p);
    ReplayDrop(tools, start, history, p);
    var fs := Delete(one, p);
    TwoNeverClash(tools, start, history, p);
    forall faults
      ensures RunInit(tools, fs, faults) == Result(fs, true)
    {
      DoneMeans(fs);
      DoneIsIdle(tools, fs, faults);
    }
  }

  lemma DoneMeans(fs: Fs)
    requires LooksDone(fs)
    ensures AllFresh(fs) && ElfLast(fs)
  {
  }

  lemma LaidTwo(start: Fs, p: Path)
    requires Laid(start, Members([MAIN, p])) && start.IsFile(MAIN) && start.IsFile(p) && Unlisted(p) && ELF < OutFile(p)
    ensures Checkout(start) && TwoListed(start, p) && IsSource(p)
  {
    hide OutFile, Stamped, Rooted;
    LaidIsCheckout(start, Members([MAIN, p]));
    assert Members([MAIN, p]) == {MAIN, p};
    CheckoutIsStamped(start);
  }

  lemma ReplayDrop(tools: Tools, start: Fs, history: seq<Event>, p: Path)
    requires history == [Run(map[]), Drop(p)]
    ensures Replay(tools, start, history) == Delete(RunInit(tools, start, map[]).fs, p)
    ensures Replay(tools, start, history[..1]) == RunInit(tools, start, map[]).fs
    ensures Replay(tools, start, history[..0]) == start
  {
    hide RunInit, Delete;
    var first := history[..1];
    assert first == [Run(map[])] && first[..0] == [] && history[..0] == [];
    assert Replay(tools, start, first) == RunInit(tools, start, map[]).fs;
  }

  lemma TwoAreApart(fs: Fs, p: Path)
    requires ListsOnly(fs, {MAIN, p}) && IsSource(p) && ELF < OutFile(p)
    ensures NoClash(fs)
  {
    hide OutFile, IsSource;
    BelowElfIsInit(p);
  }

  lemma TwoNeverClash(tools: Tools, start: Fs, history: seq<Event>, p: Path)
    requires history == [Run(map[]), Drop(p)] && TwoListed(start, p)
    requires Advances(start, RunInit(tools, start, map[]).fs)
    ensures NeverClash(tools, start, history)
  {
    hide OutFile, RunInit, Stamped, Rooted, Later, IsSource, NoClash, SameInputs, Outside;
    ReplayDrop(tools, start, history, p);
    var one := RunInit(tools, start, map[]).fs;
    AdvancesKeepsInputs(start, one);
    KeepsListed(start, one, {MAIN, p});
    TwoAreApart(start, p);
    TwoAreApart(one, p);
    DeleteIsOutside(one, p);
    FewerListed(one, Delete(one, p), {MAIN, p});
    TwoAreApart(Delete(one, p), p);
    assert history[..2] == history;
  }

  lemma FewerListed(fs: Fs, fs': Fs, S: set<Path>)
    requires ListsOnly(fs, S) && forall x :: x in fs'.nodes ==> x in fs.nodes
    ensures ListsOnly(fs', S)
  {
  }
}
