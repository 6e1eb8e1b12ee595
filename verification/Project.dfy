/** project.py in its own form: functions that check times, call gcc and change
    the file system, run in the order the target runner gives them. */
module Project {
  import opened Prelude
  import opened Build
  import T = Targets

  class BuildProcess {
    var nodes: map<Path, Node>
    var clock: nat
    const tools: Tools
    const faults: Faults

    constructor (fs: Fs, tools: Tools, faults: Faults)
      ensures Now() == fs && this.tools == tools && this.faults == faults
    {
      nodes, clock := fs.nodes, fs.clock;
      this.tools, this.faults := tools, faults;
    }

    function Now(): Fs
      reads this
    {
      Fs(nodes, clock)
    }

    /** is_any_newer of target.py; None stands for the exception. */
    method IsAnyNewer(dst: Path, srcs: seq<Path>) returns (r: Option<bool>)
      ensures r == AnyNewer(Now(), dst, srcs)
    {
      if dst !in nodes {
        return Some(true);
      }
      var mtime := nodes[dst].mtime;
      assert srcs[0..] == srcs;
      for k := 0 to |srcs|
        invariant AnyNewer(Now(), dst, srcs) == Scan(Now(), mtime, srcs[k..])
      {
        assert srcs[k..][1..] == srcs[k + 1..];
        if srcs[k] !in nodes {
          return None;
        }
        if nodes[srcs[k]].mtime > mtime {
          return Some(true);
        }
      }
      return Some(false);
    }

    /** Stamps a directory whose entries change. */
    method Touch(d: Path)
      modifies this
      ensures nodes == Touched(old(Now()), d) && clock == old(clock)
    {
      if d in nodes && nodes[d].Dir? {
        nodes := nodes[d := Dir(clock + 1)];
      }
    }

    /** mkdir(parents=True, exist_ok=True), or the exception for a file in the way. */
    method MakeDirs(d: Path) returns (ok: bool)
      modifies this
      ensures ok <==> CanMake(old(Now()), d)
      ensures Now() == if ok then MkDirs(old(Now()), d) else old(Now())
    {
      for k := 1 to |d| + 1
        invariant Now() == old(Now())
        invariant forall j :: 0 < j < k ==> !Now().IsFile(d[..j])
      {
        if d[..k] in nodes && nodes[d[..k]].File? {
          return false;
        }
      }
      MakeMissing(d);
      return true;
    }

    /** Makes the directories on the way first. */
    method MakeMissing(d: Path)
      modifies this
      ensures Now() == MkDirs(old(Now()), d)
      decreases |d|
    {
      if d != [] && d !in nodes {
        MakeMissing(Parent(d));
        Touch(Parent(d));
        clock := clock + 1;
        nodes := nodes[d := Dir(clock)];
      }
    }

    /** Runs gcc: `output` holds `content`, stamped now, or gcc has failed. */
    method RunGcc(inputs: seq<Path>, output: Path, content: Content) returns (ok: bool)
      modifies this
      ensures Result(Now(), ok) == Gcc(old(Now()), inputs, output, content, faults)
    {
      if Refused(Now(), inputs, output) || output in faults {
        if output in faults && faults[output] && output in nodes && nodes[output].File? {
          Touch(Parent(output));
          clock := clock + 1;
          nodes := nodes - {output};
        }
        return false;
      }
      Touch(Parent(output));
      clock := clock + 2;
      nodes := nodes[output := File(content, clock)];
      return true;
    }

    /** gcc_c. */
    method CompileFile(input: Path) returns (ok: bool)
      modifies this
      ensures Result(Now(), ok) == GccC(tools, old(Now()), input, faults)
    {
      var outfile := OutFile(input);
      ok := MakeDirs(Parent(outfile));
      if !ok {
        return;
      }
      var newer := IsAnyNewer(outfile, [input, SCRIPT]);
      match newer
      case None => ok := false;
      case Some(false) => ok := true;
      case Some(true) => ok := RunGcc([input], outfile, Compiled(tools, Now(), input));
    }

    /** The bodies of lib_util and lib_init. */
    method CompileDir(dir: string) returns (ok: bool)
      modifies this
      ensures Result(Now(), ok) == CompileAll(tools, old(Now()), CFiles(tools, old(Now()), dir), faults)
    {
      hide GccC, CFiles;
      var ps := CFiles(tools, Now(), dir);
      ok := true;
      for k := 0 to |ps|
        invariant ok && Result(Now(), ok) == CompileAll(tools, old(Now()), ps[..k], faults)
      {
        assert ps[..k + 1][..k] == ps[..k];
        ok := CompileFile(ps[k]);
        if !ok {
          StopsAt(tools, old(Now()), ps, k + 1, faults);
          return;
        }
      }
      assert ps[..|ps|] == ps;
    }

    /** The body of init. */
    method LinkInit() returns (ok: bool)
      modifies this
      ensures Result(Now(), ok) == InitBody(tools, old(Now()), faults)
    {
      var dependencies := Objects(LinkOrder(tools, Now()));
      var newer := IsAnyNewer(ELF, dependencies);
      match newer
      case None => ok := false;
      case Some(false) => ok := true;
      case Some(true) =>
        ok := RunGcc(dependencies, ELF, Linked(tools, Now()));
    }

    /** The bodies in the order the runner logs them for init. */
    method RunTargets() returns (ok: bool)
      modifies this
      ensures Result(Now(), ok) == RunInit(tools, old(Now()), faults)
    {
      ok := CompileDir("util");
      if ok {
        ok := CompileDir("init");
        if ok {
          ok := LinkInit();
        }
      }
    }
  }

  /** After a failure nothing more is compiled. */
  lemma {:induction false} StopsAt(tools: Tools, fs: Fs, ps: seq<Path>, k: nat, faults: Faults)
    requires k <= |ps| && !CompileAll(tools, fs, ps[..k], faults).ok
    ensures CompileAll(tools, fs, ps, faults) == CompileAll(tools, fs, ps[..k], faults)
    decreases |ps| - k
  {
    if k == |ps| {
      assert ps[..k] == ps;
    } else {
      assert ps[..k + 1][..k] == ps[..k];
      StopsAt(tools, fs, ps, k + 1, faults);
    }
  }

  /** The three targets as project.py defines them. */
  const PROJECT: seq<T.Target> := [
    T.Target("lib_util", [], []),
    T.Target("lib_init", [], []),
    T.Target("init", [T.OnTarget(0), T.OnTarget(1)], [])]

  function Body(i: nat, tools: Tools, fs: Fs, faults: Faults): Result {
    if i == 0 then LibUtil(tools, fs, faults)
    else if i == 1 then LibInit(tools, fs, faults)
    else InitBody(tools, fs, faults)
  }

  function Bodies(log: seq<nat>, tools: Tools, fs: Fs, faults: Faults): Result {
    if log == [] then Result(fs, true)
    else
      var r := Bodies(log[..|log| - 1], tools, fs, faults);
      if r.ok then Body(log[|log| - 1], tools, r.fs, faults) else r
  }

  /** The runner's log for init is lib_util, lib_init, init, and running their
      bodies in the order of that log is the build RunInit describes. */
  lemma InitRunsInLogOrder(tools: Tools, fs: Fs, faults: Faults)
    ensures T.Acyclic(PROJECT)
    ensures T.Visit(PROJECT, 2, []) == [0, 1, 2]
    ensures Bodies(T.Visit(PROJECT, 2, []), tools, fs, faults) == RunInit(tools, fs, faults)
  {
    ProjectNeeds();
    assert T.Visit(PROJECT, 0, []) == [0] && T.Visit(PROJECT, 1, [0]) == [0, 1];
    T.VisitAllAppend(PROJECT, 2, [0], 1, []);
    T.VisitAllAppend(PROJECT, 2, [], 0, []);
    assert [] + [0] == [0] && [0] + [1] == [0, 1] && [0, 1] + [2] == [0, 1, 2];
    BodiesOfThree(tools, fs, faults);
  }

  lemma ProjectNeeds()
    ensures T.Needs(PROJECT[0]) == [] && T.Needs(PROJECT[1]) == [] && T.Needs(PROJECT[2]) == [0, 1]
    ensures T.Acyclic(PROJECT)
  {
    T.DependTwo(0, 1);
    NeedsAre(PROJECT[0], []);
    NeedsAre(PROJECT[1], []);
    NeedsAre(PROJECT[2], [0, 1]);
  }

  lemma NeedsAre(t: T.Target, ns: seq<nat>)
    requires t.calls == [] && T.DependTargets(t.depends) == ns
    ensures T.Needs(t) == ns
  {
    hide T.DependTargets;
    assert ns + [] == ns;
  }

  lemma BodiesOfThree(tools: Tools, fs: Fs, faults: Faults)
    ensures Bodies([0, 1, 2], tools, fs, faults) == RunInit(tools, fs, faults)
  {
    hide Body, LibUtil, LibInit, InitBody;
    assert [0, 1, 2][..2] == [0, 1] && [0, 1][..1] == [0] && [0][..0] == [];
    assert Bodies([0], tools, fs, faults) == Body(0, tools, fs, faults);
    BodyCases(tools, faults);
  }

  lemma BodyCases(tools: Tools, faults: Faults)
    ensures forall fs :: Body(0, tools, fs, faults) == LibUtil(tools, fs, faults)
    ensures forall fs :: Body(1, tools, fs, faults) == LibInit(tools, fs, faults)
    ensures forall fs :: Body(2, tools, fs, faults) == InitBody(tools, fs, faults)
  {
    hide LibUtil, LibInit, InitBody;
  }
}
