/** The incremental build of buildscript/targets/project.py: a file system whose
    files and directories carry their modification times, and the targets
    lib_util, lib_init and init as what they do to it. */
module Build {
  import opened Prelude

  /** The components of a path below the root of the project. */
  type Path = seq<string>
  type Content = string

  datatype Node = File(content: Content, mtime: nat) | Dir(mtime: nat)

  /** `clock` is the latest stamp given so far. */
  datatype Fs = Fs(nodes: map<Path, Node>, clock: nat)
  {
    predicate IsFile(p: Path) {
      p in nodes && nodes[p].File?
    }

    predicate IsDir(p: Path) {
      p in nodes && nodes[p].Dir?
    }
  }

  /** What the build calls: the compiler, from a source's path and content and
      the script that holds its flags; the linker, from objects in order and the
      script; and the order in which a directory lists a set of paths. */
  datatype Tools = Tools(
    cc: (Path, Content, Content) -> Content,
    ld: (seq<Content>, Content) -> Content,
    list: set<Path> -> seq<Path>)

  ghost predicate Lists(tools: Tools) {
    forall S: set<Path>, p: Path :: p in tools.list(S) <==> p in S
  }

  // ---- Names ----------------------------------------------------------------------

  const SCRIPT: Path := ["buildscript", "targets", "project.py"]
  const INIT_DIR: Path := ["build", "bin", "init"]
  const ELF: Path := ["build", "bin", "init", "init"]

  function Parent(p: Path): Path {
    if p == [] then [] else p[..|p| - 1]
  }

  function Name(p: Path): string {
    if p == [] then "" else p[|p| - 1]
  }

  /** Everything a build writes lies here. */
  predicate Output(p: Path) {
    p != [] && p[0] == "build"
  }

  predicate EndsInC(name: string) {
    |name| >= 2 && name[|name| - 2..] == ".c"
  }

  // What the recursive glob for .c files lists below `dir` if it exists: any file,
  // and any directory, with such a name.
  predicate InDir(dir: string, p: Path) {
    |p| >= 2 && p[0] == dir && EndsInC(Name(p))
  }

  predicate IsSource(p: Path) {
    InDir("init", p) || InDir("util", p)
  }

  /** with_suffix('.o') on a name that ends in .c: a dot that starts the name
      starts no suffix, and then there is none to replace. */
  function ObjectName(name: string): string {
    if |name| > 2 then name[..|name| - 2] + ".o" else name + ".o"
  }

  function OutFile(p: Path): (o: Path)
    ensures |o| > 2 && Output(o)
  {
    ["build", "bin"] + Parent(p) + [ObjectName(Name(p))]
  }

  // ---- Writing ----------------------------------------------------------------------

  /** A new or removed entry stamps the directory it is in. */
  function Touched(fs: Fs, d: Path): map<Path, Node> {
    if fs.IsDir(d) then fs.nodes[d := Dir(fs.clock + 1)] else fs.nodes
  }

  function MakeDir(fs: Fs, d: Path): Fs {
    Fs(Touched(fs, Parent(d))[d := Dir(fs.clock + 1)], fs.clock + 1)
  }

  /** A file is written after its entry was made: its stamp is later than that of
      its directory. */
  function Write(fs: Fs, p: Path, c: Content): Fs {
    Fs(Touched(fs, Parent(p))[p := File(c, fs.clock + 2)], fs.clock + 2)
  }

  function Remove(fs: Fs, p: Path): Fs {
    Fs(Touched(fs, Parent(p)) - {p}, fs.clock + 1)
  }

  /** mkdir(parents=True, exist_ok=True) raises if a file is in the way. */
  predicate CanMake(fs: Fs, d: Path) {
    forall k :: 0 < k <= |d| ==> !fs.IsFile(d[..k])
  }

  function MkDirs(fs: Fs, d: Path): Fs
    decreases |d|
  {
    if d == [] || d in fs.nodes then fs else MakeDir(MkDirs(fs, Parent(d)), d)
  }

  /** The content of a file, where there is one. */
  function Read(fs: Fs, p: Path): Content {
    if fs.IsFile(p) then fs.nodes[p].content else ""
  }

  // ---- Is it newer? -------------------------------------------------------------------

  /** is_any_newer; None is the exception for a source that does not exist. */
  function AnyNewer(fs: Fs, dst: Path, srcs: seq<Path>): Option<bool> {
    if dst !in fs.nodes then Some(true) else Scan(fs, fs.nodes[dst].mtime, srcs)
  }

  function Scan(fs: Fs, mtime: nat, srcs: seq<Path>): Option<bool> {
    if srcs == [] then Some(false)
    else if srcs[0] !in fs.nodes then None
    else if fs.nodes[srcs[0]].mtime > mtime then Some(true)
    else Scan(fs, mtime, srcs[1..])
  }

  // ---- Compiling and linking ------------------------------------------------------------

  datatype Result = Result(fs: Fs, ok: bool)

  /** Outputs whose gcc fails in this run, and whether it deletes the old one. */
  type Faults = map<Path, bool>

  predicate AllFiles(fs: Fs, ps: seq<Path>) {
    forall k :: 0 <= k < |ps| ==> fs.IsFile(ps[k])
  }

  /** An input that is no file, or an output that cannot be opened. A link of no
      objects is not refused: gcc is always given its own library as well. */
  predicate Refused(fs: Fs, inputs: seq<Path>, out: Path) {
    !AllFiles(fs, inputs) || fs.IsDir(out) || !fs.IsDir(Parent(out))
  }

  /** gcc: writes `c` to `out`, or fails. */
  function Gcc(fs: Fs, inputs: seq<Path>, out: Path, c: Content, faults: Faults): Result {
    if Refused(fs, inputs, out) || out in faults
    then Result(if out in faults && faults[out] && fs.IsFile(out) then Remove(fs, out) else fs, false)
    else Result(Write(fs, out, c), true)
  }

  function Compiled(tools: Tools, fs: Fs, p: Path): Content {
    tools.cc(p, Read(fs, p), Read(fs, SCRIPT))
  }

  function GccC(tools: Tools, fs: Fs, p: Path, faults: Faults): Result {
    var o := OutFile(p);
    if !CanMake(fs, Parent(o)) then Result(fs, false)
    else
      var made := MkDirs(fs, Parent(o));
      match AnyNewer(made, o, [p, SCRIPT])
      case None => Result(made, false)
      case Some(false) => Result(made, true)
      case Some(true) => Gcc(made, [p], o, Compiled(tools, made, p), faults)
  }

  /** c_files. */
  function CFiles(tools: Tools, fs: Fs, dir: string): seq<Path> {
    tools.list(set p | p in fs.nodes && InDir(dir, p))
  }

  /** The loop of lib_util and lib_init. */
  function CompileAll(tools: Tools, fs: Fs, ps: seq<Path>, faults: Faults): Result {
    if ps == [] then Result(fs, true)
    else
      var r := CompileAll(tools, fs, ps[..|ps| - 1], faults);
      if r.ok then GccC(tools, r.fs, ps[|ps| - 1], faults) else r
  }

  function Objects(ps: seq<Path>): (os: seq<Path>)
    ensures |os| == |ps| && forall k :: 0 <= k < |ps| ==> os[k] == OutFile(ps[k])
  {
    seq(|ps|, k requires 0 <= k < |ps| => OutFile(ps[k]))
  }

  function Contents(fs: Fs, os: seq<Path>): (cs: seq<Content>)
    ensures |cs| == |os| && forall k :: 0 <= k < |os| ==> cs[k] == Read(fs, os[k])
  {
    seq(|os|, k requires 0 <= k < |os| => Read(fs, os[k]))
  }

  /** The order in which init links: out_for('init', 'util'). */
  function LinkOrder(tools: Tools, fs: Fs): seq<Path> {
    CFiles(tools, fs, "init") + CFiles(tools, fs, "util")
  }

  function Linked(tools: Tools, fs: Fs): Content {
    tools.ld(Contents(fs, Objects(LinkOrder(tools, fs))), Read(fs, SCRIPT))
  }

  /** init's body. */
  function InitBody(tools: Tools, fs: Fs, faults: Faults): Result {
    var os := Objects(LinkOrder(tools, fs));
    match AnyNewer(fs, ELF, os)
    case None => Result(fs, false)
    case Some(false) => Result(fs, true)
    case Some(true) => Gcc(fs, os, ELF, Linked(tools, fs), faults)
  }

  function LibUtil(tools: Tools, fs: Fs, faults: Faults): Result {
    CompileAll(tools, fs, CFiles(tools, fs, "util"), faults)
  }

  function LibInit(tools: Tools, fs: Fs, faults: Faults): Result {
    CompileAll(tools, fs, CFiles(tools, fs, "init"), faults)
  }

  /** The target init in a fresh process: its two dependencies, then its body. */
  function RunInit(tools: Tools, fs: Fs, faults: Faults): Result {
    var r := LibUtil(tools, fs, faults);
    if !r.ok then r
    else
      var r' := LibInit(tools, r.fs, faults);
      if !r'.ok then r' else InitBody(tools, r'.fs, faults)
  }

  // ---- Which sources share an object ------------------------------------------------------

  predicate SplitName(p: Path, q: Path) {
    Name(p) == ".c" && Name(q) == ".c.c"
  }

  lemma ObjectNameInjective(a: string, b: string)
    requires EndsInC(a) && EndsInC(b)
    ensures ObjectName(a) == ObjectName(b) <==> a == b || (a == ".c" && b == ".c.c") || (a == ".c.c" && b == ".c")
  {
    var x, y := ObjectName(a), ObjectName(b);
    assert a == a[..|a| - 2] + ".c" && b == b[..|b| - 2] + ".c";
    assert x[..|x| - 2] == (if |a| > 2 then a[..|a| - 2] else a);
    assert y[..|y| - 2] == (if |b| > 2 then b[..|b| - 2] else b);
  }

  /** Two sources share an object file exactly when they are the same, or are the
      files `.c` and `.c.c` of one directory. */
  lemma OutFileInjective(p: Path, q: Path)
    requires IsSource(p) && IsSource(q)
    ensures OutFile(p) == OutFile(q) <==>
      p == q || (Parent(p) == Parent(q) && (SplitName(p, q) || SplitName(q, p)))
  {
    hide ObjectName, OutFile;
    ObjectNameInjective(Name(p), Name(q));
    OutFileParts(p, q);
  }

  lemma OutFileParts(p: Path, q: Path)
    requires p != [] && q != []
    ensures OutFile(p) == OutFile(q) <==> Parent(p) == Parent(q) && ObjectName(Name(p)) == ObjectName(Name(q))
    ensures p == q <==> Parent(p) == Parent(q) && Name(p) == Name(q)
  {
    hide ObjectName;
    var a, b := OutFile(p), OutFile(q);
    assert p == Parent(p) + [Name(p)] && q == Parent(q) + [Name(q)];
    assert a[2..|a| - 1] == Parent(p) && a[|a| - 1] == ObjectName(Name(p));
    assert b[2..|b| - 1] == Parent(q) && b[|b| - 1] == ObjectName(Name(q));
  }

  /** Where a source's object lies, and what it cannot be. */
  lemma OutFileIsOutput(p: Path)
    requires IsSource(p)
    ensures var o := OutFile(p);
      && |o| == |p| + 2 && o[2] == p[0] && Parent(o) == ["build", "bin"] + Parent(p)
      && o != ELF && o != INIT_DIR && !(o <= ELF)
    ensures !Output(p) && p != SCRIPT
  {
    var o := OutFile(p);
    var name := ObjectName(Name(p));
    assert o[|o| - 1] == name && name[|name| - 1] == 'o';
    assert ELF[3] == "init" && "init"[3] == 't' && INIT_DIR[2] == "init";
  }

  lemma FixedNames()
    ensures Output(ELF) && Parent(ELF) == INIT_DIR && !Output(SCRIPT) && !IsSource(SCRIPT)
    ensures Parent(INIT_DIR) == ["build", "bin"]
  {
  }
}
