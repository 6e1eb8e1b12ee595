/** Small checkouts to start a history from. */
module Checkouts {
  import opened Build
  import opened BuildProofs
  import opened CleanBuild

  /** A source in no directory that is listed itself. */
  ghost predicate Unlisted(p: Path) {
    IsSource(p) && forall k :: 0 < k < |p| ==> !IsSource(p[..k])
  }

  ghost predicate ListsOnly(fs: Fs, S: set<Path>) {
    forall x :: Source(fs, x) ==> x in S
  }

  lemma OutFileOrScript(p: Path)
    requires IsSource(p) || p == SCRIPT
    ensures Parent(p) != [] && !Output(Parent(p)) && |p| > 1 && !Output(p)
  {
  }

  lemma SaveAdds(fs: Fs, p: Path, c: Content, x: Path)
    requires Stamped(fs) && Rooted(fs) && (IsSource(p) || p == SCRIPT) && x in Save(fs, p, c).nodes
    ensures x in fs.nodes || x <= p
  {
    hide Stamped, Rooted, Later, SameOutputs, Grows, CanMake, MkDirs;
    OutFileOrScript(p);
    if CanMake(fs, Parent(p)) && !fs.IsDir(p) {
      MkDirsOutside(fs, Parent(p));
      var m := MkDirs(fs, Parent(p));
      assert x == p || x in m.nodes;
    }
  }

  /** Plain files, among `S` and the script, in directories that are not listed. */
  ghost predicate Laid(fs: Fs, S: set<Path>) {
    && Stamped(fs) && Rooted(fs)
    && (forall x :: x in fs.nodes ==> !Output(x))
    && (forall x :: fs.IsFile(x) ==> x == SCRIPT || x in S)
    && (forall x :: fs.IsDir(x) ==> !IsSource(x))
  }

  function Empty(): Fs {
    Fs(map[["buildscript"] := Dir(0), ["buildscript", "targets"] := Dir(0), SCRIPT := File("", 0)], 0)
  }

  lemma EmptyIsLaid()
    ensures Laid(Empty(), {})
  {
    var fs := Empty();
    assert Parent(SCRIPT) == ["buildscript", "targets"] && Parent(["buildscript", "targets"]) == ["buildscript"];
    forall x
      ensures InPlace(fs, x)
    {
    }
  }

  lemma SaveLays(fs: Fs, S: set<Path>, p: Path)
    requires Laid(fs, S) && Unlisted(p) && forall s :: s in S ==> Unlisted(s)
    ensures var fs' := Save(fs, p, "");
      Laid(fs', S + {p}) && fs'.IsFile(p) && forall x :: fs.IsFile(x) ==> fs'.IsFile(x)
  {
    hide Stamped, Rooted, Later, SameOutputs, CanMake, MkDirs, OutFile;
    var d := Parent(p);
    OutFileOrScript(p);
    assert CanMake(fs, d) by { WayIsOpen(fs, S, p); }
    MkDirsOutside(fs, d);
    var m := MkDirs(fs, d);
    StillNoDir(fs, m, p);
    WroteOutside(m, p, "");
    SaveIsOutside(fs, p, "");
    var fs' := Write(m, p, "");
    forall x | x in fs'.nodes
      ensures !Output(x) && (fs'.IsFile(x) ==> x == SCRIPT || x in S + {p}) && (fs'.IsDir(x) ==> !IsSource(x))
    {
      NotRoot(fs', x);
      NewNodeIsUnlisted(fs, m, p, x);
    }
  }

  lemma NotRoot(fs: Fs, x: Path)
    requires Rooted(fs) && x in fs.nodes
    ensures x != []
  {
    assert InPlace(fs, x);
  }

  lemma WayIsOpen(fs: Fs, S: set<Path>, p: Path)
    requires Laid(fs, S) && Unlisted(p) && forall s :: s in S ==> Unlisted(s)
    ensures CanMake(fs, Parent(p)) && !fs.IsDir(p)
  {
    hide Stamped, Rooted, OutFile;
    var d := Parent(p);
    forall k | 0 < k <= |d|
      ensures !fs.IsFile(d[..k])
    {
      assert d[..k] == p[..k] && p[..k][0] == p[0] && SCRIPT[0] == "buildscript";
    }
  }

  lemma NewNodeIsUnlisted(fs: Fs, m: Fs, p: Path, x: Path)
    requires Unlisted(p) && AlongPath(fs, m, Parent(p)) && x in Write(m, p, "").nodes && x != []
    ensures x in fs.nodes || (!Output(x) && (x == p || !IsSource(x)))
    ensures Write(m, p, "").IsFile(x) ==> x == p || fs.IsFile(x)
    ensures Write(m, p, "").IsDir(x) ==> x != p && (fs.IsDir(x) || x <= Parent(p))
    ensures x <= Parent(p) ==> !IsSource(x)
  {
    hide OutFile;
    if x <= Parent(p) {
      assert x == p[..|x|] && x[0] == p[0];
    }
  }

  function Members(ps: seq<Path>): set<Path> {
    set s | s in ps
  }

  lemma AddLaid(fs: Fs, ps: seq<Path>, p: Path) returns (fs': Fs)
    requires Laid(fs, Members(ps)) && Unlisted(p) && forall s :: s in ps ==> Unlisted(s) && fs.IsFile(s)
    ensures Laid(fs', Members(ps + [p])) && forall s :: s in ps + [p] ==> Unlisted(s) && fs'.IsFile(s)
  {
    hide Unlisted, Save, Laid;
    fs' := Save(fs, p, "");
    SaveLays(fs, Members(ps), p);
    assert Members(ps + [p]) == Members(ps) + {p};
  }

  /** A checkout of the files `ps`, and no other source. */
  lemma {:induction false} LayOut(ps: seq<Path>) returns (start: Fs)
    requires forall s :: s in ps ==> Unlisted(s)
    ensures Laid(start, Members(ps)) && forall s :: s in ps ==> Unlisted(s) && start.IsFile(s)
    decreases |ps|
  {
    hide Unlisted, Laid;
    if ps == [] {
      EmptyIsLaid();
      start := Empty();
      assert Members(ps) == {};
    } else {
      var before, p := ps[..|ps| - 1], ps[|ps| - 1];
      start := LayOut(before);
      start := AddLaid(start, before, p);
      assert before + [p] == ps;
    }
  }

  lemma LaidIsCheckout(fs: Fs, S: set<Path>)
    requires Laid(fs, S)
    ensures Checkout(fs) && ListsOnly(fs, S)
  {
    hide Stamped, Rooted;
    FixedNames();
    forall x | Source(fs, x)
      ensures x in S
    {
      assert fs.IsFile(x) || fs.IsDir(x);
    }
  }

  lemma KeepsListed(fs: Fs, fs': Fs, S: set<Path>)
    requires SameInputs(fs, fs') && ListsOnly(fs, S)
    ensures ListsOnly(fs', S)
  {
    forall x
      ensures Source(fs, x) <==> Source(fs', x)
    {
      StillSource(fs, fs', x);
    }
  }

  /** The source that gives the ELF its directory. */
  const MAIN: Path := ["init", "init.c"]

  lemma MainIsUnlisted()
    ensures Unlisted(MAIN) && OutFile(MAIN) == ["build", "bin", "init", "init.o"]
    ensures IsSource(MAIN) && Name(MAIN) == "init.c" && |OutFile(MAIN)| == 4
  {
    assert ObjectName("init.c") == "init.o";
    assert MAIN[..1] == ["init"];
  }

  lemma OtherObjectStays(tools: Tools, fs: Fs, z: Path, o: Path)
    requires Stamped(fs) && Rooted(fs) && Source(fs, z) && OutFile(z) != o && fs.IsFile(o)
    ensures var r := GccC(tools, fs, z, map[]);
      o in r.fs.nodes && r.fs.nodes[o] == fs.nodes[o]
  {
    hide Stamped, Rooted, SameInputs, Later, KeepsElf, CanMake, MkDirs, Compiled;
    var d := Parent(OutFile(z));
    OutFileIsOutput(z);
    if CanMake(fs, d) {
      MkDirsAdvances(fs, d);
      var m := MkDirs(fs, d);
      assert o in m.nodes && m.nodes[o] == fs.nodes[o];
    }
  }

  /** Some order for any set of paths, each of them once. */
  ghost function Enumerate(S: set<Path>): (ps: seq<Path>)
    ensures |ps| == |S| && forall p :: p in ps <==> p in S
    decreases S
  {
    if S == {} then [] else var p :| p in S; [p] + Enumerate(S - {p})
  }
}
