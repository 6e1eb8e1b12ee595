/** The memoised dependency runner of buildscript/util/target.py. A target is
    known by its place in definition order; everything it depends on or calls
    was defined before it. */
module Targets {

  /** What a decorator lists: another target, or a plain make-directories leaf. */
  datatype Depend = OnTarget(i: nat) | MakeDirs

  /** `calls` are the targets the body calls itself, in order. */
  datatype Target = Target(name: string, depends: seq<Depend>, calls: seq<nat>)

  /** The targets run before the end of `t`: its dependencies, then its calls. */
  function Needs(t: Target): seq<nat> {
    DependTargets(t.depends) + t.calls
  }

  function DependTargets(ds: seq<Depend>): seq<nat> {
    if ds == [] then []
    else
      var d := ds[|ds| - 1];
      DependTargets(ds[..|ds| - 1]) + (if d.OnTarget? then [d.i] else [])
  }

  lemma DependOne(i: nat)
    ensures DependTargets([OnTarget(i)]) == [i] && DependTargets([MakeDirs]) == []
  {
    assert [OnTarget(i)][..0] == [] && [MakeDirs][..0] == [];
  }

  lemma DependTwo(i: nat, j: nat)
    ensures DependTargets([OnTarget(i), OnTarget(j)]) == [i, j]
  {
    var ds := [OnTarget(i), OnTarget(j)];
    DependOne(i);
    assert ds[..1] == [OnTarget(i)];
  }

  ghost predicate Below(ns: seq<nat>, bound: nat) {
    forall k :: 0 <= k < |ns| ==> ns[k] < bound
  }

  ghost predicate Acyclic(g: seq<Target>) {
    forall i :: 0 <= i < |g| ==> Below(Needs(g[i]), i)
  }

  /** The log after target `i` was asked for: nothing if it is in the log, else
      its needs first, then itself. */
  ghost function Visit(g: seq<Target>, i: nat, log: seq<nat>): seq<nat>
    requires Acyclic(g) && i < |g|
    decreases i, 1, 0
  {
    if i in log then log else VisitAll(g, i, Needs(g[i]), log) + [i]
  }

  ghost function VisitAll(g: seq<Target>, bound: nat, ns: seq<nat>, log: seq<nat>): seq<nat>
    requires Acyclic(g) && bound <= |g| && Below(ns, bound)
    decreases bound, 0, |ns|
  {
    if ns == [] then log
    else Visit(g, ns[|ns| - 1], VisitAll(g, bound, ns[..|ns| - 1], log))
  }

  ghost predicate NoDuplicates(log: seq<nat>) {
    forall a, b :: 0 <= a < b < |log| ==> log[a] != log[b]
  }

  /** Everything a logged target needs stands before it. */
  ghost predicate InOrder(g: seq<Target>, log: seq<nat>) {
    forall k :: 0 <= k < |log| ==> Satisfied(g, log, k)
  }

  ghost predicate Satisfied(g: seq<Target>, log: seq<nat>, k: nat)
    requires k < |log|
  {
    log[k] < |g| && forall j :: j in Needs(g[log[k]]) ==> j in log[..k]
  }

  ghost predicate WellFormed(g: seq<Target>, log: seq<nat>) {
    NoDuplicates(log) && InOrder(g, log)
  }

  lemma AppendWellFormed(g: seq<Target>, log: seq<nat>, i: nat)
    requires WellFormed(g, log) && i < |g| && i !in log
    requires forall j :: j in Needs(g[i]) ==> j in log
    ensures WellFormed(g, log + [i])
  {
    var more := log + [i];
    assert forall k :: 0 <= k <= |log| ==> more[..k] == log[..k];
    assert log[..|log|] == log;
    forall k | 0 <= k < |more|
      ensures Satisfied(g, more, k)
    {
      if k < |log| { assert Satisfied(g, log, k); }
    }
  }

  /** Asking for a target keeps the log duplicate-free and in order, adds the
      target, keeps what was there, and adds nothing defined after it. */
  lemma {:induction false} VisitKeeps(g: seq<Target>, i: nat, log: seq<nat>)
    requires Acyclic(g) && i < |g| && WellFormed(g, log)
    ensures var more := Visit(g, i, log);
      WellFormed(g, more) && log <= more && i in more && (forall j :: j in more ==> j in log || j <= i)
    decreases i, 1, 0
  {
    if i !in log {
      var ns := Needs(g[i]);
      VisitAllKeeps(g, i, ns, log);
      AppendWellFormed(g, VisitAll(g, i, ns, log), i);
    }
  }

  lemma {:induction false} VisitAllKeeps(g: seq<Target>, bound: nat, ns: seq<nat>, log: seq<nat>)
    requires Acyclic(g) && bound <= |g| && WellFormed(g, log)
    requires Below(ns, bound)
    ensures var more := VisitAll(g, bound, ns, log);
      WellFormed(g, more) && log <= more &&
      (forall n :: n in ns ==> n in more) && (forall j :: j in more ==> j in log || j < bound)
    decreases bound, 0, |ns|
  {
    if ns != [] {
      hide WellFormed;
      var before, last := ns[..|ns| - 1], ns[|ns| - 1];
      VisitAllKeeps(g, bound, before, log);
      VisitKeeps(g, last, VisitAll(g, bound, before, log));
      assert forall n :: n in ns ==> n in before || n == last;
    }
  }

  ghost predicate Leaf(g: seq<Target>, n: nat) {
    n < |g| && g[n].depends == [] && g[n].calls == []
  }

  /** Needs that need nothing and have not run are run in the order listed: first
      the dependencies, then the calls. */
  lemma LeavesInOrder(g: seq<Target>, i: nat, log: seq<nat>)
    requires Acyclic(g) && i < |g| && i !in log
    requires var ns := DependTargets(g[i].depends) + g[i].calls;
      NoDuplicates(ns) && forall n :: n in ns ==> Leaf(g, n) && n !in log
    ensures Visit(g, i, log) == log + DependTargets(g[i].depends) + g[i].calls + [i]
  {
    hide DependTargets;
    VisitLeaves(g, i, Needs(g[i]), log);
  }

  lemma VisitLeaf(g: seq<Target>, n: nat, log: seq<nat>)
    requires Acyclic(g) && Leaf(g, n) && n !in log
    ensures Visit(g, n, log) == log + [n]
  {
    assert Needs(g[n]) == [];
    assert VisitAll(g, n, [], log) == log;
  }

  lemma {:induction false} VisitLeaves(g: seq<Target>, bound: nat, ns: seq<nat>, log: seq<nat>)
    requires Acyclic(g) && bound <= |g| && Below(ns, bound)
    requires NoDuplicates(ns) && forall n :: n in ns ==> Leaf(g, n) && n !in log
    ensures VisitAll(g, bound, ns, log) == log + ns
    decreases |ns|
  {
    if ns == [] {
      assert log + ns == log;
    } else {
      var before, last := ns[..|ns| - 1], ns[|ns| - 1];
      VisitLeaves(g, bound, before, log);
      assert Leaf(g, last) && last !in log + before;
      VisitLeaf(g, last, log + before);
      assert log + ns == log + before + [last];
    }
  }

  // ---- What a log means ---------------------------------------------------------

  ghost predicate NeedOf(g: seq<Target>, i: nat, j: nat) {
    i < |g| && j in Needs(g[i])
  }

  /** A chain of needs, each target needing the next. */
  ghost predicate Chain(g: seq<Target>, path: seq<nat>) {
    && path != [] && Below(path, |g|)
    && forall k, l :: 0 <= k < l < |path| && l == k + 1 ==> NeedOf(g, path[k], path[l])
  }

  ghost predicate Reaches(g: seq<Target>, i: nat, j: nat) {
    exists path :: Chain(g, path) && path[0] == i && path[|path| - 1] == j
  }

  /** A target is logged only after everything it transitively needs. */
  lemma {:induction false} NeedsComeFirst(g: seq<Target>, log: seq<nat>, path: seq<nat>, k: nat)
    requires WellFormed(g, log) && Chain(g, path) && k < |log| && log[k] == path[0]
    ensures exists l :: 0 <= l <= k && log[l] == path[|path| - 1] && (|path| > 1 ==> l < k)
    decreases |path|
  {
    if |path| > 1 {
      assert Satisfied(g, log, k);
      assert NeedOf(g, path[0], path[1]);
      var m :| 0 <= m < k && log[m] == path[1];
      ChainTail(g, path);
      NeedsComeFirst(g, log, path[1..], m);
    }
  }

  lemma ChainTail(g: seq<Target>, path: seq<nat>)
    requires Chain(g, path) && |path| > 1
    ensures Chain(g, path[1..])
  {
    var t := path[1..];
    forall k, l | 0 <= k < l < |t| && l == k + 1
      ensures NeedOf(g, t[k], t[l])
    {
      assert NeedOf(g, path[k + 1], path[l + 1]);
    }
  }

  lemma ReachStep(g: seq<Target>, i: nat, n: nat, j: nat)
    requires i < |g| && n in Needs(g[i]) && Reaches(g, n, j)
    ensures Reaches(g, i, j)
  {
    var path :| Chain(g, path) && path[0] == n && path[|path| - 1] == j;
    var longer := [i] + path;
    assert Chain(g, longer) by {
      forall k, l | 0 <= k < l < |longer| && l == k + 1
        ensures NeedOf(g, longer[k], longer[l])
      {
        if k > 0 { assert NeedOf(g, path[k - 1], path[l - 1]); }
      }
    }
    assert longer[0] == i && longer[|longer| - 1] == j;
  }

  lemma ReachesItself(g: seq<Target>, i: nat)
    requires i < |g|
    ensures Reaches(g, i, i)
  {
    assert Chain(g, [i]) && [i][0] == i;
  }

  lemma {:induction false} VisitAddsReached(g: seq<Target>, i: nat, log: seq<nat>, j: nat)
    requires Acyclic(g) && i < |g| && j in Visit(g, i, log) && j !in log
    ensures Reaches(g, i, j)
    decreases i, 1, 0
  {
    if j == i {
      ReachesItself(g, i);
    } else {
      var n := VisitAllAddsReached(g, i, Needs(g[i]), log, j);
      ReachStep(g, i, n, j);
    }
  }

  lemma {:induction false} VisitAllAddsReached(g: seq<Target>, bound: nat, ns: seq<nat>, log: seq<nat>, j: nat)
    returns (n: nat)
    requires Acyclic(g) && bound <= |g| && Below(ns, bound)
    requires j in VisitAll(g, bound, ns, log) && j !in log
    ensures n in ns && Reaches(g, n, j)
    decreases bound, 0, |ns|
  {
    var before, last := ns[..|ns| - 1], ns[|ns| - 1];
    if j in VisitAll(g, bound, before, log) {
      n := VisitAllAddsReached(g, bound, before, log, j);
    } else {
      VisitAddsReached(g, last, VisitAll(g, bound, before, log), j);
      n := last;
    }
  }

  /** Asked for a target, the runner ends up with exactly what it had logged and
      what the target reaches. */
  lemma VisitIsReach(g: seq<Target>, i: nat, log: seq<nat>, j: nat)
    requires Acyclic(g) && i < |g| && WellFormed(g, log)
    ensures j in Visit(g, i, log) <==> j in log || Reaches(g, i, j)
  {
    hide WellFormed;
    VisitKeeps(g, i, log);
    var more := Visit(g, i, log);
    if j in more && j !in log {
      VisitAddsReached(g, i, log, j);
    }
    if Reaches(g, i, j) {
      var path :| Chain(g, path) && path[0] == i && path[|path| - 1] == j;
      var k :| 0 <= k < |more| && more[k] == i;
      NeedsComeFirst(g, more, path, k);
    }
  }

  // ---- Exceptions -------------------------------------------------------------------

  /** What a call leaves: the log, and whether it came to its end. */
  datatype Attempted = Attempted(log: seq<nat>, ok: bool)

  /** The needs of a target up to where its body raises: `raises[i] == k` says that
      the body of `i` does so after `k` of its own calls. */
  function NeedsBeforeRaise(g: seq<Target>, raises: map<nat, nat>, i: nat): seq<nat>
    requires i < |g|
  {
    DependTargets(g[i].depends) + CallsBeforeRaise(g, raises, i)
  }

  function CallsBeforeRaise(g: seq<Target>, raises: map<nat, nat>, i: nat): (ns: seq<nat>)
    requires i < |g|
    ensures ns <= g[i].calls
  {
    if i in raises && raises[i] < |g[i].calls| then g[i].calls[..raises[i]] else g[i].calls
  }

  lemma BeforeRaiseBelow(g: seq<Target>, raises: map<nat, nat>, i: nat)
    requires Acyclic(g) && i < |g|
    ensures Below(NeedsBeforeRaise(g, raises, i), i)
  {
    assert Below(Needs(g[i]), i);
    var ns, all := NeedsBeforeRaise(g, raises, i), Needs(g[i]);
    assert forall k :: 0 <= k < |ns| ==> ns[k] == all[k];
  }

  /** Asking for target `i` when bodies may raise. */
  ghost function Attempt(g: seq<Target>, raises: map<nat, nat>, i: nat, log: seq<nat>): Attempted
    requires Acyclic(g) && i < |g|
    decreases i, 1, 0
  {
    if i in log then Attempted(log, true)
    else
      BeforeRaiseBelow(g, raises, i);
      var r := AttemptAll(g, raises, i, NeedsBeforeRaise(g, raises, i), log);
      if !r.ok then r
      else if i in raises then Attempted(r.log, false)
      else Attempted(r.log + [i], true)
  }

  /** Asking for several in order, up to the first exception. */
  ghost function AttemptAll(g: seq<Target>, raises: map<nat, nat>, bound: nat, ns: seq<nat>, log: seq<nat>): Attempted
    requires Acyclic(g) && bound <= |g| && Below(ns, bound)
    decreases bound, 0, |ns|
  {
    if ns == [] then Attempted(log, true)
    else
      var r := AttemptAll(g, raises, bound, ns[..|ns| - 1], log);
      if r.ok then Attempt(g, raises, ns[|ns| - 1], r.log) else r
  }

  /** A target that raises, and so has not run to its end; but its dependencies
      have, and what its body calls before it raises. */
  ghost predicate Raiser(g: seq<Target>, raises: map<nat, nat>, log: seq<nat>, j: nat) {
    && j in raises && j < |g| && j !in log
    && (forall n :: n in DependTargets(g[j].depends) ==> n in log)
    && (forall k :: 0 <= k < raises[j] && k < |g[j].calls| ==> g[j].calls[k] in log)
  }

  /** Something `i` reaches raises. */
  ghost predicate Blamed(g: seq<Target>, raises: map<nat, nat>, log: seq<nat>, i: nat) {
    exists j :: Raiser(g, raises, log, j) && Reaches(g, i, j)
  }

  lemma BlameItself(g: seq<Target>, raises: map<nat, nat>, log: seq<nat>, i: nat)
    requires Raiser(g, raises, log, i)
    ensures Blamed(g, raises, log, i)
  {
    ReachesItself(g, i);
  }

  lemma BlamePasses(g: seq<Target>, raises: map<nat, nat>, log: seq<nat>, i: nat, n: nat)
    requires i < |g| && n in Needs(g[i]) && Blamed(g, raises, log, n)
    ensures Blamed(g, raises, log, i)
  {
    hide Raiser;
    var j :| Raiser(g, raises, log, j) && Reaches(g, n, j);
    ReachStep(g, i, n, j);
  }

  /** What a call that succeeds or fails has logged. */
  ghost predicate Logged(g: seq<Target>, raises: map<nat, nat>, log: seq<nat>, more: seq<nat>, bound: nat) {
    && WellFormed(g, more) && log <= more
    && forall j :: j in more ==> j in log || (j < bound && j !in raises)
  }

  /** A success is a visit. A failure has logged a part of the visit, from its start
      on, and blames a target that raised with all it needed until then done. */
  lemma {:induction false} AttemptMeans(g: seq<Target>, raises: map<nat, nat>, i: nat, log: seq<nat>)
    requires Acyclic(g) && i < |g| && WellFormed(g, log)
    ensures var r := Attempt(g, raises, i, log);
      && Logged(g, raises, log, r.log, i + 1)
      && (r.ok ==> r.log == Visit(g, i, log))
      && (!r.ok ==> r.log <= Visit(g, i, log) && i !in r.log && Blamed(g, raises, r.log, i))
    decreases i, 1, 0
  {
    if i in log {
      InLogAlready(g, raises, i, log);
    } else {
      BeforeRaiseBelow(g, raises, i);
      AttemptAllMeans(g, raises, i, NeedsBeforeRaise(g, raises, i), log);
      NeedsThenItself(g, raises, i, log);
    }
  }

  lemma InLogAlready(g: seq<Target>, raises: map<nat, nat>, i: nat, log: seq<nat>)
    requires Acyclic(g) && i < |g| && WellFormed(g, log) && i in log
    ensures Attempt(g, raises, i, log) == Attempted(log, true) && Visit(g, i, log) == log
    ensures Logged(g, raises, log, log, i + 1)
  {
  }

  lemma NeedsThenItself(g: seq<Target>, raises: map<nat, nat>, i: nat, log: seq<nat>)
    requires Acyclic(g) && i < |g| && WellFormed(g, log) && i !in log && Below(NeedsBeforeRaise(g, raises, i), i)
    requires var ns := NeedsBeforeRaise(g, raises, i);
      var r := AttemptAll(g, raises, i, ns, log);
      && Logged(g, raises, log, r.log, i)
      && (r.ok ==> r.log == VisitAll(g, i, ns, log))
      && (!r.ok ==> r.log <= VisitAll(g, i, ns, log) && exists n :: n in ns && Blamed(g, raises, r.log, n))
    ensures var r := Attempt(g, raises, i, log);
      && Logged(g, raises, log, r.log, i + 1)
      && (r.ok ==> r.log == Visit(g, i, log))
      && (!r.ok ==> r.log <= Visit(g, i, log) && i !in r.log && Blamed(g, raises, r.log, i))
  {
    hide WellFormed, Blamed, Raiser, VisitAll, AttemptAll, NeedsBeforeRaise;
    var ns, all := NeedsBeforeRaise(g, raises, i), Needs(g[i]);
    var r := AttemptAll(g, raises, i, ns, log);
    BeforeRaisePrefix(g, raises, i);
    VisitAllPrefix(g, i, all, |ns|, log);
    if !r.ok {
      var n :| n in ns && Blamed(g, raises, r.log, n);
      assert n in all;
      BlamePasses(g, raises, r.log, i, n);
    } else {
      VisitAllKeeps(g, i, ns, log);
      if i in raises {
        RaisedWithNeeds(g, raises, r.log, i);
        BlameItself(g, raises, r.log, i);
      } else {
        AppendWellFormed(g, r.log, i);
      }
    }
  }

  lemma BeforeRaisePrefix(g: seq<Target>, raises: map<nat, nat>, i: nat)
    requires i < |g|
    ensures NeedsBeforeRaise(g, raises, i) <= Needs(g[i])
    ensures NeedsBeforeRaise(g, raises, i) == Needs(g[i])[..|NeedsBeforeRaise(g, raises, i)|]
    ensures i !in raises ==> NeedsBeforeRaise(g, raises, i) == Needs(g[i])
  {
    hide DependTargets;
  }

  lemma RaisedWithNeeds(g: seq<Target>, raises: map<nat, nat>, log: seq<nat>, i: nat)
    requires i < |g| && i in raises && i !in log && forall n :: n in NeedsBeforeRaise(g, raises, i) ==> n in log
    ensures Raiser(g, raises, log, i)
  {
    hide DependTargets;
    var calls := CallsBeforeRaise(g, raises, i);
    assert forall k :: 0 <= k < raises[i] && k < |g[i].calls| ==> calls[k] == g[i].calls[k];
    forall k | 0 <= k < raises[i] && k < |g[i].calls|
      ensures g[i].calls[k] in log
    {
      assert calls[k] in NeedsBeforeRaise(g, raises, i);
    }
  }

  lemma {:induction false} AttemptAllMeans(
      g: seq<Target>, raises: map<nat, nat>, bound: nat, ns: seq<nat>, log: seq<nat>)
    requires Acyclic(g) && bound <= |g| && Below(ns, bound) && WellFormed(g, log)
    ensures var r := AttemptAll(g, raises, bound, ns, log);
      && Logged(g, raises, log, r.log, bound)
      && (r.ok ==> r.log == VisitAll(g, bound, ns, log))
      && (!r.ok ==> r.log <= VisitAll(g, bound, ns, log) && exists n :: n in ns && Blamed(g, raises, r.log, n))
    decreases bound, 0, |ns|
  {
    hide WellFormed, Blamed;
    if ns != [] {
      var before, last := ns[..|ns| - 1], ns[|ns| - 1];
      AttemptAllMeans(g, raises, bound, before, log);
      var r := AttemptAll(g, raises, bound, before, log);
      VisitAllKeeps(g, bound, before, log);
      VisitKeeps(g, last, VisitAll(g, bound, before, log));
      if r.ok {
        AttemptMeans(g, raises, last, r.log);
        assert last in ns;
      } else {
        var n :| n in before && Blamed(g, raises, r.log, n);
        assert n in ns;
      }
    }
  }

  /** A call succeeds exactly when nothing it still has to run raises. */
  lemma AttemptSucceedsIff(g: seq<Target>, raises: map<nat, nat>, i: nat, log: seq<nat>)
    requires Acyclic(g) && i < |g| && WellFormed(g, log)
    ensures Attempt(g, raises, i, log).ok <==> forall j :: Reaches(g, i, j) && j !in log ==> j !in raises
  {
    hide WellFormed, Reaches;
    AttemptMeans(g, raises, i, log);
    var r := Attempt(g, raises, i, log);
    forall j | Reaches(g, i, j)
      ensures j in Visit(g, i, log)
    {
      VisitIsReach(g, i, log, j);
    }
    if !r.ok {
      var j :| Raiser(g, raises, r.log, j) && Reaches(g, i, j);
      assert j !in log && j in raises;
    }
  }

  /** A body that raises after `k` calls leaves the log as its dependencies and
      those calls leave it, and nothing of its later calls. */
  lemma RaiseLeaves(g: seq<Target>, raises: map<nat, nat>, i: nat, log: seq<nat>, k: nat)
    requires Acyclic(g) && i < |g| && WellFormed(g, log) && i !in log
    requires i in raises && raises[i] == k <= |g[i].calls|
    requires forall j :: j < i ==> j !in raises
    ensures var ns := DependTargets(g[i].depends) + g[i].calls[..k];
      Below(ns, i) && Attempt(g, raises, i, log) == Attempted(VisitAll(g, i, ns, log), false)
  {
    hide WellFormed, DependTargets, Logged, Blamed;
    var ns := DependTargets(g[i].depends) + g[i].calls[..k];
    assert g[i].calls[..|g[i].calls|] == g[i].calls;
    assert ns == NeedsBeforeRaise(g, raises, i);
    BeforeRaiseBelow(g, raises, i);
    AttemptAllMeans(g, raises, i, ns, log);
    forall n | n in ns
      ensures !Blamed(g, raises, AttemptAll(g, raises, i, ns, log).log, n)
    {
      NotBlamed(g, raises, AttemptAll(g, raises, i, ns, log).log, n, i);
    }
  }

  lemma NotBlamed(g: seq<Target>, raises: map<nat, nat>, log: seq<nat>, n: nat, i: nat)
    requires Acyclic(g) && n < i <= |g| && forall j :: j < i ==> j !in raises
    ensures !Blamed(g, raises, log, n)
  {
    forall j: nat | Reaches(g, n, j)
      ensures j <= n
    {
      ReachesBelow(g, n, j);
    }
  }

  lemma ReachesBelow(g: seq<Target>, n: nat, j: nat)
    requires Acyclic(g) && n < |g| && Reaches(g, n, j)
    ensures j <= n
  {
    var path :| Chain(g, path) && path[0] == n && path[|path| - 1] == j;
    ChainDescends(g, path);
  }

  lemma {:induction false} ChainDescends(g: seq<Target>, path: seq<nat>)
    requires Acyclic(g) && Chain(g, path)
    ensures path[|path| - 1] <= path[0]
    decreases |path|
  {
    if |path| > 1 {
      ChainTail(g, path);
      ChainDescends(g, path[1..]);
      assert NeedOf(g, path[0], path[1]);
    }
  }

  lemma {:induction false} VisitAllPrefix(g: seq<Target>, bound: nat, ns: seq<nat>, k: nat, log: seq<nat>)
    requires Acyclic(g) && bound <= |g| && Below(ns, bound) && k <= |ns| && WellFormed(g, log)
    ensures Below(ns[..k], bound) && VisitAll(g, bound, ns[..k], log) <= VisitAll(g, bound, ns, log)
    decreases |ns|
  {
    hide WellFormed;
    BelowPrefix(ns, k, bound);
    if k == |ns| {
      assert ns[..k] == ns;
    } else {
      var before := ns[..|ns| - 1];
      BelowPrefix(ns, |ns| - 1, bound);
      VisitAllPrefix(g, bound, before, k, log);
      assert before[..k] == ns[..k];
      VisitAllKeeps(g, bound, before, log);
      VisitKeeps(g, ns[|ns| - 1], VisitAll(g, bound, before, log));
    }
  }

  lemma AttemptAllAppend(g: seq<Target>, raises: map<nat, nat>, bound: nat, ns: seq<nat>, n: nat, log: seq<nat>)
    requires Acyclic(g) && bound <= |g| && Below(ns, bound) && n < bound
    ensures Below(ns + [n], bound)
    ensures var r := AttemptAll(g, raises, bound, ns, log);
      AttemptAll(g, raises, bound, ns + [n], log) == if r.ok then Attempt(g, raises, n, r.log) else r
  {
    assert (ns + [n])[..|ns|] == ns;
  }

  lemma {:induction false} AttemptAllConcat(
      g: seq<Target>, raises: map<nat, nat>, bound: nat, a: seq<nat>, b: seq<nat>, log: seq<nat>)
    requires Acyclic(g) && bound <= |g| && Below(a + b, bound)
    ensures Below(a, bound) && Below(b, bound)
    ensures var r := AttemptAll(g, raises, bound, a, log);
      AttemptAll(g, raises, bound, a + b, log) == if r.ok then AttemptAll(g, raises, bound, b, r.log) else r
    decreases |b|
  {
    BelowConcat(a, b, bound);
    if b == [] {
      assert a + b == a;
    } else {
      var c := b[..|b| - 1];
      assert (a + b)[..|a + b| - 1] == a + c;
      BelowPrefix(a + b, |a + b| - 1, bound);
      AttemptAllConcat(g, raises, bound, a, c, log);
    }
  }

  // ---- The runner -----------------------------------------------------------------

  /** No later target takes over the name of target `i`. */
  predicate IsLastOfName(g: seq<Target>, i: nat)
    requires i < |g|
  {
    forall j :: i < j < |g| ==> g[j].name != g[i].name
  }

  /** `raises[i] == k`: the body of `i` raises after `k` of its own calls. */
  class Runner {
    const g: seq<Target>
    const raises: map<nat, nat>
    var calledTargets: seq<nat>
    var availableTargets: map<string, nat>
    ghost var bodies: seq<nat>  // bodies that ran to their end, in order

    /** Every body that ran to its end is in the log, once. */
    ghost predicate Valid()
      reads this
    {
      Sound() && bodies == calledTargets
    }

    ghost predicate Sound()
      reads this
    {
      && Acyclic(g) && WellFormed(g, calledTargets)
      && forall name :: name in availableTargets ==>
           availableTargets[name] < |g| && g[availableTargets[name]].name == name
    }

    /** Decorating the targets in definition order registers each by name, and a
        later one takes over the name of an earlier one. */
    constructor (g: seq<Target>, raises: map<nat, nat>)
      requires Acyclic(g)
      ensures Valid() && calledTargets == [] && this.g == g && this.raises == raises
      ensures availableTargets.Keys == set t | t in g :: t.name
      ensures forall i :: 0 <= i < |g| && IsLastOfName(g, i) ==> availableTargets[g[i].name] == i
    {
      this.g, this.raises := g, raises;
      calledTargets, availableTargets, bodies := [], map[], [];
      new;
      hide Needs, Visit;
      for i := 0 to |g|
        invariant Valid() && calledTargets == []
        invariant forall t :: t in g[..i] ==> t.name in availableTargets
        invariant forall j :: 0 <= j < i && IsLastOfName(g, j) ==> availableTargets[g[j].name] == j
      {
        availableTargets := availableTargets[g[i].name := i];
      }
      assert g[..|g|] == g;
      assert forall name :: name in availableTargets ==> g[availableTargets[name]] in g;
    }

    /** on_target: runs what target `i` needs, then its body, unless it is in the
        log already. A raised exception leaves the log as far as it came. */
    method OnTarget(i: nat) returns (ok: bool)
      requires Valid() && i < |g|
      modifies `calledTargets, `bodies
      ensures Valid() && old(calledTargets) <= calledTargets
      ensures Attempted(calledTargets, ok) == Attempt(g, raises, i, old(calledTargets))
      ensures ok ==> calledTargets == Visit(g, i, old(calledTargets))
      ensures ok ==> forall j :: j in calledTargets ==> j in old(calledTargets) || j !in raises
      ensures !ok ==> i !in calledTargets && Blamed(g, raises, calledTargets, i)
      ensures !ok ==> calledTargets <= Visit(g, i, old(calledTargets))
      ensures forall j :: j in calledTargets ==> j in old(calledTargets) || j <= i
      decreases i, 1, 0
    {
      hide WellFormed, NoDuplicates, InOrder, VisitAll, AttemptAll, Blamed, Visit, DependTargets;
      ghost var log := calledTargets;
      AttemptMeans(g, raises, i, log);
      if i in calledTargets {
        return true;
      }
      NeedsBound(g, i);
      BeforeRaiseBelow(g, raises, i);
      AttemptAllConcat(g, raises, i, DependTargets(g[i].depends), CallsBeforeRaise(g, raises, i), log);
      ok := RunDepends(i, g[i].depends);
      if !ok {
        return;
      }
      DependsDone(g, i, log);
      ok := RunBody(i);
      if !ok {
        return;
      }
      VisitRunsNeeds(g, raises, i, log, calledTargets);
      AppendWellFormed(g, calledTargets, i);
      calledTargets := calledTargets + [i];
    }

    method RunDepends(i: nat, ds: seq<Depend>) returns (ok: bool)
      requires Valid() && i < |g| && i !in calledTargets
      requires Below(DependTargets(ds), i)
      modifies `calledTargets, `bodies
      ensures Valid() && old(calledTargets) <= calledTargets
      ensures Attempted(calledTargets, ok) == AttemptAll(g, raises, i, DependTargets(ds), old(calledTargets))
      ensures ok ==> calledTargets == VisitAll(g, i, DependTargets(ds), old(calledTargets))
      ensures forall j :: j in calledTargets ==> j in old(calledTargets) || j !in raises
      ensures !ok ==> exists n :: n in DependTargets(ds) && n < i && Blamed(g, raises, calledTargets, n)
      ensures forall j :: j in calledTargets ==> j in old(calledTargets) || j < i
      decreases i, 0, 1
    {
      hide WellFormed, NoDuplicates, InOrder, Visit, VisitAll, Blamed, Attempt;
      ghost var log := calledTargets;
      AttemptAllMeans(g, raises, i, DependTargets(ds), log);
      assert ds[..0] == [];
      for k := 0 to |ds|
        invariant Valid() && log <= calledTargets
        invariant Below(DependTargets(ds[..k]), i)
        invariant Attempted(calledTargets, true) == AttemptAll(g, raises, i, DependTargets(ds[..k]), log)
        invariant forall j :: j in calledTargets ==> j in log || j < i
      {
        DependPrefix(ds, k + 1, i);
        DependNext(g, raises, i, ds, k, log);
        if ds[k].OnTarget? {
          ok := OnTarget(ds[k].i);
          if !ok {
            DependStops(g, raises, i, ds, k + 1, log);
            return;
          }
        }
      }
      assert ds[..|ds|] == ds;
      ok := true;
    }

    /** The body: its calls in order, stopping where it raises. */
    method RunBody(i: nat) returns (ok: bool)
      requires Valid() && i < |g| && i !in calledTargets
      requires forall n :: n in DependTargets(g[i].depends) ==> n in calledTargets
      modifies `calledTargets, `bodies
      ensures Sound() && old(calledTargets) <= calledTargets
      ensures bodies == if ok then calledTargets + [i] else calledTargets
      ensures Below(g[i].calls, i) && Below(CallsBeforeRaise(g, raises, i), i)
      ensures var r := AttemptAll(g, raises, i, CallsBeforeRaise(g, raises, i), old(calledTargets));
        calledTargets == r.log && (ok <==> r.ok && i !in raises)
      ensures ok ==> calledTargets == VisitAll(g, i, g[i].calls, old(calledTargets)) && i !in raises
      ensures ok ==> forall j :: j in calledTargets ==> j in old(calledTargets) || j !in raises
      ensures !ok ==> Blamed(g, raises, calledTargets, i)
      ensures forall j :: j in calledTargets ==> j in old(calledTargets) || j < i
      decreases i, 0, 1
    {
      hide WellFormed, NoDuplicates, InOrder, Visit, VisitAll, Blamed, Attempt, DependTargets;
      ghost var log := calledTargets;
      var calls := g[i].calls;
      ghost var before := CallsBeforeRaise(g, raises, i);
      NeedsBound(g, i);
      BodyMeans(g, raises, i, log);
      assert calls[..0] == [];
      for k := 0 to |calls|
        invariant Valid() && log <= calledTargets
        invariant Below(calls[..k], i)
        invariant Attempted(calledTargets, true) == AttemptAll(g, raises, i, calls[..k], log)
        invariant i in raises ==> raises[i] >= k
        invariant forall j :: j in calledTargets ==> j in log || j < i
      {
        if i in raises && raises[i] == k {
          return false;
        }
        BelowPrefix(calls, k + 1, i);
        AttemptAllAppend(g, raises, i, calls[..k], calls[k], log);
        assert calls[..k + 1] == calls[..k] + [calls[k]];
        ok := OnTarget(calls[k]);
        if !ok {
          assert calls[..k + 1] == before[..k + 1];
          AttemptAllStops(g, raises, i, before, k + 1, log);
          return;
        }
      }
      assert calls[..|calls|] == calls;
      ok := !(i in raises && raises[i] >= |calls|);
      if ok {
        bodies := bodies + [i];
      }
    }

    /** The command line of build.py: each known name in turn, unknown ones
        passed over, up to the first exception. */
    method ExecuteArguments(args: seq<string>) returns (ok: bool)
      requires Valid()
      modifies `calledTargets, `bodies
      ensures Valid() && old(calledTargets) <= calledTargets
      ensures var known := Known(availableTargets, args);
        && Below(known, |g|)
        && Attempted(calledTargets, ok) == AttemptAll(g, raises, |g|, known, old(calledTargets))
        && (!ok ==> exists i :: i in known && Blamed(g, raises, calledTargets, i))
        && (ok ==> calledTargets == VisitAll(g, |g|, known, old(calledTargets)))
        && (!ok ==> calledTargets <= VisitAll(g, |g|, known, old(calledTargets)))
    {
      hide WellFormed, NoDuplicates, InOrder, Visit, VisitAll, Attempt, Blamed;
      ghost var log := calledTargets;
      ghost var known: seq<nat> := [];
      KnownBelow(g, availableTargets, args);
      AttemptAllMeans(g, raises, |g|, Known(availableTargets, args), log);
      for k := 0 to |args|
        invariant Valid() && log <= calledTargets
        invariant known == Known(availableTargets, args[..k]) && Below(known, |g|)
        invariant Attempted(calledTargets, true) == AttemptAll(g, raises, |g|, known, log)
      {
        assert args[..k + 1][..k] == args[..k];
        if args[k] in availableTargets {
          var i := availableTargets[args[k]];
          AttemptAllAppend(g, raises, |g|, known, i, log);
          known := known + [i];
          ok := OnTarget(i);
          if !ok {
            KnownStops(g, raises, availableTargets, args, k + 1, log);
            return;
          }
        }
      }
      assert args[..|args|] == args;
      ok := true;
    }
  }

  /** The targets that the arguments name, in order. */
  function Known(available: map<string, nat>, args: seq<string>): seq<nat> {
    if args == [] then []
    else
      var name := args[|args| - 1];
      Known(available, args[..|args| - 1]) + (if name in available then [available[name]] else [])
  }

  lemma {:induction false} KnownBelow(g: seq<Target>, available: map<string, nat>, args: seq<string>)
    requires forall name :: name in available ==> available[name] < |g|
    ensures Below(Known(available, args), |g|)
  {
    if args != [] {
      KnownBelow(g, available, args[..|args| - 1]);
    }
  }

  lemma DependNext(g: seq<Target>, raises: map<nat, nat>, i: nat, ds: seq<Depend>, k: nat, log: seq<nat>)
    requires Acyclic(g) && i <= |g| && k < |ds|
    requires Below(DependTargets(ds[..k]), i) && Below(DependTargets(ds[..k + 1]), i)
    ensures var before := AttemptAll(g, raises, i, DependTargets(ds[..k]), log);
      before.ok ==>
        if ds[k].OnTarget?
        then ds[k].i < i &&
          AttemptAll(g, raises, i, DependTargets(ds[..k + 1]), log) == Attempt(g, raises, ds[k].i, before.log)
        else AttemptAll(g, raises, i, DependTargets(ds[..k + 1]), log) == before
  {
    hide Attempt;
    var a := DependTargets(ds[..k]);
    assert ds[..k + 1][..k] == ds[..k];
    if ds[k].OnTarget? {
      assert DependTargets(ds[..k + 1]) == a + [ds[k].i];
      assert (a + [ds[k].i])[|a|] == ds[k].i;
      AttemptAllAppend(g, raises, i, a, ds[k].i, log);
    } else {
      assert DependTargets(ds[..k + 1]) == a;
    }
  }

  /** After an exception nothing more is asked for. */
  lemma AttemptAllStops(g: seq<Target>, raises: map<nat, nat>, bound: nat, ns: seq<nat>, k: nat, log: seq<nat>)
    requires Acyclic(g) && bound <= |g| && Below(ns, bound) && k <= |ns| && Below(ns[..k], bound)
    requires !AttemptAll(g, raises, bound, ns[..k], log).ok
    ensures AttemptAll(g, raises, bound, ns, log) == AttemptAll(g, raises, bound, ns[..k], log)
  {
    hide AttemptAll;
    assert ns == ns[..k] + ns[k..];
    AttemptAllConcat(g, raises, bound, ns[..k], ns[k..], log);
  }

  /** Of what a decorator lists, the targets are asked for in order. */
  lemma {:induction false} DependConcat(a: seq<Depend>, b: seq<Depend>)
    ensures DependTargets(a + b) == DependTargets(a) + DependTargets(b)
    decreases |b|
  {
    if b == [] {
      assert a + b == a;
    } else {
      var c := b[..|b| - 1];
      DependConcat(a, c);
      assert (a + b)[..|a + b| - 1] == a + c;
    }
  }

  lemma DependStops(g: seq<Target>, raises: map<nat, nat>, i: nat, ds: seq<Depend>, k: nat, log: seq<nat>)
    requires Acyclic(g) && i <= |g| && k <= |ds|
    requires Below(DependTargets(ds), i) && Below(DependTargets(ds[..k]), i)
    requires !AttemptAll(g, raises, i, DependTargets(ds[..k]), log).ok
    ensures AttemptAll(g, raises, i, DependTargets(ds), log) == AttemptAll(g, raises, i, DependTargets(ds[..k]), log)
  {
    hide AttemptAll, DependTargets;
    assert ds == ds[..k] + ds[k..];
    DependConcat(ds[..k], ds[k..]);
    AttemptAllConcat(g, raises, i, DependTargets(ds[..k]), DependTargets(ds[k..]), log);
  }

  lemma KnownOne(available: map<string, nat>, name: string)
    ensures Known(available, [name]) == if name in available then [available[name]] else []
  {
    assert [name][..0] == [];
  }

  /** The names are looked up one by one, in order. */
  lemma {:induction false} KnownConcat(available: map<string, nat>, a: seq<string>, b: seq<string>)
    ensures Known(available, a + b) == Known(available, a) + Known(available, b)
    decreases |b|
  {
    if b == [] {
      assert a + b == a;
    } else {
      var c := b[..|b| - 1];
      KnownConcat(available, a, c);
      assert (a + b)[..|a + b| - 1] == a + c;
    }
  }

  lemma KnownStops(
      g: seq<Target>, raises: map<nat, nat>, available: map<string, nat>, args: seq<string>, k: nat, log: seq<nat>)
    requires Acyclic(g) && k <= |args|
    requires Below(Known(available, args), |g|) && Below(Known(available, args[..k]), |g|)
    requires !AttemptAll(g, raises, |g|, Known(available, args[..k]), log).ok
    ensures AttemptAll(g, raises, |g|, Known(available, args), log)
         == AttemptAll(g, raises, |g|, Known(available, args[..k]), log)
  {
    hide AttemptAll, Known;
    assert args == args[..k] + args[k..];
    KnownConcat(available, args[..k], args[k..]);
    AttemptAllConcat(g, raises, |g|, Known(available, args[..k]), Known(available, args[k..]), log);
  }

  lemma DependsDone(g: seq<Target>, i: nat, log: seq<nat>)
    requires Acyclic(g) && i < |g| && WellFormed(g, log) && Below(DependTargets(g[i].depends), i)
    ensures forall n :: n in DependTargets(g[i].depends) ==> n in VisitAll(g, i, DependTargets(g[i].depends), log)
  {
    hide WellFormed;
    VisitAllKeeps(g, i, DependTargets(g[i].depends), log);
  }

  /** The calls of a body whose dependencies are done. */
  lemma BodyMeans(g: seq<Target>, raises: map<nat, nat>, i: nat, log: seq<nat>)
    requires Acyclic(g) && i < |g| && WellFormed(g, log) && i !in log
    requires forall n :: n in DependTargets(g[i].depends) ==> n in log
    ensures var before := CallsBeforeRaise(g, raises, i);
      && Below(before, i) && before == g[i].calls[..|before|]
      && var r := AttemptAll(g, raises, i, before, log);
        && Logged(g, raises, log, r.log, i)
        && (i !in raises ==> before == g[i].calls)
        && (r.ok ==> r.log == VisitAll(g, i, before, log))
        && (!r.ok || i in raises ==> Blamed(g, raises, r.log, i))
  {
    hide WellFormed, Blamed, DependTargets, VisitAll;
    var before := CallsBeforeRaise(g, raises, i);
    NeedsBound(g, i);
    BelowPrefix(g[i].calls, |before|, i);
    assert before == g[i].calls[..|before|];
    AttemptAllMeans(g, raises, i, before, log);
    var r := AttemptAll(g, raises, i, before, log);
    if !r.ok {
      var n :| n in before && Blamed(g, raises, r.log, n);
      assert n in Needs(g[i]);
      BlamePasses(g, raises, r.log, i, n);
    } else if i in raises {
      VisitAllKeeps(g, i, before, log);
      RaisedWithNeeds(g, raises, r.log, i);
      BlameItself(g, raises, r.log, i);
    }
  }

  /** With its needs run and no exception, only the target itself is left to log. */
  lemma VisitRunsNeeds(g: seq<Target>, raises: map<nat, nat>, i: nat, log: seq<nat>, now: seq<nat>)
    requires Acyclic(g) && i < |g| && WellFormed(g, log) && i !in log && i !in raises
    requires Below(NeedsBeforeRaise(g, raises, i), i)
    requires AttemptAll(g, raises, i, NeedsBeforeRaise(g, raises, i), log) == Attempted(now, true)
    ensures Attempt(g, raises, i, log) == Attempted(now + [i], true)
    ensures WellFormed(g, now) && i !in now && forall j :: j in Needs(g[i]) ==> j in now
  {
    hide WellFormed, AttemptAll, Blamed;
    BeforeRaisePrefix(g, raises, i);
    AttemptAllMeans(g, raises, i, Needs(g[i]), log);
    VisitAllKeeps(g, i, Needs(g[i]), log);
  }

  lemma NeedsBound(g: seq<Target>, i: nat)
    requires Acyclic(g) && i < |g|
    ensures Below(DependTargets(g[i].depends), i) && Below(g[i].calls, i) && Below(Needs(g[i]), i)
  {
    BelowConcat(DependTargets(g[i].depends), g[i].calls, i);
  }

  lemma BelowConcat(a: seq<nat>, b: seq<nat>, bound: nat)
    requires Below(a + b, bound)
    ensures Below(a, bound) && Below(b, bound)
  {
    assert forall k :: 0 <= k < |a| ==> a[k] == (a + b)[k];
    assert forall k :: 0 <= k < |b| ==> b[k] == (a + b)[|a| + k];
  }

  lemma {:induction false} DependPrefix(ds: seq<Depend>, k: nat, bound: nat)
    requires k <= |ds| && Below(DependTargets(ds), bound)
    ensures Below(DependTargets(ds[..k]), bound)
    decreases |ds|
  {
    if k == |ds| {
      assert ds[..k] == ds;
    } else {
      var before, d := ds[..|ds| - 1], ds[|ds| - 1];
      BelowConcat(DependTargets(before), if d.OnTarget? then [d.i] else [], bound);
      DependPrefix(before, k, bound);
      assert before[..k] == ds[..k];
    }
  }

  lemma {:induction false} VisitAllConcat(g: seq<Target>, bound: nat, a: seq<nat>, b: seq<nat>, log: seq<nat>)
    requires Acyclic(g) && bound <= |g| && Below(a + b, bound)
    ensures Below(a, bound) && Below(b, bound)
    ensures VisitAll(g, bound, a + b, log) == VisitAll(g, bound, b, VisitAll(g, bound, a, log))
    decreases |b|
  {
    BelowConcat(a, b, bound);
    if b == [] {
      assert a + b == a;
    } else {
      var c := b[..|b| - 1];
      assert (a + b)[..|a + b| - 1] == a + c;
      BelowPrefix(a + b, |a + b| - 1, bound);
      VisitAllConcat(g, bound, a, c, log);
    }
  }

  lemma BelowPrefix(ns: seq<nat>, k: nat, bound: nat)
    requires k <= |ns| && Below(ns, bound)
    ensures Below(ns[..k], bound)
  {
  }

  lemma VisitAllAppend(g: seq<Target>, bound: nat, ns: seq<nat>, n: nat, log: seq<nat>)
    requires Acyclic(g) && bound <= |g| && Below(ns, bound) && n < bound
    ensures Below(ns + [n], bound)
    ensures VisitAll(g, bound, ns + [n], log) == Visit(g, n, VisitAll(g, bound, ns, log))
  {
    assert (ns + [n])[..|ns|] == ns;
  }
}
