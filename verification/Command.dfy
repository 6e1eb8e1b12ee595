/** The in-place command line of init/command.c: pointers are offsets into one
    block of memory, and each argument is ended by overwriting the blank after
    it with a NUL. */
module Command {
  import opened Prelude
  import opened Text
  import opened Memory

  const MAX_ARGS: nat := 32

  /** An entry of an argument vector: a pointer into the line, a string literal,
      NULL, or whatever the stack held. */
  datatype Arg = Unset | Null | Literal(s: string) | InLine(p: nat)

  /** How fill_args ended: with the truncation message, with a NULL stored after
      the arguments, or with that NULL falling outside the array. */
  datatype End = Truncated | Closed | Overrun

  /** Memory `m0` became `m1` by overwriting blanks of `lo..hi` with NULs. */
  ghost predicate BlanksCut(m0: seq<char>, m1: seq<char>, lo: nat, hi: nat) {
    && |m0| == |m1|
    && forall i :: 0 <= i < |m0| ==>
         m1[i] == m0[i] || (lo <= i < hi && Blank(m0[i]) && m1[i] == '\0')
  }

  lemma BlanksCutTrans(m0: seq<char>, m1: seq<char>, m2: seq<char>, lo: nat, mid: nat, hi: nat)
    requires BlanksCut(m0, m1, lo, hi) && BlanksCut(m1, m2, mid, hi) && lo <= mid
    ensures BlanksCut(m0, m2, lo, hi)
  {
  }

  lemma HoldsBeforeCut(m0: seq<char>, m1: seq<char>, lo: nat, hi: nat, p: nat, s: string)
    requires BlanksCut(m0, m1, lo, hi) && Holds(m0, p, s) && p + |s| <= lo
    ensures Holds(m1, p, s)
  {
    assert m1[p..p + |s|] == m0[p..p + |s|];
  }

  /** The argument vector entry denotes the string `w`. */
  ghost predicate ArgIs(m: seq<char>, a: Arg, w: string) {
    match a
    case Literal(s) => s == w
    case InLine(p) => Holds(m, p, w)
    case _ => false
  }

  ghost predicate ArgvStarts(m: seq<char>, argv: seq<Arg>, words: seq<string>) {
    |words| <= |argv| && forall i :: 0 <= i < |words| ==> ArgIs(m, argv[i], words[i])
  }

  /** `argv` is exactly `words`, as strings, followed by NULL. */
  ghost predicate ArgvIs(m: seq<char>, argv: seq<Arg>, words: seq<string>) {
    ArgvStarts(m, argv, words) && |words| < |argv| && argv[|words|] == Null
  }

  // ---- find_arg and terminate_arg -------------------------------------------

  lemma BlankRunAt(s: string, k: nat)
    requires k <= |s|
    ensures BlankRun(s[k..]) == if k < |s| && Blank(s[k]) then 1 + BlankRun(s[k + 1..]) else 0
  {
    assert k < |s| ==> s[k..][1..] == s[k + 1..];
  }

  lemma WordRunAt(s: string, k: nat)
    requires k <= |s|
    ensures WordRun(s[k..]) == if k < |s| && !Blank(s[k]) then 1 + WordRun(s[k + 1..]) else 0
  {
    assert k < |s| ==> s[k..][1..] == s[k + 1..];
  }

  /** In the string of `n` characters at `str`, only spaces and tabs stand before
      the character found, which is neither; or else there is nothing else in it. */
  ghost predicate Found(m: seq<char>, str: nat, n: nat, r: Option<nat>) {
    && str + n < |m|
    && (r.Some? ==>
          && str <= r.value < str + n && m[r.value] != ' ' && m[r.value] != '\t' && m[r.value] != '\0')
    && forall j :: str <= j < (if r.Some? then r.value else str + n) ==> m[j] == ' ' || m[j] == '\t'
  }

  /** Skips blanks: the offset of the next argument, or None at the end. */
  method FindArg(m: array<char>, str: nat) returns (r: Option<nat>)
    requires Terminated(m[..], str)
    ensures var s := CString(m[..], str);
      r == if BlankRun(s) == |s| then None else Some(str + BlankRun(s))
    ensures Found(m[..], str, |CString(m[..], str)|, r)
  {
    hide BlankRun, Holds;
    ghost var s := CString(m[..], str);
    ghost var k := 0;
    var p := str;
    assert s[0..] == s;
    TextAt(m[..], str, s, 0);
    TextAt(m[..], str, s, |s|);
    BlankRunAt(s, 0);
    while m[p] == ' ' || m[p] == '\t'
      invariant k <= |s| && p == str + k < m.Length
      invariant m[p] == (if k < |s| then s[k] else '\0') && (m[p] == '\0' <==> k == |s|)
      invariant forall j :: str <= j < p ==> m[j] == ' ' || m[j] == '\t'
      invariant BlankRun(s) == k + (if k < |s| && Blank(s[k]) then 1 + BlankRun(s[k + 1..]) else 0)
      decreases |s| - k
    {
      p := p + 1;
      k := k + 1;
      TextAt(m[..], str, s, k);
      BlankRunAt(s, k);
    }
    if m[p] == '\0' {
      return None;
    }
    return Some(p);
  }

  /** The argument at `str` ends at `e`, the first space, tab or NUL. A space or tab
      there is overwritten, and the rest begins after it; at a NUL nothing is. */
  ghost predicate EndedAt(m0: seq<char>, m1: seq<char>, str: nat, next: nat, e: nat) {
    && str <= e < |m0|
    && (forall j :: str <= j < e ==> m0[j] != ' ' && m0[j] != '\t' && m0[j] != '\0')
    && if m0[e] == '\0' then m1 == m0 && next == e
       else (m0[e] == ' ' || m0[e] == '\t') && m1 == m0[e := '\0'] && next == e + 1
  }

  /** Ends the argument at `str` in place; returns where the rest begins. */
  method TerminateArg(m: array<char>, str: nat) returns (next: nat)
    requires Terminated(m[..], str)
    modifies m
    ensures var s := CString(old(m[..]), str); var k := WordRun(s);
      if k == |s| then m[..] == old(m[..]) && next == str + k
      else str + k < m.Length && m[..] == old(m[..])[str + k := '\0'] && next == str + k + 1
    ensures EndedAt(old(m[..]), m[..], str, next, str + WordRun(CString(old(m[..]), str)))
  {
    hide WordRun, Holds;
    ghost var s := CString(m[..], str);
    ghost var k := 0;
    var p := str;
    assert s[0..] == s;
    TextAt(m[..], str, s, 0);
    WordRunAt(s, 0);
    while m[p] != ' ' && m[p] != '\t' && m[p] != '\0'
      invariant k <= |s| && p == str + k < m.Length
      invariant m[..] == old(m[..])
      invariant m[p] == (if k < |s| then s[k] else '\0') && (m[p] == '\0' <==> k == |s|)
      invariant forall j :: str <= j < p ==> m[j] != ' ' && m[j] != '\t' && m[j] != '\0'
      invariant WordRun(s) == k + (if k < |s| && !Blank(s[k]) then 1 + WordRun(s[k + 1..]) else 0)
      decreases |s| - k
    {
      p := p + 1;
      k := k + 1;
      TextAt(m[..], str, s, k);
      WordRunAt(s, k);
    }
    if m[p] == '\0' {
      return p;
    }
    m[p] := '\0';
    return p + 1;
  }

  /** Memory after terminate_arg on the text `s` at `p`. */
  ghost predicate Ended(m0: seq<char>, m1: seq<char>, p: nat, s: string) {
    var k := WordRun(s);
    if k == |s| then m1 == m0 else p + k < |m0| && m1 == m0[p + k := '\0']
  }

  function RestOf(s: string): string {
    if WordRun(s) == |s| then [] else s[WordRun(s) + 1..]
  }

  /** What terminate_arg makes of a text: its first word, ended, and the rest. */
  lemma AfterTerminate(m0: seq<char>, m1: seq<char>, p: nat, s: string, next: nat)
    requires Holds(m0, p, s) && Ended(m0, m1, p, s)
    requires next == if WordRun(s) == |s| then p + |s| else p + WordRun(s) + 1
    ensures Holds(m1, p, s[..WordRun(s)])
    ensures Holds(m1, next, RestOf(s))
    ensures BlanksCut(m0, m1, p, p + |s|)
  {
    hide WordRun, Lies, BlanksCut;
    var k := WordRun(s);
    EndedCut(m0, m1, p, s);
    if k == |s| {
      assert s[..k] == s && s[k..] == [];
      LiesRest(m0, p, s, k);
    } else {
      LiesCut(m0, p, s, k);
    }
  }

  lemma EndedCut(m0: seq<char>, m1: seq<char>, p: nat, s: string)
    requires Holds(m0, p, s) && Ended(m0, m1, p, s)
    ensures BlanksCut(m0, m1, p, p + |s|)
  {
    hide WordRun, Holds;
    TextAt(m0, p, s, WordRun(s));
  }

  // ---- fill_args -------------------------------------------------------------

  function Spliced(m: seq<char>, p: nat, t: string): (r: seq<char>)
    requires p + |t| <= |m|
    ensures |r| == |m|
  {
    m[..p] + t + m[p + |t|..]
  }

  lemma SpliceSame(m: seq<char>, p: nat, t: string)
    requires Lies(m, p, t)
    ensures Spliced(m, p, t) == m
  {
    assert m == m[..p] + m[p..p + |t|] + m[p + |t|..];
  }

  /** Ending the first argument and moving on to the next leaves the same final
      text still to be reached. */
  lemma SpliceStep(m0: seq<char>, m1: seq<char>, p: nat, s: string, n: nat)
    requires Holds(m0, p, s) && Ended(m0, m1, p, s) && n > 0
    ensures Holds(m1, p + NextStart(s), s[NextStart(s)..])
    ensures Spliced(m1, p + NextStart(s), Marked(s[NextStart(s)..], n - 1)) == Spliced(m0, p, Marked(s, n))
  {
    hide WordRun, NextStart, Spliced, Marked, Holds;
    HoldsFits(m0, p, s);
    if WordRun(s) == |s| {
      SpliceLast(m0, p, s, n);
    } else {
      SpliceNext(m0, m1, p, s, n);
    }
  }

  lemma SpliceLast(m: seq<char>, p: nat, s: string, n: nat)
    requires Holds(m, p, s) && WordRun(s) == |s| && n > 0
    ensures NextStart(s) == |s| && Holds(m, p + |s|, [])
    ensures p + |s| <= |m| && s[|s|..] == []
    ensures Spliced(m, p + |s|, Marked([], n - 1)) == Spliced(m, p, Marked(s, n))
  {
    hide WordRun, Lies, Spliced, Marked;
    assert s[|s|..] == [];
    MarkedNothing(n - 1);
    MarkedWhole(s, n);
    SpliceSame(m, p, s);
    LiesRest(m, p, s, |s|);
    SpliceSame(m, p + |s|, []);
  }

  lemma SpliceNext(m0: seq<char>, m1: seq<char>, p: nat, s: string, n: nat)
    requires Holds(m0, p, s) && WordRun(s) < |s| && n > 0
    requires p + WordRun(s) < |m0| && m1 == m0[p + WordRun(s) := '\0']
    ensures Holds(m1, p + NextStart(s), s[NextStart(s)..])
    ensures p + |s| <= |m0| && p + |s| <= |m1|
    ensures Spliced(m1, p + NextStart(s), Marked(s[NextStart(s)..], n - 1)) == Spliced(m0, p, Marked(s, n))
  {
    hide WordRun, NextStart, Lies, Spliced, Marked;
    var k, d := WordRun(s), NextStart(s);
    HoldsFits(m0, p, s);
    LiesCut(m0, p, s, k);
    LiesRest(m1, p + k + 1, s[k + 1..], d - (k + 1));
    assert s[k + 1..][d - (k + 1)..] == s[d..];
    MarkedStep(s, n);
    SpliceCut(m0, m1, p, s, k, d, Marked(s[d..], n - 1));
  }

  lemma MarkedWhole(s: string, n: nat)
    requires WordRun(s) == |s|
    ensures Marked(s, n) == s
  {
    hide WordRun;
  }

  lemma MarkedStep(s: string, n: nat)
    requires n > 0 && WordRun(s) < |s|
    ensures var k, d := WordRun(s), NextStart(s);
      Marked(s, n) == s[..k] + ['\0'] + s[k + 1..d] + Marked(s[d..], n - 1)
  {
    hide WordRun, NextStart;
  }

  lemma SpliceCut(m0: seq<char>, m1: seq<char>, p: nat, s: string, k: nat, d: nat, t: string)
    requires Lies(m0, p, s) && k < d <= |s| && |t| == |s| - d
    requires m1 == m0[p + k := '\0']
    ensures Spliced(m1, p + d, t) == Spliced(m0, p, s[..k] + ['\0'] + s[k + 1..d] + t)
  {
    var a, b := Spliced(m1, p + d, t), Spliced(m0, p, s[..k] + ['\0'] + s[k + 1..d] + t);
    forall i | 0 <= i < |m0|
      ensures a[i] == b[i]
    {
      if p <= i < p + |s| { assert m0[i] == m0[p..p + |s|][i - p]; }
    }
  }

  /** With `n` arguments still allowed and the text `r` at `at`: memory is on its
      way to `target`, and `left` are the starts still to be stored. */
  ghost predicate Filling(m: seq<char>, at: Option<nat>, r: string, n: nat, target: seq<char>, left: seq<nat>) {
    match at
    case None => m == target && left == []
    case Some(q) =>
      && Holds(m, q, r) && left == Starts(r, q, n)
      && Spliced(m, q, Marked(r, n)) == target
  }

  lemma FillingStep(m0: seq<char>, m1: seq<char>, p: nat, r: string, n: nat, target: seq<char>, left: seq<nat>)
    requires Filling(m0, Some(p), r, n, target, left) && n > 0 && Ended(m0, m1, p, r)
    ensures left != [] && left[0] == p
    ensures Filling(m1, if NextStart(r) == |r| then None else Some(p + NextStart(r)),
                    r[NextStart(r)..], n - 1, target, left[1..])
  {
    hide WordRun, NextStart, Starts, Marked, Spliced, Holds, Ended;
    SpliceStep(m0, m1, p, r, n);
    StartsUnfold(r, p, n);
    HoldsFits(m0, p, r);
    EndedSize(m0, m1, p, r);
    var d := NextStart(r);
    if d == |r| {
      assert r[d..] == [];
      MarkedNothing(n - 1);
      SpliceNothing(m1, p + d);
    }
  }

  lemma SpliceNothing(m: seq<char>, p: nat)
    requires p <= |m|
    ensures Spliced(m, p, []) == m
  {
    assert m == m[..p] + m[p..];
  }

  lemma FindsNext(r: string)
    ensures BlankRun(RestOf(r)) == |RestOf(r)| <==> NextStart(r) == |r|
    ensures NextStart(r) < |r| ==>
      NextStart(r) == (if WordRun(r) == |r| then |r| else WordRun(r) + 1) + BlankRun(RestOf(r))
  {
    hide WordRun, BlankRun, NextStart;
    NextStartOrEnd(r);
  }

  /** Collects up to `maxargs` arguments from the text at `next` into `args`
      from `off` on, ending each in place, and closes the list. */
  method FillArgs(maxargs: nat, args: array<Arg>, off: nat, m: array<char>, next: Option<nat>)
    returns (end: End)
    requires off + maxargs <= args.Length
    requires next.Some? ==> Terminated(m[..], next.value)
    modifies args, m
    ensures next.None? ==> m[..] == old(m[..])
    ensures next.Some? ==> var s := CString(old(m[..]), next.value);
      m[..] == Spliced(old(m[..]), next.value, Marked(s, maxargs))
    ensures var ps := if next.None? then []
                      else Starts(CString(old(m[..]), next.value), next.value, maxargs);
      && (end == if |ps| == MAX_ARGS then Truncated
                 else if off + |ps| < args.Length then Closed else Overrun)
      && (forall j :: 0 <= j < |ps| ==> off + j < args.Length && args[off + j] == InLine(ps[j]))
      && (end == Closed ==> args[off + |ps|] == Null)
      && (forall j :: 0 <= j < off ==> args[j] == old(args[j]))
      && (forall j :: off + |ps| <= j < args.Length && (end == Closed ==> j > off + |ps|) ==>
            args[j] == old(args[j]))
  {
    hide Starts, Marked, Spliced, NextStart, WordRun, BlankRun, Holds, Filling, RestOf;
    ghost var r := if next.None? then [] else CString(m[..], next.value);
    if next.Some? {
      HoldsFits(m[..], next.value, r);
    }
    FillingStarts(m[..], next, r, maxargs);
    ghost var target := if next.None? then m[..] else Spliced(m[..], next.value, Marked(r, maxargs));
    ghost var ps: seq<nat> := if next.None? then [] else Starts(r, next.value, maxargs);
    assert ps[0..] == ps;
    var i := 0;
    var at := next;
    while at.Some? && i < maxargs
      invariant i <= maxargs && i <= |ps|
      invariant Filling(m[..], at, r, maxargs - i, target, ps[i..])
      invariant forall j :: 0 <= j < i ==> args[off + j] == InLine(ps[j])
      invariant forall j :: 0 <= j < off ==> args[j] == old(args[j])
      invariant forall j :: off + i <= j < args.Length ==> args[j] == old(args[j])
      decreases maxargs - i
    {
      var p := at.value;
      ghost var m0 := m[..];
      FillingHolds(m0, p, r, maxargs - i, target, ps[i..]);
      CStringIs(m0, p, r);
      var temp := TerminateArg(m, p);
      FillingStep(m0, m[..], p, r, maxargs - i, target, ps[i..]);
      assert ps[i..][1..] == ps[i + 1..];
      args[off + i] := InLine(p);
      AfterTerminate(m0, m[..], p, r, temp);
      CStringIs(m[..], temp, RestOf(r));
      at := FindArg(m, temp);
      FindsNext(r);
      r := r[NextStart(r)..];
      i := i + 1;
    }
    FillingDone(m[..], at, r, maxargs - i, target, ps[i..]);
    if i == MAX_ARGS {
      end := Truncated;
    } else if off + i < args.Length {
      args[off + i] := Null;
      end := Closed;
    } else {
      end := Overrun;
    }
  }

  lemma HoldsFits(m: seq<char>, p: nat, s: string)
    requires Holds(m, p, s)
    ensures p + |s| < |m|
  {
  }

  lemma EndedSize(m0: seq<char>, m1: seq<char>, p: nat, s: string)
    requires Ended(m0, m1, p, s)
    ensures |m1| == |m0|
  {
  }

  lemma FillingStarts(m: seq<char>, next: Option<nat>, r: string, n: nat)
    requires next.Some? ==> Holds(m, next.value, r)
    ensures Filling(m, next, r, n, if next.None? then m else Spliced(m, next.value, Marked(r, n)),
                    if next.None? then [] else Starts(r, next.value, n))
  {
  }

  lemma FillingHolds(m: seq<char>, p: nat, r: string, n: nat, target: seq<char>, left: seq<nat>)
    requires Filling(m, Some(p), r, n, target, left)
    ensures Holds(m, p, r)
  {
  }

  lemma FillingDone(m: seq<char>, at: Option<nat>, r: string, n: nat, target: seq<char>, left: seq<nat>)
    requires Filling(m, at, r, n, target, left) && (at.None? || n == 0)
    ensures m == target && left == []
  {
    if at.Some? {
      StartsNothing(r, at.value);
      MarkedZero(r);
      SpliceSame(m, at.value, r);
    }
  }

  lemma MarkedZero(s: string)
    ensures Marked(s, 0) == s
  {
  }
}
