/** process_command of init/command.c: finds the command word, runs a builtin
    or prepares the argument vector handed to execveat. */
module Dispatch {
  import opened Prelude
  import opened Text
  import opened Memory
  import opened Command

  /** Nothing on the line; a builtin with its one argument, if it takes and finds
      one; or a program started by a child with `argv`, its list closed as `end`
      tells, in the child's own copy of `memory`. */
  datatype Outcome =
    | Nothing
    | Builtin(name: string, arg: Option<nat>)
    | Exec(argv: seq<Arg>, end: End, memory: seq<char>)

  const BUILTINS: seq<string> := ["time", "ls", "cat", "env", "exit", "usage", "memrun"]

  /** `argv` holds `words`: all of them and NULL if they are fewer than its
      slots; otherwise as many as there are slots, and the NULL fell outside. */
  ghost predicate Filled(m: seq<char>, argv: seq<Arg>, words: seq<string>, end: End) {
    && |argv| == MAX_ARGS
    && if |words| < MAX_ARGS then end == Closed && ArgvIs(m, argv, words)
       else end == Overrun && ArgvStarts(m, argv, words[..MAX_ARGS])
  }

  ghost predicate ArgumentIs(m: seq<char>, arg: Option<nat>, ws: seq<string>) {
    if |ws| > 1 then arg.Some? && Holds(m, arg.value, ws[1]) else arg == None
  }

  /** What a command line asks for, read off the words of the line alone. `m` is
      the memory of the process that read the line. */
  ghost predicate Obeys(m: seq<char>, line: string, o: Outcome) {
    var ws := Split(line);
    if ws == [] then o == Nothing
    else if ws[0] in ["time", "env", "exit", "usage"] then o == Builtin(ws[0], None)
    else if ws[0] in ["ls", "cat"] then o.Builtin? && o.name == ws[0] && ArgumentIs(m, o.arg, ws)
    else if ws[0] == "memrun" then
      if |ws| == 1 then o == Builtin("memrun", None)
      else o.Exec? && Filled(o.memory, o.argv, [ws[1]] + Words(AfterWord(AfterWord(line))), o.end)
    else o.Exec? && Filled(o.memory, o.argv, ["/busybox"] + ws, o.end)
  }

  /** A child that starts a program has cut up only blanks of the line in it. */
  ghost predicate ChildCuts(m: seq<char>, o: Outcome, lo: nat, hi: nat) {
    o.Exec? ==> BlanksCut(m, o.memory, lo, hi)
  }

  // ---- What fill_args leaves, as strings --------------------------------------

  lemma SplicedLies(m: seq<char>, p: nat, s: string, t: string)
    requires Lies(m, p, s) && |t| == |s|
    ensures Lies(Spliced(m, p, t), p, t)
  {
  }

  lemma SplicedCuts(m: seq<char>, p: nat, s: string, n: nat)
    requires Lies(m, p, s)
    ensures BlanksCut(m, Spliced(m, p, Marked(s, n)), p, p + |s|)
  {
    hide Marked;
    var r := Spliced(m, p, Marked(s, n));
    forall i | 0 <= i < |m|
      ensures r[i] == m[i] || (p <= i < p + |s| && Blank(m[i]) && r[i] == '\0')
    {
      if p <= i < p + |s| {
        MarkedOnlyBlanks(s, n, i - p);
        assert m[p..p + |s|][i - p] == m[i];
      }
    }
  }

  /** The starts stored from `off` on denote the words of the text. */
  lemma FilledWords(m0: seq<char>, p: nat, s: string, n: nat, j: nat)
    requires Holds(m0, p, s) && j < |Starts(s, p, n)|
    ensures j < |Words(s)| && Holds(Spliced(m0, p, Marked(s, n)), Starts(s, p, n)[j], Words(s)[j])
  {
    hide Marked, Starts, Words;
    SplicedLies(m0, p, s, Marked(s, n));
    StartsHoldWords(Spliced(m0, p, Marked(s, n)), s, p, n, j);
  }

  // ---- The callers of fill_args ---------------------------------------------

  /** The text at `s` and the program's arguments: `head` is in place already. */
  lemma ArgvOf(m0: seq<char>, m1: seq<char>, argv: seq<Arg>, end: End, head: seq<string>, p: nat, s: string)
    requires |argv| == MAX_ARGS && |head| < MAX_ARGS && Holds(m0, p, s)
    requires m1 == Spliced(m0, p, Marked(s, MAX_ARGS - |head|))
    requires ArgvStarts(m1, argv, head)
    requires var ps := Starts(s, p, MAX_ARGS - |head|);
      && (end == if |head| + |ps| < MAX_ARGS then Closed else Overrun)
      && (forall j :: 0 <= j < |ps| ==> |head| + j < |argv| && argv[|head| + j] == InLine(ps[j]))
      && (end == Closed ==> argv[|head| + |ps|] == Null)
    ensures Filled(m1, argv, head + Words(s), end)
  {
    hide Starts, Marked, Words, Holds, Spliced;
    var n := MAX_ARGS - |head|;
    var ps, ws := Starts(s, p, n), head + Words(s);
    StartsCount(s, p, n);
    forall i | 0 <= i < |head| + |ps|
      ensures i < |ws| && ArgIs(m1, argv[i], ws[i])
    {
      if i >= |head| {
        FilledWords(m0, p, s, n, i - |head|);
        assert argv[|head| + (i - |head|)] == InLine(ps[i - |head|]);
      }
    }
  }

  /** No text at all after the head. */
  lemma ArgvOfNothing(m: seq<char>, argv: seq<Arg>, head: seq<string>)
    requires |argv| == MAX_ARGS && |head| < MAX_ARGS
    requires ArgvStarts(m, argv, head) && argv[|head|] == Null
    ensures Filled(m, argv, head, Closed)
  {
  }

  lemma HoldsThroughFill(m0: seq<char>, p: nat, s: string, n: nat, q: nat, w: string)
    requires Holds(m0, p, s) && Holds(m0, q, w) && q + |w| <= p
    ensures Holds(Spliced(m0, p, Marked(s, n)), q, w)
  {
    hide Marked;
    SplicedCuts(m0, p, s, n);
    HoldsBeforeCut(m0, Spliced(m0, p, Marked(s, n)), p, p + |s|, q, w);
  }

  lemma FoundText(m: seq<char>, p: nat, s: string)
    requires Holds(m, p, s)
    ensures BlankRun(s) <= |s| && Holds(m, p + BlankRun(s), s[BlankRun(s)..])
    ensures BlankRun(s) < |s| ==> Words(s[BlankRun(s)..]) == Split(s)
    ensures BlankRun(s) == |s| <==> Split(s) == []
  {
    hide BlankRun, Lies;
    LiesRest(m, p, s, BlankRun(s));
    SplitRest(s);
    WordsNonempty(s[BlankRun(s)..]);
  }

  /** The entries of `argv` for `head` are strings that end before `p`. */
  ghost predicate HeadBefore(m: seq<char>, argv: seq<Arg>, head: seq<string>, p: nat) {
    && ArgvStarts(m, argv, head)
    && forall i :: 0 <= i < |head| && argv[i].InLine? ==> argv[i].p + |head[i]| <= p
  }

  lemma HeadThroughFill(m0: seq<char>, argv: seq<Arg>, argv': seq<Arg>, head: seq<string>, p: nat, s: string, n: nat)
    requires Holds(m0, p, s) && HeadBefore(m0, argv, head, p)
    requires |argv'| == |argv| && forall i :: 0 <= i < |head| ==> argv'[i] == argv[i]
    ensures ArgvStarts(Spliced(m0, p, Marked(s, n)), argv', head)
  {
    hide Marked, Spliced, Holds;
    HoldsFits(m0, p, s);
    forall i | 0 <= i < |head|
      ensures ArgIs(Spliced(m0, p, Marked(s, n)), argv'[i], head[i])
    {
      assert ArgIs(m0, argv[i], head[i]);
      if argv[i].InLine? {
        HoldsThroughFill(m0, p, s, n, argv[i].p, head[i]);
      }
    }
  }

  /** fill_args for the slots after the `off` ones that `head` fills already. */
  method Collect(args: array<Arg>, off: nat, m: array<char>, at: Option<nat>, ghost head: seq<string>)
    returns (end: End)
    requires args.Length == MAX_ARGS && 0 < |head| == off < MAX_ARGS
    requires at.Some? ==> Terminated(m[..], at.value) && HeadBefore(m[..], args[..], head, at.value)
    requires at.None? ==> ArgvStarts(m[..], args[..], head)
    modifies args, m
    ensures at.Some? ==> var t := CString(old(m[..]), at.value);
      && Filled(m[..], args[..], head + Words(t), end)
      && BlanksCut(old(m[..]), m[..], at.value, at.value + |t|)
    ensures at.None? ==> Filled(m[..], args[..], head, end) && m[..] == old(m[..])
  {
    hide Words, Starts, Marked, Spliced, Holds, BlanksCut, Filled, ArgvStarts, HeadBefore;
    ghost var m0, argv := m[..], args[..];
    end := FillArgs(MAX_ARGS - off, args, off, m, at);
    if at.Some? {
      ghost var p, t := at.value, CString(m0, at.value);
      StartsAtMost(t, p, MAX_ARGS - off);
      HeadThroughFill(m0, argv, args[..], head, p, t, MAX_ARGS - off);
      ArgvOf(m0, m[..], args[..], end, head, p, t);
      CutsFrom(m0, p, t, MAX_ARGS - off, p, p + |t|);
    } else {
      HeadKept(m0, argv, args[..], head);
      ArgvOfNothing(m0, args[..], head);
    }
  }

  lemma HeadKept(m: seq<char>, argv: seq<Arg>, argv': seq<Arg>, head: seq<string>)
    requires ArgvStarts(m, argv, head)
    requires |argv'| == |argv| && forall i :: 0 <= i < |head| ==> argv'[i] == argv[i]
    ensures ArgvStarts(m, argv', head)
  {
    hide Holds;
    assert forall i :: 0 <= i < |head| ==> ArgIs(m, argv[i], head[i]);
  }

  /** The memory a forked child starts with. */
  method Fork(m: array<char>) returns (child: array<char>)
    ensures fresh(child) && child[..] == m[..]
  {
    child := new char[m.Length];
    forall i | 0 <= i < m.Length {
      child[i] := m[i];
    }
  }

  /** The argument vector for /busybox: its name, the command word, and the
      words of the text at `next`, cut up in the child's memory. */
  method Busybox(m: array<char>, command: nat, next: nat, ghost word: string) returns (o: Outcome)
    requires Holds(m[..], command, word) && Terminated(m[..], next) && command + |word| <= next
    ensures var s := CString(m[..], next);
      && o.Exec? && Filled(o.memory, o.argv, ["/busybox", word] + Split(s), o.end)
      && BlanksCut(m[..], o.memory, next, next + |s|)
  {
    hide BlankRun, Words, Split, Holds, BlanksCut, Filled, HeadBefore;
    ghost var m0, s := m[..], CString(m[..], next);
    FoundText(m0, next, s);
    CStringIs(m0, next + BlankRun(s), s[BlankRun(s)..]);
    var at := FindArg(m, next);
    var child := Fork(m);
    var args := new Arg[MAX_ARGS](_ => Unset);
    args[0] := Literal("/busybox");
    args[1] := InLine(command);
    ghost var head := ["/busybox", word];
    HeadIs(m0, args[..], command, word, if at.Some? then at.value else next);
    var end := Collect(args, 2, child, at, head);
    o := Exec(args[..], end, child[..]);
    if at.Some? {
      CutsWiden(m0, child[..], at.value, next + |s|, next, next + |s|);
    } else {
      assert head + [] == head;
      NothingCut(m0, next, next + |s|);
    }
  }

  lemma StartsAtMost(s: string, p: nat, n: nat)
    ensures |Starts(s, p, n)| <= n
  {
    hide Starts;
    StartsCount(s, p, n);
  }

  lemma HeadIs(m: seq<char>, argv: seq<Arg>, command: nat, word: string, p: nat)
    requires Holds(m, command, word) && command + |word| <= p
    requires |argv| > 1 && argv[0] == Literal("/busybox") && argv[1] == InLine(command)
    ensures HeadBefore(m, argv, ["/busybox", word], p) && ArgvStarts(m, argv, ["/busybox", word])
  {
  }

  lemma CutsFrom(m: seq<char>, p: nat, t: string, n: nat, lo: nat, hi: nat)
    requires Holds(m, p, t) && lo <= p && p + |t| <= hi
    ensures BlanksCut(m, Spliced(m, p, Marked(t, n)), lo, hi)
  {
    hide Marked, Spliced;
    SplicedCuts(m, p, t, n);
  }

  lemma NothingCut(m: seq<char>, lo: nat, hi: nat)
    ensures BlanksCut(m, m, lo, hi)
  {
  }

  /** find_arg, then terminate_arg: the first word, ended in place, and the
      offset of the text after it. */
  method TakeArgument(m: array<char>, str: nat) returns (arg: Option<nat>, next: nat)
    requires Terminated(m[..], str)
    modifies m
    ensures var s := CString(old(m[..]), str);
      && BlanksCut(old(m[..]), m[..], str, str + |s|)
      && (arg.None? <==> Split(s) == [])
      && (arg.None? ==> m[..] == old(m[..]))
      && (arg.Some? ==>
            && Holds(m[..], arg.value, Split(s)[0]) && Holds(m[..], next, AfterWord(s))
            && str <= arg.value && arg.value + |Split(s)[0]| <= next && next + |AfterWord(s)| == str + |s|)
  {
    hide BlankRun, WordRun, Words, Split, Holds, BlanksCut, AfterWord;
    ghost var m0, s := m[..], CString(m[..], str);
    FoundText(m0, str, s);
    next := str;
    arg := FindArg(m, str);
    if arg.None? {
      NothingCut(m0, str, str + |s|);
      return;
    }
    ghost var t := s[BlankRun(s)..];
    CStringIs(m0, arg.value, t);
    next := TerminateArg(m, arg.value);
    AfterTerminate(m0, m[..], arg.value, t, next);
    FirstWord(s);
    CutsWiden(m0, m[..], arg.value, arg.value + |t|, str, str + |s|);
  }

  lemma FirstWord(s: string)
    requires BlankRun(s) < |s|
    ensures var t := s[BlankRun(s)..];
      && Split(s) == [t[..WordRun(t)]] + Split(AfterWord(s))
      && RestOf(t) == AfterWord(s)
  {
    SplitAfterWord(s);
  }

  lemma CutsWiden(m0: seq<char>, m1: seq<char>, lo: nat, hi: nat, lo': nat, hi': nat)
    requires BlanksCut(m0, m1, lo, hi) && lo' <= lo && hi <= hi'
    ensures BlanksCut(m0, m1, lo', hi')
  {
  }

  /** Compares a C string in memory with a string literal. */
  method StrEq(m: array<char>, p: nat, name: string) returns (same: bool)
    requires Terminated(m[..], p) && '\0' !in name
    ensures same <==> CString(m[..], p) == name
  {
    hide Holds;
    ghost var s := CString(m[..], p);
    var i := 0;
    while true
      invariant i <= |s| && i <= |name| && s[..i] == name[..i]
      decreases |s| - i
    {
      TextAt(m[..], p, s, i);
      var c := if i < |name| then name[i] else '\0';
      if m[p + i] != c {
        return false;
      }
      if m[p + i] == '\0' {
        assert s[..i] == s && name[..i] == name;
        return true;
      }
      assert s[..i + 1] == s[..i] + [s[i]] && name[..i + 1] == name[..i] + [name[i]];
      i := i + 1;
    }
  }

  /** memrun: the path, then the words of the text behind it, collected by the
      child without skipping blanks first. */
  method CmdMemrun(m: array<char>, next: nat) returns (o: Outcome)
    requires Terminated(m[..], next)
    modifies m
    ensures var s := CString(old(m[..]), next);
      && (if Split(s) == [] then o == Builtin("memrun", None)
          else o.Exec? && Filled(o.memory, o.argv, [Split(s)[0]] + Words(AfterWord(s)), o.end))
      && BlanksCut(old(m[..]), m[..], next, next + |s|) && ChildCuts(m[..], o, next, next + |s|)
  {
    hide Words, Split, Holds, BlanksCut, Filled, AfterWord, HeadBefore;
    ghost var m0, s := m[..], CString(m[..], next);
    var path, rest := TakeArgument(m, next);
    if path.None? {
      return Builtin("memrun", None);
    }
    ghost var m1, word := m[..], Split(s)[0];
    CStringIs(m1, rest, AfterWord(s));
    var child := Fork(m);
    var args := new Arg[MAX_ARGS](_ => Unset);
    args[0] := InLine(path.value);
    PathIs(m1, args[..], path.value, word, rest);
    var end := Collect(args, 1, child, Some(rest), [word]);
    CutsWiden(m1, child[..], rest, next + |s|, next, next + |s|);
    o := Exec(args[..], end, child[..]);
  }

  lemma PathIs(m: seq<char>, argv: seq<Arg>, path: nat, word: string, p: nat)
    requires Holds(m, path, word) && path + |word| <= p && argv != [] && argv[0] == InLine(path)
    ensures HeadBefore(m, argv, [word], p)
  {
  }

  /** Runs the builtin of index `i` on the text at `next`. */
  method RunBuiltin(m: array<char>, i: nat, next: nat) returns (o: Outcome)
    requires i < |BUILTINS| && Terminated(m[..], next)
    modifies m
    ensures var s, name := CString(old(m[..]), next), BUILTINS[i];
      && BlanksCut(old(m[..]), m[..], next, next + |s|) && ChildCuts(m[..], o, next, next + |s|)
      && (name in ["time", "env", "exit", "usage"] ==> o == Builtin(name, None))
      && (name in ["ls", "cat"] ==> o.Builtin? && o.name == name && ArgumentIs(m[..], o.arg, [name] + Split(s)))
      && (name == "memrun" ==>
            if Split(s) == [] then o == Builtin("memrun", None)
            else o.Exec? && Filled(o.memory, o.argv, [Split(s)[0]] + Words(AfterWord(s)), o.end))
  {
    hide Split, Words, Holds, BlanksCut, Filled, AfterWord;
    var name := BUILTINS[i];
    if name == "memrun" {
      o := CmdMemrun(m, next);
    } else if name == "ls" || name == "cat" {
      var arg, _ := TakeArgument(m, next);
      o := Builtin(name, arg);
    } else {
      NothingCut(m[..], next, next + |CString(m[..], next)|);
      o := Builtin(name, None);
    }
  }

  /** One command line, from any text in memory: what it runs is what the words
      of the line say. Of its own memory it changes only blanks of the line, of
      which a child that starts a program overwrites more in its copy. */
  method ProcessCommand(m: array<char>, args: nat) returns (o: Outcome)
    requires Terminated(m[..], args)
    modifies m
    ensures var line := CString(old(m[..]), args);
      && Obeys(m[..], line, o)
      && (o.Nothing? ==> m[..] == old(m[..]))
      && BlanksCut(old(m[..]), m[..], args, args + |line|)
      && ChildCuts(m[..], o, args, args + |line|)
  {
    hide Split, Words, Holds, BlanksCut, Filled, AfterWord;
    ghost var m0, line := m[..], CString(m[..], args);
    var prog, next := TakeArgument(m, args);
    if prog.None? {
      return Nothing;
    }
    ghost var m1, word, rest := m[..], Split(line)[0], AfterWord(line);
    WordsOfLine(line);
    CStringIs(m1, prog.value, word);
    CStringIs(m1, next, rest);
    for i := 0 to |BUILTINS|
      invariant m[..] == m1
      invariant forall j :: 0 <= j < i ==> word != BUILTINS[j]
    {
      NamesHaveNoNul(i);
      var same := StrEq(m, prog.value, BUILTINS[i]);
      if same {
        o := RunBuiltin(m, i, next);
        BlanksCutTrans(m0, m1, m[..], args, next, args + |line|);
        ChildCutsWiden(m[..], o, next, args + |line|, args);
        return;
      }
    }
    o := Busybox(m, prog.value, next, word);
    assert ["/busybox", word] + Split(rest) == ["/busybox"] + Split(line);
    NotBuiltin(word);
    ChildCutsWiden(m[..], o, next, args + |line|, args);
  }

  lemma ChildCutsWiden(m: seq<char>, o: Outcome, lo: nat, hi: nat, lo': nat)
    requires ChildCuts(m, o, lo, hi) && lo' <= lo
    ensures ChildCuts(m, o, lo', hi)
  {
  }

  lemma WordsOfLine(line: string)
    requires Split(line) != []
    ensures Split(line) == [Split(line)[0]] + Split(AfterWord(line))
  {
    hide BlankRun, WordRun;
    SplitAfterWord(line);
  }

  lemma NamesHaveNoNul(i: nat)
    requires i < |BUILTINS|
    ensures '\0' !in BUILTINS[i]
  {
  }

  lemma NotBuiltin(word: string)
    requires forall j :: 0 <= j < |BUILTINS| ==> word != BUILTINS[j]
    ensures word !in ["time", "env", "exit", "usage"] && word !in ["ls", "cat"] && word != "memrun"
  {
    assert BUILTINS[0] == "time" && BUILTINS[1] == "ls" && BUILTINS[2] == "cat" && BUILTINS[3] == "env";
    assert BUILTINS[4] == "exit" && BUILTINS[5] == "usage" && BUILTINS[6] == "memrun";
  }

  // ---- Lines cut at a space or a tab ---------------------------------------------

  /** `ls`, a space or a tab, and a path: the builtin is given the path. */
  lemma LsWithPath(m: seq<char>, c: char, path: string, o: Outcome)
    requires (c == ' ' || c == '\t') && path != "" && ' ' !in path && '\t' !in path
    requires Obeys(m, "ls" + [c] + path, o)
    ensures exists p :: o == Builtin("ls", Some(p)) && Holds(m, p, path)
  {
    hide Split, Holds;
    SplitAt("ls", c, path);
    SplitWord(path);
    assert Split("ls" + [c] + path) == ["ls", path];
    assert o == Builtin("ls", Some(o.arg.value));
  }

  // ---- Lines whose argument vector does not fit --------------------------------

  /** A line of `n` one-letter words. */
  function Many(n: nat): (line: string)
    ensures |line| == 2 * n
    ensures n > 0 ==> line[0] == 'a'
  {
    if n == 0 then "" else "a" + (" " + Many(n - 1))
  }

  function Letters(n: nat): (ws: seq<string>)
    ensures |ws| == n
  {
    seq(n, _ => "a")
  }

  lemma ManyUnfold(n: nat)
    requires n > 0
    ensures Many(n) == "a" + (" " + Many(n - 1))
    ensures n > 1 ==> Many(n - 1) != [] && !Blank(Many(n - 1)[0])
    ensures Many(0) == []
  {
  }

  lemma LettersUnfold(n: nat)
    requires n > 0
    ensures ["a"] + Letters(n - 1) == Letters(n)
  {
  }

  lemma {:induction false} ManySplit(n: nat)
    ensures Split(Many(n)) == Letters(n)
  {
    hide BlankRun, WordRun, Split, Letters, Many;
    if n == 0 {
      SplitNothing();
    } else {
      var rest := " " + Many(n - 1);
      ManyUnfold(n);
      SplitOfConcat("", "a", rest);
      assert "" + "a" + rest == Many(n);
      SplitDropsOne(rest);
      assert rest[1..] == Many(n - 1);
      ManySplit(n - 1);
      LettersUnfold(n);
    }
  }

  /** A busybox line of `n` words, of two characters each, overruns its vector
      exactly from 31 words on. */
  lemma ManyOverrun(n: nat, m: seq<char>, o: Outcome)
    requires n > 0 && Obeys(m, Many(n), o)
    ensures o.Exec? && (o.end == Overrun <==> n >= 31)
  {
    hide Split, Many, ArgvStarts, ArgvIs;
    ManySplit(n);
    var ws := Split(Many(n));
    assert ws[0] == "a" && |["/busybox"] + ws| == n + 1;
  }

  lemma AfterFirst(word: string, rest: string)
    requires NoBlank(word)
    ensures Split(word + (" " + rest)) == [word] + Split(rest)
    ensures AfterWord(word + (" " + rest)) == rest
  {
    hide Split;
    var line := word + (" " + rest);
    SplitOfConcat("", word, " " + rest);
    RunsOfConcat("", word, " " + rest);
    assert "" + word + (" " + rest) == line && line[0..] == line;
    SplitDropsOne(" " + rest);
    assert (" " + rest)[1..] == rest;
    assert line[|word| + 1..] == rest;
  }

  /** memrun on `n` words overruns from 32 words on; with its path alone, ended
      by a blank, it passes one empty argument. */
  lemma ManyMemrun(n: nat, m: seq<char>, o: Outcome)
    requires n > 0 && Obeys(m, "memrun" + (" " + Many(n)), o)
    ensures o.Exec? && (o.end == Overrun <==> n >= 32)
    ensures n == 1 ==> ArgvIs(o.memory, o.argv, ["a", ""])
  {
    hide Split, Words, Many, ArgvStarts, ArgvIs, AfterWord;
    var line := "memrun" + (" " + Many(n));
    AfterFirst("memrun", Many(n));
    ManyUnfold(n);
    AfterFirst("a", Many(n - 1));
    ManySplit(n);
    ManySplit(n - 1);
    var ws := Split(line);
    assert ws[0] == "memrun" && ws[1] == "a" && |ws| == n + 1;
    WordsOrSplit(Many(n - 1));
    if n == 1 {
      assert Letters(0) == [];
      assert ["a"] + Words(Many(0)) == ["a", ""];
    }
  }
}
