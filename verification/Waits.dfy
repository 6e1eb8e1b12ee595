/** What the program asks of the kernel: which descriptor each entry reads or
    writes, and how many completions a call waits for. */
module Waits {
  import opened Queue
  import opened EventLoop
  import opened LoopInvariant
  import opened LoopTheorems
  import opened UnlinkedLoop
  import opened UnlinkedTheorems

  // ---- The entries, by descriptor ---------------------------------------------------

  /** The prompt to the terminal, with the next entry linked behind it. */
  predicate IsPrompt(e: Sqe) {
    e == Sqe(OpWrite, 4, 0, 1, 0, Text("Command: "), 9, 0, 2, 0)
  }

  /** A line from the terminal into the input buffer. */
  predicate IsLineRead(e: Sqe) {
    e == Sqe(OpRead, 0, 0, 0, 0, InputBuffer, 1024, 0, 0, 0)
  }

  /** A signal from the signal descriptor into its structure. */
  predicate IsListen(e: Sqe, sigfd: int) {
    e == Sqe(OpRead, 0, 0, sigfd, 0, SignalInfo, 128, 0, 1, 0)
  }

  ghost predicate OnlyThese(es: seq<Sqe>, sigfd: int) {
    forall k :: 0 <= k < |es| ==> IsPrompt(es[k]) || IsLineRead(es[k]) || IsListen(es[k], sigfd)
  }

  lemma KnownAreThese(es: seq<Sqe>, sigfd: int)
    requires AllKnown(es, sigfd)
    ensures OnlyThese(es, sigfd)
  {
  }

  lemma FirstIsKnown(s: State)
    requires FreeInv(s) && s.q.published != []
    ensures OnlyThese([s.q.published[0]], s.sigfd)
  {
    hide Slim, Chained;
    var k := |s.inflight|;
    assert Incomplete(s)[k] == s.q.published[0];
    KnownAreThese(Incomplete(s), s.sigfd);
  }

  /** The kernel reads the oldest published entry, or none. */
  lemma ConsumedGrows(s: State, s': State)
    requires FreeNext(s, s') && !s'.pc.Halted? && !s'.pc.NullDereference?
    ensures s'.sigfd == s.sigfd
    ensures s'.q.consumed == s.q.consumed ||
      (s.q.published != [] && s'.q.consumed == s.q.consumed + [s.q.published[0]])
  {
    hide Owed, Incomplete, Answer;
  }

  lemma {:induction false} ConsumedAreThese(run: seq<State>, i: nat)
    requires IsFreeRun(run) && run[0].q.cap >= 3 && i < |run| && !run[i].pc.Halted?
    ensures OnlyThese(run[i].q.consumed, run[i].sigfd)
    decreases i
  {
    hide FreeInv, FreeNext;
    if i > 0 {
      assert FreeNext(run[i - 1], run[i]);
      FreeRunKeepsInv(run, i);
      FreeRunKeepsInv(run, i - 1);
      NotHaltedBefore(run[i - 1], run[i]);
      ConsumedAreThese(run, i - 1);
      ConsumedGrows(run[i - 1], run[i]);
      if run[i - 1].q.published != [] { FirstIsKnown(run[i - 1]); }
    }
  }

  lemma NotHaltedBefore(s: State, s': State)
    requires FreeNext(s, s')
    ensures !s.pc.Halted?
  {
  }

  /** Over any kernel, every entry the program ever hands over is one of three, in
      every field, whatever the slot it was written to held before. */
  lemma EveryEntryIsOneOfThree(run: seq<State>, i: nat)
    requires IsFreeRun(run) && run[0].q.cap >= 3 && i < |run| && !run[i].pc.Halted?
    ensures OnlyThese(run[i].q.Submitted(), run[i].sigfd)
  {
    hide IsFreeRun, Slim, Chained, Unconsumed;
    ConsumedAreThese(run, i);
    FreeRunKeepsInv(run, i);
    var s := run[i];
    KnownAreThese(Incomplete(s), s.sigfd);
    var waiting := s.q.published + s.q.pending;
    assert forall k :: 0 <= k < |waiting| ==> waiting[k] == Incomplete(s)[|s.inflight| + k];
    assert s.q.Submitted() == s.q.consumed + waiting;
  }

  /** Each prompt is followed at once by a line read, and each line read follows a
      prompt. */
  ghost predicate Paired(es: seq<Sqe>) {
    && (es != [] ==> !IsLineRead(es[0]) && !IsPrompt(es[|es| - 1]))
    && forall k, l :: 0 <= k < l < |es| && l == k + 1 ==> (IsPrompt(es[k]) <==> IsLineRead(es[l]))
  }

  lemma PairedConcat(a: seq<Sqe>, b: seq<Sqe>)
    requires Paired(a) && Paired(b)
    ensures Paired(a + b)
  {
    hide IsPrompt, IsLineRead;
    var es := a + b;
    forall k, l | 0 <= k < l < |es| && l == k + 1
      ensures IsPrompt(es[k]) <==> IsLineRead(es[l])
    {
      assert es[k] == if k < |a| then a[k] else b[k - |a|];
      assert es[l] == if l < |a| then a[l] else b[l - |a|];
    }
  }

  lemma AnswerShape(c: Cqe, sigfd: int)
    ensures var a := Answer(c, sigfd);
      Paired(a) && |a| == (if c.userData == 0 then 2 else if c.userData == 1 then 1 else 0)
  {
  }

  lemma {:induction false} AnswersShape(cs: seq<Cqe>, sigfd: int)
    ensures var all, tags := Answers(cs, sigfd), multiset(CqeTags(cs));
      && |all| == 3 + 2 * tags[0] + tags[1] && Paired(all)
      && IsPrompt(all[0]) && IsLineRead(all[1]) && IsListen(all[2], sigfd)
  {
    if cs != [] {
      var before, c := cs[..|cs| - 1], cs[|cs| - 1];
      AnswersShape(before, sigfd);
      hide *;
      AnswerShape(c, sigfd);
      PairedConcat(Answers(before, sigfd), Answer(c, sigfd));
      AnswersOneMore(cs, sigfd);
      OneTagMore(cs);
    } else {
      FirstThree(sigfd);
    }
  }

  lemma FirstThree(sigfd: int)
    ensures var all := [PromptWrite, PromptRead, SignalRead(sigfd)];
      Paired(all) && IsPrompt(all[0]) && IsLineRead(all[1]) && IsListen(all[2], sigfd)
  {
  }

  lemma OneTagMore(cs: seq<Cqe>)
    requires cs != []
    ensures var before, t := cs[..|cs| - 1], cs[|cs| - 1].userData;
      forall x :: multiset(CqeTags(cs))[x] == multiset(CqeTags(before))[x] + (if x == t then 1 else 0)
  {
    assert CqeTags(cs) == CqeTags(cs[..|cs| - 1]) + [cs[|cs| - 1].userData];
  }

  lemma AnswersOneMore(cs: seq<Cqe>, sigfd: int)
    requires cs != []
    ensures Answers(cs, sigfd) == Answers(cs[..|cs| - 1], sigfd) + Answer(cs[|cs| - 1], sigfd)
  {
    hide Answer;
  }

  /** What is submitted, and still owed to the completion in hand: first a prompt,
      its line read and a listener; then two more entries for each line read
      acknowledged and one for each signal; prompts and line reads always in
      pairs. */
  lemma SubmissionsComeInPairs(run: seq<State>, i: nat)
    requires IsRun(run) && run[0].q.cap >= 3 && i < |run| && !run[i].pc.Halted?
    ensures var s := run[i];
      var all, tags := s.q.Submitted() + Owed(s), multiset(CqeTags(Acknowledged(s)));
      && |all| == 3 + 2 * tags[0] + tags[1] && Paired(all)
      && IsPrompt(all[0]) && IsLineRead(all[1]) && IsListen(all[2], s.sigfd)
  {
    hide IsRun, Answers, Paired;
    HistoryIsAnswers(run, i);
    AnswersShape(Acknowledged(run[i]), run[i].sigfd);
  }

  function Descriptors(es: seq<Sqe>): (ds: seq<int>)
    ensures |ds| == |es| && forall k :: 0 <= k < |es| ==> ds[k] == es[k].fd
  {
    seq(|es|, k requires 0 <= k < |es| => es[k].fd)
  }

  lemma {:induction false} CountByDescriptor(es: seq<Sqe>, sigfd: int)
    requires OnlyThese(es, sigfd) && sigfd != 0 && sigfd != 1
    ensures var ds, ts := multiset(Descriptors(es)), multiset(SqeTags(es));
      ds[0] == ts[0] && ds[sigfd] == ts[1] && ds[1] == ts[2]
    decreases |es|
  {
    if es != [] {
      var before, e := es[..|es| - 1], es[|es| - 1];
      CountByDescriptor(before, sigfd);
      hide Descriptors, SqeTags;
      OneEntryMore(es);
    }
  }

  lemma OneEntryMore(es: seq<Sqe>)
    requires es != []
    ensures var before, e := es[..|es| - 1], es[|es| - 1];
      && multiset(Descriptors(es)) == multiset(Descriptors(before)) + multiset{e.fd}
      && multiset(SqeTags(es)) == multiset(SqeTags(before)) + multiset{e.userData}
  {
    var before, e := es[..|es| - 1], es[|es| - 1];
    assert Descriptors(es) == Descriptors(before) + [e.fd];
    assert SqeTags(es) == SqeTags(before) + [e.userData];
  }

  /** Over any kernel, each time the loop is about to wait: exactly one line is asked
      for on descriptor 0 or read already, exactly one signal on the signal's own
      descriptor, and everything else asked for writes the prompt to descriptor 1. */
  lemma FreeDescriptorsAtLoopHead(run: seq<State>, i: nat)
    requires IsFreeRun(run) && run[0].q.cap >= 3 && i < |run| && run[i].pc.LoopHead?
    requires run[i].sigfd != 0 && run[i].sigfd != 1
    ensures var s := run[i];
      var asked, done := s.inflight + s.q.published + s.q.pending, multiset(CqeTags(s.q.unread));
      var fds := multiset(Descriptors(asked));
      && OnlyThese(asked, s.sigfd)
      && fds[0] + done[0] == 1 && fds[s.sigfd] + done[1] == 1 && fds[1] + done[2] == Others(s)
  {
    hide IsFreeRun, Slim, Chained, Unconsumed;
    FreeOutstandingAtLoopHead(run, i);
    FreeRunKeepsInv(run, i);
    var s := run[i];
    var asked := s.inflight + s.q.published + s.q.pending;
    assert Incomplete(s) == asked;
    KnownAreThese(asked, s.sigfd);
    CountByDescriptor(asked, s.sigfd);
    assert multiset(CqeTags(s.q.unread) + SqeTags(asked))
        == multiset(CqeTags(s.q.unread)) + multiset(SqeTags(asked));
  }

  /** Over a kernel that honours links, at most one prompt is. */
  lemma DescriptorsAtLoopHead(run: seq<State>, i: nat)
    requires IsRun(run) && run[0].q.cap >= 3 && i < |run| && run[i].pc.LoopHead?
    requires run[i].sigfd != 0 && run[i].sigfd != 1
    ensures var s := run[i];
      var asked, done := s.inflight + s.q.published + s.q.pending, multiset(CqeTags(s.q.unread));
      var fds := multiset(Descriptors(asked));
      && OnlyThese(asked, s.sigfd)
      && fds[0] + done[0] == 1 && fds[s.sigfd] + done[1] == 1 && fds[1] + done[2] <= 1
  {
    hide IsRun, IsFreeRun, OnlyThese;
    RunIsFree(run);
    FreeDescriptorsAtLoopHead(run, i);
    OutstandingAtLoopHead(run, i);
    var s := run[i];
    assert Incomplete(s) == s.inflight + s.q.published + s.q.pending;
  }

  // ---- The calls -------------------------------------------------------------------------

  /** At each call of io_uring_enter along a run, in order, how many entries the
      program has published that the kernel has not consumed. */
  ghost function Flushes(run: seq<State>): seq<nat> {
    if |run| < 2 then []
    else Flushes(run[..|run| - 1]) + Flushed(run[|run| - 2], run[|run| - 1])
  }

  ghost function Flushed(s: State, s': State): seq<nat> {
    if s.pc.LoopHead? && s'.pc.InEnter? then [|s'.q.published|] else []
  }

  // ---- How many completions a wait can bring -----------------------------------------------

  /** Steps of the kernel alone, each link honoured. */
  ghost predicate KernelPath(path: seq<State>): (b: bool)
    ensures b ==> path != []
  {
    path != [] && forall i, j :: 0 <= i < j < |path| && j == i + 1 ==> KernelStep(path[i], path[j])
  }

  /** The kernel can bring it about, by itself, that `n` completions are unread. */
  ghost predicate CanPost(s: State, n: nat) {
    exists path: seq<State> :: KernelPath(path) && path != [] && path[0] == s && |path[|path| - 1].q.unread| >= n
  }

  /** What the kernel has been given and the program has not taken. */
  function Reachable(s: State): nat {
    |s.q.unread| + |s.inflight| + |s.q.published|
  }

  lemma KernelKeepsReachable(s: State, s': State)
    requires KernelStep(s, s')
    ensures Reachable(s') == Reachable(s)
  {
    var a: KernelAction :| Possible(s, a) && s' == KernelAct(s, a);
  }

  lemma {:induction false} PathKeepsReachable(path: seq<State>, i: nat)
    requires KernelPath(path) && i < |path|
    ensures Reachable(path[i]) == Reachable(path[0])
    decreases i
  {
    hide KernelStep;
    if i > 0 {
      PathKeepsReachable(path, i - 1);
      assert KernelStep(path[i - 1], path[i]);
      KernelKeepsReachable(path[i - 1], path[i]);
    }
  }

  lemma StepBefore(s: State, a: KernelAction, path: seq<State>)
    requires Possible(s, a) && KernelPath(path) && path[0] == KernelAct(s, a)
    ensures KernelPath([s] + path) && ([s] + path)[|path|] == path[|path| - 1]
    ensures Reachable(KernelAct(s, a)) == Reachable(s)
  {
    hide Feasible, KernelAct;
    var longer := [s] + path;
    assert KernelStep(s, KernelAct(s, a));
    KernelKeepsReachable(s, KernelAct(s, a));
    forall i, j | 0 <= i < j < |longer| && j == i + 1
      ensures KernelStep(longer[i], longer[j])
    {
      if i > 0 { assert KernelStep(path[i - 1], path[j - 1]); }
    }
  }

  /** The kernel consumes all it was given, then completes the oldest each time. */
  lemma {:induction false} PostAll(s: State) returns (path: seq<State>)
    ensures KernelPath(path) && path[0] == s && |path[|path| - 1].q.unread| == Reachable(s)
    decreases |s.q.published|, |s.inflight|
  {
    hide KernelPath;
    if s.q.published != [] {
      var later := PostAll(KernelAct(s, Consume));
      StepBefore(s, Consume, later);
      path := [s] + later;
    } else if s.inflight != [] {
      var a := Complete(0, 0, []);
      var later := PostAll(KernelAct(s, a));
      StepBefore(s, a, later);
      path := [s] + later;
    } else {
      path := [s];
      assert KernelPath(path) by { OneStateIsPath(s); }
    }
  }

  lemma OneStateIsPath(s: State)
    ensures KernelPath([s])
  {
  }

  lemma CanPostIff(s: State, n: nat)
    ensures CanPost(s, n) <==> n <= Reachable(s)
  {
    if n <= Reachable(s) {
      var path := PostAll(s);
      assert path[0] == s;
    }
    if CanPost(s, n) {
      var path: seq<State> :| KernelPath(path) && path != [] && path[0] == s && |path[|path| - 1].q.unread| >= n;
      PathKeepsReachable(path, |path| - 1);
    }
  }

  /** Inside io_uring_enter a wait for `count` completions can end exactly when
      `count` is at most what the kernel holds and what is unread, and that is 2
      or 3: a wait for one or two always can, a wait for four never. */
  lemma WaitIsAnswerableIff(run: seq<State>, i: nat, count: nat)
    requires IsRun(run) && run[0].q.cap >= 3 && i < |run| && run[i].pc.InEnter?
    ensures CanPost(run[i], count) <==> count <= Reachable(run[i])
    ensures 2 <= Reachable(run[i]) <= 3
  {
    hide WholeChains, Answers, AllLanded, Faithful, CanPost, Balanced;
    CanPostIff(run[i], count);
    RunKeepsInv(run, i);
    BalancedSize(Pipe(run[i]));
    PipeLength(run[i]);
  }

  /** Over any kernel a wait for one or two completions can still end. */
  lemma FreeWaitIsAnswerableIff(run: seq<State>, i: nat, count: nat)
    requires IsFreeRun(run) && run[0].q.cap >= 3 && i < |run| && run[i].pc.InEnter?
    ensures CanPost(run[i], count) <==> count <= Reachable(run[i])
    ensures Reachable(run[i]) == 2 + Others(run[i])
  {
    hide CanPost;
    CanPostIff(run[i], count);
    FreeRunKeepsInv(run, i);
    SlimSize(Pipe(run[i]));
    FlushedInEnter(run, i);
    PipeSizes(run[i]);
  }

  lemma {:induction false} FlushedInEnter(run: seq<State>, i: nat)
    requires IsFreeRun(run) && i < |run| && run[i].pc.InEnter?
    ensures run[i].q.pending == []
    decreases i
  {
    if i > 0 {
      assert FreeNext(run[i - 1], run[i]);
      if run[i - 1].pc.InEnter? { FlushedInEnter(run, i - 1); }
      FlushedStep(run[i - 1], run[i]);
    }
  }

  lemma FlushedStep(s: State, s': State)
    requires FreeNext(s, s') && s'.pc.InEnter? && (s.pc.InEnter? ==> s.q.pending == [])
    ensures s'.q.pending == []
  {
  }
}
