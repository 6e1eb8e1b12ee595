/** What holds along every run of the event loop, for any kernel behaviour. */
module LoopTheorems {
  import opened Queue
  import opened EventLoop
  import opened LoopInvariant

  lemma StartHasShape(s: State)
    requires Start(s)
    ensures Shape(s)
  {
    hide Chained, AllKnown, Balanced;
    var read, listen := Cqe(EVENT_CONSOLE_READ, 0), Cqe(EVENT_SIGNAL, 0);
    NothingIsWhole(s.sigfd);
    AppendKeepsChains([], read, s.sigfd);
    assert [] + Answer(read, s.sigfd) == Answer(read, s.sigfd);
    AppendKeepsChains(Answer(read, s.sigfd), listen, s.sigfd);
    assert Incomplete(s) == Answer(read, s.sigfd) + Answer(listen, s.sigfd);
    assert Pipe(s) == [EVENT_OTHER, EVENT_CONSOLE_READ, EVENT_SIGNAL];
    FirstIsBalanced();
  }

  lemma FirstIsBalanced()
    ensures Balanced([EVENT_OTHER, EVENT_CONSOLE_READ, EVENT_SIGNAL])
  {
    var p := [EVENT_OTHER, EVENT_CONSOLE_READ, EVENT_SIGNAL];
    assert p[1] == EVENT_CONSOLE_READ && p[2] == EVENT_SIGNAL;
  }

  lemma NothingIsWhole(sigfd: int)
    ensures WholeChains([], sigfd)
  {
  }

  lemma StartHasInv(s: State)
    requires Start(s)
    ensures Inv(s)
  {
    hide Shape;
    StartHasShape(s);
  }

  /** In every run on at least 3 submission entries, every state but a halted
      one satisfies the invariant, and no refused submission is dereferenced. */
  lemma {:induction false} RunKeepsInv(run: seq<State>, i: nat)
    requires IsRun(run) && run[0].q.cap >= 3 && i < |run|
    ensures run[i].pc.Halted? || Inv(run[i])
    ensures !run[i].pc.NullDereference? && run[i].q.cap == run[0].q.cap
    decreases i
  {
    hide Inv, ProgramStep, KernelStep;
    if i == 0 {
      StartHasInv(run[0]);
      StartRunning(run[0]);
    } else {
      RunKeepsInv(run, i - 1);
      assert Next(run[i - 1], run[i]);
      if ProgramStep(run[i - 1], run[i]) {
        HaltedIsFinal(run[i - 1], run[i]);
        ProgramStepKeepsInv(run[i - 1], run[i]);
      } else {
        KernelStepKeepsInv(run[i - 1], run[i]);
      }
    }
  }

  lemma StartRunning(s: State)
    requires Start(s)
    ensures s.pc.Starting?
  {
  }

  lemma HaltedIsFinal(s: State, s': State)
    requires ProgramStep(s, s')
    ensures !s.pc.Halted?
  {
  }

  lemma RefusedWithout3(cap: nat) returns (run: seq<State>)
    requires cap < 3
    ensures IsRun(run) && run[0].q.cap == cap && run[|run| - 1].pc.NullDereference?
  {
    var todo := [PromptWrite, PromptRead, SignalRead(0)];
    var s0 := State(Fifo(cap, [], [], [], 6, [], []), [], Starting(todo),
                    seq(BUFFER_SIZE, _ => '\0'), [], 0);
    var s1 := SubmitNext(s0, todo[0], Starting(todo[1..]));
    if cap == 0 {
      return [s0, s1];
    }
    var s2 := SubmitNext(s1, todo[1], Starting(todo[2..]));
    assert todo[1..][1..] == todo[2..];
    assert ProgramStep(s1, s2);
    if cap == 1 {
      return [s0, s1, s2];
    }
    var s3 := SubmitNext(s2, todo[2], Starting(todo[3..]));
    assert todo[2..][1..] == todo[3..];
    assert ProgramStep(s2, s3);
    return [s0, s1, s2, s3];
  }

  /** The three call sites that do not check for NULL are safe in every run
      exactly when the ring has at least 3 submission entries. */
  lemma NullDereferenceIff(cap: nat)
    ensures (exists run: seq<State> :: IsRun(run) && run[0].q.cap == cap && run[|run| - 1].pc.NullDereference?)
            <==> cap < 3
  {
    if cap < 3 {
      var run := RefusedWithout3(cap);
      assert IsRun(run);
    } else {
      forall run: seq<State> | IsRun(run) && run[0].q.cap == cap
        ensures !run[|run| - 1].pc.NullDereference?
      {
        RunKeepsInv(run, |run| - 1);
      }
    }
  }

  /** Each time the loop is about to wait, exactly one console read, exactly one
      signal read and at most one other event are outstanding, counted over the
      unread completions, the kernel's operations and both queues. */
  lemma OutstandingAtLoopHead(run: seq<State>, i: nat)
    requires IsRun(run) && run[0].q.cap >= 3 && i < |run| && run[i].pc.LoopHead?
    ensures var s := run[i];
      var events := multiset(CqeTags(s.q.unread) + SqeTags(s.inflight + s.q.published + s.q.pending));
      && events[EVENT_CONSOLE_READ] == 1 && events[EVENT_SIGNAL] == 1 && events[EVENT_OTHER] <= 1
      && |events| == 2 + events[EVENT_OTHER]
  {
    RunKeepsInv(run, i);
    var s := run[i];
    assert Incomplete(s) == s.inflight + s.q.published + s.q.pending;
    BalancedMultiset(Pipe(s));
  }

  lemma BalancedMultiset(p: seq<nat>)
    requires Balanced(p)
    ensures multiset(p)[EVENT_CONSOLE_READ] == 1 && multiset(p)[EVENT_SIGNAL] == 1
    ensures multiset(p)[EVENT_OTHER] <= 1 && |multiset(p)| == 2 + multiset(p)[EVENT_OTHER]
  {
    BalancedSize(p);
    assert forall i :: 0 <= i < |p| ==> p[i] in p;
    if |p| == 2 {
      assert p == [p[0], p[1]];
    } else {
      assert p == [p[0], p[1], p[2]];
    }
  }

  /** Inside io_uring_enter both reads are with the kernel or answered already;
      and a completion is waiting, or an entry can be consumed, or the oldest
      operation in flight is free to complete. */
  lemma WaitIsAnswerable(run: seq<State>, i: nat)
    requires IsRun(run) && run[0].q.cap >= 3 && i < |run| && run[i].pc.InEnter?
    ensures var s := run[i];
      var events := CqeTags(s.q.unread) + SqeTags(s.inflight + s.q.published);
      && EVENT_CONSOLE_READ in events && EVENT_SIGNAL in events
      && (s.q.unread != [] || Possible(s, Consume) || Possible(s, Complete(0, 0, [])))
  {
    hide WholeChains, Answers, AllLanded;
    RunKeepsInv(run, i);
    var s := run[i];
    assert Incomplete(s) == s.inflight + s.q.published;
    PipeLength(s);
  }

  /** While a line is being processed the buffer belongs to the program: it holds
      exactly what the completed read delivered, no console read is queued,
      published or in flight, and no kernel step changes it. */
  lemma BufferIsOwned(run: seq<State>, i: nat)
    requires IsRun(run) && run[0].q.cap >= 3 && i < |run|
    requires run[i].pc.RunningCommand? ||
      (run[i].pc.Handling? && run[i].pc.cqe.userData == EVENT_CONSOLE_READ && run[i].pc.cqe.res > 0)
    ensures var s := run[i];
      && |s.line| == s.pc.cqe.res <= |s.buffer| && s.buffer[..s.pc.cqe.res] == s.line
      && (forall e :: e in s.inflight + s.q.published + s.q.pending ==> !IsConsoleRead(e))
      && (forall s': State :: KernelStep(s, s') ==> s'.buffer == s.buffer && s'.line == s.line)
  {
    hide Balanced, WholeChains, Answers, IsConsoleRead, Pipe, KernelStep;
    RunKeepsInv(run, i);
    var s := run[i];
    NoSecondRead(s);
    forall s': State | KernelStep(s, s')
      ensures s'.buffer == s.buffer && s'.line == s.line
    {
      OnlyReadsWrite(s, s');
    }
  }

  lemma OnlyReadsWrite(s: State, s': State)
    requires KernelStep(s, s')
    requires forall k :: 0 <= k < |s.inflight| ==> !IsConsoleRead(s.inflight[k])
    ensures s'.buffer == s.buffer && s'.line == s.line
  {
    var a: KernelAction :| Possible(s, a) && s' == KernelAct(s, a);
  }

  /** Every flush publishes whole chains: in the batch each prompt write is
      immediately followed by its console read, and no published window, at any
      time, ends in a linked entry. */
  lemma FlushPublishesWholeChains(run: seq<State>, i: nat)
    requires IsRun(run) && run[0].q.cap >= 3 && i < |run| && !run[i].pc.Halted?
    ensures var s := run[i];
      && (s.q.published != [] ==> s.q.published[|s.q.published| - 1].flags != IO_LINK)
      && (s.pc.LoopHead? ==> WholeChains(s.q.pending, s.sigfd))
  {
    hide Inv;
    RunKeepsInv(run, i);
    if run[i].q.published != [] {
      PublishedWhole(run[i]);
    }
    if run[i].pc.LoopHead? {
      PendingWhole(run[i]);
    }
  }

  lemma PublishedWhole(s: State)
    requires Inv(s) && s.q.published != []
    ensures s.q.published[|s.q.published| - 1].flags != IO_LINK
  {
    hide Balanced, Chained, Answers, AllLanded, InHand;
    var k := |s.inflight| + |s.q.published| - 1;
    assert Incomplete(s)[k] == s.q.published[|s.q.published| - 1];
  }

  lemma PendingWhole(s: State)
    requires Inv(s) && Owed(s) == []
    ensures WholeChains(s.q.pending, s.sigfd)
  {
    hide Balanced, Chained, AllKnown, Answers, AllLanded, InHand;
    var ahead := s.inflight + s.q.published;
    assert Incomplete(s) == ahead + s.q.pending;
    ChainsSuffix(ahead, s.q.pending, s.sigfd);
  }

  lemma ChainedSuffix(a: seq<nat>, b: seq<nat>)
    requires Chained(a + b)
    ensures Chained(b)
  {
    var n, ts := |a|, a + b;
    assert forall i :: 0 <= i < |b| ==> ts[n + i] == b[i];
    assert b != [] ==> ts[|ts| - 1] == b[|b| - 1];
    forall i, j | 0 <= i < j < |b| && j == i + 1 && b[i] == EVENT_OTHER
      ensures b[j] == EVENT_CONSOLE_READ
    {
      assert ts[n + i] == b[i] && ts[n + j] == b[j];
    }
  }

  lemma ChainsSuffix(a: seq<Sqe>, b: seq<Sqe>, sigfd: int)
    requires WholeChains(a + b, sigfd)
    ensures WholeChains(b, sigfd)
  {
    hide Chained;
    TagsConcat(a, b);
    ChainedSuffix(SqeTags(a), SqeTags(b));
    assert forall i :: 0 <= i < |b| ==> (a + b)[|a| + i] == b[i];
  }

  /** The whole history of submissions is determined: the start-up prompt and
      listener, then the answer to each acknowledged completion in order. */
  lemma HistoryIsAnswers(run: seq<State>, i: nat)
    requires IsRun(run) && run[0].q.cap >= 3 && i < |run| && !run[i].pc.Halted?
    ensures var s := run[i];
      && s.q.Submitted() + Owed(s) == Answers(Acknowledged(s), s.sigfd)
      && AllKnown(s.q.Submitted(), s.sigfd)
  {
    RunKeepsInv(run, i);
    var s := run[i];
    AnswersKnown(Acknowledged(s), s.sigfd);
    var all := s.q.Submitted() + Owed(s);
    assert forall k :: 0 <= k < |s.q.Submitted()| ==> all[k] == s.q.Submitted()[k];
  }

  lemma {:induction false} AnswersKnown(cs: seq<Cqe>, sigfd: int)
    ensures AllKnown(Answers(cs, sigfd), sigfd)
  {
    if cs != [] {
      AnswersKnown(cs[..|cs| - 1], sigfd);
    }
  }

  /** The completion ring never holds more than 3 entries, each with one of the
      three tags, and the loop advances it only over the entry it handled. */
  lemma CompletionsFit(run: seq<State>, i: nat)
    requires IsRun(run) && run[0].q.cap >= 3 && i < |run| && !run[i].pc.Halted?
    ensures var s := run[i];
      && |s.q.unread| <= 3
      && (forall c :: c in s.q.unread ==> c.userData in {EVENT_CONSOLE_READ, EVENT_SIGNAL, EVENT_OTHER})
      && (HeadInHand(s) ==> s.q.unread != [] && s.q.unread[0] == s.pc.cqe)
  {
    hide Inv;
    RunKeepsInv(run, i);
    FewUnread(run[i]);
  }

  lemma FewUnread(s: State)
    requires Inv(s)
    ensures |s.q.unread| <= 3
    ensures forall c :: c in s.q.unread ==> c.userData <= EVENT_OTHER
    ensures HeadInHand(s) ==> s.q.unread != [] && s.q.unread[0] == s.pc.cqe
  {
    hide Balanced, WholeChains, Answers, AllLanded, Windows, Pipe;
    BalancedSize(Pipe(s));
    PipeLength(s);
    forall c | c in s.q.unread
      ensures c.userData <= EVENT_OTHER
    {
      if c in Unhandled(s) { UnhandledTag(s, c); }
    }
  }

  lemma PipeLength(s: State)
    ensures |Pipe(s)| == |Unhandled(s)| + |Incomplete(s)|
    ensures |Incomplete(s)| == |s.inflight| + |s.q.published| + |s.q.pending + Owed(s)|
  {
  }

  lemma UnhandledTag(s: State, c: Cqe)
    requires Balanced(Pipe(s)) && c in Unhandled(s)
    ensures c.userData <= EVENT_OTHER
  {
    var k :| 0 <= k < |Unhandled(s)| && Unhandled(s)[k] == c;
    assert Pipe(s)[k] == c.userData;
    assert Pipe(s)[k] in Pipe(s);
  }

  ghost predicate Accounted(s: State) {
    multiset(SqeTags(s.q.consumed)) == multiset(CqeTags(s.q.Posted())) + multiset(SqeTags(s.inflight))
  }

  lemma TagsAppend(es: seq<Sqe>, e: Sqe)
    ensures SqeTags(es + [e]) == SqeTags(es) + [e.userData]
  {
  }

  lemma CqeTagsAppend(cs: seq<Cqe>, c: Cqe)
    ensures CqeTags(cs + [c]) == CqeTags(cs) + [c.userData]
  {
  }

  lemma ConsumeAccounts(s: State)
    requires Accounted(s) && Possible(s, Consume)
    ensures Accounted(KernelAct(s, Consume))
  {
    TagsAppend(s.q.consumed, s.q.published[0]);
    TagsAppend(s.inflight, s.q.published[0]);
  }

  lemma CompleteAccounts(s: State, i: nat, res: int, bytes: seq<char>)
    requires Accounted(s) && Possible(s, Complete(i, res, bytes))
    ensures Accounted(KernelAct(s, Complete(i, res, bytes)))
  {
    var s' := KernelAct(s, Complete(i, res, bytes));
    var c := Cqe(s.inflight[i].userData, res);
    assert s'.q.Posted() == s.q.Posted() + [c];
    CqeTagsAppend(s.q.Posted(), c);
    RemoveTag(s.inflight, i);
    TakeOutOfMultiset(SqeTags(s.inflight), i);
  }

  lemma TakeOutOfMultiset(ts: seq<nat>, i: nat)
    requires i < |ts|
    ensures multiset(ts) == multiset(ts[..i] + ts[i + 1..]) + multiset{ts[i]}
  {
    assert ts == ts[..i] + [ts[i]] + ts[i + 1..];
  }

  lemma KernelStepAccounts(s: State, s': State)
    requires Accounted(s) && KernelStep(s, s')
    ensures Accounted(s')
  {
    var a: KernelAction :| Possible(s, a) && s' == KernelAct(s, a);
    match a
    case Consume => ConsumeAccounts(s);
    case Scribble(_) =>
    case Complete(i, res, bytes) => CompleteAccounts(s, i, res, bytes);
  }

  lemma ProgramStepAccounts(s: State, s': State)
    requires Accounted(s) && ProgramStep(s, s')
    ensures Accounted(s')
  {
    if s.pc.Handled? {
      assert s'.q.Posted() == s.q.Posted();
    }
  }

  /** The tags consumed are the tags completed and the tags still in flight. */
  lemma {:induction false} RunAccounts(run: seq<State>, i: nat)
    requires IsRun(run) && i < |run|
    ensures Accounted(run[i])
    decreases i
  {
    hide Accounted, ProgramStep, KernelStep;
    if i == 0 {
      StartAccounts(run[0]);
    } else {
      RunAccounts(run, i - 1);
      assert Next(run[i - 1], run[i]);
      if ProgramStep(run[i - 1], run[i]) {
        ProgramStepAccounts(run[i - 1], run[i]);
      } else {
        KernelStepAccounts(run[i - 1], run[i]);
      }
    }
  }

  lemma StartAccounts(s: State)
    requires Start(s)
    ensures Accounted(s)
  {
  }

  /** The loop has acted exactly once on every console read and every signal read
      it ever submitted, but for the one of each that is outstanding; and on
      every prompt write, but for one at most. */
  lemma EverySubmissionActedOnOnce(run: seq<State>, i: nat)
    requires IsRun(run) && run[0].q.cap >= 3 && i < |run| && run[i].pc.LoopHead?
    ensures var s := run[i];
      var submitted, acted := multiset(SqeTags(s.q.Submitted())), multiset(CqeTags(s.q.taken));
      && submitted[EVENT_CONSOLE_READ] == acted[EVENT_CONSOLE_READ] + 1
      && submitted[EVENT_SIGNAL] == acted[EVENT_SIGNAL] + 1
      && acted[EVENT_OTHER] <= submitted[EVENT_OTHER] <= acted[EVENT_OTHER] + 1
  {
    hide Accounted;
    OutstandingAtLoopHead(run, i);
    RunAccounts(run, i);
    SubmittedIsActedOrOutstanding(run[i]);
  }

  /** What was submitted was acted on or is outstanding. */
  lemma SubmittedIsActedOrOutstanding(s: State)
    requires Accounted(s)
    ensures multiset(SqeTags(s.q.Submitted())) == multiset(CqeTags(s.q.taken)) +
      multiset(CqeTags(s.q.unread) + SqeTags(s.inflight + s.q.published + s.q.pending))
  {
    var waiting := s.q.published + s.q.pending;
    assert s.q.Submitted() == s.q.consumed + waiting;
    TagsConcat(s.q.consumed, waiting);
    assert s.inflight + s.q.published + s.q.pending == s.inflight + waiting;
    TagsConcat(s.inflight, waiting);
    assert CqeTags(s.q.Posted()) == CqeTags(s.q.taken) + CqeTags(s.q.unread);
  }
}
