/** What holds along every run over a kernel that need not honour links: who owns
    the buffer, what was delivered, and exactly when at most one event besides the
    two reads is outstanding. */
module UnlinkedTheorems {
  import opened Queue
  import opened EventLoop
  import opened LoopInvariant
  import opened LoopTheorems
  import opened UnlinkedLoop

  // ---- The buffer ---------------------------------------------------------------------

  /** A tag other than that of a prompt write stands at one place of the pipe. */
  lemma LastReadIsOnlyOne(s: State, early: seq<Sqe>)
    requires Slim(Pipe(s)) && Incomplete(s) == early + [PromptWrite, PromptRead]
    ensures forall e :: e in early ==> e.userData != EVENT_CONSOLE_READ
    ensures forall c :: c in Unhandled(s) ==> c.userData != EVENT_CONSOLE_READ
  {
    hide Chained, AllKnown;
    var p, u := Pipe(s), |Unhandled(s)|;
    assert p[|p| - 1] == EVENT_CONSOLE_READ;
    forall c | c in Unhandled(s)
      ensures c.userData != EVENT_CONSOLE_READ
    {
      var i :| 0 <= i < u && Unhandled(s)[i] == c;
      assert p[i] == c.userData;
    }
    forall e | e in early
      ensures e.userData != EVENT_CONSOLE_READ
    {
      var i :| 0 <= i < |early| && early[i] == e;
      assert p[u + i] == e.userData;
    }
  }

  /** The buffer belongs to the program while a line is processed, whatever the
      kernel makes of links: no console read is queued, published or in flight,
      and no kernel step changes it. */
  lemma FreeBufferIsOwned(run: seq<State>, i: nat)
    requires IsFreeRun(run) && run[0].q.cap >= 3 && i < |run|
    requires run[i].pc.Handling? || run[i].pc.RunningCommand?
    requires run[i].pc.cqe.userData == EVENT_CONSOLE_READ
    ensures var s := run[i];
      && (forall e :: e in s.inflight + s.q.published + s.q.pending ==> !IsConsoleRead(e))
      && (forall s': State :: FreeKernelStep(s, s') ==> s'.buffer == s.buffer && s'.line == s.line)
  {
    hide FreeKernelStep, FreeInv;
    FreeRunKeepsInv(run, i);
    NoReadMeanwhile(run[i]);
    forall s': State | FreeKernelStep(run[i], s')
      ensures s'.buffer == run[i].buffer && s'.line == run[i].line
    {
      OnlyFreeReadsWrite(run[i], s');
    }
  }

  lemma NoReadMeanwhile(s: State)
    requires FreeInv(s) && (s.pc.Handling? || s.pc.RunningCommand?)
    requires s.pc.cqe.userData == EVENT_CONSOLE_READ
    ensures forall e :: e in s.inflight + s.q.published + s.q.pending ==> !IsConsoleRead(e)
    ensures forall c :: c in Unhandled(s) ==> c.userData != EVENT_CONSOLE_READ
  {
    hide Slim, Chained, Pipe;
    var early := s.inflight + s.q.published + s.q.pending;
    LastReadIsOnlyOne(s, early);
    forall e | e in early
      ensures !IsConsoleRead(e)
    {
      var k :| 0 <= k < |early| && early[k] == e;
      assert Incomplete(s)[k] == e;
    }
  }

  lemma OnlyFreeReadsWrite(s: State, s': State)
    requires FreeKernelStep(s, s')
    requires forall e :: e in s.inflight + s.q.published + s.q.pending ==> !IsConsoleRead(e)
    ensures s'.buffer == s.buffer && s'.line == s.line
  {
    hide IsConsoleRead;
    var a: KernelAction :| Feasible(s, a) && s' == KernelAct(s, a);
    assert forall e :: e in s.inflight ==> e in s.inflight + s.q.published + s.q.pending;
    assert a.Complete? ==> s.inflight[a.i] in s.inflight;
  }

  // ---- What was delivered ---------------------------------------------------------------

  /** While a console read is in flight no other one is waiting or in hand. */
  lemma FreeReadIsAlone(s: State, i: nat)
    requires FreeInv(s) && i < |s.inflight| && IsConsoleRead(s.inflight[i])
    ensures forall c :: c in Unhandled(s) ==> c.userData != EVENT_CONSOLE_READ
    ensures s.pc.Handling? || s.pc.RunningCommand? ==> s.pc.cqe.userData != EVENT_CONSOLE_READ
    ensures s.inflight[i] == PromptRead
  {
    hide Chained, Unconsumed;
    var p, u := Pipe(s), |Unhandled(s)|;
    assert Incomplete(s)[i] == s.inflight[i];
    assert p[u + i] == EVENT_CONSOLE_READ;
    forall c | c in Unhandled(s)
      ensures c.userData != EVENT_CONSOLE_READ
    {
      var j :| 0 <= j < u && Unhandled(s)[j] == c;
      assert p[j] == c.userData;
    }
    if (s.pc.Handling? || s.pc.RunningCommand?) && s.pc.cqe.userData == EVENT_CONSOLE_READ {
      NoReadMeanwhile(s);
      InFlightIsEarly(s, i);
    }
  }

  lemma InFlightIsEarly(s: State, i: nat)
    requires i < |s.inflight|
    ensures s.inflight[i] in s.inflight + s.q.published + s.q.pending
  {
    assert (s.inflight + s.q.published + s.q.pending)[i] == s.inflight[i];
  }

  /** A completed console read's bytes are in the buffer, and the completion in
      hand is the one at the head of the ring. */
  ghost predicate FreeLanded(s: State) {
    && |s.buffer| == BUFFER_SIZE && AllLanded(s)
    && (HeadInHand(s) ==> s.q.unread != [] && s.q.unread[0] == s.pc.cqe)
    && (s.pc.RunningCommand? ==> s.pc.cqe.userData == EVENT_CONSOLE_READ)
  }

  lemma ProgramStepKeepsLanded(s: State, s': State)
    requires FreeInv(s) && FreeLanded(s) && s.q.cap >= 3 && ProgramStep(s, s') && !s'.pc.Halted?
    requires !s'.pc.NullDereference?
    ensures FreeLanded(s')
  {
    hide FreeInv, Landed, Answer, Owed;
    if s.pc.Entered? && s.q.unread != [] {
      PickUpKeepsLanded(s, s');
    } else if s.pc.RunningCommand? {
      NoReadMeanwhile(s);
      NothingLanded(s');
    } else {
      assert Unhandled(s') == Unhandled(s);
      forall c | c in Unhandled(s')
        ensures Landed(s', c)
      {
        SameLanded(s, s', c);
      }
      if s'.pc.RunningCommand? || s'.pc.Handling? { SameLanded(s, s', s.pc.cqe); }
    }
  }

  lemma SameLanded(s: State, s': State, c: Cqe)
    requires Landed(s, c) && s'.buffer == s.buffer && s'.line == s.line
    ensures Landed(s', c)
  {
  }

  lemma NothingLanded(s: State)
    requires forall c :: c in Unhandled(s) ==> c.userData != EVENT_CONSOLE_READ
    requires !s.pc.Handling? && !s.pc.RunningCommand?
    ensures AllLanded(s)
  {
  }

  lemma FreeCompleteKeepsLanded(s: State, i: nat, res: int, bytes: seq<char>)
    requires FreeInv(s) && FreeLanded(s) && Feasible(s, Complete(i, res, bytes))
    ensures FreeLanded(KernelAct(s, Complete(i, res, bytes)))
  {
    hide Slim, Chained, Pipe, Incomplete;
    var s' := KernelAct(s, Complete(i, res, bytes));
    var e := s.inflight[i];
    CompletionRemoves(s, i, res, bytes);
    if IsConsoleRead(e) {
      FreeReadIsAlone(s, i);
      assert s'.buffer[..|bytes|] == bytes;
    } else {
      NoConsoleRead(s, i);
    }
    forall c | c in Unhandled(s')
      ensures Landed(s', c)
    {
      assert c in Unhandled(s) || c == Cqe(e.userData, res);
    }
  }

  lemma NoConsoleRead(s: State, i: nat)
    requires FreeInv(s) && i < |s.inflight| && !IsConsoleRead(s.inflight[i])
    ensures s.inflight[i].userData != EVENT_CONSOLE_READ
  {
    assert Incomplete(s)[i] == s.inflight[i];
  }

  lemma FreeKernelStepKeepsLanded(s: State, s': State)
    requires FreeInv(s) && FreeLanded(s) && FreeKernelStep(s, s')
    ensures FreeLanded(s')
  {
    hide FreeInv, Landed;
    var a: KernelAction :| Feasible(s, a) && s' == KernelAct(s, a);
    match a
    case Consume =>
      forall c | Landed(s, c)
        ensures Landed(s', c)
      {
        SameLanded(s, s', c);
      }
    case Scribble(_) =>
      var e :| e in s.inflight && IsConsoleRead(e);
      var i :| 0 <= i < |s.inflight| && s.inflight[i] == e;
      FreeReadIsAlone(s, i);
      OtherLanded(s');
    case Complete(i, res, bytes) => FreeCompleteKeepsLanded(s, i, res, bytes);
  }

  lemma OtherLanded(s: State)
    requires forall c :: c in Unhandled(s) ==> c.userData != EVENT_CONSOLE_READ
    requires s.pc.Handling? || s.pc.RunningCommand? ==> s.pc.cqe.userData != EVENT_CONSOLE_READ
    ensures AllLanded(s)
  {
  }

  lemma StartIsLanded(s: State)
    requires Start(s)
    ensures FreeLanded(s)
  {
  }

  lemma {:induction false} FreeRunKeepsLanded(run: seq<State>, i: nat)
    requires IsFreeRun(run) && run[0].q.cap >= 3 && i < |run| && !run[i].pc.Halted?
    ensures FreeLanded(run[i])
    decreases i
  {
    hide FreeInv, FreeLanded, ProgramStep, FreeKernelStep;
    if i == 0 {
      StartIsLanded(run[0]);
    } else {
      assert FreeNext(run[i - 1], run[i]);
      FreeRunKeepsInv(run, i);
      FreeRunKeepsInv(run, i - 1);
      if ProgramStep(run[i - 1], run[i]) {
        HaltedIsFinal(run[i - 1], run[i]);
        FreeRunKeepsLanded(run, i - 1);
        ProgramStepKeepsLanded(run[i - 1], run[i]);
      } else {
        FreeRunKeepsLanded(run, i - 1);
        FreeKernelStepKeepsLanded(run[i - 1], run[i]);
      }
    }
  }

  // ---- At most one other event: exactly when ---------------------------------------------

  /** Events other than reads that are queued, in flight, unread or owed. */
  function Others(s: State): nat {
    multiset(Pipe(s))[EVENT_OTHER]
  }

  /** The tags of the completions the loop has taken up, in the order the kernel
      posted them. */
  function TakenUp(s: State): seq<nat> {
    CqeTags(Acknowledged(s))
  }

  /** Each console read's completion is posted after its prompt write's: nowhere
      have more reads completed than prompts. */
  ghost predicate PromptsFirst(ts: seq<nat>) {
    forall k :: 0 <= k <= |ts| ==> InStep(ts[..k])
  }

  ghost predicate InStep(ts: seq<nat>) {
    multiset(ts)[EVENT_CONSOLE_READ] <= multiset(ts)[EVENT_OTHER]
  }

  lemma PickUpCountsOthers(p: seq<nat>, a: seq<nat>)
    requires p != []
    requires a == if p[0] == EVENT_CONSOLE_READ then [EVENT_OTHER, EVENT_CONSOLE_READ]
                  else if p[0] == EVENT_SIGNAL then [EVENT_SIGNAL] else []
    ensures multiset(p[1..] + a)[EVENT_OTHER] + (if p[0] == EVENT_OTHER then 1 else 0) ==
      multiset(p)[EVENT_OTHER] + (if p[0] == EVENT_CONSOLE_READ then 1 else 0)
  {
    assert p == [p[0]] + p[1..];
  }

  /** Only taking up a console read adds an outstanding event. */
  lemma StepCountsOthers(s: State, s': State)
    requires FreeInv(s) && s.q.cap >= 3 && FreeNext(s, s') && !s'.pc.Halted?
    ensures !PicksUp(s, s') ==> Others(s') == Others(s)
    ensures PicksUp(s, s') ==> s'.pc.cqe.userData <= EVENT_OTHER
    ensures PicksUp(s, s') && s'.pc.cqe.userData == EVENT_CONSOLE_READ ==> Others(s') == Others(s) + 1
    ensures PicksUp(s, s') && s'.pc.cqe.userData == EVENT_SIGNAL ==> Others(s') == Others(s)
    ensures PicksUp(s, s') && s'.pc.cqe.userData == EVENT_OTHER ==> Others(s') + 1 == Others(s)
  {
    hide FreeInv, FreeKernelStep, ProgramStep, Pipe;
    if ProgramStep(s, s') {
      ProgramStepKeepsFree(s, s');
      if PicksUp(s, s') {
        PickUpStepCounts(s, s');
      }
    } else {
      FreeKernelStepKeepsFree(s, s');
    }
  }

  lemma PickUpStepCounts(s: State, s': State)
    requires FreeInv(s) && ProgramStep(s, s') && PicksUp(s, s')
    ensures s'.pc.cqe.userData <= EVENT_OTHER
    ensures Others(s') + (if s'.pc.cqe.userData == EVENT_OTHER then 1 else 0) ==
      Others(s) + (if s'.pc.cqe.userData == EVENT_CONSOLE_READ then 1 else 0)
  {
    hide FreeInv, Pipe;
    var c := s.q.unread[0];
    PickUpKeepsFree(s, s');
    FreePipeNonempty(s);
    AnswerTags(c, s.sigfd);
    PickUpCountsOthers(Pipe(s), SqeTags(Answer(c, s.sigfd)));
    FirstTag(s);
  }

  lemma FreePipeNonempty(s: State)
    requires FreeInv(s)
    ensures Pipe(s) != []
  {
  }

  lemma FirstTag(s: State)
    requires FreeInv(s) && Pipe(s) != []
    ensures Pipe(s)[0] <= EVENT_OTHER
  {
    assert Pipe(s)[0] in Pipe(s);
  }

  lemma TakenUpIsPosted(s: State)
    requires HeadInHand(s) ==> s.q.unread != []
    ensures TakenUp(s) <= CqeTags(s.q.Posted())
  {
    assert Acknowledged(s) <= s.q.Posted();
  }

  lemma ProgramStepTakesUp(s: State, s': State)
    requires ProgramStep(s, s') && (HeadInHand(s) ==> s.q.unread != [])
    requires !s'.pc.Halted? && !s'.pc.NullDereference?
    ensures Acknowledged(s') == if PicksUp(s, s') then Acknowledged(s) + [s'.pc.cqe] else Acknowledged(s)
  {
    hide Answer;
  }

  lemma KernelStepTakesUpNothing(s: State, s': State)
    requires FreeKernelStep(s, s') && (HeadInHand(s) ==> s.q.unread != [])
    ensures Acknowledged(s') == Acknowledged(s) && s'.pc == s.pc
  {
    hide IsConsoleRead;
    var a: KernelAction :| Feasible(s, a) && s' == KernelAct(s, a);
  }

  lemma StepTakesUp(s: State, s': State)
    requires FreeInv(s) && FreeNext(s, s') && !s'.pc.Halted? && !s'.pc.NullDereference?
    ensures TakenUp(s') == if PicksUp(s, s') then TakenUp(s) + [s'.pc.cqe.userData] else TakenUp(s)
  {
    hide ProgramStep, FreeKernelStep, Acknowledged, Slim, Chained, AllKnown;
    if ProgramStep(s, s') {
      ProgramStepTakesUp(s, s');
    } else {
      KernelStepTakesUpNothing(s, s');
    }
  }

  lemma {:induction false} NotHaltedBefore(run: seq<State>, i: nat)
    requires IsFreeRun(run) && i < |run| && !run[|run| - 1].pc.Halted?
    ensures !run[i].pc.Halted?
    decreases |run| - i
  {
    hide Start, FreeKernelStep;
    if i + 1 < |run| {
      NotHaltedBefore(run, i + 1);
      assert FreeNext(run[i], run[i + 1]);
    }
  }

  lemma RunStep(run: seq<State>, i: nat)
    requires IsFreeRun(run) && run[0].q.cap >= 3 && !run[|run| - 1].pc.Halted? && i + 1 < |run|
    ensures var s, s' := run[i], run[i + 1];
      && TakenUp(s') == (if PicksUp(s, s') then TakenUp(s) + [s'.pc.cqe.userData] else TakenUp(s))
      && (Tallied(s) ==> Tallied(s'))
  {
    hide FreeInv, FreeNext, Others, TakenUp;
    var s, s' := run[i], run[i + 1];
    NotHaltedBefore(run, i);
    NotHaltedBefore(run, i + 1);
    FreeRunKeepsInv(run, i);
    FreeRunKeepsInv(run, i + 1);
    assert FreeNext(s, s');
    StepCountsOthers(s, s');
    StepTakesUp(s, s');
    if PicksUp(s, s') { OneMore(TakenUp(s), s'.pc.cqe.userData); }
  }

  lemma OneMore(ts: seq<nat>, t: nat)
    ensures multiset(ts + [t]) == multiset(ts) + multiset{t}
  {
  }

  /** Every prompt write is outstanding until its completion is taken up, and every
      console read taken up brings a new one. */
  ghost predicate Tallied(s: State) {
    Others(s) + multiset(TakenUp(s))[EVENT_OTHER] == 1 + multiset(TakenUp(s))[EVENT_CONSOLE_READ]
  }

  lemma StartIsTallied(s: State)
    requires Start(s)
    ensures Tallied(s) && TakenUp(s) == []
  {
    hide Chained, AllKnown, Balanced, Incomplete;
    StartHasShape(s);
    StartPipe(s);
    BalancedMultiset(Pipe(s));
  }

  lemma StartPipe(s: State)
    requires Start(s)
    ensures Pipe(s) == [EVENT_OTHER, EVENT_CONSOLE_READ, EVENT_SIGNAL]
  {
  }

  lemma {:induction false} RunIsTallied(run: seq<State>, i: nat)
    requires IsFreeRun(run) && run[0].q.cap >= 3 && !run[|run| - 1].pc.Halted? && i < |run|
    ensures Tallied(run[i])
    decreases i
  {
    hide Tallied, PicksUp, FreeNext, Start, TakenUp;
    if i == 0 {
      StartIsTallied(run[0]);
    } else {
      RunIsTallied(run, i - 1);
      RunStep(run, i - 1);
    }
  }

  /** Each prefix of what was taken up was all that was, at some point of the run. */
  lemma {:induction false} PrefixWasTakenUp(run: seq<State>, n: nat, k: nat) returns (i: nat)
    requires IsFreeRun(run) && run[0].q.cap >= 3 && !run[|run| - 1].pc.Halted? && n < |run|
    requires k <= |TakenUp(run[n])|
    ensures i <= n && TakenUp(run[i]) == TakenUp(run[n])[..k]
    decreases n
  {
    hide Tallied, PicksUp, FreeNext, Start, TakenUp;
    if n == 0 { StartIsTallied(run[0]); }
    if k == |TakenUp(run[n])| {
      assert TakenUp(run[n])[..k] == TakenUp(run[n]);
      i := n;
    } else {
      RunStep(run, n - 1);
      i := PrefixWasTakenUp(run, n - 1, k);
      assert TakenUp(run[n])[..k] == TakenUp(run[n - 1])[..k];
    }
  }

  lemma {:induction false} TakenUpGrows(run: seq<State>, i: nat, n: nat)
    requires IsFreeRun(run) && run[0].q.cap >= 3 && !run[|run| - 1].pc.Halted? && i <= n < |run|
    ensures TakenUp(run[i]) <= TakenUp(run[n])
    decreases n
  {
    hide Tallied, PicksUp, FreeNext, Start, TakenUp;
    if i < n {
      TakenUpGrows(run, i, n - 1);
      RunStep(run, n - 1);
    }
  }

  /** Whatever the kernel makes of links: at most one event besides the two reads is
      outstanding all along a run exactly when, of the completions taken up, the
      kernel posted each console read's after its prompt write's. */
  lemma OneOtherIff(run: seq<State>)
    requires IsFreeRun(run) && run[0].q.cap >= 3 && !run[|run| - 1].pc.Halted?
    ensures var last := run[|run| - 1];
      && TakenUp(last) <= CqeTags(last.q.Posted())
      && ((forall i :: 0 <= i < |run| ==> Others(run[i]) <= 1) <==> PromptsFirst(TakenUp(last)))
  {
    hide IsFreeRun, Others, TakenUp, FreeInv, InStep;
    var n := |run| - 1;
    var ts := TakenUp(run[n]);
    FreeRunKeepsInv(run, n);
    HasUnread(run[n]);
    TakenUpIsPosted(run[n]);
    forall i | 0 <= i < |run|
      ensures Others(run[i]) <= 1 <==> InStep(TakenUp(run[i]))
    {
      RunIsTallied(run, i);
      TallyMeans(run[i]);
    }
    if forall i :: 0 <= i < |run| ==> Others(run[i]) <= 1 {
      forall k | 0 <= k <= |ts|
        ensures InStep(ts[..k])
      {
        var i := PrefixWasTakenUp(run, n, k);
      }
    }
    if PromptsFirst(ts) {
      forall i | 0 <= i < |run|
        ensures InStep(TakenUp(run[i]))
      {
        TakenUpGrows(run, i, n);
        assert TakenUp(run[i]) == ts[..|TakenUp(run[i])|];
      }
    }
  }

  lemma HasUnread(s: State)
    requires FreeInv(s)
    ensures HeadInHand(s) ==> s.q.unread != []
  {
  }

  lemma TallyMeans(s: State)
    requires Tallied(s)
    ensures Others(s) <= 1 <==> InStep(TakenUp(s))
  {
    hide Others, TakenUp;
  }

  // ---- How full the completion ring gets ---------------------------------------------------

  lemma CountOneMore(ts: seq<nat>, t: nat, x: nat)
    ensures multiset(ts + [t])[x] == multiset(ts)[x] + (if t == x then 1 else 0)
  {
  }

  lemma {:induction false} TagsAddUp(p: seq<nat>)
    requires forall i :: 0 <= i < |p| ==> p[i] <= EVENT_OTHER
    ensures |p| == multiset(p)[EVENT_CONSOLE_READ] + multiset(p)[EVENT_SIGNAL] + multiset(p)[EVENT_OTHER]
  {
    if p != [] {
      var q, t := p[..|p| - 1], p[|p| - 1];
      TagsAddUp(q);
      assert p == q + [t];
      CountOneMore(q, t, EVENT_CONSOLE_READ);
      CountOneMore(q, t, EVENT_SIGNAL);
      CountOneMore(q, t, EVENT_OTHER);
      assert t == EVENT_CONSOLE_READ || t == EVENT_SIGNAL || t == EVENT_OTHER;
    }
  }

  lemma UniqueCount(p: seq<nat>, c: nat)
    requires c < |p| && forall i :: 0 <= i < |p| && i != c ==> p[i] != p[c]
    ensures multiset(p)[p[c]] == 1
  {
    var a, b := p[..c], p[c + 1..];
    assert p == a + [p[c]] + b;
    assert p[c] !in a && p[c] !in b;
  }

  lemma SlimSize(p: seq<nat>)
    requires Slim(p)
    ensures |p| == 2 + multiset(p)[EVENT_OTHER]
  {
    var c :| 0 <= c < |p| && p[c] == EVENT_CONSOLE_READ;
    var g :| 0 <= g < |p| && p[g] == EVENT_SIGNAL;
    UniqueCount(p, c);
    UniqueCount(p, g);
    assert forall i :: 0 <= i < |p| ==> p[i] in p;
    TagsAddUp(p);
  }

  /** Over any kernel, each time the loop is about to wait exactly one console read
      and exactly one signal read are outstanding. */
  lemma FreeOutstandingAtLoopHead(run: seq<State>, i: nat)
    requires IsFreeRun(run) && run[0].q.cap >= 3 && i < |run| && run[i].pc.LoopHead?
    ensures var s := run[i];
      var events := multiset(CqeTags(s.q.unread) + SqeTags(s.inflight + s.q.published + s.q.pending));
      && events[EVENT_CONSOLE_READ] == 1 && events[EVENT_SIGNAL] == 1
      && |events| == 2 + events[EVENT_OTHER]
  {
    hide IsFreeRun, AllKnown, Chained;
    FreeRunKeepsInv(run, i);
    var s := run[i];
    assert Incomplete(s) == s.inflight + s.q.published + s.q.pending;
    SlimCounts(Pipe(s));
  }

  lemma SlimCounts(p: seq<nat>)
    requires Slim(p)
    ensures multiset(p)[EVENT_CONSOLE_READ] == 1 && multiset(p)[EVENT_SIGNAL] == 1
    ensures |multiset(p)| == 2 + multiset(p)[EVENT_OTHER]
  {
    var c :| 0 <= c < |p| && p[c] == EVENT_CONSOLE_READ;
    var g :| 0 <= g < |p| && p[g] == EVENT_SIGNAL;
    UniqueCount(p, c);
    UniqueCount(p, g);
    SlimSize(p);
  }

  /** Over any kernel, with no completion in hand at most two more are unread than
      there are others outstanding; with one in hand, that one more. */
  lemma FreeCompletionsFit(run: seq<State>, i: nat)
    requires IsFreeRun(run) && run[0].q.cap >= 3 && i < |run| && !run[i].pc.Halted?
    ensures var s := run[i];
      && |s.q.unread| <= 2 + Others(s) + (if HeadInHand(s) then 1 else 0)
      && (forall c :: c in Unhandled(s) ==> c.userData <= EVENT_OTHER)
      && (HeadInHand(s) ==> s.q.unread != [] && s.q.unread[0] == s.pc.cqe)
  {
    hide IsFreeRun, Slim, AllKnown, Chained, AllLanded, Incomplete;
    FreeRunKeepsInv(run, i);
    FreeRunKeepsLanded(run, i);
    var s := run[i];
    SlimSize(Pipe(s));
    PipeSizes(s);
    forall c | c in Unhandled(s)
      ensures c.userData <= EVENT_OTHER
    {
      SlimTag(s, c);
    }
  }

  lemma PipeSizes(s: State)
    ensures |Pipe(s)| == |Unhandled(s)| + |Incomplete(s)|
    ensures |s.q.unread| <= |Unhandled(s)| + (if HeadInHand(s) then 1 else 0)
  {
    hide Incomplete;
  }

  lemma SlimTag(s: State, c: Cqe)
    requires Slim(Pipe(s)) && c in Unhandled(s)
    ensures c.userData <= EVENT_OTHER
  {
    var k :| 0 <= k < |Unhandled(s)| && Unhandled(s)[k] == c;
    assert Pipe(s)[k] == c.userData;
    assert Pipe(s)[k] in Pipe(s);
  }

  // ---- A run with two others ----------------------------------------------------------------

  lemma FreeGrow(run: seq<State>, s: State) returns (more: seq<State>)
    requires IsFreeRun(run) && FreeNext(run[|run| - 1], s)
    ensures IsFreeRun(more) && more[|more| - 1] == s && more[0] == run[0]
  {
    hide FreeNext, Start;
    more := run + [s];
  }

  lemma FreeGrowByKernel(run: seq<State>, a: KernelAction) returns (more: seq<State>)
    requires IsFreeRun(run) && var s := run[|run| - 1]; !s.pc.Halted? && Feasible(s, a)
    ensures IsFreeRun(more) && more[0] == run[0]
    ensures more[|more| - 1] == KernelAct(run[|run| - 1], a)
  {
    hide IsFreeRun, KernelAct, Feasible;
    more := FreeGrow(run, KernelAct(run[|run| - 1], a));
  }

  /** The first flush, the kernel consuming the prompt write alone. */
  lemma PromptAlone(cap: nat) returns (run: seq<State>)
    requires cap >= 3
    ensures IsFreeRun(run) && run[0].q.cap == cap
    ensures var s := run[|run| - 1];
      && s.pc.LoopHead? && s.inflight == [PromptWrite] && |s.buffer| == BUFFER_SIZE && s.q.pending == []
      && s.q.published == [PromptRead, SignalRead(s.sigfd)] && s.q.unread == [] && s.q.cap == cap
  {
    var todo := [PromptWrite, PromptRead, SignalRead(0)];
    var s := State(Fifo(cap, [], [], [], 6, [], []), [], Starting(todo), seq(BUFFER_SIZE, _ => '\0'), [], 0);
    run := [s];
    hide IsFreeRun;
    assert IsFreeRun(run) by { StartAlone(s); }
    s := SubmitNext(s, todo[0], Starting(todo[1..]));
    run := FreeGrow(run, s);
    assert todo[1..][1..] == [todo[2]];
    s := SubmitNext(s, todo[1], Starting([todo[2]]));
    run := FreeGrow(run, s);
    assert [todo[2]][1..] == [];
    s := SubmitNext(s, todo[2], Starting([]));
    run := FreeGrow(run, s);
    s := s.(pc := LoopHead);
    run := FreeGrow(run, s);
    s := s.(q := s.q.Publish(), pc := InEnter);
    run := FreeGrow(run, s);
    run := FreeGrowByKernel(run, Consume);
    s := KernelAct(s, Consume);
    s := s.(pc := Entered);
    run := FreeGrow(run, s);
    s := s.(pc := LoopHead);
    run := FreeGrow(run, s);
  }

  lemma StartAlone(s: State)
    requires Start(s)
    ensures IsFreeRun([s])
  {
  }

  /** Over a kernel that ends a chain where a call stops consuming, two others can
      be outstanding: the write consumed by one call, its read by the next. */
  lemma SplitChainHasTwoOthers(cap: nat) returns (run: seq<State>)
    requires cap >= 3
    ensures IsFreeRun(run) && run[0].q.cap == cap && Others(run[|run| - 1]) == 2
  {
    hide IsFreeRun;
    run := PromptAlone(cap);
    var s := run[|run| - 1];
    s := s.(q := s.q.Publish(), pc := InEnter);
    run := FreeGrow(run, s);
    run := FreeGrowByKernel(run, Consume);
    s := KernelAct(s, Consume);
    run := FreeGrowByKernel(run, Complete(1, 1, "\n"));
    s := KernelAct(s, Complete(1, 1, "\n"));
    s := s.(pc := Entered);
    run := FreeGrow(run, s);
    s := s.(pc := Handling(s.q.unread[0]));
    run := FreeGrow(run, s);
    assert Pipe(s) == [EVENT_OTHER, EVENT_SIGNAL, EVENT_OTHER, EVENT_CONSOLE_READ];
  }
}
