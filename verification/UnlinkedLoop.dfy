/** The event loop over a kernel that ignores links, or ends a chain where one
    call stopped consuming: what survives, and exactly when the rest does. */
module UnlinkedLoop {
  import opened Queue
  import opened EventLoop
  import opened LoopInvariant
  import opened LoopTheorems

  ghost predicate FreeKernelStep(s: State, s': State) {
    exists a: KernelAction :: Feasible(s, a) && s' == KernelAct(s, a)
  }

  ghost predicate FreeNext(s: State, s': State) {
    ProgramStep(s, s') || (!s.pc.Halted? && FreeKernelStep(s, s'))
  }

  ghost predicate IsFreeRun(run: seq<State>): (b: bool)
    ensures b ==> run != []
  {
    && run != [] && Start(run[0])
    && forall i, j :: 0 <= i < j < |run| && j == i + 1 ==> FreeNext(run[i], run[j])
  }

  /** A kernel that keeps to the links is one of these. */
  lemma RunIsFree(run: seq<State>)
    requires IsRun(run)
    ensures IsFreeRun(run)
  {
    hide ProgramStep, Start, Feasible;
    forall i, j | 0 <= i < j < |run| && j == i + 1
      ensures FreeNext(run[i], run[j])
    {
      assert Next(run[i], run[j]);
    }
  }

  // ---- The invariant ------------------------------------------------------------

  /** Submitted or owed, and not consumed: what the submission ring has to hold. */
  function Unconsumed(s: State): seq<Sqe> {
    s.q.published + s.q.pending + Owed(s)
  }

  /** One console read, one signal read, and any number of others. */
  ghost predicate Slim(p: seq<nat>) {
    && EVENT_CONSOLE_READ in p && EVENT_SIGNAL in p
    && (forall x :: x in p ==> x <= EVENT_OTHER)
    && (forall i, j :: 0 <= i < j < |p| && p[i] == p[j] ==> p[i] == EVENT_OTHER)
  }

  ghost predicate FreeInv(s: State) {
    && Slim(Pipe(s)) && AllKnown(Incomplete(s), s.sigfd)
    && Chained(SqeTags(Unconsumed(s))) && (HeadInHand(s) ==> s.q.unread != [])
  }

  lemma RotateKeepsSlim(p: seq<nat>, a: seq<nat>)
    requires Slim(p)
    requires a == if p[0] == EVENT_CONSOLE_READ then [EVENT_OTHER, EVENT_CONSOLE_READ]
                  else if p[0] == EVENT_SIGNAL then [EVENT_SIGNAL] else []
    ensures Slim(p[1..] + a)
  {
    var q := p[1..] + a;
    var c :| 0 <= c < |p| && p[c] == EVENT_CONSOLE_READ;
    var g :| 0 <= g < |p| && p[g] == EVENT_SIGNAL;
    assert p[0] in p;
    assert forall k :: 0 < k < |p| ==> q[k - 1] == p[k] && p[k] in p;
    assert EVENT_CONSOLE_READ in q by {
      assert q[if c > 0 then c - 1 else |p|] == EVENT_CONSOLE_READ;
    }
    assert EVENT_SIGNAL in q by {
      assert q[if g > 0 then g - 1 else |p| - 1] == EVENT_SIGNAL;
    }
    forall i, j | 0 <= i < j < |q| && q[i] == q[j]
      ensures q[i] == EVENT_OTHER
    {
      Rotated(p, a, i);
      Rotated(p, a, j);
    }
  }

  lemma MoveUpKeepsSlim(p: seq<nat>, u: nat, j: nat)
    requires Slim(p) && u <= j < |p|
    ensures Slim(MoveUp(p, u, j))
  {
    var q := MoveUp(p, u, j);
    MoveUpMembers(p, u, j, EVENT_CONSOLE_READ);
    MoveUpMembers(p, u, j, EVENT_SIGNAL);
    forall x | x in q
      ensures x <= EVENT_OTHER
    {
      MoveUpMembers(p, u, j, x);
    }
    forall a, b | 0 <= a < b < |q| && q[a] == q[b]
      ensures q[a] == EVENT_OTHER
    {
      var a', b' := Before(a, u, j), Before(b, u, j);
      assert p[a'] == p[b'] && a' != b';
    }
  }

  /** A chain with one console read and one signal read has 3 entries at most:
      first in, first out keeps each unconsumed prompt write with its read. */
  lemma ChainIsShort(ts: seq<nat>)
    requires Chained(ts) && (forall x :: x in ts ==> x <= EVENT_OTHER)
    requires forall i, j :: 0 <= i < j < |ts| && ts[i] == ts[j] ==> ts[i] == EVENT_OTHER
    ensures |ts| <= 3
  {
    forall i, j | 0 <= i < j < |ts|
      ensures ts[i] != ts[j]
    {
      assert ts[i] == EVENT_OTHER ==> ts[i + 1] == EVENT_CONSOLE_READ;
      assert ts[j] == EVENT_OTHER ==> j + 1 < |ts| && ts[j + 1] == EVENT_CONSOLE_READ;
    }
    forall i | 0 <= i < |ts|
      ensures TagAt(ts, i) <= EVENT_OTHER
    {
      assert ts[i] in ts;
    }
    var firstFour := [TagAt(ts, 0), TagAt(ts, 1), TagAt(ts, 2), TagAt(ts, 3)];
  }

  lemma SlimSuffix(p: seq<nat>, n: nat, ts: seq<nat>)
    requires Slim(p) && n + |ts| == |p| && forall k :: 0 <= k < |ts| ==> ts[k] == p[n + k]
    ensures forall x :: x in ts ==> x <= EVENT_OTHER
    ensures forall i, j :: 0 <= i < j < |ts| && ts[i] == ts[j] ==> ts[i] == EVENT_OTHER
  {
    forall x | x in ts
      ensures x <= EVENT_OTHER
    {
      var k :| 0 <= k < |ts| && ts[k] == x;
      assert p[n + k] in p;
    }
  }

  lemma UnconsumedIsShort(s: State)
    requires FreeInv(s)
    ensures |s.q.published| + |s.q.pending| + |Owed(s)| <= 3
  {
    hide Chained, AllKnown;
    var ts := SqeTags(Unconsumed(s));
    var n := |Pipe(s)| - |ts|;
    assert Incomplete(s) == s.inflight + Unconsumed(s);
    assert forall k :: 0 <= k < |ts| ==> ts[k] == Pipe(s)[n + k];
    SlimSuffix(Pipe(s), n, ts);
    ChainIsShort(ts);
  }

  // ---- Steps ----------------------------------------------------------------------

  /** Work that only moves along the pipe. */
  lemma SameFreePipe(s: State, s': State)
    requires FreeInv(s) && s'.sigfd == s.sigfd && Unhandled(s') == Unhandled(s)
    requires Incomplete(s') == Incomplete(s) && Unconsumed(s') == Unconsumed(s)
    requires HeadInHand(s') ==> s'.q.unread != []
    ensures FreeInv(s') && Pipe(s') == Pipe(s)
  {
    hide Slim, Chained, AllKnown;
  }

  lemma SubmitKeepsFree(s: State, s': State, e: Sqe, rest: seq<Sqe>)
    requires FreeInv(s) && s.q.cap >= 3 && Owed(s) == [e] + rest
    requires s.pc.Starting? || s.pc.Responding?
    requires s' == SubmitNext(s, e, if s.pc.Starting? then Starting(rest) else Responding(s.pc.cqe, rest))
    ensures FreeInv(s') && Pipe(s') == Pipe(s) && s.q.HasRoom()
  {
    hide Slim, Chained, AllKnown;
    UnconsumedIsShort(s);
    SubmitMovesAlong(s, s', e, rest);
    assert Unconsumed(s') == Unconsumed(s);
    SameFreePipe(s, s');
  }

  lemma PickUpKeepsFree(s: State, s': State)
    requires FreeInv(s) && s.pc.Entered? && s.q.unread != []
    requires s' == s.(pc := Handling(s.q.unread[0]))
    ensures FreeInv(s')
    ensures Pipe(s') == Pipe(s)[1..] + SqeTags(Answer(s.q.unread[0], s.sigfd)) && Pipe(s)[0] == s.q.unread[0].userData
  {
    hide Slim, Chained, AllKnown, Pipe, Incomplete, Unconsumed, Answer;
    var c := s.q.unread[0];
    PickUpTurnsPipe(s, s');
    AnswerTags(c, s.sigfd);
    RotateKeepsSlim(Pipe(s), SqeTags(Answer(c, s.sigfd)));
    PickUpUnconsumed(s, s');
    AnswerKeepsChained(Unconsumed(s), c, s.sigfd);
    AnswerKeepsKnown(Incomplete(s), c, s.sigfd);
  }

  lemma PickUpUnconsumed(s: State, s': State)
    requires s.pc.Entered? && s.q.unread != [] && s' == s.(pc := Handling(s.q.unread[0]))
    ensures Unconsumed(s') == Unconsumed(s) + Answer(s.q.unread[0], s.sigfd)
  {
    hide Answer;
    assert Owed(s) == [];
  }

  lemma AnswerKeepsChained(es: seq<Sqe>, c: Cqe, sigfd: int)
    requires Chained(SqeTags(es))
    ensures Chained(SqeTags(es + Answer(c, sigfd)))
  {
    TagsConcat(es, Answer(c, sigfd));
    AnswerTags(c, sigfd);
  }

  lemma AnswerKeepsKnown(es: seq<Sqe>, c: Cqe, sigfd: int)
    requires AllKnown(es, sigfd)
    ensures AllKnown(es + Answer(c, sigfd), sigfd)
  {
  }

  lemma ProgramStepKeepsFree(s: State, s': State)
    requires FreeInv(s) && s.q.cap >= 3 && ProgramStep(s, s')
    ensures s'.pc.Halted? || FreeInv(s')
    ensures !s'.pc.NullDereference? && s'.q.cap == s.q.cap
    ensures s'.pc.Halted? || PicksUp(s, s') || Pipe(s') == Pipe(s)
  {
    hide FreeInv, Pipe;
    if s.pc.Starting? || s.pc.Responding? {
      var todo := s.pc.todo;
      if todo == [] {
        MoveKeepsFree(s, s');
      } else {
        assert todo == [todo[0]] + todo[1..];
        SubmitKeepsFree(s, s', todo[0], todo[1..]);
      }
    } else if PicksUp(s, s') {
      PickUpKeepsFree(s, s');
    } else if !s'.pc.Halted? {
      MoveKeepsFree(s, s');
    }
  }

  /** The loop takes a completion in hand. */
  ghost predicate PicksUp(s: State, s': State) {
    s.pc.Entered? && s'.pc.Handling?
  }

  /** Program steps that neither submit, nor take a completion in hand, nor halt. */
  lemma MoveKeepsFree(s: State, s': State)
    requires FreeInv(s) && ProgramStep(s, s') && !s'.pc.Halted? && !PicksUp(s, s')
    requires s.pc.Starting? || s.pc.Responding? ==> s.pc.todo == []
    ensures FreeInv(s') && Pipe(s') == Pipe(s) && s'.q.cap == s.q.cap && !s'.pc.NullDereference?
  {
    hide Slim, Chained, AllKnown, Pipe, Answer;
    assert s'.q.published + s'.q.pending == s.q.published + s.q.pending;
    assert Incomplete(s') == Incomplete(s) && Unconsumed(s') == Unconsumed(s);
    SameFreePipe(s, s');
  }

  lemma FreeConsume(s: State)
    requires FreeInv(s) && Feasible(s, Consume)
    ensures FreeInv(KernelAct(s, Consume)) && Pipe(KernelAct(s, Consume)) == Pipe(s)
  {
    hide Slim, Chained, AllKnown;
    var s' := KernelAct(s, Consume);
    ConsumeMovesAlong(s);
    assert Unconsumed(s) == [s.q.published[0]] + Unconsumed(s');
    TagsConcat([s.q.published[0]], Unconsumed(s'));
    ChainedSuffix(SqeTags([s.q.published[0]]), SqeTags(Unconsumed(s')));
  }

  lemma FreeComplete(s: State, i: nat, res: int, bytes: seq<char>)
    requires FreeInv(s) && Feasible(s, Complete(i, res, bytes))
    ensures var s' := KernelAct(s, Complete(i, res, bytes));
      FreeInv(s') && multiset(Pipe(s')) == multiset(Pipe(s))
  {
    hide Slim, Chained, AllKnown, MoveUp, Pipe, Incomplete;
    var s' := KernelAct(s, Complete(i, res, bytes));
    CompletionMovesUp(s, i, res, bytes);
    MoveUpKeepsSlim(Pipe(s), |Unhandled(s)|, |Unhandled(s)| + i);
    MoveUpPermutes(Pipe(s), |Unhandled(s)|, |Unhandled(s)| + i);
    CompletionRemoves(s, i, res, bytes);
    RemoveKeepsKnown(Incomplete(s), i, s.sigfd);
  }

  lemma RemoveKeepsKnown(es: seq<Sqe>, i: nat, sigfd: int)
    requires i < |es| && AllKnown(es, sigfd)
    ensures AllKnown(es[..i] + es[i + 1..], sigfd)
  {
  }

  lemma MoveUpPermutes(p: seq<nat>, u: nat, j: nat)
    requires u <= j < |p|
    ensures multiset(MoveUp(p, u, j)) == multiset(p)
  {
    assert p == p[..u] + p[u..j] + [p[j]] + p[j + 1..];
  }

  lemma FreeKernelStepKeepsFree(s: State, s': State)
    requires FreeInv(s) && FreeKernelStep(s, s')
    ensures FreeInv(s') && s'.q.cap == s.q.cap && s'.pc == s.pc
    ensures multiset(Pipe(s')) == multiset(Pipe(s))
  {
    hide Slim, Chained, AllKnown;
    var a: KernelAction :| Feasible(s, a) && s' == KernelAct(s, a);
    match a
    case Consume => FreeConsume(s);
    case Scribble(_) =>
      assert Incomplete(s') == Incomplete(s) && Unconsumed(s') == Unconsumed(s);
      SameFreePipe(s, s');
    case Complete(i, res, bytes) => FreeComplete(s, i, res, bytes);
  }

  lemma StartIsFree(s: State)
    requires Start(s)
    ensures FreeInv(s)
  {
    hide Chained, AllKnown;
    StartHasShape(s);
    assert Unconsumed(s) == Incomplete(s);
  }

  /** In every run on at least 3 submission entries, whatever the kernel makes of
      links, no refused submission is dereferenced. */
  lemma {:induction false} FreeRunKeepsInv(run: seq<State>, i: nat)
    requires IsFreeRun(run) && run[0].q.cap >= 3 && i < |run|
    ensures run[i].pc.Halted? || FreeInv(run[i])
    ensures !run[i].pc.NullDereference? && run[i].q.cap == run[0].q.cap
    decreases i
  {
    hide FreeInv, ProgramStep, FreeKernelStep;
    if i == 0 {
      StartIsFree(run[0]);
      StartRunning(run[0]);
    } else {
      FreeRunKeepsInv(run, i - 1);
      assert FreeNext(run[i - 1], run[i]);
      if ProgramStep(run[i - 1], run[i]) {
        HaltedIsFinal(run[i - 1], run[i]);
        ProgramStepKeepsFree(run[i - 1], run[i]);
      } else {
        FreeKernelStepKeepsFree(run[i - 1], run[i]);
      }
    }
  }

  /** The three call sites that do not check for NULL are safe over every kernel
      exactly when the ring has at least 3 submission entries: first in, first
      out is all that is needed of the kernel. */
  lemma FreeNullDereferenceIff(cap: nat)
    ensures (exists run: seq<State> ::
               IsFreeRun(run) && run[0].q.cap == cap && run[|run| - 1].pc.NullDereference?) <==> cap < 3
  {
    if cap < 3 {
      var run := RefusedWithout3(cap);
      RunIsFree(run);
    } else {
      forall run: seq<State> | IsFreeRun(run) && run[0].q.cap == cap
        ensures !run[|run| - 1].pc.NullDereference?
      {
        FreeRunKeepsInv(run, |run| - 1);
      }
    }
  }
}
