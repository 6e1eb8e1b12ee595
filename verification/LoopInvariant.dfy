/** What every step of the event loop, the program's or the kernel's, keeps. */
module LoopInvariant {
  import opened Queue
  import opened EventLoop

  /** Completions the program has acted on or is acting on, oldest first. */
  function Acknowledged(s: State): seq<Cqe> {
    if HeadInHand(s) && s.q.unread != [] then s.q.taken + [s.q.unread[0]] else s.q.taken
  }

  function Answers(cs: seq<Cqe>, sigfd: int): seq<Sqe> {
    if cs == [] then [PromptWrite, PromptRead, SignalRead(sigfd)]
    else Answers(cs[..|cs| - 1], sigfd) + Answer(cs[|cs| - 1], sigfd)
  }

  /** A console read that completed left its bytes in the buffer. */
  ghost predicate Landed(s: State, cqe: Cqe) {
    cqe.userData == EVENT_CONSOLE_READ && cqe.res > 0 ==>
      && |s.line| == cqe.res <= |s.buffer|
      && s.buffer[..cqe.res] == s.line
  }

  ghost predicate AllLanded(s: State) {
    && (forall c :: c in Unhandled(s) ==> Landed(s, c))
    && (s.pc.Handling? || s.pc.RunningCommand? ==> Landed(s, s.pc.cqe))
  }

  /** The completion in hand, and how much of its answer has been submitted. */
  ghost predicate InHand(s: State) {
    HeadInHand(s) ==>
      && s.q.unread != [] && s.q.unread[0] == s.pc.cqe && s.pc.cqe.userData <= EVENT_OTHER
      && s.q.pending + Owed(s) == Answer(s.pc.cqe, s.sigfd)
      && (s.pc.RunningCommand? ==> s.pc.cqe.userData == EVENT_CONSOLE_READ && s.pc.cqe.res > 0)
      && (s.pc.cqe.userData == EVENT_OTHER ==> |Unhandled(s)| + |Incomplete(s)| == 2)
  }

  ghost predicate Shape(s: State) {
    Balanced(Pipe(s)) && WholeChains(Incomplete(s), s.sigfd)
  }

  /** A flush leaves nothing pending, and never publishes half a chain. */
  ghost predicate Windows(s: State) {
    && (s.q.published == [] || s.q.published[|s.q.published| - 1].userData != EVENT_OTHER)
    && (s.pc.InEnter? || s.pc.Entered? ==> s.q.pending == [])
  }

  /** What was and will be submitted is the start-up prompt and listener, then
      the answer to each acknowledged completion, in order. */
  ghost predicate Faithful(s: State) {
    s.q.Submitted() + Owed(s) == Answers(Acknowledged(s), s.sigfd)
  }

  ghost predicate Inv(s: State) {
    |s.buffer| == BUFFER_SIZE && Shape(s) && Windows(s) && InHand(s) && AllLanded(s) && Faithful(s)
  }

  // ---- Shapes ---------------------------------------------------------------

  function TagAt(p: seq<nat>, i: nat): nat {
    if i < |p| then p[i] else EVENT_OTHER + 1 + i
  }

  lemma BalancedSize(p: seq<nat>)
    requires Balanced(p)
    ensures 2 <= |p| <= 3
    ensures EVENT_OTHER in p ==> |p| == 3
  {
    var c :| 0 <= c < |p| && p[c] == EVENT_CONSOLE_READ;
    var g :| 0 <= g < |p| && p[g] == EVENT_SIGNAL;
    var firstFour := [TagAt(p, 0), TagAt(p, 1), TagAt(p, 2), TagAt(p, 3)];
    forall i | 0 <= i < |p|
      ensures TagAt(p, i) <= EVENT_OTHER
    {
      assert p[i] in p;
    }
  }

  /** Handling the event at the front replaces it by its answer at the back. */
  lemma RotateKeepsBalance(p: seq<nat>, a: seq<nat>)
    requires Balanced(p)
    requires a == if p[0] == EVENT_CONSOLE_READ then [EVENT_OTHER, EVENT_CONSOLE_READ]
                  else if p[0] == EVENT_SIGNAL then [EVENT_SIGNAL] else []
    ensures Balanced(p[1..] + a)
  {
    var q := p[1..] + a;
    var c :| 0 <= c < |p| && p[c] == EVENT_CONSOLE_READ;
    var g :| 0 <= g < |p| && p[g] == EVENT_SIGNAL;
    assert p[0] in p;
    assert forall k :: 0 < k < |p| ==> q[k - 1] == p[k] && p[k] in p;
    assert EVENT_CONSOLE_READ in q by {
      assert q[if c > 0 then c - 1 else |p|] == EVENT_CONSOLE_READ;
    }
    assert EVENT_SIGNAL in q by {
      assert q[if g > 0 then g - 1 else |p| - 1] == EVENT_SIGNAL;
    }
    forall i, j | 0 <= i < j < |q|
      ensures q[i] != q[j] && !(q[i] == EVENT_CONSOLE_READ && q[j] == EVENT_OTHER)
    {
      Rotated(p, a, i);
      Rotated(p, a, j);
    }
  }

  lemma Rotated(p: seq<nat>, a: seq<nat>, i: nat)
    requires p != [] && i < |p[1..] + a|
    ensures (p[1..] + a)[i] == if i < |p| - 1 then p[i + 1] else a[i - (|p| - 1)]
  {
  }

  /** Where the k-th event stood before the j-th moved up to u. */
  function Before(k: nat, u: nat, j: nat): nat {
    if k == u then j else if u < k <= j then k - 1 else k
  }

  function MoveUp(p: seq<nat>, u: nat, j: nat): (q: seq<nat>)
    requires u <= j < |p|
    ensures |q| == |p|
    ensures forall k :: 0 <= k < |p| ==> Before(k, u, j) < |p| && q[k] == p[Before(k, u, j)]
  {
    p[..u] + [p[j]] + p[u..j] + p[j + 1..]
  }

  lemma MoveUpMembers(p: seq<nat>, u: nat, j: nat, x: nat)
    requires u <= j < |p|
    ensures x in MoveUp(p, u, j) <==> x in p
  {
    var q := MoveUp(p, u, j);
    if x in p {
      var c :| 0 <= c < |p| && p[c] == x;
      assert q[if c == j then u else if u <= c < j then c + 1 else c] == x;
    }
  }

  /** Completing an operation moves it up, past others in flight. */
  lemma OvertakeKeepsBalance(p: seq<nat>, u: nat, j: nat)
    requires Balanced(p) && u <= j < |p|
    requires p[j] == EVENT_CONSOLE_READ ==> forall k :: u <= k < j ==> p[k] != EVENT_OTHER
    ensures Balanced(MoveUp(p, u, j))
  {
    var q := MoveUp(p, u, j);
    MoveUpMembers(p, u, j, EVENT_CONSOLE_READ);
    MoveUpMembers(p, u, j, EVENT_SIGNAL);
    forall x | x in q
      ensures x <= EVENT_OTHER
    {
      MoveUpMembers(p, u, j, x);
    }
    forall a, b | 0 <= a < b < |q|
      ensures q[a] != q[b] && !(q[a] == EVENT_CONSOLE_READ && q[b] == EVENT_OTHER)
    {
      var a', b' := Before(a, u, j), Before(b, u, j);
      assert a' < b' || (a' == j && u <= b' < j);
      assert p[a'] != p[b'];
    }
  }

  lemma TagsConcat(a: seq<Sqe>, b: seq<Sqe>)
    ensures SqeTags(a + b) == SqeTags(a) + SqeTags(b)
  {
  }

  lemma AppendKeepsChains(es: seq<Sqe>, c: Cqe, sigfd: int)
    requires WholeChains(es, sigfd)
    ensures WholeChains(es + Answer(c, sigfd), sigfd)
  {
    TagsConcat(es, Answer(c, sigfd));
  }

  lemma RemoveKeepsChains(es: seq<Sqe>, i: nat, sigfd: int)
    requires i < |es| && WholeChains(es, sigfd)
    requires i > 0 ==> es[i - 1].userData != EVENT_OTHER
    ensures WholeChains(es[..i] + es[i + 1..], sigfd)
  {
    RemoveTag(es, i);
    RemoveKeepsChained(SqeTags(es), i);
  }

  lemma RemoveKeepsChained(ts: seq<nat>, i: nat)
    requires i < |ts| && Chained(ts)
    requires i > 0 ==> ts[i - 1] != EVENT_OTHER
    ensures Chained(ts[..i] + ts[i + 1..])
  {
    var r := ts[..i] + ts[i + 1..];
    assert forall k :: 0 <= k < |r| ==> r[k] == ts[if k < i then k else k + 1];
  }

  lemma RemoveTag(es: seq<Sqe>, i: nat)
    requires i < |es|
    ensures SqeTags(es[..i] + es[i + 1..]) == SqeTags(es)[..i] + SqeTags(es)[i + 1..]
  {
  }

  lemma ChainsEnd(es: seq<Sqe>, sigfd: int)
    requires WholeChains(es, sigfd) && es != []
    ensures es[|es| - 1].userData != EVENT_OTHER
  {
    assert SqeTags(es)[|es| - 1] == es[|es| - 1].userData;
  }

  // ---- Program steps --------------------------------------------------------

  lemma RoomToSubmit(s: State)
    requires Shape(s) && s.q.cap >= 3 && Owed(s) != []
    ensures s.q.HasRoom()
  {
    BalancedSize(Pipe(s));
  }

  lemma ShapeFrom(s: State, p: seq<nat>, es: seq<Sqe>)
    requires Pipe(s) == p && Incomplete(s) == es
    requires Balanced(p) && WholeChains(es, s.sigfd)
    ensures Shape(s)
  {
    hide Balanced, Chained, AllKnown, Answers;
  }

  /** Work that only moves along the pipe keeps its shape. */
  lemma SamePipe(s: State, s': State)
    requires Shape(s) && s'.sigfd == s.sigfd
    requires Unhandled(s') == Unhandled(s) && Incomplete(s') == Incomplete(s)
    ensures Shape(s')
  {
    hide Balanced, Chained, AllKnown, Answers;
  }

  lemma SubmitMovesAlong(s: State, s': State, e: Sqe, rest: seq<Sqe>)
    requires Owed(s) == [e] + rest && Owed(s') == rest && s.q.HasRoom()
    requires s'.q == s.q.Submit(e) && s'.inflight == s.inflight
    ensures Incomplete(s') == Incomplete(s)
    ensures s'.q.Submitted() + Owed(s') == s.q.Submitted() + Owed(s)
    ensures s'.q.pending + Owed(s') == s.q.pending + Owed(s)
  {
    hide Balanced, Chained, AllKnown, Answers;
  }

  lemma SubmitKeepsInv(s: State, s': State, e: Sqe, rest: seq<Sqe>)
    requires Inv(s) && s.q.cap >= 3 && Owed(s) == [e] + rest
    requires s.pc.Starting? || s.pc.Responding?
    requires s' == SubmitNext(s, e, if s.pc.Starting? then Starting(rest) else Responding(s.pc.cqe, rest))
    ensures Inv(s') && s.q.HasRoom()
  {
    hide Balanced, Chained, AllKnown, Answers;
    RoomToSubmit(s);
    SubmitMovesAlong(s, s', e, rest);
    SamePipe(s, s');
    assert Faithful(s') by { assert Acknowledged(s') == Acknowledged(s); }
  }

  lemma PublishMovesAlong(s: State, s': State)
    requires s.pc.LoopHead? && s' == s.(q := s.q.Publish(), pc := InEnter)
    ensures Incomplete(s') == Incomplete(s)
    ensures s'.q.Submitted() + Owed(s') == s.q.Submitted() + Owed(s)
  {
  }

  lemma PublishKeepsInv(s: State, s': State)
    requires Inv(s) && s.pc.LoopHead? && s' == s.(q := s.q.Publish(), pc := InEnter)
    ensures Inv(s')
  {
    hide Balanced, Chained, AllKnown, Answers;
    PublishMovesAlong(s, s');
    SamePipe(s, s');
    assert Windows(s') by {
      if s'.q.published != [] {
        ChainsEnd(Incomplete(s'), s.sigfd);
        assert Incomplete(s') == s.inflight + s'.q.published;
      }
    }
  }

  lemma PickUpTurnsPipe(s: State, s': State)
    requires s.pc.Entered? && s.q.unread != [] && s' == s.(pc := Handling(s.q.unread[0]))
    ensures var c := s.q.unread[0];
      && Pipe(s) != [] && Pipe(s)[0] == c.userData
      && Incomplete(s') == Incomplete(s) + Answer(c, s.sigfd)
      && Pipe(s') == Pipe(s)[1..] + SqeTags(Answer(c, s.sigfd))
  {
    hide Balanced, Chained, AllKnown, Answers;
    var a := Answer(s.q.unread[0], s.sigfd);
    assert Incomplete(s') == Incomplete(s) + a;
    TagsConcat(Incomplete(s), a);
    assert CqeTags(Unhandled(s')) == CqeTags(Unhandled(s))[1..];
  }

  lemma AnswerTags(c: Cqe, sigfd: int)
    ensures SqeTags(Answer(c, sigfd)) ==
      if c.userData == EVENT_CONSOLE_READ then [EVENT_OTHER, EVENT_CONSOLE_READ]
      else if c.userData == EVENT_SIGNAL then [EVENT_SIGNAL] else []
  {
  }

  lemma PickUpKeepsShape(s: State, s': State)
    requires Shape(s) && s.pc.Entered? && s.q.unread != []
    requires s' == s.(pc := Handling(s.q.unread[0]))
    ensures Shape(s')
  {
    hide Balanced, Chained, AllKnown, Answers;
    var c := s.q.unread[0];
    PickUpTurnsPipe(s, s');
    AnswerTags(c, s.sigfd);
    RotateKeepsBalance(Pipe(s), SqeTags(Answer(c, s.sigfd)));
    AppendKeepsChains(Incomplete(s), c, s.sigfd);
  }

  lemma PickUpKeepsFaith(s: State, s': State)
    requires Faithful(s) && s.pc.Entered? && s.q.unread != []
    requires s' == s.(pc := Handling(s.q.unread[0]))
    ensures Faithful(s')
  {
    var c := s.q.unread[0];
    assert Acknowledged(s') == Acknowledged(s) + [c];
    assert (Acknowledged(s) + [c])[..|Acknowledged(s)|] == Acknowledged(s);
    assert s'.q.Submitted() + Owed(s') == s.q.Submitted() + Owed(s) + Answer(c, s.sigfd);
  }

  lemma PickUpKeepsInv(s: State, s': State)
    requires Inv(s) && s.pc.Entered? && s.q.unread != []
    requires s' == s.(pc := Handling(s.q.unread[0]))
    ensures Inv(s')
  {
    hide Balanced, Chained, AllKnown, Answers;
    PickUpKeepsShape(s, s');
    PickUpKeepsFaith(s, s');
    PickUpKeepsLanded(s, s');
    PickUpTag(s);
  }

  lemma PickUpTag(s: State)
    requires Balanced(Pipe(s)) && s.q.unread != [] && Unhandled(s) == s.q.unread
    ensures s.q.unread[0].userData <= EVENT_OTHER
    ensures s.q.unread[0].userData == EVENT_OTHER ==> |Unhandled(s)| + |Incomplete(s)| == 3
  {
    BalancedSize(Pipe(s));
    assert Pipe(s)[0] == s.q.unread[0].userData;
    assert Pipe(s)[0] in Pipe(s);
  }

  lemma PickUpKeepsLanded(s: State, s': State)
    requires AllLanded(s) && s.pc.Entered? && s.q.unread != []
    requires s' == s.(pc := Handling(s.q.unread[0]))
    ensures AllLanded(s')
  {
    hide Balanced, Chained, AllKnown, Answers;
    assert s.q.unread[0] in Unhandled(s);
    assert forall d :: d in Unhandled(s') ==> d in Unhandled(s);
  }

  /** With a console read at the end of the pipe, there is no earlier one. */
  lemma LastReadIsOnly(s: State, early: seq<Sqe>)
    requires Shape(s) && Incomplete(s) == early + [PromptWrite, PromptRead]
    ensures forall c :: c in Unhandled(s) ==> c.userData != EVENT_CONSOLE_READ
    ensures forall e :: e in early ==> e.userData != EVENT_CONSOLE_READ
  {
    hide Chained, AllKnown, WholeChains;
    var p, u := Pipe(s), |Unhandled(s)|;
    assert p[|p| - 1] == EVENT_CONSOLE_READ;
    forall c | c in Unhandled(s)
      ensures c.userData != EVENT_CONSOLE_READ
    {
      var i :| 0 <= i < u && Unhandled(s)[i] == c;
      assert p[i] == c.userData;
    }
    forall e | e in early
      ensures e.userData != EVENT_CONSOLE_READ
    {
      var i :| 0 <= i < |early| && early[i] == e;
      assert p[u + i] == e.userData;
    }
  }

  /** While a console read is being acted on, the next one is still owed: none
      is unhandled, in flight, published or pending. */
  lemma NoSecondRead(s: State)
    requires Shape(s) && (s.pc.Handling? || s.pc.RunningCommand?)
    requires s.pc.cqe.userData == EVENT_CONSOLE_READ
    ensures forall c :: c in Unhandled(s) ==> c.userData != EVENT_CONSOLE_READ
    ensures forall e :: e in s.inflight + s.q.published + s.q.pending ==> !IsConsoleRead(e)
    ensures forall k :: 0 <= k < |s.inflight| ==> !IsConsoleRead(s.inflight[k])
  {
    var early := s.inflight + s.q.published + s.q.pending;
    LastReadIsOnly(s, early);
    assert forall i :: 0 <= i < |early| ==> early[i] == Incomplete(s)[i];
    assert forall k :: 0 <= k < |s.inflight| ==> early[k] == s.inflight[k];
  }

  lemma CommandKeepsLanded(s: State, s': State)
    requires Shape(s) && s.pc.RunningCommand? && s.pc.cqe.userData == EVENT_CONSOLE_READ
    requires s'.pc.Responding? && s'.q == s.q
    ensures AllLanded(s')
  {
    hide Balanced, Chained, AllKnown, Answers;
    NoSecondRead(s);
    assert Unhandled(s') == Unhandled(s);
  }

  lemma CommandKeepsRest(s: State, s': State)
    requires InHand(s) && Windows(s) && Faithful(s) && s.pc.RunningCommand?
    requires s' == s.(buffer := s'.buffer, pc := Responding(s.pc.cqe, Answer(s.pc.cqe, s.sigfd)))
    ensures InHand(s') && Windows(s') && Faithful(s')
  {
    hide Balanced, Chained, AllKnown, Answers;
    assert Acknowledged(s') == Acknowledged(s);
  }

  lemma CommandKeepsInv(s: State, s': State, b: seq<char>)
    requires Inv(s) && s.pc.RunningCommand? && |b| == BUFFER_SIZE
    requires s' == s.(buffer := b, pc := Responding(s.pc.cqe, Answer(s.pc.cqe, s.sigfd)))
    ensures Inv(s')
  {
    hide Balanced, Chained, AllKnown, Answers;
    SamePipe(s, s');
    CommandKeepsLanded(s, s');
    CommandKeepsRest(s, s');
  }

  lemma AdvanceKeepsInv(s: State, s': State)
    requires Inv(s) && s.pc.Handled? && s' == s.(q := s.q.Take(), pc := LoopHead)
    ensures Inv(s')
  {
    hide Balanced, Chained, AllKnown, Answers;
    assert Unhandled(s') == Unhandled(s) && Incomplete(s') == Incomplete(s);
    SamePipe(s, s');
    assert Faithful(s') by { assert Acknowledged(s') == Acknowledged(s); }
  }

  /** Steps that change nothing but where the program stands. */
  lemma MoveKeepsInv(s: State, s': State)
    requires Inv(s) && s' == s.(pc := s'.pc) && Owed(s') == Owed(s) && HeadInHand(s') == HeadInHand(s)
    requires InHand(s')
    requires s'.pc.InEnter? || s'.pc.Entered? ==> s.q.pending == []
    requires s'.pc.Handling? || s'.pc.RunningCommand? ==> s.pc.Handling? && s'.pc.cqe == s.pc.cqe
    ensures Inv(s')
  {
    hide Balanced, Chained, AllKnown, Answers;
    assert Unhandled(s') == Unhandled(s) && Incomplete(s') == Incomplete(s);
    SamePipe(s, s');
    assert Faithful(s') by { assert Acknowledged(s') == Acknowledged(s); }
  }

  lemma SubmittingStepKeepsInv(s: State, s': State)
    requires Inv(s) && s.q.cap >= 3 && ProgramStep(s, s') && (s.pc.Starting? || s.pc.Responding?)
    ensures Inv(s') && !s'.pc.NullDereference? && s'.q.cap == s.q.cap
  {
    hide Balanced, Chained, AllKnown, Answers;
    var todo := s.pc.todo;
    if todo == [] {
      MoveKeepsInv(s, s');
    } else {
      assert todo == [todo[0]] + todo[1..];
      SubmitKeepsInv(s, s', todo[0], todo[1..]);
    }
  }

  lemma HandlingStepKeepsInv(s: State, s': State)
    requires Inv(s) && ProgramStep(s, s') && s.pc.Handling?
    ensures s'.pc.Halted? || Inv(s')
    ensures !s'.pc.NullDereference? && s'.q.cap == s.q.cap
  {
    hide Balanced, Chained, AllKnown, Answers;
    if !s'.pc.Halted? { MoveKeepsInv(s, s'); }
  }

  lemma ProgramStepKeepsInv(s: State, s': State)
    requires Inv(s) && s.q.cap >= 3 && ProgramStep(s, s')
    ensures s'.pc.Halted? || Inv(s')
    ensures !s'.pc.NullDereference? && s'.q.cap == s.q.cap
  {
    hide Balanced, Chained, AllKnown, Answers;
    match s.pc
    case Starting(_) => SubmittingStepKeepsInv(s, s');
    case LoopHead => PublishKeepsInv(s, s');
    case InEnter =>
      if !s'.pc.Halted? { MoveKeepsInv(s, s'); }
    case Entered =>
      if s.q.unread == [] { MoveKeepsInv(s, s'); } else { PickUpKeepsInv(s, s'); }
    case Handling(_) => HandlingStepKeepsInv(s, s');
    case RunningCommand(_) =>
      if !s'.pc.Halted? { CommandKeepsInv(s, s', s'.buffer); }
    case Responding(_, _) => SubmittingStepKeepsInv(s, s');
    case Handled(_) => AdvanceKeepsInv(s, s');
  }

  // ---- Kernel steps ---------------------------------------------------------

  lemma ConsumeMovesAlong(s: State)
    requires Feasible(s, Consume)
    ensures Incomplete(KernelAct(s, Consume)) == Incomplete(s)
    ensures KernelAct(s, Consume).q.Submitted() == s.q.Submitted()
  {
    hide Balanced, Chained, AllKnown, Answers;
    var s' := KernelAct(s, Consume);
    assert s'.inflight + s'.q.published == s.inflight + s.q.published;
    assert s'.q.consumed + s'.q.published == s.q.consumed + s.q.published;
  }

  lemma ConsumeKeepsInv(s: State)
    requires Inv(s) && Possible(s, Consume)
    ensures Inv(KernelAct(s, Consume))
  {
    hide Balanced, Chained, AllKnown, Answers;
    var s' := KernelAct(s, Consume);
    ConsumeMovesAlong(s);
    SamePipe(s, s');
    assert Faithful(s') by { assert Acknowledged(s') == Acknowledged(s); }
  }

  /** Only one console read is ever outstanding: while it is in flight, no
      completed one is waiting to be handled and none is in hand. */
  lemma ReadInFlightIsAlone(s: State, i: nat)
    requires Shape(s) && i < |s.inflight| && IsConsoleRead(s.inflight[i])
    ensures forall c :: c in Unhandled(s) ==> c.userData != EVENT_CONSOLE_READ
    ensures s.pc.Handling? || s.pc.RunningCommand? ==> s.pc.cqe.userData != EVENT_CONSOLE_READ
    ensures s.inflight[i] == PromptRead
  {
    var p, u := Pipe(s), |Unhandled(s)|;
    assert Incomplete(s)[i] == s.inflight[i];
    assert p[u + i] == EVENT_CONSOLE_READ;
    assert forall j :: 0 <= j < u ==> p[j] == Unhandled(s)[j].userData;
    if (s.pc.Handling? || s.pc.RunningCommand?) && s.pc.cqe.userData == EVENT_CONSOLE_READ {
      NoSecondRead(s);
    }
  }

  lemma ScribbleKeepsInv(s: State, bytes: seq<char>)
    requires Inv(s) && Possible(s, Scribble(bytes))
    ensures Inv(KernelAct(s, Scribble(bytes)))
  {
    hide Balanced, Chained, AllKnown, Answers;
    var s' := KernelAct(s, Scribble(bytes));
    assert Unhandled(s') == Unhandled(s) && Incomplete(s') == Incomplete(s);
    SamePipe(s, s');
    assert AllLanded(s') by {
      var e :| e in s.inflight && IsConsoleRead(e);
      var i :| 0 <= i < |s.inflight| && s.inflight[i] == e;
      ReadInFlightIsAlone(s, i);
    }
    assert Faithful(s') by { assert Acknowledged(s') == Acknowledged(s); }
  }

  /** A console read never overtakes the prompt it is linked behind: with the
      neighbour before it completed, no prompt write is ahead of it. */
  lemma ChainHoldsReadBack(done: seq<nat>, ts: seq<nat>, i: nat)
    requires Balanced(done + ts) && Chained(ts)
    requires i < |ts| && ts[i] == EVENT_CONSOLE_READ && (i > 0 ==> ts[i - 1] != EVENT_OTHER)
    ensures forall k :: 0 <= k < i ==> ts[k] != EVENT_OTHER
  {
    var p, u := done + ts, |done|;
    forall k | 0 <= k < i
      ensures ts[k] != EVENT_OTHER
    {
      var j := k + 1;
      assert p[u + j] == ts[j] && p[u + i] == ts[i];
      assert ts[j] == EVENT_CONSOLE_READ ==> j == i;
    }
  }

  lemma CompletionRemoves(s: State, i: nat, res: int, bytes: seq<char>)
    requires Feasible(s, Complete(i, res, bytes)) && (HeadInHand(s) ==> s.q.unread != [])
    ensures var s' := KernelAct(s, Complete(i, res, bytes));
      && s'.sigfd == s.sigfd && i < |Incomplete(s)| && Incomplete(s)[i] == s.inflight[i]
      && Unhandled(s') == Unhandled(s) + [Cqe(s.inflight[i].userData, res)]
      && Incomplete(s') == Incomplete(s)[..i] + Incomplete(s)[i + 1..]
  {
    hide Balanced, Chained, AllKnown, Answers;
    var s' := KernelAct(s, Complete(i, res, bytes));
    var later := s.q.published + s.q.pending + Owed(s);
    assert Incomplete(s) == s.inflight + later;
    assert Incomplete(s') == s'.inflight + later;
    RemoveFromFront(s.inflight, later, i);
  }

  lemma RemoveFromFront(a: seq<Sqe>, b: seq<Sqe>, i: nat)
    requires i < |a|
    ensures (a + b)[..i] + (a + b)[i + 1..] == (a[..i] + a[i + 1..]) + b
  {
  }

  lemma CompletionMovesUp(s: State, i: nat, res: int, bytes: seq<char>)
    requires Feasible(s, Complete(i, res, bytes)) && (HeadInHand(s) ==> s.q.unread != [])
    ensures |Unhandled(s)| + i < |Pipe(s)|
    ensures Pipe(KernelAct(s, Complete(i, res, bytes))) == MoveUp(Pipe(s), |Unhandled(s)|, |Unhandled(s)| + i)
  {
    hide Balanced, Chained, AllKnown, Answers;
    var s' := KernelAct(s, Complete(i, res, bytes));
    CompletionRemoves(s, i, res, bytes);
    RemoveTag(Incomplete(s), i);
    MoveUpSplit(CqeTags(Unhandled(s)), SqeTags(Incomplete(s)), i);
    assert CqeTags(Unhandled(s')) == CqeTags(Unhandled(s)) + [SqeTags(Incomplete(s))[i]];
  }

  lemma MoveUpSplit(done: seq<nat>, tags: seq<nat>, i: nat)
    requires i < |tags|
    ensures MoveUp(done + tags, |done|, |done| + i) == (done + [tags[i]]) + (tags[..i] + tags[i + 1..])
  {
  }

  lemma CompleteKeepsBalance(done: seq<nat>, ts: seq<nat>, i: nat)
    requires Balanced(done + ts) && Chained(ts) && i < |ts|
    requires i > 0 ==> ts[i - 1] != EVENT_OTHER
    ensures Balanced(MoveUp(done + ts, |done|, |done| + i))
  {
    hide Balanced;
    var p, u := done + ts, |done|;
    assert p[u + i] == ts[i];
    if ts[i] == EVENT_CONSOLE_READ {
      ChainHoldsReadBack(done, ts, i);
      assert forall k :: u <= k < u + i ==> p[k] == ts[k - u];
    }
    OvertakeKeepsBalance(p, u, u + i);
  }

  lemma UnblockedIsUnchained(s: State, i: nat)
    requires WholeChains(Incomplete(s), s.sigfd) && 0 < i < |s.inflight| && !Blocked(s.inflight, i)
    ensures Incomplete(s)[i - 1].userData != EVENT_OTHER
  {
    assert Incomplete(s)[i - 1] == s.inflight[i - 1];
  }

  lemma CompleteKeepsShape(s: State, i: nat, res: int, bytes: seq<char>)
    requires Shape(s) && Possible(s, Complete(i, res, bytes)) && (HeadInHand(s) ==> s.q.unread != [])
    ensures Shape(KernelAct(s, Complete(i, res, bytes)))
  {
    hide Balanced, Chained, AllKnown, MoveUp, KernelAct;
    CompletionMovesUp(s, i, res, bytes);
    CompletionRemoves(s, i, res, bytes);
    if i > 0 {
      UnblockedIsUnchained(s, i);
    }
    var done, all := CqeTags(Unhandled(s)), Incomplete(s);
    CompleteKeepsBalance(done, SqeTags(all), i);
    RemoveKeepsChains(all, i, s.sigfd);
    ShapeFrom(KernelAct(s, Complete(i, res, bytes)),
      MoveUp(done + SqeTags(all), |done|, |done| + i), all[..i] + all[i + 1..]);
  }

  lemma CompleteKeepsLanded(s: State, i: nat, res: int, bytes: seq<char>)
    requires |s.buffer| == BUFFER_SIZE && Shape(s) && InHand(s) && AllLanded(s)
    requires Possible(s, Complete(i, res, bytes))
    ensures AllLanded(KernelAct(s, Complete(i, res, bytes)))
  {
    hide Balanced, Chained, Answers;
    var s' := KernelAct(s, Complete(i, res, bytes));
    var e := s.inflight[i];
    CompletionRemoves(s, i, res, bytes);
    if IsConsoleRead(e) {
      ReadInFlightIsAlone(s, i);
      assert s'.buffer[..|bytes|] == bytes;
    }
    forall c | c in Unhandled(s')
      ensures Landed(s', c)
    {
      assert c in Unhandled(s) || c == Cqe(e.userData, res);
    }
  }

  lemma CompleteKeepsInv(s: State, i: nat, res: int, bytes: seq<char>)
    requires Inv(s) && Possible(s, Complete(i, res, bytes))
    ensures Inv(KernelAct(s, Complete(i, res, bytes)))
  {
    hide Shape, AllLanded, Windows, InHand, Faithful, KernelAct;
    CompleteKeepsHead(s);
    CompleteKeepsShape(s, i, res, bytes);
    CompleteKeepsLanded(s, i, res, bytes);
    CompleteKeepsRest(s, i, res, bytes);
  }

  lemma CompleteKeepsHead(s: State)
    requires InHand(s)
    ensures HeadInHand(s) ==> s.q.unread != []
  {
  }

  lemma CompleteKeepsRest(s: State, i: nat, res: int, bytes: seq<char>)
    requires |s.buffer| == BUFFER_SIZE && Windows(s) && InHand(s) && Faithful(s)
    requires Possible(s, Complete(i, res, bytes))
    ensures var s' := KernelAct(s, Complete(i, res, bytes));
      |s'.buffer| == BUFFER_SIZE && Windows(s') && InHand(s') && Faithful(s')
  {
    hide Answers;
    var s' := KernelAct(s, Complete(i, res, bytes));
    CompletionRemoves(s, i, res, bytes);
    assert Acknowledged(s') == Acknowledged(s);
  }

  lemma KernelStepKeepsInv(s: State, s': State)
    requires Inv(s) && KernelStep(s, s')
    ensures Inv(s') && s'.q.cap == s.q.cap && s'.pc == s.pc
  {
    hide Balanced, Chained, AllKnown, Answers;
    var a: KernelAction :| Possible(s, a) && s' == KernelAct(s, a);
    match a
    case Consume => ConsumeKeepsInv(s);
    case Scribble(bytes) => ScribbleKeepsInv(s, bytes);
    case Complete(i, res, bytes) => CompleteKeepsInv(s, i, res, bytes);
  }
}
