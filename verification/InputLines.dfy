/** Whole lines of input, from the kernel's delivery to the loop picking them up:
    none is lost, repeated or reordered. */
module InputLines {
  import opened Queue
  import opened EventLoop
  import opened LoopInvariant
  import opened LoopTheorems
  import opened UnlinkedLoop
  import opened UnlinkedTheorems
  import Memory

  /** The text of a line read into `b`: all but its last byte, up to a NUL. */
  function LineText(b: seq<char>, res: nat): string
    requires 0 < res <= |b|
  {
    Memory.UpToNul(b[..res - 1])
  }

  /** A console read that delivered `line`, a whole one. */
  ghost predicate BroughtLine(line: seq<char>, cqe: Cqe) {
    cqe.userData == EVENT_CONSOLE_READ && 0 < cqe.res == |line| && line[cqe.res - 1] == '\n'
  }

  /** The text of the whole line that a completion brought, if it did. */
  ghost function WholeLine(line: seq<char>, cqe: Cqe): seq<string> {
    if BroughtLine(line, cqe) then [LineText(line, cqe.res)] else []
  }

  ghost function WholeLines(line: seq<char>, cqes: seq<Cqe>): seq<string> {
    if cqes == [] then []
    else WholeLines(line, cqes[..|cqes| - 1]) + WholeLine(line, cqes[|cqes| - 1])
  }

  // ---- Lines delivered, lines picked up ------------------------------------------

  /** The line the loop picks up in a step from `s` to `s'`. */
  ghost function LinePickedUp(s: State, s': State): seq<string> {
    if s.pc.Entered? && s'.pc.Handling? then WholeLine(s'.line, s'.pc.cqe) else []
  }

  /** The line the kernel delivers in a step: the completion posted brought it. */
  ghost function LineDelivered(s: State, s': State): seq<string> {
    if |s'.q.unread| > |s.q.unread| then WholeLine(s'.line, s'.q.unread[|s'.q.unread| - 1]) else []
  }

  /** The lines that the loop picks up along a run, in order: the commands. */
  ghost function CommandLines(run: seq<State>): seq<string> {
    if |run| < 2 then []
    else CommandLines(run[..|run| - 1]) + LinePickedUp(run[|run| - 2], run[|run| - 1])
  }

  /** The lines that the kernel delivers along a run, in order. */
  ghost function DeliveredLines(run: seq<State>): seq<string> {
    if |run| < 2 then []
    else DeliveredLines(run[..|run| - 1]) + LineDelivered(run[|run| - 2], run[|run| - 1])
  }

  /** Delivered, not picked up yet. */
  ghost function WaitingLines(s: State): seq<string> {
    WholeLines(s.line, Unhandled(s))
  }

  lemma {:induction false} WholeLinesConcat(line: seq<char>, a: seq<Cqe>, b: seq<Cqe>)
    ensures WholeLines(line, a + b) == WholeLines(line, a) + WholeLines(line, b)
    decreases |b|
  {
    hide WholeLine;
    if b == [] {
      assert a + b == a;
    } else {
      var c := b[..|b| - 1];
      WholeLinesConcat(line, a, c);
      assert (a + b)[..|a + b| - 1] == a + c;
    }
  }

  lemma WholeLinesOne(line: seq<char>, c: Cqe)
    ensures WholeLines(line, [c]) == WholeLine(line, c)
  {
    assert [c][..0] == [];
  }

  lemma {:induction false} NoReadNoLine(line: seq<char>, cqes: seq<Cqe>)
    requires forall c :: c in cqes ==> c.userData != EVENT_CONSOLE_READ
    ensures WholeLines(line, cqes) == []
    decreases |cqes|
  {
    if cqes != [] {
      NoReadNoLine(line, cqes[..|cqes| - 1]);
    }
  }

  lemma ProgramStepMovesLines(s: State, s': State)
    requires (HeadInHand(s) ==> s.q.unread != []) && ProgramStep(s, s')
    requires !s'.pc.Halted? && !s'.pc.NullDereference?
    ensures WaitingLines(s) + LineDelivered(s, s') == LinePickedUp(s, s') + WaitingLines(s')
  {
    hide WholeLines, WholeLine;
    if s.pc.Entered? && s.q.unread != [] {
      var c := s.q.unread[0];
      assert s.q.unread == [c] + Unhandled(s');
      WholeLinesConcat(s.line, [c], Unhandled(s'));
      WholeLinesOne(s.line, c);
    } else {
      SameUnhandled(s, s');
    }
  }

  /** Other steps of the program leave the completions to be handled. */
  lemma SameUnhandled(s: State, s': State)
    requires (HeadInHand(s) ==> s.q.unread != []) && ProgramStep(s, s')
    requires !s'.pc.Halted? && !s'.pc.NullDereference?
    requires !(s.pc.Entered? && s.q.unread != [])
    ensures Unhandled(s') == Unhandled(s) && s'.line == s.line && !(s.pc.Entered? && s'.pc.Handling?)
    ensures |s'.q.unread| <= |s.q.unread|
  {
    hide Owed, Incomplete, Answer;
  }

  lemma CompletionMovesLines(s: State, i: nat, res: int, bytes: seq<char>)
    requires FreeInv(s) && Feasible(s, Complete(i, res, bytes))
    ensures var s' := KernelAct(s, Complete(i, res, bytes));
      WaitingLines(s) + LineDelivered(s, s') == LinePickedUp(s, s') + WaitingLines(s')
  {
    hide Slim, AllKnown, Chained, WholeLines, WholeLine;
    var s' := KernelAct(s, Complete(i, res, bytes));
    var c := Cqe(s.inflight[i].userData, res);
    CompletionRemoves(s, i, res, bytes);
    WholeLinesConcat(s'.line, Unhandled(s), [c]);
    WholeLinesOne(s'.line, c);
    if IsConsoleRead(s.inflight[i]) {
      FreeReadIsAlone(s, i);
      NoReadNoLine(s.line, Unhandled(s));
      NoReadNoLine(s'.line, Unhandled(s));
    }
  }

  lemma KernelStepMovesLines(s: State, s': State)
    requires FreeInv(s) && FreeKernelStep(s, s')
    ensures WaitingLines(s) + LineDelivered(s, s') == LinePickedUp(s, s') + WaitingLines(s')
  {
    hide FreeInv, WholeLines, WholeLine;
    var a: KernelAction :| Feasible(s, a) && s' == KernelAct(s, a);
    match a
    case Consume => assert Unhandled(s') == Unhandled(s);
    case Scribble(_) => assert Unhandled(s') == Unhandled(s);
    case Complete(i, res, bytes) => CompletionMovesLines(s, i, res, bytes);
  }

  /** In every run, whatever the kernel makes of links: the lines it delivered are
      the lines the loop picked up, in order, and those still waiting. */
  lemma {:induction false} EveryLineIsPickedUpOnce(run: seq<State>, i: nat)
    requires IsFreeRun(run) && run[0].q.cap >= 3 && i < |run| && !run[i].pc.Halted?
    ensures DeliveredLines(run[..i + 1]) == CommandLines(run[..i + 1]) + WaitingLines(run[i])
    decreases i
  {
    hide FreeInv, ProgramStep, FreeKernelStep, WaitingLines, LineDelivered, LinePickedUp;
    if i == 0 {
      NothingWaits(run[0]);
    } else {
      assert FreeNext(run[i - 1], run[i]);
      FreeRunKeepsInv(run, i);
      FreeRunKeepsInv(run, i - 1);
      if ProgramStep(run[i - 1], run[i]) {
        HaltedIsFinal(run[i - 1], run[i]);
        HasUnread(run[i - 1]);
        ProgramStepMovesLines(run[i - 1], run[i]);
      } else {
        KernelStepMovesLines(run[i - 1], run[i]);
      }
      EveryLineIsPickedUpOnce(run, i - 1);
      assert run[..i + 1][..i] == run[..i];
      var before := CommandLines(run[..i]);
      assert before + (WaitingLines(run[i - 1]) + LineDelivered(run[i - 1], run[i]))
          == (before + LinePickedUp(run[i - 1], run[i])) + WaitingLines(run[i]);
    }
  }

  lemma NothingWaits(s: State)
    requires Start(s)
    ensures WaitingLines(s) == []
  {
  }
}
