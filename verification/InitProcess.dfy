/** init/init.c in its own form: the functions that fill submissions in place,
    act on completions and rewrite the global buffer, over the wrapping ring.
    Every execution of its loop is a run of the state machine of EventLoop. */
module InitProcess {
  import opened Prelude
  import opened Word
  import opened Queue
  import opened Uring
  import opened EventLoop
  import opened LoopInvariant
  import opened UnlinkedLoop
  import opened UnlinkedTheorems
  import opened InputLines
  import opened Waits
  import Command
  import Dispatch
  import Memory

  function SubmitAll(q: Fifo, es: seq<Sqe>): Fifo
    decreases |es|
  {
    if es == [] then q else SubmitAll(q.Submit(es[0]), es[1..])
  }

  /** What became of one command line: what it ran, and the memory it left. */
  datatype Performed = Performed(line: string, memory: seq<char>, outcome: Dispatch.Outcome)

  /** Running `line`, which stands at the start of `before`, did what its words
      ask for, and overwrote nothing but blanks of it. */
  ghost predicate Performs(before: seq<char>, after: seq<char>, line: string, o: Dispatch.Outcome) {
    && Dispatch.Obeys(after, line, o)
    && Command.BlanksCut(before, after, 0, |line|) && Dispatch.ChildCuts(after, o, 0, |line|)
  }

  function LinesOf(did: seq<Performed>): (ls: seq<string>)
    ensures |ls| == |did|
  {
    seq(|did|, k requires 0 <= k < |did| => did[k].line)
  }

  /** What the kernel does during one turn of the loop: before uring_wait, inside
      io_uring_enter, after it, with a completion in hand, and once it is handled. */
  datatype Moves = Moves(
    atHead: seq<KernelAction>, inEnter: seq<KernelAction>, returned: seq<KernelAction>,
    inHand: seq<KernelAction>, handled: seq<KernelAction>)

  /** A move that the kernel can make: a completion waits while the ring is full. */
  ghost predicate MayMove(s: State, a: KernelAction, links: bool) {
    && Feasible(s, a) && (links ==> Possible(s, a))
    && (a.Complete? ==> |s.q.unread| < s.q.cqCap)
  }

  /** What the program has done along a run: the lines it picked up, and the
      entries it had published at each call of io_uring_enter. */
  datatype Doings = Doings(lines: seq<string>, flushes: seq<nat>)

  ghost function Done(run: seq<State>): Doings {
    Doings(CommandLines(run), Flushes(run))
  }

  ghost predicate ReadInHand(s: State) {
    s.pc.Handling? && s.pc.cqe.userData == EVENT_CONSOLE_READ
  }

  class Init {
    const ring: UringQueue
    const buffer: array<char>
    const sigfd: int

    /** No slot ever held anything in the fields this program does not write. */
    ghost predicate Valid()
      reads this, ring, ring.sqArray, ring.sqes, ring.cqes
    {
      && ring.Valid() && buffer.Length == BUFFER_SIZE
      && forall i :: 0 <= i < ring.sqes.Length ==> Untouched(ring.sqes[i])
    }

    /** After start-up: an empty ring whose counters stand anywhere. */
    constructor (entries: u32, completions: u32, start: u32, cqStart: u32, sigfd: int)
      requires RingSize(entries) && RingSize(completions)
      ensures Valid() && fresh(ring) && fresh(buffer)
      ensures fresh(ring.sqArray) && fresh(ring.sqes) && fresh(ring.cqes)
      ensures ring.Model() == Fifo(entries, [], [], [], completions, [], [])
      ensures this.sigfd == sigfd && buffer.Length == 1024
    {
      ring := new UringQueue(entries, completions, start, cqStart);
      buffer := new char[BUFFER_SIZE](_ => '\0');
      this.sigfd := sigfd;
    }

    ghost predicate Untouched(e: Sqe) {
      e.off == 0 && e.rwFlags == 0 && e.bufIndex == 0
    }

    ghost function Room(): int
      requires Valid()
      reads this, ring, ring.sqArray, ring.sqes, ring.cqes
    {
      var q := ring.Model();
      q.cap - |q.published| - |q.pending|
    }

    method SubmitSigListen()
      requires Valid() && Room() >= 1
      modifies ring`sqListTail, ring`l, ring.sqes
      ensures Valid()
      ensures ring.Model() == old(ring.Model()).Submit(SignalRead(sigfd))
      ensures SignalRead(sigfd) == Sqe(OpRead, 0, 0, sigfd, 0, SignalInfo, 128, 0, 1, 0)
    {
      var slot := ring.NewSubmission();
      var sqe := ring.sqes[slot.value];
      sqe := sqe.(opcode := OpRead);
      sqe := sqe.(fd := sigfd);
      sqe := sqe.(addr := SignalInfo);
      sqe := sqe.(len := SIGINFO_SIZE);
      sqe := sqe.(flags := 0);
      sqe := sqe.(ioprio := 0);
      sqe := sqe.(userData := EVENT_SIGNAL);
      ring.Store(slot.value, sqe);
    }

    method CreateConsolePrompt()
      requires Valid() && Room() >= 2
      modifies ring`sqListTail, ring`l, ring.sqes
      ensures Valid()
      ensures ring.Model() == old(ring.Model()).Submit(PromptWrite).Submit(PromptRead)
      ensures PromptWrite == Sqe(OpWrite, 4, 0, 1, 0, Text("Command: "), 9, 0, 2, 0)
      ensures PromptRead == Sqe(OpRead, 0, 0, 0, 0, InputBuffer, 1024, 0, 0, 0)
    {
      hide Indexed, Window, RingSize;
      var slot := ring.NewSubmission();
      var sqe := ring.sqes[slot.value];
      sqe := sqe.(opcode := OpWrite);
      sqe := sqe.(fd := STDOUT);
      sqe := sqe.(addr := Text(PROMPT));
      sqe := sqe.(len := |PROMPT|);
      sqe := sqe.(flags := IO_LINK);
      sqe := sqe.(ioprio := 0);
      sqe := sqe.(userData := EVENT_OTHER);
      ring.Store(slot.value, sqe);
      slot := ring.NewSubmission();
      sqe := ring.sqes[slot.value];
      sqe := sqe.(opcode := OpRead);
      sqe := sqe.(fd := STDIN);
      sqe := sqe.(addr := InputBuffer);
      sqe := sqe.(len := BUFFER_SIZE);
      sqe := sqe.(flags := 0);
      sqe := sqe.(ioprio := 0);
      sqe := sqe.(userData := EVENT_CONSOLE_READ);
      ring.Store(slot.value, sqe);
    }

    /** Acts on a completed console read. `ran` tells what a whole line ran: it
        is what the words of the delivered text ask for. */
    method ProcessInput(cqe: Cqe) returns (halted: bool, ran: Option<Dispatch.Outcome>)
      requires Valid() && Room() >= 2 && cqe.res <= buffer.Length
      modifies ring`sqListTail, ring`l, ring.sqes, buffer
      ensures Valid()
      ensures halted <==> cqe.res <= 0 || ran == Some(Dispatch.Builtin("exit", None))
      ensures ran.Some? <==> cqe.res > 0 && old(buffer[cqe.res - 1]) == '\n'
      ensures ran.Some? ==>
        Performs(old(buffer[..])[cqe.res - 1 := '\0'], buffer[..], LineText(old(buffer[..]), cqe.res), ran.value)
      ensures ran.None? ==> buffer[..] == old(buffer[..])
      ensures ring.Model() ==
        if halted then old(ring.Model()) else old(ring.Model()).Submit(PromptWrite).Submit(PromptRead)
    {
      ran := None;
      if cqe.res > 0 {
        var last := cqe.res - 1;
        if buffer[last] == '\n' {
          buffer[last] := '\0';
          assert buffer[..] == old(buffer[..])[last := '\0'];
          assert buffer[0..last] == old(buffer[..])[..last];
          Memory.NulMakesString(buffer[..], 0, last);
          Memory.CStringIs(buffer[..], 0, LineText(old(buffer[..]), cqe.res));
          var o := Dispatch.ProcessCommand(buffer, 0);
          ran := Some(o);
          if o == Dispatch.Builtin("exit", None) {
            return true, ran;
          }
        }
        CreateConsolePrompt();
        halted := false;
      } else {
        halted := true;
      }
    }

    /** Acts on one completion. */
    method Handle(cqe: Cqe) returns (halted: bool, ran: Option<Dispatch.Outcome>)
      requires Valid() && Room() >= |Answer(cqe, sigfd)|
      requires cqe.userData == EVENT_CONSOLE_READ ==> cqe.res <= buffer.Length
      modifies ring`sqListTail, ring`l, ring.sqes, buffer
      ensures Valid()
      ensures ran.None? ==> buffer[..] == old(buffer[..])
      ensures ran.Some? <==>
        cqe.userData == EVENT_CONSOLE_READ && cqe.res > 0 && old(buffer[cqe.res - 1]) == '\n'
      ensures ran.Some? ==>
        Performs(old(buffer[..])[cqe.res - 1 := '\0'], buffer[..], LineText(old(buffer[..]), cqe.res), ran.value)
      ensures halted <==>
        || (cqe.userData == EVENT_CONSOLE_READ &&
              (cqe.res <= 0 || ran == Some(Dispatch.Builtin("exit", None))))
        || (cqe.userData == EVENT_OTHER && cqe.res < 0)
      ensures ring.Model() ==
        if halted then old(ring.Model()) else SubmitAll(old(ring.Model()), Answer(cqe, sigfd))
    {
      halted, ran := false, None;
      if cqe.userData == EVENT_CONSOLE_READ {
        halted, ran := ProcessInput(cqe);
      } else if cqe.userData == EVENT_SIGNAL {
        SubmitSigListen();
      } else if cqe.userData == EVENT_OTHER {
        if cqe.res < 0 {
          halted := true;
        }
      }
      SubmitTwo(old(ring.Model()), PromptWrite, PromptRead);
      SubmitOne(old(ring.Model()), SignalRead(sigfd));
    }

    // ---- The loop -----------------------------------------------------------

    ghost predicate Matches(s: State)
      requires Valid()
      reads this, ring, ring.sqArray, ring.sqes, ring.cqes, buffer
    {
      s.q == ring.Model() && s.buffer == buffer[..] && s.sigfd == sigfd
    }

    /** One move of the kernel, if it is possible at all and its completion finds
        room in the ring. `inflight` is the kernel's own list of operations;
        `links` tells whether it keeps links from one call to the next. */
    method KernelMove(a: KernelAction, inflight: seq<Sqe>, links: bool, ghost s: State) returns (now: seq<Sqe>)
      requires Valid() && Matches(s) && s.inflight == inflight && |s.buffer| == BUFFER_SIZE
      modifies ring`sqHead, ring`h, ring`consumed, ring`cqTail, ring`p, ring.cqes, buffer
      ensures Valid()
      ensures var s' := if MayMove(s, a, links) then KernelAct(s, a) else s;
        Matches(s') && s'.inflight == now
    {
      hide Indexed, Window, RingSize, Untouched;
      now := inflight;
      match a {
        case Consume =>
          ring.PublishedCount();
          if Sub(ring.sqTail, ring.sqHead) > 0 {
            var e := ring.KernelConsume();
            now := inflight + [e];
          }
        case Scribble(bytes) =>
          if |bytes| == buffer.Length && exists e :: e in inflight && IsConsoleRead(e) {
            forall i | 0 <= i < buffer.Length {
              buffer[i] := bytes[i];
            }
            assert buffer[..] == bytes;
          }
        case Complete(i, res, bytes) =>
          ring.UnreadCount();
          var room := Sub(ring.cqTail, ring.cqHead) < ring.cqEntries;
          if i < |inflight| && room && !(links && Blocked(inflight, i)) {
            var e := inflight[i];
            var read := IsConsoleRead(e);
            if !read || (res <= e.len && |bytes| == (if res > 0 then res else 0) <= buffer.Length) {
              ring.KernelPost(Cqe(e.userData, res));
              now := inflight[..i] + inflight[i + 1..];
              if read {
                ghost var b := buffer[..];
                forall k | 0 <= k < |bytes| {
                  buffer[k] := bytes[k];
                }
                assert buffer[..] == bytes + b[|bytes|..];
              }
            }
          }
      }
    }

    /** One move, as a step of the run if it is made. */
    method OneMove(a: KernelAction, inflight: seq<Sqe>, links: bool, ghost run: seq<State>)
      returns (now: seq<Sqe>, ghost more: seq<State>)
      requires Valid() && Runs(links, run) && !Last(run).pc.Halted?
      requires Matches(Last(run)) && Last(run).inflight == inflight
      modifies ring`sqHead, ring`h, ring`consumed, ring`cqTail, ring`p, ring.cqes, buffer
      ensures Valid() && Runs(links, more) && Last(more).pc == Last(run).pc
      ensures Matches(Last(more)) && Last(more).inflight == now
      ensures ReadInHand(Last(run)) ==> Last(more).line == Last(run).line
      ensures Done(more) == Done(run)
    {
      hide Runs, FreeInv, FreeLanded, Feasible, Possible, KernelAct, CommandLines, Flushes, Indexed, Window, RingSize;
      ghost var s := Last(run);
      LastInv(links, run);
      BufferSize(s);
      now := KernelMove(a, inflight, links, s);
      more := run;
      if MayMove(s, a, links) {
        GrowByKernel(links, run, a);
        more := run + [KernelAct(s, a)];
      }
    }

    /** The kernel's moves while the program stands where it does. The line of a
        console read in hand stays as it is. */
    method Kernel(moves: seq<KernelAction>, inflight: seq<Sqe>, links: bool, ghost run: seq<State>)
      returns (now: seq<Sqe>, ghost more: seq<State>)
      requires Valid() && Runs(links, run) && !Last(run).pc.Halted?
      requires Matches(Last(run)) && Last(run).inflight == inflight
      modifies ring`sqHead, ring`h, ring`consumed, ring`cqTail, ring`p, ring.cqes, buffer
      ensures Valid() && Runs(links, more) && Last(more).pc == Last(run).pc
      ensures Matches(Last(more)) && Last(more).inflight == now
      ensures ReadInHand(Last(run)) ==> Last(more).line == Last(run).line
      ensures Done(more) == Done(run)
    {
      hide Runs, CommandLines, Flushes, Indexed, Window, RingSize, Untouched;
      now, more := inflight, run;
      for k := 0 to |moves|
        invariant Valid() && Runs(links, more) && Last(more).pc == Last(run).pc
        invariant Matches(Last(more)) && Last(more).inflight == now
        invariant ReadInHand(Last(run)) ==> Last(more).line == Last(run).line
        invariant Done(more) == Done(run)
      {
        now, more := OneMove(moves[k], now, links, more);
      }
    }

    /** Acts on the completion at the head of the ring, then advances over it. A
        command runs exactly when the console read delivered a whole line, and
        does what the words of the delivered bytes ask for. */
    method Respond(cqe: Cqe, moves: seq<KernelAction>, inflight: seq<Sqe>, links: bool, ghost run: seq<State>)
      returns (halted: bool, ran: Option<Performed>, now: seq<Sqe>, ghost more: seq<State>)
      requires Valid() && Runs(links, run) && Last(run).pc == Handling(cqe)
      requires Matches(Last(run)) && Last(run).inflight == inflight
      modifies ring, ring.sqArray, ring.sqes, ring.cqes, buffer
      ensures Valid() && Runs(links, more) && Matches(Last(more)) && Last(more).inflight == now
      ensures if halted then Last(more).pc.Halted? else Last(more).pc.LoopHead?
      ensures ran.Some? <==> BroughtLine(Last(run).line, cqe)
      ensures ran.Some? ==>
        && cqe.res <= buffer.Length && ran.value.line == LineText(Last(run).line, cqe.res)
        && Performs(old(buffer[..])[cqe.res - 1 := '\0'], ran.value.memory, ran.value.line, ran.value.outcome)
      ensures Done(more) == Done(run)
    {
      hide Runs, FreeInv, FreeLanded, ProgramStep, SubmitAll, Performs, CommandLines, Flushes;
      LastInv(links, run);
      HandlingIsSafe(Last(run));
      LineIsBuffer(Last(run));
      var read := buffer[..];
      var o;
      halted, o := Handle(cqe);
      ran := if o.Some? then Some(Performed(LineText(read, cqe.res), buffer[..], o.value)) else None;
      more := HandlePath(links, run, buffer[..], halted);
      now := inflight;
      if !halted {
        now, more := Kernel(moves, now, links, more);
        LastInv(links, more);
        HandledHasUnread(Last(more));
        more := AdvanceStep(links, more);
        ring.Advance();
      }
    }

    /** uring_wait, the kernel moving before and inside it. The call asks to have
        everything published and unconsumed submitted, and waits for one completion. */
    method Enter(moves: Moves, inflight: seq<Sqe>, links: bool, ghost run: seq<State>)
      returns (args: EnterArgs, now: seq<Sqe>, ghost more: seq<State>)
      requires Valid() && Runs(links, run) && Last(run).pc.LoopHead?
      requires Matches(Last(run)) && Last(run).inflight == inflight
      modifies ring, ring.sqArray, ring.sqes, ring.cqes, buffer
      ensures Valid() && Runs(links, more) && Matches(Last(more)) && Last(more).inflight == now
      ensures Last(more).pc.Entered? && CommandLines(more) == CommandLines(run)
      ensures Flushes(more) == Flushes(run) + [args.toSubmit] && args.minComplete == 1
    {
      hide Runs, CommandLines, Flushes, Indexed, Window, RingSize, Untouched;
      now, more := Kernel(moves.atHead, inflight, links, run);
      more := WaitStep(links, more);
      args := ring.Wait(1);
      now, more := Kernel(moves.inEnter, now, links, more);
      more := ReturnStep(links, more);
    }

    /** uring_wait and uring_result, the kernel moving before, between and after. */
    method Await(moves: Moves, inflight: seq<Sqe>, links: bool, ghost run: seq<State>)
      returns (args: EnterArgs, cqe: Option<Cqe>, now: seq<Sqe>, ghost more: seq<State>)
      requires Valid() && Runs(links, run) && Last(run).pc.LoopHead?
      requires Matches(Last(run)) && Last(run).inflight == inflight
      modifies ring, ring.sqArray, ring.sqes, ring.cqes, buffer
      ensures Valid() && Runs(links, more) && Matches(Last(more)) && Last(more).inflight == now
      ensures Flushes(more) == Flushes(run) + [args.toSubmit] && args.minComplete == 1
      ensures cqe.None? ==> Last(more).pc.LoopHead? && CommandLines(more) == CommandLines(run)
      ensures cqe.Some? ==>
        && Last(more).pc == Handling(cqe.value)
        && CommandLines(more) == CommandLines(run) + WholeLine(Last(more).line, cqe.value)
    {
      hide Runs, ProgramStep, CommandLines, Flushes, WholeLine, Indexed, Window, RingSize, Untouched;
      args, now, more := Enter(moves, inflight, links, run);
      now, more := Kernel(moves.returned, now, links, more);
      more := LookStep(links, more);
      cqe := ring.Result();
      ghost var line := Last(more).line;
      now, more := Kernel(moves.inHand, now, links, more);
      if cqe.Some? {
        SameWholeLine(line, Last(more).line, cqe.value);
      }
    }

    /** One turn of the loop: its call of io_uring_enter, and the command it ran, if
        any. */
    method Turn(moves: Moves, inflight: seq<Sqe>, links: bool, ghost run: seq<State>)
      returns (args: EnterArgs, halted: bool, now: seq<Sqe>, did: seq<Performed>, ghost more: seq<State>)
      requires Valid() && Runs(links, run) && Last(run).pc.LoopHead?
      requires Matches(Last(run)) && Last(run).inflight == inflight
      modifies ring, ring.sqArray, ring.sqes, ring.cqes, buffer
      ensures Valid() && Runs(links, more) && Matches(Last(more)) && Last(more).inflight == now
      ensures if halted then Last(more).pc.Halted? else Last(more).pc.LoopHead?
      ensures CommandLines(more) == CommandLines(run) + LinesOf(did)
      ensures Flushes(more) == Flushes(run) + [args.toSubmit] && args.minComplete == 1
      ensures |did| <= 1
      ensures forall k :: 0 <= k < |did| ==> Dispatch.Obeys(did[k].memory, did[k].line, did[k].outcome)
    {
      hide Runs, ProgramStep, CommandLines, Flushes, Dispatch.Obeys, Indexed, Window, RingSize, Untouched;
      did, halted := [], false;
      assert LinesOf(did) == [];
      var cqe;
      args, cqe, now, more := Await(moves, inflight, links, run);
      if cqe.Some? {
        ghost var s := Last(more);
        var ran;
        halted, ran, now, more := Respond(cqe.value, moves.handled, now, links, more);
        if ran.Some? {
          did := [ran.value];
          assert LinesOf(did) == [LineText(s.line, cqe.value.res)];
        }
      }
    }

    /** init(): the first prompt and the first signal read are queued. */
    method StartUp(ghost links: bool) returns (ghost run: seq<State>)
      requires Valid() && ring.sqEntries >= 3
      requires ring.Model() == Fifo(ring.sqEntries, [], [], [], ring.cqEntries, [], [])
      modifies ring`sqListTail, ring`l, ring.sqes
      ensures Valid() && Runs(links, run) && Matches(Last(run))
      ensures Last(run).pc.LoopHead? && Last(run).inflight == [] && Done(run) == Doings([], [])
    {
      hide ProgramStep, KernelStep, FreeKernelStep, Next, FreeNext, CommandLines, Flushes, SubmitAll;
      ghost var todo := [PromptWrite, PromptRead, SignalRead(sigfd)];
      run := [State(ring.Model(), [], Starting(todo), buffer[..], [], sigfd)];
      SubmitThree(ring.Model(), PromptWrite, PromptRead, SignalRead(sigfd));
      CreateConsolePrompt();
      SubmitSigListen();
      NoLinesYet(run);
      run := StartPath(links, run);
    }

    /** start() from its first prompt on, for as many turns of the loop as
        `schedule` has entries, each telling what the kernel does during that turn:
        every execution is a run over a kernel that need not honour links, and one
        over a kernel that does if this one does. The commands it ran are the whole
        lines it picked up, in order, each one doing what the words of its own line
        ask for. Every call of io_uring_enter waits for one completion, and asks for
        what the run has published by then. */
    method Run(schedule: seq<Moves>, links: bool)
      returns (halted: bool, did: seq<Performed>, calls: seq<EnterArgs>, ghost run: seq<State>)
      requires Valid() && ring.sqEntries >= 3
      requires ring.Model() == Fifo(ring.sqEntries, [], [], [], ring.cqEntries, [], [])
      modifies ring, ring.sqArray, ring.sqes, ring.cqes, buffer
      ensures Valid() && run != [] && IsFreeRun(run) && (links ==> IsRun(run))
      ensures Matches(run[|run| - 1])
      ensures if halted then run[|run| - 1].pc.Halted? else run[|run| - 1].pc.LoopHead?
      ensures LinesOf(did) == CommandLines(run)
      ensures forall k :: 0 <= k < |did| ==> Dispatch.Obeys(did[k].memory, did[k].line, did[k].outcome)
      ensures |calls| == |Flushes(run)|
      ensures forall k :: 0 <= k < |calls| ==> calls[k].toSubmit == Flushes(run)[k] && calls[k].minComplete == 1
    {
      hide Runs, CommandLines, Flushes, Dispatch.Obeys;
      run := StartUp(links);
      did, calls := [], [];
      var inflight: seq<Sqe> := [];
      halted := false;
      for n := 0 to |schedule|
        invariant Valid() && Runs(links, run) && Matches(Last(run)) && Last(run).inflight == inflight
        invariant !halted && Last(run).pc.LoopHead?
        invariant LinesOf(did) == CommandLines(run) && |calls| == |Flushes(run)|
        invariant forall k :: 0 <= k < |calls| ==> calls[k].toSubmit == Flushes(run)[k] && calls[k].minComplete == 1
        invariant forall k :: 0 <= k < |did| ==> Dispatch.Obeys(did[k].memory, did[k].line, did[k].outcome)
      {
        var args, more;
        args, halted, inflight, more, run := Turn(schedule[n], inflight, links, run);
        LinesOfConcat(did, more);
        did, calls := did + more, calls + [args];
        if halted {
          RunsAreRuns(links, run);
          return;
        }
      }
      RunsAreRuns(links, run);
    }
  }

  lemma SameWholeLine(line: seq<char>, line': seq<char>, cqe: Cqe)
    requires cqe.userData == EVENT_CONSOLE_READ ==> line' == line
    ensures WholeLine(line', cqe) == WholeLine(line, cqe)
  {
  }

  lemma RunsAreRuns(links: bool, run: seq<State>)
    requires Runs(links, run)
    ensures IsFreeRun(run) && (links ==> IsRun(run))
  {
  }

  lemma NoLinesYet(run: seq<State>)
    requires |run| == 1
    ensures Done(run) == Doings([], [])
  {
  }

  lemma SubmitThree(q: Fifo, a: Sqe, b: Sqe, c: Sqe)
    ensures SubmitAll(q, [a, b, c]) == q.Submit(a).Submit(b).Submit(c)
  {
    assert [a, b, c][1..] == [b, c];
    SubmitTwo(q.Submit(a), b, c);
  }

  lemma GrowTo(links: bool, run: seq<State>, s: State) returns (more: seq<State>)
    requires Runs(links, run) && ProgramStep(Last(run), s)
    ensures Runs(links, more) && Last(more) == s
    ensures CommandLines(more) == CommandLines(run) + LinePickedUp(Last(run), s)
    ensures Flushes(more) == Flushes(run) + Flushed(Last(run), s)
  {
    hide Runs, ProgramStep;
    GrowByProgram(links, run, s);
    more := run + [s];
  }

  lemma LinesOfConcat(a: seq<Performed>, b: seq<Performed>)
    ensures LinesOf(a + b) == LinesOf(a) + LinesOf(b)
  {
  }

  lemma WaitStep(links: bool, run: seq<State>) returns (more: seq<State>)
    requires Runs(links, run) && Last(run).pc.LoopHead?
    ensures Runs(links, more) && var s := Last(run); Last(more) == s.(q := s.q.Publish(), pc := InEnter)
    ensures CommandLines(more) == CommandLines(run)
    ensures Flushes(more) == Flushes(run) + [|Last(more).q.published|]
  {
    hide Runs;
    var s := Last(run);
    more := GrowTo(links, run, s.(q := s.q.Publish(), pc := InEnter));
  }

  lemma ReturnStep(links: bool, run: seq<State>) returns (more: seq<State>)
    requires Runs(links, run) && Last(run).pc.InEnter?
    ensures Runs(links, more) && Last(more) == Last(run).(pc := Entered)
    ensures Done(more) == Done(run)
  {
    hide Runs;
    more := GrowTo(links, run, Last(run).(pc := Entered));
  }

  lemma LookStep(links: bool, run: seq<State>) returns (more: seq<State>)
    requires Runs(links, run) && Last(run).pc.Entered?
    ensures Runs(links, more) && var s := Last(run);
      Last(more) == s.(pc := if s.q.unread == [] then LoopHead else Handling(s.q.unread[0]))
    ensures CommandLines(more) == CommandLines(run) + LinePickedUp(Last(run), Last(more))
    ensures Flushes(more) == Flushes(run)
  {
    hide Runs;
    var s := Last(run);
    more := GrowTo(links, run, s.(pc := if s.q.unread == [] then LoopHead else Handling(s.q.unread[0])));
  }

  lemma AdvanceStep(links: bool, run: seq<State>) returns (more: seq<State>)
    requires Runs(links, run) && Last(run).pc.Handled?
    ensures Runs(links, more) && var s := Last(run); Last(more) == s.(q := s.q.Take(), pc := LoopHead)
    ensures Done(more) == Done(run)
  {
    hide Runs;
    var s := Last(run);
    more := GrowTo(links, run, s.(q := s.q.Take(), pc := LoopHead));
  }

  lemma GrowByKernel(links: bool, run: seq<State>, a: KernelAction)
    requires Runs(links, run) && !Last(run).pc.Halted? && MayMove(Last(run), a, links)
    ensures var s, s' := Last(run), KernelAct(Last(run), a);
      && Runs(links, run + [s']) && Last(run + [s']) == s' && s'.pc == s.pc
      && Done(run + [s']) == Done(run)
      && (ReadInHand(s) ==> s'.line == s.line)
  {
    hide Runs, Feasible, Blocked, KernelAct, CommandLines, Flushes, FreeInv;
    var s, s' := Last(run), KernelAct(Last(run), a);
    assert FreeKernelStep(s, s');
    assert links ==> KernelStep(s, s');
    LastInv(links, run);
    FreeKernelStepKeepsFree(s, s');
    Grow(links, run, s');
    if ReadInHand(s) {
      NoReadMeanwhile(s);
      OnlyFreeReadsWrite(s, s');
    }
  }

  /** Enough room for the answer, and a console read's length fits the buffer. */
  lemma HandlingIsSafe(s: State)
    requires FreeInv(s) && FreeLanded(s) && s.q.cap >= 3 && s.pc.Handling?
    ensures |s.q.published| + |s.q.pending| + |Answer(s.pc.cqe, s.sigfd)| <= s.q.cap
    ensures s.pc.cqe.userData == EVENT_CONSOLE_READ ==> s.pc.cqe.res <= BUFFER_SIZE
  {
    hide FreeInv;
    RoomOwed(s);
  }

  /** What the program is about to process is what the kernel delivered. */
  lemma LineIsBuffer(s: State)
    requires FreeLanded(s) && s.pc.Handling?
    ensures s.pc.cqe.userData == EVENT_CONSOLE_READ && s.pc.cqe.res > 0 ==>
      && |s.line| == s.pc.cqe.res <= |s.buffer| && s.line[s.pc.cqe.res - 1] == s.buffer[s.pc.cqe.res - 1]
      && LineText(s.buffer, s.pc.cqe.res) == LineText(s.line, s.pc.cqe.res)
  {
    hide LineText;
    if s.pc.cqe.userData == EVENT_CONSOLE_READ && s.pc.cqe.res > 0 {
      assert Landed(s, s.pc.cqe);
      SameText(s.buffer, s.line, s.pc.cqe.res);
    }
  }

  lemma SameText(b: seq<char>, line: seq<char>, res: nat)
    requires 0 < res == |line| <= |b| && b[..res] == line
    ensures line[res - 1] == b[res - 1] && LineText(b, res) == LineText(line, res)
  {
    assert b[..res][..res - 1] == b[..res - 1];
    assert b[..res][res - 1] == b[res - 1];
  }

  lemma HandledHasUnread(s: State)
    requires FreeLanded(s) && HeadInHand(s)
    ensures s.q.unread != []
  {
    hide AllLanded;
  }

  // ---- Growing a run ----------------------------------------------------------

  ghost function Last(run: seq<State>): State
    requires run != []
  {
    run[|run| - 1]
  }

  ghost predicate Runs(links: bool, run: seq<State>): (b: bool)
    ensures b ==> run != []
  {
    run != [] && IsFreeRun(run) && run[0].q.cap >= 3 && (links ==> IsRun(run))
  }

  lemma Grow(links: bool, run: seq<State>, s: State)
    requires Runs(links, run) && FreeNext(Last(run), s) && (links ==> Next(Last(run), s))
    ensures Runs(links, run + [s]) && Last(run + [s]) == s
    ensures CommandLines(run + [s]) == CommandLines(run) + LinePickedUp(Last(run), s)
    ensures Flushes(run + [s]) == Flushes(run) + Flushed(Last(run), s)
    ensures !Last(run).pc.Entered? && !Last(run).pc.LoopHead? ==> Done(run + [s]) == Done(run)
    ensures s.pc == Last(run).pc ==> Done(run + [s]) == Done(run)
  {
    hide Next, FreeNext, Start;
    assert (run + [s])[..|run|] == run;
  }

  lemma GrowByProgram(links: bool, run: seq<State>, s: State)
    requires Runs(links, run) && ProgramStep(Last(run), s)
    ensures Runs(links, run + [s]) && Last(run + [s]) == s
    ensures CommandLines(run + [s]) == CommandLines(run) + LinePickedUp(Last(run), s)
    ensures Flushes(run + [s]) == Flushes(run) + Flushed(Last(run), s)
    ensures !Last(run).pc.Entered? && !Last(run).pc.LoopHead? ==> Done(run + [s]) == Done(run)
    ensures s.pc == Last(run).pc ==> Done(run + [s]) == Done(run)
  {
    hide Runs, ProgramStep;
    Grow(links, run, s);
  }

  lemma LastInv(links: bool, run: seq<State>)
    requires Runs(links, run)
    ensures Last(run).pc.Halted? || (FreeInv(Last(run)) && FreeLanded(Last(run)))
    ensures Last(run).q.cap >= 3
  {
    hide FreeInv, FreeLanded;
    FreeRunKeepsInv(run, |run| - 1);
    if !Last(run).pc.Halted? { FreeRunKeepsLanded(run, |run| - 1); }
  }

  lemma RoomOwed(s: State)
    requires FreeInv(s) && s.q.cap >= 3
    ensures |s.q.published| + |s.q.pending| + |Owed(s)| <= s.q.cap
  {
    UnconsumedIsShort(s);
  }

  /** The submissions of a response, one step each. */
  lemma {:induction false} RespondPath(links: bool, run: seq<State>) returns (more: seq<State>)
    requires Runs(links, run) && Last(run).pc.Responding?
    ensures Runs(links, more)
    ensures var s := Last(run);
      Last(more) == s.(q := SubmitAll(s.q, s.pc.todo), pc := Handled(s.pc.cqe))
    ensures Done(more) == Done(run)
    decreases |Last(run).pc.todo|
  {
    hide Runs, FreeInv, FreeLanded;
    var s := Last(run);
    LastInv(links, run);
    if s.pc.todo == [] {
      var s' := s.(pc := Handled(s.pc.cqe));
      GrowByProgram(links, run, s');
      more := run + [s'];
    } else {
      RoomOwed(s);
      var s' := SubmitNext(s, s.pc.todo[0], Responding(s.pc.cqe, s.pc.todo[1..]));
      GrowByProgram(links, run, s');
      more := RespondPath(links, run + [s']);
    }
  }

  /** The submissions of start-up, one step each. */
  lemma {:induction false} StartPath(links: bool, run: seq<State>) returns (more: seq<State>)
    requires Runs(links, run) && Last(run).pc.Starting?
    ensures Runs(links, more)
    ensures var s := Last(run); Last(more) == s.(q := SubmitAll(s.q, s.pc.todo), pc := LoopHead)
    ensures Done(more) == Done(run)
    decreases |Last(run).pc.todo|
  {
    hide Runs, FreeInv, FreeLanded;
    var s := Last(run);
    LastInv(links, run);
    if s.pc.todo == [] {
      var s' := s.(pc := LoopHead);
      GrowByProgram(links, run, s');
      more := run + [s'];
    } else {
      RoomOwed(s);
      var s' := SubmitNext(s, s.pc.todo[0], Starting(s.pc.todo[1..]));
      GrowByProgram(links, run, s');
      more := StartPath(links, run + [s']);
    }
  }

  /** From a completion in hand to its whole answer submitted, or to a halt. */
  lemma HandlePath(links: bool, run: seq<State>, b: seq<char>, halted: bool) returns (more: seq<State>)
    requires Runs(links, run) && Last(run).pc.Handling? && |b| == BUFFER_SIZE
    requires var s, cqe := Last(run), Last(run).pc.cqe;
      && (cqe.userData != EVENT_CONSOLE_READ ==> b == s.buffer)
      && (cqe.userData == EVENT_CONSOLE_READ && cqe.res <= 0 ==> halted && b == s.buffer)
      && (cqe.userData == EVENT_OTHER && cqe.res < 0 ==> halted)
      && (halted ==> cqe.userData == EVENT_CONSOLE_READ || (cqe.userData == EVENT_OTHER && cqe.res < 0))
    ensures Runs(links, more)
    ensures var s, cqe := Last(run), Last(run).pc.cqe;
      Last(more) == if halted then s.(buffer := b, pc := Halted)
                    else s.(buffer := b, q := SubmitAll(s.q, Answer(cqe, s.sigfd)), pc := Handled(cqe))
    ensures Done(more) == Done(run)
  {
    hide Runs;
    var s := Last(run);
    var cqe := s.pc.cqe;
    more := run;
    if cqe.userData == EVENT_CONSOLE_READ && cqe.res > 0 {
      var s1 := s.(pc := RunningCommand(cqe));
      GrowByProgram(links, more, s1);
      more := more + [s1];
    }
    var s2 := s.(buffer := b, pc := if halted then Halted else Responding(cqe, Answer(cqe, s.sigfd)));
    GrowByProgram(links, more, s2);
    more := more + [s2];
    if !halted {
      more := RespondPath(links, more);
    }
  }

  lemma BufferSize(s: State)
    requires FreeLanded(s)
    ensures |s.buffer| == BUFFER_SIZE
  {
  }

  lemma SubmitTwo(q: Fifo, a: Sqe, b: Sqe)
    ensures SubmitAll(q, [a, b]) == q.Submit(a).Submit(b)
  {
    assert [a, b][1..] == [b];
    SubmitOne(q.Submit(a), b);
  }

  lemma SubmitOne(q: Fifo, a: Sqe)
    ensures SubmitAll(q, [a]) == q.Submit(a)
  {
    assert [a][1..] == [];
  }
}
