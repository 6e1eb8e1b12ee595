/** The event loop of init/init.c as a state machine over the queue pair: the
    program stops at every call into the ring, and between any two of its steps
    the kernel may consume, scribble into a read's buffer, or complete. */
module EventLoop {
  import opened Queue

  const EVENT_CONSOLE_READ := 0
  const EVENT_SIGNAL := 1
  const EVENT_OTHER := 2
  const IO_LINK := 4
  const STDIN := 0
  const STDOUT := 1
  const BUFFER_SIZE := 1024
  const SIGINFO_SIZE := 128
  const PROMPT := "Command: "

  const PromptWrite := Sqe(OpWrite, IO_LINK, 0, STDOUT, 0, Text(PROMPT), |PROMPT|, 0, EVENT_OTHER, 0)
  const PromptRead := Sqe(OpRead, 0, 0, STDIN, 0, InputBuffer, BUFFER_SIZE, 0, EVENT_CONSOLE_READ, 0)

  function SignalRead(sigfd: int): Sqe {
    Sqe(OpRead, 0, 0, sigfd, 0, SignalInfo, SIGINFO_SIZE, 0, EVENT_SIGNAL, 0)
  }

  /** Where the program stands. `todo` are the submissions the current call of
      create_console_prompt or submit_sig_listen still has to make. */
  datatype Pc =
    | Starting(todo: seq<Sqe>)
    | LoopHead
    | InEnter
    | Entered
    | Handling(cqe: Cqe)
    | RunningCommand(cqe: Cqe)
    | Responding(cqe: Cqe, todo: seq<Sqe>)
    | Handled(cqe: Cqe)
    | Halted
    | NullDereference

  datatype State = State(
    q: Fifo,
    inflight: seq<Sqe>,      // consumed by the kernel, no completion posted yet
    pc: Pc,
    buffer: seq<char>,       // the global input buffer
    line: seq<char>,         // what the last completed console read delivered
    sigfd: int)

  /** The submissions owed in answer to a completion. */
  function Answer(cqe: Cqe, sigfd: int): seq<Sqe> {
    if cqe.userData == EVENT_CONSOLE_READ then [PromptWrite, PromptRead]
    else if cqe.userData == EVENT_SIGNAL then [SignalRead(sigfd)]
    else []
  }

  ghost predicate Start(s: State) {
    && s.q.consumed == s.q.published == s.q.pending == [] && s.q.taken == s.q.unread == []
    && s.inflight == [] && |s.buffer| == BUFFER_SIZE
    && s.pc == Starting([PromptWrite, PromptRead, SignalRead(s.sigfd)])
  }

  /** One submission: a refused one is dereferenced all the same. */
  function SubmitNext(s: State, e: Sqe, rest: Pc): State {
    if s.q.HasRoom() then s.(q := s.q.Submit(e), pc := rest) else s.(pc := NullDereference)
  }

  ghost predicate ProgramStep(s: State, s': State) {
    match s.pc
    case Starting(todo) =>
      if todo == [] then s' == s.(pc := LoopHead)
      else s' == SubmitNext(s, todo[0], Starting(todo[1..]))
    case LoopHead => s' == s.(q := s.q.Publish(), pc := InEnter)
    case InEnter => s' == s.(pc := Entered) || s' == s.(pc := Halted)
    case Entered =>
      if s.q.unread == [] then s' == s.(pc := LoopHead)
      else s' == s.(pc := Handling(s.q.unread[0]))
    case Handling(cqe) =>
      if cqe.userData == EVENT_CONSOLE_READ then
        if cqe.res <= 0 then s' == s.(pc := Halted)
        else s' == s.(pc := RunningCommand(cqe))
      else if cqe.userData == EVENT_OTHER && cqe.res < 0 then s' == s.(pc := Halted)
      else s' == s.(pc := Responding(cqe, Answer(cqe, s.sigfd)))
    case RunningCommand(cqe) =>
      // The command rewrites the buffer in place, and may power the machine off.
      exists b: seq<char> :: |b| == BUFFER_SIZE &&
        (s' == s.(buffer := b, pc := Responding(cqe, Answer(cqe, s.sigfd))) ||
         s' == s.(buffer := b, pc := Halted))
    case Responding(cqe, todo) =>
      if todo == [] then s' == s.(pc := Handled(cqe))
      else s' == SubmitNext(s, todo[0], Responding(cqe, todo[1..]))
    case Handled(_) => s' == s.(q := s.q.Take(), pc := LoopHead)
    case Halted => false
    case NullDereference => false
  }

  datatype KernelAction =
    | Consume
    | Scribble(bytes: seq<char>)
    | Complete(i: nat, res: int, bytes: seq<char>)

  predicate IsConsoleRead(e: Sqe) {
    e.opcode == OpRead && e.addr == InputBuffer
  }

  /** What a kernel can do at all, whatever it makes of links. */
  predicate Feasible(s: State, a: KernelAction) {
    match a
    case Consume => s.q.published != []
    case Scribble(bytes) => (exists e :: e in s.inflight && IsConsoleRead(e)) && |bytes| == |s.buffer|
    case Complete(i, res, bytes) =>
      && i < |s.inflight|
      && (IsConsoleRead(s.inflight[i]) ==>
            res <= s.inflight[i].len && |bytes| == (if res > 0 then res else 0) <= |s.buffer|)
  }

  /** An operation linked behind an incomplete one has to wait for it. Links
      join neighbours in submission order, and a successor never leaves first,
      so the neighbour in flight is the one linked to. */
  predicate Blocked(inflight: seq<Sqe>, i: nat) {
    0 < i <= |inflight| && inflight[i - 1].flags == IO_LINK
  }

  predicate Possible(s: State, a: KernelAction) {
    Feasible(s, a) && (a.Complete? ==> !Blocked(s.inflight, a.i))
  }

  function KernelAct(s: State, a: KernelAction): State
    requires Feasible(s, a)
  {
    match a
    case Consume => s.(q := s.q.Consume(), inflight := s.inflight + [s.q.published[0]])
    case Scribble(bytes) => s.(buffer := bytes)
    case Complete(i, res, bytes) =>
      var e := s.inflight[i];
      var done := s.(q := s.q.Post(Cqe(e.userData, res)),
                     inflight := s.inflight[..i] + s.inflight[i + 1..]);
      if IsConsoleRead(e)
      then done.(buffer := bytes + s.buffer[|bytes|..], line := bytes)
      else done
  }

  ghost predicate KernelStep(s: State, s': State) {
    exists a: KernelAction :: Possible(s, a) && s' == KernelAct(s, a)
  }

  ghost predicate Next(s: State, s': State) {
    ProgramStep(s, s') || (!s.pc.Halted? && KernelStep(s, s'))
  }

  ghost predicate IsRun(run: seq<State>) {
    && run != [] && Start(run[0])
    && forall i, j :: 0 <= i < j < |run| && j == i + 1 ==> Next(run[i], run[j])
  }

  // ---- What is outstanding ------------------------------------------------

  /** Submissions the program is committed to make before it waits again. */
  function Owed(s: State): seq<Sqe> {
    match s.pc
    case Starting(todo) => todo
    case Handling(cqe) => Answer(cqe, s.sigfd)
    case RunningCommand(cqe) => Answer(cqe, s.sigfd)
    case Responding(_, todo) => todo
    case _ => []
  }

  /** The completion being handled is still at the head of the ring. */
  predicate HeadInHand(s: State) {
    s.pc.Handling? || s.pc.RunningCommand? || s.pc.Responding? || s.pc.Handled?
  }

  function Unhandled(s: State): seq<Cqe> {
    if HeadInHand(s) && s.q.unread != [] then s.q.unread[1..] else s.q.unread
  }

  /** Every submission not yet completed, oldest first, down to those owed. */
  function Incomplete(s: State): seq<Sqe> {
    s.inflight + s.q.published + s.q.pending + Owed(s)
  }

  function CqeTags(cs: seq<Cqe>): (ts: seq<nat>)
    ensures |ts| == |cs| && forall i :: 0 <= i < |cs| ==> ts[i] == cs[i].userData
  {
    seq(|cs|, i requires 0 <= i < |cs| => cs[i].userData)
  }

  function SqeTags(es: seq<Sqe>): (ts: seq<nat>)
    ensures |ts| == |es| && forall i :: 0 <= i < |es| ==> ts[i] == es[i].userData
  {
    seq(|es|, i requires 0 <= i < |es| => es[i].userData)
  }

  /** The tags of all events still to be handled, in the order they are due:
      unhandled completions first, owed submissions last. */
  function Pipe(s: State): seq<nat> {
    CqeTags(Unhandled(s)) + SqeTags(Incomplete(s))
  }

  /** Exactly one console read, exactly one signal read and at most one prompt
      write, which then comes before the console read. */
  ghost predicate Balanced(p: seq<nat>) {
    && EVENT_CONSOLE_READ in p && EVENT_SIGNAL in p
    && (forall x :: x in p ==> x <= EVENT_OTHER)
    && (forall i, j :: 0 <= i < j < |p| ==>
          p[i] != p[j] && !(p[i] == EVENT_CONSOLE_READ && p[j] == EVENT_OTHER))
  }

  /** The entry the program builds for each tag. */
  function Entry(tag: nat, sigfd: int): Sqe {
    if tag == EVENT_CONSOLE_READ then PromptRead
    else if tag == EVENT_SIGNAL then SignalRead(sigfd)
    else PromptWrite
  }

  /** Every field of every entry is what the program wrote for its tag. */
  ghost predicate AllKnown(es: seq<Sqe>, sigfd: int) {
    forall i :: 0 <= i < |es| ==> es[i] == Entry(es[i].userData, sigfd)
  }

  /** A prompt write is never last, and its console read immediately follows. */
  ghost predicate Chained(ts: seq<nat>) {
    && (ts != [] ==> ts[|ts| - 1] != EVENT_OTHER)
    && (forall i, j :: 0 <= i < j < |ts| && j == i + 1 && ts[i] == EVENT_OTHER ==> ts[j] == EVENT_CONSOLE_READ)
  }

  ghost predicate WholeChains(es: seq<Sqe>, sigfd: int) {
    AllKnown(es, sigfd) && Chained(SqeTags(es))
  }
}
