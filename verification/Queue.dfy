/** The io_uring queue pair as its user thinks of it: two unbounded FIFOs with
    a bounded number of entries in flight, and no counters, masks or index array. */
module Queue {

  datatype Opcode = OpNone | OpRead | OpWrite

  /** What an entry points at: one of the program's globals, or a string constant. */
  datatype Address = NullAddress | InputBuffer | SignalInfo | Text(text: string)

  /** A submission queue entry. `off`, `rwFlags` and `bufIndex` stand for the
      fields no caller in this program ever writes. */
  datatype Sqe = Sqe(opcode: Opcode, flags: nat, ioprio: nat, fd: int, off: nat,
                     addr: Address, len: nat, rwFlags: nat, userData: nat, bufIndex: nat)

  const ZeroSqe := Sqe(OpNone, 0, 0, 0, 0, NullAddress, 0, 0, 0, 0)

  datatype Cqe = Cqe(userData: nat, res: int)

  /** `consumed` is everything the kernel has ever read, `published` what it may
      read next, `pending` what the program has been handed since the last
      flush. `taken` are the completions already advanced over. */
  datatype Fifo = Fifo(
    cap: nat, consumed: seq<Sqe>, published: seq<Sqe>, pending: seq<Sqe>,
    cqCap: nat, taken: seq<Cqe>, unread: seq<Cqe>)
  {
    predicate HasRoom() {
      |published| + |pending| < cap
    }

    /** Every submission handed out so far, in order. */
    function Submitted(): seq<Sqe> {
      consumed + published + pending
    }

    function Posted(): seq<Cqe> {
      taken + unread
    }

    function Submit(sqe: Sqe): Fifo {
      if HasRoom() then this.(pending := pending + [sqe]) else this
    }

    /** The program writes through the pointer it was handed last. */
    function Fill(sqe: Sqe): Fifo {
      if pending == [] then this else this.(pending := pending[|pending| - 1 := sqe])
    }

    function Publish(): Fifo {
      this.(published := published + pending, pending := [])
    }

    function Consume(): Fifo {
      if published == [] then this
      else this.(consumed := consumed + [published[0]], published := published[1..])
    }

    function Post(cqe: Cqe): Fifo {
      this.(unread := unread + [cqe])
    }

    function Take(): Fifo {
      if unread == [] then this else this.(taken := taken + [unread[0]], unread := unread[1..])
    }
  }

  /** What the two parties can do, in any order. `Submit` takes an entry and
      fills it; `Post` is dropped when the completion ring is full. */
  datatype Action = DoSubmit(sqe: Sqe) | DoWait | DoConsume | DoPost(cqe: Cqe) | DoTake

  function Act(f: Fifo, a: Action): Fifo {
    match a
    case DoSubmit(e) => f.Submit(e)
    case DoWait => f.Publish()
    case DoConsume => f.Consume()
    case DoPost(c) => if |f.unread| < f.cqCap then f.Post(c) else f
    case DoTake => f.Take()
  }

  function Run(f: Fifo, actions: seq<Action>): Fifo {
    if actions == [] then f else Act(Run(f, actions[..|actions| - 1]), actions[|actions| - 1])
  }

  /** The submissions of a schedule that were not refused, in order. */
  function Accepted(f: Fifo, actions: seq<Action>): seq<Sqe> {
    if actions == [] then []
    else
      var before, a := actions[..|actions| - 1], actions[|actions| - 1];
      Accepted(f, before) +
      (if a.DoSubmit? && Run(f, before).HasRoom() then [a.sqe] else [])
  }

  /** The completions of a schedule that found room, in posting order. */
  function Delivered(f: Fifo, actions: seq<Action>): seq<Cqe> {
    if actions == [] then []
    else
      var before, a := actions[..|actions| - 1], actions[|actions| - 1];
      var g := Run(f, before);
      Delivered(f, before) + (if a.DoPost? && |g.unread| < g.cqCap then [a.cqe] else [])
  }

  /** One action, seen from both ends of both queues. */
  lemma ActKeepsOrder(g: Fifo, a: Action)
    ensures var g' := Act(g, a);
      && g'.Submitted() == g.Submitted() + (if a.DoSubmit? && g.HasRoom() then [a.sqe] else [])
      && g'.Posted() == g.Posted() + (if a.DoPost? && |g.unread| < g.cqCap then [a.cqe] else [])
      && |g.consumed| <= |g'.consumed| && |g.taken| <= |g'.taken|
      && g'.cap == g.cap && g'.cqCap == g.cqCap
      && (|g.published| + |g.pending| <= g.cap ==> |g'.published| + |g'.pending| <= g.cap)
      && (|g.unread| <= g.cqCap ==> |g'.unread| <= g.cqCap)
  {
  }

  /** For every schedule of both parties: what the kernel consumed is a prefix of
      what was handed out and filled, in order, nothing lost, duplicated or
      altered; and what the program took is a prefix of what was posted. */
  lemma {:induction false} EveryScheduleIsFifo(f: Fifo, actions: seq<Action>)
    ensures var g := Run(f, actions);
      && g.Submitted() == f.Submitted() + Accepted(f, actions)
      && g.Posted() == f.Posted() + Delivered(f, actions)
      && |f.consumed| <= |g.consumed| && |f.taken| <= |g.taken|
      && g.cap == f.cap && g.cqCap == f.cqCap
      && (|f.published| + |f.pending| <= f.cap ==> |g.published| + |g.pending| <= g.cap)
      && (|f.unread| <= f.cqCap ==> |g.unread| <= g.cqCap)
  {
    if actions != [] {
      var before := actions[..|actions| - 1];
      EveryScheduleIsFifo(f, before);
      ActKeepsOrder(Run(f, before), actions[|actions| - 1]);
    }
  }

  lemma ConsumedIsPrefixOfAccepted(f: Fifo, actions: seq<Action>)
    requires f.Submitted() == [] && f.Posted() == []
    ensures Run(f, actions).consumed <= Accepted(f, actions)
    ensures Run(f, actions).taken <= Delivered(f, actions)
  {
    EveryScheduleIsFifo(f, actions);
    var g := Run(f, actions);
    assert g.Submitted() == Accepted(f, actions);
    assert g.Posted() == Delivered(f, actions);
  }

  /** Until the program takes it, the oldest unread completion stays first and
      unchanged, whatever is submitted, consumed or posted meanwhile. */
  lemma {:induction false} UnreadHeadStays(f: Fifo, actions: seq<Action>)
    requires f.unread != [] && forall k :: 0 <= k < |actions| ==> !actions[k].DoTake?
    ensures f.unread <= Run(f, actions).unread && Run(f, actions).taken == f.taken
  {
    if actions != [] {
      UnreadHeadStays(f, actions[..|actions| - 1]);
    }
  }
}
