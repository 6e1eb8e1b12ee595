/** The io_uring wrapper of util/uring_ctl.c: free-running 32-bit counters that
    wrap, slots selected by masking, a private window of entries being filled
    and an index array through which the kernel finds the published ones. */
module Uring {
  import opened Prelude
  import opened Word
  import opened Queue

  /** The arguments of io_uring_enter that vary. */
  datatype EnterArgs = EnterArgs(toSubmit: u32, minComplete: u32)

  /** The slot of the counter `x` in a ring of `n` entries. */
  ghost function Slot(x: nat, n: nat): (k: nat)
    requires n > 0
    ensures k < n
  {
    x % n
  }

  /** The wrapping room test: it passes exactly when one more entry still leaves
      the private tail within a ring of the kernel's head, wherever the two
      counters stand in their 32 bits. */
  lemma WrappingRoomTest(h: nat, l: nat, n: nat)
    requires RingSize(n) && h <= l <= h + n
    ensures Sub(Add(l % WORD, 1), h % WORD) <= n <==> l - h < n
  {
    RingSizeBound(n);
    SuccessorOfWrapped(l);
    DifferenceOfWrapped(l + 1, h);
  }

  lemma MaskedSlot(x: nat, n: nat)
    requires RingSize(n)
    ensures n >= 1
    ensures And(x % WORD, n - 1) == Slot(x, n)
  {
    SlotOfWrapped(x, n);
  }

  /** The entries of the circular store `s` from counter `lo` up to `hi`. */
  ghost function Window<T>(s: seq<T>, lo: nat, hi: nat): (w: seq<T>)
    requires |s| > 0 && lo <= hi
  {
    seq(hi - lo, i requires 0 <= i < hi - lo => s[Slot(lo + i, |s|)])
  }

  lemma WindowSplit<T>(s: seq<T>, lo: nat, mid: nat, hi: nat)
    requires |s| > 0 && lo <= mid <= hi
    ensures Window(s, lo, hi) == Window(s, lo, mid) + Window(s, mid, hi)
  {
  }

  lemma WindowOne<T>(s: seq<T>, x: nat)
    requires |s| > 0
    ensures Window(s, x, x + 1) == [s[Slot(x, |s|)]]
  {
  }

  lemma WindowFirst<T>(s: seq<T>, lo: nat, hi: nat)
    requires |s| > 0 && lo < hi
    ensures Window(s, lo, hi)[0] == s[Slot(lo, |s|)]
    ensures Window(s, lo, hi)[1..] == Window(s, lo + 1, hi)
  {
  }

  /** Less than a ring ahead of `lo`, `x` has a slot of its own. */
  lemma SlotIsFree(lo: nat, x: nat, n: nat)
    requires n > 0 && lo <= x < lo + n
    ensures forall y :: lo <= y < x ==> Slot(y, n) != Slot(x, n)
  {
    forall y | lo <= y < x
      ensures Slot(y, n) != Slot(x, n)
    {
      if Slot(y, n) == Slot(x, n) { SlotDeterminesCounter(y, x, n); }
    }
  }

  /** Writing a slot changes no entry of a window that does not hold it. */
  lemma WindowKeeps<T>(s: seq<T>, lo: nat, hi: nat, x: nat, v: T)
    requires |s| > 0 && lo <= hi <= x < lo + |s|
    ensures Window(s[Slot(x, |s|) := v], lo, hi) == Window(s, lo, hi)
  {
    SlotIsFree(lo, x, |s|);
  }

  /** The index array holds each published entry's own slot. */
  ghost predicate Indexed(a: seq<u32>, lo: nat, hi: nat)
    requires |a| > 0
  {
    forall x :: lo <= x < hi ==> a[Slot(x, |a|)] == Slot(x, |a|)
  }

  lemma IndexedPut(a: seq<u32>, lo: nat, x: nat)
    requires 0 < |a| <= WORD && lo <= x < lo + |a| && Indexed(a, lo, x)
    ensures Indexed(a[Slot(x, |a|) := Slot(x, |a|) as u32], lo, x + 1)
  {
    SlotIsFree(lo, x, |a|);
  }

  class UringQueue {
    const sqEntries: u32
    const sqMask: u32
    var sqHead: u32
    var sqTail: u32
    const sqArray: array<u32>
    const sqes: array<Sqe>
    var sqListHead: u32
    var sqListTail: u32

    const cqEntries: u32
    const cqMask: u32
    var cqHead: u32
    var cqTail: u32
    const cqes: array<Cqe>

    // The counters as they would be without wrapping: the kernel's head, the
    // published tail and the private tail of the submission side, then head
    // and tail of the completion side.
    ghost var h: nat
    ghost var t: nat
    ghost var l: nat
    ghost var c: nat
    ghost var p: nat
    ghost var consumed: seq<Sqe>
    ghost var taken: seq<Cqe>

    ghost predicate Valid()
      reads this, sqArray, sqes, cqes
    {
      && RingSize(sqEntries) && sqMask == sqEntries - 1
      && sqArray.Length == sqes.Length == sqEntries > 0
      && h <= t <= l <= h + sqEntries
      && sqHead == h % WORD && sqTail == t % WORD
      && sqListHead == t % WORD && sqListTail == l % WORD
      && Indexed(sqArray[..], h, t)
      && RingSize(cqEntries) && cqMask == cqEntries - 1
      && cqes.Length == cqEntries
      && c <= p <= c + cqEntries
      && cqHead == c % WORD && cqTail == p % WORD
    }

    ghost function Model(): Fifo
      requires sqes.Length > 0 && cqes.Length > 0 && h <= t <= l && c <= p
      reads this, sqes, cqes
    {
      Fifo(sqEntries, consumed, Window(sqes[..], h, t), Window(sqes[..], t, l),
                cqEntries, taken, Window(cqes[..], c, p))
    }

    /** An initialised ring. The counters may start anywhere in 32 bits. */
    constructor (entries: u32, completions: u32, start: u32, cqStart: u32)
      requires RingSize(entries) && RingSize(completions)
      ensures Valid()
      ensures fresh(sqArray) && fresh(sqes) && fresh(cqes)
      ensures Model() == Fifo(entries, [], [], [], completions, [], [])
      ensures forall i :: 0 <= i < sqes.Length ==> sqes[i] == ZeroSqe
      ensures sqHead == start && cqHead == cqStart
    {
      sqEntries, sqMask := entries, entries - 1;
      cqEntries, cqMask := completions, completions - 1;
      sqArray := new u32[entries](_ => 0);
      sqes := new Sqe[entries](_ => ZeroSqe);
      cqes := new Cqe[completions](_ => Cqe(0, 0));
      sqHead, sqTail, sqListHead, sqListTail := start, start, start, start;
      cqHead, cqTail := cqStart, cqStart;
      h, t, l, c, p := start, start, start, cqStart, cqStart;
      consumed, taken := [], [];
    }

    /** The next entry to fill, or None exactly when the ring is full. The
        entry is none of those still awaiting the kernel or a flush. */
    method NewSubmission() returns (slot: Option<nat>)
      requires Valid()
      modifies `sqListTail, `l
      ensures Valid()
      ensures slot.Some? <==> old(Model()).HasRoom()
      ensures slot.None? ==> Model() == old(Model())
      ensures slot.Some? ==>
        && IsNewest(slot.value)
        && Model() == old(Model()).Submit(sqes[slot.value])
        && l == old(l) + 1 && h == old(h) && t == old(t)
        && forall x :: h <= x < old(l) ==> slot.value != Slot(x, sqes.Length)
    {
      ghost var n: nat := sqEntries;
      MaskedSlot(l, n);
      var head := sqHead;
      var next := Add(sqListTail, 1);
      SuccessorOfWrapped(l);
      WrappingRoomTest(h, l, n);
      slot := None;
      if Sub(next, head) <= sqEntries {
        slot := Some(And(sqListTail, sqMask));
        sqListTail := next;
        l := l + 1;
        WindowSplit(sqes[..], t, l - 1, l);
        WindowOne(sqes[..], l - 1);
        SlotIsFree(h, l - 1, n);
      }
    }

    ghost predicate IsNewest(slot: nat)
      requires sqes.Length > 0
      reads this
    {
      t < l && slot == Slot(l - 1, sqes.Length)
    }

    /** A store through the pointer handed out last. */
    method Store(slot: nat, sqe: Sqe)
      requires Valid() && IsNewest(slot)
      modifies sqes
      ensures Valid()
      ensures Model() == old(Model()).Fill(sqe)
      ensures sqes[..] == old(sqes[..])[slot := sqe]
    {
      sqes[slot] := sqe;
      ghost var s := old(sqes[..]);
      assert sqes[..] == s[slot := sqe];
      WindowKeeps(s, h, t, l - 1, sqe);
      WindowKeeps(s, t, l - 1, l - 1, sqe);
      WindowSplit(s, t, l - 1, l);
      WindowSplit(sqes[..], t, l - 1, l);
      WindowOne(sqes[..], l - 1);
    }

    /** The loop of the flush: one place in the index array for each of the
        `count` entries, the places running on from the published tail. */
    method PlaceEntries(first: u32, count: u32) returns (tail: u32)
      requires RingSize(sqEntries) && sqMask == sqEntries - 1
      requires sqArray.Length == sqes.Length == sqEntries
      requires h <= t <= l <= h + sqEntries && count == l - t
      requires first == sqListHead == t % WORD
      requires Indexed(sqArray[..], h, t)
      modifies `sqListHead, sqArray
      ensures tail == sqListHead == l % WORD
      ensures Indexed(sqArray[..], h, l)
    {
      tail := first;
      var toSubmit := count;
      ghost var x := t;
      while toSubmit > 0
        invariant t <= x <= l && toSubmit == l - x
        invariant tail == sqListHead == x % WORD
        invariant Indexed(sqArray[..], h, x)
      {
        MaskedSlot(x, sqEntries);
        SuccessorOfWrapped(x);
        IndexedPut(sqArray[..], h, x);
        ghost var before := sqArray[..];
        sqArray[And(tail, sqMask)] := And(sqListHead, sqMask);
        assert sqArray[..] == before[Slot(x, sqEntries) := Slot(x, sqEntries) as u32];
        tail := Add(tail, 1);
        sqListHead := Add(sqListHead, 1);
        toSubmit := toSubmit - 1;
        x := x + 1;
      }
    }

    /** The flush half of uring_wait: every pending entry gets its place in the
        index array before the tail is stored. Returns the local tail. */
    method Flush() returns (tail: u32)
      requires Valid()
      modifies `sqTail, `sqListHead, `t, sqArray
      ensures Valid()
      ensures Model() == old(Model()).Publish()
      ensures t == l == old(l) && h == old(h)
      ensures tail == sqTail
    {
      RingSizeBound(sqEntries);
      DifferenceOfWrapped(l, t);
      WindowSplit(sqes[..], h, t, l);
      tail := sqTail;
      var toSubmit := Sub(sqListTail, sqListHead);
      if toSubmit > 0 {
        tail := PlaceEntries(tail, toSubmit);
        sqTail := tail;
        t := l;
      }
    }

    /** Publishes every pending entry and returns what io_uring_enter is asked:
        to submit all entries the kernel has not consumed yet, those left over
        from earlier calls included. */
    method Wait(count: u32) returns (args: EnterArgs)
      requires Valid()
      modifies `sqTail, `sqListHead, `t, sqArray
      ensures Valid()
      ensures Model() == old(Model()).Publish()
      ensures args == EnterArgs(|Model().published|, count)
    {
      var tail := Flush();
      PublishedCount();
      var submitted := Sub(tail, sqHead);
      args := EnterArgs(submitted, count);
    }

    /** The oldest unread completion, or None exactly when there is none. */
    method Result() returns (cqe: Option<Cqe>)
      requires Valid()
      ensures cqe == if Model().unread == [] then None else Some(Model().unread[0])
    {
      ghost var n: nat := cqEntries;
      RingSizeBound(n);
      DifferenceOfWrapped(p, c);
      MaskedSlot(c, n);
      var head := cqHead;
      if head == cqTail {
        return None;
      }
      return Some(cqes[And(head, cqMask)]);
    }

    /** Gives the slot of the oldest unread completion back to the kernel. Nothing
        checks that there is one: an empty ring then reads as holding 2^32 - 1. */
    method Advance()
      requires Valid()
      modifies `cqHead, `c, `taken
      ensures cqHead == Add(old(cqHead), 1)
      ensures old(Model()).unread != [] ==> Valid() && Model() == old(Model()).Take()
      ensures old(Model()).unread == [] ==> Sub(cqTail, cqHead) == WORD - 1
    {
      hide Indexed, RingSize, Add, Sub;
      SuccessorOfWrapped(c);
      OneAhead(cqTail);
      var head := cqHead;
      cqHead := Add(head, 1);
      if c < p {
        taken := taken + [Window(cqes[..], c, p)[0]];
        WindowFirst(cqes[..], c, p);
        c := c + 1;
      }
    }

    lemma PublishedCount()
      requires Valid()
      ensures Sub(sqTail, sqHead) == |Model().published|
    {
      RingSizeBound(sqEntries);
      DifferenceOfWrapped(t, h);
    }

    lemma UnreadCount()
      requires Valid()
      ensures Sub(cqTail, cqHead) == |Model().unread|
    {
      RingSizeBound(cqEntries);
      DifferenceOfWrapped(p, c);
    }

    /** The kernel reads the next published entry, through the index array. */
    method KernelConsume() returns (sqe: Sqe)
      requires Valid() && Model().published != []
      modifies `sqHead, `h, `consumed
      ensures Valid()
      ensures sqe == old(Model()).published[0]
      ensures Model() == old(Model()).Consume()
    {
      MaskedSlot(h, sqEntries);
      SuccessorOfWrapped(h);
      assert sqArray[..][Slot(h, sqEntries)] == Slot(h, sqEntries);
      WindowFirst(sqes[..], h, t);
      var place := And(sqHead, sqMask);
      sqe := sqes[sqArray[place]];
      consumed := consumed + [sqe];
      sqHead := Add(sqHead, 1);
      h := h + 1;
    }

    /** The kernel posts a completion; it never writes into a full ring. */
    method KernelPost(cqe: Cqe)
      requires Valid() && |Model().unread| < cqEntries
      modifies `cqTail, `p, cqes
      ensures Valid()
      ensures Model() == old(Model()).Post(cqe)
    {
      ghost var n: nat := cqEntries;
      MaskedSlot(p, n);
      SuccessorOfWrapped(p);
      ghost var s := cqes[..];
      cqes[And(cqTail, cqMask)] := cqe;
      assert cqes[..] == s[Slot(p, n) := cqe];
      WindowKeeps(s, c, p, p, cqe);
      WindowSplit(cqes[..], c, p, p + 1);
      WindowOne(cqes[..], p);
      cqTail := Add(cqTail, 1);
      p := p + 1;
    }
  }

  method Perform(ring: UringQueue, a: Action)
    requires ring.Valid()
    modifies ring, ring.sqArray, ring.sqes, ring.cqes
    ensures ring.Valid()
    ensures ring.Model() == Act(old(ring.Model()), a)
  {
    match a {
      case DoSubmit(sqe) =>
        var slot := ring.NewSubmission();
        if slot.Some? {
          ring.Store(slot.value, sqe);
        }
      case DoWait =>
        var _ := ring.Wait(1);
      case DoConsume =>
        ring.PublishedCount();
        if Sub(ring.sqTail, ring.sqHead) > 0 {
          var _ := ring.KernelConsume();
        }
      case DoPost(cqe) =>
        ring.UnreadCount();
        if Sub(ring.cqTail, ring.cqHead) < ring.cqEntries {
          ring.KernelPost(cqe);
        }
      case DoTake =>
        var cqe := ring.Result();
        if cqe.Some? {
          ring.Advance();
        }
    }
  }

  /** Any interleaving of the program and the kernel, of any length, leaves the
      wrapping masked rings exactly where the unbounded FIFOs are. */
  method Drive(ring: UringQueue, actions: seq<Action>)
    requires ring.Valid()
    modifies ring, ring.sqArray, ring.sqes, ring.cqes
    ensures ring.Valid()
    ensures ring.Model() == Run(old(ring.Model()), actions)
  {
    for i := 0 to |actions|
      invariant ring.Valid()
      invariant ring.Model() == Run(old(ring.Model()), actions[..i])
    {
      Perform(ring, actions[i]);
      RunExtends(old(ring.Model()), actions, i);
    }
    assert actions[..|actions|] == actions;
  }

  lemma RunExtends(f: Fifo, actions: seq<Action>, i: nat)
    requires i < |actions|
    ensures Run(f, actions[..i + 1]) == Act(Run(f, actions[..i]), actions[i])
  {
    assert actions[..i + 1][..i] == actions[..i];
  }
}
