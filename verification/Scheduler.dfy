/**
 * The round-robin scheduler (kernel/process/scheduler/scheduler.c) and the 256-slot ring under it
 * (kernel/process/queue/processQueue.c).
 */
module Scheduler {
  const SLOTS: nat := 256

  class Process {
    var esp: nat

    constructor (esp: nat)
      ensures this.esp == esp
    {
      this.esp := esp;
    }
  }

  function Wrap(x: int): (r: nat)
    ensures r < SLOTS
  {
    x % 256
  }

  /** Where the i-th waiting process is kept. */
  function Slot(tail: nat, i: nat): (r: nat)
    ensures r < SLOTS
  {
    Wrap(tail + i)
  }

  lemma PushRoom(head: nat, tail: nat)
    requires head < SLOTS && tail < SLOTS
    ensures Wrap(head + 1) == tail <==> Wrap(head - tail) == 255
    ensures Wrap(head + 1) != tail ==> Wrap(Wrap(head + 1) - tail) == Wrap(head - tail) + 1
    ensures Slot(tail, Wrap(head - tail)) == head && Wrap(head - tail) <= 255
  {
  }

  lemma Apart(tail: nat, i: nat, head: nat)
    requires head < SLOTS && tail < SLOTS && i < Wrap(head - tail)
    ensures Slot(tail, i) != head
  {
  }

  lemma PopSize(head: nat, tail: nat)
    requires head < SLOTS && tail < SLOTS && head != tail
    ensures Wrap(head - Wrap(tail + 1)) == Wrap(head - tail) - 1 && Slot(tail, 0) == tail
  {
  }

  lemma Shift(tail: nat, i: nat)
    requires tail < SLOTS
    ensures Slot(Wrap(tail + 1), i) == Slot(tail, i + 1) < SLOTS
  {
  }

  lemma SizeZero(head: nat, tail: nat)
    requires head < SLOTS && tail < SLOTS
    ensures Wrap(head - tail) == 0 <==> head == tail
  {
  }

  /** The queue: byte-wide head and tail over a fixed array. */
  class ProcessQueue {
    const queue: array<Process?>
    var head: nat
    var tail: nat
    ghost var waiting: seq<Process>   // oldest first

    ghost predicate Valid()
      reads this, queue
    {
      && queue.Length == SLOTS && head < SLOTS && tail < SLOTS && |waiting| == Wrap(head - tail)
      && forall i :: 0 <= i < |waiting| ==> queue[Slot(tail, i)] == waiting[i]
    }

    constructor ()
      ensures Valid() && waiting == [] && fresh(queue)
    {
      queue := new Process?[SLOTS](_ => null);
      head, tail, waiting := 0, 0, [];
    }

    /** pqueue_is_empty. */
    method IsEmpty() returns (empty: bool)
      requires Valid()
      ensures empty <==> waiting == []
    {
      SizeZero(head, tail);
      empty := head == tail;
    }

    /** pqueue_push: appends, unless 255 processes are waiting. */
    method Push(p: Process) returns (ok: bool)
      requires Valid()
      modifies this, queue
      ensures Valid() && (ok <==> |old(waiting)| < 255)
      ensures waiting == if ok then old(waiting) + [p] else old(waiting)
    {
      hide Wrap, Slot;
      PushRoom(head, tail);
      var next := Wrap(head + 1);
      if next == tail { return false; }
      forall i | 0 <= i < |waiting| ensures Slot(tail, i) != head { Apart(tail, i, head); }
      queue[head] := p;
      head, waiting := next, waiting + [p];
      return true;
    }

    /** pqueue_pop: removes the oldest, or returns NULL. */
    method Pop() returns (p: Process?)
      requires Valid()
      modifies this
      ensures Valid() && (p == null <==> old(waiting) == [])
      ensures p == null ==> waiting == []
      ensures p != null ==> p == old(waiting)[0] && waiting == old(waiting)[1..]
    {
      hide Wrap, Slot;
      SizeZero(head, tail);
      if head == tail { return null; }
      PopSize(head, tail);
      var temp := tail;
      var next := Wrap(tail + 1);
      forall i | 0 <= i < |waiting| - 1 ensures queue[Slot(next, i)] == waiting[i + 1] { Shift(tail, i); }
      tail, waiting := next, waiting[1..];
      return queue[temp];
    }
  }

  ghost predicate NoDup(s: seq<Process>) {
    forall i, j :: 0 <= i < j < |s| ==> s[i] != s[j]
  }

  /** A rotation loses and duplicates nothing; dropping the first loses it. */
  lemma RotationKeeps(s: seq<Process>)
    requires NoDup(s) && |s| > 0
    ensures NoDup(s[1..] + [s[0]]) && multiset(s[1..] + [s[0]]) == multiset(s)
    ensures NoDup(s[1..]) && s[0] !in s[1..]
  {
    assert s == [s[0]] + s[1..];
  }

  class Scheduler {
    const ready: ProcessQueue
    var current: Process

    /** All processes, the running one first. */
    ghost function Order(): seq<Process>
      reads this, ready
    {
      [current] + ready.waiting
    }

    /** The queue is sound and no process is there twice. */
    ghost predicate Valid()
      reads this, ready, ready.queue
    {
      ready.Valid() && NoDup(Order())
    }

    constructor (boot: Process)
      ensures Valid() && Order() == [boot] && fresh(ready) && fresh(ready.queue)
    {
      ready := new ProcessQueue();
      current := boot;
    }

    /**
     * schedule: the running process saves its stack pointer and goes to the back.  With 255 processes waiting it finds
     * no place there.
     */
    method Schedule(esp: nat) returns (r: nat)
      requires Valid()
      modifies this, ready, ready.queue, current`esp
      ensures Valid()
      ensures |old(Order())| == 1 ==> Order() == old(Order()) && r == esp && current.esp == old(current.esp)
      ensures 1 < |old(Order())| ==> old(current).esp == esp && r == current.esp
      ensures 1 < |old(Order())| < 256 ==> Order() == old(Order())[1..] + [old(current)]
      ensures |old(Order())| == 256 ==> Order() == old(Order())[1..]
    {
      hide ProcessQueue.Valid, NoDup;
      ghost var was := Order();
      QueueSize(ready);
      RotationKeeps(was);
      var empty := ready.IsEmpty();
      if empty { return esp; }
      current.esp := esp;
      var _ := ready.Push(current);
      var next := ready.Pop();
      current := next;
      assert Order() == if |was| < 256 then was[1..] + [was[0]] else was[1..];
      r := current.esp;
    }

    /** create_process, as far as the queue goes. */
    method Create(p: Process) returns (ok: bool)
      requires Valid() && p !in Order()
      modifies ready, ready.queue
      ensures Valid() && (ok <==> |old(Order())| < 256)
      ensures Order() == if ok then old(Order()) + [p] else old(Order())
    {
      hide ProcessQueue.Valid;
      ghost var was := Order();
      ok := ready.Push(p);
      assert ok ==> Order() == was + [p];
    }

    /** kill_current, as far as the queue goes: the running process is gone for good. */
    method Kill() returns (ok: bool, victim: Process)
      requires Valid()
      modifies this, ready
      ensures Valid() && victim == old(current) && (ok <==> |old(Order())| > 1)
      ensures Order() == if ok then old(Order())[1..] else old(Order())
      ensures ok ==> victim !in Order()
    {
      hide ProcessQueue.Valid, NoDup;
      ghost var was := Order();
      RotationKeeps(was);
      victim := current;
      var empty := ready.IsEmpty();
      if empty { return false, victim; }
      var next := ready.Pop();
      current := next;
      assert Order() == was[1..];
      ok := true;
    }
  }

  /**
   * As many calls as there are processes: each process has been given the processor once, has its own stack pointer
   * back, and the first one is running again.
   */
  method Round(s: Scheduler, esps: seq<nat>) returns (r: nat)
    requires s.Valid() && |s.Order()| < 256 && |esps| == |s.Order()|
    modifies s, s.ready, s.ready.queue, s.Order()
    ensures s.Valid() && s.Order() == old(s.Order()) && s.current == old(s.current) && r == esps[0]
    ensures |esps| > 1 ==> forall i :: 0 <= i < |esps| ==> s.Order()[i].esp == esps[i]
  {
    hide ProcessQueue.Valid, NoDup;
    ghost var was := s.Order();
    r := 0;
    for n := 0 to |esps|
      invariant s.Valid() && s.Order() == was[n..] + was[..n]
      invariant |was| > 1 ==> forall i :: 0 <= i < n ==> was[i].esp == esps[i]
      invariant n > 0 ==> r == if |was| > 1 then s.current.esp else esps[0]
    {
      Turn(was, n);
      Others(was, n);
      r := s.Schedule(esps[n]);
    }
    assert was[|was|..] + was[..|was|] == was;
  }

  lemma Turn(was: seq<Process>, n: nat)
    requires n < |was|
    ensures var o := was[n..] + was[..n];
            o[0] == was[n] && |o| == |was| && o[1..] + [o[0]] == was[n + 1..] + was[..n + 1]
  {
  }

  lemma Others(was: seq<Process>, n: nat)
    requires NoDup(was) && n < |was|
    ensures forall i :: 0 <= i < n ==> was[i] != was[n]
  {
  }

  lemma QueueSize(q: ProcessQueue)
    requires q.Valid()
    ensures |q.waiting| < SLOTS
  {
  }
}
