/**
 * The keyboard ring of etc/lib/rb/ringBuffer.c as a step protocol: rb_push runs in the interrupt handler and rb_pop in
 * the reader, and every read and write of the shared fields is a step of its own.
 */
module RingBuffer {
  import opened Blocks

  const CAPACITY: nat := 256

  /** How far rb_push has come. */
  datatype Pusher =
    | Idle
    | Next(c: byte, next: byte)              // read head, computed the next index
    | Room(c: byte, next: byte)              // read tail, found room
    | Aimed(c: byte, next: byte, at: byte)   // read head again
    | Stored(c: byte, next: byte)            // wrote the slot

  /** How far rb_pop has come. */
  datatype Popper =
    | Resting
    | SawTail(t: byte)              // rb_is_empty has read tail
    | SawHead(h: byte, seen: int)   // rb_is_empty has read head, while `seen` bytes were pending
    | Some                          // found the ring not empty
    | Slot(at: byte)                // read tail again
    | Got(c: byte)                  // read the slot
    | Bump(c: byte, t: byte)        // read tail for the increment

  /** The shared fields, the two program counters, and what the callers have been told so far. */
  datatype State = State(queue: seq<byte>, head: byte, tail: byte, pusher: Pusher, popper: Popper, accepted: seq<byte>, popped: seq<byte>)

  datatype Step = Push(c: byte) | PushOn | Pop(headFirst: bool) | PopOn

  function Wrap(x: int): byte {
    x % 256
  }

  ghost predicate Init(s: State) {
    |s.queue| == CAPACITY && s.head == 0 == s.tail && s.pusher == Idle && s.popper == Resting && s.accepted == [] == s.popped
  }

  /** One shared access of rb_push. */
  function PushStep(s: State): (r: State)
    requires |s.queue| == CAPACITY
    ensures |r.queue| == CAPACITY && r.tail == s.tail && r.popped == s.popped
  {
    match s.pusher
    case Idle => s
    case Next(c, next) => s.(pusher := if next == s.tail then Idle else Room(c, next))
    case Room(c, next) => s.(pusher := Aimed(c, next, s.head))
    case Aimed(c, next, at) => s.(queue := s.queue[at := c], pusher := Stored(c, next))
    case Stored(c, next) => s.(head := next, pusher := Idle, accepted := s.accepted + [c])
  }

  /** One shared access of rb_pop. */
  function PopStep(s: State): (r: State)
    requires |s.queue| == CAPACITY
    ensures r.queue == s.queue && r.head == s.head && r.accepted == s.accepted
  {
    match s.popper
    case Resting => s
    case SawTail(t) => s.(popper := if t == s.head then Resting else Some)
    case SawHead(h, _) => s.(popper := if h == s.tail then Resting else Some)
    case Some => s.(popper := Slot(s.tail))
    case Slot(at) => s.(popper := Got(s.queue[at]))
    case Got(c) => s.(popper := Bump(c, s.tail))
    case Bump(c, t) => s.(tail := Wrap(t + 1), popper := Resting, popped := s.popped + [c])
  }

  /** A call starts with its first read; a step that is not due changes nothing. */
  function Do(s: State, step: Step): (r: State)
    requires |s.queue| == CAPACITY
    ensures |r.queue| == CAPACITY
  {
    match step
    case Push(c) => if s.pusher == Idle then s.(pusher := Next(c, Wrap(s.head + 1))) else s
    case PushOn => PushStep(s)
    case Pop(headFirst) =>
      if s.popper != Resting then s else if headFirst then s.(popper := SawHead(s.head, Pending(s))) else s.(popper := SawTail(s.tail))
    case PopOn => PopStep(s)
  }

  function Run(s: State, steps: seq<Step>): (r: State)
    requires |s.queue| == CAPACITY
    ensures |r.queue| == CAPACITY
    decreases |steps|
  {
    if steps == [] then s else Do(Run(s, steps[..|steps| - 1]), steps[|steps| - 1])
  }

  function Pending(s: State): int {
    |s.accepted| - |s.popped|
  }

  ghost predicate PusherOK(s: State) {
    match s.pusher
    case Idle => true
    case Next(c, next) => next == Wrap(s.head + 1)
    case Room(c, next) => next == Wrap(s.head + 1) && Pending(s) < 255
    case Aimed(c, next, at) => next == Wrap(s.head + 1) && Pending(s) < 255 && at == s.head
    case Stored(c, next) => next == Wrap(s.head + 1) && Pending(s) < 255 && |s.queue| == CAPACITY && s.queue[s.head] == c
  }

  ghost predicate PopperOK(s: State) {
    match s.popper
    case Resting => true
    case SawTail(t) => t == s.tail
    case SawHead(h, seen) => Wrap(h - s.tail) == seen <= Pending(s)
    case Some => Pending(s) > 0
    case Slot(at) => Pending(s) > 0 && at == s.tail
    case Got(c) => Pending(s) > 0 && c == s.accepted[|s.popped|]
    case Bump(c, t) => Pending(s) > 0 && c == s.accepted[|s.popped|] && t == s.tail
  }

  /** What every step keeps. */
  ghost predicate Inv(s: State) {
    && |s.queue| == CAPACITY && s.popped <= s.accepted && Pending(s) <= 255
    && s.head == Wrap(|s.accepted|) && s.tail == Wrap(|s.popped|)
    && (forall k :: |s.popped| <= k < |s.accepted| ==> s.queue[Wrap(k)] == s.accepted[k])
    && PusherOK(s) && PopperOK(s)
  }

  /** Slots less than a whole turn apart are different. */
  lemma WrapApart(a: nat, b: nat)
    requires a < b < a + 256
    ensures Wrap(a) != Wrap(b)
  {
  }

  lemma WrapNext(n: nat)
    ensures Wrap(Wrap(n) + 1) == Wrap(n + 1)
  {
  }

  /** The check of rb_push sees a full ring exactly when 255 bytes are pending. */
  lemma FullIs(s: State)
    requires Inv(s)
    ensures Wrap(s.head + 1) == s.tail <==> Pending(s) == 255
  {
    var n, m := |s.accepted|, |s.popped|;
    WrapNext(n);
    if n + 1 < m + 256 { WrapApart(m, n + 1); }
  }

  /** The check of rb_pop sees an empty ring exactly when nothing is pending. */
  lemma EmptyIs(s: State)
    requires Inv(s)
    ensures s.head == s.tail <==> Pending(s) == 0
    ensures Wrap(s.head - s.tail) == Pending(s)
  {
    var n, m := |s.accepted|, |s.popped|;
    if m < n { WrapApart(m, n); }
  }

  /** Writing the slot at head touches no pending byte. */
  lemma StoreKeeps(s: State)
    requires Inv(s) && s.pusher.Aimed?
    ensures Inv(PushStep(s))
  {
    hide Wrap;
    var n := |s.accepted|;
    forall k | |s.popped| <= k < n ensures PushStep(s).queue[Wrap(k)] == s.accepted[k] { WrapApart(k, n); }
  }

  /** Moving head makes the stored byte pending. */
  lemma PublishKeeps(s: State)
    requires Inv(s) && s.pusher.Stored?
    ensures Inv(PushStep(s))
  {
    hide Wrap;
    WrapNext(|s.accepted|);
    assert forall k :: 0 <= k < |s.accepted| ==> PushStep(s).accepted[k] == s.accepted[k];
  }

  lemma PushKeeps(s: State)
    requires Inv(s)
    ensures Inv(PushStep(s))
  {
    match s.pusher
    case Idle =>
    case Next(c, next) => FullIs(s);
    case Room(c, next) =>
    case Aimed(c, next, at) => StoreKeeps(s);
    case Stored(c, next) => PublishKeeps(s);
  }

  lemma PopKeeps(s: State)
    requires Inv(s)
    ensures Inv(PopStep(s))
  {
    var m := |s.popped|;
    match s.popper
    case Resting =>
    case SawTail(t) => EmptyIs(s);
    case SawHead(h, seen) => EmptyIs(s);
    case Some =>
    case Slot(at) => assert s.queue[Wrap(m)] == s.accepted[m];
    case Got(c) =>
    case Bump(c, t) => WrapNext(m);
  }

  lemma StepKeeps(s: State, step: Step)
    requires Inv(s)
    ensures Inv(Do(s, step))
  {
    match step
    case Push(c) =>
    case PushOn => PushKeeps(s);
    case Pop(headFirst) => EmptyIs(s);
    case PopOn => PopKeeps(s);
  }

  /**
   * Under every interleaving: what has been popped is a prefix of what has been accepted, and at most 255 bytes are
   * pending.
   */
  lemma {:induction false} EveryInterleaving(s: State, steps: seq<Step>)
    requires Init(s)
    ensures Inv(Run(s, steps)) && Run(s, steps).popped <= Run(s, steps).accepted && Pending(Run(s, steps)) <= 255
    decreases |steps|
  {
    if steps != [] {
      EveryInterleaving(s, steps[..|steps| - 1]);
      StepKeeps(Run(s, steps[..|steps| - 1]), steps[|steps| - 1]);
    }
  }

  /**
   * A push is turned away exactly by a ring that holds 255 bytes, and a pop exactly by one that holds none; if the
   * check of rb_pop reads head first, what counts is what the ring held at that read.
   */
  lemma RefusalsJustified(s: State)
    requires Inv(s)
    ensures s.pusher.Next? ==> (PushStep(s).pusher == Idle <==> Pending(s) == 255)
    ensures s.popper.SawTail? ==> (PopStep(s).popper == Resting <==> Pending(s) == 0)
    ensures s.popper.SawHead? ==> (PopStep(s).popper == Resting <==> s.popper.seen == 0)
  {
    FullIs(s);
    EmptyIs(s);
  }

  /** With head read first, a pop is turned away although a byte is pending by then. */
  lemma RefusedTooLate(s: State, c: byte)
    requires Init(s)
    ensures var r := Run(s, [Pop(true), Push(c), PushOn, PushOn, PushOn, PushOn]);
            r.popper == SawHead(0, 0) && Pending(r) == 1 && PopStep(r).popper == Resting && PopStep(r).popped == []
  {
    var steps := [Pop(true), Push(c), PushOn, PushOn, PushOn, PushOn];
    assert Run(s, steps[..0]) == s;
    forall k | 0 <= k < 6 ensures steps[..k + 1][..k] == steps[..k] {}
    assert Run(s, steps[..1]) == Do(Run(s, steps[..0]), steps[0]);
    assert Run(s, steps[..2]) == Do(Run(s, steps[..1]), steps[1]);
    assert Run(s, steps[..3]) == Do(Run(s, steps[..2]), steps[2]);
    assert Run(s, steps[..4]) == Do(Run(s, steps[..3]), steps[3]);
    assert Run(s, steps[..5]) == Do(Run(s, steps[..4]), steps[4]);
    assert steps[..6] == steps;
  }

  /** Left alone, rb_push appends its byte if there is room, in five accesses. */
  lemma PushAlone(s: State, c: byte)
    requires Inv(s) && s.pusher == Idle
    ensures var r := PushStep(PushStep(PushStep(PushStep(Do(s, Push(c))))));
            r.pusher == Idle && r.accepted == if Pending(s) < 255 then s.accepted + [c] else s.accepted
  {
    FullIs(s);
  }

  /** Left alone, rb_pop takes the oldest pending byte if there is one. */
  lemma PopAlone(s: State, headFirst: bool)
    requires Inv(s) && s.popper == Resting
    ensures var r := PopStep(PopStep(PopStep(PopStep(PopStep(Do(s, Pop(headFirst)))))));
            r.popper == Resting && r.popped == if Pending(s) > 0 then s.popped + [s.accepted[|s.popped|]] else s.popped
  {
    EmptyIs(s);
  }
}
