// cyber/base/bounded_queue.h: a multi-producer, multi-consumer ring.
//
// One step of the model is one atomic access of the source: a load, a
// compare-and-swap or the plain access to one pool slot.  Accesses are
// sequentially consistent and the three counters are unbounded.

module BoundedQueue {
  import Modular
  import opened Wrappers

  datatype Result<T> = Enqueued | Full | Dequeued(element: T) | Empty

  // Where a thread stands, with its locals.
  datatype Thread<T> =
    | Idle
    | TailLoaded(element: T, oldTail: nat)    // Enqueue: head_ is checked next
    | TailChecked(element: T, oldTail: nat)   // Enqueue: the CAS on tail_ is next
    | Reserved(element: T, oldTail: nat)      // Enqueue: the slot is stored next
    | Stored(element: T, oldTail: nat)        // Enqueue: the CAS on commit_ is next
    | HeadLoaded(oldHead: nat)                // Dequeue: commit_ is checked next
    | CommitChecked(oldHead: nat)             // Dequeue: the slot is read next
    | SlotRead(element: T, oldHead: nat)      // Dequeue: the CAS on head_ is next
    | Returned(result: Result<T>)

  // What the scheduler lets a thread do: call an operation (which performs the
  // operation's first load), or go on; a weak CAS may fail spuriously.
  datatype Choice<T> = Enqueue(element: T) | Dequeue | Continue(spurious: bool)

  // reserved and dequeued are history variables: the elements in the order in
  // which tail_ was advanced for them, and those handed out by Dequeue.
  datatype State<T> = State(
    poolSize: nat, head: nat, tail: nat, commit: nat, pool: seq<T>,
    threads: seq<Thread<T>>, reserved: seq<T>, dequeued: seq<T>)

  function GetIndex(poolSize: nat, num: nat): (i: nat)
    requires poolSize > 0
    ensures i < poolSize
    ensures i == num % poolSize
  {
    num - (num / poolSize) * poolSize
  }

  // Two positions at most one lap apart share a slot only when exactly one lap apart.
  lemma {:induction false} SameIndexWithinOneLap(poolSize: nat, p: nat, q: nat)
    requires 0 < poolSize && p < q <= p + poolSize
    ensures GetIndex(poolSize, p) == GetIndex(poolSize, q) <==> q == p + poolSize
  {
    Modular.SameModWithinOneLap(poolSize, p, q);
  }

  lemma {:induction false} SameIndexIffWholeLaps(poolSize: nat, p: nat, q: nat)
    requires 0 < poolSize && p <= q
    ensures GetIndex(poolSize, p) == GetIndex(poolSize, q) <==> (q - p) % poolSize == 0
  {
    Modular.SameModIffDifferenceDivides(poolSize, p, q);
  }

  predicate WellSized<T>(s: State<T>) {
    2 <= s.poolSize == |s.pool|
  }

  function Goto<T>(s: State<T>, t: nat, at: Thread<T>): (s': State<T>)
    requires t < |s.threads|
  {
    s.(threads := s.threads[t := at])
  }

  // Thread t performs its next atomic access.
  function Step<T>(s: State<T>, t: nat, c: Choice<T>): (s': State<T>)
    requires WellSized(s)
    ensures WellSized(s') && s'.poolSize == s.poolSize && |s'.threads| == |s.threads|
  {
    if t >= |s.threads| then s else
    match s.threads[t]
    case Idle => Call(s, t, c)
    case Returned(_) => Call(s, t, c)
    case TailLoaded(e, oldTail) =>
      if GetIndex(s.poolSize, oldTail + 1) == GetIndex(s.poolSize, s.head)
      then Goto(s, t, Returned(Full)) else Goto(s, t, TailChecked(e, oldTail))
    case TailChecked(e, oldTail) =>
      if c.Continue? && !c.spurious && s.tail == oldTail
      then Goto(s, t, Reserved(e, oldTail)).(tail := oldTail + 1, reserved := s.reserved + [e])
      else Goto(s, t, TailLoaded(e, s.tail))
    case Reserved(e, oldTail) =>
      Goto(s, t, Stored(e, oldTail)).(pool := s.pool[GetIndex(s.poolSize, oldTail) := e])
    case Stored(e, oldTail) =>
      if c.Continue? && !c.spurious && s.commit == oldTail
      then Goto(s, t, Returned(Enqueued)).(commit := oldTail + 1) else s
    case HeadLoaded(oldHead) =>
      if oldHead + 1 == s.commit then Goto(s, t, Returned(Empty)) else Goto(s, t, CommitChecked(oldHead))
    case CommitChecked(oldHead) =>
      Goto(s, t, SlotRead(s.pool[GetIndex(s.poolSize, oldHead + 1)], oldHead))
    case SlotRead(e, oldHead) =>
      if c.Continue? && !c.spurious && s.head == oldHead
      then Goto(s, t, Returned(Dequeued(e))).(head := oldHead + 1, dequeued := s.dequeued + [e])
      else Goto(s, t, HeadLoaded(s.head))
  }

  function Call<T>(s: State<T>, t: nat, c: Choice<T>): (s': State<T>)
    requires t < |s.threads|
  {
    match c
    case Enqueue(e) => Goto(s, t, TailLoaded(e, s.tail))
    case Dequeue => Goto(s, t, HeadLoaded(s.head))
    case Continue(_) => s
  }

  // Init(size) with a number of threads that have not called anything.
  function Init<T>(size: nat, threads: nat, zero: T): (s: State<T>) {
    State(size + 2, 0, 1, 1, seq(size + 2, _ => zero), seq(threads, _ => Idle), [], [])
  }

  function Run<T>(s: State<T>, schedule: seq<(nat, Choice<T>)>): (s': State<T>)
    requires WellSized(s)
    ensures WellSized(s') && s'.poolSize == s.poolSize && |s'.threads| == |s.threads|
    decreases |schedule|
  {
    if schedule == [] then s
    else Run(Step(s, schedule[0].0, schedule[0].1), schedule[1..])
  }

  // ---- The invariant ----

  predicate InFlight<T>(at: Thread<T>) { at.Reserved? || at.Stored? }

  ghost predicate Counters<T>(s: State<T>) {
    && WellSized(s)
    && s.head < s.commit <= s.tail <= s.head + s.poolSize - 1
    && |s.reserved| == s.tail - 1
    && s.dequeued == s.reserved[..s.head]
  }

  ghost predicate ThreadInv<T>(s: State<T>, at: Thread<T>)
    requires Counters(s)
  {
    match at
    case Idle => true
    case Returned(_) => true
    case TailLoaded(_, oldTail) => 1 <= oldTail <= s.tail
    case TailChecked(_, oldTail) =>
      1 <= oldTail <= s.tail && (oldTail == s.tail ==> s.tail + 1 <= s.head + s.poolSize - 1)
    case Reserved(e, oldTail) => s.commit <= oldTail < s.tail && e == s.reserved[oldTail - 1]
    case Stored(e, oldTail) =>
      s.commit <= oldTail < s.tail && e == s.reserved[oldTail - 1] && s.pool[GetIndex(s.poolSize, oldTail)] == e
    case HeadLoaded(oldHead) => oldHead <= s.head
    case CommitChecked(oldHead) => oldHead <= s.head && (oldHead == s.head ==> s.head + 1 < s.commit)
    case SlotRead(e, oldHead) =>
      oldHead <= s.head && (oldHead == s.head ==> s.head + 1 < s.commit && e == s.reserved[s.head])
  }

  ghost predicate LiveSlots<T>(s: State<T>)
    requires Counters(s)
  {
    forall p | s.head < p < s.commit :: s.pool[GetIndex(s.poolSize, p)] == s.reserved[p - 1]
  }

  ghost predicate Threads<T>(s: State<T>)
    requires Counters(s)
  {
    && (forall t | 0 <= t < |s.threads| :: ThreadInv(s, s.threads[t]))
    && (forall t, u | 0 <= t < u < |s.threads| && InFlight(s.threads[t]) && InFlight(s.threads[u]) ::
          s.threads[t].oldTail != s.threads[u].oldTail)
  }

  ghost predicate Inv<T>(s: State<T>) {
    Counters(s) && LiveSlots(s) && Threads(s)
  }

  // The abstract queue: committed, not yet dequeued.
  function Live<T>(s: State<T>): (live: seq<T>)
    requires s.head < s.commit <= |s.reserved| + 1
  {
    s.reserved[s.head..s.commit - 1]
  }

  lemma {:induction false} StepKeepsInv<T>(s: State<T>, t: nat, c: Choice<T>)
    requires Inv(s)
    ensures Inv(Step(s, t, c))
  {
    hide GetIndex;
    if t < |s.threads| {
      match s.threads[t]
      case Idle => LocalStepKeepsInv(s, t, c);
      case Returned(_) => LocalStepKeepsInv(s, t, c);
      case TailLoaded(_, _) => LocalStepKeepsInv(s, t, c);
      case TailChecked(_, _) => ReserveKeepsInv(s, t, c);
      case Reserved(_, _) => StoreKeepsInv(s, t, c);
      case Stored(_, _) => CommitKeepsInv(s, t, c);
      case HeadLoaded(_) => LocalStepKeepsInv(s, t, c);
      case CommitChecked(_) => LocalStepKeepsInv(s, t, c);
      case SlotRead(_, _) => TakeKeepsInv(s, t, c);
    }
  }

  // A thread that holds no slot moves on without touching what is shared.
  lemma {:induction false} GotoKeepsInv<T>(s: State<T>, t: nat, at: Thread<T>)
    requires Inv(s) && t < |s.threads| && !InFlight(at) && ThreadInv(s, at)
    ensures Inv(Goto(s, t, at))
  {
    hide GetIndex;
    var s' := Goto(s, t, at);
    forall u | 0 <= u < |s'.threads| ensures ThreadInv(s', s'.threads[u]) {
      assert ThreadInv(s, s.threads[u]);
    }
  }

  // A step that only changes the stepping thread's locals.
  lemma {:induction false} LocalStepKeepsInv<T>(s: State<T>, t: nat, c: Choice<T>)
    requires Inv(s) && t < |s.threads|
    requires !InFlight(s.threads[t]) && !s.threads[t].TailChecked? && !s.threads[t].SlotRead?
    ensures Inv(Step(s, t, c))
  {
    hide GetIndex;
    assert ThreadInv(s, s.threads[t]);
    if s.threads[t].TailLoaded? && s.threads[t].oldTail == s.tail {
      SameIndexWithinOneLap(s.poolSize, s.head, s.tail + 1);
    }
    var s' := Step(s, t, c);
    assert s' == Goto(s, t, s'.threads[t]);
    GotoKeepsInv(s, t, s'.threads[t]);
  }

  lemma {:induction false} ReserveKeepsInv<T>(s: State<T>, t: nat, c: Choice<T>)
    requires Inv(s) && t < |s.threads| && s.threads[t].TailChecked?
    ensures Inv(Step(s, t, c))
  {
    hide GetIndex;
    assert ThreadInv(s, s.threads[t]);
    var s' := Step(s, t, c);
    forall u | 0 <= u < |s'.threads| ensures ThreadInv(s', s'.threads[u]) {
      assert ThreadInv(s, s.threads[u]);
    }
  }

  lemma {:induction false} StoreKeepsInv<T>(s: State<T>, t: nat, c: Choice<T>)
    requires Inv(s) && t < |s.threads| && s.threads[t].Reserved?
    ensures Inv(Step(s, t, c))
  {
    hide GetIndex;
    var s' := Step(s, t, c);
    var q := s.threads[t].oldTail;
    assert ThreadInv(s, s.threads[t]);
    forall p | s.head < p < s.tail && p != q
      ensures GetIndex(s.poolSize, p) != GetIndex(s.poolSize, q)
    {
      if p < q { SameIndexWithinOneLap(s.poolSize, p, q); } else { SameIndexWithinOneLap(s.poolSize, q, p); }
    }
    forall u | 0 <= u < |s'.threads| ensures ThreadInv(s', s'.threads[u]) {
      assert ThreadInv(s, s.threads[u]);
      assert u != t && InFlight(s.threads[u]) ==> s.threads[u].oldTail != q;
    }
  }

  lemma {:induction false} CommitKeepsInv<T>(s: State<T>, t: nat, c: Choice<T>)
    requires Inv(s) && t < |s.threads| && s.threads[t].Stored?
    ensures Inv(Step(s, t, c))
  {
    hide GetIndex;
    assert ThreadInv(s, s.threads[t]);
    var s' := Step(s, t, c);
    forall u | 0 <= u < |s'.threads| ensures ThreadInv(s', s'.threads[u]) {
      assert ThreadInv(s, s.threads[u]);
      assert u != t && InFlight(s.threads[u]) ==> s.threads[u].oldTail != s.threads[t].oldTail;
    }
  }

  lemma {:induction false} TakeKeepsInv<T>(s: State<T>, t: nat, c: Choice<T>)
    requires Inv(s) && t < |s.threads| && s.threads[t].SlotRead?
    ensures Inv(Step(s, t, c))
  {
    hide GetIndex;
    assert ThreadInv(s, s.threads[t]);
    var s' := Step(s, t, c);
    forall u | 0 <= u < |s'.threads| ensures ThreadInv(s', s'.threads[u]) {
      assert ThreadInv(s, s.threads[u]);
    }
  }

  lemma {:induction false} InitInv<T>(size: nat, threads: nat, zero: T)
    ensures Inv(Init(size, threads, zero)) && Owned(Init(size, threads, zero))
  {
  }

  // ---- Nothing reserved is ever without an owner ----

  ghost predicate Owns<T>(s: State<T>, t: nat, p: nat) {
    t < |s.threads| && InFlight(s.threads[t]) && s.threads[t].oldTail == p
  }

  ghost predicate HasOwner<T>(s: State<T>, p: nat) {
    exists t :: Owns(s, t, p)
  }

  ghost predicate Owned<T>(s: State<T>) {
    forall p | s.commit <= p < s.tail :: HasOwner(s, p)
  }

  lemma {:induction false} StepKeepsOwned<T>(s: State<T>, t: nat, c: Choice<T>)
    requires Inv(s) && Owned(s)
    ensures Owned(Step(s, t, c))
  {
    hide GetIndex;
    var s' := Step(s, t, c);
    forall p | s'.commit <= p < s'.tail
      ensures HasOwner(s', p)
    {
      if p == s.tail {
        assert Owns(s', t, p);
      } else {
        assert HasOwner(s, p);
        var u :| Owns(s, u, p);
        StillOwns(s, t, c, u, p);
      }
    }
  }

  lemma {:induction false} StillOwns<T>(s: State<T>, t: nat, c: Choice<T>, u: nat, p: nat)
    requires WellSized(s) && Owns(s, u, p) && Step(s, t, c).commit <= p
    ensures Owns(Step(s, t, c), u, p)
  {
    hide GetIndex;
  }

  lemma {:induction false} RunKeepsInv<T>(s: State<T>, schedule: seq<(nat, Choice<T>)>)
    requires Inv(s) && Owned(s)
    ensures Inv(Run(s, schedule)) && Owned(Run(s, schedule))
    decreases |schedule|
  {
    if schedule != [] {
      StepKeepsInv(s, schedule[0].0, schedule[0].1);
      StepKeepsOwned(s, schedule[0].0, schedule[0].1);
      RunKeepsInv(Step(s, schedule[0].0, schedule[0].1), schedule[1..]);
    }
  }

  // ---- Main results ----

  // In every interleaving of any number of threads: what Dequeue has returned,
  // followed by what is queued, is exactly what was committed, in order; the
  // counters stay in the ring; and no two positions in use share a slot.
  lemma {:induction false} FifoInEveryRun<T>(size: nat, threads: nat, zero: T, schedule: seq<(nat, Choice<T>)>)
    ensures var s := Run(Init(size, threads, zero), schedule);
      && s.head < s.commit <= s.tail && s.tail - s.head - 1 <= size && |s.reserved| == s.tail - 1
      && s.dequeued + Live(s) == s.reserved[..s.commit - 1]
      && (forall i | 0 <= i < |Live(s)| :: s.pool[GetIndex(s.poolSize, s.head + 1 + i)] == Live(s)[i])
      && (forall p, q | s.head < p < q < s.tail :: GetIndex(s.poolSize, p) != GetIndex(s.poolSize, q))
      && (forall t | 0 <= t < |s.threads| && InFlight(s.threads[t]) ::
            s.commit <= s.threads[t].oldTail < s.tail && s.reserved[s.threads[t].oldTail - 1] == s.threads[t].element)
      && (forall t, u | 0 <= t < u < |s.threads| && InFlight(s.threads[t]) && InFlight(s.threads[u]) ::
            s.threads[t].oldTail != s.threads[u].oldTail)
  {
    InitInv(size, threads, zero);
    RunKeepsInv(Init(size, threads, zero), schedule);
    var s := Run(Init(size, threads, zero), schedule);
    hide GetIndex;
    forall p, q | s.head < p < q < s.tail ensures GetIndex(s.poolSize, p) != GetIndex(s.poolSize, q) {
      SameIndexWithinOneLap(s.poolSize, p, q);
    }
    forall t | 0 <= t < |s.threads| && InFlight(s.threads[t])
      ensures s.commit <= s.threads[t].oldTail < s.tail && s.reserved[s.threads[t].oldTail - 1] == s.threads[t].element
    {
      assert ThreadInv(s, s.threads[t]);
    }
  }

  // Dequeue answers false only when the committed queue is empty as it reads commit_.
  lemma {:induction false} EmptyAnswerIsRight<T>(s: State<T>, t: nat, c: Choice<T>)
    requires Inv(s) && t < |s.threads| && s.threads[t].HeadLoaded?
    ensures Step(s, t, c).threads[t] == Returned(Empty) <==> s.threads[t].oldHead == s.head && Live(s) == []
  {
    hide GetIndex;
    assert ThreadInv(s, s.threads[t]);
  }

  // Each step is one operation of an atomic queue, or none: an Enqueue takes
  // effect when it commits, a Dequeue when it advances head_ or reads commit_ on an
  // empty queue, and neither answers otherwise but for an Enqueue that finds it full.
  lemma {:induction false} StepRefinesQueue<T>(s: State<T>, t: nat, c: Choice<T>)
    requires Inv(s) && t < |s.threads| && !s.threads[t].Returned?
    ensures var s' := Step(s, t, c);
      && s'.head < s'.commit <= |s'.reserved| + 1
      && match s'.threads[t]
         case Returned(Enqueued) => s.threads[t].Stored? && Live(s') == Live(s) + [s.threads[t].element]
         case Returned(Dequeued(e)) => Live(s) == [e] + Live(s')
         case Returned(Empty) => Live(s') == Live(s) == []
         case _ => Live(s') == Live(s)
  {
    hide GetIndex;
    StepKeepsInv(s, t, c);
    assert ThreadInv(s, s.threads[t]);
    if s.threads[t].Stored? {
      CommitAppends(s, t, c);
    } else if s.threads[t].SlotRead? {
      TakeRemoves(s, t, c);
    } else {
      OthersKeepQueue(s, t, c);
      if s.threads[t].HeadLoaded? {
        EmptyAnswerIsRight(s, t, c);
      }
    }
  }

  lemma {:induction false} OthersKeepQueue<T>(s: State<T>, t: nat, c: Choice<T>)
    requires Inv(s) && t < |s.threads| && !s.threads[t].Returned? && !s.threads[t].Stored? && !s.threads[t].SlotRead?
    ensures var s' := Step(s, t, c);
      && s'.head == s.head && s'.commit == s.commit <= |s.reserved| + 1 <= |s'.reserved| + 1
      && Live(s') == Live(s)
      && (s'.threads[t].Returned? ==>
            s'.threads[t].result.Full? || (s'.threads[t].result.Empty? && s.threads[t].HeadLoaded?))
  {
    hide GetIndex, LiveSlots, ThreadInv;
    var s' := Step(s, t, c);
    assert s'.reserved[..|s.reserved|] == s.reserved;
    assert s.reserved[s.head..s.commit - 1] == s'.reserved[..|s.reserved|][s.head..s.commit - 1];
  }

  lemma {:induction false} CommitAppends<T>(s: State<T>, t: nat, c: Choice<T>)
    requires Inv(s) && t < |s.threads| && s.threads[t].Stored?
    ensures var s' := Step(s, t, c);
      && s'.head < s'.commit <= |s'.reserved| + 1
      && if s'.threads[t] == Returned(Enqueued) then Live(s') == Live(s) + [s.threads[t].element]
         else !s'.threads[t].Returned? && Live(s') == Live(s)
  {
    hide GetIndex;
    StepKeepsInv(s, t, c);
    assert ThreadInv(s, s.threads[t]);
  }

  lemma {:induction false} TakeRemoves<T>(s: State<T>, t: nat, c: Choice<T>)
    requires Inv(s) && t < |s.threads| && s.threads[t].SlotRead?
    ensures var s' := Step(s, t, c);
      && s'.head < s'.commit <= |s'.reserved| + 1
      && match s'.threads[t]
         case Returned(Dequeued(e)) => Live(s) == [e] + Live(s')
         case Returned(_) => false
         case _ => Live(s') == Live(s)
  {
    hide GetIndex;
    StepKeepsInv(s, t, c);
    assert ThreadInv(s, s.threads[t]);
  }

  // ---- Every call is answered for what it was ----

  // The operation that a thread is in, if any.
  function Doing<T>(at: Thread<T>): (call: Option<Choice<T>>) {
    match at
    case Idle => None
    case Returned(_) => None
    case TailLoaded(e, _) => Some(Enqueue(e))
    case TailChecked(e, _) => Some(Enqueue(e))
    case Reserved(e, _) => Some(Enqueue(e))
    case Stored(e, _) => Some(Enqueue(e))
    case HeadLoaded(_) => Some(Dequeue)
    case CommitChecked(_) => Some(Dequeue)
    case SlotRead(_, _) => Some(Dequeue)
  }

  // A thread that rests enters the operation it calls.  It stays in that operation, for
  // the same element, until that answers, and no other thread moves.  Once its element is
  // stored it only waits for its turn to commit.
  lemma {:induction false} CallStays<T>(s: State<T>, t: nat, c: Choice<T>)
    requires WellSized(s) && t < |s.threads|
    ensures var at, at' := s.threads[t], Step(s, t, c).threads[t];
      match Doing(at)
      case None => if c.Continue? then at' == at else Doing(at') == Some(c)
      case Some(Enqueue(_)) =>
        if at'.Returned? then at'.result.Enqueued? || at'.result.Full? else Doing(at') == Doing(at)
      case Some(_) =>
        if at'.Returned? then at'.result.Dequeued? || at'.result.Empty? else Doing(at') == Doing(at)
    ensures s.threads[t].Stored? ==> Step(s, t, c).threads[t] in [s.threads[t], Returned(Enqueued)]
    ensures forall u | 0 <= u < |s.threads| && u != t :: Step(s, t, c).threads[u] == s.threads[u]
  {
    hide GetIndex;
  }

  // What each thread has called last, as the schedule says.
  function Called<T>(s: State<T>, calls: seq<Choice<T>>, t: nat, c: Choice<T>): (calls': seq<Choice<T>>)
    requires |calls| == |s.threads|
    ensures |calls'| == |calls|
  {
    if t < |calls| && Doing(s.threads[t]).None? && !c.Continue? then calls[t := c] else calls
  }

  ghost predicate Told<T>(s: State<T>, calls: seq<Choice<T>>) {
    |calls| == |s.threads|
    && forall t | 0 <= t < |calls| :: Doing(s.threads[t]).Some? ==> Doing(s.threads[t]) == Some(calls[t])
  }

  lemma {:induction false} StepKeepsTold<T>(s: State<T>, calls: seq<Choice<T>>, t: nat, c: Choice<T>)
    requires WellSized(s) && Told(s, calls)
    ensures Told(Step(s, t, c), Called(s, calls, t, c))
  {
    if t < |s.threads| {
      CallStays(s, t, c);
      hide Step, Doing;
    }
  }

  // ---- Linearizability ----

  // A call and its answer.
  datatype Operation<T> = Operation(call: Choice<T>, result: Result<T>)

  // What a sequential queue does: it appends for an Enqueue that is answered true, and
  // gives its oldest element, or none if it is empty, to a Dequeue.
  function Apply<T(==)>(queue: seq<T>, operation: Operation<T>): (r: Option<seq<T>>) {
    match operation
    case Operation(Enqueue(e), Enqueued) => Some(queue + [e])
    case Operation(Enqueue(_), Full) => Some(queue)
    case Operation(Dequeue, Dequeued(e)) => if queue != [] && queue[0] == e then Some(queue[1..]) else None
    case Operation(Dequeue, Empty) => if queue == [] then Some(queue) else None
    case _ => None
  }

  // The queue after some operations, or nothing if one of them got another answer.
  function Replay<T(==)>(queue: seq<T>, operations: seq<Operation<T>>): (r: Option<seq<T>>)
    decreases |operations|
  {
    if operations == [] then Some(queue) else
    match Apply(queue, operations[0])
    case None => None
    case Some(queue') => Replay(queue', operations[1..])
  }

  // The operations of a run, each with what was called, at the step that answers it.
  function Answered<T>(s: State<T>, calls: seq<Choice<T>>, schedule: seq<(nat, Choice<T>)>)
    : (operations: seq<Operation<T>>)
    requires WellSized(s) && |calls| == |s.threads|
    decreases |schedule|
  {
    if schedule == [] then [] else
    var (t, c) := schedule[0];
    var s' := Step(s, t, c);
    var rest := Answered(s', Called(s, calls, t, c), schedule[1..]);
    if t < |s.threads| && Doing(s.threads[t]).Some? && s'.threads[t].Returned?
    then [Operation(calls[t], s'.threads[t].result)] + rest else rest
  }

  // A sequential queue that is called in the order of the answers gives the same
  // answers and ends up holding what the shared one holds.
  lemma {:induction false} RunRefinesQueue<T>(s: State<T>, calls: seq<Choice<T>>, schedule: seq<(nat, Choice<T>)>)
    requires Inv(s) && Told(s, calls)
    ensures Inv(Run(s, schedule))
    ensures Replay(Live(s), Answered(s, calls, schedule)) == Some(Live(Run(s, schedule)))
    decreases |schedule|
  {
    if schedule != [] {
      var (t, c) := schedule[0];
      var s', calls' := Step(s, t, c), Called(s, calls, t, c);
      StepKeepsInv(s, t, c);
      StepKeepsTold(s, calls, t, c);
      RunRefinesQueue(s', calls', schedule[1..]);
      if t < |s.threads| {
        hide Step, Inv, Live, Run, Apply;
        AnswerRefinesQueue(s, calls, t, c);
        var rest := Answered(s', calls', schedule[1..]);
        if Doing(s.threads[t]).Some? && s'.threads[t].Returned? {
          assert ([Operation(calls[t], s'.threads[t].result)] + rest)[1..] == rest;
        }
      }
    }
  }

  lemma {:induction false} AnswerRefinesQueue<T>(s: State<T>, calls: seq<Choice<T>>, t: nat, c: Choice<T>)
    requires Inv(s) && Inv(Step(s, t, c)) && Told(s, calls) && t < |s.threads|
    ensures var s' := Step(s, t, c);
      if Doing(s.threads[t]).Some? && s'.threads[t].Returned?
      then Apply(Live(s), Operation(calls[t], s'.threads[t].result)) == Some(Live(s'))
      else Live(s') == Live(s)
  {
    if Doing(s.threads[t]).Some? {
      StepRefinesQueue(s, t, c);
      CallStays(s, t, c);
      hide Step, Inv;
      var s' := Step(s, t, c);
      if s'.threads[t].Returned? && s'.threads[t].result.Dequeued? {
        assert Live(s)[1..] == Live(s');
      }
    } else {
      assert Live(Step(s, t, c)) == Live(s);
    }
  }

  predicate AllReserved<T>(s: State<T>) {
    s.tail - s.head - 1 == s.poolSize - 2
  }

  // A thread is about to compare head_, which stands a whole number of laps past the
  // tail that it has loaded.
  predicate Lapped<T>(s: State<T>, at: Thread<T>) {
    at.TailLoaded? && at.oldTail < s.head && s.poolSize > 0 && (s.head - at.oldTail - 1) % s.poolSize == 0
  }

  // Whatever it is about to do, an operation answers full exactly when it checks head_
  // with a current tail and every slot is reserved, or with a tail that head_ has lapped.
  lemma {:induction false} FullAnswerMeans<T>(s: State<T>, t: nat, c: Choice<T>)
    requires Inv(s) && t < |s.threads| && Doing(s.threads[t]).Some?
    ensures Step(s, t, c).threads[t] == Returned(Full) <==>
        (s.threads[t].TailLoaded? && s.threads[t].oldTail == s.tail && AllReserved(s)) || Lapped(s, s.threads[t])
  {
    hide GetIndex;
    assert ThreadInv(s, s.threads[t]);
    if s.threads[t].TailLoaded? {
      var newTail := s.threads[t].oldTail + 1;
      if s.head < newTail {
        SameIndexWithinOneLap(s.poolSize, s.head, newTail);
      } else {
        SameIndexIffWholeLaps(s.poolSize, newTail, s.head);
      }
    }
  }

  // Thread t runs alone for some steps.
  function Alone<T>(t: nat, steps: nat): (schedule: seq<(nat, Choice<T>)>) {
    if steps == 0 then [] else [(t, Continue(false))] + Alone(t, steps - 1)
  }

  function CallAlone<T>(t: nat, call: Choice<T>, steps: nat): (schedule: seq<(nat, Choice<T>)>) {
    [(t, call)] + Alone(t, steps)
  }

  lemma {:induction false} RunAppend<T>(s: State<T>, a: seq<(nat, Choice<T>)>, b: seq<(nat, Choice<T>)>)
    requires WellSized(s)
    ensures Run(s, a + b) == Run(Run(s, a), b)
    decreases |a|
  {
    if a == [] {
      assert a + b == b;
    } else {
      assert (a + b)[1..] == a[1..] + b;
      RunAppend(Step(s, a[0].0, a[0].1), a[1..], b);
    }
  }

  lemma {:induction false} AloneOnce<T>(s: State<T>, t: nat, n: nat)
    requires WellSized(s)
    ensures Run(s, Alone(t, n + 1)) == Run(Step(s, t, Continue(false)), Alone(t, n))
  {
    assert Alone<T>(t, n + 1)[1..] == Alone(t, n);
  }

  // ---- Every operation finishes when it runs alone, wherever it stands ----

  // Nobody else holds a slot that thread t has to wait for.
  ghost predicate ItsTurn<T>(s: State<T>, t: nat) {
    t < |s.threads| && s.commit == if InFlight(s.threads[t]) then s.threads[t].oldTail else s.tail
  }

  // An Enqueue that runs alone from any of its accesses on appends its element, whatever
  // it has loaded before, or answers false if every slot is reserved; unless its tail was
  // lapped.
  lemma {:induction false} EnqueueFinishes<T>(s: State<T>, t: nat, e: T) returns (n: nat)
    requires Inv(s) && ItsTurn(s, t) && Doing(s.threads[t]) == Some(Enqueue(e)) && !Lapped(s, s.threads[t])
    ensures var s', full := Run(s, Alone(t, n)), AllReserved(s) && !InFlight(s.threads[t]);
      && Inv(s') && s'.threads == s.threads[t := Returned(if full then Full else Enqueued)]
      && Live(s') == if full then Live(s) else Live(s) + [e]
    decreases EnqueueRank(s, s.threads[t])
  {
    var s1 := Step(s, t, Continue(false));
    EnqueueStep(s, t, e);
    hide Step, Inv, Live, ItsTurn, Lapped, Doing, EnqueueRank;
    if s1.threads[t].Returned? {
      AloneOnce(s, t, 0);
      n := 1;
      assert Run(s1, Alone(t, 0)) == s1;
    } else {
      var m := EnqueueFinishes(s1, t, e);
      AloneOnce(s, t, m);
      n := m + 1;
    }
  }

  lemma {:induction false} EnqueueStep<T>(s: State<T>, t: nat, e: T)
    requires Inv(s) && ItsTurn(s, t) && Doing(s.threads[t]) == Some(Enqueue(e)) && !Lapped(s, s.threads[t])
    ensures var s1, full := Step(s, t, Continue(false)), AllReserved(s) && !InFlight(s.threads[t]);
      && Inv(s1) && s1.threads == s.threads[t := s1.threads[t]]
      && if s1.threads[t].Returned?
         then s1.threads[t] == Returned(if full then Full else Enqueued)
              && Live(s1) == if full then Live(s) else Live(s) + [e]
         else Doing(s1.threads[t]) == Some(Enqueue(e)) && Live(s1) == Live(s)
              && ItsTurn(s1, t) && !Lapped(s1, s1.threads[t])
              && EnqueueRank(s1, s1.threads[t]) < EnqueueRank(s, s.threads[t])
              && (AllReserved(s1) && !InFlight(s1.threads[t]) <==> full)
  {
    StepKeepsInv(s, t, Continue(false));
    CallStays(s, t, Continue(false));
    FullAnswerMeans(s, t, Continue(false));
    StepRefinesQueue(s, t, Continue(false));
    EnqueueGoesOn(s, t);
    hide Step, Inv, Live, EnqueueRank;
  }

  function EnqueueRank<T>(s: State<T>, at: Thread<T>): (rank: nat) {
    match at
    case TailLoaded(_, oldTail) => if oldTail == s.tail then 4 else 6
    case TailChecked(_, oldTail) => if oldTail == s.tail then 3 else 5
    case Reserved(_, _) => 2
    case Stored(_, _) => 1
    case _ => 0
  }

  lemma {:induction false} EnqueueGoesOn<T>(s: State<T>, t: nat)
    requires Inv(s) && ItsTurn(s, t) && Doing(s.threads[t]).Some? && Doing(s.threads[t]).value.Enqueue?
    ensures var s1 := Step(s, t, Continue(false));
      if s1.threads[t].Returned?
      then s1.threads[t] == Returned(Full) || s.threads[t].Stored?
      else && ItsTurn(s1, t) && !Lapped(s1, s1.threads[t])
           && EnqueueRank(s1, s1.threads[t]) < EnqueueRank(s, s.threads[t])
           && (AllReserved(s1) && !InFlight(s1.threads[t]) <==> AllReserved(s) && !InFlight(s.threads[t]))
    ensures Step(s, t, Continue(false)).threads == s.threads[t := Step(s, t, Continue(false)).threads[t]]
  {
    assert ThreadInv(s, s.threads[t]);
    hide GetIndex;
  }

  // A Dequeue that runs alone from any of its accesses on takes the oldest element, or
  // answers false if there is none.
  lemma {:induction false} DequeueFinishes<T>(s: State<T>, t: nat) returns (n: nat)
    requires Inv(s) && t < |s.threads| && Doing(s.threads[t]) == Some(Dequeue)
    ensures var s' := Run(s, Alone(t, n));
      && Inv(s')
      && if Live(s) == [] then Live(s') == [] && s'.threads == s.threads[t := Returned(Empty)]
         else Live(s') == Live(s)[1..] && s'.threads == s.threads[t := Returned(Dequeued(Live(s)[0]))]
    decreases DequeueRank(s, s.threads[t])
  {
    var s1 := Step(s, t, Continue(false));
    assert ThreadInv(s, s.threads[t]);
    StepKeepsInv(s, t, Continue(false));
    CallStays(s, t, Continue(false));
    StepRefinesQueue(s, t, Continue(false));
    hide GetIndex;
    assert s1.threads == s.threads[t := s1.threads[t]];
    if s1.threads[t].Returned? {
      assert Run(s1, Alone(t, 0)) == s1;
      AloneOnce(s, t, 0);
      n := 1;
    } else {
      var m := DequeueFinishes(s1, t);
      AloneOnce(s, t, m);
      n := m + 1;
    }
  }

  function DequeueRank<T>(s: State<T>, at: Thread<T>): (rank: nat) {
    match at
    case HeadLoaded(oldHead) => if oldHead == s.head then 3 else 6
    case CommitChecked(oldHead) => if oldHead == s.head then 2 else 5
    case SlotRead(_, oldHead) => if oldHead == s.head then 1 else 4
    case _ => 0
  }

  predicate Quiet<T>(s: State<T>, t: nat) {
    && WellSized(s) && t < |s.threads| && (s.threads[t].Idle? || s.threads[t].Returned?)
    && s.head < s.tail == s.commit
  }

  lemma {:induction false} EnqueueAlone<T>(s: State<T>, t: nat, e: T)
    requires Quiet(s, t) && s.tail - s.head - 1 < s.poolSize - 2
    ensures Run(s, CallAlone(t, Enqueue(e), 4)) == Goto(s, t, Returned(Enqueued)).(
      tail := s.tail + 1, commit := s.tail + 1, reserved := s.reserved + [e],
      pool := s.pool[GetIndex(s.poolSize, s.tail) := e])
  {
    hide GetIndex;
    SameIndexWithinOneLap(s.poolSize, s.head, s.tail + 1);
    var go: Choice<T> := Continue(false);
    var s1 := Goto(s, t, TailLoaded(e, s.tail));
    assert Step(s, t, Enqueue(e)) == s1;
    var s2 := Goto(s, t, TailChecked(e, s.tail));
    assert Step(s1, t, go) == s2;
    var s3 := Goto(s, t, Reserved(e, s.tail)).(tail := s.tail + 1, reserved := s.reserved + [e]);
    assert Step(s2, t, go) == s3;
    var s4 := Goto(s3, t, Stored(e, s.tail)).(pool := s.pool[GetIndex(s.poolSize, s.tail) := e]);
    assert Step(s3, t, go) == s4;
    var s5 := Goto(s4, t, Returned(Enqueued)).(commit := s.tail + 1);
    assert Step(s4, t, go) == s5;
    assert s5.threads == s.threads[t := Returned(Enqueued)];
    calc {
      Run(s, CallAlone(t, Enqueue(e), 4));
      Run(s1, Alone(t, 4));
      Run(s2, Alone(t, 3));
      Run(s3, Alone(t, 2));
      Run(s4, Alone(t, 1));
      Run(s5, Alone(t, 0));
      s5;
    }
  }

  lemma {:induction false} DequeueAlone<T>(s: State<T>, t: nat)
    requires Quiet(s, t) && s.head + 1 < s.commit
    ensures var e := s.pool[GetIndex(s.poolSize, s.head + 1)];
      Run(s, CallAlone(t, Dequeue, 3)) ==
        Goto(s, t, Returned(Dequeued(e))).(head := s.head + 1, dequeued := s.dequeued + [e])
  {
    hide GetIndex;
    var go: Choice<T> := Continue(false);
    var e := s.pool[GetIndex(s.poolSize, s.head + 1)];
    var s1 := Goto(s, t, HeadLoaded(s.head));
    assert Step(s, t, Dequeue) == s1;
    var s2 := Goto(s, t, CommitChecked(s.head));
    assert Step(s1, t, go) == s2;
    var s3 := Goto(s, t, SlotRead(e, s.head));
    assert Step(s2, t, go) == s3;
    var s4 := Goto(s, t, Returned(Dequeued(e))).(head := s.head + 1, dequeued := s.dequeued + [e]);
    assert Step(s3, t, go) == s4;
    calc {
      Run(s, CallAlone(t, Dequeue, 3));
      Run(s1, Alone(t, 3));
      Run(s2, Alone(t, 2));
      Run(s3, Alone(t, 1));
      Run(s4, Alone(t, 0));
      s4;
    }
  }

  // ---- The claim "Enqueue answers false only when full" is false ----

  function PassOneElement(): (schedule: seq<(nat, Choice<int>)>) {
    CallAlone(1, Enqueue(7), 4) + CallAlone(1, Dequeue, 3)
  }

  lemma {:induction false} PassOneElementAdvances(s: State<int>)
    requires Quiet(s, 1) && s.poolSize == 3 && s.tail == s.head + 1
    ensures var s' := Run(s, PassOneElement());
      Quiet(s', 1) && s'.threads[0] == s.threads[0] && s'.head == s.head + 1 && s'.tail == s.tail + 1
  {
    EnqueueAlone(s, 1, 7);
    var s1 := Run(s, CallAlone(1, Enqueue(7), 4));
    DequeueAlone(s1, 1);
    RunAppend(s, CallAlone(1, Enqueue(7), 4), CallAlone(1, Dequeue, 3));
  }

  // With size 1, a thread that loaded tail_ and then watched two elements pass
  // through the queue is told that the queue is full while nothing is reserved.
  lemma {:induction false} FullAnswerOnAnEmptyQueue() returns (schedule: seq<(nat, Choice<int>)>)
    ensures var s := Run(Init(1, 2, 0), schedule);
      s.threads[0] == Returned(Full) && s.tail - s.head - 1 == 0
  {
    hide GetIndex, Run, CallAlone, PassOneElement;
    var s0 := Init(1, 2, 0);
    var s1 := Goto(s0, 0, TailLoaded(5, 1));
    FirstLoad(s0);
    PassOneElementAdvances(s1);
    var s2 := Run(s1, PassOneElement());
    PassOneElementAdvances(s2);
    var s3 := Run(s2, PassOneElement());
    StaleTailIsFull(s3);
    var call, pass := CallAlone(0, Enqueue(5), 0), PassOneElement();
    schedule := call + (pass + (pass + Alone(0, 1)));
    RunAppend(s0, call, pass + (pass + Alone(0, 1)));
    RunAppend(s1, pass, pass + Alone(0, 1));
    RunAppend(s2, pass, Alone(0, 1));
  }

  lemma {:induction false} FirstLoad(s: State<int>)
    requires s == Init(1, 2, 0)
    ensures Run(s, CallAlone(0, Enqueue(5), 0)) == Goto(s, 0, TailLoaded(5, 1))
    ensures Quiet(Goto(s, 0, TailLoaded(5, 1)), 1)
  {
    hide GetIndex;
    var call := CallAlone(0, Enqueue(5), 0);
    assert call == [(0, Enqueue(5))];
    assert Run(s, call) == Run(Step(s, 0, Enqueue(5)), []);
  }

  lemma {:induction false} StaleTailIsFull(s: State<int>)
    requires Quiet(s, 1) && s.poolSize == 3 && s.threads[0] == TailLoaded(5, 1) && s.head == 2
    ensures Run(s, Alone(0, 1)) == Goto(s, 0, Returned(Full))
  {
    var alone := Alone<int>(0, 1);
    assert alone == [(0, Continue(false))];
    assert Run(s, alone) == Run(Step(s, 0, Continue(false)), []);
  }

  // ---- The object, changed in place one atomic access at a time ----

  class BoundedQueue<T(0)> {
    var head: nat
    var tail: nat
    var commit: nat
    const pool: array<T>
    var threads: seq<Thread<T>>
    ghost var reserved: seq<T>
    ghost var dequeued: seq<T>

    ghost function Snapshot(): (s: State<T>)
      reads this, pool
    {
      State(pool.Length, head, tail, commit, pool[..], threads, reserved, dequeued)
    }

    ghost predicate Valid()
      reads this, pool
    {
      Inv(Snapshot()) && Owned(Snapshot())
    }

    constructor (size: nat, threadCount: nat)
      ensures Valid() && fresh(pool) && pool.Length == size + 2
      ensures head == 0 && tail == commit == 1 && threads == seq(threadCount, _ => Idle)
    {
      head, tail, commit := 0, 1, 1;
      pool := new T[size + 2];
      threads := seq(threadCount, _ => Idle);
      reserved, dequeued := [], [];
    }

    method Advance(t: nat, c: Choice<T>)
      requires Valid()
      modifies this, pool
      ensures Valid() && Snapshot() == Step(old(Snapshot()), t, c)
    {
      StepKeepsInv(Snapshot(), t, c);
      StepKeepsOwned(Snapshot(), t, c);
      if t < |threads| {
        var at := threads[t];
        if at.Idle? || at.Returned? {
          Begin(t, c);
        } else if at.HeadLoaded? || at.CommitChecked? || at.SlotRead? {
          GoOnWithDequeue(t, c);
        } else {
          GoOnWithEnqueue(t, c);
        }
      }
    }

    // The first load of an operation that thread t calls.
    method Begin(t: nat, c: Choice<T>)
      requires t < |threads|
      modifies this`threads
      ensures Snapshot() == Call(old(Snapshot()), t, c)
    {
      match c {
        case Enqueue(e) => threads := threads[t := TailLoaded(e, tail)];
        case Dequeue => threads := threads[t := HeadLoaded(head)];
        case Continue(_) =>
      }
    }

    method GoOnWithEnqueue(t: nat, c: Choice<T>)
      requires pool.Length >= 2 && t < |threads|
      requires threads[t].TailLoaded? || threads[t].TailChecked? || InFlight(threads[t])
      modifies this, pool
      ensures Snapshot() == Step(old(Snapshot()), t, c)
    {
      match threads[t] {
        case TailLoaded(e, oldTail) =>
          var newTail := oldTail + 1;
          var full := GetIndex(pool.Length, newTail) == GetIndex(pool.Length, head);
          threads := threads[t := if full then Returned(Full) else TailChecked(e, oldTail)];
        case TailChecked(e, oldTail) =>
          if c.Continue? && !c.spurious && tail == oldTail {
            tail := oldTail + 1;
            reserved := reserved + [e];
            threads := threads[t := Reserved(e, oldTail)];
          } else {
            threads := threads[t := TailLoaded(e, tail)];
          }
        case Reserved(e, oldTail) =>
          pool[GetIndex(pool.Length, oldTail)] := e;
          threads := threads[t := Stored(e, oldTail)];
        case Stored(e, oldTail) =>
          if c.Continue? && !c.spurious && commit == oldTail {
            commit := oldTail + 1;
            threads := threads[t := Returned(Enqueued)];
          }
      }
    }

    method GoOnWithDequeue(t: nat, c: Choice<T>)
      requires pool.Length >= 2 && t < |threads|
      requires threads[t].HeadLoaded? || threads[t].CommitChecked? || threads[t].SlotRead?
      modifies this
      ensures Snapshot() == Step(old(Snapshot()), t, c)
    {
      match threads[t] {
        case HeadLoaded(oldHead) =>
          var newHead := oldHead + 1;
          threads := threads[t := if newHead == commit then Returned(Empty) else CommitChecked(oldHead)];
        case CommitChecked(oldHead) =>
          var newHead := oldHead + 1;
          threads := threads[t := SlotRead(pool[GetIndex(pool.Length, newHead)], oldHead)];
        case SlotRead(e, oldHead) =>
          if c.Continue? && !c.spurious && head == oldHead {
            head := oldHead + 1;
            dequeued := dequeued + [e];
            threads := threads[t := Returned(Dequeued(e))];
          } else {
            threads := threads[t := HeadLoaded(head)];
          }
      }
    }
  }
}
