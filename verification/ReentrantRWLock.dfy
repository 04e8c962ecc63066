// cyber/base/reentrant_rw_lock.h: the spinning lock with an owner id.  One step
// is one access to a shared field; the owner id is stored after the CAS that
// acquires the lock and cleared after the release.  Guards nest properly, so
// every thread carries the stack of guards that it holds.
module ReentrantRWLock {
  import opened Counting
  import opened Wrappers

  const RW_LOCK_FREE := 0
  const WRITE_EXCLUSIVE := -1

  // How a guard was taken: by counting a reader, for free inside a write
  // section, as the first writer, or once more by the writer.
  datatype Guard = Shared | Free | First | Again

  datatype Position =
    | Idle
    | ReadLoading | Checking(lockNum: int) | Reloading | Passed(lockNum: int)  // ReadLock
    | Deepening | Announcing | Waiting | Storing | Settling                    // WriteLock
    | Leaving       // ReadUnlock: the owner id is another's; lock_num_ is decremented next
    | Clearing      // WriteUnlock: released; the owner id is cleared next

  // The newest guard comes first.
  datatype Thread = Thread(guards: seq<Guard>, at: Position)

  datatype Choice = ReadLock | WriteLock | Unlock | Continue(spurious: bool)

  // lost is a history variable: decrements of lock_num_ that nothing will undo.
  datatype State = State(
    writeFirst: bool, writeThreadId: Option<nat>, waitNum: int, lockNum: int, threads: seq<Thread>, lost: nat)

  function Goto(s: State, t: nat, at: Position): (s': State)
    requires t < |s.threads|
  {
    s.(threads := s.threads[t := s.threads[t].(at := at)])
  }

  function Take(s: State, t: nat, g: Guard, at: Position): (s': State)
    requires t < |s.threads|
  {
    s.(threads := s.threads[t := Thread([g] + s.threads[t].guards, at)])
  }

  function Drop(s: State, t: nat, at: Position): (s': State)
    requires t < |s.threads| && s.threads[t].guards != []
  {
    s.(threads := s.threads[t := Thread(s.threads[t].guards[1..], at)])
  }

  function TryRead(s: State, t: nat, lockNum: int, c: Choice): (s': State)
    requires t < |s.threads|
  {
    if c.Continue? && !c.spurious && s.lockNum == lockNum
    then Take(s, t, Shared, Idle).(lockNum := lockNum + 1)
    else Goto(s, t, Checking(s.lockNum))
  }

  // A call, with the comparison of the owner id or the fetch_add that begins it.
  function Call(s: State, t: nat, c: Choice): (s': State)
    requires t < |s.threads|
  {
    var mine := s.writeThreadId == Some(t);
    var guards := s.threads[t].guards;
    match c
    case ReadLock => if mine then Take(s, t, Free, Idle) else Goto(s, t, ReadLoading)
    case WriteLock => Goto(s, t, if mine then Deepening else Announcing)
    case Unlock =>
      if guards == [] then s
      else if guards[0].Shared? || guards[0].Free? then
        if mine then Drop(s, t, Idle) else Goto(s, t, Leaving)
      else
        Drop(s, t, if s.lockNum == WRITE_EXCLUSIVE then Clearing else Idle).(lockNum := s.lockNum + 1)
    case Continue(_) => s
  }

  function Step(s: State, t: nat, c: Choice): (s': State)
    ensures |s'.threads| == |s.threads| && s'.writeFirst == s.writeFirst
  {
    if t >= |s.threads| then s else
    match s.threads[t].at
    case Idle => Call(s, t, c)
    case ReadLoading => Goto(s, t, Checking(s.lockNum))
    case Checking(n) =>
      if n < RW_LOCK_FREE then Goto(s, t, Checking(s.lockNum))
      else if !s.writeFirst then TryRead(s, t, n, c)
      else Goto(s, t, if s.waitNum > 0 then Reloading else Passed(n))
    case Reloading => Goto(s, t, Checking(s.lockNum))
    case Passed(n) => TryRead(s, t, n, c)
    case Deepening => Take(s, t, Again, Idle).(lockNum := s.lockNum - 1)
    case Announcing => Goto(s, t, Waiting).(waitNum := s.waitNum + 1)
    case Waiting =>
      if c.Continue? && !c.spurious && s.lockNum == RW_LOCK_FREE
      then Take(s, t, First, Storing).(lockNum := WRITE_EXCLUSIVE) else s
    case Storing => Goto(s, t, Settling).(writeThreadId := Some(t))
    case Settling => Goto(s, t, Idle).(waitNum := s.waitNum - 1)
    case Leaving =>
      if s.threads[t].guards == [] then s
      else Drop(s, t, Idle).(lockNum := s.lockNum - 1,
             lost := if s.threads[t].guards[0].Shared? then s.lost else s.lost + 1)
    case Clearing => Goto(s, t, Idle).(writeThreadId := None)
  }

  function Run(s: State, schedule: seq<(nat, Choice)>): (s': State)
    ensures |s'.threads| == |s.threads| && s'.writeFirst == s.writeFirst
    decreases |schedule|
  {
    if schedule == [] then s
    else Run(Step(s, schedule[0].0, schedule[0].1), schedule[1..])
  }

  function Init(writeFirst: bool, threads: nat): (s: State) {
    State(writeFirst, None, 0, RW_LOCK_FREE, seq(threads, _ => Thread([], Idle)), 0)
  }

  // ---- The invariant ----

  predicate ReaderGuards(guards: seq<Guard>) {
    guards == [] || (guards[0].Shared? && ReaderGuards(guards[1..]))
  }

  predicate WriterGuards(guards: seq<Guard>) {
    && guards != []
    && if |guards| == 1 then guards[0].First? else (guards[0].Free? || guards[0].Again?) && WriterGuards(guards[1..])
  }

  predicate IsShared(g: Guard) { g.Shared? }
  predicate IsWrite(g: Guard) { g.First? || g.Again? }
  function SharedIn(th: Thread): (n: nat) { Count(th.guards, IsShared) }
  function WritesIn(th: Thread): (n: nat) { Count(th.guards, IsWrite) }
  predicate IsWriter(th: Thread) { WriterGuards(th.guards) }
  predicate IsAnnounced(th: Thread) { th.at.Waiting? || th.at.Storing? || th.at.Settling? }

  ghost predicate Counted(s: State) {
    && s.waitNum == Count(s.threads, IsAnnounced)
    && s.lockNum == Sum(s.threads, SharedIn) as int - Sum(s.threads, WritesIn) - s.lost
    && Count(s.threads, IsWriter) <= 1
    && (Count(s.threads, IsWriter) == 1 || s.lost > 0 ==> Sum(s.threads, SharedIn) == 0)
  }

  ghost predicate Nested(threads: seq<Thread>) {
    forall t | 0 <= t < |threads| :: ReaderGuards(threads[t].guards) || WriterGuards(threads[t].guards)
  }

  ghost predicate ThreadInv(s: State, t: nat)
    requires t < |s.threads|
  {
    var th := s.threads[t];
    && (s.writeThreadId == Some(t) ==> IsWriter(th) || th.at.Clearing?)
    && (s.lost > 0 && IsWriter(th) ==> s.writeThreadId != Some(t) && !th.at.Storing?)
    && match th.at
       case Passed(n) => n >= 0
       case Deepening => IsWriter(th)
       case Storing => th.guards == [First]
       case Leaving => th.guards != [] && (th.guards[0].Shared? || th.guards[0].Free?) && s.writeThreadId != Some(t)
       case Clearing => th.guards == []
       case _ => true
  }

  ghost predicate Inv(s: State) {
    Nested(s.threads) && Counted(s) && forall t | 0 <= t < |s.threads| :: ThreadInv(s, t)
  }

  lemma {:induction false} GuardCounts(guards: seq<Guard>)
    ensures ReaderGuards(guards) ==>
              Count(guards, IsShared) == |guards| && Count(guards, IsWrite) == 0 && !WriterGuards(guards)
    ensures WriterGuards(guards) ==> Count(guards, IsShared) == 0 && Count(guards, IsWrite) > 0
    ensures WriterGuards(guards) && IsWrite(guards[0]) && |guards| > 1 ==> Count(guards, IsWrite) > 1
  {
    if guards != [] { GuardCounts(guards[1..]); }
  }

  lemma {:induction false} WritersHoldTheWrites(threads: seq<Thread>)
    requires Nested(threads)
    ensures Count(threads, IsWriter) <= Sum(threads, WritesIn)
    ensures Count(threads, IsWriter) == 0 ==> Sum(threads, WritesIn) == 0
  {
    if threads != [] {
      GuardCounts(threads[0].guards);
      WritersHoldTheWrites(threads[1..]);
    }
  }

  lemma {:induction false} OneWriterHoldsTheWrites(threads: seq<Thread>, t: nat)
    requires Nested(threads) && t < |threads| && Count(threads, IsWriter) <= 1 && IsWriter(threads[t])
    ensures Count(threads, IsWriter) == 1 && Sum(threads, WritesIn) == WritesIn(threads[t]) > 0
    ensures forall u | 0 <= u < |threads| && u != t :: !IsWriter(threads[u])
  {
    var without := threads[t := Thread([], Idle)];
    GuardCounts(threads[t].guards);
    CountIsPositive(threads, t, IsWriter);
    CountUpdate(threads, t, Thread([], Idle), IsWriter);
    SumUpdate(threads, t, Thread([], Idle), WritesIn);
    WritersHoldTheWrites(without);
    forall u | 0 <= u < |threads| && u != t ensures !IsWriter(threads[u]) {
      if IsWriter(threads[u]) { CountTwo(threads, if t < u then t else u, if t < u then u else t, IsWriter); }
    }
  }

  // What the sums say about thread t.
  lemma {:induction false} Known(s: State, t: nat)
    requires Inv(s) && t < |s.threads|
    ensures s.lockNum >= 0 ==> s.lost == 0 && Count(s.threads, IsWriter) == 0 && Sum(s.threads, WritesIn) == 0
    ensures s.lockNum >= 0 ==> ReaderGuards(s.threads[t].guards)
    ensures s.lockNum == 0 ==> s.threads[t].guards == [] && Sum(s.threads, SharedIn) == 0
    ensures IsWriter(s.threads[t]) ==>
              Sum(s.threads, SharedIn) == 0 && Sum(s.threads, WritesIn) == WritesIn(s.threads[t])
    ensures IsWriter(s.threads[t]) && IsWrite(s.threads[t].guards[0]) && s.lockNum == WRITE_EXCLUSIVE ==>
              s.threads[t].guards == [First] && s.lost == 0
  {
    GuardCounts(s.threads[t].guards);
    WritersHoldTheWrites(s.threads);
    SumUpdate(s.threads, t, s.threads[t], SharedIn);
    if IsWriter(s.threads[t]) { OneWriterHoldsTheWrites(s.threads, t); }
  }

  lemma {:induction false} CountsAfter(s: State, s': State, t: nat)
    requires t < |s.threads| == |s'.threads| && s'.threads == s.threads[t := s'.threads[t]]
    ensures var from, to := s.threads[t], s'.threads[t];
      && Sum(s'.threads, SharedIn) == Sum(s.threads, SharedIn) - SharedIn(from) + SharedIn(to)
      && Sum(s'.threads, WritesIn) == Sum(s.threads, WritesIn) - WritesIn(from) + WritesIn(to)
      && Count(s'.threads, IsWriter) == Count(s.threads, IsWriter) - One(IsWriter(from)) + One(IsWriter(to))
      && Count(s'.threads, IsAnnounced) == Count(s.threads, IsAnnounced) - One(IsAnnounced(from)) + One(IsAnnounced(to))
  {
    SumUpdate(s.threads, t, s'.threads[t], SharedIn);
    SumUpdate(s.threads, t, s'.threads[t], WritesIn);
    CountUpdate(s.threads, t, s'.threads[t], IsWriter);
    CountUpdate(s.threads, t, s'.threads[t], IsAnnounced);
  }

  // How one step moves a thread's guards, and how lock_num_ follows.
  ghost predicate Moved(s: State, s': State, t: nat)
    requires t < |s.threads| == |s'.threads|
  {
    var from, to := s.threads[t].guards, s'.threads[t].guards;
    && s'.threads == s.threads[t := s'.threads[t]]
    && (|| (to == from && s'.lockNum == s.lockNum && s'.lost == s.lost)
        || (to == [Shared] + from && s.lockNum >= 0 && s'.lockNum == s.lockNum + 1 && s'.lost == s.lost)
        || (to == [First] + from && s.lockNum == 0 && s'.lockNum == -1 && s'.lost == s.lost)
        || (to == [Free] + from && WriterGuards(from) && s'.lockNum == s.lockNum && s'.lost == s.lost)
        || (to == [Again] + from && WriterGuards(from) && s'.lockNum == s.lockNum - 1 && s'.lost == s.lost)
        || (from != [] && to == from[1..]
            && s'.lockNum - s.lockNum
               == (if IsWrite(from[0]) then 1 else if from[0].Shared? then -1 else s.lost - s'.lost)
            && (if from[0].Free? then s.lost <= s'.lost <= s.lost + 1 else s'.lost == s.lost)))
    && s'.waitNum - s.waitNum == One(IsAnnounced(s'.threads[t])) - One(IsAnnounced(s.threads[t]))
  }

  predicate AtRead(at: Position) { at.ReadLoading? || at.Checking? || at.Reloading? || at.Passed? }

  lemma {:induction false} StepMoves(s: State, t: nat, c: Choice)
    requires Inv(s) && t < |s.threads|
    ensures Moved(s, Step(s, t, c), t)
  {
    if s.threads[t].at.Idle? {
      CallMoves(s, t, c);
    } else if AtRead(s.threads[t].at) {
      ReadMoves(s, t, c);
    } else {
      OtherMoves(s, t, c);
    }
  }

  lemma {:induction false} CallMoves(s: State, t: nat, c: Choice)
    requires Inv(s) && t < |s.threads| && s.threads[t].at.Idle?
    ensures Moved(s, Step(s, t, c), t)
  {
    assert ThreadInv(s, t);
  }

  lemma {:induction false} ReadMoves(s: State, t: nat, c: Choice)
    requires Inv(s) && t < |s.threads| && AtRead(s.threads[t].at)
    ensures Moved(s, Step(s, t, c), t)
  {
    assert ThreadInv(s, t);
  }

  lemma {:induction false} OtherMoves(s: State, t: nat, c: Choice)
    requires Inv(s) && t < |s.threads| && !s.threads[t].at.Idle? && !AtRead(s.threads[t].at)
    ensures Moved(s, Step(s, t, c), t)
  {
    assert ThreadInv(s, t);
  }

  lemma {:induction false} MovedGuards(s: State, s': State, t: nat)
    requires Inv(s) && t < |s.threads| == |s'.threads| && Moved(s, s', t)
    ensures var from, to := s.threads[t], s'.threads[t];
      && (IsWriter(to) || ReaderGuards(to.guards))
      && s'.lockNum - s.lockNum
         == SharedIn(to) as int - SharedIn(from) - WritesIn(to) + WritesIn(from) + s.lost - s'.lost
      && (s.lost < s'.lost ==> IsWriter(from) && IsWriter(to) && s.lost + 1 == s'.lost)
  {
    var from, to := s.threads[t], s'.threads[t];
    Known(s, t);
    GuardCounts(from.guards);
    GuardCounts(to.guards);
  }

  lemma {:induction false} StepKeepsCounted(s: State, t: nat, c: Choice)
    requires Inv(s) && t < |s.threads|
    ensures Nested(Step(s, t, c).threads) && Counted(Step(s, t, c))
  {
    var s' := Step(s, t, c);
    StepMoves(s, t, c);
    MovedKeepsCounted(s, s', t);
  }

  lemma {:induction false} MovedKeepsCounted(s: State, s': State, t: nat)
    requires Inv(s) && t < |s.threads| == |s'.threads| && Moved(s, s', t)
    ensures Nested(s'.threads) && Counted(s')
  {
    MovedGuards(s, s', t);
    Known(s, t);
    GuardCounts(s.threads[t].guards);
    GuardCounts(s'.threads[t].guards);
    CountsAfter(s, s', t);
  }

  lemma {:induction false} StepKeepsInv(s: State, t: nat, c: Choice)
    requires Inv(s)
    ensures Inv(Step(s, t, c))
  {
    if t < |s.threads| {
      StepKeepsCounted(s, t, c);
      var s' := Step(s, t, c);
      forall u | 0 <= u < |s'.threads| ensures ThreadInv(s', u) {
        if u != t {
          StepKeepsOthers(s, t, c, u);
        } else if s.threads[t].at.Idle? {
          CallKeepsThreadInv(s, t, c);
        } else if AtRead(s.threads[t].at) {
          ReadKeepsThreadInv(s, t, c);
        } else {
          StepKeepsThreadInv(s, t, c);
        }
      }
    }
  }

  lemma {:induction false} StepKeepsOthers(s: State, t: nat, c: Choice, u: nat)
    requires Inv(s) && t < |s.threads| && u < |s.threads| && u != t
    ensures ThreadInv(Step(s, t, c), u)
  {
    assert ThreadInv(s, u);
    if IsWriter(s.threads[t]) { OneWriterHoldsTheWrites(s.threads, t); }
    StepMoves(s, t, c);
    MovedGuards(s, Step(s, t, c), t);
    IdMoves(s, t, c);
    hide Step, Inv, Moved, Nested, Counted, Sum, Count;
  }

  // What a step leaves of the owner id and of the other threads.
  lemma {:induction false} IdMoves(s: State, t: nat, c: Choice)
    requires t < |s.threads|
    ensures var s' := Step(s, t, c);
      && s'.writeThreadId in {s.writeThreadId, Some(t), None}
      && forall u | 0 <= u < |s.threads| && u != t :: s'.threads[u] == s.threads[u]
  {
  }

  lemma {:induction false} CallKeepsThreadInv(s: State, t: nat, c: Choice)
    requires Inv(s) && t < |s.threads| && s.threads[t].at.Idle?
    ensures ThreadInv(Step(s, t, c), t)
  {
    assert ThreadInv(s, t);
    Known(s, t);
  }

  lemma {:induction false} ReadKeepsThreadInv(s: State, t: nat, c: Choice)
    requires Inv(s) && t < |s.threads| && AtRead(s.threads[t].at)
    ensures ThreadInv(Step(s, t, c), t)
  {
    assert ThreadInv(s, t);
    Known(s, t);
    hide Inv, Sum, Count;
  }

  lemma {:induction false} StepKeepsThreadInv(s: State, t: nat, c: Choice)
    requires Inv(s) && t < |s.threads| && !s.threads[t].at.Idle? && !AtRead(s.threads[t].at)
    ensures ThreadInv(Step(s, t, c), t)
  {
    assert ThreadInv(s, t);
    Known(s, t);
    hide Inv, Sum, Count;
    if s.threads[t].at.Leaving? {
      LeavingKeepsThreadInv(s, t, c);
      hide Step, ThreadInv;
    }
  }

  lemma {:induction false} LeavingKeepsThreadInv(s: State, t: nat, c: Choice)
    requires Inv(s) && t < |s.threads| && s.threads[t].at.Leaving?
    ensures ThreadInv(Step(s, t, c), t)
  {
    assert ThreadInv(s, t);
    hide Inv;
  }

  lemma {:induction false} InitInv(writeFirst: bool, threads: nat)
    ensures Inv(Init(writeFirst, threads))
  {
    var s := Init(writeFirst, threads);
    CountZero(s.threads, IsAnnounced);
    CountZero(s.threads, IsWriter);
    SumZero(s.threads, SharedIn);
    SumZero(s.threads, WritesIn);
  }

  lemma {:induction false} RunKeepsInv(s: State, schedule: seq<(nat, Choice)>)
    requires Inv(s)
    ensures Inv(Run(s, schedule))
    decreases |schedule|
  {
    if schedule != [] {
      StepKeepsInv(s, schedule[0].0, schedule[0].1);
      RunKeepsInv(Step(s, schedule[0].0, schedule[0].1), schedule[1..]);
    }
  }

  // ---- Main results ----

  // While one thread holds a write guard, no other thread holds any guard.
  lemma {:induction false} WritersExcludeEverybody(writeFirst: bool, threads: nat, schedule: seq<(nat, Choice)>,
                                                   t: nat, u: nat)
    requires t < threads && u < threads && t != u
    ensures var s := Run(Init(writeFirst, threads), schedule);
      WritesIn(s.threads[t]) > 0 ==> s.threads[u].guards == [] && s.lockNum < 0
  {
    InitInv(writeFirst, threads);
    RunKeepsInv(Init(writeFirst, threads), schedule);
    var s := Run(Init(writeFirst, threads), schedule);
    GuardCounts(s.threads[t].guards);
    GuardCounts(s.threads[u].guards);
    if WritesIn(s.threads[t]) > 0 {
      OneWriterHoldsTheWrites(s.threads, t);
      SumUpdate(s.threads, u, s.threads[u], SharedIn);
    }
  }

  // A thread that calls an operation and reads back its own id holds the write lock.
  lemma {:induction false} OwnIdMeansHolding(writeFirst: bool, threads: nat, schedule: seq<(nat, Choice)>, t: nat)
    requires t < threads
    ensures var s := Run(Init(writeFirst, threads), schedule);
      s.threads[t].at.Idle? && s.writeThreadId == Some(t) ==> WritesIn(s.threads[t]) > 0
  {
    InitInv(writeFirst, threads);
    RunKeepsInv(Init(writeFirst, threads), schedule);
    var s := Run(Init(writeFirst, threads), schedule);
    assert ThreadInv(s, t);
    GuardCounts(s.threads[t].guards);
  }

  ghost predicate NoGuards(threads: seq<Thread>) {
    forall t | 0 <= t < |threads| :: threads[t].guards == []
  }

  lemma {:induction false} NoGuardsNoSums(threads: seq<Thread>)
    requires NoGuards(threads)
    ensures Sum(threads, SharedIn) == 0 && Sum(threads, WritesIn) == 0
  {
    if threads != [] {
      assert threads[0].guards == [];
      NoGuardsNoSums(threads[1..]);
    }
  }

  // How often a read guard that took nothing, because it lay inside a write guard whose
  // thread read its own id, gives back a count because that id has been erased since.
  function FreeGuardsGivenBack(s: State, schedule: seq<(nat, Choice)>): (n: nat)
    decreases |schedule|
  {
    if schedule == [] then 0 else
    var (t, c) := schedule[0];
    (if t < |s.threads| && s.threads[t].at.Leaving? && s.threads[t].guards != [] && !s.threads[t].guards[0].Shared?
     then 1 else 0) + FreeGuardsGivenBack(Step(s, t, c), schedule[1..])
  }

  // That is the only way to lose the lock, and it loses it every time.
  lemma {:induction false} LostByFreeGuards(s: State, schedule: seq<(nat, Choice)>)
    ensures Run(s, schedule).lost == s.lost + FreeGuardsGivenBack(s, schedule)
    decreases |schedule|
  {
    if schedule != [] {
      LostByFreeGuards(Step(s, schedule[0].0, schedule[0].1), schedule[1..]);
    }
  }

  // Once every guard is dropped the lock is free again, but for what was lost: if and
  // only if no guard that took nothing was given back without its thread's id.
  lemma {:induction false} DroppingAllGuardsFreesTheLock(writeFirst: bool, threads: nat, schedule: seq<(nat, Choice)>)
    requires NoGuards(Run(Init(writeFirst, threads), schedule).threads)
    ensures var s := Run(Init(writeFirst, threads), schedule);
      && s.lockNum == RW_LOCK_FREE - s.lost
      && (s.lockNum == RW_LOCK_FREE <==> FreeGuardsGivenBack(Init(writeFirst, threads), schedule) == 0)
  {
    InitInv(writeFirst, threads);
    RunKeepsInv(Init(writeFirst, threads), schedule);
    LostByFreeGuards(Init(writeFirst, threads), schedule);
    NoGuardsNoSums(Run(Init(writeFirst, threads), schedule).threads);
  }

  // ---- When the lock is lost ----

  // No thread calls ReadLock while it holds a write guard.
  ghost predicate NoReadInsideWrite(s: State, schedule: seq<(nat, Choice)>)
    decreases |schedule|
  {
    schedule != [] ==>
      var (t, c) := schedule[0];
      && (t < |s.threads| && s.threads[t].at.Idle? && c.ReadLock? ==> WritesIn(s.threads[t]) == 0)
      && NoReadInsideWrite(Step(s, t, c), schedule[1..])
  }

  ghost predicate NoFree(s: State) {
    s.lost == 0 && forall t | 0 <= t < |s.threads| :: Free !in s.threads[t].guards
  }

  lemma {:induction false} StepKeepsNoFree(s: State, t: nat, c: Choice)
    requires Inv(s) && NoFree(s)
    requires t < |s.threads| && s.threads[t].at.Idle? && c.ReadLock? ==> WritesIn(s.threads[t]) == 0
    ensures NoFree(Step(s, t, c))
  {
    if t < |s.threads| {
      assert ThreadInv(s, t);
      GuardCounts(s.threads[t].guards);
      StepMoves(s, t, c);
      var s' := Step(s, t, c);
      forall u | 0 <= u < |s'.threads| ensures Free !in s'.threads[u].guards {
        assert Free !in s.threads[u].guards;
      }
    }
  }

  // If no read guard is taken inside a write guard, the lock is never lost.
  lemma {:induction false} NothingLostWithoutReadInsideWrite(s: State, schedule: seq<(nat, Choice)>)
    requires Inv(s) && NoFree(s) && NoReadInsideWrite(s, schedule)
    ensures Run(s, schedule).lost == 0
    decreases |schedule|
  {
    if schedule != [] {
      var (t, c) := schedule[0];
      StepKeepsInv(s, t, c);
      StepKeepsNoFree(s, t, c);
      NothingLostWithoutReadInsideWrite(Step(s, t, c), schedule[1..]);
    }
  }

  // A state in which nobody holds or is releasing a guard, yet the lock is taken.
  ghost predicate Lost(s: State) {
    Inv(s) && s.lost > 0 && NoGuards(s.threads)
  }

  // From there no thread ever acquires anything again.
  lemma {:induction false} LostForever(s: State, schedule: seq<(nat, Choice)>)
    requires Lost(s)
    ensures Lost(Run(s, schedule)) && Run(s, schedule).lockNum == s.lockNum < 0
    decreases |schedule|
  {
    NoGuardsNoSums(s.threads);
    if schedule != [] {
      var (t, c) := schedule[0];
      StepKeepsInv(s, t, c);
      if t < |s.threads| {
        assert ThreadInv(s, t);
        StepMoves(s, t, c);
      }
      LostForever(Step(s, t, c), schedule[1..]);
    }
  }

  lemma {:induction false} RunAppend(s: State, a: seq<(nat, Choice)>, b: seq<(nat, Choice)>)
    ensures Run(s, a + b) == Run(Run(s, a), b)
    decreases |a|
  {
    if a == [] {
      assert a + b == b;
    } else {
      assert (a + b)[1..] == a[1..] + b;
      RunAppend(Step(s, a[0].0, a[0].1), a[1..], b);
    }
  }

  // The late clearing of the owner id loses the lock: it erases the id of the
  // next writer while that one holds a read guard inside its write guard.
  lemma {:induction false} LateClearLosesTheLock() returns (schedule: seq<(nat, Choice)>)
    ensures Lost(Run(Init(true, 2), schedule))
  {
    var go := Continue(false);
    var s0 := Init(true, 2);
    // Thread 0 acquires; thread 1 waits; thread 0 releases but has not cleared the id.
    var acquire := [(0, WriteLock), (0, go), (0, go), (0, go), (0, go)];
    assert s0.threads == [Thread([], Idle), Thread([], Idle)];
    AfterAcquire(s0, acquire);
    var s0' := Run(s0, acquire);
    var handOver := [(1, WriteLock), (1, go), (0, Unlock)];
    AfterHandOver(s0', handOver);
    RunAppend(s0, acquire, handOver);
    var first := acquire + handOver;
    var s1 := Run(s0, first);
    // Thread 1 acquires, stores its id and takes a read guard inside.
    var second := [(1, go), (1, go), (1, go), (1, ReadLock)];
    var s2 := Run(s1, second);
    AfterSecond(s1, second);
    // Now thread 0 clears the id, and thread 1 drops both guards.
    var third := [(0, go), (1, Unlock), (1, go), (1, Unlock)];
    AfterThird(s2, third);
    RunAppend(s0, first, second);
    RunAppend(s0, first + second, third);
    schedule := first + second + third;
    InitInv(true, 2);
    RunKeepsInv(s0, schedule);
  }

  lemma {:induction false} AfterAcquire(s: State, acquire: seq<(nat, Choice)>)
    requires s == State(true, None, 0, 0, [Thread([], Idle), Thread([], Idle)], 0)
    requires var go := Continue(false); acquire == [(0, WriteLock), (0, go), (0, go), (0, go), (0, go)]
    ensures Run(s, acquire) == State(true, Some(0), 0, -1, [Thread([First], Idle), Thread([], Idle)], 0)
  {
    var s1 := s.(threads := [Thread([], Announcing), Thread([], Idle)]);
    assert Step(s, 0, WriteLock) == s1;
    var s2 := s1.(threads := [Thread([], Waiting), Thread([], Idle)], waitNum := 1);
    assert Step(s1, 0, acquire[1].1) == s2;
    var s3 := s2.(threads := [Thread([First], Storing), Thread([], Idle)], lockNum := -1);
    assert [First] + [] == [First];
    assert Step(s2, 0, acquire[2].1) == s3;
    var s4 := s3.(threads := [Thread([First], Settling), Thread([], Idle)], writeThreadId := Some(0));
    assert Step(s3, 0, acquire[3].1) == s4;
    var s5 := s4.(threads := [Thread([First], Idle), Thread([], Idle)], waitNum := 0);
    assert Step(s4, 0, acquire[4].1) == s5;
    assert acquire == [acquire[0]] + ([acquire[1]] + ([acquire[2]] + ([acquire[3]] + [acquire[4]])));
    RunCons(s, 0, WriteLock, acquire[1..]);
    RunCons(s1, 0, acquire[1].1, acquire[2..]);
    RunCons(s2, 0, acquire[2].1, acquire[3..]);
    RunCons(s3, 0, acquire[3].1, acquire[4..]);
    RunCons(s4, 0, acquire[4].1, []);
  }

  lemma {:induction false} RunCons(s: State, t: nat, c: Choice, rest: seq<(nat, Choice)>)
    ensures Run(s, [(t, c)] + rest) == Run(Step(s, t, c), rest)
  {
    assert ([(t, c)] + rest)[1..] == rest;
  }

  lemma {:induction false} AfterHandOver(s: State, handOver: seq<(nat, Choice)>)
    requires s == State(true, Some(0), 0, -1, [Thread([First], Idle), Thread([], Idle)], 0)
    requires handOver == [(1, WriteLock), (1, Continue(false)), (0, Unlock)]
    ensures Run(s, handOver) == State(true, Some(0), 1, 0, [Thread([], Clearing), Thread([], Waiting)], 0)
  {
    var s1 := s.(threads := [Thread([First], Idle), Thread([], Announcing)]);
    assert Step(s, 1, handOver[0].1) == s1;
    var s2 := s1.(threads := [Thread([First], Idle), Thread([], Waiting)], waitNum := 1);
    assert Step(s1, 1, handOver[1].1) == s2;
    var s3 := s2.(threads := [Thread([], Clearing), Thread([], Waiting)], lockNum := 0);
    assert [First][1..] == [];
    assert Step(s2, 0, handOver[2].1) == s3;
    calc {
      Run(s, handOver);
      Run(s1, handOver[1..]);
      { assert handOver[1..][1..] == handOver[2..]; }
      Run(s2, handOver[2..]);
      { assert handOver[2..][1..] == []; }
      s3;
    }
  }

  lemma {:induction false} AfterSecond(s: State, second: seq<(nat, Choice)>)
    requires s == State(true, Some(0), 1, 0, [Thread([], Clearing), Thread([], Waiting)], 0)
    requires var go := Continue(false); second == [(1, go), (1, go), (1, go), (1, ReadLock)]
    ensures Run(s, second) == State(true, Some(1), 0, -1, [Thread([], Clearing), Thread([Free, First], Idle)], 0)
  {
    var s1 := s.(threads := [Thread([], Clearing), Thread([First], Storing)], lockNum := -1);
    assert [First] + [] == [First];
    assert Step(s, 1, second[0].1) == s1;
    var s2 := s1.(threads := [Thread([], Clearing), Thread([First], Settling)], writeThreadId := Some(1));
    assert Step(s1, 1, second[1].1) == s2;
    var s3 := s2.(threads := [Thread([], Clearing), Thread([First], Idle)], waitNum := 0);
    assert Step(s2, 1, second[2].1) == s3;
    var s4 := s3.(threads := [Thread([], Clearing), Thread([Free, First], Idle)]);
    assert [Free] + [First] == [Free, First];
    assert Step(s3, 1, second[3].1) == s4;
    calc {
      Run(s, second);
      Run(s1, second[1..]);
      { assert second[1..][1..] == second[2..]; }
      Run(s2, second[2..]);
      { assert second[2..][1..] == second[3..]; }
      Run(s3, second[3..]);
      { assert second[3..][1..] == []; }
      s4;
    }
  }

  lemma {:induction false} AfterThird(s: State, third: seq<(nat, Choice)>)
    requires s == State(true, Some(1), 0, -1, [Thread([], Clearing), Thread([Free, First], Idle)], 0)
    requires third == [(0, Continue(false)), (1, Unlock), (1, Continue(false)), (1, Unlock)]
    ensures Run(s, third) == State(true, None, 0, -1, [Thread([], Idle), Thread([], Idle)], 1)
  {
    var s1 := s.(threads := [Thread([], Idle), Thread([Free, First], Idle)], writeThreadId := None);
    assert Step(s, 0, third[0].1) == s1;
    var s2 := s1.(threads := [Thread([], Idle), Thread([Free, First], Leaving)]);
    assert Step(s1, 1, third[1].1) == s2;
    var s3 := s2.(threads := [Thread([], Idle), Thread([First], Idle)], lockNum := -2, lost := 1);
    assert [Free, First][1..] == [First] && [First][1..] == [];
    assert Step(s2, 1, third[2].1) == s3;
    var s4 := s3.(threads := [Thread([], Idle), Thread([], Idle)], lockNum := -1);
    assert Step(s3, 1, third[3].1) == s4;
    calc {
      Run(s, third);
      Run(s1, third[1..]);
      { assert third[1..][1..] == third[2..]; }
      Run(s2, third[2..]);
      { assert third[2..][1..] == third[3..]; }
      Run(s3, third[3..]);
      { assert third[3..][1..] == []; }
      s4;
    }
  }

  // ---- When a writer waits for itself ----

  // A thread that holds the write lock waits to acquire it or a read lock.
  ghost predicate WaitsForItself(s: State, t: nat) {
    && Inv(s) && t < |s.threads| && IsWriter(s.threads[t])
    && match s.threads[t].at
       case Announcing => true
       case Waiting => true
       case ReadLoading => true
       case Checking(n) => n < RW_LOCK_FREE
       case _ => false
  }

  // It does so for ever.
  lemma {:induction false} WaitsForItselfForever(s: State, t: nat, schedule: seq<(nat, Choice)>)
    requires WaitsForItself(s, t)
    ensures WaitsForItself(Run(s, schedule), t)
    decreases |schedule|
  {
    if schedule != [] {
      StepKeepsWaiting(s, t, schedule[0].0, schedule[0].1);
      hide WaitsForItself, Step;
      WaitsForItselfForever(Step(s, schedule[0].0, schedule[0].1), t, schedule[1..]);
    }
  }

  lemma {:induction false} StepKeepsWaiting(s: State, t: nat, u: nat, c: Choice)
    requires WaitsForItself(s, t)
    ensures WaitsForItself(Step(s, u, c), t)
  {
    StepKeepsInv(s, u, c);
    Known(s, t);
    assert s.lockNum < 0;
    hide Inv, Sum, Count, Call, Take, Drop;
    if u != t {
      OthersStay(s, u, c, t);
    }
  }

  lemma {:induction false} OthersStay(s: State, u: nat, c: Choice, t: nat)
    requires u != t < |s.threads|
    ensures Step(s, u, c).threads[t] == s.threads[t]
  {
  }

  // A call inside a write guard waits if and only if the thread does not read its own id.
  lemma {:induction false} NestedCallWaitsIff(s: State, t: nat, c: Choice)
    requires Inv(s) && t < |s.threads| && IsWriter(s.threads[t]) && s.threads[t].at.Idle?
    requires c.ReadLock? || c.WriteLock?
    ensures WaitsForItself(Step(s, t, c), t) <==> s.writeThreadId != Some(t)
  {
    StepKeepsInv(s, t, c);
    hide Inv;
  }

  // The late clearing makes that happen with write guards alone: thread 1 holds the lock
  // when thread 0 erases its id, and then acquires once more.
  lemma {:induction false} LateClearBlocksTheWriter() returns (schedule: seq<(nat, Choice)>)
    ensures NoReadInsideWrite(Init(true, 2), schedule)
    ensures WaitsForItself(Run(Init(true, 2), schedule), 1)
  {
    var go := Continue(false);
    var s0 := Init(true, 2);
    var acquire := [(0, WriteLock), (0, go), (0, go), (0, go), (0, go)];
    assert s0.threads == [Thread([], Idle), Thread([], Idle)];
    AfterAcquire(s0, acquire);
    var handOver := [(1, WriteLock), (1, go), (0, Unlock)];
    AfterHandOver(Run(s0, acquire), handOver);
    RunAppend(s0, acquire, handOver);
    var first := acquire + handOver;
    var again := [(1, go), (1, go), (1, go), (0, go), (1, WriteLock)];
    AfterAgain(Run(s0, first), again);
    RunAppend(s0, first, again);
    schedule := first + again;
    InitInv(true, 2);
    RunKeepsInv(s0, schedule);
    NoReadLocks(s0, schedule);
  }

  lemma {:induction false} AfterAgain(s: State, again: seq<(nat, Choice)>)
    requires s == State(true, Some(0), 1, 0, [Thread([], Clearing), Thread([], Waiting)], 0)
    requires var go := Continue(false); again == [(1, go), (1, go), (1, go), (0, go), (1, WriteLock)]
    ensures Run(s, again) == State(true, None, 0, -1, [Thread([], Idle), Thread([First], Announcing)], 0)
  {
    var s1 := s.(threads := [Thread([], Clearing), Thread([First], Storing)], lockNum := -1);
    assert [First] + [] == [First];
    assert Step(s, 1, again[0].1) == s1;
    var s2 := s1.(threads := [Thread([], Clearing), Thread([First], Settling)], writeThreadId := Some(1));
    assert Step(s1, 1, again[1].1) == s2;
    var s3 := s2.(threads := [Thread([], Clearing), Thread([First], Idle)], waitNum := 0);
    assert Step(s2, 1, again[2].1) == s3;
    var s4 := s3.(threads := [Thread([], Idle), Thread([First], Idle)], writeThreadId := None);
    assert Step(s3, 0, again[3].1) == s4;
    var s5 := s4.(threads := [Thread([], Idle), Thread([First], Announcing)]);
    assert Step(s4, 1, again[4].1) == s5;
    assert again == [again[0]] + ([again[1]] + ([again[2]] + ([again[3]] + [again[4]])));
    RunCons(s, 1, again[0].1, again[1..]);
    RunCons(s1, 1, again[1].1, again[2..]);
    RunCons(s2, 1, again[2].1, again[3..]);
    RunCons(s3, 0, again[3].1, again[4..]);
    RunCons(s4, 1, again[4].1, []);
  }

  lemma {:induction false} NoReadLocks(s: State, schedule: seq<(nat, Choice)>)
    requires forall i | 0 <= i < |schedule| :: !schedule[i].1.ReadLock?
    ensures NoReadInsideWrite(s, schedule)
    decreases |schedule|
  {
    if schedule != [] {
      assert !schedule[0].1.ReadLock?;
      NoReadLocks(Step(s, schedule[0].0, schedule[0].1), schedule[1..]);
    }
  }

  // ---- Writer preference ----

  predicate HasPassed(th: Thread) { th.at.Passed? }

  // Thread w waits to write from s on, at every moment of the schedule.
  ghost predicate WaitsThrough(s: State, schedule: seq<(nat, Choice)>, w: nat)
    decreases |schedule|
  {
    && w < |s.threads| && s.threads[w].at.Waiting?
    && (schedule != [] ==> WaitsThrough(Step(s, schedule[0].0, schedule[0].1), schedule[1..], w))
  }

  // How many readers come in.
  function ReadersIn(s: State, schedule: seq<(nat, Choice)>): (n: nat)
    decreases |schedule|
  {
    if schedule == [] then 0 else
    var (t, c) := schedule[0];
    One(t < |s.threads| && AtRead(s.threads[t].at) && Step(s, t, c).threads[t].at.Idle?)
      + ReadersIn(Step(s, t, c), schedule[1..])
  }

  // With writer preference, the readers that come in while a writer waits are among those
  // that had passed the check of the wait count when it began to wait.
  lemma {:induction false} OvertakingIsBounded(s: State, schedule: seq<(nat, Choice)>, w: nat)
    requires Inv(s) && s.writeFirst && WaitsThrough(s, schedule, w)
    ensures ReadersIn(s, schedule) + Count(Run(s, schedule).threads, HasPassed) <= Count(s.threads, HasPassed)
    decreases |schedule|
  {
    if schedule != [] {
      var (t, c) := schedule[0];
      StepKeepsInv(s, t, c);
      NobodyPasses(s, t, c, w);
      hide Step, Inv, Run, Count;
      OvertakingIsBounded(Step(s, t, c), schedule[1..], w);
      assert Run(s, schedule) == Run(Step(s, t, c), schedule[1..]) by { RunFirst(s, schedule); }
    }
  }

  lemma {:induction false} RunFirst(s: State, schedule: seq<(nat, Choice)>)
    requires schedule != []
    ensures Run(s, schedule) == Run(Step(s, schedule[0].0, schedule[0].1), schedule[1..])
  {
  }

  lemma {:induction false} NobodyPasses(s: State, t: nat, c: Choice, w: nat)
    requires Inv(s) && s.writeFirst && w < |s.threads| && s.threads[w].at.Waiting?
    ensures One(t < |s.threads| && AtRead(s.threads[t].at) && Step(s, t, c).threads[t].at.Idle?)
            + Count(Step(s, t, c).threads, HasPassed) <= Count(s.threads, HasPassed)
  {
    CountIsPositive(s.threads, w, IsAnnounced);
    assert s.waitNum > 0;
    if t < |s.threads| {
      var s' := Step(s, t, c);
      StepMoves(s, t, c);
      CountUpdate(s.threads, t, s'.threads[t], HasPassed);
      hide Inv, Count;
    }
  }

  // ---- Every call does what it is called for ----

  predicate AtWrite(at: Position) { at.Announcing? || at.Waiting? }

  // What a step may do to its thread: a call enters the operation called; an operation
  // goes on until it has pushed or popped its guard, and no other guard moves.
  ghost predicate Proceeds(before: Thread, after: Thread, c: Choice, mine: bool) {
    var from, to := before.guards, after.guards;
    match before.at
    case Idle => (
      match c
      case ReadLock => if mine then after == Thread([Free] + from, Idle) else to == from && AtRead(after.at)
      case WriteLock => to == from && if mine then after.at.Deepening? else AtWrite(after.at)
      case Unlock =>
        if from == [] then after == before
        else (to == from[1..] && (after.at.Idle? || after.at.Clearing?)) || (to == from && after.at.Leaving?)
      case Continue(_) => after == before)
    case Deepening => after == Thread([Again] + from, Idle)
    case Storing => after == Thread(from, Settling)
    case Settling => after == Thread(from, Idle)
    case Clearing => after == Thread(from, Idle)
    case Leaving => from != [] && after == Thread(from[1..], Idle)
    case _ =>
      if AtRead(before.at) then (to == from && AtRead(after.at)) || after == Thread([Shared] + from, Idle)
      else after == Thread(from, Waiting) || after == Thread([First] + from, Storing)
  }

  lemma {:induction false} CallStays(s: State, t: nat, c: Choice)
    requires Inv(s) && t < |s.threads|
    ensures Proceeds(s.threads[t], Step(s, t, c).threads[t], c, s.writeThreadId == Some(t))
    ensures forall u | 0 <= u < |s.threads| && u != t :: Step(s, t, c).threads[u] == s.threads[u]
  {
    assert ThreadInv(s, t);
  }

  function Alone(t: nat, steps: nat): (schedule: seq<(nat, Choice)>) {
    if steps == 0 then [] else [(t, Continue(false))] + Alone(t, steps - 1)
  }

  lemma {:induction false} AloneOnce(s: State, t: nat, n: nat)
    ensures Run(s, Alone(t, n + 1)) == Run(Step(s, t, Continue(false)), Alone(t, n))
  {
    assert Alone(t, n + 1)[1..] == Alone(t, n);
  }

  // A thread that is not the writer may come in: nobody writes and, with writer
  // preference, nobody waits to.
  predicate OpenToReaders(s: State) {
    s.lockNum >= RW_LOCK_FREE && (s.writeFirst ==> s.waitNum <= 0)
  }

  function ReadRank(s: State, at: Position): (rank: nat) {
    match at
    case ReadLoading => 3
    case Reloading => 3
    case Checking(n) => if n == s.lockNum then 2 else 5
    case Passed(n) => if n == s.lockNum then 1 else 4
    case _ => 0
  }

  // A ReadLock that runs alone from any of its accesses on comes in, whatever it has
  // loaded before.
  lemma {:induction false} ReadFinishes(s: State, t: nat) returns (n: nat)
    requires t < |s.threads| && AtRead(s.threads[t].at) && OpenToReaders(s)
    requires s.threads[t].at.Passed? ==> s.threads[t].at.lockNum >= 0
    ensures Run(s, Alone(t, n))
         == s.(threads := s.threads[t := Thread([Shared] + s.threads[t].guards, Idle)], lockNum := s.lockNum + 1)
    decreases ReadRank(s, s.threads[t].at)
  {
    var s1 := Step(s, t, Continue(false));
    var m := 0;
    if !s1.threads[t].at.Idle? {
      m := ReadFinishes(s1, t);
    }
    AloneOnce(s, t, m);
    n := m + 1;
  }

  // So does a WriteLock when the lock is free; it leaves its id behind.
  lemma {:induction false} WriteFinishes(s: State, t: nat) returns (n: nat)
    requires t < |s.threads| && AtWrite(s.threads[t].at) && s.lockNum == RW_LOCK_FREE
    ensures Run(s, Alone(t, n))
         == s.(threads := s.threads[t := Thread([First] + s.threads[t].guards, Idle)], lockNum := WRITE_EXCLUSIVE,
               writeThreadId := Some(t), waitNum := if s.threads[t].at.Waiting? then s.waitNum - 1 else s.waitNum)
    decreases if s.threads[t].at.Waiting? then 0 else 1
  {
    var go := Continue(false);
    var s1 := Step(s, t, go);
    if s.threads[t].at.Announcing? {
      var m := WriteFinishes(s1, t);
      AloneOnce(s, t, m);
      n := m + 1;
    } else {
      n := 3;
      AloneOnce(s, t, 2);
      var s2 := Step(s1, t, go);
      AloneOnce(s1, t, 1);
      AloneOnce(s2, t, 0);
    }
  }

  // What a lock call does when it can come in at once: inside a write section of its own
  // it only nests.
  function Acquired(s: State, t: nat, c: Choice): (s': State)
    requires t < |s.threads|
  {
    var guards, mine := s.threads[t].guards, s.writeThreadId == Some(t);
    var g := if c.ReadLock? then (if mine then Free else Shared) else (if mine then Again else First);
    s.(threads := s.threads[t := Thread([g] + guards, Idle)],
       writeThreadId := if c.WriteLock? then Some(t) else s.writeThreadId,
       lockNum := match g
                  case Shared => s.lockNum + 1
                  case Free => s.lockNum
                  case First => WRITE_EXCLUSIVE
                  case Again => s.lockNum - 1)
  }

  predicate CanAcquire(s: State, t: nat, c: Choice) {
    && (c.ReadLock? || c.WriteLock?)
    && (s.writeThreadId == Some(t) || if c.ReadLock? then OpenToReaders(s) else s.lockNum == RW_LOCK_FREE)
  }

  lemma {:induction false} CallOnce(s: State, t: nat, c: Choice, rest: seq<(nat, Choice)>)
    ensures Run(s, [(t, c)] + rest) == Run(Step(s, t, c), rest)
  {
    assert ([(t, c)] + rest)[1..] == rest;
  }

  lemma {:induction false} AcquireAlone(s: State, t: nat, c: Choice) returns (schedule: seq<(nat, Choice)>)
    requires t < |s.threads| && s.threads[t].at.Idle? && CanAcquire(s, t, c)
    ensures Run(s, schedule) == Acquired(s, t, c)
  {
    var s1 := Step(s, t, c);
    var n := 0;
    if AtRead(s1.threads[t].at) {
      n := ReadFinishes(s1, t);
    } else if AtWrite(s1.threads[t].at) {
      n := WriteFinishes(s1, t);
    } else if s1.threads[t].at.Deepening? {
      n := 1;
      AloneOnce(s1, t, 0);
    }
    schedule := [(t, c)] + Alone(t, n);
    CallOnce(s, t, c, Alone(t, n));
  }

  // What dropping the newest guard does: the first write guard gives the lock and the id
  // back; a read guard that took nothing gives nothing back, if its thread reads its own id.
  function Released(s: State, t: nat): (s': State)
    requires t < |s.threads| && s.threads[t].guards != []
  {
    var g, rest := s.threads[t].guards[0], s.threads[t].guards[1..];
    var lost := g.Free? && s.writeThreadId != Some(t);
    s.(threads := s.threads[t := Thread(rest, Idle)],
       writeThreadId := if IsWrite(g) && s.lockNum == WRITE_EXCLUSIVE then None else s.writeThreadId,
       lockNum := if IsWrite(g) then s.lockNum + 1 else if g.Shared? || lost then s.lockNum - 1 else s.lockNum,
       lost := if lost then s.lost + 1 else s.lost)
  }

  lemma {:induction false} ReleaseAlone(s: State, t: nat) returns (schedule: seq<(nat, Choice)>)
    requires Inv(s) && t < |s.threads| && s.threads[t].at.Idle? && s.threads[t].guards != []
    ensures Run(s, schedule) == Released(s, t)
  {
    assert ThreadInv(s, t);
    hide Counted, Nested;
    var s1 := Step(s, t, Unlock);
    var n := if s1.threads[t].at.Idle? then 0 else 1;
    schedule := [(t, Unlock)] + Alone(t, n);
    CallOnce(s, t, Unlock, Alone(t, n));
    if n == 1 {
      AloneOnce(s1, t, 0);
    }
  }

  // A section alone, nested or not, leaves the lock as it was; a first write section also
  // clears the id.
  lemma {:induction false} LockThenUnlock(s: State, t: nat, c: Choice)
    returns (lock: seq<(nat, Choice)>, unlock: seq<(nat, Choice)>)
    requires Inv(s) && t < |s.threads| && s.threads[t].at.Idle? && CanAcquire(s, t, c)
    ensures Run(s, lock) == Acquired(s, t, c)
    ensures Run(Run(s, lock), unlock)
         == if c.WriteLock? && s.writeThreadId != Some(t) then s.(writeThreadId := None) else s
  {
    lock := AcquireAlone(s, t, c);
    var s1 := Run(s, lock);
    RunKeepsInv(s, lock);
    assert ThreadInv(s, t);
    Known(s, t);
    GuardCounts(s.threads[t].guards);
    hide Inv, Run, WriterGuards, ReaderGuards, Sum, Count;
    unlock := ReleaseAlone(s1, t);
    assert s1.threads[t].guards[1..] == s.threads[t].guards;
    assert s.threads[t := s.threads[t]] == s.threads;
  }

  // ---- The object, changed in place one access at a time ----

  class RWLock {
    const writeFirst: bool
    var writeThreadId: Option<nat>
    var waitNum: int
    var lockNum: int
    var threads: seq<Thread>
    ghost var lost: nat

    ghost function Snapshot(): (s: State)
      reads this
    {
      State(writeFirst, writeThreadId, waitNum, lockNum, threads, lost)
    }

    constructor (writeFirst: bool, threadCount: nat)
      ensures Snapshot() == Init(writeFirst, threadCount) && Inv(Snapshot())
    {
      this.writeFirst := writeFirst;
      writeThreadId, waitNum, lockNum, lost := None, 0, RW_LOCK_FREE, 0;
      threads := Init(writeFirst, threadCount).threads;
      new;
      InitInv(writeFirst, threadCount);
    }

    method Advance(t: nat, c: Choice)
      requires Inv(Snapshot())
      modifies this
      ensures Inv(Snapshot()) && Snapshot() == Step(old(Snapshot()), t, c)
    {
      StepKeepsInv(Snapshot(), t, c);
      if t < |threads| {
        assert ThreadInv(Snapshot(), t);
        var at := threads[t].at;
        if AtRead(at) {
          SpinForRead(t, c);
        } else if !at.Idle? {
          GoOn(t, c);
        } else if c.Unlock? {
          ReleaseGuard(t);
        } else {
          var mine := writeThreadId == Some(t);
          if c.ReadLock? && mine {
            Push(t, Free, Idle);
          } else if c.ReadLock? {
            Move(t, ReadLoading);
          } else if c.WriteLock? {
            Move(t, if mine then Deepening else Announcing);
          }
        }
      }
    }

    method Move(t: nat, at: Position)
      requires t < |threads|
      modifies this`threads
      ensures threads == old(threads)[t := Thread(old(threads)[t].guards, at)]
    {
      threads := threads[t := threads[t].(at := at)];
    }

    method Push(t: nat, g: Guard, at: Position)
      requires t < |threads|
      modifies this`threads
      ensures threads == old(threads)[t := Thread([g] + old(threads)[t].guards, at)]
    {
      threads := threads[t := Thread([g] + threads[t].guards, at)];
    }

    method Pop(t: nat, at: Position) returns (g: Guard)
      requires t < |threads| && threads[t].guards != []
      modifies this`threads
      ensures threads == old(threads)[t := Thread(old(threads)[t].guards[1..], at)]
      ensures [g] + threads[t].guards == old(threads)[t].guards
    {
      g := threads[t].guards[0];
      threads := threads[t := Thread(threads[t].guards[1..], at)];
    }

    // The first access of the destructor of thread t's newest guard.
    method ReleaseGuard(t: nat)
      requires t < |threads| && threads[t].at.Idle?
      modifies this
      ensures Snapshot() == Step(old(Snapshot()), t, Unlock)
    {
      var guards := threads[t].guards;
      if guards != [] {
        if guards[0].Shared? || guards[0].Free? {
          if writeThreadId == Some(t) {
            var _ := Pop(t, Idle);
          } else {
            Move(t, Leaving);
          }
        } else {
          var before := lockNum;
          lockNum := lockNum + 1;
          var _ := Pop(t, if before == WRITE_EXCLUSIVE then Clearing else Idle);
        }
      }
    }

    method SpinForRead(t: nat, c: Choice)
      requires t < |threads| && AtRead(threads[t].at)
      modifies this
      ensures Snapshot() == Step(old(Snapshot()), t, c)
    {
      var at := threads[t].at;
      if at.ReadLoading? || at.Reloading? || (at.Checking? && at.lockNum < RW_LOCK_FREE) {
        Move(t, Checking(lockNum));
      } else if at.Checking? && writeFirst {
        Move(t, if waitNum > 0 then Reloading else Passed(at.lockNum));
      } else if c.Continue? && !c.spurious && lockNum == at.lockNum {
        lockNum := lockNum + 1;
        Push(t, Shared, Idle);
      } else {
        Move(t, Checking(lockNum));
      }
    }

    method GoOn(t: nat, c: Choice)
      requires t < |threads| && !threads[t].at.Idle? && !AtRead(threads[t].at)
      requires threads[t].at.Leaving? ==> threads[t].guards != []
      modifies this
      ensures Snapshot() == Step(old(Snapshot()), t, c)
    {
      match threads[t].at {
        case Deepening =>
          lockNum := lockNum - 1;
          Push(t, Again, Idle);
        case Announcing =>
          waitNum := waitNum + 1;
          Move(t, Waiting);
        case Waiting =>
          if c.Continue? && !c.spurious && lockNum == RW_LOCK_FREE {
            lockNum := WRITE_EXCLUSIVE;
            Push(t, First, Storing);
          }
        case Storing =>
          writeThreadId := Some(t);
          Move(t, Settling);
        case Settling =>
          waitNum := waitNum - 1;
          Move(t, Idle);
        case Leaving =>
          lockNum := lockNum - 1;
          ghost var g := threads[t].guards[0];
          var _ := Pop(t, Idle);
          lost := if g.Shared? then lost else lost + 1;
        case Clearing =>
          writeThreadId := None;
          Move(t, Idle);
      }
    }
  }
}
