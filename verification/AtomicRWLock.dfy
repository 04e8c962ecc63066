// cyber/base/atomic_rw_lock.h: a spinning reader-writer lock.  One step is one
// atomic access; retry counting and yielding change nothing shared.
module AtomicRWLock {
  import opened Counting

  const RW_LOCK_FREE := 0
  const WRITE_EXCLUSIVE := -1

  datatype Thread =
    | Idle
    | Checking(lockNum: int)     // ReadLock: lock_num_ loaded
    | Reloading                  // ReadLock: a writer waits; lock_num_ is loaded next
    | Passed(lockNum: int)       // ReadLock: nobody waits; the CAS is next
    | Reading
    | Waiting(announcedAt: nat, allowance: nat)   // WriteLock: announced, spinning on the CAS
    | Settling(overtaken: nat, allowance: nat)    // WriteLock: acquired, still counted as waiting
    | Writing(overtaken: nat, allowance: nat)

  datatype Choice = ReadLock | WriteLock | Unlock | Continue(spurious: bool)

  // acquisitions counts all reader acquisitions.  A writer remembers that count
  // and the number of readers past the wait check when it announced itself; both
  // are history variables.
  datatype State = State(
    writeFirst: bool, waitNum: nat, lockNum: int, threads: seq<Thread>, acquisitions: nat)

  predicate HasPassed(at: Thread) { at.Passed? }
  predicate IsReading(at: Thread) { at.Reading? }
  predicate IsWriting(at: Thread) { at.Settling? || at.Writing? }
  predicate IsAnnounced(at: Thread) { at.Waiting? || at.Settling? }

  function Goto(s: State, t: nat, at: Thread): (s': State)
    requires t < |s.threads|
  {
    s.(threads := s.threads[t := at])
  }

  function TryRead(s: State, t: nat, lockNum: int, c: Choice): (s': State)
    requires t < |s.threads|
  {
    if c.Continue? && !c.spurious && s.lockNum == lockNum
    then Goto(s, t, Reading).(lockNum := lockNum + 1, acquisitions := s.acquisitions + 1)
    else Goto(s, t, Checking(s.lockNum))
  }

  function Step(s: State, t: nat, c: Choice): (s': State)
    ensures |s'.threads| == |s.threads| && s'.writeFirst == s.writeFirst
  {
    if t >= |s.threads| then s else
    match s.threads[t]
    case Idle => (
      match c
      case ReadLock => Goto(s, t, Checking(s.lockNum))
      case WriteLock =>
        Goto(s, t, Waiting(s.acquisitions, Count(s.threads, HasPassed))).(waitNum := s.waitNum + 1)
      case _ => s)
    case Checking(n) =>
      if n < RW_LOCK_FREE then Goto(s, t, Checking(s.lockNum))
      else if !s.writeFirst then TryRead(s, t, n, c)
      else Goto(s, t, if s.waitNum > 0 then Reloading else Passed(n))
    case Reloading => Goto(s, t, Checking(s.lockNum))
    case Passed(n) => TryRead(s, t, n, c)
    case Reading => if c.Unlock? then Goto(s, t, Idle).(lockNum := s.lockNum - 1) else s
    case Waiting(a, allowance) =>
      if c.Continue? && !c.spurious && s.lockNum == RW_LOCK_FREE then
        var overtaken := if a <= s.acquisitions then s.acquisitions - a else 0;
        Goto(s, t, Settling(overtaken, allowance)).(lockNum := WRITE_EXCLUSIVE)
      else s
    case Settling(overtaken, allowance) =>
      Goto(s, t, Writing(overtaken, allowance)).(waitNum := if s.waitNum > 0 then s.waitNum - 1 else 0)
    case Writing(_, _) => if c.Unlock? then Goto(s, t, Idle).(lockNum := s.lockNum + 1) else s
  }

  function Run(s: State, schedule: seq<(nat, Choice)>): (s': State)
    ensures |s'.threads| == |s.threads| && s'.writeFirst == s.writeFirst
    decreases |schedule|
  {
    if schedule == [] then s
    else Run(Step(s, schedule[0].0, schedule[0].1), schedule[1..])
  }

  function Init(writeFirst: bool, threads: nat): (s: State) {
    State(writeFirst, 0, RW_LOCK_FREE, seq(threads, _ => Idle), 0)
  }

  // ---- The invariant ----

  // lock_num_ is -1 with one writer and no reader inside, else the reader count.
  ghost predicate Exclusive(s: State) {
    var readers, writers := Count(s.threads, IsReading), Count(s.threads, IsWriting);
    && s.waitNum == Count(s.threads, IsAnnounced)
    && ((writers == 1 && readers == 0 && s.lockNum == WRITE_EXCLUSIVE) || (writers == 0 && s.lockNum == readers))
  }

  ghost predicate ThreadInv(s: State, at: Thread) {
    match at
    case Passed(n) => n >= 0 && s.writeFirst
    case Waiting(a, allowance) =>
      a <= s.acquisitions && (s.writeFirst ==> s.acquisitions - a + Count(s.threads, HasPassed) <= allowance)
    case Settling(overtaken, allowance) => s.writeFirst ==> overtaken <= allowance
    case Writing(overtaken, allowance) => s.writeFirst ==> overtaken <= allowance
    case _ => true
  }

  ghost predicate Inv(s: State) {
    Exclusive(s) && forall t | 0 <= t < |s.threads| :: ThreadInv(s, s.threads[t])
  }

  lemma {:induction false} CountsAfter(s: State, t: nat, at: Thread)
    requires t < |s.threads|
    ensures var after, from := s.threads[t := at], s.threads[t];
      && Count(after, IsReading) == Count(s.threads, IsReading) - One(from.Reading?) + One(at.Reading?)
      && Count(after, IsWriting) == Count(s.threads, IsWriting) - One(IsWriting(from)) + One(IsWriting(at))
      && Count(after, IsAnnounced) == Count(s.threads, IsAnnounced) - One(IsAnnounced(from)) + One(IsAnnounced(at))
      && Count(after, HasPassed) == Count(s.threads, HasPassed) - One(from.Passed?) + One(at.Passed?)
  {
    CountUpdate(s.threads, t, at, IsReading);
    CountUpdate(s.threads, t, at, IsWriting);
    CountUpdate(s.threads, t, at, IsAnnounced);
    CountUpdate(s.threads, t, at, HasPassed);
  }

  lemma {:induction false} StepKeepsInv(s: State, t: nat, c: Choice)
    requires Inv(s)
    ensures Inv(Step(s, t, c))
  {
    if t < |s.threads| {
      StepKeepsCounts(s, t, c);
      var s' := Step(s, t, c);
      forall u | 0 <= u < |s'.threads| ensures ThreadInv(s', s'.threads[u]) {
        StepKeepsThread(s, t, c, u);
      }
    }
  }

  lemma {:induction false} StepKeepsCounts(s: State, t: nat, c: Choice)
    requires Inv(s) && t < |s.threads|
    ensures Exclusive(Step(s, t, c))
  {
    hide Count;
    var s' := Step(s, t, c);
    assert ThreadInv(s, s.threads[t]);
    CountsAfter(s, t, s'.threads[t]);
    assert s'.threads == s.threads[t := s'.threads[t]];
    if IsWriting(s.threads[t]) { CountIsPositive(s.threads, t, IsWriting); }
    if IsReading(s.threads[t]) { CountIsPositive(s.threads, t, IsReading); }
    if IsAnnounced(s.threads[t]) { CountIsPositive(s.threads, t, IsAnnounced); }
  }

  lemma {:induction false} StepKeepsThread(s: State, t: nat, c: Choice, u: nat)
    requires Inv(s) && t < |s.threads| && u < |s.threads|
    ensures ThreadInv(Step(s, t, c), Step(s, t, c).threads[u])
  {
    hide Count;
    var s' := Step(s, t, c);
    assert ThreadInv(s, s.threads[t]) && ThreadInv(s, s.threads[u]);
    CountsAfter(s, t, s'.threads[t]);
    assert s'.threads == s.threads[t := s'.threads[t]];
    if IsWriting(s.threads[t]) { CountIsPositive(s.threads, t, IsWriting); }
    if IsAnnounced(s.threads[u]) { CountIsPositive(s.threads, u, IsAnnounced); }
    hide Exclusive;
  }

  lemma {:induction false} InitInv(writeFirst: bool, threads: nat)
    ensures Inv(Init(writeFirst, threads))
  {
    var s := Init(writeFirst, threads);
    CountZero(s.threads, IsReading);
    CountZero(s.threads, IsWriting);
    CountZero(s.threads, IsAnnounced);
  }

  lemma {:induction false} RunKeepsInv(s: State, schedule: seq<(nat, Choice)>)
    requires Inv(s)
    ensures Inv(Run(s, schedule))
    decreases |schedule|
  {
    if schedule != [] {
      StepKeepsInv(s, schedule[0].0, schedule[0].1);
      RunKeepsInv(Step(s, schedule[0].0, schedule[0].1), schedule[1..]);
    }
  }

  // ---- Main results ----

  lemma {:induction false} WritersExcludeEverybody(writeFirst: bool, threads: nat, schedule: seq<(nat, Choice)>,
                                                   t: nat, u: nat)
    requires t < threads && u < threads && t != u
    ensures var s := Run(Init(writeFirst, threads), schedule);
      && (IsWriting(s.threads[t]) ==>
            !IsWriting(s.threads[u]) && !s.threads[u].Reading? && s.lockNum == WRITE_EXCLUSIVE)
      && (s.threads[t].Reading? ==> s.lockNum == Count(s.threads, IsReading) > 0)
  {
    InitInv(writeFirst, threads);
    RunKeepsInv(Init(writeFirst, threads), schedule);
    var s := Run(Init(writeFirst, threads), schedule);
    if IsWriting(s.threads[t]) {
      CountIsPositive(s.threads, t, IsWriting);
      if IsWriting(s.threads[u]) {
        CountTwo(s.threads, if t < u then t else u, if t < u then u else t, IsWriting);
      } else if s.threads[u].Reading? {
        CountIsPositive(s.threads, u, IsReading);
      }
    }
    if s.threads[t].Reading? { CountIsPositive(s.threads, t, IsReading); }
  }

  // Writer preference: the readers that overtake a writer between its
  // announcement and its acquisition are at most those that were already past
  // the wait check when it announced itself.
  lemma {:induction false} OvertakingIsBounded(threads: nat, schedule: seq<(nat, Choice)>, t: nat)
    requires t < threads
    ensures var s := Run(Init(true, threads), schedule);
      match s.threads[t]
      case Waiting(a, allowance) => a <= s.acquisitions && s.acquisitions - a + Count(s.threads, HasPassed) <= allowance
      case Settling(overtaken, allowance) => overtaken <= allowance
      case Writing(overtaken, allowance) => overtaken <= allowance
      case _ => true
  {
    InitInv(true, threads);
    RunKeepsInv(Init(true, threads), schedule);
    var s := Run(Init(true, threads), schedule);
    assert ThreadInv(s, s.threads[t]);
  }

  // Without write_first there is no bound: any number of readers overtake a
  // writer that found no reader past the check.
  lemma {:induction false} ReadersOvertakeWithoutBound(k: nat) returns (schedule: seq<(nat, Choice)>)
    ensures Run(Init(false, 2), schedule) == State(false, 1, 0, [Waiting(0, 0), Idle], k)
  {
    if k == 0 {
      schedule := [(0, WriteLock)];
      var s := Init(false, 2);
      CountZero(s.threads, HasPassed);
      assert Run(s, schedule) == Step(s, 0, WriteLock);
      assert Step(s, 0, WriteLock).threads == [Waiting(0, 0), Idle];
    } else {
      var before := ReadersOvertakeWithoutBound(k - 1);
      var s0 := Run(Init(false, 2), before);
      var pass := [(1, ReadLock), (1, Continue(false)), (1, Unlock)];
      var s1 := Step(s0, 1, ReadLock);
      var s2 := Step(s1, 1, Continue(false));
      var s3 := Step(s2, 1, Unlock);
      assert s3.threads == [Waiting(0, 0), Idle];
      assert pass[1..][1..] == pass[2..] && pass[2..] == [pass[2]];
      assert Run(s0, pass) == Run(s1, pass[1..]) == Run(s2, pass[2..]) == s3;
      schedule := before + pass;
      RunAppend(Init(false, 2), before, pass);
    }
  }

  lemma {:induction false} RunAppend(s: State, a: seq<(nat, Choice)>, b: seq<(nat, Choice)>)
    ensures Run(s, a + b) == Run(Run(s, a), b)
    decreases |a|
  {
    if a == [] {
      assert a + b == b;
    } else {
      assert (a + b)[1..] == a[1..] + b;
      RunAppend(Step(s, a[0].0, a[0].1), a[1..], b);
    }
  }

  // ---- Every call does what it is called for ----

  predicate AtRead(at: Thread) { at.Checking? || at.Reloading? || at.Passed? }
  predicate AtWrite(at: Thread) { at.Waiting? || at.Settling? }

  // A thread outside enters the operation it calls; it stays in that operation until it is
  // inside, where it stays until it unlocks.  No other thread moves.
  lemma {:induction false} CallStays(s: State, t: nat, c: Choice)
    requires t < |s.threads|
    ensures var at, at' := s.threads[t], Step(s, t, c).threads[t];
      match at
      case Idle => if c.ReadLock? then AtRead(at') else if c.WriteLock? then AtWrite(at') else Step(s, t, c) == s
      case Reading => if c.Unlock? then at'.Idle? else Step(s, t, c) == s
      case Writing(_, _) => if c.Unlock? then at'.Idle? else Step(s, t, c) == s
      case _ => if AtRead(at) then AtRead(at') || at'.Reading? else AtWrite(at') || at'.Writing?
    ensures forall u | 0 <= u < |s.threads| && u != t :: Step(s, t, c).threads[u] == s.threads[u]
  {
  }

  function Alone(t: nat, steps: nat): (schedule: seq<(nat, Choice)>) {
    if steps == 0 then [] else [(t, Continue(false))] + Alone(t, steps - 1)
  }

  lemma {:induction false} AloneOnce(s: State, t: nat, n: nat)
    ensures Run(s, Alone(t, n + 1)) == Run(Step(s, t, Continue(false)), Alone(t, n))
  {
    assert Alone(t, n + 1)[1..] == Alone(t, n);
  }

  // A reader may come in: no writer is inside and, with writer preference, none waits.
  predicate OpenToReaders(s: State) {
    s.lockNum >= RW_LOCK_FREE && (s.writeFirst ==> s.waitNum == 0)
  }

  function ReadRank(s: State, at: Thread): (rank: nat) {
    match at
    case Reloading => 3
    case Checking(n) => if n == s.lockNum then 2 else 5
    case Passed(n) => if n == s.lockNum then 1 else 4
    case _ => 0
  }

  // A ReadLock that runs alone from any of its accesses on comes in, whatever it has
  // loaded before, when the lock is open to readers.
  lemma {:induction false} ReadFinishes(s: State, t: nat) returns (n: nat)
    requires t < |s.threads| && AtRead(s.threads[t]) && OpenToReaders(s)
    requires s.threads[t].Passed? ==> s.threads[t].lockNum >= 0
    ensures Run(s, Alone(t, n))
         == Goto(s, t, Reading).(lockNum := s.lockNum + 1, acquisitions := s.acquisitions + 1)
    decreases ReadRank(s, s.threads[t])
  {
    var s1 := Step(s, t, Continue(false));
    var m := 0;
    if !s1.threads[t].Reading? {
      m := ReadFinishes(s1, t);
    }
    AloneOnce(s, t, m);
    n := m + 1;
  }

  // A WriteLock that runs alone comes in when the lock is free.
  lemma {:induction false} WriteFinishes(s: State, t: nat) returns (n: nat)
    requires t < |s.threads| && s.threads[t].Waiting? && s.lockNum == RW_LOCK_FREE && s.waitNum > 0
    ensures var s' := Run(s, Alone(t, n));
      && s' == s.(lockNum := WRITE_EXCLUSIVE, waitNum := s.waitNum - 1, threads := s'.threads)
      && s'.threads == s.threads[t := s'.threads[t]] && s'.threads[t].Writing?
  {
    n := 2;
    AloneOnce(s, t, 1);
    AloneOnce(Step(s, t, Continue(false)), t, 0);
  }

  lemma {:induction false} CallOnce(s: State, t: nat, c: Choice, rest: seq<(nat, Choice)>)
    ensures Run(s, [(t, c)] + rest) == Run(Step(s, t, c), rest)
  {
    assert ([(t, c)] + rest)[1..] == rest;
  }

  // A read section alone leaves the lock as it was, and so does a write section.
  lemma {:induction false} LockThenUnlock(s: State, t: nat, c: Choice)
    returns (lock: seq<(nat, Choice)>, unlock: seq<(nat, Choice)>)
    requires t < |s.threads| && s.threads[t].Idle?
    requires (c.ReadLock? && OpenToReaders(s)) || (c.WriteLock? && s.lockNum == RW_LOCK_FREE)
    ensures var inside := Run(s, lock).threads[t]; if c.ReadLock? then inside.Reading? else inside.Writing?
    ensures var s' := Run(Run(s, lock), unlock); s' == s.(acquisitions := s'.acquisitions)
  {
    var s1 := Step(s, t, c);
    var n;
    if c.ReadLock? {
      n := ReadFinishes(s1, t);
    } else {
      n := WriteFinishes(s1, t);
    }
    lock := [(t, c)] + Alone(t, n);
    CallOnce(s, t, c, Alone(t, n));
    var s2 := Run(s, lock);
    unlock := [(t, Unlock)] + [];
    CallOnce(s2, t, Unlock, []);
    assert s.threads[t := Idle] == s.threads;
  }

  // ---- The object, changed in place one access at a time ----

  class RWLock {
    const writeFirst: bool
    var waitNum: nat
    var lockNum: int
    var threads: seq<Thread>
    var acquisitions: nat  // history

    ghost function Snapshot(): (s: State)
      reads this
    {
      State(writeFirst, waitNum, lockNum, threads, acquisitions)
    }

    constructor (writeFirst: bool, threadCount: nat)
      ensures Snapshot() == Init(writeFirst, threadCount) && Inv(Snapshot())
    {
      this.writeFirst := writeFirst;
      waitNum, lockNum, acquisitions := 0, RW_LOCK_FREE, 0;
      threads := Init(writeFirst, threadCount).threads;
      new;
      InitInv(writeFirst, threadCount);
    }

    method Advance(t: nat, c: Choice)
      requires Inv(Snapshot())
      modifies this
      ensures Inv(Snapshot()) && Snapshot() == Step(old(Snapshot()), t, c)
    {
      StepKeepsInv(Snapshot(), t, c);
      if t < |threads| {
        match threads[t] {
          case Idle =>
            if c.ReadLock? {
              threads := threads[t := Checking(lockNum)];
            } else if c.WriteLock? {
              waitNum := waitNum + 1;
              threads := threads[t := Waiting(acquisitions, Count(threads, HasPassed))];
            }
          case Waiting(_, _) => SpinForWrite(t, c);
          case Settling(overtaken, allowance) =>
            CountIsPositive(threads, t, IsAnnounced);
            waitNum := waitNum - 1;
            threads := threads[t := Writing(overtaken, allowance)];
          case Reading =>
            if c.Unlock? {
              lockNum := lockNum - 1;
              threads := threads[t := Idle];
            }
          case Writing(_, _) =>
            if c.Unlock? {
              lockNum := lockNum + 1;
              threads := threads[t := Idle];
            }
          case _ => SpinForRead(t, c);
        }
      }
    }

    method SpinForRead(t: nat, c: Choice)
      requires t < |threads| && (threads[t].Checking? || threads[t].Reloading? || threads[t].Passed?)
      modifies this
      ensures Snapshot() == Step(old(Snapshot()), t, c)
    {
      var at := threads[t];
      if at.Reloading? || (at.Checking? && at.lockNum < RW_LOCK_FREE) {
        threads := threads[t := Checking(lockNum)];
      } else if at.Checking? && writeFirst {
        threads := threads[t := if waitNum > 0 then Reloading else Passed(at.lockNum)];
      } else if c.Continue? && !c.spurious && lockNum == at.lockNum {
        lockNum := lockNum + 1;
        acquisitions := acquisitions + 1;
        threads := threads[t := Reading];
      } else {
        threads := threads[t := Checking(lockNum)];
      }
    }

    method SpinForWrite(t: nat, c: Choice)
      requires t < |threads| && threads[t].Waiting? && threads[t].announcedAt <= acquisitions
      modifies this
      ensures Snapshot() == Step(old(Snapshot()), t, c)
    {
      if c.Continue? && !c.spurious && lockNum == RW_LOCK_FREE {
        lockNum := WRITE_EXCLUSIVE;
        threads := threads[t := Settling(acquisitions - threads[t].announcedAt, threads[t].allowance)];
      }
    }
  }
}
