// cyber/croutine/croutine.h, routine_factory.h and cyber/data/data_dispatcher.h:
// how a message reaches a routine that waits for data.  Any number of dispatcher
// threads publish on one channel, any number of processor threads run its readers'
// routines.  One step is one access to shared state; Resume, the scan of the run
// queue and the notification follow croutine.cc, processor.cc and
// scheduler_classic.cc.  All notify callbacks are registered from the start.
module WakeUp {
  import opened Counting
  import opened Wrappers
  import ChannelData

  datatype RoutineState = READY | FINISHED | SLEEP | IO_WAIT | DATA_WAIT

  // Where a routine stands in its endless loop.
  datatype Position =
    | Top         // set_state(DATA_WAIT) is next
    | Fetching    // TryFetch is next
    | Emptied     // nothing fetched: Yield() is next
    | InCallback  // a message is being handled; the handler may sleep
    | Dozing      // inside Sleep: state set, the context swap is next
    | Handled     // Yield(READY): set_state is next
    | Leaving     // Yield(READY): the context swap is next

  // A reader: its buffer's size and number of messages ever put in, the index it
  // fetches next, and its routine with the flags lock_ and updated_.
  datatype Reader = Reader(
    size: nat, fills: nat, next: nat, state: RoutineState, at: Position, locked: bool, updated: bool)

  datatype Processor =
    | Scanning
    | Acquired(r: nat)               // UpdateState: the sleep check is next
    | Testing(r: nat)                // UpdateState: test_and_set on updated_ is next
    | Tested(r: nat, pending: bool)  // UpdateState: the state may be set to READY
    | Asking(r: nat)                 // the state is read to decide on Resume
    | Running(r: nat)
    | Releasing(r: nat)

  datatype Dispatcher =
    | Idle
    | Filling(i: nat)    // buffer i is filled next
    | Notifying(i: nat)  // the state of reader i is checked next
    | Clearing(i: nat)   // SetUpdateFlag for reader i is next

  datatype State = State(readers: seq<Reader>, processors: seq<Processor>, dispatchers: seq<Dispatcher>)

  // yes: the sleep is over, or the handler goes to sleep.
  datatype Choice = Pick(r: nat) | Dispatch | Go(yes: bool)
  datatype Agent = Processing(p: nat) | Dispatching(d: nat)

  function WithReader(s: State, r: nat, reader: Reader): (s': State)
    requires r < |s.readers|
  {
    s.(readers := s.readers[r := reader])
  }

  function GoProcessor(s: State, p: nat, at: Processor): (s': State)
    requires p < |s.processors|
  {
    s.(processors := s.processors[p := at])
  }

  function GoDispatcher(s: State, d: nat, at: Dispatcher): (s': State)
    requires d < |s.dispatchers|
  {
    s.(dispatchers := s.dispatchers[d := at])
  }

  predicate Waits(state: RoutineState) { state.DATA_WAIT? || state.IO_WAIT? }

  function Fetched(x: Reader): (p: Option<nat>) {
    ChannelData.FetchIndex(x.size, x.fills, x.next)
  }

  // A message that the reader has not been given yet.
  predicate Unread(x: Reader) { Fetched(x).Some? }

  // The routine's next access, and whether it then leaves its processor.
  function RunRoutine(x: Reader, yes: bool): (r: (Reader, bool)) {
    match x.at
    case Top => (x.(state := DATA_WAIT, at := Fetching), false)
    case Fetching => (
      match Fetched(x)
      case Some(p) => (x.(next := p + 1, at := InCallback), false)
      case None => (x.(at := Emptied), false))
    case Emptied => (x.(at := Top), true)
    case InCallback => if yes then (x.(state := SLEEP, at := Dozing), false) else (x.(at := Handled), false)
    case Dozing => (x.(at := InCallback), true)
    case Handled => (x.(state := READY, at := Leaving), false)
    case Leaving => (x.(at := Top), true)
  }

  function StepProcessor(s: State, p: nat, c: Choice): (s': State)
    requires p < |s.processors|
  {
    match s.processors[p]
    case Scanning =>
      if c.Pick? && c.r < |s.readers| && !s.readers[c.r].locked
      then GoProcessor(WithReader(s, c.r, s.readers[c.r].(locked := true)), p, Acquired(c.r)) else s
    case Acquired(r) =>
      if r >= |s.readers| then s
      else if s.readers[r].state.SLEEP? && c == Go(true)
      then GoProcessor(WithReader(s, r, s.readers[r].(state := READY)), p, Asking(r))
      else GoProcessor(s, p, Testing(r))
    case Testing(r) =>
      if r >= |s.readers| then s
      else GoProcessor(WithReader(s, r, s.readers[r].(updated := true)), p, Tested(r, !s.readers[r].updated))
    case Tested(r, pending) =>
      if r >= |s.readers| then s
      else if pending && Waits(s.readers[r].state)
      then GoProcessor(WithReader(s, r, s.readers[r].(state := READY)), p, Asking(r))
      else GoProcessor(s, p, Asking(r))
    case Asking(r) =>
      if r >= |s.readers| then s
      else GoProcessor(s, p, if s.readers[r].state.READY? then Running(r) else Releasing(r))
    case Running(r) =>
      if r >= |s.readers| then s
      else var (x, leaves) := RunRoutine(s.readers[r], c == Go(true));
        GoProcessor(WithReader(s, r, x), p, if leaves then Releasing(r) else Running(r))
    case Releasing(r) =>
      if r >= |s.readers| then s
      else GoProcessor(WithReader(s, r, s.readers[r].(locked := false)), p, Scanning)
  }

  function StepDispatcher(s: State, d: nat, c: Choice): (s': State)
    requires d < |s.dispatchers|
  {
    match s.dispatchers[d]
    case Idle => if c.Dispatch? then GoDispatcher(s, d, Filling(0)) else s
    case Filling(i) =>
      if i < |s.readers|
      then GoDispatcher(WithReader(s, i, s.readers[i].(fills := s.readers[i].fills + 1)), d, Filling(i + 1))
      else GoDispatcher(s, d, Notifying(0))
    case Notifying(i) =>
      if i < |s.readers|
      then GoDispatcher(s, d, if Waits(s.readers[i].state) then Clearing(i) else Notifying(i + 1))
      else GoDispatcher(s, d, Idle)
    case Clearing(i) =>
      if i < |s.readers|
      then GoDispatcher(WithReader(s, i, s.readers[i].(updated := false)), d, Notifying(i + 1))
      else s
  }

  function Step(s: State, a: Agent, c: Choice): (s': State)
    ensures |s'.readers| == |s.readers| && |s'.processors| == |s.processors| && |s'.dispatchers| == |s.dispatchers|
  {
    match a
    case Processing(p) => if p < |s.processors| then StepProcessor(s, p, c) else s
    case Dispatching(d) => if d < |s.dispatchers| then StepDispatcher(s, d, c) else s
  }

  function Run(s: State, schedule: seq<(Agent, Choice)>): (s': State)
    ensures |s'.readers| == |s.readers|
    decreases |schedule|
  {
    if schedule == [] then s
    else Run(Step(s, schedule[0].0, schedule[0].1), schedule[1..])
  }

  // Readers with these queue sizes; the constructor sets state_ and updated_.
  function Init(sizes: seq<nat>, processors: nat, dispatchers: nat): (s: State) {
    State(seq(|sizes|, i requires 0 <= i < |sizes| => Reader(sizes[i], 0, 0, READY, Top, false, true)),
      seq(processors, _ => Scanning), seq(dispatchers, _ => Idle))
  }

  // ---- The invariant ----

  ghost predicate Holds(s: State, p: nat, r: nat) {
    p < |s.processors| && !s.processors[p].Scanning? && s.processors[p].r == r
  }

  ghost predicate Runs(s: State, p: nat, r: nat) {
    p < |s.processors| && s.processors[p] == Running(r)
  }

  ghost predicate BeingRun(s: State, r: nat) { exists p :: Runs(s, p, r) }

  ghost predicate Consumes(s: State, p: nat, r: nat) {
    p < |s.processors| && s.processors[p] == Tested(r, true)
  }

  // A processor has consumed the flag and is about to set the routine READY.
  ghost predicate BeingWoken(s: State, r: nat) { exists p :: Consumes(s, p, r) }

  // lock_ gives each routine to one processor at a time.
  ghost predicate Locks(s: State) {
    && (forall p: nat, r: nat | Holds(s, p, r) :: r < |s.readers| && s.readers[r].locked)
    && (forall p: nat, q: nat, r: nat | Holds(s, p, r) && Holds(s, q, r) :: p == q)
  }

  ghost predicate ReaderOk(s: State, r: nat)
    requires r < |s.readers|
  {
    var x := s.readers[r];
    && x.next <= x.fills + 1
    && (x.at.Fetching? || x.at.Emptied? ==> x.state.DATA_WAIT? && BeingRun(s, r))
    && (x.at.Dozing? ==> x.state.SLEEP? && BeingRun(s, r))
    && (x.at.Handled? || x.at.Leaving? ==> BeingRun(s, r))
    && (x.at.Leaving? ==> x.state.READY?)
    && (x.at.Top? ==> x.state.READY? || x.state.DATA_WAIT?)
    && (x.at.InCallback? ==> x.state.READY? || x.state.SLEEP? || (x.state.DATA_WAIT? && BeingRun(s, r)))
    && (x.at.Top? && BeingRun(s, r) ==> x.state.READY?)
  }

  // The routine will fetch again without being notified.
  ghost predicate Due(s: State, r: nat)
    requires r < |s.readers|
  {
    var x := s.readers[r];
    || x.at.Fetching? || x.at.InCallback? || x.at.Dozing? || x.at.Handled? || x.at.Leaving?
    || (x.at.Top? && (x.state.READY? || BeingWoken(s, r)))
  }

  ghost predicate OwesBy(s: State, d: nat, r: nat) {
    d < |s.dispatchers| &&
    match s.dispatchers[d]
    case Idle => false
    case Filling(i) => r < i
    case Notifying(i) => i <= r
    case Clearing(i) => i <= r
  }

  // Some dispatcher has filled buffer r and not yet finished notifying reader r.
  ghost predicate Owed(s: State, r: nat) { exists d :: OwesBy(s, d, r) }

  ghost predicate NotLost(s: State, r: nat)
    requires r < |s.readers|
  {
    Unread(s.readers[r]) ==> Due(s, r) || !s.readers[r].updated || Owed(s, r)
  }

  ghost predicate Inv(s: State) {
    Locks(s) && forall r: nat | r < |s.readers| :: ReaderOk(s, r) && NotLost(s, r)
  }

  // A routine that is not parked for good: ready, notified, or asleep for a while.
  predicate HasReason(x: Reader) {
    x.state.READY? || x.state.SLEEP? || !x.updated
  }

  lemma {:induction false} InitInv(sizes: seq<nat>, processors: nat, dispatchers: nat)
    ensures Inv(Init(sizes, processors, dispatchers))
    ensures forall r | 0 <= r < |sizes| :: HasReason(Init(sizes, processors, dispatchers).readers[r])
  {
  }

  lemma {:induction false} DispatcherKeepsInv(s: State, d: nat, c: Choice)
    requires Inv(s) && d < |s.dispatchers|
    ensures Inv(StepDispatcher(s, d, c))
  {
    var s' := StepDispatcher(s, d, c);
    assert s'.processors == s.processors;
    assert forall p: nat, r: nat :: Holds(s', p, r) <==> Holds(s, p, r);
    forall r: nat | r < |s'.readers| ensures ReaderOk(s', r) && NotLost(s', r) {
      assert ReaderOk(s, r) && NotLost(s, r);
      assert forall p: nat :: Runs(s', p, r) <==> Runs(s, p, r);
      assert forall p: nat :: Consumes(s', p, r) <==> Consumes(s, p, r);
      if Owed(s, r) {
        var e: nat :| OwesBy(s, e, r);
        assert e != d ==> OwesBy(s', e, r);
        assert e == d ==> OwesBy(s', d, r) || Due(s, r) || !s'.readers[r].updated;
      }
      if s.dispatchers[d].Filling? && r <= s.dispatchers[d].i < |s.readers| && r == s.dispatchers[d].i {
        assert OwesBy(s', d, r);
      }
    }
  }

  lemma {:induction false} ProcessorKeepsInv(s: State, p: nat, c: Choice)
    requires Inv(s) && p < |s.processors|
    ensures Inv(StepProcessor(s, p, c))
  {
    var s' := StepProcessor(s, p, c);
    assert s'.dispatchers == s.dispatchers;
    ProcessorKeepsLocks(s, p, c);
    forall r: nat | r < |s'.readers| ensures ReaderOk(s', r) && NotLost(s', r) {
      if Holds(s, p, r) {
        ProcessorKeepsItsReader(s, p, c, r);
      } else {
        ProcessorKeepsOtherReader(s, p, c, r);
      }
    }
  }

  lemma {:induction false} ProcessorKeepsLocks(s: State, p: nat, c: Choice)
    requires Inv(s) && p < |s.processors|
    ensures Locks(StepProcessor(s, p, c))
  {
    var s' := StepProcessor(s, p, c);
    assert forall q: nat, r: nat | q != p :: Holds(s', q, r) <==> Holds(s, q, r);
    if !s.processors[p].Scanning? { assert Holds(s, p, s.processors[p].r); }
  }

  lemma {:induction false} SameOwed(s: State, s': State, r: nat)
    requires s'.dispatchers == s.dispatchers
    ensures Owed(s', r) <==> Owed(s, r)
  {
    assert forall d: nat :: OwesBy(s', d, r) <==> OwesBy(s, d, r);
  }

  lemma {:induction false} ProcessorKeepsOtherReader(s: State, p: nat, c: Choice, r: nat)
    requires Inv(s) && p < |s.processors| && r < |s.readers| && !Holds(s, p, r)
    ensures var s' := StepProcessor(s, p, c); ReaderOk(s', r) && NotLost(s', r)
  {
    var s' := StepProcessor(s, p, c);
    assert ReaderOk(s, r) && NotLost(s, r);
    assert forall q: nat :: Runs(s', q, r) <==> Runs(s, q, r);
    assert forall q: nat :: Consumes(s', q, r) <==> Consumes(s, q, r);
    SameOwed(s, s', r);
  }

  lemma {:induction false} ProcessorKeepsItsReader(s: State, p: nat, c: Choice, r: nat)
    requires Inv(s) && p < |s.processors| && r < |s.readers| && Holds(s, p, r)
    ensures var s' := StepProcessor(s, p, c); ReaderOk(s', r) && NotLost(s', r)
  {
    var s' := StepProcessor(s, p, c);
    assert ReaderOk(s, r) && NotLost(s, r);
    SameOwed(s, s', r);
    forall q: nat | q != p ensures !Runs(s, q, r) && !Consumes(s, q, r) && !Runs(s', q, r) && !Consumes(s', q, r) {
      assert !Holds(s, q, r);
    }
    assert BeingRun(s, r) <==> Runs(s, p, r);
    assert BeingWoken(s, r) <==> Consumes(s, p, r);
    assert BeingRun(s', r) <==> Runs(s', p, r);
    assert BeingWoken(s', r) <==> Consumes(s', p, r);
  }

  lemma {:induction false} RunKeepsInv(s: State, schedule: seq<(Agent, Choice)>)
    requires Inv(s)
    ensures Inv(Run(s, schedule))
    decreases |schedule|
  {
    if schedule != [] {
      var (a, c) := schedule[0];
      match a {
        case Processing(p) => if p < |s.processors| { ProcessorKeepsInv(s, p, c); }
        case Dispatching(d) => if d < |s.dispatchers| { DispatcherKeepsInv(s, d, c); }
      }
      RunKeepsInv(Step(s, a, c), schedule[1..]);
    }
  }

  // ---- Main results ----

  // No lost wake-up: in every interleaving, a routine that is parked waiting for
  // data while its buffer holds an unread message has its update flag pending, or
  // a dispatcher has yet to finish notifying it.
  lemma {:induction false} NoLostWakeUp(sizes: seq<nat>, processors: nat, dispatchers: nat,
                                        schedule: seq<(Agent, Choice)>, r: nat)
    requires r < |sizes|
    ensures var s := Run(Init(sizes, processors, dispatchers), schedule);
      s.readers[r].state.DATA_WAIT? && !s.readers[r].locked && Unread(s.readers[r])
      ==> !s.readers[r].updated || Owed(s, r)
  {
    InitInv(sizes, processors, dispatchers);
    RunKeepsInv(Init(sizes, processors, dispatchers), schedule);
    var s := Run(Init(sizes, processors, dispatchers), schedule);
    assert ReaderOk(s, r) && NotLost(s, r);
    if !s.readers[r].locked { NobodyHolds(s, r); }
  }

  lemma {:induction false} NobodyHolds(s: State, r: nat)
    requires Inv(s) && r < |s.readers| && !s.readers[r].locked
    ensures !BeingRun(s, r) && !BeingWoken(s, r)
  {
    forall p: nat ensures !Runs(s, p, r) && !Consumes(s, p, r) {
      assert !Holds(s, p, r);
    }
  }

  // Nothing is going on and no routine has a reason to run.
  ghost predicate Quiet(s: State) {
    && (forall p | 0 <= p < |s.processors| :: s.processors[p].Scanning?)
    && (forall d | 0 <= d < |s.dispatchers| :: s.dispatchers[d].Idle?)
    && (forall r | 0 <= r < |s.readers| :: Waits(s.readers[r].state) && s.readers[r].updated)
  }

  // When all is quiet, every reader has drained its channel.
  lemma {:induction false} QuietMeansDrained(sizes: seq<nat>, processors: nat, dispatchers: nat,
                                             schedule: seq<(Agent, Choice)>, r: nat)
    requires r < |sizes|
    ensures var s := Run(Init(sizes, processors, dispatchers), schedule);
      Quiet(s) ==> s.readers[r].fills == 0 || s.readers[r].next == s.readers[r].fills + 1
  {
    InitInv(sizes, processors, dispatchers);
    RunKeepsInv(Init(sizes, processors, dispatchers), schedule);
    var s := Run(Init(sizes, processors, dispatchers), schedule);
    if Quiet(s) {
      assert ReaderOk(s, r) && NotLost(s, r);
      assert forall p: nat :: !Runs(s, p, r) && !Consumes(s, p, r);
      assert forall d: nat :: !OwesBy(s, d, r);
    }
  }

  // ---- Every publication reaches every buffer ----

  predicate YetToFill(at: Dispatcher, r: nat) {
    at.Filling? && at.i <= r
  }

  function FillsLater(r: nat): (p: Dispatcher -> bool) {
    at => YetToFill(at, r)
  }

  // How many dispatchers are on their way to buffer r.
  function Underway(s: State, r: nat): (n: nat) {
    Count(s.dispatchers, FillsLater(r))
  }

  // How many publications a schedule starts.
  function Published(s: State, schedule: seq<(Agent, Choice)>): (n: nat)
    decreases |schedule|
  {
    if schedule == [] then 0 else
    var (a, c) := schedule[0];
    One(a.Dispatching? && c.Dispatch? && a.d < |s.dispatchers| && s.dispatchers[a.d].Idle?)
      + Published(Step(s, a, c), schedule[1..])
  }

  // On every schedule each buffer gets each publication exactly once: the messages put in
  // and those underway are the publications.
  lemma {:induction false} EveryBufferIsFilled(s: State, schedule: seq<(Agent, Choice)>, r: nat)
    requires r < |s.readers|
    ensures var s' := Run(s, schedule);
      s'.readers[r].fills + Underway(s', r) == s.readers[r].fills + Underway(s, r) + Published(s, schedule)
    decreases |schedule|
  {
    if schedule != [] {
      var (a, c) := schedule[0];
      StepFillsOnce(s, a, c, r);
      EveryBufferIsFilled(Step(s, a, c), schedule[1..], r);
    }
  }

  lemma {:induction false} StepFillsOnce(s: State, a: Agent, c: Choice, r: nat)
    requires r < |s.readers|
    ensures var s' := Step(s, a, c);
      s'.readers[r].fills + Underway(s', r)
      == s.readers[r].fills + Underway(s, r)
         + One(a.Dispatching? && c.Dispatch? && a.d < |s.dispatchers| && s.dispatchers[a.d].Idle?)
  {
    hide Count, StepDispatcher, StepProcessor, YetToFill;
    match a
    case Processing(p) =>
      if p < |s.processors| {
        ProcessorFillsNothing(s, p, c, r);
      }
    case Dispatching(d) =>
      if d < |s.dispatchers| {
        DispatcherFillsOnce(s, d, c, r);
        CountUpdate(s.dispatchers, d, Step(s, a, c).dispatchers[d], FillsLater(r));
      }
  }

  lemma {:induction false} ProcessorFillsNothing(s: State, p: nat, c: Choice, r: nat)
    requires p < |s.processors| && r < |s.readers|
    ensures var s' := StepProcessor(s, p, c);
      s'.dispatchers == s.dispatchers && s'.readers[r].fills == s.readers[r].fills
  {
  }

  lemma {:induction false} DispatcherFillsOnce(s: State, d: nat, c: Choice, r: nat)
    requires d < |s.dispatchers| && r < |s.readers|
    ensures var s' := StepDispatcher(s, d, c);
      && s'.dispatchers == s.dispatchers[d := s'.dispatchers[d]]
      && s'.readers[r].fills + One(YetToFill(s'.dispatchers[d], r))
         == s.readers[r].fills + One(YetToFill(s.dispatchers[d], r)) + One(c.Dispatch? && s.dispatchers[d].Idle?)
  {
  }

  function DispatchAlone(d: nat, steps: nat): (schedule: seq<(Agent, Choice)>) {
    if steps == 0 then [] else [(Dispatching(d), Go(false))] + DispatchAlone(d, steps - 1)
  }

  lemma {:induction false} DispatchOnce(s: State, d: nat, n: nat)
    ensures Run(s, DispatchAlone(d, n + 1)) == Run(Step(s, Dispatching(d), Go(false)), DispatchAlone(d, n))
  {
    assert DispatchAlone(d, n + 1)[1..] == DispatchAlone(d, n);
  }

  lemma {:induction false} DispatchSome(s: State, d: nat, n: nat, m: nat)
    ensures Run(s, DispatchAlone(d, n + m)) == Run(Run(s, DispatchAlone(d, n)), DispatchAlone(d, m))
    decreases n
  {
    if n > 0 {
      DispatchOnce(s, d, n - 1 + m);
      DispatchOnce(s, d, n - 1);
      DispatchSome(Step(s, Dispatching(d), Go(false)), d, n - 1, m);
    }
  }

  // What a publication does to a reader: one more message, and a waiting routine is told.
  function Filled(x: Reader): (x': Reader) { x.(fills := x.fills + 1) }

  function Notified(x: Reader): (x': Reader) { if Waits(x.state) then x.(updated := false) else x }

  function FromOn(readers: seq<Reader>, i: nat, f: Reader -> Reader): (readers': seq<Reader>)
    ensures |readers'| == |readers|
    ensures forall j | 0 <= j < |readers| :: readers'[j] == if j < i then readers[j] else f(readers[j])
  {
    seq(|readers|, j requires 0 <= j < |readers| => if j < i then readers[j] else f(readers[j]))
  }

  lemma {:induction false} FillAlone(s: State, d: nat, i: nat) returns (n: nat)
    requires d < |s.dispatchers| && s.dispatchers[d] == Filling(i) && i <= |s.readers|
    ensures Run(s, DispatchAlone(d, n))
         == s.(readers := FromOn(s.readers, i, Filled), dispatchers := s.dispatchers[d := Notifying(0)])
    decreases |s.readers| - i
  {
    var s1 := Step(s, Dispatching(d), Go(false));
    if i == |s.readers| {
      n := 1;
      DispatchOnce(s, d, 0);
      assert FromOn(s.readers, i, Filled) == s.readers;
    } else {
      var m := FillAlone(s1, d, i + 1);
      DispatchOnce(s, d, m);
      n := m + 1;
      assert FromOn(s1.readers, i + 1, Filled) == FromOn(s.readers, i, Filled);
    }
  }

  lemma {:induction false} NotifyAlone(s: State, d: nat, i: nat) returns (n: nat)
    requires d < |s.dispatchers| && s.dispatchers[d] == Notifying(i) && i <= |s.readers|
    ensures Run(s, DispatchAlone(d, n))
         == s.(readers := FromOn(s.readers, i, Notified), dispatchers := s.dispatchers[d := Idle])
    decreases |s.readers| - i
  {
    var s1 := Step(s, Dispatching(d), Go(false));
    if i == |s.readers| {
      n := 1;
      DispatchOnce(s, d, 0);
      assert FromOn(s.readers, i, Notified) == s.readers;
    } else if Waits(s.readers[i].state) {
      var s2 := Step(s1, Dispatching(d), Go(false));
      var m := NotifyAlone(s2, d, i + 1);
      DispatchOnce(s1, d, m);
      DispatchOnce(s, d, m + 1);
      n := m + 2;
      assert FromOn(s2.readers, i + 1, Notified) == FromOn(s.readers, i, Notified);
    } else {
      var m := NotifyAlone(s1, d, i + 1);
      DispatchOnce(s, d, m);
      n := m + 1;
      assert FromOn(s1.readers, i + 1, Notified) == FromOn(s.readers, i, Notified);
    }
  }

  // A publication that runs alone puts one message into every buffer, leaves the flag of
  // every waiting routine pending, and does nothing else.
  lemma {:induction false} PublishAlone(s: State, d: nat) returns (schedule: seq<(Agent, Choice)>)
    requires d < |s.dispatchers| && s.dispatchers[d].Idle?
    ensures var s' := Run(s, schedule);
      && s' == s.(readers := s'.readers) && |s'.readers| == |s.readers|
      && forall r | 0 <= r < |s.readers| ::
        s'.readers[r] == s.readers[r].(fills := s.readers[r].fills + 1,
                                       updated := s.readers[r].updated && s.readers[r].state !in {DATA_WAIT, IO_WAIT})
  {
    var s1 := Step(s, Dispatching(d), Dispatch);
    var n := FillAlone(s1, d, 0);
    var s2 := Run(s1, DispatchAlone(d, n));
    var m := NotifyAlone(s2, d, 0);
    DispatchSome(s1, d, n, m);
    schedule := [(Dispatching(d), Dispatch)] + DispatchAlone(d, n + m);
    RunCons(s, Dispatching(d), Dispatch, DispatchAlone(d, n + m));
    assert s.dispatchers[d := Idle] == s.dispatchers;
  }

  // ---- What one turn of a processor does ----

  // UpdateState, as if in one piece; `over` says that the sleep is over.
  function Updated(x: Reader, over: bool): (x': Reader) {
    if x.state.SLEEP? && over then x.(state := READY)
    else x.(updated := true, state := if !x.updated && x.state in {DATA_WAIT, IO_WAIT} then READY else x.state)
  }

  // From there to the next yield, with a handler that does not sleep: a routine that is
  // ready goes on where it stands; it fetches one message, or parks.
  function Resumed(x: Reader): (x': Reader)
  {
    if !x.state.READY? then x
    else if x.at.InCallback? then x.(at := Top)
    else if Unread(x) then x.(next := Fetched(x).value + 1)
    else x.(state := DATA_WAIT)
  }

  function Turn(p: nat, choices: seq<Choice>): (schedule: seq<(Agent, Choice)>) {
    if choices == [] then [] else [(Processing(p), choices[0])] + Turn(p, choices[1..])
  }

  lemma {:induction false} TurnCons(s: State, p: nat, c: Choice, rest: seq<Choice>)
    ensures Run(s, Turn(p, [c] + rest)) == Run(Step(s, Processing(p), c), Turn(p, rest))
  {
    assert ([c] + rest)[1..] == rest;
    RunCons(s, Processing(p), c, Turn(p, rest));
  }

  lemma {:induction false} TurnAppend(s: State, p: nat, a: seq<Choice>, b: seq<Choice>)
    ensures Run(s, Turn(p, a + b)) == Run(Run(s, Turn(p, a)), Turn(p, b))
    decreases |a|
  {
    if a == [] {
      assert a + b == b;
    } else {
      assert a == [a[0]] + a[1..] && a + b == [a[0]] + (a[1..] + b);
      TurnCons(s, p, a[0], a[1..] + b);
      TurnCons(s, p, a[0], a[1..]);
      TurnAppend(Step(s, Processing(p), a[0]), p, a[1..], b);
    }
  }

  // Processor p has acquired reader r, which has become x, and stands at `at`.
  function With(s: State, p: nat, r: nat, at: Processor, x: Reader): (s': State)
    requires p < |s.processors| && r < |s.readers|
  {
    s.(readers := s.readers[r := x], processors := s.processors[p := at])
  }

  lemma {:induction false} WithTwice(s: State, p: nat, r: nat, at: Processor, x: Reader, at': Processor, x': Reader)
    requires p < |s.processors| && r < |s.readers|
    ensures With(With(s, p, r, at, x), p, r, at', x') == With(s, p, r, at', x')
  {
    assert s.readers[r := x][r := x'] == s.readers[r := x'];
    assert s.processors[p := at][p := at'] == s.processors[p := at'];
  }

  // A step of a processor that holds reader r.
  lemma {:induction false} TurnWith(s: State, p: nat, r: nat, at: Processor, x: Reader, c: Choice, rest: seq<Choice>)
    returns (s1: State)
    requires p < |s.processors| && r < |s.readers| && !at.Scanning? && at.r == r
    ensures s1 == Step(With(s, p, r, at, x), Processing(p), c)
    ensures Run(With(s, p, r, at, x), Turn(p, [c] + rest)) == Run(s1, Turn(p, rest))
    ensures s1 == With(s, p, r, s1.processors[p], s1.readers[r])
  {
    s1 := Step(With(s, p, r, at, x), Processing(p), c);
    TurnCons(With(s, p, r, at, x), p, c, rest);
    WithTwice(s, p, r, at, x, s1.processors[p], s1.readers[r]);
  }

  lemma {:induction false} PickUpAlone(s: State, p: nat, r: nat, over: bool) returns (choices: seq<Choice>)
    requires p < |s.processors| && s.processors[p].Scanning? && r < |s.readers| && !s.readers[r].locked
    ensures var x := Updated(s.readers[r], over).(locked := true);
      Run(s, Turn(p, choices)) == With(s, p, r, if x.state.READY? then Running(r) else Releasing(r), x)
  {
    var rest;
    if s.readers[r].state.SLEEP? && over {
      rest := WakeAlone(s, p, r);
    } else {
      rest := AskAlone(s, p, r, over);
    }
    choices := [Pick(r)] + rest;
    TurnCons(s, p, Pick(r), rest);
  }

  lemma {:induction false} WakeAlone(s: State, p: nat, r: nat) returns (choices: seq<Choice>)
    requires p < |s.processors| && r < |s.readers| && s.readers[r].state.SLEEP?
    ensures var x := s.readers[r].(locked := true);
      Run(With(s, p, r, Acquired(r), x), Turn(p, choices)) == With(s, p, r, Running(r), x.(state := READY))
  {
    var x, go := s.readers[r].(locked := true), Go(true);
    choices := [go] + ([go] + []);
    var s1 := TurnWith(s, p, r, Acquired(r), x, go, [go] + []);
    var s2 := TurnWith(s, p, r, Asking(r), x.(state := READY), go, []);
  }

  lemma {:induction false} AskAlone(s: State, p: nat, r: nat, over: bool) returns (choices: seq<Choice>)
    requires p < |s.processors| && r < |s.readers| && !(s.readers[r].state.SLEEP? && over)
    ensures var x := Updated(s.readers[r], over).(locked := true);
      Run(With(s, p, r, Acquired(r), s.readers[r].(locked := true)), Turn(p, choices))
      == With(s, p, r, if x.state.READY? then Running(r) else Releasing(r), x)
  {
    var x, x2, go := s.readers[r].(locked := true), Updated(s.readers[r], over).(locked := true), Go(over);
    choices := [go] + ([go] + ([go] + ([go] + [])));
    var s2 := TurnWith(s, p, r, Acquired(r), x, go, [go] + ([go] + ([go] + [])));
    var s3 := TurnWith(s, p, r, Testing(r), x, go, [go] + ([go] + []));
    var s4 := TurnWith(s, p, r, Tested(r, !x.updated), x.(updated := true), go, [go] + []);
    var s5 := TurnWith(s, p, r, Asking(r), x2, go, []);
  }

  // A routine that runs until it yields, and its processor until it scans again.
  lemma {:induction false} RoutineAlone(s: State, p: nat, r: nat) returns (choices: seq<Choice>)
    requires p < |s.processors| && s.processors[p] == Running(r) && r < |s.readers|
    requires s.readers[r].state.READY? && (s.readers[r].at.Top? || s.readers[r].at.InCallback?)
    ensures Run(s, Turn(p, choices)) == With(s, p, r, Scanning, Resumed(s.readers[r]).(locked := false))
  {
    var x := s.readers[r];
    if x.at.InCallback? {
      choices := CallbackAlone(s, p, r);
    } else if Unread(x) {
      choices := FetchAlone(s, p, r);
    } else {
      choices := ParkAlone(s, p, r);
    }
  }

  lemma {:induction false} FetchAlone(s: State, p: nat, r: nat) returns (choices: seq<Choice>)
    requires p < |s.processors| && s.processors[p] == Running(r) && r < |s.readers|
    requires s.readers[r].at.Top? && Unread(s.readers[r])
    ensures var x := s.readers[r];
      Run(s, Turn(p, choices))
      == With(s, p, r, Scanning, x.(state := READY, next := Fetched(x).value + 1, locked := false))
  {
    var x, go := s.readers[r], Go(false);
    assert s == With(s, p, r, Running(r), x);
    var x1 := x.(state := DATA_WAIT, at := Fetching);
    var x2 := x1.(next := Fetched(x).value + 1, at := InCallback);
    var rest := CallbackAlone(With(s, p, r, Running(r), x2), p, r);
    choices := [go] + ([go] + rest);
    var s1 := TurnWith(s, p, r, Running(r), x, go, [go] + rest);
    var s2 := TurnWith(s, p, r, Running(r), x1, go, rest);
    WithTwice(s, p, r, Running(r), x2, Scanning, x2.(state := READY, at := Top, locked := false));
  }

  lemma {:induction false} ParkAlone(s: State, p: nat, r: nat) returns (choices: seq<Choice>)
    requires p < |s.processors| && s.processors[p] == Running(r) && r < |s.readers|
    requires s.readers[r].at.Top? && !Unread(s.readers[r])
    ensures Run(s, Turn(p, choices)) == With(s, p, r, Scanning, s.readers[r].(state := DATA_WAIT, locked := false))
  {
    var x, go := s.readers[r], Go(false);
    assert s == With(s, p, r, Running(r), x);
    choices := [go] + ([go] + ([go] + ([go] + [])));
    var s1 := TurnWith(s, p, r, Running(r), x, go, [go] + ([go] + ([go] + [])));
    var s2 := TurnWith(s, p, r, Running(r), x.(state := DATA_WAIT, at := Fetching), go, [go] + ([go] + []));
    var s3 := TurnWith(s, p, r, Running(r), x.(state := DATA_WAIT, at := Emptied), go, [go] + []);
    var s4 := TurnWith(s, p, r, Releasing(r), x.(state := DATA_WAIT), go, []);
  }

  lemma {:induction false} CallbackAlone(s: State, p: nat, r: nat) returns (choices: seq<Choice>)
    requires p < |s.processors| && s.processors[p] == Running(r) && r < |s.readers| && s.readers[r].at.InCallback?
    ensures Run(s, Turn(p, choices))
         == With(s, p, r, Scanning, s.readers[r].(state := READY, at := Top, locked := false))
  {
    var x, go := s.readers[r], Go(false);
    assert s == With(s, p, r, Running(r), x);
    choices := [go] + ([go] + ([go] + ([go] + [])));
    var s1 := TurnWith(s, p, r, Running(r), x, go, [go] + ([go] + ([go] + [])));
    var s2 := TurnWith(s, p, r, Running(r), x.(at := Handled), go, [go] + ([go] + []));
    var s3 := TurnWith(s, p, r, Running(r), x.(state := READY, at := Leaving), go, [go] + []);
    var s4 := TurnWith(s, p, r, Releasing(r), x.(state := READY, at := Top), go, []);
  }

  // A handler that goes to sleep gives its processor up and keeps its message.
  lemma {:induction false} SleepAlone(s: State, p: nat, r: nat) returns (choices: seq<Choice>)
    requires p < |s.processors| && s.processors[p] == Running(r) && r < |s.readers| && s.readers[r].at.InCallback?
    ensures Run(s, Turn(p, choices)) == With(s, p, r, Scanning, s.readers[r].(state := SLEEP, locked := false))
  {
    var x, go := s.readers[r], Go(true);
    assert s == With(s, p, r, Running(r), x);
    choices := [go] + ([go] + ([go] + []));
    var s1 := TurnWith(s, p, r, Running(r), x, go, [go] + ([go] + []));
    var s2 := TurnWith(s, p, r, Running(r), x.(state := SLEEP, at := Dozing), go, [go] + []);
    var s3 := TurnWith(s, p, r, Releasing(r), x.(state := SLEEP), go, []);
  }

  // A whole turn of a processor that runs alone: it updates the routine's state, resumes
  // it up to its next yield if it is ready, releases it, and does nothing else.
  lemma {:induction false} TurnAlone(s: State, p: nat, r: nat, over: bool) returns (choices: seq<Choice>)
    requires Inv(s) && p < |s.processors| && s.processors[p].Scanning? && r < |s.readers| && !s.readers[r].locked
    ensures Run(s, Turn(p, choices)) == s.(readers := s.readers[r := Resumed(Updated(s.readers[r], over))])
  {
    assert ReaderOk(s, r);
    NobodyHolds(s, r);
    var x := Updated(s.readers[r], over).(locked := true);
    var pick := PickUpAlone(s, p, r, over);
    var s1 := Run(s, Turn(p, pick));
    var rest;
    if x.state.READY? {
      rest := RoutineAlone(s1, p, r);
    } else {
      rest := [Go(false)];
      assert [Go(false)] == [Go(false)] + [];
      TurnCons(s1, p, Go(false), []);
    }
    choices := pick + rest;
    TurnAppend(s, p, pick, rest);
    assert s.processors[p := Scanning] == s.processors;
  }

  // ---- A reader with a reason to run is served ----

  // A pending flag is enough: a processor that picks the parked routine up delivers the
  // unread message, whatever happened before.
  lemma {:induction false} PendingReaderIsServed(s: State, p: nat, r: nat) returns (choices: seq<Choice>)
    requires Inv(s) && p < |s.processors| && s.processors[p].Scanning? && r < |s.readers|
    requires s.readers[r].state.DATA_WAIT? && !s.readers[r].locked && !s.readers[r].updated && Unread(s.readers[r])
    ensures var x' := Run(s, Turn(p, choices)).readers[r];
      x'.next == Fetched(s.readers[r]).value + 1 && x'.state.READY? && x'.at.Top? && !x'.locked
  {
    assert ReaderOk(s, r);
    NobodyHolds(s, r);
    choices := TurnAlone(s, p, r, false);
  }

  // How much is left for a reader to fetch, and whether it is in a callback.
  function Backlog(x: Reader): (n: nat) {
    (if x.next <= x.fills + 1 then 2 * (x.fills + 1 - x.next) else 0) + One(x.at.InCallback?)
  }

  // A processor left alone drains a reader that has a reason to run, and parks it.
  lemma {:induction false} ReaderIsDrained(s: State, p: nat, r: nat) returns (choices: seq<Choice>)
    requires Inv(s) && p < |s.processors| && s.processors[p].Scanning? && r < |s.readers| && !s.readers[r].locked
    requires HasReason(s.readers[r])
    ensures var s' := Run(s, Turn(p, choices));
      && s' == s.(readers := s.readers[r := s'.readers[r]])
      && s'.readers[r].state.DATA_WAIT? && !Unread(s'.readers[r]) && s'.readers[r].fills == s.readers[r].fills
    decreases Backlog(s.readers[r])
  {
    assert ReaderOk(s, r);
    NobodyHolds(s, r);
    var turn := TurnAlone(s, p, r, true);
    var s1 := Run(s, Turn(p, turn));
    RunKeepsInv(s, Turn(p, turn));
    var x, x1 := s.readers[r], s1.readers[r];
    TurnMakesProgress(x);
    assert s1.processors == s.processors;
    hide Inv, Updated, Resumed, Run, Turn;
    if x1.state.DATA_WAIT? {
      choices := turn;
    } else {
      var rest := ReaderIsDrained(s1, p, r);
      choices := turn + rest;
      TurnAppend(s, p, turn, rest);
    }
  }

  lemma {:induction false} TurnMakesProgress(x: Reader)
    requires x.next <= x.fills + 1 && HasReason(x) && !x.locked
    requires x.at.Top? || x.at.InCallback?
    requires x.at.Top? ==> x.state.READY? || x.state.DATA_WAIT?
    requires x.at.InCallback? ==> x.state.READY? || x.state.SLEEP?
    ensures var x1 := Resumed(Updated(x, true));
      && x1.fills == x.fills && !x1.locked
      && if x1.state.DATA_WAIT? then !Unread(x1) else x1.state.READY? && Backlog(x1) < Backlog(x)
  {
  }

  lemma {:induction false} RunCons(s: State, a: Agent, c: Choice, rest: seq<(Agent, Choice)>)
    ensures Run(s, [(a, c)] + rest) == Run(Step(s, a, c), rest)
  {
    assert ([(a, c)] + rest)[1..] == rest;
  }

  // ---- The objects, changed in place one access at a time ----

  class Channel {
    var readers: seq<Reader>
    var processors: seq<Processor>
    var dispatchers: seq<Dispatcher>

    function Snapshot(): (s: State)
      reads this
    {
      State(readers, processors, dispatchers)
    }

    constructor (sizes: seq<nat>, processorCount: nat, dispatcherCount: nat)
      ensures Snapshot() == Init(sizes, processorCount, dispatcherCount) && Inv(Snapshot())
    {
      readers := Init(sizes, processorCount, dispatcherCount).readers;
      processors := Init(sizes, processorCount, dispatcherCount).processors;
      dispatchers := Init(sizes, processorCount, dispatcherCount).dispatchers;
      new;
      InitInv(sizes, processorCount, dispatcherCount);
    }

    method Advance(a: Agent, c: Choice)
      requires Inv(Snapshot())
      modifies this
      ensures Inv(Snapshot()) && Snapshot() == Step(old(Snapshot()), a, c)
    {
      match a {
        case Processing(p) =>
          if p < |processors| {
            ProcessorKeepsInv(Snapshot(), p, c);
            if !processors[p].Scanning? { assert Holds(Snapshot(), p, processors[p].r); }
            if processors[p].Scanning? {
              Acquire(p, c);
            } else if processors[p].Running? {
              RunLoop(p, c);
            } else if processors[p].Asking? || processors[p].Releasing? {
              Resume(p);
            } else {
              UpdateState(p, c);
            }
          }
        case Dispatching(d) =>
          if d < |dispatchers| {
            DispatcherKeepsInv(Snapshot(), d, c);
            Publish(d, c);
          }
      }
    }

    method Acquire(p: nat, c: Choice)
      requires p < |processors| && processors[p].Scanning?
      modifies this
      ensures Snapshot() == StepProcessor(old(Snapshot()), p, c)
    {
      if c.Pick? && c.r < |readers| && !readers[c.r].locked {
        readers := readers[c.r := readers[c.r].(locked := true)];
        processors := processors[p := Acquired(c.r)];
      }
    }

    method UpdateState(p: nat, c: Choice)
      requires p < |processors| && (processors[p].Acquired? || processors[p].Testing? || processors[p].Tested?)
      requires processors[p].r < |readers|
      modifies this
      ensures Snapshot() == StepProcessor(old(Snapshot()), p, c)
    {
      var r := processors[p].r;
      match processors[p] {
        case Acquired(_) =>
          if readers[r].state == SLEEP && c == Go(true) {
            readers := readers[r := readers[r].(state := READY)];
            processors := processors[p := Asking(r)];
          } else {
            processors := processors[p := Testing(r)];
          }
        case Testing(_) =>
          processors := processors[p := Tested(r, !readers[r].updated)];
          readers := readers[r := readers[r].(updated := true)];
        case Tested(_, pending) =>
          if pending && (readers[r].state == DATA_WAIT || readers[r].state == IO_WAIT) {
            readers := readers[r := readers[r].(state := READY)];
          }
          processors := processors[p := Asking(r)];
      }
    }

    // The processor resumes a routine that is ready, and releases any routine it has acquired.
    method Resume(p: nat)
      requires p < |processors| && (processors[p].Asking? || processors[p].Releasing?) && processors[p].r < |readers|
      modifies this
      ensures forall c :: Snapshot() == StepProcessor(old(Snapshot()), p, c)
    {
      var r := processors[p].r;
      if processors[p].Releasing? {
        readers := readers[r := readers[r].(locked := false)];
        processors := processors[p := Scanning];
      } else {
        processors := processors[p := if readers[r].state == READY then Running(r) else Releasing(r)];
      }
    }

    // The endless loop of the routine, one access at a time.
    method RunLoop(p: nat, c: Choice)
      requires p < |processors| && processors[p].Running? && processors[p].r < |readers|
      modifies this
      ensures Snapshot() == StepProcessor(old(Snapshot()), p, c)
    {
      var r := processors[p].r;
      var x := readers[r];
      var swapped := false;
      match x.at {
        case Top => x := x.(state := DATA_WAIT, at := Fetching);
        case Fetching =>
          var fetched := Fetched(x);
          x := if fetched.Some? then x.(next := fetched.value + 1, at := InCallback) else x.(at := Emptied);
        case Emptied => x, swapped := x.(at := Top), true;
        case InCallback => x := if c == Go(true) then x.(state := SLEEP, at := Dozing) else x.(at := Handled);
        case Dozing => x, swapped := x.(at := InCallback), true;
        case Handled => x := x.(state := READY, at := Leaving);
        case Leaving => x, swapped := x.(at := Top), true;
      }
      readers := readers[r := x];
      if swapped {
        processors := processors[p := Releasing(r)];
      }
    }

    // Dispatch: every buffer is filled, then every reader notified.
    method Publish(d: nat, c: Choice)
      requires d < |dispatchers|
      modifies this
      ensures Snapshot() == StepDispatcher(old(Snapshot()), d, c)
    {
      match dispatchers[d] {
        case Idle =>
          if c.Dispatch? {
            dispatchers := dispatchers[d := Filling(0)];
          }
        case Filling(i) =>
          if i < |readers| {
            readers := readers[i := readers[i].(fills := readers[i].fills + 1)];
            dispatchers := dispatchers[d := Filling(i + 1)];
          } else {
            dispatchers := dispatchers[d := Notifying(0)];
          }
        case Notifying(i) =>
          if i < |readers| {
            var waiting := readers[i].state == DATA_WAIT || readers[i].state == IO_WAIT;
            dispatchers := dispatchers[d := if waiting then Clearing(i) else Notifying(i + 1)];
          } else {
            dispatchers := dispatchers[d := Idle];
          }
        case Clearing(i) =>
          if i < |readers| {
            readers := readers[i := readers[i].(updated := false)];
            dispatchers := dispatchers[d := Notifying(i + 1)];
          }
      }
    }
  }
}
