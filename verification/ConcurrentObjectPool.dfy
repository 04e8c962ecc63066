// cyber/base/concurrent_object_pool.h: a free list of arena nodes whose head
// carries a count.  Nodes are arena indices, and nullptr is None.  One step is one atomic
// access (or the plain access to a node's next link); accesses are sequentially
// consistent and the count is unbounded.
module ConcurrentObjectPool {
  import opened Wrappers

  datatype Head = Head(count: nat, node: Option<nat>)

  datatype Thread =
    | Idle
    | PopLoaded(oldHead: Head)                      // FindFreeHead: the next link is read next
    | PopRead(oldHead: Head, next: Option<nat>)     // FindFreeHead: the CAS on free_head_ is next
    | PushLoaded(node: nat, oldHead: Head)          // ReleaseObject: the next link is written next
    | PushLinked(node: nat, oldHead: Head)          // ReleaseObject: the CAS on free_head_ is next
    | Returned(got: Option<nat>)
    | Released(node: nat)

  datatype Choice = Get | Release(node: nat) | Continue(spurious: bool)

  // outstanding holds the nodes that shared pointers own; free is a history
  // variable, the free list as the abstract stack that the links should spell.
  datatype State = State(
    next: seq<Option<nat>>, head: Head, threads: seq<Thread>, outstanding: set<nat>, free: seq<nat>)

  function Goto(s: State, t: nat, at: Thread): (s': State)
    requires t < |s.threads|
  {
    s.(threads := s.threads[t := at])
  }

  // The pop loop re-tests what it loaded before it reads the next link.
  function Test(h: Head): (at: Thread) {
    if h.node.None? then Returned(None) else PopLoaded(h)
  }

  function Step(s: State, t: nat, c: Choice): (s': State)
    ensures |s'.threads| == |s.threads| && |s'.next| == |s.next|
  {
    if t >= |s.threads| then s else
    match s.threads[t]
    case PopLoaded(h) =>
      if h.node.Some? && h.node.value < |s.next| then Goto(s, t, PopRead(h, s.next[h.node.value])) else s
    case PopRead(h, next) =>
      if c.Continue? && !c.spurious && s.head == h && h.node.Some?
      then Goto(s, t, Returned(h.node)).(head := Head(h.count + 1, next),
             outstanding := s.outstanding + {h.node.value}, free := if s.free == [] then [] else s.free[1..])
      else Goto(s, t, Test(s.head))
    case PushLoaded(n, h) =>
      if n < |s.next| then Goto(s, t, PushLinked(n, h)).(next := s.next[n := h.node]) else s
    case PushLinked(n, h) =>
      if c.Continue? && !c.spurious && s.head == h
      then Goto(s, t, Released(n)).(head := Head(h.count + 1, Some(n)), free := [n] + s.free)
      else Goto(s, t, PushLoaded(n, s.head))
    case _ =>
      match c
      case Get => Goto(s, t, Test(s.head))
      case Release(n) =>
        if n in s.outstanding then Goto(s, t, PushLoaded(n, s.head)).(outstanding := s.outstanding - {n}) else s
      case Continue(_) => s
  }

  function Run(s: State, schedule: seq<(nat, Choice)>): (s': State)
    ensures |s'.threads| == |s.threads| && |s'.next| == |s.next|
    decreases |schedule|
  {
    if schedule == [] then s
    else Run(Step(s, schedule[0].0, schedule[0].1), schedule[1..])
  }

  function Init(capacity: nat, threads: nat): (s: State)
    requires capacity >= 1
  {
    State(seq(capacity, i => if i + 1 < capacity then Some(i + 1) else None), Head(0, Some(0)),
      seq(threads, _ => Idle), {}, seq(capacity, i => i))
  }

  // ---- The invariant ----

  predicate Resting(at: Thread) { at.Idle? || at.Returned? || at.Released? }

  predicate Pushing(at: Thread) { at.PushLoaded? || at.PushLinked? }

  ghost predicate Holds(s: State, t: nat, n: nat) {
    t < |s.threads| && Pushing(s.threads[t]) && s.threads[t].node == n
  }

  ghost predicate Held(s: State, n: nat) {
    exists t :: Holds(s, t, n)
  }

  ghost predicate LinkOk(next: seq<Option<nat>>, free: seq<nat>, i: nat) {
    i < |free| && free[i] < |next| && next[free[i]] == if i + 1 < |free| then Some(free[i + 1]) else None
  }

  // The links spell the free list, which visits no node twice.
  ghost predicate Chain(next: seq<Option<nat>>, free: seq<nat>) {
    && (forall i: nat | i < |free| :: LinkOk(next, free, i))
    && (forall i, j | 0 <= i < j < |free| :: free[i] != free[j])
  }

  ghost predicate Linked(s: State) {
    Chain(s.next, s.free) && s.head.node == if s.free == [] then None else Some(s.free[0])
  }

  // Every arena node has exactly one owner: the list, a shared pointer or a thread releasing it.
  ghost predicate Owned(s: State) {
    && (forall n: nat :: n < |s.next| <==> n in s.free || n in s.outstanding || Held(s, n))
    && (forall n: nat | n in s.outstanding :: n !in s.free && !Held(s, n))
    && (forall n: nat | n in s.free :: !Held(s, n))
    && (forall t: nat, u: nat, n: nat | Holds(s, t, n) && Holds(s, u, n) :: t == u)
  }

  // A head loaded earlier is the current head if its count is.
  ghost predicate Seen(s: State, h: Head) {
    h.count <= s.head.count && (h.count == s.head.count ==> h == s.head)
  }

  ghost predicate ThreadInv(s: State, at: Thread) {
    match at
    case PopLoaded(h) => Seen(s, h) && h.node.Some? && h.node.value < |s.next|
    case PopRead(h, next) =>
      Seen(s, h) && h.node.Some? && h.node.value < |s.next| && (h == s.head ==> next == s.next[h.node.value])
    case PushLoaded(n, h) => Seen(s, h) && n < |s.next|
    case PushLinked(n, h) => Seen(s, h) && n < |s.next| && s.next[n] == h.node
    case _ => true
  }

  ghost predicate Inv(s: State) {
    Linked(s) && Owned(s) && forall t | 0 <= t < |s.threads| :: ThreadInv(s, s.threads[t])
  }

  lemma {:induction false} InitInv(capacity: nat, threads: nat)
    requires capacity >= 1
    ensures Inv(Init(capacity, threads))
  {
    var s := Init(capacity, threads);
    forall n: nat | n < capacity ensures n in s.free { assert s.free[n] == n; }
    assert forall n: nat :: !Held(s, n);
  }

  lemma {:induction false} StepKeepsInv(s: State, t: nat, c: Choice)
    requires Inv(s)
    ensures Inv(Step(s, t, c))
  {
    if t < |s.threads| {
      assert ThreadInv(s, s.threads[t]);
      match s.threads[t]
      case PopRead(_, _) => PopKeepsInv(s, t, c);
      case PushLoaded(_, _) => LinkKeepsInv(s, t, c);
      case PushLinked(_, _) => PushKeepsInv(s, t, c);
      case PopLoaded(h) =>
        assert LinkOk(s.next, s.free, 0) || s.free == [];
        GotoKeepsInv(s, t, Step(s, t, c).threads[t]);
      case _ => CallKeepsInv(s, t, c);
    }
  }

  // A thread moves on, keeping the node it holds if any; nothing shared changes.
  lemma {:induction false} GotoKeepsInv(s: State, t: nat, at: Thread)
    requires Inv(s) && t < |s.threads| && ThreadInv(s, at)
    requires if Pushing(s.threads[t]) then Pushing(at) && at.node == s.threads[t].node else !Pushing(at)
    ensures Inv(Goto(s, t, at))
  {
    var s' := Goto(s, t, at);
    SameHolders(s, s');
    forall u: nat | u < |s'.threads| ensures ThreadInv(s', s'.threads[u]) {
      assert ThreadInv(s, s.threads[u]);
    }
  }

  lemma {:induction false} SameHolders(s: State, s': State)
    requires |s.threads| == |s'.threads|
    requires forall u: nat | u < |s.threads| ::
      if Pushing(s.threads[u]) then Pushing(s'.threads[u]) && s'.threads[u].node == s.threads[u].node
      else !Pushing(s'.threads[u])
    ensures forall u: nat, n: nat :: Holds(s', u, n) <==> Holds(s, u, n)
    ensures forall n: nat :: Held(s', n) <==> Held(s, n)
  {
    assert forall u: nat, n: nat :: Holds(s', u, n) <==> Holds(s, u, n);
  }

  lemma {:induction false} CallKeepsInv(s: State, t: nat, c: Choice)
    requires Inv(s) && t < |s.threads| && Resting(s.threads[t])
    ensures Inv(Step(s, t, c))
  {
    if c.Get? {
      assert s.free == [] || LinkOk(s.next, s.free, 0);
      GotoKeepsInv(s, t, Test(s.head));
    } else if c.Release? && c.node in s.outstanding {
      var s' := Step(s, t, c);
      assert Holds(s', t, c.node);
      assert forall u: nat, n: nat | n != c.node :: Holds(s', u, n) <==> Holds(s, u, n);
      assert forall n: nat | n != c.node :: Held(s', n) <==> Held(s, n);
      forall u: nat | Holds(s', u, c.node) ensures u == t {
        if u != t { assert Holds(s, u, c.node); }
      }
      forall u: nat | u < |s'.threads| ensures ThreadInv(s', s'.threads[u]) {
        assert ThreadInv(s, s.threads[u]);
      }
    }
  }

  // ABA: the link that the CAS installs is the popped node's link at that moment.
  lemma {:induction false} PopKeepsInv(s: State, t: nat, c: Choice)
    requires Inv(s) && t < |s.threads| && s.threads[t].PopRead?
    ensures Inv(Step(s, t, c))
  {
    assert ThreadInv(s, s.threads[t]);
    var s' := Step(s, t, c);
    if s'.head == s.head {
      assert s.free == [] || LinkOk(s.next, s.free, 0);
      GotoKeepsInv(s, t, s'.threads[t]);
    } else {
      var n := s.free[0];
      assert LinkOk(s.next, s.free, 0);
      assert s.free == [n] + s'.free;
      forall i: nat | i < |s'.free| ensures LinkOk(s'.next, s'.free, i) {
        assert LinkOk(s.next, s.free, i + 1);
      }
      SameHolders(s, s');
      forall m: nat ensures m < |s'.next| <==> m in s'.free || m in s'.outstanding || Held(s', m) {
        assert m in s.free <==> m == n || m in s'.free;
        assert m in s'.outstanding <==> m == n || m in s.outstanding;
      }
      forall u: nat | u < |s'.threads| ensures ThreadInv(s', s'.threads[u]) {
        assert ThreadInv(s, s.threads[u]);
      }
    }
  }

  lemma {:induction false} LinkKeepsInv(s: State, t: nat, c: Choice)
    requires Inv(s) && t < |s.threads| && s.threads[t].PushLoaded?
    ensures Inv(Step(s, t, c))
  {
    var s' := Step(s, t, c);
    assert ThreadInv(s, s.threads[t]);
    var node := s.threads[t].node;
    assert Holds(s, t, node);
    SameHolders(s, s');
    forall i: nat | i < |s'.free| ensures LinkOk(s'.next, s'.free, i) {
      assert LinkOk(s.next, s.free, i);
      assert s.free[i] in s.free;
    }
    if s.head.node.Some? { assert s.free[0] in s.free; }
    forall u: nat | u < |s'.threads| ensures ThreadInv(s', s'.threads[u]) {
      assert ThreadInv(s, s.threads[u]);
      if u != t && Pushing(s.threads[u]) { assert Holds(s, u, s.threads[u].node); }
    }
  }

  lemma {:induction false} PushKeepsInv(s: State, t: nat, c: Choice)
    requires Inv(s) && t < |s.threads| && s.threads[t].PushLinked?
    ensures Inv(Step(s, t, c))
  {
    var s' := Step(s, t, c);
    assert ThreadInv(s, s.threads[t]);
    var node := s.threads[t].node;
    assert Holds(s, t, node);
    if s'.head == s.head {
      GotoKeepsInv(s, t, s'.threads[t]);
    } else {
      assert forall u: nat, n: nat | u != t :: Holds(s', u, n) <==> Holds(s, u, n);
      assert forall n: nat :: Held(s', n) <==> Held(s, n) && n != node;
      forall i, j | 0 <= i < j < |s'.free| ensures s'.free[i] != s'.free[j] {
        assert s.free[j - 1] in s.free && node !in s.free;
      }
      forall i: nat | i < |s'.free| ensures LinkOk(s'.next, s'.free, i) {
        assert i == 0 || LinkOk(s.next, s.free, i - 1);
      }
      forall u: nat | u < |s'.threads| ensures ThreadInv(s', s'.threads[u]) {
        assert ThreadInv(s, s.threads[u]);
      }
    }
  }

  // ---- Main results ----

  // In every interleaving the links spell an acyclic list, every node of the
  // arena has exactly one owner, and whoever is about to compare-and-swap an
  // unchanged head would install the true successor.
  lemma {:induction false} RunKeepsInv(s: State, schedule: seq<(nat, Choice)>)
    requires Inv(s)
    ensures Inv(Run(s, schedule))
    decreases |schedule|
  {
    if schedule != [] {
      StepKeepsInv(s, schedule[0].0, schedule[0].1);
      RunKeepsInv(Step(s, schedule[0].0, schedule[0].1), schedule[1..]);
    }
  }

  lemma {:induction false} ArenaConservedInEveryRun(capacity: nat, threads: nat, schedule: seq<(nat, Choice)>)
    requires capacity >= 1
    ensures var s := Run(Init(capacity, threads), schedule);
      && Chain(s.next, s.free) && s.head.node == (if s.free == [] then None else Some(s.free[0]))
      && (forall n: nat :: n < capacity <==> n in s.free || n in s.outstanding || Held(s, n))
      && (forall n: nat | n in s.outstanding :: n !in s.free && !Held(s, n))
      && (forall n: nat | n in s.free :: !Held(s, n))
      && (forall t: nat, u: nat, n: nat | Holds(s, t, n) && Holds(s, u, n) :: t == u)
      && (forall t | 0 <= t < |s.threads| && s.threads[t].PopRead? && s.threads[t].oldHead == s.head ::
            s.free != [] && s.threads[t].oldHead.node == Some(s.free[0])
            && s.threads[t].next == if |s.free| == 1 then None else Some(s.free[1]))
  {
    InitInv(capacity, threads);
    RunKeepsInv(Init(capacity, threads), schedule);
    var s := Run(Init(capacity, threads), schedule);
    forall t | 0 <= t < |s.threads| && s.threads[t].PopRead? && s.threads[t].oldHead == s.head
      ensures s.free != [] && s.threads[t].oldHead.node == Some(s.free[0])
           && s.threads[t].next == if |s.free| == 1 then None else Some(s.free[1])
    {
      assert ThreadInv(s, s.threads[t]);
      assert LinkOk(s.next, s.free, 0);
    }
  }

  // ---- Every call is answered for what it was ----

  // The operation that a thread is in, if any.
  function Doing(at: Thread): (call: Option<Choice>) {
    match at
    case PopLoaded(_) => Some(Get)
    case PopRead(_, _) => Some(Get)
    case PushLoaded(n, _) => Some(Release(n))
    case PushLinked(n, _) => Some(Release(n))
    case _ => None
  }

  // Only a node that is outstanding can be released; a Get is always possible.
  predicate Possible(s: State, c: Choice) {
    c.Get? || (c.Release? && c.node in s.outstanding)
  }

  predicate HasAnswer(at: Thread) {
    at.Returned? || at.Released?
  }

  // A thread that rests enters the operation it calls, or gets its answer at once if the
  // pool is empty.  It stays in that operation, for the same node, until that answers, and
  // no other thread moves.
  lemma {:induction false} CallStays(s: State, t: nat, c: Choice)
    requires Inv(s) && t < |s.threads|
    ensures var at, at' := s.threads[t], Step(s, t, c).threads[t];
      match Doing(at)
      case None =>
        if !Possible(s, c) then Step(s, t, c) == s
        else Doing(at') == Some(c) || (c.Get? && s.free == [] && at' == Returned(None))
      case Some(Get) => at'.Returned? || Doing(at') == Some(Get)
      case Some(Release(n)) => at' == Released(n) || Doing(at') == Some(Release(n))
      case Some(_) => false
    ensures forall u | 0 <= u < |s.threads| && u != t :: Step(s, t, c).threads[u] == s.threads[u]
  {
    assert ThreadInv(s, s.threads[t]);
    assert LinkOk(s.next, s.free, 0) || s.free == [];
  }

  // What each thread has called last, as the schedule says.
  function Called(s: State, calls: seq<Choice>, t: nat, c: Choice): (calls': seq<Choice>)
    requires |calls| == |s.threads|
    ensures |calls'| == |calls|
  {
    if t < |calls| && Doing(s.threads[t]).None? && Possible(s, c) then calls[t := c] else calls
  }

  ghost predicate Told(s: State, calls: seq<Choice>) {
    |calls| == |s.threads|
    && forall t | 0 <= t < |calls| :: Doing(s.threads[t]).Some? ==> Doing(s.threads[t]) == Some(calls[t])
  }

  lemma {:induction false} StepKeepsTold(s: State, calls: seq<Choice>, t: nat, c: Choice)
    requires Inv(s) && Told(s, calls)
    ensures Told(Step(s, t, c), Called(s, calls, t, c))
  {
    if t < |s.threads| {
      CallStays(s, t, c);
      hide Step, Doing, Inv;
    }
  }

  // ---- Linearizability ----

  // A call and its answer: the node that a Get found, if any, or the one released.
  datatype Operation = Operation(call: Choice, answer: Thread)

  // The abstract pool is a stack of nodes; an answer of nullptr sees it empty.
  function Apply(stack: seq<nat>, operation: Operation): (r: Option<seq<nat>>) {
    match operation
    case Operation(Get, Returned(Some(n))) => if stack != [] && stack[0] == n then Some(stack[1..]) else None
    case Operation(Get, Returned(None)) => if stack == [] then Some(stack) else None
    case Operation(Release(n), Released(m)) => if m == n then Some([n] + stack) else None
    case _ => None
  }

  // The stack after some operations, or nothing if one of them got another answer.
  function Replay(stack: seq<nat>, operations: seq<Operation>): (r: Option<seq<nat>>)
    decreases |operations|
  {
    if operations == [] then Some(stack) else
    match Apply(stack, operations[0])
    case None => None
    case Some(stack') => Replay(stack', operations[1..])
  }

  // Whether an answer comes with a node that has moved.
  predicate Moves(answer: Thread) {
    answer != Returned(None)
  }

  function NodesMoved(operations: seq<Operation>): (n: nat) {
    if operations == [] then 0 else (if Moves(operations[0].answer) then 1 else 0) + NodesMoved(operations[1..])
  }

  // Whether this step answers thread t.
  predicate Answers(s: State, t: nat, c: Choice) {
    t < |s.threads| && HasAnswer(Step(s, t, c).threads[t]) && (Doing(s.threads[t]).Some? || c.Get?)
  }

  // The operations of a run, each with what was called, at the step that answers it.
  function Answered(s: State, calls: seq<Choice>, schedule: seq<(nat, Choice)>): (operations: seq<Operation>)
    requires |calls| == |s.threads|
    decreases |schedule|
  {
    if schedule == [] then [] else
    var (t, c) := schedule[0];
    var s', calls' := Step(s, t, c), Called(s, calls, t, c);
    var rest := Answered(s', calls', schedule[1..]);
    if Answers(s, t, c) then [Operation(calls'[t], s'.threads[t])] + rest else rest
  }

  lemma {:induction false} StepRefinesStack(s: State, calls: seq<Choice>, t: nat, c: Choice)
    requires Inv(s) && Told(s, calls) && t < |s.threads|
    ensures var s', calls' := Step(s, t, c), Called(s, calls, t, c);
      if Answers(s, t, c)
      then && Apply(s.free, Operation(calls'[t], s'.threads[t])) == Some(s'.free)
           && s'.head.count == s.head.count + if Moves(s'.threads[t]) then 1 else 0
      else s'.free == s.free && s'.head.count == s.head.count
  {
    assert ThreadInv(s, s.threads[t]);
    CallStays(s, t, c);
  }

  // A sequential stack of nodes that is called in the order of the answers gives the same
  // answers and ends up as the free list.  The count of the head tells how many nodes have
  // been taken and given back.
  lemma {:induction false} RunRefinesStack(s: State, calls: seq<Choice>, schedule: seq<(nat, Choice)>)
    requires Inv(s) && Told(s, calls)
    ensures Replay(s.free, Answered(s, calls, schedule)) == Some(Run(s, schedule).free)
    ensures Run(s, schedule).head.count == s.head.count + NodesMoved(Answered(s, calls, schedule))
    decreases |schedule|
  {
    if schedule != [] {
      var (t, c) := schedule[0];
      var s', calls' := Step(s, t, c), Called(s, calls, t, c);
      StepKeepsInv(s, t, c);
      StepKeepsTold(s, calls, t, c);
      RunRefinesStack(s', calls', schedule[1..]);
      if t < |s.threads| {
        StepRefinesStack(s, calls, t, c);
        hide Step, Inv, Apply, Told, Called, Run, Answers;
        var rest := Answered(s', calls', schedule[1..]);
        if Answers(s, t, c) {
          assert ([Operation(calls'[t], s'.threads[t])] + rest)[1..] == rest;
        }
      }
    }
  }

  // ---- Every operation finishes when it runs alone, wherever it stands ----

  function Alone(t: nat, steps: nat): (schedule: seq<(nat, Choice)>) {
    if steps == 0 then [] else [(t, Continue(false))] + Alone(t, steps - 1)
  }

  lemma {:induction false} AloneOnce(s: State, t: nat, n: nat)
    ensures Run(s, Alone(t, n + 1)) == Run(Step(s, t, Continue(false)), Alone(t, n))
  {
    assert Alone(t, n + 1)[1..] == Alone(t, n);
  }

  // How many accesses are left: more if the head has changed since it was loaded.
  function Rank(s: State, at: Thread): (rank: nat) {
    match at
    case PopLoaded(h) => if h == s.head then 2 else 4
    case PopRead(h, _) => if h == s.head then 1 else 3
    case PushLoaded(_, h) => if h == s.head then 2 else 4
    case PushLinked(_, h) => if h == s.head then 1 else 3
    case _ => 0
  }

  // A Get that runs alone from any of its accesses on takes the top node, whatever it has
  // loaded before; none if there is none.
  lemma {:induction false} GetFinishes(s: State, t: nat) returns (n: nat)
    requires Inv(s) && t < |s.threads| && Doing(s.threads[t]) == Some(Get)
    ensures var s' := Run(s, Alone(t, n));
      && Inv(s')
      && if s.free == [] then s' == s.(threads := s.threads[t := Returned(None)])
         else && s'.threads == s.threads[t := Returned(Some(s.free[0]))] && s'.free == s.free[1..]
              && s'.outstanding == s.outstanding + {s.free[0]} && s'.next == s.next
    decreases Rank(s, s.threads[t])
  {
    var s1 := Step(s, t, Continue(false));
    assert ThreadInv(s, s.threads[t]);
    assert LinkOk(s.next, s.free, 0) || s.free == [];
    StepKeepsInv(s, t, Continue(false));
    CallStays(s, t, Continue(false));
    hide Inv, ThreadInv;
    var m := 0;
    if !s1.threads[t].Returned? {
      m := GetFinishes(s1, t);
    }
    AloneOnce(s, t, m);
    n := m + 1;
  }

  // A release that runs alone from any of its accesses on puts its node on top.
  lemma {:induction false} ReleaseFinishes(s: State, t: nat, node: nat) returns (n: nat)
    requires Inv(s) && t < |s.threads| && Doing(s.threads[t]) == Some(Release(node))
    ensures var s' := Run(s, Alone(t, n));
      && Inv(s') && s'.threads == s.threads[t := Released(node)]
      && s'.free == [node] + s.free && s'.outstanding == s.outstanding
    decreases Rank(s, s.threads[t])
  {
    var s1 := Step(s, t, Continue(false));
    assert ThreadInv(s, s.threads[t]);
    StepKeepsInv(s, t, Continue(false));
    CallStays(s, t, Continue(false));
    hide Inv, ThreadInv;
    var m := 0;
    if !s1.threads[t].Released? {
      m := ReleaseFinishes(s1, t, node);
    }
    AloneOnce(s, t, m);
    n := m + 1;
  }

  // From the call on: a Get alone takes the top node.
  lemma {:induction false} GetAlone(s: State, t: nat) returns (schedule: seq<(nat, Choice)>)
    requires Inv(s) && t < |s.threads| && Doing(s.threads[t]).None?
    ensures var s' := Run(s, schedule);
      && Inv(s')
      && if s.free == [] then s' == s.(threads := s.threads[t := Returned(None)])
         else && s'.threads == s.threads[t := Returned(Some(s.free[0]))] && s'.free == s.free[1..]
              && s'.outstanding == s.outstanding + {s.free[0]}
  {
    var s1 := Step(s, t, Get);
    StepKeepsInv(s, t, Get);
    CallStays(s, t, Get);
    assert s1 == s.(threads := s.threads[t := s1.threads[t]]);
    hide Inv;
    var n := 0;
    if Doing(s1.threads[t]).Some? {
      n := GetFinishes(s1, t);
    }
    schedule := [(t, Get)] + Alone(t, n);
    assert schedule[1..] == Alone(t, n);
  }

  // A release alone puts its node on top.
  lemma {:induction false} ReleaseAlone(s: State, t: nat, node: nat) returns (schedule: seq<(nat, Choice)>)
    requires Inv(s) && t < |s.threads| && Doing(s.threads[t]).None? && node in s.outstanding
    ensures var s' := Run(s, schedule);
      && Inv(s') && s'.threads == s.threads[t := Released(node)]
      && s'.free == [node] + s.free && s'.outstanding == s.outstanding - {node}
  {
    var s1 := Step(s, t, Release(node));
    StepKeepsInv(s, t, Release(node));
    CallStays(s, t, Release(node));
    var n := ReleaseFinishes(s1, t, node);
    hide Inv;
    schedule := [(t, Release(node))] + Alone(t, n);
    assert schedule[1..] == Alone(t, n);
  }

  // Taking a node and giving it back, alone, leaves the pool as it was.
  lemma {:induction false} GetThenRelease(s: State, t: nat) returns (schedule: seq<(nat, Choice)>)
    requires Inv(s) && t < |s.threads| && Doing(s.threads[t]).None? && s.free != []
    ensures var s' := Run(s, schedule);
      && Inv(s') && s'.free == s.free && s'.outstanding == s.outstanding
      && s'.threads == s.threads[t := Released(s.free[0])]
  {
    var node := s.free[0];
    assert node in s.free && node !in s.outstanding;
    hide Inv, Step;
    var get := GetAlone(s, t);
    var s1 := Run(s, get);
    var release := ReleaseAlone(s1, t, node);
    schedule := get + release;
    RunAppend(s, get, release);
    assert s.outstanding + {node} - {node} == s.outstanding;
  }

  lemma {:induction false} RunAppend(s: State, a: seq<(nat, Choice)>, b: seq<(nat, Choice)>)
    ensures Run(s, a + b) == Run(Run(s, a), b)
    decreases |a|
  {
    if a == [] {
      assert a + b == b;
    } else {
      assert (a + b)[1..] == a[1..] + b;
      RunAppend(Step(s, a[0].0, a[0].1), a[1..], b);
    }
  }

  // ---- The object, changed in place one access at a time ----

  class ObjectPool {
    const next: array<Option<nat>>
    var head: Head
    var threads: seq<Thread>
    var outstanding: set<nat>  // the nodes whose shared pointers have not been dropped
    ghost var free: seq<nat>

    ghost function Snapshot(): (s: State)
      reads this, next
    {
      State(next[..], head, threads, outstanding, free)
    }

    constructor (capacity: nat, threadCount: nat)
      requires capacity >= 1
      ensures fresh(next) && Snapshot() == Init(capacity, threadCount) && Inv(Snapshot())
    {
      var links: array<Option<nat>> := new Option<nat>[capacity];
      next := links;
      head := Head(0, Some(0));
      threads := Init(capacity, threadCount).threads;
      outstanding, free := {}, Init(capacity, threadCount).free;
      new;
      for i := 0 to capacity - 1
        modifies links
        invariant forall k | 0 <= k < i :: links[k] == Some(k + 1)
      {
        links[i] := Some(i + 1);
      }
      links[capacity - 1] := None;
      InitInv(capacity, threadCount);
      assert next[..] == Init(capacity, threadCount).next;
    }

    method Advance(t: nat, c: Choice)
      requires Inv(Snapshot())
      modifies this, next
      ensures Inv(Snapshot()) && Snapshot() == Step(old(Snapshot()), t, c)
    {
      StepKeepsInv(Snapshot(), t, c);
      if t < |threads| {
        match threads[t] {
          case PopLoaded(h) => FindFreeHead(t, c);
          case PopRead(_, _) => FindFreeHead(t, c);
          case PushLoaded(_, _) => ReleaseObject(t, c);
          case PushLinked(_, _) => ReleaseObject(t, c);
          case _ => Call(t, c);
        }
      }
    }

    // The load of free_head_ that starts either loop.
    method Call(t: nat, c: Choice)
      requires t < |threads| && Resting(threads[t])
      modifies this
      ensures Snapshot() == Step(old(Snapshot()), t, c)
    {
      match c {
        case Get =>
          threads := threads[t := if head.node.None? then Returned(None) else PopLoaded(head)];
        case Release(n) =>
          if n in outstanding {
            outstanding := outstanding - {n};
            threads := threads[t := PushLoaded(n, head)];
          }
        case Continue(_) =>
      }
    }

    method FindFreeHead(t: nat, c: Choice)
      requires t < |threads| && (threads[t].PopLoaded? || threads[t].PopRead?)
      requires threads[t].oldHead.node.Some? && threads[t].oldHead.node.value < next.Length
      modifies this
      ensures Snapshot() == Step(old(Snapshot()), t, c)
    {
      match threads[t] {
        case PopLoaded(h) =>
          threads := threads[t := PopRead(h, next[h.node.value])];
        case PopRead(h, successor) =>
          if c.Continue? && !c.spurious && head == h {
            head := Head(h.count + 1, successor);
            outstanding := outstanding + {h.node.value};
            free := if free == [] then [] else free[1..];
            threads := threads[t := Returned(h.node)];
          } else {
            threads := threads[t := if head.node.None? then Returned(None) else PopLoaded(head)];
          }
      }
    }

    method ReleaseObject(t: nat, c: Choice)
      requires t < |threads| && (threads[t].PushLoaded? || threads[t].PushLinked?) && threads[t].node < next.Length
      modifies this, next
      ensures Snapshot() == Step(old(Snapshot()), t, c)
    {
      match threads[t] {
        case PushLoaded(n, h) =>
          next[n] := h.node;
          threads := threads[t := PushLinked(n, h)];
        case PushLinked(n, h) =>
          if c.Continue? && !c.spurious && head == h {
            head := Head(h.count + 1, Some(n));
            free := [n] + free;
            threads := threads[t := Released(n)];
          } else {
            threads := threads[t := PushLoaded(n, head)];
          }
      }
    }
  }
}
