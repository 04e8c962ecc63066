// cyber/base/atomic_hash_map.h: a fixed table of sorted linked lists that only
// grow.  Entries are numbered: entry b < tableSize is the sentinel head of bucket
// b.  One step is one atomic access; a stored value carries the stamp of its
// allocation, which is what the compare-and-swap on a value pointer compares.
module AtomicHashMap {
  import opened Wrappers

  datatype Entry<V> = Entry(key: nat, stamp: nat, value: V, next: Option<nat>)

  // What a thread is doing; spare is the entry that Insert has allocated.
  datatype Operation<V> = Has(key: nat) | Get(key: nat) | Set(key: nat, value: V, spare: Option<nat>)

  datatype Answer<V> = Yes | No | Got(value: V) | Stored

  datatype Thread<V> =
    | Idle
    | Seeking(op: Operation<V>, prev: nat)                        // the next link of prev is loaded next
    | Reading(op: Operation<V>, target: nat)                      // Get: the value is loaded next
    | Comparing(op: Operation<V>, target: nat)                    // Insert: the old value is loaded next
    | Replacing(op: Operation<V>, target: nat, stamp: nat)        // Insert: the CAS on the value is next
    | Preparing(op: Operation<V>, prev: nat, successor: Option<nat>) // Insert: the spare's link is stored next
    | Linking(op: Operation<V>, prev: nat, successor: Option<nat>)   // Insert: the CAS on prev's link is next
    | Returned(op: Operation<V>, answer: Answer<V>)

  datatype Choice<V> = CallHas(key: nat) | CallGet(key: nat) | CallSet(key: nat, value: V) | Continue

  // index is a history variable: the entry that was linked for each key.
  datatype State<V> = State(
    tableSize: nat, entries: seq<Entry<V>>, nextStamp: nat, threads: seq<Thread<V>>, index: map<nat, nat>)

  // key & (TableSize - 1), as TableSize is a power of two.
  function Bucket(tableSize: nat, key: nat): (b: nat)
    requires tableSize > 0
    ensures b < tableSize
  {
    key % tableSize
  }

  predicate Sized<V>(s: State<V>) { 0 < s.tableSize <= |s.entries| }

  function Goto<V>(s: State<V>, t: nat, at: Thread<V>): (s': State<V>)
    requires t < |s.threads|
  {
    s.(threads := s.threads[t := at])
  }

  function Start<V>(s: State<V>, t: nat, op: Operation<V>): (s': State<V>)
    requires Sized(s) && t < |s.threads|
  {
    Goto(s, t, Seeking(op, Bucket(s.tableSize, op.key)))
  }

  // The traversal has stopped at a larger key or at the end.
  function NotFound<V>(s: State<V>, t: nat, op: Operation<V>, prev: nat, target: Option<nat>): (s': State<V>)
    requires t < |s.threads|
  {
    match op
    case Has(_) => Goto(s, t, Returned(op, No))
    case Get(_) => Goto(s, t, Returned(op, No))
    case Set(key, value, Some(_)) => Goto(s, t, Preparing(op, prev, target))
    case Set(key, value, None) =>
      Goto(s, t, Preparing(Set(key, value, Some(|s.entries|)), prev, target)).(
        entries := s.entries + [Entry(key, s.nextStamp, value, None)], nextStamp := s.nextStamp + 1)
  }

  function Found<V>(s: State<V>, t: nat, op: Operation<V>, target: nat): (s': State<V>)
    requires t < |s.threads|
  {
    match op
    case Has(_) => Goto(s, t, Returned(op, Yes))
    case Get(_) => Goto(s, t, Reading(op, target))
    case Set(_, _, _) => Goto(s, t, Comparing(op, target))
  }

  function Seek<V>(s: State<V>, t: nat, op: Operation<V>, prev: nat): (s': State<V>)
    requires t < |s.threads|
  {
    if prev >= |s.entries| then s else
    match s.entries[prev].next
    case None => NotFound(s, t, op, prev, None)
    case Some(target) =>
      if target >= |s.entries| then s
      else if s.entries[target].key == op.key then Found(s, t, op, target)
      else if s.entries[target].key > op.key then NotFound(s, t, op, prev, Some(target))
      else Goto(s, t, Seeking(op, target))
  }

  function Step<V>(s: State<V>, t: nat, c: Choice<V>): (s': State<V>)
    requires Sized(s)
    ensures Sized(s') && |s'.threads| == |s.threads| && s'.tableSize == s.tableSize
  {
    if t >= |s.threads| then s else
    match s.threads[t]
    case Seeking(op, prev) => Seek(s, t, op, prev)
    case Reading(op, target) =>
      if target < |s.entries| then Goto(s, t, Returned(op, Got(s.entries[target].value))) else s
    case Comparing(op, target) =>
      if target < |s.entries| then Goto(s, t, Replacing(op, target, s.entries[target].stamp)) else s
    case Replacing(op, target, stamp) =>
      if target >= |s.entries| || !op.Set? then s
      else if s.entries[target].stamp != stamp then Start(s, t, op)
      else Goto(s, t, Returned(op, Stored)).(nextStamp := s.nextStamp + 1,
             entries := s.entries[target := s.entries[target].(stamp := s.nextStamp, value := op.value)])
    case Preparing(op, prev, target) =>
      if !op.Set? || op.spare.None? || op.spare.value >= |s.entries| then s
      else Goto(s, t, Linking(op, prev, target)).(
             entries := s.entries[op.spare.value := s.entries[op.spare.value].(next := target)])
    case Linking(op, prev, target) =>
      if !op.Set? || op.spare.None? || prev >= |s.entries| then s
      else if s.entries[prev].next != target then Start(s, t, op)
      else Goto(s, t, Returned(op, Stored)).(index := s.index[op.key := op.spare.value],
             entries := s.entries[prev := s.entries[prev].(next := op.spare)])
    case _ =>
      match c
      case CallHas(k) => Start(s, t, Has(k))
      case CallGet(k) => Start(s, t, Get(k))
      case CallSet(k, v) => Start(s, t, Set(k, v, None))
      case Continue => s
  }

  function Run<V>(s: State<V>, schedule: seq<(nat, Choice<V>)>): (s': State<V>)
    requires Sized(s)
    ensures Sized(s') && |s'.threads| == |s.threads| && s'.tableSize == s.tableSize
    decreases |schedule|
  {
    if schedule == [] then s
    else Run(Step(s, schedule[0].0, schedule[0].1), schedule[1..])
  }

  function Init<V>(tableSize: nat, threads: nat, zero: V): (s: State<V>) {
    State(tableSize, seq(tableSize, _ => Entry(0, 0, zero, None)), 1, seq(threads, _ => Idle), map[])
  }

  // ---- The invariant ----

  // Entry e is in the list of its bucket.
  ghost predicate Linked<V>(s: State<V>, e: nat)
    requires Sized(s)
  {
    e < s.tableSize || (e < |s.entries| && s.entries[e].key in s.index && s.index[s.entries[e].key] == e)
  }

  ghost function Home<V>(s: State<V>, e: nat): (b: nat)
    requires Sized(s) && e < |s.entries|
  {
    if e < s.tableSize then e else Bucket(s.tableSize, s.entries[e].key)
  }

  // Entry e lies before key k: it is a sentinel or has a smaller key.
  ghost predicate Before<V>(s: State<V>, e: nat, k: nat)
    requires Sized(s) && e < |s.entries|
  {
    e < s.tableSize || s.entries[e].key < k
  }

  // The link of e leads to the smallest key of its bucket behind it, if any.
  ghost predicate NextOk<V>(s: State<V>, e: nat)
    requires Sized(s) && e < |s.entries|
  {
    var next := s.entries[e].next;
    && (next.Some? ==> && s.tableSize <= next.value < |s.entries| && Linked(s, next.value)
                       && Home(s, next.value) == Home(s, e) && Before(s, e, s.entries[next.value].key))
    && (forall k | k in s.index && Bucket(s.tableSize, k) == Home(s, e) && Before(s, e, k) ::
          next.Some? && next.value < |s.entries| && s.entries[next.value].key <= k)
  }

  ghost predicate Sorted<V>(s: State<V>) {
    && Sized(s)
    && (forall k | k in s.index :: s.tableSize <= s.index[k] < |s.entries| && s.entries[s.index[k]].key == k)
    && (forall e: nat | e < |s.entries| && Linked(s, e) :: NextOk(s, e))
  }

  ghost predicate Spare<V>(s: State<V>, t: nat, e: nat) {
    && t < |s.threads| && !s.threads[t].Idle? && !s.threads[t].Returned?
    && s.threads[t].op.Set? && s.threads[t].op.spare == Some(e)
  }

  ghost predicate SpareOk<V>(s: State<V>, op: Operation<V>)
    requires Sized(s)
  {
    op.Set? && op.spare.Some? ==>
      var e := op.spare.value;
      s.tableSize <= e < |s.entries| && !Linked(s, e) && s.entries[e].key == op.key && s.entries[e].value == op.value
  }

  // prev is a place where the traversal for op.key may stand.
  ghost predicate Place<V>(s: State<V>, op: Operation<V>, prev: nat)
    requires Sized(s)
  {
    prev < |s.entries| && Linked(s, prev) && Home(s, prev) == Bucket(s.tableSize, op.key) && Before(s, prev, op.key)
  }

  ghost predicate Holder<V>(s: State<V>, op: Operation<V>, target: nat) {
    op.key in s.index && s.index[op.key] == target
  }

  ghost predicate ThreadInv<V>(s: State<V>, at: Thread<V>)
    requires Sized(s)
  {
    match at
    case Idle => true
    case Returned(_, _) => true
    case Seeking(op, prev) => SpareOk(s, op) && Place(s, op, prev)
    case Reading(op, target) => op.Get? && Holder(s, op, target)
    case Comparing(op, target) => op.Set? && SpareOk(s, op) && Holder(s, op, target)
    case Replacing(op, target, _) => op.Set? && SpareOk(s, op) && Holder(s, op, target)
    case Preparing(op, prev, target) =>
      && op.Set? && op.spare.Some? && SpareOk(s, op) && Place(s, op, prev)
      && (target.Some? ==> target.value < |s.entries| && op.key < s.entries[target.value].key)
    case Linking(op, prev, target) =>
      && op.Set? && op.spare.Some? && SpareOk(s, op) && Place(s, op, prev)
      && (target.Some? ==> target.value < |s.entries| && op.key < s.entries[target.value].key)
      && s.entries[op.spare.value].next == target
  }

  ghost predicate Inv<V>(s: State<V>) {
    && Sorted(s)
    && (forall t | 0 <= t < |s.threads| :: ThreadInv(s, s.threads[t]))
    && (forall t: nat, u: nat, e: nat | Spare(s, t, e) && Spare(s, u, e) :: t == u)
  }

  // The abstract map.
  function Contents<V>(s: State<V>): (m: map<nat, V>)
    requires forall k | k in s.index :: s.index[k] < |s.entries|
    ensures m.Keys == s.index.Keys
  {
    map k | k in s.index :: s.entries[s.index[k]].value
  }

  lemma {:induction false} InitInv<V>(tableSize: nat, threads: nat, zero: V)
    requires tableSize > 0
    ensures Inv(Init(tableSize, threads, zero))
  {
  }

  // Nothing but the stepping thread's place changes.
  lemma {:induction false} GotoKeepsInv<V>(s: State<V>, t: nat, at: Thread<V>)
    requires Inv(s) && t < |s.threads| && ThreadInv(s, at)
    requires forall e: nat :: Spare(Goto(s, t, at), t, e) ==> Spare(s, t, e)
    ensures Inv(Goto(s, t, at))
  {
    var s' := Goto(s, t, at);
    assert forall u: nat, e: nat | u != t :: Spare(s', u, e) <==> Spare(s, u, e);
    assert forall e: nat :: Linked(s', e) <==> Linked(s, e);
    forall e: nat | e < |s'.entries| && Linked(s', e) ensures NextOk(s', e) {
      assert NextOk(s, e);
    }
    forall u: nat | u < |s'.threads| ensures ThreadInv(s', s'.threads[u]) {
      assert ThreadInv(s, s'.threads[u]);
    }
  }

  lemma {:induction false} StepKeepsInv<V>(s: State<V>, t: nat, c: Choice<V>)
    requires Inv(s)
    ensures Inv(Step(s, t, c))
  {
    if t < |s.threads| {
      var s' := Step(s, t, c);
      assert ThreadInv(s, s.threads[t]);
      match s.threads[t]
      case Seeking(op, prev) => SeekKeepsInv(s, t, op, prev);
      case Replacing(_, _, _) => ReplaceKeepsInv(s, t, c);
      case Preparing(_, _, _) => PrepareKeepsInv(s, t, c);
      case Linking(_, _, _) => LinkKeepsInv(s, t, c);
      case _ => GotoKeepsInv(s, t, s'.threads[t]);
    }
  }

  // Where a traversal goes from prev, unless it allocates an entry there.
  lemma {:induction false} SeekIsGoto<V>(s: State<V>, t: nat, op: Operation<V>, prev: nat)
    requires Sorted(s) && t < |s.threads| && ThreadInv(s, Seeking(op, prev))
    ensures var s', target := Seek(s, t, op, prev), s.entries[prev].next;
      if op.Set? && op.spare.None? && s'.threads[t].Preparing?
      then && s' == NotFound(s, t, op, prev, target)
           && (target.Some? ==> target.value < |s.entries| && op.key < s.entries[target.value].key)
      else && s' == Goto(s, t, s'.threads[t]) && ThreadInv(s, s'.threads[t])
           && (forall e: nat :: Spare(s', t, e) ==> op.Set? && op.spare == Some(e))
  {
    assert NextOk(s, prev);
  }

  lemma {:induction false} SeekKeepsInv<V>(s: State<V>, t: nat, op: Operation<V>, prev: nat)
    requires Inv(s) && t < |s.threads| && s.threads[t] == Seeking(op, prev)
    ensures Inv(Seek(s, t, op, prev))
  {
    assert ThreadInv(s, s.threads[t]);
    SeekIsGoto(s, t, op, prev);
    var s' := Seek(s, t, op, prev);
    hide Seek, NotFound, ThreadInv, Sorted;
    if op.Set? && op.spare.None? && s'.threads[t].Preparing? {
      AllocateKeepsInv(s, t, op, prev, s.entries[prev].next);
    } else {
      GotoKeepsInv(s, t, s'.threads[t]);
    }
  }

  lemma {:induction false} AllocateKeepsInv<V>(s: State<V>, t: nat, op: Operation<V>, prev: nat, target: Option<nat>)
    requires Inv(s) && t < |s.threads| && s.threads[t] == Seeking(op, prev) && op.Set? && op.spare.None?
    requires target.Some? ==> target.value < |s.entries| && op.key < s.entries[target.value].key
    ensures Inv(NotFound(s, t, op, prev, target))
  {
    assert ThreadInv(s, s.threads[t]);
    var s' := NotFound(s, t, op, prev, target);
    AllocateKeepsSorted(s, t, op, prev, target);
    hide NextOk;
    assert forall e: nat | e < |s.entries| :: s'.entries[e] == s.entries[e];
    assert forall e: nat | e < |s.entries| :: Linked(s', e) <==> Linked(s, e);
    assert !Linked(s', |s.entries|);
    forall u: nat, e: nat | u != t && Spare(s', u, e) ensures Spare(s, u, e) && e < |s.entries| {
      assert ThreadInv(s, s.threads[u]);
    }
    forall u: nat | u < |s'.threads| ensures ThreadInv(s', s'.threads[u]) {
      AllocateKeepsThread(s, t, op, prev, target, u);
    }
  }

  lemma {:induction false} AllocateKeepsThread<V>(s: State<V>, t: nat, op: Operation<V>, prev: nat, target: Option<nat>,
                                                  u: nat)
    requires Inv(s) && t < |s.threads| && s.threads[t] == Seeking(op, prev) && op.Set? && op.spare.None?
    requires u < |s.threads| && (target.Some? ==> target.value < |s.entries| && op.key < s.entries[target.value].key)
    ensures Sized(NotFound(s, t, op, prev, target))
    ensures ThreadInv(NotFound(s, t, op, prev, target), NotFound(s, t, op, prev, target).threads[u])
  {
    assert ThreadInv(s, s.threads[u]);
    var s' := NotFound(s, t, op, prev, target);
    if u == t {
      NewSpareIsOk(s, t, op, prev, target);
    } else {
      assert forall e: nat | e < |s.entries| :: s'.entries[e] == s.entries[e] && (Linked(s', e) <==> Linked(s, e));
      assert s'.threads[u] == s.threads[u];
      UndisturbedKeepsThread(s, s', s.threads[u]);
    }
  }

  lemma {:induction false} NewSpareIsOk<V>(s: State<V>, t: nat, op: Operation<V>, prev: nat, target: Option<nat>)
    requires Inv(s) && t < |s.threads| && s.threads[t] == Seeking(op, prev) && op.Set? && op.spare.None?
    requires target.Some? ==> target.value < |s.entries| && op.key < s.entries[target.value].key
    ensures Sized(NotFound(s, t, op, prev, target))
    ensures ThreadInv(NotFound(s, t, op, prev, target), NotFound(s, t, op, prev, target).threads[t])
  {
    assert ThreadInv(s, s.threads[t]);
    hide NextOk;
    var s' := NotFound(s, t, op, prev, target);
    assert !Linked(s', |s.entries|);
  }

  // What a step may change without disturbing a thread that stands at `at`: links and
  // values, but not of the entry the thread prepares, and the map may grow.
  ghost predicate Undisturbed<V>(s: State<V>, s': State<V>, at: Thread<V>)
    requires Sized(s)
  {
    && s'.tableSize == s.tableSize && |s.entries| <= |s'.entries|
    && (forall e: nat | e < |s.entries| :: s'.entries[e].key == s.entries[e].key && (Linked(s, e) ==> Linked(s', e)))
    && (forall k | k in s.index :: k in s'.index && s'.index[k] == s.index[k])
    && (!at.Idle? && !at.Returned? && at.op.Set? && at.op.spare.Some? && at.op.spare.value < |s.entries| ==>
          s'.entries[at.op.spare.value] == s.entries[at.op.spare.value] && !Linked(s', at.op.spare.value))
  }

  lemma {:induction false} UndisturbedKeepsThread<V>(s: State<V>, s': State<V>, at: Thread<V>)
    requires Sized(s) && ThreadInv(s, at) && Undisturbed(s, s', at)
    ensures Sized(s') && ThreadInv(s', at)
  {
    hide NextOk;
  }

  lemma {:induction false} AllocateKeepsSorted<V>(s: State<V>, t: nat, op: Operation<V>, prev: nat, target: Option<nat>)
    requires Inv(s) && t < |s.threads| && s.threads[t] == Seeking(op, prev) && op.Set? && op.spare.None?
    ensures Sorted(NotFound(s, t, op, prev, target))
  {
    hide ThreadInv, Spare;
    var s' := NotFound(s, t, op, prev, target);
    assert forall e: nat | e < |s.entries| :: s'.entries[e] == s.entries[e];
    assert forall e: nat | e < |s.entries| :: Linked(s', e) <==> Linked(s, e);
    assert !Linked(s', |s.entries|);
    forall e: nat | e < |s'.entries| && Linked(s', e) ensures NextOk(s', e) {
      assert NextOk(s, e);
    }
  }

  lemma {:induction false} ReplaceKeepsInv<V>(s: State<V>, t: nat, c: Choice<V>)
    requires Inv(s) && t < |s.threads| && s.threads[t].Replacing?
    ensures Inv(Step(s, t, c))
  {
    assert ThreadInv(s, s.threads[t]);
    var s' := Step(s, t, c);
    if s'.nextStamp == s.nextStamp {
      GotoKeepsInv(s, t, s'.threads[t]);
    } else {
      assert forall u: nat, e: nat | Spare(s', u, e) :: u != t && Spare(s, u, e);
      ReplaceKeepsSorted(s, t, c);
      forall u: nat | u < |s'.threads| ensures ThreadInv(s', s'.threads[u]) {
        if u != t { ReplaceKeepsOthers(s, t, c, u); }
      }
    }
  }

  lemma {:induction false} ReplaceKeepsSorted<V>(s: State<V>, t: nat, c: Choice<V>)
    requires Inv(s) && t < |s.threads| && s.threads[t].Replacing?
    ensures Sorted(Step(s, t, c))
  {
    hide ThreadInv;
    var s' := Step(s, t, c);
    assert forall e: nat :: Linked(s', e) <==> Linked(s, e);
    forall e: nat | e < |s'.entries| && Linked(s', e) ensures NextOk(s', e) {
      assert NextOk(s, e);
    }
  }

  lemma {:induction false} ReplaceKeepsOthers<V>(s: State<V>, t: nat, c: Choice<V>, u: nat)
    requires Inv(s) && t < |s.threads| && s.threads[t].Replacing? && u < |s.threads| && u != t
    ensures ThreadInv(Step(s, t, c), s.threads[u])
  {
    assert ThreadInv(s, s.threads[t]) && ThreadInv(s, s.threads[u]);
    hide NextOk;
    var s' := Step(s, t, c);
    assert forall e: nat :: Linked(s', e) <==> Linked(s, e);
    assert Linked(s, s.threads[t].target);
    assert Undisturbed(s, s', s.threads[u]);
    hide Step, ThreadInv;
    UndisturbedKeepsThread(s, s', s.threads[u]);
  }

  lemma {:induction false} PrepareKeepsInv<V>(s: State<V>, t: nat, c: Choice<V>)
    requires Inv(s) && t < |s.threads| && s.threads[t].Preparing?
    ensures Inv(Step(s, t, c))
  {
    var s' := Step(s, t, c);
    PrepareKeepsSorted(s, t, c);
    assert forall u: nat, e: nat :: Spare(s', u, e) <==> Spare(s, u, e);
    forall u: nat | u < |s'.threads| ensures ThreadInv(s', s'.threads[u]) {
      PrepareKeepsThread(s, t, c, u);
    }
  }

  lemma {:induction false} PrepareKeepsSorted<V>(s: State<V>, t: nat, c: Choice<V>)
    requires Inv(s) && t < |s.threads| && s.threads[t].Preparing?
    ensures Sorted(Step(s, t, c))
  {
    assert ThreadInv(s, s.threads[t]);
    hide ThreadInv;
    var s' := Step(s, t, c);
    assert forall e: nat :: Linked(s', e) <==> Linked(s, e);
    forall e: nat | e < |s'.entries| && Linked(s', e) ensures NextOk(s', e) {
      assert NextOk(s, e);
    }
  }

  lemma {:induction false} PrepareKeepsThread<V>(s: State<V>, t: nat, c: Choice<V>, u: nat)
    requires Inv(s) && t < |s.threads| && s.threads[t].Preparing? && u < |s.threads|
    ensures ThreadInv(Step(s, t, c), Step(s, t, c).threads[u])
  {
    assert ThreadInv(s, s.threads[t]) && ThreadInv(s, s.threads[u]);
    var mine := s.threads[t].op.spare.value;
    assert Spare(s, t, mine);
    hide NextOk, Sorted;
    var s' := Step(s, t, c);
    assert forall e: nat :: Linked(s', e) <==> Linked(s, e);
    if u != t {
      var at := s.threads[u];
      assert s'.threads[u] == at;
      if !at.Idle? && !at.Returned? && at.op.Set? && at.op.spare.Some? { assert Spare(s, u, at.op.spare.value); }
      assert Undisturbed(s, s', at);
      hide Step, ThreadInv;
      UndisturbedKeepsThread(s, s', at);
    }
  }

  lemma {:induction false} LinkKeepsInv<V>(s: State<V>, t: nat, c: Choice<V>)
    requires Inv(s) && t < |s.threads| && s.threads[t].Linking?
    ensures Inv(Step(s, t, c))
  {
    assert ThreadInv(s, s.threads[t]);
    var s' := Step(s, t, c);
    if s.entries[s.threads[t].prev].next != s.threads[t].successor {
      GotoKeepsInv(s, t, s'.threads[t]);
    } else {
      LinkKeepsSorted(s, t, c);
      assert forall u: nat, e: nat | Spare(s', u, e) :: u != t && Spare(s, u, e);
      forall u: nat | u < |s'.threads| ensures ThreadInv(s', s'.threads[u]) {
        if u != t { LinkKeepsOthers(s, t, c, u); }
      }
    }
  }

  lemma {:induction false} LinkKeepsSorted<V>(s: State<V>, t: nat, c: Choice<V>)
    requires Inv(s) && t < |s.threads| && s.threads[t].Linking?
    requires s.threads[t].prev < |s.entries| && s.entries[s.threads[t].prev].next == s.threads[t].successor
    ensures Sorted(Step(s, t, c))
  {
    var s' := Step(s, t, c);
    assert ThreadInv(s, s.threads[t]);
    LinkedAfterLink(s, t, c);
    forall e: nat | e < |s'.entries| && Linked(s', e) ensures NextOk(s', e) {
      LinkKeepsNextOk(s, t, c, e);
    }
  }

  lemma {:induction false} LinkKeepsOthers<V>(s: State<V>, t: nat, c: Choice<V>, u: nat)
    requires Inv(s) && t < |s.threads| && s.threads[t].Linking?
    requires s.threads[t].prev < |s.entries| && s.entries[s.threads[t].prev].next == s.threads[t].successor
    requires u < |s.threads| && u != t
    ensures ThreadInv(Step(s, t, c), s.threads[u])
  {
    assert ThreadInv(s, s.threads[t]) && ThreadInv(s, s.threads[u]);
    LinkedAfterLink(s, t, c);
    assert Spare(s, t, s.threads[t].op.spare.value);
    var at := s.threads[u];
    if !at.Idle? && !at.Returned? && at.op.Set? && at.op.spare.Some? { assert Spare(s, u, at.op.spare.value); }
    hide NextOk, Sorted;
    assert Undisturbed(s, Step(s, t, c), at);
    hide Step, ThreadInv;
    UndisturbedKeepsThread(s, Step(s, t, c), at);
  }

  // A successful CAS on a link puts the spare entry, and no other, into its list.
  lemma {:induction false} LinkedAfterLink<V>(s: State<V>, t: nat, c: Choice<V>)
    requires Inv(s) && t < |s.threads| && s.threads[t].Linking?
    requires s.threads[t].prev < |s.entries| && s.entries[s.threads[t].prev].next == s.threads[t].successor
    ensures var s', op := Step(s, t, c), s.threads[t].op;
      && op.Set? && op.spare.Some? && op.key !in s.index
      && s'.index == s.index[op.key := op.spare.value]
      && (forall e: nat :: Linked(s', e) <==> Linked(s, e) || e == op.spare.value)
  {
    assert ThreadInv(s, s.threads[t]);
    assert NextOk(s, s.threads[t].prev);
  }

  lemma {:induction false} LinkKeepsNextOk<V>(s: State<V>, t: nat, c: Choice<V>, e: nat)
    requires Inv(s) && t < |s.threads| && s.threads[t].Linking?
    requires s.threads[t].prev < |s.entries| && s.entries[s.threads[t].prev].next == s.threads[t].successor
    requires e < |s.entries| && Linked(Step(s, t, c), e)
    ensures NextOk(Step(s, t, c), e)
  {
    assert ThreadInv(s, s.threads[t]);
    if e == s.threads[t].op.spare.value || e == s.threads[t].prev {
      LinkedEntriesNextOk(s, t, c);
    } else {
      LinkedAfterLink(s, t, c);
      assert NextOk(s, e);
      hide ThreadInv, Sorted;
      assert Step(s, t, c).entries[e] == s.entries[e];
    }
  }

  // The two entries that the CAS joins.
  lemma {:induction false} LinkedEntriesNextOk<V>(s: State<V>, t: nat, c: Choice<V>)
    requires Inv(s) && t < |s.threads| && s.threads[t].Linking?
    requires s.threads[t].prev < |s.entries| && s.entries[s.threads[t].prev].next == s.threads[t].successor
    ensures s.threads[t].op.Set? && s.threads[t].op.spare.Some? && s.threads[t].op.spare.value < |s.entries|
    ensures NextOk(Step(s, t, c), s.threads[t].prev) && NextOk(Step(s, t, c), s.threads[t].op.spare.value)
  {
    LinkedAfterLink(s, t, c);
    assert ThreadInv(s, s.threads[t]);
    assert NextOk(s, s.threads[t].prev);
    hide ThreadInv, Sorted;
    assert Step(s, t, c).entries[s.threads[t].op.spare.value].next == s.entries[s.threads[t].prev].next;
  }

  lemma {:induction false} RunKeepsInv<V>(s: State<V>, schedule: seq<(nat, Choice<V>)>)
    requires Inv(s)
    ensures Inv(Run(s, schedule))
    decreases |schedule|
  {
    if schedule != [] {
      StepKeepsInv(s, schedule[0].0, schedule[0].1);
      RunKeepsInv(Step(s, schedule[0].0, schedule[0].1), schedule[1..]);
    }
  }

  // ---- Main results ----

  // The keys behind entry e in its list, by following the links.
  ghost function KeysFrom<V>(s: State<V>, e: nat): (keys: seq<nat>)
    requires Sorted(s) && e < |s.entries| && Linked(s, e)
    decreases KeysBehind(s, e)
  {
    assert NextOk(s, e);
    match s.entries[e].next
    case None => []
    case Some(x) =>
      assert s.entries[x].key in KeysBehind(s, e) && s.entries[x].key !in KeysBehind(s, x);
      assert KeysBehind(s, x) <= KeysBehind(s, e);
      [s.entries[x].key] + KeysFrom(s, x)
  }

  ghost function KeysBehind<V>(s: State<V>, e: nat): (keys: set<nat>)
    requires Sized(s) && e < |s.entries|
  {
    set k | k in s.index && Bucket(s.tableSize, k) == Home(s, e) && Before(s, e, k)
  }

  lemma {:induction false} ListFromEntry<V>(s: State<V>, e: nat)
    requires Sorted(s) && e < |s.entries| && Linked(s, e)
    ensures forall k: nat :: k in KeysFrom(s, e) <==> k in KeysBehind(s, e)
    ensures forall i, j | 0 <= i < j < |KeysFrom(s, e)| :: KeysFrom(s, e)[i] < KeysFrom(s, e)[j]
    decreases KeysBehind(s, e)
  {
    assert NextOk(s, e);
    if s.entries[e].next.Some? {
      var x := s.entries[e].next.value;
      BehindTheNext(s, e);
      hide Sorted, Linked, NextOk, KeysBehind;
      ListFromEntry(s, x);
      var rest := KeysFrom(s, x);
      assert KeysFrom(s, e) == [s.entries[x].key] + rest;
      forall i | 0 <= i < |rest| ensures s.entries[x].key < rest[i] {
        assert rest[i] in rest;
      }
    }
  }

  lemma {:induction false} BehindTheNext<V>(s: State<V>, e: nat)
    requires Sorted(s) && e < |s.entries| && Linked(s, e) && s.entries[e].next.Some?
    ensures var x := s.entries[e].next.value;
      && x < |s.entries| && Linked(s, x)
      && KeysBehind(s, e) == {s.entries[x].key} + KeysBehind(s, x)
      && forall k | k in KeysBehind(s, x) :: s.entries[x].key < k
  {
    assert NextOk(s, e);
    var x := s.entries[e].next.value;
    forall k | k in KeysBehind(s, e) ensures s.entries[x].key <= k {
    }
  }

  // In every interleaving every bucket is one strictly sorted list that holds
  // exactly the keys of the map that belong to it.
  lemma {:induction false} BucketsStaySorted<V>(tableSize: nat, threads: nat, zero: V,
                                                schedule: seq<(nat, Choice<V>)>, b: nat)
    requires b < tableSize
    ensures var s := Run(Init(tableSize, threads, zero), schedule);
      && Sorted(s)
      && (forall i, j | 0 <= i < j < |KeysFrom(s, b)| :: KeysFrom(s, b)[i] < KeysFrom(s, b)[j])
      && (forall k: nat :: k in KeysFrom(s, b) <==> k in Contents(s) && k % tableSize == b)
  {
    InitInv(tableSize, threads, zero);
    RunKeepsInv(Init(tableSize, threads, zero), schedule);
    ListFromEntry(Run(Init(tableSize, threads, zero), schedule), b);
  }

  // A key, once linked, keeps its entry for good.
  lemma {:induction false} KeysNeverDisappear<V>(s: State<V>, schedule: seq<(nat, Choice<V>)>, k: nat)
    requires Inv(s) && k in s.index
    ensures k in Run(s, schedule).index && Run(s, schedule).index[k] == s.index[k]
    decreases |schedule|
  {
    if schedule != [] {
      var (t, c) := schedule[0];
      StepKeepsInv(s, t, c);
      StepKeepsKey(s, t, c, k);
      hide Step, Inv;
      KeysNeverDisappear(Step(s, t, c), schedule[1..], k);
    }
  }

  lemma {:induction false} StepKeepsKey<V>(s: State<V>, t: nat, c: Choice<V>, k: nat)
    requires Inv(s) && k in s.index
    ensures k in Step(s, t, c).index && Step(s, t, c).index[k] == s.index[k]
  {
    if t < |s.threads| && s.threads[t].Linking? && s.threads[t].prev < |s.entries|
       && s.entries[s.threads[t].prev].next == s.threads[t].successor {
      LinkedAfterLink(s, t, c);
    }
    hide Inv;
  }

  // ---- Every call is answered for what it was ----

  function CallOf<V>(op: Operation<V>): (call: Choice<V>) {
    match op
    case Has(k) => CallHas(k)
    case Get(k) => CallGet(k)
    case Set(k, v, _) => CallSet(k, v)
  }

  // The operation that a thread is in, if any.
  function Doing<V>(at: Thread<V>): (call: Option<Choice<V>>) {
    if at.Idle? || at.Returned? then None else Some(CallOf(at.op))
  }

  // A thread that rests enters the operation it calls.  It stays in that operation, for
  // the same key and value and with the entry that it has allocated, until that answers,
  // and no other thread moves.
  lemma {:induction false} CallStays<V>(s: State<V>, t: nat, c: Choice<V>)
    requires Inv(s) && t < |s.threads|
    ensures var at, at' := s.threads[t], Step(s, t, c).threads[t];
      match Doing(at)
      case None => if c.Continue? then at' == at else Doing(at') == Some(c)
      case Some(call) =>
        at'.Returned? || (Doing(at') == Some(call) && (at.op.Set? && at.op.spare.Some? ==> at'.op == at.op))
    ensures forall u | 0 <= u < |s.threads| && u != t :: Step(s, t, c).threads[u] == s.threads[u]
  {
    assert ThreadInv(s, s.threads[t]);
    hide Inv, Sorted, Linked, Home, Before;
    if s.threads[t].Seeking? {
      SeekStays(s, t, s.threads[t].op, s.threads[t].prev);
      hide Seek;
    }
  }

  lemma {:induction false} SeekStays<V>(s: State<V>, t: nat, op: Operation<V>, prev: nat)
    requires t < |s.threads| && s.threads[t] == Seeking(op, prev)
    ensures var s' := Seek(s, t, op, prev);
      && |s'.threads| == |s.threads|
      && (s'.threads[t].Returned? ||
          (Doing(s'.threads[t]) == Some(CallOf(op)) && (op.Set? && op.spare.Some? ==> s'.threads[t].op == op)))
      && forall u | 0 <= u < |s.threads| && u != t :: s'.threads[u] == s.threads[u]
  {
  }

  // What each thread has called last, as the schedule says.
  function Called<V>(s: State<V>, calls: seq<Choice<V>>, t: nat, c: Choice<V>): (calls': seq<Choice<V>>)
    requires |calls| == |s.threads|
    ensures |calls'| == |calls|
  {
    if t < |calls| && Doing(s.threads[t]).None? && !c.Continue? then calls[t := c] else calls
  }

  ghost predicate Told<V>(s: State<V>, calls: seq<Choice<V>>) {
    |calls| == |s.threads|
    && forall t | 0 <= t < |calls| :: Doing(s.threads[t]).Some? ==> Doing(s.threads[t]) == Some(calls[t])
  }

  lemma {:induction false} StepKeepsTold<V>(s: State<V>, calls: seq<Choice<V>>, t: nat, c: Choice<V>)
    requires Inv(s) && Told(s, calls)
    ensures Told(Step(s, t, c), Called(s, calls, t, c))
  {
    if t < |s.threads| {
      CallStays(s, t, c);
      hide Step, Doing, Inv;
    }
  }

  // Every value ever allocated has a stamp of its own, so a compare-and-swap on a value
  // pointer cannot take a later value for an earlier one.
  ghost predicate Stamps<V>(s: State<V>)
    requires Sized(s)
  {
    && (forall e | 0 <= e < |s.entries| :: s.entries[e].stamp < s.nextStamp)
    && (forall e, f | s.tableSize <= e < f < |s.entries| :: s.entries[e].stamp != s.entries[f].stamp)
    && (forall t | 0 <= t < |s.threads| && s.threads[t].Replacing? :: s.threads[t].stamp < s.nextStamp)
  }

  lemma {:induction false} StepKeepsStamps<V>(s: State<V>, t: nat, c: Choice<V>)
    requires Sized(s) && Stamps(s)
    ensures var s' := Step(s, t, c);
      && Stamps(s') && s.nextStamp <= s'.nextStamp && |s.entries| <= |s'.entries|
      && forall e | 0 <= e < |s.entries| ::
        if s'.entries[e].stamp == s.entries[e].stamp then s'.entries[e].value == s.entries[e].value
        else s.nextStamp <= s'.entries[e].stamp
  {
    var s' := Step(s, t, c);
    if t < |s.threads| && s.threads[t].Seeking? {
      SeekKeepsStamps(s, t, s.threads[t].op, s.threads[t].prev);
    } else if t < |s.threads| && s.threads[t].Replacing? {
      ReplaceKeepsStamps(s, t, c);
    } else {
      OthersKeepStamps(s, t, c);
    }
  }

  // Any other step writes no value.
  lemma {:induction false} OthersKeepStamps<V>(s: State<V>, t: nat, c: Choice<V>)
    requires Sized(s) && Stamps(s) && (t < |s.threads| ==> !s.threads[t].Seeking? && !s.threads[t].Replacing?)
    ensures var s' := Step(s, t, c);
      && Stamps(s') && s.nextStamp == s'.nextStamp && |s.entries| == |s'.entries|
      && forall e | 0 <= e < |s.entries| ::
        s'.entries[e].stamp == s.entries[e].stamp && s'.entries[e].value == s.entries[e].value
  {
    var s' := Step(s, t, c);
    assert s'.nextStamp == s.nextStamp && |s'.entries| == |s.entries|;
    assert forall e | 0 <= e < |s.entries| ::
        s'.entries[e].stamp == s.entries[e].stamp && s'.entries[e].value == s.entries[e].value;
    assert forall u | 0 <= u < |s.threads| && s'.threads[u].Replacing? ::
        s'.threads[u] == s.threads[u] || s'.threads[u].stamp < s.nextStamp;
    hide Step;
  }

  lemma {:induction false} ReplaceKeepsStamps<V>(s: State<V>, t: nat, c: Choice<V>)
    requires Sized(s) && Stamps(s) && t < |s.threads| && s.threads[t].Replacing?
    ensures var s' := Step(s, t, c);
      && Stamps(s') && s.nextStamp <= s'.nextStamp && |s.entries| <= |s'.entries|
      && forall e | 0 <= e < |s.entries| ::
        if s'.entries[e].stamp == s.entries[e].stamp then s'.entries[e].value == s.entries[e].value
        else s.nextStamp <= s'.entries[e].stamp
  {
  }

  lemma {:induction false} SeekKeepsStamps<V>(s: State<V>, t: nat, op: Operation<V>, prev: nat)
    requires Sized(s) && Stamps(s) && t < |s.threads|
    ensures var s' := Seek(s, t, op, prev);
      && Sized(s') && Stamps(s') && s.nextStamp <= s'.nextStamp && |s.entries| <= |s'.entries|
      && forall e | 0 <= e < |s.entries| :: s'.entries[e] == s.entries[e]
  {
    SeekAllocates(s, t, op, prev);
    hide Seek;
  }

  // A traversal writes nothing but a fresh entry.
  lemma {:induction false} SeekAllocates<V>(s: State<V>, t: nat, op: Operation<V>, prev: nat)
    requires t < |s.threads|
    ensures var s' := Seek(s, t, op, prev);
      && s'.tableSize == s.tableSize && |s'.threads| == |s.threads|
      && ((s'.entries == s.entries && s'.nextStamp == s.nextStamp)
          || (|s'.entries| == |s.entries| + 1 && s'.entries == s.entries + [s'.entries[|s.entries|]]
              && s'.entries[|s.entries|].stamp == s.nextStamp && s'.nextStamp == s.nextStamp + 1))
      && forall u | 0 <= u < |s.threads| && s'.threads[u].Replacing? :: s'.threads[u] == s.threads[u]
  {
  }

  lemma {:induction false} RunKeepsStamps<V>(s: State<V>, schedule: seq<(nat, Choice<V>)>)
    requires Sized(s) && Stamps(s)
    ensures Stamps(Run(s, schedule))
    decreases |schedule|
  {
    if schedule != [] {
      StepKeepsStamps(s, schedule[0].0, schedule[0].1);
      hide Stamps, Step;
      RunKeepsStamps(Step(s, schedule[0].0, schedule[0].1), schedule[1..]);
    }
  }

  // ---- Linearizability ----

  // A call and its answer.
  datatype Event<V> = Event(call: Choice<V>, answer: Answer<V>)

  // What a sequential insert-or-overwrite map does, if that is its answer.
  function Apply<V(==)>(m: map<nat, V>, e: Event<V>): (r: Option<map<nat, V>>) {
    match e
    case Event(CallSet(k, v), Stored) => Some(m[k := v])
    case Event(CallGet(k), Got(v)) => if k in m && m[k] == v then Some(m) else None
    case Event(CallGet(k), No) => if k !in m then Some(m) else None
    case Event(CallHas(k), Yes) => if k in m then Some(m) else None
    case Event(CallHas(k), No) => if k !in m then Some(m) else None
    case _ => None
  }

  // The map after some events, or nothing if one of them got another answer.
  function Replay<V(==)>(m: map<nat, V>, events: seq<Event<V>>): (r: Option<map<nat, V>>)
    decreases |events|
  {
    if events == [] then Some(m) else
    match Apply(m, events[0])
    case None => None
    case Some(m') => Replay(m', events[1..])
  }

  // The events of a run, each with what was called, at the step that answers it.
  function Answered<V>(s: State<V>, calls: seq<Choice<V>>, schedule: seq<(nat, Choice<V>)>): (events: seq<Event<V>>)
    requires Sized(s) && |calls| == |s.threads|
    decreases |schedule|
  {
    if schedule == [] then [] else
    var (t, c) := schedule[0];
    var s' := Step(s, t, c);
    var rest := Answered(s', Called(s, calls, t, c), schedule[1..]);
    if t < |s.threads| && Doing(s.threads[t]).Some? && s'.threads[t].Returned?
    then [Event(calls[t], s'.threads[t].answer)] + rest else rest
  }

  // One access is one operation of an atomic map, or none.
  lemma {:induction false} StepRefinesMap<V>(s: State<V>, t: nat, c: Choice<V>)
    requires Inv(s) && t < |s.threads|
    ensures var s', call := Step(s, t, c), Doing(s.threads[t]);
      && Inv(s')
      && if call.Some? && s'.threads[t].Returned?
         then Apply(Contents(s), Event(call.value, s'.threads[t].answer)) == Some(Contents(s'))
         else Contents(s') == Contents(s)
  {
    hide NextOk, ThreadInv, Linked, Spare;
    StepKeepsInv(s, t, c);
    if s.threads[t].Linking? {
      LinkContents(s, t, c);
    } else if s.threads[t].Replacing? {
      ReplaceContents(s, t, c);
    } else {
      ReadContents(s, t, c);
    }
  }

  // A step that writes no link and no value answers with what is in the map.
  lemma {:induction false} ReadContents<V>(s: State<V>, t: nat, c: Choice<V>)
    requires Inv(s) && t < |s.threads| && !s.threads[t].Linking? && !s.threads[t].Replacing? && Inv(Step(s, t, c))
    ensures var s', call := Step(s, t, c), Doing(s.threads[t]);
      && Contents(s') == Contents(s)
      && (call.Some? && s'.threads[t].Returned? ==>
            Apply(Contents(s), Event(call.value, s'.threads[t].answer)) == Some(Contents(s)))
  {
    var s' := Step(s, t, c);
    assert ThreadInv(s, s.threads[t]);
    hide NextOk, SpareOk, Place, Spare, Linked;
    if s.threads[t].Seeking? {
      SeekContents(s, t, s.threads[t].op, s.threads[t].prev);
    } else {
      assert s'.index == s.index && |s'.entries| == |s.entries|;
      forall e: nat | e < |s.entries| ensures s'.entries[e].value == s.entries[e].value {
      }
      assert Contents(s') == Contents(s);
    }
  }

  lemma {:induction false} SeekContents<V>(s: State<V>, t: nat, op: Operation<V>, prev: nat)
    requires Inv(s) && t < |s.threads| && s.threads[t] == Seeking(op, prev) && Inv(Seek(s, t, op, prev))
    ensures var s' := Seek(s, t, op, prev);
      && Contents(s') == Contents(s)
      && (s'.threads[t] == Returned(op, Yes) ==> op.key in Contents(s))
      && (s'.threads[t] == Returned(op, No) ==> op.key !in Contents(s))
      && (s'.threads[t].Returned? ==>
            !op.Set? && (s'.threads[t] == Returned(op, No) || (op.Has? && s'.threads[t] == Returned(op, Yes))))
  {
    assert ThreadInv(s, s.threads[t]);
    assert Place(s, op, prev) && NextOk(s, prev);
    SeekKeepsContents(s, t, op, prev);
    hide ThreadInv, SpareOk, Spare, Sorted, Contents;
  }

  lemma {:induction false} SeekKeepsContents<V>(s: State<V>, t: nat, op: Operation<V>, prev: nat)
    requires Sorted(s) && t < |s.threads|
    ensures var s' := Seek(s, t, op, prev);
      s'.index == s.index && |s'.entries| >= |s.entries| && Contents(s') == Contents(s)
  {
    var s' := Seek(s, t, op, prev);
    assert s'.index == s.index;
    assert forall e: nat | e < |s.entries| :: s'.entries[e] == s.entries[e];
    hide NextOk;
  }

  lemma {:induction false} LinkContents<V>(s: State<V>, t: nat, c: Choice<V>)
    requires Inv(s) && t < |s.threads| && s.threads[t].Linking? && Inv(Step(s, t, c))
    ensures var s', op := Step(s, t, c), s.threads[t].op;
      && op.Set? && (s'.threads[t].Returned? ==> s'.threads[t] == Returned(op, Stored))
      && Contents(s') == if s'.threads[t].Returned? then Contents(s)[op.key := op.value] else Contents(s)
  {
    assert ThreadInv(s, s.threads[t]);
    var s' := Step(s, t, c);
    if s'.threads[t].Returned? {
      LinkedAfterLink(s, t, c);
    }
  }

  lemma {:induction false} ReplaceContents<V>(s: State<V>, t: nat, c: Choice<V>)
    requires Inv(s) && t < |s.threads| && s.threads[t].Replacing? && Inv(Step(s, t, c))
    ensures var s', op := Step(s, t, c), s.threads[t].op;
      && op.Set? && (s'.threads[t].Returned? ==> s'.threads[t] == Returned(op, Stored))
      && Contents(s') == if s'.threads[t].Returned? then Contents(s)[op.key := op.value] else Contents(s)
  {
    assert ThreadInv(s, s.threads[t]);
  }

  // A sequential map that is called in the order of the answers gives the same answers and
  // ends up holding what the shared one holds.
  lemma {:induction false} RunRefinesMap<V>(s: State<V>, calls: seq<Choice<V>>, schedule: seq<(nat, Choice<V>)>)
    requires Inv(s) && Told(s, calls)
    ensures Inv(Run(s, schedule))
    ensures Replay(Contents(s), Answered(s, calls, schedule)) == Some(Contents(Run(s, schedule)))
    decreases |schedule|
  {
    if schedule != [] {
      var (t, c) := schedule[0];
      var s', calls' := Step(s, t, c), Called(s, calls, t, c);
      StepKeepsInv(s, t, c);
      StepKeepsTold(s, calls, t, c);
      RunRefinesMap(s', calls', schedule[1..]);
      if t < |s.threads| {
        StepRefinesMap(s, t, c);
        hide Step, Inv, Contents, Apply, Run;
        var rest := Answered(s', calls', schedule[1..]);
        if Doing(s.threads[t]).Some? && s'.threads[t].Returned? {
          assert ([Event(calls[t], s'.threads[t].answer)] + rest)[1..] == rest;
        }
      }
    }
  }

  // ---- Every operation finishes when it runs alone, wherever it stands ----

  function Alone<V>(t: nat, steps: nat): (schedule: seq<(nat, Choice<V>)>) {
    if steps == 0 then [] else [(t, Continue)] + Alone(t, steps - 1)
  }

  lemma {:induction false} AloneOnce<V>(s: State<V>, t: nat, n: nat)
    requires Sized(s)
    ensures Run(s, Alone(t, n + 1)) == Run(Step(s, t, Continue), Alone(t, n))
  {
    assert Alone<V>(t, n + 1)[1..] == Alone(t, n);
  }

  // What a thread is about to compare has changed since it was loaded.
  predicate Stale<V>(s: State<V>, at: Thread<V>) {
    match at
    case Replacing(_, target, stamp) => target < |s.entries| && s.entries[target].stamp != stamp
    case Preparing(_, prev, successor) => prev < |s.entries| && s.entries[prev].next != successor
    case Linking(_, prev, successor) => prev < |s.entries| && s.entries[prev].next != successor
    case _ => false
  }

  // How far a thread has to go: through a failing compare-and-swap, the keys ahead of its
  // traversal, and the accesses after it.
  function Phase<V>(s: State<V>, at: Thread<V>): (n: nat) {
    if Stale(s, at) then 2 else if at.Seeking? then 1 else 0
  }

  ghost function KeysAhead<V>(s: State<V>, at: Thread<V>): (keys: set<nat>)
    requires Sized(s)
  {
    if at.Seeking? && at.prev < |s.entries| then KeysBehind(s, at.prev) else {}
  }

  function Rest<V>(at: Thread<V>): (n: nat) {
    match at
    case Comparing(_, _) => 2
    case Preparing(_, _, _) => 2
    case Replacing(_, _, _) => 1
    case Linking(_, _, _) => 1
    case Reading(_, _) => 1
    case _ => 0
  }

  ghost predicate Closer<V>(s: State<V>, at: Thread<V>, s': State<V>, at': Thread<V>)
    requires Sized(s) && Sized(s')
  {
    Phase(s', at') < Phase(s, at)
    || (Phase(s', at') == Phase(s, at)
        && (KeysAhead(s', at') < KeysAhead(s, at) || (KeysAhead(s', at') == KeysAhead(s, at) && Rest(at') < Rest(at))))
  }

  lemma {:induction false} AloneIsCloser<V>(s: State<V>, t: nat)
    requires Inv(s) && t < |s.threads| && Doing(s.threads[t]).Some?
    ensures var s' := Step(s, t, Continue);
      s'.threads[t].Returned? || Closer(s, s.threads[t], s', s'.threads[t])
  {
    var at, s' := s.threads[t], Step(s, t, Continue);
    assert ThreadInv(s, at);
    if at.Seeking? {
      SeekIsCloser(s, t);
    } else {
      hide NextOk, KeysBehind, Sorted, Inv;
    }
  }

  lemma {:induction false} SeekIsCloser<V>(s: State<V>, t: nat)
    requires Inv(s) && t < |s.threads| && s.threads[t].Seeking? && ThreadInv(s, s.threads[t])
    ensures var s' := Step(s, t, Continue);
      s'.threads[t].Returned? || Closer(s, s.threads[t], s', s'.threads[t])
  {
    var op, prev := s.threads[t].op, s.threads[t].prev;
    var s' := Step(s, t, Continue);
    assert NextOk(s, prev);
    if s'.threads[t].Seeking? {
      BehindTheNext(s, prev);
      var next := s.entries[prev].next.value;
      assert s' == Goto(s, t, Seeking(op, next));
      assert KeysBehind(s', next) == KeysBehind(s, next);
      assert s.entries[next].key in KeysBehind(s, prev) && s.entries[next].key !in KeysBehind(s, next);
    }
  }

  lemma {:induction false} AloneGoesOn<V>(s: State<V>, t: nat, call: Choice<V>)
    requires Inv(s) && t < |s.threads| && Doing(s.threads[t]) == Some(call)
    ensures var s1 := Step(s, t, Continue);
      && Inv(s1) && s1.threads == s.threads[t := s1.threads[t]]
      && if s1.threads[t].Returned?
         then Apply(Contents(s), Event(call, s1.threads[t].answer)) == Some(Contents(s1))
         else && Doing(s1.threads[t]) == Some(call) && Contents(s1) == Contents(s)
              && Closer(s, s.threads[t], s1, s1.threads[t])
  {
    StepRefinesMap(s, t, Continue);
    CallStays(s, t, Continue);
    AloneIsCloser(s, t);
    hide Step, Inv, Apply, Closer, Doing;
  }

  // An operation that runs alone from any of its accesses on gets the answer of the
  // sequential map and has its effect, whatever it has loaded before.
  lemma {:induction false} Finishes<V>(s: State<V>, t: nat, call: Choice<V>) returns (n: nat)
    requires Inv(s) && t < |s.threads| && Doing(s.threads[t]) == Some(call)
    ensures var s' := Run(s, Alone(t, n));
      && Inv(s') && s'.threads[t].Returned? && s'.threads == s.threads[t := s'.threads[t]]
      && Apply(Contents(s), Event(call, s'.threads[t].answer)) == Some(Contents(s'))
    decreases Phase(s, s.threads[t]), KeysAhead(s, s.threads[t]), Rest(s.threads[t])
  {
    hide Step, Apply, Phase, KeysAhead, Rest, Doing, NextOk, ThreadInv, Spare, Contents, Linked;
    var s1 := Step(s, t, Continue);
    AloneGoesOn(s, t, call);
    if s1.threads[t].Returned? {
      assert Run(s1, Alone(t, 0)) == s1;
      AloneOnce(s, t, 0);
      n := 1;
    } else {
      var m := Finishes(s1, t, call);
      AloneOnce(s, t, m);
      n := m + 1;
    }
  }

  // From the call on.
  lemma {:induction false} CallAlone<V>(s: State<V>, t: nat, call: Choice<V>) returns (schedule: seq<(nat, Choice<V>)>)
    requires Inv(s) && t < |s.threads| && Doing(s.threads[t]).None? && !call.Continue?
    ensures var s' := Run(s, schedule);
      && Inv(s') && s'.threads[t].Returned? && s'.threads == s.threads[t := s'.threads[t]]
      && Apply(Contents(s), Event(call, s'.threads[t].answer)) == Some(Contents(s'))
  {
    var s1 := Step(s, t, call);
    StepRefinesMap(s, t, call);
    CallStays(s, t, call);
    hide Step, Inv, Contents, Apply;
    var n := Finishes(s1, t, call);
    schedule := [(t, call)] + Alone(t, n);
    assert schedule[1..] == Alone(t, n);
    assert s1.threads == s.threads[t := s1.threads[t]];
  }

  // What is set alone is there, and a Get alone then finds it.
  lemma {:induction false} SetThenGet<V>(s: State<V>, t: nat, u: nat, k: nat, v: V)
    returns (put: seq<(nat, Choice<V>)>, get: seq<(nat, Choice<V>)>)
    requires Inv(s) && t < |s.threads| && u < |s.threads|
    requires Doing(s.threads[t]).None? && Doing(s.threads[u]).None?
    ensures var s1 := Run(s, put); var s2 := Run(s1, get);
      && Inv(s1) && Inv(s2) && Contents(s1) == Contents(s)[k := v] == Contents(s2)
      && s2.threads[u].Returned? && s2.threads[u].answer == Got(v)
  {
    put := CallAlone(s, t, CallSet(k, v));
    var s1 := Run(s, put);
    hide Inv, Contents, Run;
    get := CallAlone(s1, u, CallGet(k));
  }

  // ---- The object, changed in place one access at a time ----

  class HashMap<V> {
    const tableSize: nat
    var entries: seq<Entry<V>>
    var nextStamp: nat
    var threads: seq<Thread<V>>
    ghost var index: map<nat, nat>

    ghost function Snapshot(): (s: State<V>)
      reads this
    {
      State(tableSize, entries, nextStamp, threads, index)
    }

    constructor (tableSize: nat, threadCount: nat, zero: V)
      requires tableSize > 0
      ensures Snapshot() == Init(tableSize, threadCount, zero) && Inv(Snapshot())
    {
      this.tableSize := tableSize;
      entries := Init(tableSize, threadCount, zero).entries;
      threads := Init(tableSize, threadCount, zero).threads;
      nextStamp, index := 1, map[];
      new;
      InitInv(tableSize, threadCount, zero);
    }

    method Advance(t: nat, c: Choice<V>)
      requires Inv(Snapshot())
      modifies this
      ensures Inv(Snapshot()) && Snapshot() == Step(old(Snapshot()), t, c)
    {
      StepKeepsInv(Snapshot(), t, c);
      if t < |threads| {
        assert ThreadInv(Snapshot(), threads[t]);
        var at := threads[t];
        if at.Idle? || at.Returned? {
          match c {
            case CallHas(k) => Enter(t, Has(k));
            case CallGet(k) => Enter(t, Get(k));
            case CallSet(k, v) => Enter(t, Set(k, v, None));
            case Continue =>
          }
        } else if at.Seeking? {
          Find(t);
        } else if at.Reading? {
          threads := threads[t := Returned(at.op, Got(entries[at.target].value))];
        } else {
          Insert(t, c);
        }
      }
    }

    // An operation begins, or begins again, at the head of its bucket.
    method Enter(t: nat, op: Operation<V>)
      requires 0 < tableSize <= |entries| && t < |threads|
      modifies this`threads
      ensures Snapshot() == Start(old(Snapshot()), t, op)
    {
      threads := threads[t := Seeking(op, Bucket(tableSize, op.key))];
    }

    // One turn of the traversal loop.
    method Find(t: nat)
      requires t < |threads| && threads[t].Seeking? && threads[t].prev < |entries|
      modifies this
      ensures Snapshot() == Seek(old(Snapshot()), t, old(threads[t].op), old(threads[t].prev))
    {
      var op, prev := threads[t].op, threads[t].prev;
      var next := entries[prev].next;
      if next.Some? && next.value >= |entries| {
      } else if next.Some? && entries[next.value].key == op.key {
        threads := threads[t :=
          match op
          case Has(_) => Returned(op, Yes)
          case Get(_) => Reading(op, next.value)
          case Set(_, _, _) => Comparing(op, next.value)];
      } else if next.Some? && entries[next.value].key < op.key {
        threads := threads[t := Seeking(op, next.value)];
      } else if !op.Set? {
        threads := threads[t := Returned(op, No)];
      } else if op.spare.Some? {
        threads := threads[t := Preparing(op, prev, next)];
      } else {
        threads := threads[t := Preparing(Set(op.key, op.value, Some(|entries|)), prev, next)];
        entries := entries + [Entry(op.key, nextStamp, op.value, None)];
        nextStamp := nextStamp + 1;
      }
    }

    // The rest of Insert once its traversal has stopped.
    method Insert(t: nat, c: Choice<V>)
      requires 0 < tableSize <= |entries| && t < |threads| && !threads[t].Idle? && !threads[t].Returned?
      requires !threads[t].Seeking? && !threads[t].Reading? && threads[t].op.Set?
      requires threads[t].Comparing? || threads[t].Replacing? ==> threads[t].target < |entries|
      requires threads[t].Preparing? || threads[t].Linking? ==>
        threads[t].prev < |entries| && threads[t].op.spare.Some? && threads[t].op.spare.value < |entries|
      modifies this
      ensures Snapshot() == Step(old(Snapshot()), t, c)
    {
      var op := threads[t].op;
      match threads[t] {
        case Comparing(_, target) =>
          threads := threads[t := Replacing(op, target, entries[target].stamp)];
        case Replacing(_, target, stamp) =>
          if entries[target].stamp == stamp {
            entries := entries[target := entries[target].(stamp := nextStamp, value := op.value)];
            nextStamp := nextStamp + 1;
            threads := threads[t := Returned(op, Stored)];
          } else {
            Enter(t, op);
          }
        case Preparing(_, prev, successor) =>
          var mine := op.spare.value;
          entries := entries[mine := entries[mine].(next := successor)];
          threads := threads[t := Linking(op, prev, successor)];
        case Linking(_, prev, successor) =>
          if entries[prev].next == successor {
            entries := entries[prev := entries[prev].(next := op.spare)];
            index := index[op.key := op.spare.value];
            threads := threads[t := Returned(op, Stored)];
          } else {
            Enter(t, op);
          }
      }
    }
  }
}
