// cyber/common/global_data.cc: names registered at the same time.  Each thread
// registers one name; Has, Get and Set of the table are atomic, a registration is not.
module ConcurrentRegistration {
  import opened NameRegistry

  // One registration: Has is asked next, then Get if the id is taken, then Set.
  datatype Thread = Asking(id: Id) | Comparing(id: Id) | Storing(id: Id) | Done(id: Id)

  // names[t] is what thread t registers; `before` is the table it all started from.
  datatype State = State(before: map<Id, string>, table: map<Id, string>, names: seq<string>, threads: seq<Thread>)

  predicate Sized(s: State) {
    |s.threads| == |s.names|
  }

  function Goto(s: State, t: nat, at: Thread): (s': State)
    requires t < |s.threads|
  {
    s.(threads := s.threads[t := at])
  }

  // One access to the table, which AtomicHashMap makes atomic.
  function Step(s: State, t: nat): (s': State)
    requires Sized(s)
    ensures Sized(s') && s'.names == s.names && s'.before == s.before
  {
    if t >= |s.threads| then s else
    match s.threads[t]
    case Asking(id) => Goto(s, t, if id in s.table then Comparing(id) else Storing(id))
    case Comparing(id) =>
      Goto(s, t, if id in s.table && s.table[id] == s.names[t] then Storing(id) else Asking(Increment(id)))
    case Storing(id) => Goto(s, t, Done(id)).(table := s.table[id := s.names[t]])
    case Done(_) => s
  }

  function Run(s: State, schedule: seq<nat>): (s': State)
    requires Sized(s)
    ensures Sized(s') && s'.names == s.names && s'.before == s.before
    decreases |schedule|
  {
    if schedule == [] then s else Run(Step(s, schedule[0]), schedule[1..])
  }

  function Init(table: map<Id, string>, hash: string -> Id, names: seq<string>): (s: State)
    ensures Sized(s)
  {
    State(table, table, names, seq(|names|, t requires 0 <= t < |names| => Asking(hash(names[t]))))
  }

  // Names and ids correspond: what was registered before is unchanged, every id given
  // is looked up to its name, and ids are equal exactly when names are.
  ghost predicate Corresponds(s: State)
    requires Sized(s)
  {
    && (forall id | id in s.before :: id in s.table && s.table[id] == s.before[id])
    && (forall t | 0 <= t < |s.threads| && s.threads[t].Done? ::
          s.threads[t].id in s.table && s.table[s.threads[t].id] == s.names[t])
    && (forall t, u | 0 <= t < |s.threads| && 0 <= u < |s.threads| && s.threads[t].Done? && s.threads[u].Done? ::
          s.threads[t].id == s.threads[u].id <==> s.names[t] == s.names[u])
  }

  // Where a name would go if it were registered alone.
  function Target(table: map<Id, string>, hash: string -> Id, name: string): (id: Id) {
    Probe(table, hash(name), name, 0)
  }

  // No two different names have the same target.
  ghost predicate TargetsDiffer(table: map<Id, string>, hash: string -> Id, names: seq<string>) {
    forall t, u | 0 <= t < |names| && 0 <= u < |names| && names[t] != names[u] ::
      Target(table, hash, names[t]) != Target(table, hash, names[u])
  }

  // Every schedule keeps the correspondence.
  ghost predicate Safe(table: map<Id, string>, hash: string -> Id, names: seq<string>) {
    forall schedule: seq<nat> :: Corresponds(Run(Init(table, hash, names), schedule))
  }

  // A thread searches the slots from its hash up to its target, those before which
  // hold other names for good.
  ghost predicate Searching(s: State, hash: string -> Id, t: nat)
    requires Sized(s) && t < |s.threads|
  {
    var name, id := s.names[t], s.threads[t].id;
    var target := Target(s.before, hash, name);
    match s.threads[t]
    case Storing(_) => id == target
    case Done(_) => id == target && id in s.table
    case Asking(_) => Distance(hash(name), id) <= Distance(hash(name), target)
    case Comparing(_) => Distance(hash(name), id) <= Distance(hash(name), target) && id in s.table
  }

  ghost predicate RunInv(s: State, hash: string -> Id) {
    && Sized(s) && Inv(s.before, hash) && TargetsDiffer(s.before, hash, s.names)
    && (forall t | 0 <= t < |s.names| :: Room(s.before, s.names[t]))
    && (forall id | id in s.before :: id in s.table && s.table[id] == s.before[id])
    && (forall id | id in s.table && id !in s.before ::
          exists t :: 0 <= t < |s.names| && id == Target(s.before, hash, s.names[t]) && s.table[id] == s.names[t])
    && (forall t | 0 <= t < |s.threads| :: Searching(s, hash, t))
  }

  // What the table may hold where a thread asks.
  lemma {:induction false} SlotOnTheWay(s: State, hash: string -> Id, t: nat)
    requires RunInv(s, hash) && t < |s.threads| && (s.threads[t].Asking? || s.threads[t].Comparing?)
    ensures var name, id := s.names[t], s.threads[t].id;
      var target := Target(s.before, hash, name);
      if id == target then id in s.table ==> s.table[id] == name
      else && id in s.table && s.table[id] != name
           && Distance(hash(name), Increment(id)) <= Distance(hash(name), target)
  {
    var name, id := s.names[t], s.threads[t].id;
    var target := Target(s.before, hash, name);
    assert Searching(s, hash, t);
    ProbeFinds(s.before, hash, name, 0);
    if id == target {
      if id in s.table && id !in s.before {
        var u :| 0 <= u < |s.names| && id == Target(s.before, hash, s.names[u]) && s.table[id] == s.names[u];
        assert s.names[u] == name;
      }
    } else {
      hide Probe, Target, Inv, RunInv;
      BetweenHashAndTarget(hash(name), id, target);
      assert Slot(hash(name), Distance(hash(name), id)) in s.before;
    }
  }

  lemma {:induction false} BetweenHashAndTarget(hash: Id, id: Id, target: Id)
    requires Distance(hash, id) <= Distance(hash, target) && id != target
    ensures Distance(hash, id) < Distance(hash, target) && Slot(hash, Distance(hash, id)) == id
    ensures Distance(hash, Increment(id)) == Distance(hash, id) + 1
  {
    assert Increment(id) == if id == SPAN - 1 then 0 else id + 1;
  }

  lemma {:induction false} StepKeepsRunInv(s: State, hash: string -> Id, t: nat)
    requires RunInv(s, hash)
    ensures RunInv(Step(s, t), hash)
  {
    if t < |s.threads| {
      var s' := Step(s, t);
      assert Searching(s, hash, t);
      StoredIsTarget(s, hash, t);
      StepKeepsSearching(s, hash, t);
      forall u | 0 <= u < |s'.threads| ensures Searching(s', hash, u) {
        assert Searching(s, hash, u);
      }
    }
  }

  lemma {:induction false} StepKeepsSearching(s: State, hash: string -> Id, t: nat)
    requires RunInv(s, hash) && t < |s.threads|
    ensures Searching(Step(s, t), hash, t)
  {
    assert Searching(s, hash, t);
    if s.threads[t].Asking? || s.threads[t].Comparing? {
      SlotOnTheWay(s, hash, t);
    }
    assert Sized(s);
    hide RunInv, Target, Distance, Increment;
    match s.threads[t]
    case Asking(id) =>
    case Comparing(id) =>
    case Storing(id) =>
    case Done(_) => assert Step(s, t) == s;
  }

  lemma {:induction false} StoredIsTarget(s: State, hash: string -> Id, t: nat)
    requires RunInv(s, hash) && t < |s.threads| && Searching(s, hash, t)
    ensures var s' := Step(s, t);
      && (forall id | id in s.table :: id in s'.table)
      && (forall id | id in s.before :: id in s'.table && s'.table[id] == s.before[id])
      && (forall id | id in s'.table && id !in s.before ::
            exists u :: 0 <= u < |s.names| && id == Target(s.before, hash, s.names[u]) && s'.table[id] == s.names[u])
  {
    var s' := Step(s, t);
    if s.threads[t].Storing? {
      ProbeFinds(s.before, hash, s.names[t], 0);
    }
  }

  lemma {:induction false} RunKeepsRunInv(s: State, hash: string -> Id, schedule: seq<nat>)
    requires RunInv(s, hash)
    ensures RunInv(Run(s, schedule), hash)
    decreases |schedule|
  {
    if schedule != [] {
      StepKeepsRunInv(s, hash, schedule[0]);
      RunKeepsRunInv(Step(s, schedule[0]), hash, schedule[1..]);
    }
  }

  lemma {:induction false} RunInvCorresponds(s: State, hash: string -> Id)
    requires RunInv(s, hash)
    ensures Corresponds(s)
  {
    forall t | 0 <= t < |s.threads| && s.threads[t].Done?
      ensures s.threads[t].id in s.table && s.table[s.threads[t].id] == s.names[t]
      ensures s.threads[t].id == Target(s.before, hash, s.names[t])
    {
      assert Searching(s, hash, t);
      ProbeFinds(s.before, hash, s.names[t], 0);
      var id := s.threads[t].id;
      if id !in s.before {
        var u :| 0 <= u < |s.names| && id == Target(s.before, hash, s.names[u]) && s.table[id] == s.names[u];
      }
    }
  }

  // ---- Why different targets are needed ----

  // A thread that runs alone finds its target without touching the table.
  lemma {:induction false} FindsTarget(s: State, hash: string -> Id, t: nat, k: nat) returns (schedule: seq<nat>)
    requires Sized(s) && t < |s.threads| && k < SPAN && Inv(s.table, hash) && Room(s.table, s.names[t])
    requires var h := hash(s.names[t]); s.threads[t] == Asking(Slot(h, k)) && Taken(s.table, h, s.names[t], k)
    ensures Run(s, schedule) == Goto(s, t, Storing(Probe(s.table, hash(s.names[t]), s.names[t], k)))
    decreases SPAN - k
  {
    var name, id := s.names[t], s.threads[t].id;
    var s1 := Step(s, t);
    if id !in s.table {
      schedule := [t];
      assert Run(s1, schedule[1..]) == s1;
    } else if s.table[id] == name {
      schedule := [t, t];
      var s2 := Step(s1, t);
      assert schedule[1..] == [t] && Run(s2, [t][1..]) == s2;
      assert s2.threads == s.threads[t := Storing(id)];
    } else {
      PassOne(s.table, hash, name, k);
      var s2 := Step(s1, t);
      assert s2 == Goto(s, t, Asking(Slot(hash(name), k + 1)));
      var rest := FindsTarget(s2, hash, t, k + 1);
      schedule := [t, t] + rest;
      assert schedule[1..] == [t] + rest && ([t] + rest)[1..] == rest;
      assert Run(s, schedule) == Run(s2, rest);
      assert s2.threads[t := Storing(Probe(s.table, hash(name), name, k))]
          == s.threads[t := Storing(Probe(s.table, hash(name), name, k))];
    }
  }

  lemma {:induction false} RunAppend(s: State, a: seq<nat>, b: seq<nat>)
    requires Sized(s)
    ensures Run(s, a + b) == Run(Run(s, a), b)
    decreases |a|
  {
    if a == [] {
      assert a + b == b;
    } else {
      assert (a + b)[1..] == a[1..] + b;
      RunAppend(Step(s, a[0]), a[1..], b);
    }
  }

  // Two threads with different names and one target: both search, then both store.
  lemma {:induction false} SameTargetCollides(table: map<Id, string>, hash: string -> Id, names: seq<string>,
                                              t: nat, u: nat)
    returns (schedule: seq<nat>)
    requires Inv(table, hash) && forall i | 0 <= i < |names| :: Room(table, names[i])
    requires t < |names| && u < |names| && names[t] != names[u]
    requires Target(table, hash, names[t]) == Target(table, hash, names[u])
    ensures !Corresponds(Run(Init(table, hash, names), schedule))
    ensures var id, s := Target(table, hash, names[t]), Run(Init(table, hash, names), schedule);
      && s.threads[t] == Done(id) && s.threads[u] == Done(id)
      && id in s.table && s.table[id] == names[u] != names[t]
  {
    var s := Init(table, hash, names);
    var id := Target(table, hash, names[t]);
    assert Slot(hash(names[t]), 0) == hash(names[t]) && Slot(hash(names[u]), 0) == hash(names[u]);
    var first := FindsTarget(s, hash, t, 0);
    var s1 := Goto(s, t, Storing(id));
    var second := FindsTarget(s1, hash, u, 0);
    var s2 := Goto(s1, u, Storing(id));
    var s3 := Step(s2, t);
    var s4 := Step(s3, u);
    schedule := first + (second + [t, u]);
    RunAppend(s, first, second + [t, u]);
    RunAppend(s1, second, [t, u]);
    assert [t, u][1..] == [u];
    assert Run(s2, [t, u]) == Run(s3, [u]) == Run(s4, [u][1..]) == s4;
    assert s4.threads[t] == Done(id) && s4.threads[u] == Done(id);
  }

  // Whatever the schedule, names and ids correspond if and only if no two different
  // names would go to the same id when registered alone.
  lemma {:induction false} SafeIffTargetsDiffer(table: map<Id, string>, hash: string -> Id, names: seq<string>)
    requires Inv(table, hash) && forall t | 0 <= t < |names| :: Room(table, names[t])
    ensures Safe(table, hash, names) <==> TargetsDiffer(table, hash, names)
  {
    if TargetsDiffer(table, hash, names) {
      var s := Init(table, hash, names);
      assert RunInv(s, hash);
      forall schedule: seq<nat> ensures Corresponds(Run(s, schedule)) {
        RunKeepsRunInv(s, hash, schedule);
        RunInvCorresponds(Run(s, schedule), hash);
      }
    } else {
      var t, u :| 0 <= t < |names| && 0 <= u < |names| && names[t] != names[u]
                  && Target(table, hash, names[t]) == Target(table, hash, names[u]);
      var schedule := SameTargetCollides(table, hash, names, t, u);
    }
  }

  // From the empty table: if and only if different names have different hashes.
  lemma {:induction false} SafeFromEmptyIffHashesDiffer(hash: string -> Id, names: seq<string>)
    ensures Safe(map[], hash, names)
       <==> forall t, u | 0 <= t < |names| && 0 <= u < |names| && names[t] != names[u] ::
              hash(names[t]) != hash(names[u])
  {
    SafeIffTargetsDiffer(map[], hash, names);
    forall t | 0 <= t < |names| ensures Target(map[], hash, names[t]) == hash(names[t]) {
      assert Slot(hash(names[t]), 0) == hash(names[t]);
    }
  }
}
