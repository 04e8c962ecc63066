// cyber/timer/timing_wheel.h and timing_wheel.cc: a work wheel of 512 buckets and
// an assistant wheel of 64, whose bucket is cascaded into the work wheel once per
// revolution.  AddTask is one atomic step, and so is "advance the work index,
// advance the assistant index, cascade"; AddTask may fall before or after Tick.
// Wheel sizes are powers of two, so the index masks are remainders.
module TimingWheel {
  import Modular

  const WORK_WHEEL_SIZE := 512
  const ASSISTANT_WHEEL_SIZE := 64
  const TIMER_RESOLUTION_MS := 2
  const LAP := WORK_WHEEL_SIZE * ASSISTANT_WHEEL_SIZE

  datatype Firing = Firing(task: nat, tick: nat)

  // remainder is each task's remainder_interval_ms and alive the tasks whose weak
  // pointer can still be locked.  now (the number of advances), due (the tick at
  // which a task in the wheel is to fire) and fired are history variables.
  datatype Wheel = Wheel(
    work: seq<seq<nat>>, assistant: seq<seq<nat>>, workIndex: nat, assistantIndex: nat, ticked: bool,
    remainder: map<nat, nat>, alive: set<nat>, now: nat, due: map<nat, nat>, fired: seq<Firing>)

  datatype Action = AddTask(task: nat, durationMs: nat) | Drop(task: nat) | Tick | Advance

  predicate Sized(w: Wheel) {
    && |w.work| == WORK_WHEEL_SIZE && |w.assistant| == ASSISTANT_WHEEL_SIZE
    && w.workIndex < WORK_WHEEL_SIZE && w.assistantIndex < ASSISTANT_WHEEL_SIZE
  }

  // ceil(duration / 2)
  function Ticks(durationMs: nat): (n: nat)
    ensures TIMER_RESOLUTION_MS * n - 1 <= durationMs <= TIMER_RESOLUTION_MS * n
  {
    (durationMs + TIMER_RESOLUTION_MS - 1) / TIMER_RESOLUTION_MS
  }

  // The tick at which a task armed now for n ticks fires: n ticks later, unless
  // that is more than 64 revolutions ahead and whole laps of both wheels are lost.
  function FireTick(w: Wheel, n: nat): (tick: int) {
    var revolutions := (w.workIndex + n) / WORK_WHEEL_SIZE;
    if n == 0 then (if w.ticked then w.now + WORK_WHEEL_SIZE else w.now)
    else if revolutions <= ASSISTANT_WHEEL_SIZE then w.now + n
    else w.now + n - LAP * ((revolutions - 1) / ASSISTANT_WHEEL_SIZE)
  }

  // Every n the timers use is handled exactly.
  lemma {:induction false} FireTickIsExact(w: Wheel, n: nat)
    requires w.workIndex < WORK_WHEEL_SIZE && n >= 1
    ensures FireTick(w, n) == w.now + n <==> (w.workIndex + n) / WORK_WHEEL_SIZE <= ASSISTANT_WHEEL_SIZE
    ensures n <= LAP ==> FireTick(w, n) == w.now + n
  {
  }

  // The same, told by the tick alone, whose remainder the work index is.
  function FireTickAt(now: nat, n: nat): (tick: nat)
    requires n >= 1
    ensures now + 1 <= tick <= now + n
    ensures n <= LAP ==> tick == now + n
  {
    var index := now % WORK_WHEEL_SIZE;
    var revolutions := (index + n) / WORK_WHEEL_SIZE;
    if revolutions <= ASSISTANT_WHEEL_SIZE then now + n
    else now + n - LAP * ((revolutions - 1) / ASSISTANT_WHEEL_SIZE)
  }

  function Push(wheel: seq<seq<nat>>, i: nat, task: nat): (wheel': seq<seq<nat>>)
    requires i < |wheel|
  {
    wheel[i := wheel[i] + [task]]
  }

  // Whether a task that goes to this index, counted past the end of the work
  // wheel, goes straight into the work wheel.
  predicate ToWorkWheel(w: Wheel, index: nat) {
    index < WORK_WHEEL_SIZE || (index / WORK_WHEEL_SIZE == 1 && index % WORK_WHEEL_SIZE < w.workIndex)
  }

  function AssistantBucket(w: Wheel, index: nat): (b: nat)
    ensures b < ASSISTANT_WHEEL_SIZE
  {
    (w.assistantIndex + index / WORK_WHEEL_SIZE) % ASSISTANT_WHEEL_SIZE
  }

  function DoAddTask(w: Wheel, task: nat, durationMs: nat): (w': Wheel)
    requires Sized(w)
    ensures Sized(w')
  {
    var n := Ticks(durationMs);
    var index := w.workIndex + n;
    var tick := FireTick(w, n);
    var armed := w.(alive := w.alive + {task}, due := w.due[task := if tick >= 0 then tick else 0]);
    var slot := index % WORK_WHEEL_SIZE;
    var noted := if index >= WORK_WHEEL_SIZE then w.remainder[task := slot] else w.remainder;
    if ToWorkWheel(w, index)
    then armed.(remainder := noted, work := Push(w.work, slot, task))
    else armed.(remainder := noted, assistant := Push(w.assistant, AssistantBucket(w, index), task))
  }

  function FiredBy(bucket: seq<nat>, alive: set<nat>, now: nat): (firings: seq<Firing>) {
    if bucket == [] then [] else
    var last := bucket[|bucket| - 1];
    FiredBy(bucket[..|bucket| - 1], alive, now) + if last in alive then [Firing(last, now)] else []
  }

  function Without(due: map<nat, nat>, bucket: seq<nat>): (due': map<nat, nat>) {
    map t | t in due && t !in bucket :: due[t]
  }

  function DoTick(w: Wheel): (w': Wheel)
    requires Sized(w)
    ensures Sized(w')
  {
    var bucket := w.work[w.workIndex];
    w.(work := w.work[w.workIndex := []], ticked := true, due := Without(w.due, bucket),
       fired := w.fired + FiredBy(bucket, w.alive, w.now))
  }

  // What a cascaded bucket adds to work bucket b.
  function Cascaded(bucket: seq<nat>, remainder: map<nat, nat>, alive: set<nat>, b: nat): (tasks: seq<nat>) {
    if bucket == [] then [] else
    var last := bucket[|bucket| - 1];
    Cascaded(bucket[..|bucket| - 1], remainder, alive, b)
      + if last in alive && last in remainder && remainder[last] == b then [last] else []
  }

  function Dead(bucket: seq<nat>, alive: set<nat>): (tasks: seq<nat>) {
    if bucket == [] then [] else
    var last := bucket[|bucket| - 1];
    Dead(bucket[..|bucket| - 1], alive) + if last in alive then [] else [last]
  }

  function DoAdvance(w: Wheel): (w': Wheel)
    requires Sized(w)
    ensures Sized(w')
  {
    var turned := w.(ticked := false, now := w.now + 1, workIndex := (w.workIndex + 1) % WORK_WHEEL_SIZE);
    if turned.workIndex != 0 then turned else
    var a := (w.assistantIndex + 1) % ASSISTANT_WHEEL_SIZE;
    var bucket := w.assistant[a];
    turned.(assistantIndex := a, assistant := w.assistant[a := []], due := Without(w.due, Dead(bucket, w.alive)),
      work := seq(WORK_WHEEL_SIZE, b requires 0 <= b < WORK_WHEEL_SIZE =>
                                     w.work[b] + Cascaded(bucket, w.remainder, w.alive, b)))
  }

  // A task is armed only while it is not in the wheel; TickFunc alternates Tick
  // and Advance.
  function Act(w: Wheel, a: Action): (w': Wheel)
    requires Sized(w)
    ensures Sized(w')
  {
    match a
    case AddTask(task, durationMs) => if task in w.due then w else DoAddTask(w, task, durationMs)
    case Drop(task) => w.(alive := w.alive - {task})
    case Tick => if w.ticked then w else DoTick(w)
    case Advance => if w.ticked then DoAdvance(w) else w
  }

  function Run(w: Wheel, actions: seq<Action>): (w': Wheel)
    requires Sized(w)
    ensures Sized(w')
    decreases |actions|
  {
    if actions == [] then w else Run(Act(w, actions[0]), actions[1..])
  }

  function Init(): (w: Wheel)
    ensures Sized(w)
  {
    Wheel(seq(WORK_WHEEL_SIZE, _ => []), seq(ASSISTANT_WHEEL_SIZE, _ => []), 0, 0, false, map[], {}, 0, map[], [])
  }

  // ---- The invariant ----

  ghost predicate Indices(w: Wheel) {
    && Sized(w)
    && w.workIndex == w.now % WORK_WHEEL_SIZE
    && w.assistantIndex == w.now / WORK_WHEEL_SIZE % ASSISTANT_WHEEL_SIZE
  }

  ghost predicate InWork(w: Wheel, b: nat, t: nat)
    requires Sized(w) && b < WORK_WHEEL_SIZE
  {
    t in w.work[b] ==>
      && t in w.due && w.due[t] % WORK_WHEEL_SIZE == b
      && (if w.ticked then w.now < w.due[t] <= w.now + WORK_WHEEL_SIZE else w.now <= w.due[t] < w.now + WORK_WHEEL_SIZE)
  }

  ghost predicate InAssistant(w: Wheel, b: nat, t: nat)
    requires Sized(w) && b < ASSISTANT_WHEEL_SIZE
  {
    t in w.assistant[b] ==>
      && t in w.due && w.due[t] / WORK_WHEEL_SIZE % ASSISTANT_WHEEL_SIZE == b
      && w.now / WORK_WHEEL_SIZE < w.due[t] / WORK_WHEEL_SIZE <= w.now / WORK_WHEEL_SIZE + ASSISTANT_WHEEL_SIZE
      && t in w.remainder && w.remainder[t] == w.due[t] % WORK_WHEEL_SIZE
  }

  // How often t occurs in the two buckets where it may be.
  ghost function Places(w: Wheel, t: nat): (n: nat)
    requires Sized(w) && t in w.due
  {
    multiset(w.work[w.due[t] % WORK_WHEEL_SIZE])[t]
      + multiset(w.assistant[w.due[t] / WORK_WHEEL_SIZE % ASSISTANT_WHEEL_SIZE])[t]
  }

  ghost predicate Inv(w: Wheel) {
    && Indices(w)
    && (forall b: nat, t: nat | b < WORK_WHEEL_SIZE :: InWork(w, b, t))
    && (forall b: nat, t: nat | b < ASSISTANT_WHEEL_SIZE :: InAssistant(w, b, t))
    && (forall t: nat | t in w.due :: Places(w, t) == 1)
  }

  lemma {:induction false} FireTickByTick(w: Wheel, n: nat)
    requires Indices(w) && n >= 1
    ensures FireTick(w, n) == FireTickAt(w.now, n)
  {
  }

  lemma {:induction false} InitInv()
    ensures Inv(Init())
  {
  }

  // The bucket chosen is the one that the tick to fire at belongs to.
  lemma {:induction false} BucketOfFireTick(w: Wheel, n: nat)
    requires Indices(w)
    ensures var tick, index := FireTick(w, n), w.workIndex + n;
      && tick >= w.now && tick % WORK_WHEEL_SIZE == index % WORK_WHEEL_SIZE
      && if ToWorkWheel(w, index)
         then if w.ticked then w.now < tick <= w.now + WORK_WHEEL_SIZE else w.now <= tick < w.now + WORK_WHEEL_SIZE
         else && w.now / WORK_WHEEL_SIZE < tick / WORK_WHEEL_SIZE <= w.now / WORK_WHEEL_SIZE + ASSISTANT_WHEEL_SIZE
              && AssistantBucket(w, index) == tick / WORK_WHEEL_SIZE % ASSISTANT_WHEEL_SIZE
  {
    if n > 0 {
      var turn, revolutions := w.now / WORK_WHEEL_SIZE, (w.workIndex + n) / WORK_WHEEL_SIZE;
      var laps := Laps(revolutions);
      FireTickParts(w, n);
      SameBucketLapsLater(turn, revolutions, laps);
      if ToWorkWheel(w, w.workIndex + n) {
        assert FireTick(w, n) == w.now + n;
      }
      hide FireTick, Laps;
    }
  }

  // How many whole laps of both wheels are lost.
  function Laps(revolutions: nat): (laps: nat) {
    if revolutions <= ASSISTANT_WHEEL_SIZE then 0 else (revolutions - 1) / ASSISTANT_WHEEL_SIZE
  }

  lemma {:induction false} FireTickParts(w: Wheel, n: nat)
    requires Indices(w) && n >= 1
    ensures var turn, index, tick := w.now / WORK_WHEEL_SIZE, w.workIndex + n, FireTick(w, n);
      var revolutions := index / WORK_WHEEL_SIZE;
      var left := revolutions - ASSISTANT_WHEEL_SIZE * Laps(revolutions);
      && tick == w.now + n - LAP * Laps(revolutions)
      && tick / WORK_WHEEL_SIZE == turn + left && tick % WORK_WHEEL_SIZE == index % WORK_WHEEL_SIZE
      && left <= ASSISTANT_WHEEL_SIZE && (if revolutions == 0 then left == 0 else left >= 1)
  {
    var turn, revolutions := w.now / WORK_WHEEL_SIZE, (w.workIndex + n) / WORK_WHEEL_SIZE;
    var slot, laps := (w.workIndex + n) % WORK_WHEEL_SIZE, Laps(revolutions);
    assert FireTick(w, n) == WORK_WHEEL_SIZE * (turn + revolutions - ASSISTANT_WHEEL_SIZE * laps) + slot;
    Modular.DivModUnique(WORK_WHEEL_SIZE, turn + revolutions - ASSISTANT_WHEEL_SIZE * laps, slot);
  }

  lemma {:induction false} SameBucketLapsLater(turn: nat, revolutions: nat, laps: nat)
    ensures (turn % ASSISTANT_WHEEL_SIZE + revolutions) % ASSISTANT_WHEEL_SIZE
         == (turn + revolutions - ASSISTANT_WHEEL_SIZE * laps) % ASSISTANT_WHEEL_SIZE
  {
  }

  lemma {:induction false} AddTaskKeepsInv(w: Wheel, task: nat, durationMs: nat)
    requires Inv(w) && task !in w.due
    ensures Inv(DoAddTask(w, task, durationMs))
    ensures DoAddTask(w, task, durationMs).due[task] == FireTick(w, Ticks(durationMs)) >= w.now
  {
    BucketOfFireTick(w, Ticks(durationMs));
    hide FireTick, Ticks;
    var w' := DoAddTask(w, task, durationMs);
    forall b: nat, t: nat | b < WORK_WHEEL_SIZE ensures InWork(w', b, t) {
      AddedInWork(w, task, durationMs, b, t);
    }
    forall b: nat, t: nat | b < ASSISTANT_WHEEL_SIZE ensures InAssistant(w', b, t) {
      AddedInAssistant(w, task, durationMs, b, t);
    }
    forall t: nat | t in w'.due ensures Places(w', t) == 1 {
      AddedPlaces(w, task, durationMs, t);
    }
  }

  lemma {:induction false} AddedInWork(w: Wheel, task: nat, durationMs: nat, b: nat, t: nat)
    requires Inv(w) && task !in w.due && b < WORK_WHEEL_SIZE
    ensures InWork(DoAddTask(w, task, durationMs), b, t)
  {
    BucketOfFireTick(w, Ticks(durationMs));
    hide FireTick, Ticks;
    assert InWork(w, b, t);
  }

  lemma {:induction false} AddedInAssistant(w: Wheel, task: nat, durationMs: nat, b: nat, t: nat)
    requires Inv(w) && task !in w.due && b < ASSISTANT_WHEEL_SIZE
    ensures InAssistant(DoAddTask(w, task, durationMs), b, t)
  {
    BucketOfFireTick(w, Ticks(durationMs));
    hide FireTick, Ticks;
    assert InAssistant(w, b, t);
  }

  lemma {:induction false} AddedPlaces(w: Wheel, task: nat, durationMs: nat, t: nat)
    requires Inv(w) && task !in w.due && t in DoAddTask(w, task, durationMs).due
    ensures Places(DoAddTask(w, task, durationMs), t) == 1
  {
    BucketOfFireTick(w, Ticks(durationMs));
    hide FireTick, Ticks;
    if t == task {
      var w' := DoAddTask(w, task, durationMs);
      var b, c := w'.due[t] % WORK_WHEEL_SIZE, w'.due[t] / WORK_WHEEL_SIZE % ASSISTANT_WHEEL_SIZE;
      assert InWork(w, b, t) && InAssistant(w, c, t);
    } else {
      assert Places(w, t) == 1;
      OthersKeepPlaces(w, task, durationMs, t);
    }
  }

  lemma {:induction false} OthersKeepPlaces(w: Wheel, task: nat, durationMs: nat, t: nat)
    requires Sized(w) && t in w.due && t != task
    ensures Places(DoAddTask(w, task, durationMs), t) == Places(w, t)
  {
    hide FireTick, Ticks, AssistantBucket, ToWorkWheel;
  }

  // The current bucket holds exactly the tasks due at this tick, each once.
  lemma {:induction false} BucketAtTick(w: Wheel, t: nat)
    requires Inv(w) && !w.ticked
    ensures multiset(w.work[w.workIndex])[t] == if t in w.due && w.due[t] == w.now then 1 else 0
  {
    if t in w.work[w.workIndex] {
      assert InWork(w, w.workIndex, t);
      SameBucketSameTick(w.now, w.due[t]);
    }
    if t in w.due && w.due[t] == w.now {
      assert Places(w, t) == 1;
      assert InAssistant(w, w.now / WORK_WHEEL_SIZE % ASSISTANT_WHEEL_SIZE, t);
    }
  }

  lemma {:induction false} SameBucketSameTick(now: nat, tick: nat)
    requires now <= tick < now + WORK_WHEEL_SIZE && now % WORK_WHEEL_SIZE == tick % WORK_WHEEL_SIZE
    ensures now == tick
  {
  }

  lemma {:induction false} TickKeepsInv(w: Wheel)
    requires Inv(w) && !w.ticked
    ensures Inv(DoTick(w))
    ensures forall t: nat :: t in DoTick(w).due <==> t in w.due && w.due[t] != w.now
  {
    var w', bucket := DoTick(w), w.work[w.workIndex];
    forall t: nat ensures t in bucket <==> t in w.due && w.due[t] == w.now {
      BucketAtTick(w, t);
    }
    forall b: nat, t: nat | b < WORK_WHEEL_SIZE ensures InWork(w', b, t) {
      assert InWork(w, b, t);
    }
    forall b: nat, t: nat | b < ASSISTANT_WHEEL_SIZE ensures InAssistant(w', b, t) {
      assert InAssistant(w, b, t);
    }
    forall t: nat | t in w'.due ensures Places(w', t) == 1 {
      assert Places(w, t) == 1;
    }
  }

  lemma {:induction false} CascadedOccurrences(bucket: seq<nat>, remainder: map<nat, nat>, alive: set<nat>,
                                               b: nat, t: nat)
    ensures multiset(Cascaded(bucket, remainder, alive, b))[t] ==
      if t in alive && t in remainder && remainder[t] == b then multiset(bucket)[t] else 0
    ensures t in Dead(bucket, alive) <==> t in bucket && t !in alive
  {
    if bucket != [] {
      var front, last := bucket[..|bucket| - 1], bucket[|bucket| - 1];
      assert bucket == front + [last];
      CascadedOccurrences(front, remainder, alive, b, t);
    }
  }

  lemma {:induction false} AdvanceKeepsInv(w: Wheel)
    requires Inv(w) && w.ticked
    ensures Inv(DoAdvance(w))
    ensures forall t: nat | t in w.due && t in w.alive :: t in DoAdvance(w).due && DoAdvance(w).due[t] == w.due[t]
    ensures forall t: nat | t in DoAdvance(w).due :: t in w.due && DoAdvance(w).due[t] == w.due[t]
  {
    if DoAdvance(w).workIndex != 0 {
      WithinARevolution(w);
    } else {
      CascadeKeepsInv(w);
    }
  }

  lemma {:induction false} WithinARevolution(w: Wheel)
    requires Inv(w) && w.ticked && DoAdvance(w).workIndex != 0
    ensures Inv(DoAdvance(w))
  {
    var w' := DoAdvance(w);
    assert w'.now == w.now + 1 && w'.now / WORK_WHEEL_SIZE == w.now / WORK_WHEEL_SIZE;
    forall b: nat, t: nat | b < WORK_WHEEL_SIZE ensures InWork(w', b, t) {
      assert InWork(w, b, t);
    }
    forall b: nat, t: nat | b < ASSISTANT_WHEEL_SIZE ensures InAssistant(w', b, t) {
      assert InAssistant(w, b, t);
    }
    forall t: nat | t in w'.due ensures Places(w', t) == 1 {
      assert Places(w, t) == 1;
    }
  }

  // The assistant bucket reached holds exactly the tasks due in the revolution that begins.
  lemma {:induction false} CascadeKeepsInv(w: Wheel)
    requires Inv(w) && w.ticked && DoAdvance(w).workIndex == 0
    ensures Inv(DoAdvance(w))
    ensures forall t: nat | t in w.due && t in w.alive :: t in DoAdvance(w).due && DoAdvance(w).due[t] == w.due[t]
  {
    CascadeKeepsDue(w);
    RevolutionEnds(w);
    hide DoAdvance, InWork, InAssistant, Places;
    var w' := DoAdvance(w);
    forall b: nat, t: nat | b < WORK_WHEEL_SIZE ensures InWork(w', b, t) {
      CascadedInWork(w, b, t);
    }
    forall b: nat, t: nat | b < ASSISTANT_WHEEL_SIZE ensures InAssistant(w', b, t) {
      CascadedInAssistant(w, b, t);
    }
    forall t: nat | t in w'.due ensures Places(w', t) == 1 {
      CascadedPlaces(w, t);
    }
  }

  lemma {:induction false} CascadeKeepsDue(w: Wheel)
    requires Sized(w) && DoAdvance(w).workIndex == 0
    ensures forall t: nat | t in w.due && t in w.alive :: t in DoAdvance(w).due && DoAdvance(w).due[t] == w.due[t]
  {
    var bucket := w.assistant[DoAdvance(w).assistantIndex];
    forall t: nat | t in w.due && t in w.alive ensures t in DoAdvance(w).due && DoAdvance(w).due[t] == w.due[t] {
      CascadedOccurrences(bucket, w.remainder, w.alive, 0, t);
    }
  }

  // A revolution ends: now and both indices turn over together.
  lemma {:induction false} RevolutionEnds(w: Wheel)
    requires Indices(w) && w.ticked && DoAdvance(w).workIndex == 0
    ensures var w' := DoAdvance(w);
      && w'.now == w.now + 1 && w'.now % WORK_WHEEL_SIZE == 0
      && w'.now / WORK_WHEEL_SIZE == w.now / WORK_WHEEL_SIZE + 1
      && w'.assistantIndex == w'.now / WORK_WHEEL_SIZE % ASSISTANT_WHEEL_SIZE
  {
    assert (w.now + 1) % 512 == (w.now % 512 + 1) % 512;
  }

  lemma {:induction false} CascadedInAssistant(w: Wheel, b: nat, t: nat)
    requires Inv(w) && w.ticked && DoAdvance(w).workIndex == 0 && b < ASSISTANT_WHEEL_SIZE
    ensures InAssistant(DoAdvance(w), b, t)
  {
    RevolutionEnds(w);
    var a := DoAdvance(w).assistantIndex;
    CascadedOccurrences(w.assistant[a], w.remainder, w.alive, 0, t);
    CascadeResult(w, 0);
    assert InAssistant(w, b, t) && InAssistant(w, a, t);
    hide Inv, Cascaded, Dead, DoAdvance;
    if b != a && t in w.assistant[b] {
      OtherRevolution(w.now / WORK_WHEEL_SIZE, w.due[t] / WORK_WHEEL_SIZE, b, a);
      assert t !in w.assistant[a];
    }
  }

  lemma {:induction false} OtherRevolution(turn: nat, mine: nat, b: nat, a: nat)
    requires mine % ASSISTANT_WHEEL_SIZE == b && (turn + 1) % ASSISTANT_WHEEL_SIZE == a != b
    requires turn < mine <= turn + ASSISTANT_WHEEL_SIZE
    ensures turn + 1 < mine
  {
  }

  lemma {:induction false} CascadeResult(w: Wheel, b: nat)
    requires Sized(w) && DoAdvance(w).workIndex == 0 && b < WORK_WHEEL_SIZE
    ensures var w', bucket := DoAdvance(w), w.assistant[DoAdvance(w).assistantIndex];
      && w'.work[b] == w.work[b] + Cascaded(bucket, w.remainder, w.alive, b)
      && w'.due == Without(w.due, Dead(bucket, w.alive)) && !w'.ticked && w'.remainder == w.remainder
      && w'.assistant == w.assistant[w'.assistantIndex := []]
  {
  }

  lemma {:induction false} NotInBothWheels(w: Wheel, b: nat, a: nat, t: nat)
    requires Inv(w) && b < WORK_WHEEL_SIZE && a < ASSISTANT_WHEEL_SIZE && t in w.work[b]
    ensures t !in w.assistant[a]
  {
    assert InWork(w, b, t) && InAssistant(w, a, t);
    assert Places(w, t) == 1;
  }

  lemma {:induction false} CascadedInWork(w: Wheel, b: nat, t: nat)
    requires Inv(w) && w.ticked && DoAdvance(w).workIndex == 0 && b < WORK_WHEEL_SIZE
    ensures InWork(DoAdvance(w), b, t)
  {
    RevolutionEnds(w);
    CascadeResult(w, b);
    var w' := DoAdvance(w);
    var bucket := w.assistant[w'.assistantIndex];
    assert InWork(w, b, t) && InAssistant(w, w'.assistantIndex, t);
    CascadedOccurrences(bucket, w.remainder, w.alive, b, t);
    hide Inv, Cascaded, Dead, DoAdvance;
    if t in w.work[b] {
      NotInBothWheels(w, b, w'.assistantIndex, t);
    } else if t in Cascaded(bucket, w.remainder, w.alive, b) {
      assert multiset(Cascaded(bucket, w.remainder, w.alive, b))[t] > 0;
      assert t in bucket;
      CascadedIsDue(w, t);
    }
  }

  lemma {:induction false} CascadedIsDue(w: Wheel, t: nat)
    requires Indices(w) && w.ticked && DoAdvance(w).workIndex == 0
    requires InAssistant(w, DoAdvance(w).assistantIndex, t) && t in w.assistant[DoAdvance(w).assistantIndex]
    ensures t in w.due && w.due[t] / WORK_WHEEL_SIZE == (w.now + 1) / WORK_WHEEL_SIZE
    ensures w.now + 1 <= w.due[t] < w.now + 1 + WORK_WHEEL_SIZE
  {
    RevolutionEnds(w);
    var turn, mine := w.now / WORK_WHEEL_SIZE, w.due[t] / WORK_WHEEL_SIZE;
    assert mine % 64 == (turn + 1) % 64 && turn < mine <= turn + 64;
    SameTurn(turn + 1, mine);
  }

  lemma {:induction false} SameTurn(turn: nat, mine: nat)
    requires turn <= mine < turn + 64 && mine % 64 == turn % 64
    ensures mine == turn
  {
  }

  lemma {:induction false} CascadedPlaces(w: Wheel, t: nat)
    requires Inv(w) && w.ticked && DoAdvance(w).workIndex == 0 && t in DoAdvance(w).due
    ensures Places(DoAdvance(w), t) == 1
  {
    var w' := DoAdvance(w);
    var a := w'.assistantIndex;
    var b, c := w.due[t] % WORK_WHEEL_SIZE, w.due[t] / WORK_WHEEL_SIZE % ASSISTANT_WHEEL_SIZE;
    assert Places(w, t) == 1;
    assert InAssistant(w, a, t) && InAssistant(w, c, t) && InWork(w, b, t);
    CascadedOccurrences(w.assistant[a], w.remainder, w.alive, b, t);
  }

  lemma {:induction false} ActKeepsInv(w: Wheel, a: Action)
    requires Inv(w)
    ensures Inv(Act(w, a))
  {
    match a
    case AddTask(task, durationMs) => if task !in w.due { AddTaskKeepsInv(w, task, durationMs); }
    case Drop(task) => DropKeepsInv(w, task);
    case Tick => if !w.ticked { TickKeepsInv(w); }
    case Advance => if w.ticked { AdvanceKeepsInv(w); }
  }

  lemma {:induction false} DropKeepsInv(w: Wheel, task: nat)
    requires Inv(w)
    ensures Inv(Act(w, Drop(task)))
  {
    var w' := Act(w, Drop(task));
    assert forall b: nat, t: nat | b < WORK_WHEEL_SIZE :: InWork(w, b, t) ==> InWork(w', b, t);
    assert forall b: nat, t: nat | b < ASSISTANT_WHEEL_SIZE :: InAssistant(w, b, t) ==> InAssistant(w', b, t);
    assert forall t: nat | t in w'.due :: Places(w, t) == Places(w', t);
  }

  lemma {:induction false} RemaindersInWork(w: Wheel, a: nat)
    requires Inv(w) && a < ASSISTANT_WHEEL_SIZE
    ensures forall t | t in w.assistant[a] :: t in w.remainder && w.remainder[t] < WORK_WHEEL_SIZE
  {
    forall t | t in w.assistant[a] ensures t in w.remainder && w.remainder[t] < WORK_WHEEL_SIZE {
      assert InAssistant(w, a, t);
    }
  }

  lemma {:induction false} RunKeepsInv(w: Wheel, actions: seq<Action>)
    requires Inv(w)
    ensures Inv(Run(w, actions))
    decreases |actions|
  {
    if actions != [] {
      ActKeepsInv(w, actions[0]);
      RunKeepsInv(Act(w, actions[0]), actions[1..]);
    }
  }

  // ---- Main results ----

  // The ticks at which task t has fired.
  function TicksOf(fired: seq<Firing>, t: nat): (ticks: seq<nat>) {
    if fired == [] then [] else
    var last := fired[|fired| - 1];
    TicksOf(fired[..|fired| - 1], t) + if last.task == t then [last.tick] else []
  }

  lemma {:induction false} TicksOfAppend(a: seq<Firing>, b: seq<Firing>, t: nat)
    ensures TicksOf(a + b, t) == TicksOf(a, t) + TicksOf(b, t)
  {
    if b == [] {
      assert a + b == a;
    } else {
      assert (a + b)[..|a + b| - 1] == a + b[..|b| - 1];
      TicksOfAppend(a, b[..|b| - 1], t);
    }
  }

  lemma {:induction false} FiredByTicks(bucket: seq<nat>, alive: set<nat>, now: nat, t: nat)
    ensures |TicksOf(FiredBy(bucket, alive, now), t)| == if t in alive then multiset(bucket)[t] else 0
    ensures forall k | k in TicksOf(FiredBy(bucket, alive, now), t) :: k == now
  {
    if bucket != [] {
      var front, last := bucket[..|bucket| - 1], bucket[|bucket| - 1];
      assert bucket == front + [last];
      FiredByTicks(front, alive, now, t);
      if last in alive {
        var one := [Firing(last, now)];
        assert one[..0] == [] && TicksOf(one, t) == if last == t then [now] else [];
        TicksOfAppend(FiredBy(front, alive, now), one, t);
      } else {
        assert FiredBy(bucket, alive, now) == FiredBy(front, alive, now);
      }
    }
  }

  predicate Leaves(a: Action, t: nat) {
    match a
    case AddTask(task, _) => task != t
    case Drop(task) => task != t
    case _ => true
  }

  ghost predicate Passed(w: Wheel, tick: nat) {
    w.now > tick || (w.now == tick && w.ticked)
  }

  // A tick fires exactly the live tasks that are due at it, each once.
  lemma {:induction false} TickFiresWhatIsDue(w: Wheel, t: nat)
    requires Inv(w) && !w.ticked
    ensures TicksOf(DoTick(w).fired, t) ==
      TicksOf(w.fired, t) + if t in w.due && w.due[t] == w.now && t in w.alive then [w.now] else []
  {
    var bucket := w.work[w.workIndex];
    var firings := FiredBy(bucket, w.alive, w.now);
    TicksOfAppend(w.fired, firings, t);
    FiredByTicks(bucket, w.alive, w.now, t);
    BucketAtTick(w, t);
    hide Inv, FiredBy, TicksOf;
    var ticks := TicksOf(firings, t);
    if |ticks| == 1 {
      assert ticks[0] in ticks;
    }
  }

  // What one action does to a task that it is not about.
  lemma {:induction false} ActOnOther(w: Wheel, a: Action, t: nat)
    requires Inv(w) && Leaves(a, t)
    ensures var w' := Act(w, a);
      && (t in w.alive ==> t in w'.alive)
      && (t !in w.due ==> t !in w'.due && TicksOf(w'.fired, t) == TicksOf(w.fired, t))
      && (t in w.due && t in w.alive ==>
            if a.Tick? && !w.ticked && w.due[t] == w.now
            then t !in w'.due && TicksOf(w'.fired, t) == TicksOf(w.fired, t) + [w.now]
            else t in w'.due && w'.due[t] == w.due[t] && TicksOf(w'.fired, t) == TicksOf(w.fired, t))
  {
    match a
    case AddTask(task, _) =>
    case Drop(task) =>
    case Tick =>
      if !w.ticked {
        TickKeepsInv(w);
        TickFiresWhatIsDue(w, t);
      }
    case Advance => if w.ticked { AdvanceKeepsInv(w); }
  }

  lemma {:induction false} NotPassedWhileDue(w: Wheel, t: nat)
    requires Inv(w) && t in w.due
    ensures !Passed(w, w.due[t])
  {
    assert Places(w, t) == 1;
    assert InWork(w, w.due[t] % WORK_WHEEL_SIZE, t);
    assert InAssistant(w, w.due[t] / WORK_WHEEL_SIZE % ASSISTANT_WHEEL_SIZE, t);
  }

  // A live task in the wheel stays in exactly one bucket until its tick and fires
  // then, once; afterwards it fires no more.
  lemma {:induction false} FiresExactlyOnce(w: Wheel, actions: seq<Action>, t: nat)
    requires Inv(w) && t in w.due && t in w.alive
    requires forall i | 0 <= i < |actions| :: Leaves(actions[i], t)
    ensures var w', tick := Run(w, actions), w.due[t];
      && Inv(w')
      && if Passed(w', tick)
         then t !in w'.due && TicksOf(w'.fired, t) == TicksOf(w.fired, t) + [tick]
         else t in w'.due && w'.due[t] == tick && Places(w', t) == 1 && TicksOf(w'.fired, t) == TicksOf(w.fired, t)
    decreases |actions|
  {
    NotPassedWhileDue(w, t);
    if actions != [] {
      var w1 := Act(w, actions[0]);
      ActKeepsInv(w, actions[0]);
      ActOnOther(w, actions[0], t);
      if t in w1.due {
        FiresExactlyOnce(w1, actions[1..], t);
      } else {
        NeverFiresAgain(w1, actions[1..], t, w.now);
      }
    }
  }

  lemma {:induction false} NeverFiresAgain(w: Wheel, actions: seq<Action>, t: nat, tick: nat)
    requires Inv(w) && t !in w.due && Passed(w, tick)
    requires forall i | 0 <= i < |actions| :: Leaves(actions[i], t)
    ensures var w' := Run(w, actions);
      Inv(w') && t !in w'.due && Passed(w', tick) && TicksOf(w'.fired, t) == TicksOf(w.fired, t)
    decreases |actions|
  {
    if actions != [] {
      ActKeepsInv(w, actions[0]);
      ActOnOther(w, actions[0], t);
      NeverFiresAgain(Act(w, actions[0]), actions[1..], t, tick);
    }
  }

  // For any duration at all, the tick is the one FireTick gives.
  lemma {:induction false} ArmedTaskFiresAtFireTick(w: Wheel, task: nat, durationMs: nat, after: seq<Action>)
    requires Inv(w) && task !in w.due
    requires forall i | 0 <= i < |after| :: Leaves(after[i], task)
    ensures var w', tick := Run(Act(w, AddTask(task, durationMs)), after), FireTick(w, Ticks(durationMs));
      tick >= 0 && TicksOf(w'.fired, task) == TicksOf(w.fired, task) + if Passed(w', tick) then [tick] else []
  {
    AddTaskKeepsInv(w, task, durationMs);
    FiresExactlyOnce(DoAddTask(w, task, durationMs), after, task);
  }

  lemma {:induction false} TicksInRange(durationMs: nat)
    requires 1 <= durationMs <= TIMER_RESOLUTION_MS * LAP
    ensures 1 <= Ticks(durationMs) <= LAP
  {
  }

  // A task armed at any moment of any run for a duration of at most 65536 ms
  // fires exactly once, ceil(duration / 2) ticks later, whichever bucket it took.
  lemma {:induction false} ArmedTaskFiresOnTime(before: seq<Action>, task: nat, durationMs: nat, after: seq<Action>)
    requires 1 <= durationMs <= TIMER_RESOLUTION_MS * LAP
    requires task !in Run(Init(), before).due
    requires forall i | 0 <= i < |after| :: Leaves(after[i], task)
    ensures var w := Run(Init(), before);
      var w', tick := Run(Act(w, AddTask(task, durationMs)), after), w.now + Ticks(durationMs);
      TicksOf(w'.fired, task) == TicksOf(w.fired, task) + if Passed(w', tick) then [tick] else []
  {
    InitInv();
    RunKeepsInv(Init(), before);
    var w := Run(Init(), before);
    TicksInRange(durationMs);
    FireTickIsExact(w, Ticks(durationMs));
    hide Inv, Run, FireTick, Ticks, TicksOf, DoAddTask, Act;
    ArmedTaskFiresAtFireTick(w, task, durationMs, after);
  }

  // What the tick thread does, over and over.
  function Rounds(k: nat): (actions: seq<Action>) {
    if k == 0 then [] else [Tick, Advance] + Rounds(k - 1)
  }

  // Each round is one tick.
  lemma {:induction false} RoundsPass(w: Wheel, k: nat)
    requires Sized(w)
    ensures Run(w, Rounds(k)).now == w.now + k && (k > 0 || !w.ticked ==> !Run(w, Rounds(k)).ticked)
    ensures forall i, t | 0 <= i < |Rounds(k)| :: Leaves(Rounds(k)[i], t)
    decreases k
  {
    if k > 0 {
      var w1 := Act(w, Tick);
      var w2 := Act(w1, Advance);
      RoundsPass(w2, k - 1);
      assert ([Tick, Advance] + Rounds(k - 1))[1..] == [Advance] + Rounds(k - 1);
      assert ([Advance] + Rounds(k - 1))[1..] == Rounds(k - 1);
      assert w1.ticked && w2.now == w.now + 1 && !w2.ticked;
      hide Act;
      assert Run(w, Rounds(k)) == Run(w1, [Advance] + Rounds(k - 1)) == Run(w2, Rounds(k - 1));
    }
  }

  lemma {:induction false} ArmingTakesNoTime(w: Wheel, task: nat, durationMs: nat)
    requires Inv(w)
    ensures w.workIndex < WORK_WHEEL_SIZE && Act(w, AddTask(task, durationMs)).now == w.now
  {
  }

  // So a task armed for n ticks has fired, once and at the right one, after n + 1 rounds.
  lemma {:induction false} ArmedTaskHasFired(w: Wheel, task: nat, durationMs: nat)
    requires Inv(w) && task !in w.due && 1 <= durationMs <= TIMER_RESOLUTION_MS * LAP
    ensures var n := Ticks(durationMs);
      TicksOf(Run(Act(w, AddTask(task, durationMs)), Rounds(n + 1)).fired, task)
      == TicksOf(w.fired, task) + [w.now + n]
  {
    var n, w1 := Ticks(durationMs), Act(w, AddTask(task, durationMs));
    ArmingTakesNoTime(w, task, durationMs);
    TicksInRange(durationMs);
    FireTickIsExact(w, n);
    hide Inv, Run, FireTick, Ticks, TicksOf, DoAddTask, Act, Rounds;
    RoundsPass(w1, n + 1);
    ArmedTaskFiresAtFireTick(w, task, durationMs, Rounds(n + 1));
  }

  // A task whose pointer has expired fires no more, whatever bucket it is still in.
  lemma {:induction false} DroppedTaskIsSilent(w: Wheel, actions: seq<Action>, t: nat)
    requires Sized(w)
    requires forall i | 0 <= i < |actions| :: !actions[i].AddTask? || actions[i].task != t
    ensures TicksOf(Run(Act(w, Drop(t)), actions).fired, t) == TicksOf(w.fired, t)
  {
    DeadTaskIsSilent(Act(w, Drop(t)), actions, t);
  }

  lemma {:induction false} DeadTaskIsSilent(w: Wheel, actions: seq<Action>, t: nat)
    requires Sized(w) && t !in w.alive
    requires forall i | 0 <= i < |actions| :: !actions[i].AddTask? || actions[i].task != t
    ensures TicksOf(Run(w, actions).fired, t) == TicksOf(w.fired, t)
    decreases |actions|
  {
    if actions != [] {
      DeadTaskStaysDead(w, actions[0], t);
      DeadTaskIsSilent(Act(w, actions[0]), actions[1..], t);
    }
  }

  lemma {:induction false} DeadTaskStaysDead(w: Wheel, a: Action, t: nat)
    requires Sized(w) && t !in w.alive && (!a.AddTask? || a.task != t)
    ensures t !in Act(w, a).alive && TicksOf(Act(w, a).fired, t) == TicksOf(w.fired, t)
  {
    if a.Tick? && !w.ticked {
      var firings := FiredBy(w.work[w.workIndex], w.alive, w.now);
      FiredByTicks(w.work[w.workIndex], w.alive, w.now, t);
      TicksOfAppend(w.fired, firings, t);
    }
    hide FiredBy, TicksOf;
  }

  // A task armed goes behind those that are in its bucket, and no other bucket changes.
  lemma {:induction false} ArmedTaskGoesLast(w: Wheel, task: nat, durationMs: nat)
    requires Sized(w) && task !in w.due
    ensures var w' := Act(w, AddTask(task, durationMs));
      || (w'.assistant == w.assistant
          && exists b :: 0 <= b < WORK_WHEEL_SIZE && w'.work == w.work[b := w.work[b] + [task]])
      || (w'.work == w.work
          && exists b :: 0 <= b < ASSISTANT_WHEEL_SIZE && w'.assistant == w.assistant[b := w.assistant[b] + [task]])
  {
    var index := w.workIndex + Ticks(durationMs);
    var w' := Act(w, AddTask(task, durationMs));
    var slot, b := index % WORK_WHEEL_SIZE, AssistantBucket(w, index);
    hide FireTick, Ticks, AssistantBucket;
    if ToWorkWheel(w, index) {
      assert w'.work == w.work[slot := w.work[slot] + [task]];
    } else {
      assert w'.assistant == w.assistant[b := w.assistant[b] + [task]];
    }
  }

  // Tasks of one bucket are fired, and cascaded into another one, in their order.
  lemma {:induction false} TasksStayInOrder(early: seq<nat>, late: seq<nat>, remainder: map<nat, nat>, alive: set<nat>,
                                            b: nat, now: nat)
    ensures FiredBy(early + late, alive, now) == FiredBy(early, alive, now) + FiredBy(late, alive, now)
    ensures Cascaded(early + late, remainder, alive, b)
         == Cascaded(early, remainder, alive, b) + Cascaded(late, remainder, alive, b)
    decreases |late|
  {
    if late == [] {
      assert early + late == early;
    } else {
      assert (early + late)[..|early + late| - 1] == early + late[..|late| - 1];
      TasksStayInOrder(early, late[..|late| - 1], remainder, alive, b, now);
    }
  }

  // 65538 ms, one resolution beyond the range, armed on the last bucket of the
  // work wheel, fires after a single tick.
  lemma {:induction false} TooLongADurationFiresEarly(w: Wheel)
    requires w.workIndex == WORK_WHEEL_SIZE - 1
    ensures Ticks(65538) == LAP + 1 && FireTick(w, Ticks(65538)) == w.now + 1
  {
  }

  function FiringsAt(callbacks: seq<nat>, tick: nat): (firings: seq<Firing>) {
    seq(|callbacks|, i requires 0 <= i < |callbacks| => Firing(callbacks[i], tick))
  }

  // ---- The object, changed in place ----

  class TimingWheel {
    const workWheel: array<seq<nat>>
    const assistantWheel: array<seq<nat>>
    var currentWorkWheelIndex: nat
    var currentAssistantWheelIndex: nat
    var remainder: map<nat, nat>
    var alive: set<nat>
    var ticked: bool
    ghost var now: nat
    ghost var due: map<nat, nat>
    ghost var fired: seq<Firing>

    ghost function Model(): (w: Wheel)
      reads this, workWheel, assistantWheel
    {
      Wheel(workWheel[..], assistantWheel[..], currentWorkWheelIndex, currentAssistantWheelIndex, ticked,
        remainder, alive, now, due, fired)
    }

    ghost predicate Valid()
      reads this, workWheel, assistantWheel
    {
      workWheel != assistantWheel && Inv(Model())
    }

    constructor ()
      ensures Valid() && Model() == Init() && fresh(workWheel) && fresh(assistantWheel)
    {
      workWheel := new seq<nat>[WORK_WHEEL_SIZE](_ => []);
      assistantWheel := new seq<nat>[ASSISTANT_WHEEL_SIZE](_ => []);
      currentWorkWheelIndex, currentAssistantWheelIndex, ticked := 0, 0, false;
      remainder, alive := map[], {};
      now, due, fired := 0, map[], [];
      new;
      assert workWheel[..] == Init().work && assistantWheel[..] == Init().assistant;
      InitInv();
    }

    method AddTask(task: nat, durationMs: nat)
      requires Valid() && task !in due
      modifies this, workWheel, assistantWheel
      ensures Valid() && Model() == DoAddTask(old(Model()), task, durationMs)
    {
      AddTaskKeepsInv(Model(), task, durationMs);
      Arm(task, durationMs);
    }

    method Arm(task: nat, durationMs: nat)
      requires workWheel != assistantWheel && Sized(Model())
      modifies this, workWheel, assistantWheel
      ensures Model() == DoAddTask(old(Model()), task, durationMs)
    {
      hide FireTick, Ticks;
      ghost var w' := DoAddTask(Model(), task, durationMs);
      Place(task, currentWorkWheelIndex + Ticks(durationMs));
      due := w'.due;
      alive := alive + {task};
    }

    method Place(task: nat, index: nat)
      requires workWheel != assistantWheel && Sized(Model())
      modifies this`remainder, workWheel, assistantWheel
      ensures var w, slot := old(Model()), index % WORK_WHEEL_SIZE;
        && remainder == (if index >= WORK_WHEEL_SIZE then old(remainder)[task := slot] else old(remainder))
        && workWheel[..] == (if ToWorkWheel(w, index) then Push(w.work, slot, task) else w.work)
        && assistantWheel[..]
           == (if ToWorkWheel(w, index) then w.assistant else Push(w.assistant, AssistantBucket(w, index), task))
    {
      if index >= WORK_WHEEL_SIZE {
        var slot := index % WORK_WHEEL_SIZE;
        remainder := remainder[task := slot];
        var assistantTicks := index / WORK_WHEEL_SIZE;
        if assistantTicks == 1 && slot < currentWorkWheelIndex {
          workWheel[slot] := workWheel[slot] + [task];
        } else {
          var a := (currentAssistantWheelIndex + assistantTicks) % ASSISTANT_WHEEL_SIZE;
          assistantWheel[a] := assistantWheel[a] + [task];
        }
      } else {
        workWheel[index] := workWheel[index] + [task];
      }
    }

    // The fired callbacks come back in the order in which they are started.
    method Tick() returns (callbacks: seq<nat>)
      requires Valid() && !ticked
      modifies this, workWheel
      ensures Valid() && Model() == DoTick(old(Model()))
      ensures fired == old(fired) + FiringsAt(callbacks, now)
    {
      TickKeepsInv(Model());
      ghost var w' := DoTick(Model());
      var bucket := workWheel[currentWorkWheelIndex];
      callbacks := [];
      for i := 0 to |bucket|
        invariant FiringsAt(callbacks, now) == FiredBy(bucket[..i], alive, now)
      {
        assert bucket[..i + 1][..i] == bucket[..i];
        if bucket[i] in alive {
          assert FiringsAt(callbacks + [bucket[i]], now) == FiringsAt(callbacks, now) + [Firing(bucket[i], now)];
          callbacks := callbacks + [bucket[i]];
        }
      }
      assert bucket[..|bucket|] == bucket;
      workWheel[currentWorkWheelIndex] := [];
      ticked := true;
      fired := fired + FiringsAt(callbacks, now);
      due := w'.due;
      assert workWheel[..] == w'.work;
    }

    method Cascade(a: nat)
      requires a < assistantWheel.Length && workWheel != assistantWheel && workWheel.Length == WORK_WHEEL_SIZE
      requires forall t | t in assistantWheel[a] :: t in remainder && remainder[t] < WORK_WHEEL_SIZE
      modifies workWheel, assistantWheel
      ensures assistantWheel[..] == old(assistantWheel[..])[a := []]
      ensures forall b | 0 <= b < WORK_WHEEL_SIZE ::
        workWheel[b] == old(workWheel[b]) + Cascaded(old(assistantWheel[a]), remainder, alive, b)
    {
      var bucket := assistantWheel[a];
      for i := 0 to |bucket|
        modifies workWheel
        invariant forall b | 0 <= b < WORK_WHEEL_SIZE ::
          workWheel[b] == old(workWheel[b]) + Cascaded(bucket[..i], remainder, alive, b)
      {
        assert bucket[..i + 1][..i] == bucket[..i];
        var task := bucket[i];
        assert task in assistantWheel[a];
        if task in alive {
          workWheel[remainder[task]] := workWheel[remainder[task]] + [task];
        }
      }
      assert bucket[..|bucket|] == bucket;
      assistantWheel[a] := [];
    }

    // The part of TickFunc's loop after its sleep.
    method Advance()
      requires Valid() && ticked
      modifies this, workWheel, assistantWheel
      ensures Valid() && Model() == DoAdvance(old(Model()))
    {
      ghost var w, w' := Model(), DoAdvance(Model());
      AdvanceKeepsInv(w);
      RemaindersInWork(w, (w.assistantIndex + 1) % ASSISTANT_WHEEL_SIZE);
      hide Inv, Cascaded, Dead, Without;
      ticked, now, due := false, now + 1, w'.due;
      currentWorkWheelIndex := (currentWorkWheelIndex + 1) % WORK_WHEEL_SIZE;
      if currentWorkWheelIndex == 0 {
        currentAssistantWheelIndex := (currentAssistantWheelIndex + 1) % ASSISTANT_WHEEL_SIZE;
        Cascade(currentAssistantWheelIndex);
        forall b | 0 <= b < WORK_WHEEL_SIZE ensures workWheel[b] == w'.work[b] {
          CascadeResult(w, b);
        }
        assert workWheel[..] == w'.work;
      }
    }
  }
}
