// cyber/data/cache_buffer.h, channel_buffer.h and data_visitor.h: the ring that a
// channel's messages are put into, and the reader that follows it.  Calls on one
// buffer are serialised by its mutex.
module ChannelData {
  import opened Wrappers
  import Modular

  // The position before the oldest one kept, once `tail` values have been put in.
  function HeadAfter(size: nat, tail: nat): (head: nat)
    ensures head <= tail <= head + size
  {
    if tail > size then tail - size else 0
  }

  class CacheBuffer<T(0)> {
    var head: nat
    var tail: nat
    const capacity: nat
    const buffer: array<T>
    ghost var history: seq<T>  // every value ever put in

    // Position p of the history lives in slot p % capacity while it is live.
    ghost predicate Valid()
      reads this, buffer
    {
      && capacity == buffer.Length >= 1
      && |history| == tail && head == HeadAfter(capacity - 1, tail)
      && forall p | head < p <= tail :: buffer[GetIndex(p)] == history[p - 1]
    }

    function GetIndex(pos: nat): (i: nat)
      requires capacity >= 1
      ensures i < capacity
    {
      pos % capacity
    }

    constructor (size: nat)
      ensures Valid() && fresh(buffer) && capacity == size + 1 && history == []
    {
      capacity := size + 1;
      buffer := new T[size + 1];
      head, tail, history := 0, 0, [];
    }

    predicate Empty() reads this { tail == 0 }
    predicate Full() reads this { capacity - 1 == tail - head }
    function Size(): (n: int) reads this { tail - head }

    method Fill(value: T)
      requires Valid()
      modifies this, buffer
      ensures Valid() && history == old(history) + [value]
    {
      forall p | head < p <= tail ensures capacity > 1 && p % capacity != (tail + 1) % capacity {
        Modular.SameModWithinOneLap(capacity, p, tail + 1);
      }
      if Full() {
        Modular.SameModWithinOneLap(capacity, head, tail + 1);
        buffer[GetIndex(head)] := value;
        head := head + 1;
        tail := tail + 1;
      } else {
        buffer[GetIndex(tail + 1)] := value;
        tail := tail + 1;
      }
      history := history + [value];
    }

    method At(pos: nat) returns (value: T)
      requires Valid() && head < pos <= tail
      ensures value == history[pos - 1]
    {
      value := buffer[GetIndex(pos)];
    }

    // The last min(k, Size) values, in order; nothing at all before the first Fill.
    method FetchMulti(fetchSize: nat) returns (ok: bool, values: seq<T>)
      requires Valid()
      ensures ok == (history != [])
      ensures ok ==> values == history[tail - (if tail - head < fetchSize then tail - head else fetchSize)..]
      ensures !ok ==> values == []
    {
      values := [];
      ok := !Empty();
      if ok {
        var num := if tail - head < fetchSize then tail - head else fetchSize;
        var index := tail - num + 1;
        while index <= tail
          invariant tail - num + 1 <= index <= tail + 1
          invariant values == history[tail - num..index - 1]
        {
          var value := At(index);
          values := values + [value];
          index := index + 1;
        }
      }
    }

    method Latest() returns (m: Option<T>)
      requires Valid() && capacity > 1
      ensures m == if history == [] then None else Some(history[tail - 1])
    {
      if Empty() {
        m := None;
      } else {
        var value := At(tail);
        m := Some(value);
      }
    }

    // ChannelBuffer::Fetch; the caller's index comes back as an out-parameter.
    method Fetch(index: nat) returns (index': nat, m: Option<T>)
      requires Valid() && capacity > 1 && index <= tail + 1
      ensures match FetchIndex(capacity - 1, tail, index)
              case None => m == None && index' == index
              case Some(p) => index' == p && m == Some(history[p - 1])
    {
      index' := index;
      m := None;
      if Empty() {
        return;
      }
      if index == 0 {
        index' := tail;
      } else if index == tail + 1 {
        return;
      } else if index < head + 1 {
        index' := tail;
      }
      var value := At(index');
      m := Some(value);
    }
  }

  // ---- What a reader gets ----

  // The position that a fetch at `index` delivers, if any.
  function FetchIndex(size: nat, tail: nat, index: nat): (p: Option<nat>)
    ensures p.Some? && size >= 1 && index <= tail + 1 ==> HeadAfter(size, tail) < p.value <= tail
  {
    if tail == 0 || index == tail + 1 then None
    else if index == 0 || index <= HeadAfter(size, tail) then Some(tail)
    else Some(index)
  }

  // A delivery: which position, and the newest one at that moment.
  datatype Delivery = Delivery(position: nat, newest: nat)

  // A queue size, all that was put in, the reader's index and what it was given.
  datatype Channel<T> = Channel(size: nat, history: seq<T>, next: nat, delivered: seq<Delivery>)

  datatype Action<T> = Put(value: T) | TryFetch

  function Act<T>(c: Channel<T>, a: Action<T>): (c': Channel<T>) {
    match a
    case Put(v) => c.(history := c.history + [v])
    case TryFetch =>
      match FetchIndex(c.size, |c.history|, c.next)
      case None => c
      case Some(p) => c.(next := p + 1, delivered := c.delivered + [Delivery(p, |c.history|)])
  }

  function Run<T>(c: Channel<T>, actions: seq<Action<T>>): (c': Channel<T>)
    ensures c'.size == c.size
    decreases |actions|
  {
    if actions == [] then c else Run(Act(c, actions[0]), actions[1..])
  }

  ghost predicate Consecutive(size: nat, d: Delivery, e: Delivery) {
    && d.position < e.position
    && e.position == if e.newest - d.position > size then e.newest else d.position + 1
  }

  ghost predicate Inv<T>(c: Channel<T>) {
    && c.size >= 1
    && c.next == (if c.delivered == [] then 0 else c.delivered[|c.delivered| - 1].position + 1)
    && (forall i | 0 <= i < |c.delivered| ::
          HeadAfter(c.size, c.delivered[i].newest) < c.delivered[i].position <= c.delivered[i].newest <= |c.history|)
    && (c.delivered != [] ==> c.delivered[0].position == c.delivered[0].newest)
    && (forall i | 0 < i < |c.delivered| :: Consecutive(c.size, c.delivered[i - 1], c.delivered[i]))
  }

  // Whatever the interleaving of fills and fetches, a reader starts at the newest
  // message, then gets consecutive ones, except that it jumps to the newest when
  // and only when it has fallen behind by more than the queue size; it never
  // reads a slot that is no longer live.
  lemma {:induction false} DeliveredInEveryRun<T>(size: nat, actions: seq<Action<T>>)
    requires size >= 1
    ensures Inv(Run(Channel(size, [], 0, []), actions))
  {
    RunKeepsInv(Channel(size, [], 0, []), actions);
  }

  lemma {:induction false} RunKeepsInv<T>(c: Channel<T>, actions: seq<Action<T>>)
    requires Inv(c)
    ensures Inv(Run(c, actions))
    decreases |actions|
  {
    if actions != [] {
      ActKeepsInv(c, actions[0]);
      RunKeepsInv(Act(c, actions[0]), actions[1..]);
    }
  }

  lemma {:induction false} ActKeepsInv<T>(c: Channel<T>, a: Action<T>)
    requires Inv(c)
    ensures Inv(Act(c, a))
  {
    var c' := Act(c, a);
    forall i | 0 < i < |c'.delivered| ensures Consecutive(c.size, c'.delivered[i - 1], c'.delivered[i]) {
      if i < |c.delivered| { assert Consecutive(c.size, c.delivered[i - 1], c.delivered[i]); }
    }
  }

  lemma {:induction false} FetchIsInRange<T>(c: Channel<T>)
    requires Inv(c)
    ensures c.size >= 1 && c.next <= |c.history| + 1
  {
  }

  // The reader has been given the newest message, or there is none.
  predicate UpToDate<T>(c: Channel<T>) {
    c.history == [] || (c.delivered != [] && c.delivered[|c.delivered| - 1].position == |c.history|)
  }

  // A fetch delivers a message unless the reader is up to date, and then only.
  lemma {:induction false} FetchDelivers<T>(c: Channel<T>)
    requires Inv(c)
    ensures var c' := Act(c, TryFetch);
      if UpToDate(c) then c' == c
      else && |c'.delivered| == |c.delivered| + 1 && c'.delivered[..|c.delivered|] == c.delivered
           && c'.delivered[|c.delivered|].newest == |c.history| && c'.history == c.history
  {
    if c.delivered != [] {
      assert c.delivered[|c.delivered| - 1].position <= |c.history|;
    }
  }

  function Fetches<T>(n: nat): (actions: seq<Action<T>>) {
    if n == 0 then [] else [TryFetch] + Fetches(n - 1)
  }

  // A reader that fetches often enough gets up to date, whatever it has missed.
  lemma {:induction false} FetchesCatchUp<T>(c: Channel<T>) returns (n: nat)
    requires Inv(c)
    ensures var c' := Run(c, Fetches(n)); Inv(c') && UpToDate(c') && c'.history == c.history
    decreases |c.history| + 1 - c.next
  {
    FetchIsInRange(c);
    if UpToDate(c) {
      n := 0;
    } else {
      var c1 := Act(c, TryFetch);
      FetchDelivers(c);
      ActKeepsInv(c, Action<T>.TryFetch);
      FetchIsInRange(c1);
      var m := FetchesCatchUp(c1);
      n := m + 1;
      assert Fetches<T>(n)[1..] == Fetches(m);
    }
  }

  // Messages are never given twice nor out of order.
  lemma {:induction false} DeliveredStrictlyIncreasing<T>(c: Channel<T>, i: nat, j: nat)
    requires Inv(c) && i < j < |c.delivered|
    ensures c.delivered[i].position < c.delivered[j].position
    decreases j
  {
    assert Consecutive(c.size, c.delivered[j - 1], c.delivered[j]);
    if i < j - 1 { DeliveredStrictlyIncreasing(c, i, j - 1); }
  }

  class DataVisitor<T(0)> {
    const buffer: CacheBuffer<T>
    var nextMsgIndex: nat
    ghost var delivered: seq<Delivery>

    ghost function Followed(): (c: Channel<T>)
      reads this, buffer
    {
      Channel(if buffer.capacity > 0 then buffer.capacity - 1 else 0, buffer.history, nextMsgIndex, delivered)
    }

    ghost predicate Valid()
      reads this, buffer, buffer.buffer
    {
      buffer.Valid() && Inv(Followed())
    }

    constructor (queueSize: nat)
      requires queueSize >= 1
      ensures Valid() && Followed() == Channel(queueSize, [], 0, [])
      ensures fresh(buffer) && fresh(buffer.buffer)
    {
      buffer := new CacheBuffer(queueSize);
      nextMsgIndex, delivered := 0, [];
    }

    method TryFetch() returns (m: Option<T>)
      requires Valid()
      modifies this
      ensures Valid() && Followed() == Act(old(Followed()), Action.TryFetch)
      ensures match FetchIndex(buffer.capacity - 1, |buffer.history|, old(nextMsgIndex))
              case None => m == None
              case Some(p) => m == Some(buffer.history[p - 1])
    {
      ghost var before := Followed();
      FetchIsInRange(before);
      ActKeepsInv(before, Action.TryFetch);
      hide Inv, FetchIndex, HeadAfter;
      assert buffer.capacity > 1 && |buffer.history| == buffer.tail;
      var index, fetched := buffer.Fetch(nextMsgIndex);
      m := fetched;
      if m.Some? {
        delivered := delivered + [Delivery(index, |buffer.history|)];
        nextMsgIndex := index + 1;
      }
      hide CacheBuffer.Valid;
      assert Followed() == Act(before, Action.TryFetch);
    }

    // What the dispatcher does for this reader's buffer.
    method Fill(value: T)
      requires Valid()
      modifies this, buffer, buffer.buffer
      ensures Valid() && Followed() == Act(old(Followed()), Put(value))
    {
      ActKeepsInv(Followed(), Put(value));
      buffer.Fill(value);
    }
  }
}
