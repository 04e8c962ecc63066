// cyber/record/record_viewer.cc: the multimap that playback goes through, and what a
// playback is to deliver: the stable sort of what was recorded.
module PlaybackOrder {
  import opened RecordReader

  // ---- The multimap: a sequence in key order ----

  // emplace puts a message behind all messages of the same time.
  function Insert(buffer: seq<Message>, message: Message): (r: seq<Message>)
    ensures |r| == |buffer| + 1
  {
    if buffer == [] || message.time < buffer[0].time then [message] + buffer
    else [buffer[0]] + Insert(buffer[1..], message)
  }

  function InsertAll(buffer: seq<Message>, messages: seq<Message>): (r: seq<Message>)
    ensures |r| == |buffer| + |messages|
    decreases |messages|
  {
    if messages == [] then buffer else InsertAll(Insert(buffer, messages[0]), messages[1..])
  }

  // ---- What playback is to deliver ----

  // The messages of one time, in order.
  function At(messages: seq<Message>, time: int): (r: seq<Message>) {
    if messages == [] then []
    else (if messages[0].time == time then [messages[0]] else []) + At(messages[1..], time)
  }

  // The messages of a time window, in order.
  function Within(messages: seq<Message>, first: int, last: int): (r: seq<Message>)
    ensures forall m | m in r :: m in messages && first <= m.time <= last
  {
    if messages == [] then []
    else (if first <= messages[0].time <= last then [messages[0]] else []) + Within(messages[1..], first, last)
  }

  // The messages on the wanted channels; an empty set of channels wants them all.
  function Selected(messages: seq<Message>, channels: set<string>): (r: seq<Message>) {
    if messages == [] then []
    else (if Wanted(messages[0], channels) then [messages[0]] else []) + Selected(messages[1..], channels)
  }

  predicate Wanted(message: Message, channels: set<string>) {
    channels == {} || message.channel in channels
  }

  // One file's messages after the other's.
  function Flatten(parts: seq<seq<Message>>): (messages: seq<Message>) {
    if parts == [] then [] else Flatten(parts[..|parts| - 1]) + parts[|parts| - 1]
  }

  function StableSort(messages: seq<Message>): (r: seq<Message>) {
    InsertAll([], messages)
  }

  // What playing the messages `recorded` from first to last is to deliver.
  function Playback(recorded: seq<Message>, first: int, last: int, channels: set<string>): (r: seq<Message>) {
    Selected(StableSort(Within(recorded, first, last)), channels)
  }

  // ---- Each of the filters keeps order ----

  lemma {:induction false} AtAppend(a: seq<Message>, b: seq<Message>, time: int)
    ensures At(a + b, time) == At(a, time) + At(b, time)
  {
    if a == [] {
      assert a + b == b;
    } else {
      var head := if a[0].time == time then [a[0]] else [];
      assert (a + b)[1..] == a[1..] + b;
      AtAppend(a[1..], b, time);
      assert head + (At(a[1..], time) + At(b, time)) == (head + At(a[1..], time)) + At(b, time);
    }
  }

  lemma {:induction false} WithinAppend(a: seq<Message>, b: seq<Message>, first: int, last: int)
    ensures Within(a + b, first, last) == Within(a, first, last) + Within(b, first, last)
  {
    if a == [] {
      assert a + b == b;
    } else {
      var head := if first <= a[0].time <= last then [a[0]] else [];
      assert (a + b)[1..] == a[1..] + b;
      WithinAppend(a[1..], b, first, last);
      var tail := Within(a[1..], first, last);
      assert head + (tail + Within(b, first, last)) == (head + tail) + Within(b, first, last);
    }
  }

  lemma {:induction false} SelectedAppend(a: seq<Message>, b: seq<Message>, channels: set<string>)
    ensures Selected(a + b, channels) == Selected(a, channels) + Selected(b, channels)
  {
    hide Wanted;
    if a == [] {
      assert a + b == b;
    } else {
      var head := if Wanted(a[0], channels) then [a[0]] else [];
      assert (a + b)[1..] == a[1..] + b;
      SelectedAppend(a[1..], b, channels);
      var tail := Selected(a[1..], channels);
      assert head + (tail + Selected(b, channels)) == (head + tail) + Selected(b, channels);
    }
  }

  lemma {:induction false} AtWithin(messages: seq<Message>, first: int, last: int, time: int)
    ensures At(Within(messages, first, last), time) == if first <= time <= last then At(messages, time) else []
  {
    if messages != [] {
      AtWithin(messages[1..], first, last, time);
      var head := if first <= messages[0].time <= last then [messages[0]] else [];
      AtAppend(head, Within(messages[1..], first, last), time);
    }
  }

  lemma {:induction false} AtFrom(messages: seq<Message>, first: int, time: int)
    ensures At(From(messages, first), time) == if first <= time then At(messages, time) else []
  {
    if messages != [] {
      AtFrom(messages[1..], first, time);
      AtAppend(if messages[0].time >= first then [messages[0]] else [], From(messages[1..], first), time);
    }
  }

  lemma {:induction false} AtSelected(messages: seq<Message>, channels: set<string>, time: int)
    ensures At(Selected(messages, channels), time) == Selected(At(messages, time), channels)
  {
    if messages != [] {
      AtSelected(messages[1..], channels, time);
      var head := if Wanted(messages[0], channels) then [messages[0]] else [];
      AtAppend(head, Selected(messages[1..], channels), time);
      SelectedAppend(if messages[0].time == time then [messages[0]] else [], At(messages[1..], time), channels);
    }
  }

  lemma {:induction false} AtMember(messages: seq<Message>, m: Message)
    ensures m in messages <==> m in At(messages, m.time)
  {
    if messages != [] {
      AtMember(messages[1..], m);
      assert m in messages <==> m == messages[0] || m in messages[1..];
    }
  }

  // ---- The stable sort ----

  lemma {:induction false} InsertMembers(buffer: seq<Message>, message: Message)
    ensures multiset(Insert(buffer, message)) == multiset(buffer) + multiset{message}
    ensures forall m :: m in Insert(buffer, message) <==> m in buffer || m == message
  {
    if buffer != [] && message.time >= buffer[0].time {
      InsertMembers(buffer[1..], message);
      assert buffer == [buffer[0]] + buffer[1..];
    }
  }

  lemma {:induction false} InsertKeepsOrder(buffer: seq<Message>, message: Message)
    requires Sorted(buffer)
    ensures Sorted(Insert(buffer, message))
  {
    if buffer != [] && message.time >= buffer[0].time {
      InsertKeepsOrder(buffer[1..], message);
      InsertMembers(buffer[1..], message);
      forall m | m in Insert(buffer[1..], message) ensures buffer[0].time <= m.time {
        if m != message {
          assert m in buffer[1..];
        }
      }
    }
  }

  lemma {:induction false} AtInsert(buffer: seq<Message>, message: Message, time: int)
    requires Sorted(buffer)
    ensures At(Insert(buffer, message), time) == At(buffer, time) + At([message], time)
  {
    if buffer == [] {
      assert [message] + buffer == [message];
    } else if message.time < buffer[0].time {
      AtAppend([message], buffer, time);
      if message.time == time {
        NoneAt(buffer, time);
      }
    } else {
      AtInsert(buffer[1..], message, time);
      AtAppend([buffer[0]], Insert(buffer[1..], message), time);
    }
  }

  lemma {:induction false} NoneAt(messages: seq<Message>, time: int)
    requires forall m | m in messages :: m.time != time
    ensures At(messages, time) == []
  {
    if messages != [] {
      assert messages[0] in messages;
      NoneAt(messages[1..], time);
    }
  }

  lemma {:induction false} AtInsertAll(buffer: seq<Message>, messages: seq<Message>, time: int)
    requires Sorted(buffer)
    ensures Sorted(InsertAll(buffer, messages))
    ensures At(InsertAll(buffer, messages), time) == At(buffer, time) + At(messages, time)
    ensures forall m :: m in InsertAll(buffer, messages) <==> m in buffer || m in messages
    decreases |messages|
  {
    if messages != [] {
      AtInsert(buffer, messages[0], time);
      InsertKeepsOrder(buffer, messages[0]);
      InsertMembers(buffer, messages[0]);
      AtInsertAll(Insert(buffer, messages[0]), messages[1..], time);
      assert messages == [messages[0]] + messages[1..];
      AtAppend([messages[0]], messages[1..], time);
    }
  }

  lemma {:induction false} NothingAtAnyTime(messages: seq<Message>)
    requires forall time: int :: At(messages, time) == []
    ensures messages == []
  {
    if messages != [] {
      AtMember(messages, messages[0]);
      assert false;
    }
  }

  ghost predicate SameAtEachTime(a: seq<Message>, b: seq<Message>) {
    forall time: int :: At(a, time) == At(b, time)
  }

  // The first message of one sequence is no later than the first of the other.
  lemma {:induction false} FirstIsNoLater(a: seq<Message>, b: seq<Message>)
    requires a != [] && b != [] && Sorted(a) && SameAtEachTime(a, b)
    ensures a[0].time <= b[0].time
  {
    AtMember(b, b[0]);
    AtMember(a, b[0]);
    assert b[0] in b;
    assert At(a, b[0].time) == At(b, b[0].time);
    hide At, SameAtEachTime;
    assert b[0] in a;
  }

  lemma {:induction false} SameFirst(a: seq<Message>, b: seq<Message>)
    requires a != [] && b != [] && Sorted(a) && Sorted(b) && SameAtEachTime(a, b)
    ensures a[0] == b[0]
  {
    FirstIsNoLater(a, b);
    FirstIsNoLater(b, a);
    assert At(a, a[0].time) == At(b, a[0].time);
    assert At(a, a[0].time)[0] == a[0] && At(b, b[0].time)[0] == b[0];
  }

  lemma {:induction false} SameAfterFirst(a: seq<Message>, b: seq<Message>)
    requires a != [] && b != [] && a[0] == b[0] && SameAtEachTime(a, b)
    ensures SameAtEachTime(a[1..], b[1..])
  {
    forall time: int ensures At(a[1..], time) == At(b[1..], time) {
      assert At(a, time) == At(b, time);
      var head := if a[0].time == time then [a[0]] else [];
      assert At(a[1..], time) == At(a, time)[|head|..];
      assert At(b[1..], time) == At(b, time)[|head|..];
    }
  }

  // A sequence in time order is determined by what it holds at each time.
  lemma {:induction false} SortedAndSameAtEachTime(a: seq<Message>, b: seq<Message>)
    requires Sorted(a) && Sorted(b) && SameAtEachTime(a, b)
    ensures a == b
  {
    if a == [] {
      assert forall time: int :: At(b, time) == At(a, time) == [];
      NothingAtAnyTime(b);
    } else if b == [] {
      assert forall time: int :: At(a, time) == At(b, time) == [];
      NothingAtAnyTime(a);
    } else {
      SameFirst(a, b);
      SameAfterFirst(a, b);
      hide At, SameAtEachTime;
      SortedAndSameAtEachTime(a[1..], b[1..]);
      assert a == [a[0]] + a[1..] && b == [b[0]] + b[1..];
    }
  }

  lemma {:induction false} StableSortKeepsEachTime(messages: seq<Message>)
    ensures Sorted(StableSort(messages))
    ensures forall time: int :: At(StableSort(messages), time) == At(messages, time)
  {
    AtInsertAll([], messages, 0);
    forall time: int ensures At(StableSort(messages), time) == At(messages, time) {
      AtInsertAll([], messages, time);
    }
  }

  // Sorting is stable: in time order, and at each time exactly what was there, in
  // the same order.  No other sequence is both.
  lemma {:induction false} StableSortIsTheStableSort(messages: seq<Message>, sorted: seq<Message>)
    ensures sorted == StableSort(messages) <==> Sorted(sorted) && SameAtEachTime(sorted, messages)
  {
    StableSortKeepsEachTime(messages);
    if Sorted(sorted) && SameAtEachTime(sorted, messages) {
      SortedAndSameAtEachTime(sorted, StableSort(messages));
    }
  }

  lemma {:induction false} InsertAllCounts(buffer: seq<Message>, messages: seq<Message>)
    ensures multiset(InsertAll(buffer, messages)) == multiset(buffer) + multiset(messages)
    decreases |messages|
  {
    if messages != [] {
      InsertMembers(buffer, messages[0]);
      InsertAllCounts(Insert(buffer, messages[0]), messages[1..]);
      assert messages == [messages[0]] + messages[1..];
    }
  }

  lemma {:induction false} SelectedMembers(messages: seq<Message>, channels: set<string>)
    ensures forall m :: m in Selected(messages, channels) <==> m in messages && Wanted(m, channels)
  {
    if messages != [] {
      SelectedMembers(messages[1..], channels);
      assert messages == [messages[0]] + messages[1..];
    }
  }

  lemma {:induction false} SelectedKeepsOrder(messages: seq<Message>, channels: set<string>)
    requires Sorted(messages)
    ensures Sorted(Selected(messages, channels))
  {
    if messages != [] {
      SelectedKeepsOrder(messages[1..], channels);
      SelectedMembers(messages[1..], channels);
      forall m | m in Selected(messages[1..], channels) ensures messages[0].time <= m.time {
        assert m in messages[1..];
      }
    }
  }

  lemma {:induction false} SelectedCounts(messages: seq<Message>, channels: set<string>, m: Message)
    ensures multiset(Selected(messages, channels))[m] == if Wanted(m, channels) then multiset(messages)[m] else 0
  {
    if messages != [] {
      SelectedCounts(messages[1..], channels, m);
      assert messages == [messages[0]] + messages[1..];
    }
  }

  // What a playback of the messages `recorded` (the readers' files one after the
  // other) is: in time order, every message as often as it was recorded in the
  // window on a wanted channel, and messages of the same time in recorded order.
  lemma {:induction false} PlaybackIsSortedCompleteAndStable(recorded: seq<Message>, first: nat, last: nat,
                                                             channels: set<string>)
    ensures Sorted(Playback(recorded, first, last, channels))
    ensures forall m :: multiset(Playback(recorded, first, last, channels))[m]
                     == if first <= m.time <= last && Wanted(m, channels) then multiset(recorded)[m] else 0
    ensures forall time: int | first <= time <= last ::
              At(Playback(recorded, first, last, channels), time) == Selected(At(recorded, time), channels)
  {
    hide At, Within, Selected, InsertAll, Sorted;
    var window := Within(recorded, first, last);
    StableSortKeepsEachTime(window);
    SelectedKeepsOrder(StableSort(window), channels);
    InsertAllCounts([], window);
    forall m
      ensures multiset(Playback(recorded, first, last, channels))[m]
           == if first <= m.time <= last && Wanted(m, channels) then multiset(recorded)[m] else 0
    {
      SelectedCounts(StableSort(window), channels, m);
      WithinCounts(recorded, first, last, m);
    }
    forall time: int | first <= time <= last
      ensures At(Playback(recorded, first, last, channels), time) == Selected(At(recorded, time), channels)
    {
      AtSelected(StableSort(window), channels, time);
      AtWithin(recorded, first, last, time);
    }
  }

  lemma {:induction false} WithinCounts(messages: seq<Message>, first: nat, last: nat, m: Message)
    ensures multiset(Within(messages, first, last))[m] == if first <= m.time <= last then multiset(messages)[m] else 0
  {
    if messages != [] {
      WithinCounts(messages[1..], first, last, m);
      assert messages == [messages[0]] + messages[1..];
    }
  }

  // ---- One window ----

  // What is left to play: the buffer, then all unread messages from the next window on.
  function Left(buffer: seq<Message>, unread: seq<Message>, first: nat, last: nat): (left: seq<Message>) {
    buffer + StableSort(Within(unread, first, last))
  }

  ghost predicate Before(messages: seq<Message>, time: nat) {
    forall m | m in messages :: m.time < time
  }

  // Reading one window into the buffer does not change what is left to play.
  lemma {:induction false} WindowKeepsWhatIsLeft(buffer: seq<Message>, unread: seq<Message>, later: seq<Message>,
                                                 first: nat, mid: nat, last: nat)
    requires Sorted(buffer) && Before(buffer, first) && first <= mid <= last
    requires From(later, mid + 1) == From(unread, mid + 1)
    ensures var filled := InsertAll(buffer, Within(unread, first, mid));
            && Sorted(filled) && Before(filled, mid + 1)
            && Left(filled, later, mid + 1, last) == Left(buffer, unread, first, last)
  {
    hide At, Within, InsertAll, From, StableSort, Left, Sorted;
    var filled := InsertAll(buffer, Within(unread, first, mid));
    AtInsertAll(buffer, Within(unread, first, mid), 0);
    LeftIsSorted(buffer, unread, first, last);
    LeftIsSorted(filled, later, mid + 1, last);
    forall time: int
      ensures At(Left(filled, later, mid + 1, last), time) == At(Left(buffer, unread, first, last), time)
    {
      AtLeft(buffer, unread, first, last, time);
      AtLeft(filled, later, mid + 1, last, time);
      AtInsertAll(buffer, Within(unread, first, mid), time);
      AtWithin(unread, first, mid, time);
      AtFrom(unread, mid + 1, time);
      AtFrom(later, mid + 1, time);
    }
    SortedAndSameAtEachTime(Left(filled, later, mid + 1, last), Left(buffer, unread, first, last));
  }

  lemma {:induction false} LeftIsSorted(buffer: seq<Message>, unread: seq<Message>, first: nat, last: nat)
    requires Sorted(buffer) && Before(buffer, first)
    ensures Sorted(Left(buffer, unread, first, last))
  {
    AtInsertAll([], Within(unread, first, last), 0);
    assert forall m | m in StableSort(Within(unread, first, last)) :: first <= m.time;
  }

  lemma {:induction false} AtLeft(buffer: seq<Message>, unread: seq<Message>, first: nat, last: nat, time: int)
    ensures At(Left(buffer, unread, first, last), time)
         == At(buffer, time) + if first <= time <= last then At(unread, time) else []
  {
    SortedNone();
    hide At, Within, InsertAll, Sorted;
    AtAppend(buffer, StableSort(Within(unread, first, last)), time);
    StableSortKeepsEachTime(Within(unread, first, last));
    AtWithin(unread, first, last, time);
  }

  // Messages outside the window make no difference to what is left.
  lemma {:induction false} WithinOfFrom(a: seq<Message>, b: seq<Message>, first: nat, last: nat)
    requires From(a, first) == From(b, first)
    ensures Within(a, first, last) == Within(b, first, last)
  {
    WithinFrom(a, first, last);
    WithinFrom(b, first, last);
  }

  lemma {:induction false} WithinFrom(messages: seq<Message>, first: nat, last: nat)
    ensures Within(From(messages, first), first, last) == Within(messages, first, last)
  {
    if messages != [] {
      WithinFrom(messages[1..], first, last);
      WithinAppend(if messages[0].time >= first then [messages[0]] else [], From(messages[1..], first), first, last);
    }
  }

  lemma {:induction false} WithinWider(messages: seq<Message>, first: nat, last: nat, first': nat, last': nat)
    requires forall m | m in messages :: first <= m.time <= last <==> first' <= m.time <= last'
    ensures Within(messages, first, last) == Within(messages, first', last')
  {
    if messages != [] {
      assert messages[0] in messages;
      WithinWider(messages[1..], first, last, first', last');
    }
  }

  lemma {:induction false} FlattenFrom(before: seq<seq<Message>>, after: seq<seq<Message>>, early: nat, late: nat)
    requires |before| == |after| && forall i | 0 <= i < |before| :: From(before[i], early) == From(after[i], late)
    ensures From(Flatten(before), early) == From(Flatten(after), late)
  {
    if before != [] {
      var n := |before| - 1;
      FlattenFrom(before[..n], after[..n], early, late);
      FromAppend(Flatten(before[..n]), before[n], early);
      FromAppend(Flatten(after[..n]), after[n], late);
    }
  }

  ghost predicate SameFrom(before: seq<Message>, after: seq<Message>, time: nat) {
    From(before, time) == From(after, time)
  }

  lemma {:induction false} NothingLeftAfterTheEnd(unread: seq<Message>, first: nat, last: nat)
    requires first > last
    ensures Within(unread, first, last) == [] && Left([], unread, first, last) == []
  {
    if unread != [] {
      NothingLeftAfterTheEnd(unread[1..], first, last);
    }
  }

  lemma {:induction false} LeftOfFirst(buffer: seq<Message>, unread: seq<Message>, first: nat, last: nat,
                                       channels: set<string>)
    requires buffer != [] && Sorted(buffer) && Before(buffer, first)
    ensures Sorted(buffer[1..]) && Before(buffer[1..], first)
    ensures |Left(buffer[1..], unread, first, last)| < |Left(buffer, unread, first, last)|
    ensures Selected(Left(buffer, unread, first, last), channels)
         == (if Wanted(buffer[0], channels) then [buffer[0]] else [])
            + Selected(Left(buffer[1..], unread, first, last), channels)
  {
    assert Left(buffer, unread, first, last)[1..] == Left(buffer[1..], unread, first, last);
  }

  lemma {:induction false} LeftOfSameFrom(buffer: seq<Message>, before: seq<Message>, after: seq<Message>, first: nat,
                                          last: nat)
    requires SameFrom(before, after, first)
    ensures Left(buffer, after, first, last) == Left(buffer, before, first, last)
  {
    WithinOfFrom(before, after, first, last);
  }

  lemma {:induction false} InsertNone(buffer: seq<Message>)
    ensures InsertAll(buffer, []) == buffer
  {
  }

  lemma {:induction false} InsertOne(buffer: seq<Message>, share: seq<Message>, m: Message)
    ensures InsertAll(buffer, share + [m]) == Insert(InsertAll(buffer, share), m)
  {
    InsertAllAppend(buffer, share, [m]);
    assert InsertAll(InsertAll(buffer, share), [m]) == InsertAll(Insert(InsertAll(buffer, share), m), []);
  }

  lemma {:induction false} WithinAll(messages: seq<Message>, first: nat, last: nat)
    requires forall m | m in messages :: first <= m.time <= last
    ensures Within(messages, first, last) == messages
  {
    if messages != [] {
      assert messages[0] in messages;
      WithinAll(messages[1..], first, last);
    }
  }

  lemma {:induction false} WithinNone(messages: seq<Message>, first: nat, last: nat)
    requires forall m | m in messages :: m.time > last
    ensures Within(messages, first, last) == []
  {
    if messages != [] {
      assert messages[0] in messages;
      WithinNone(messages[1..], first, last);
    }
  }

  lemma {:induction false} InsertAllAppend(buffer: seq<Message>, a: seq<Message>, b: seq<Message>)
    ensures InsertAll(buffer, a + b) == InsertAll(InsertAll(buffer, a), b)
    decreases |a|
  {
    if a == [] {
      assert a + b == b;
    } else {
      assert (a + b)[1..] == a[1..] + b;
      InsertAllAppend(Insert(buffer, a[0]), a[1..], b);
    }
  }

  lemma {:induction false} SortedNone()
    ensures Sorted([])
  {
  }

  lemma {:induction false} SelectedNone(channels: set<string>)
    ensures Selected([], channels) == []
  {
  }

  lemma {:induction false} NothingToPlay(recorded: seq<Message>, first: nat, last: nat, channels: set<string>)
    requires first > last
    ensures Playback(recorded, first, last, channels) == []
  {
    NothingLeftAfterTheEnd(recorded, first, last);
  }
}
