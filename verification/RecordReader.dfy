// cyber/record/record_reader.h and record_reader.cc: a reader over a stream of
// sections.  The file is the sequence of its readable sections with a cursor: a
// damaged file is one whose sequence stops where the first unreadable section starts.
module RecordReader {
  import opened Wrappers

  datatype Message = Message(channel: string, time: nat, content: string)

  datatype Section =
    | Index
    | Channel
    | ChunkHeader(beginTime: nat, endTime: nat)
    | ChunkBody(messages: seq<Message>)

  datatype Header = Header(beginTime: nat, endTime: nat)

  // The messages of a file from a section on: all chunk bodies before the index.
  function Stream(sections: seq<Section>): (messages: seq<Message>) {
    if sections == [] || sections[0].Index? then []
    else (if sections[0].ChunkBody? then sections[0].messages else []) + Stream(sections[1..])
  }

  // The messages at or after a time, in order.
  function From(messages: seq<Message>, time: int): (kept: seq<Message>)
    ensures forall m | m in kept :: m in messages && m.time >= time
  {
    if messages == [] then []
    else (if messages[0].time >= time then [messages[0]] else []) + From(messages[1..], time)
  }

  predicate Sorted(messages: seq<Message>) {
    forall i, j | 0 <= i < j < |messages| :: messages[i].time <= messages[j].time
  }

  // Every chunk header bounds what it announces: its begin time is no later than
  // any message that follows it, its end time no earlier than any message of its
  // body, and its body comes before the next chunk header.
  predicate Bounded(sections: seq<Section>) {
    sections == [] || sections[0].Index? ||
    (&& Bounded(sections[1..])
     && (sections[0].ChunkHeader? ==>
           && NoHeaderBeforeBody(sections[1..])
           && (forall m | m in Stream(sections[1..]) :: sections[0].beginTime <= m.time)
           && (forall m | m in NextBody(sections[1..]) :: m.time <= sections[0].endTime)))
  }

  predicate NoHeaderBeforeBody(sections: seq<Section>) {
    sections == [] || sections[0].Index? || sections[0].ChunkBody?
    || (sections[0].Channel? && NoHeaderBeforeBody(sections[1..]))
  }

  // The messages of the next chunk body, unless a header or the index comes first.
  function NextBody(sections: seq<Section>): (messages: seq<Message>) {
    if sections == [] || sections[0].Index? || sections[0].ChunkHeader? then []
    else if sections[0].ChunkBody? then sections[0].messages
    else NextBody(sections[1..])
  }

  // The messages from the first one after `time` on.
  function DropUpTo(messages: seq<Message>, time: nat): (rest: seq<Message>) {
    if messages == [] || messages[0].time > time then messages else DropUpTo(messages[1..], time)
  }

  // What is unread where a search for a message in [first, last] stops without one, from
  // some sections on.  A chunk that its header says to end before the window is skipped,
  // a chunk that its header says to begin after it stops the search.
  function AfterSearch(sections: seq<Section>, skip: bool, first: nat, last: nat): (rest: seq<Message>)
    decreases |sections|, 0
  {
    if sections == [] || sections[0].Index? then []
    else
      match sections[0]
      case Channel => AfterSearch(sections[1..], skip, first, last)
      case ChunkHeader(begin, end) =>
        if begin > last then Stream(sections[1..]) else AfterSearch(sections[1..], skip || end < first, first, last)
      case ChunkBody(messages) =>
        if skip then AfterSearch(sections[1..], false, first, last)
        else AfterChunk(messages, sections[1..], first, last)
  }

  // The same with a chunk open.
  function AfterChunk(open: seq<Message>, sections: seq<Section>, first: nat, last: nat): (rest: seq<Message>)
    decreases |sections|, 1
  {
    var late := DropUpTo(open, last);
    if late != [] then late + Stream(sections) else AfterSearch(sections, false, first, last)
  }

  // A file as it is opened: unreadable ones have no header and no sections.
  datatype File = File(isValid: bool, header: Header, sections: seq<Section>) {
    // All messages of the file are in time order and inside the file header's and
    // their chunk header's bounds.
    predicate WellFormed() {
      && Sorted(Stream(sections)) && Bounded(sections)
      && (isValid ==> forall m | m in Stream(sections) :: header.beginTime <= m.time <= header.endTime)
      && (!isValid ==> header == Header(0, 0) && sections == [])
    }

    // What is unread after looking in vain for a message in [first, last].
    function Skimmed(first: nat, last: nat): (rest: seq<Message>) {
      if !isValid || first > header.endTime || last < header.beginTime then Stream(sections)
      else AfterSearch(sections, false, first, last)
    }
  }

  // What a search makes of a chunk, by its header alone: one that begins after the window
  // stops it and stays unread, one that ends before the window is skipped unread, and any
  // other is read up to the window's end.
  lemma {:induction false} SearchOfChunk(begin: nat, end: nat, messages: seq<Message>, rest: seq<Section>, first: nat,
                                         last: nat)
    ensures AfterSearch([ChunkHeader(begin, end), ChunkBody(messages)] + rest, false, first, last) ==
      if begin > last then messages + Stream(rest)
      else if end < first || DropUpTo(messages, last) == [] then AfterSearch(rest, false, first, last)
      else DropUpTo(messages, last) + Stream(rest)
  {
    var sections := [ChunkHeader(begin, end), ChunkBody(messages)] + rest;
    var body := [ChunkBody(messages)] + rest;
    assert sections[1..] == body && body[1..] == rest;
    assert Stream(body) == messages + Stream(rest);
    assert AfterSearch(body, true, first, last) == AfterSearch(rest, false, first, last);
    assert AfterSearch(body, false, first, last) == AfterChunk(messages, rest, first, last);
  }

  // A window before the whole file leaves it unread.
  lemma {:induction false} WindowBeforeTheFile(file: File, first: nat, last: nat)
    requires file.isValid && last < file.header.beginTime
    ensures file.Skimmed(first, last) == Stream(file.sections)
  {
  }

  lemma {:induction false} FromOfLater(messages: seq<Message>, time: int)
    requires forall m | m in messages :: m.time >= time
    ensures From(messages, time) == messages
  {
    if messages != [] {
      assert messages[0] in messages;
      FromOfLater(messages[1..], time);
    }
  }

  lemma {:induction false} FromOfEarlier(messages: seq<Message>, time: int)
    requires forall m | m in messages :: m.time < time
    ensures From(messages, time) == []
  {
    if messages != [] {
      assert messages[0] in messages;
      FromOfEarlier(messages[1..], time);
    }
  }

  lemma {:induction false} FromAppend(a: seq<Message>, b: seq<Message>, time: int)
    ensures From(a + b, time) == From(a, time) + From(b, time)
  {
    if a == [] {
      assert a + b == b;
    } else {
      assert (a + b)[1..] == a[1..] + b;
      FromAppend(a[1..], b, time);
    }
  }

  lemma {:induction false} FromTwice(messages: seq<Message>, early: int, late: int)
    requires early <= late
    ensures From(From(messages, early), late) == From(messages, late)
  {
    if messages != [] {
      FromTwice(messages[1..], early, late);
      FromAppend(if messages[0].time >= early then [messages[0]] else [], From(messages[1..], early), late);
    }
  }

  class RecordReader {
    const isValid: bool
    const header: Header
    const sections: seq<Section>
    var cursor: nat
    var reachEnd: bool
    var chunk: seq<Message>
    var messageIndex: nat

    function Contents(): (file: File) {
      File(isValid, header, sections)
    }

    // The sections not read yet.
    function Ahead(): (ahead: seq<Section>)
      reads this
    {
      if reachEnd || cursor > |sections| then [] else sections[cursor..]
    }

    // The messages of the sections not read yet, and all messages not read yet.
    function Unopened(): (messages: seq<Message>)
      reads this
    {
      if reachEnd || cursor > |sections| then [] else Stream(sections[cursor..])
    }

    function Rest(): (rest: seq<Message>)
      reads this
    {
      (if messageIndex <= |chunk| then chunk[messageIndex..] else []) + Unopened()
    }

    // What is unread after looking in vain for a message in [beginTime, endTime].
    function AfterMiss(beginTime: nat, endTime: nat): (rest: seq<Message>)
      reads this
    {
      if !isValid || beginTime > header.endTime || endTime < header.beginTime then Rest()
      else AfterChunk(if messageIndex <= |chunk| then chunk[messageIndex..] else [], Ahead(), beginTime, endTime)
    }

    lemma {:induction false} UnopenedAhead()
      ensures Unopened() == Stream(Ahead())
    {
    }

    // Nothing has been read.
    ghost predicate AtStart()
      reads this
    {
      cursor == 0 && !reachEnd && chunk == [] && messageIndex == 0
    }

    lemma {:induction false} MissAtStart(first: nat, last: nat)
      requires AtStart()
      ensures AfterMiss(first, last) == Contents().Skimmed(first, last) && Rest() == Stream(sections)
    {
      assert sections[0..] == sections && chunk[0..] == [] && [] + Stream(sections) == Stream(sections);
    }

    ghost predicate AtSection()
      reads this
    {
      cursor <= |sections| && (reachEnd || Bounded(sections[cursor..]))
    }

    ghost predicate Valid()
      reads this
    {
      && Contents().WellFormed() && AtSection() && messageIndex <= |chunk|
      && Sorted(Rest()) && (forall m | m in Rest() :: m in Stream(sections))
    }

    constructor (isValid: bool, header: Header, sections: seq<Section>)
      requires File(isValid, header, sections).WellFormed()
      ensures Valid() && Rest() == Stream(sections) && Contents() == File(isValid, header, sections)
      ensures AtStart()
    {
      this.isValid, this.header, this.sections := isValid, header, sections;
      cursor, reachEnd, chunk, messageIndex := 0, false, [], 0;
      new;
      assert sections[0..] == sections && chunk[0..] + Stream(sections) == Stream(sections);
    }

    method Reset()
      requires Valid()
      modifies this
      ensures Valid() && AtStart() && Rest() == Stream(sections)
    {
      cursor, reachEnd, messageIndex, chunk := 0, false, 0, [];
      assert sections[0..] == sections && chunk[0..] + Stream(sections) == Stream(sections);
    }

    // The next message in [beginTime, endTime], if any; the window may be empty.  What
    // is skipped lies before beginTime.  When there is none, all that is unread lies
    // after endTime, unless the whole file lies before beginTime.
    method ReadMessage(beginTime: nat, endTime: nat) returns (message: Option<Message>)
      requires Valid()
      modifies this
      ensures Valid() && Suffix(old(Rest()), Rest())
      ensures Answers(message, old(Rest()), Rest(), beginTime, endTime)
      ensures message.None? ==> AllAfter(Rest(), endTime) || (beginTime > header.endTime && Rest() == old(Rest()))
      ensures message.None? ==> Rest() == old(AfterMiss(beginTime, endTime))
      ensures endTime < header.beginTime ==> message.None? && Rest() == old(Rest())
      decreases |sections| - cursor
    {
      hide From, Sorted, Stream, Bounded, Suffix, AfterChunk, AfterSearch, File.WellFormed;
      ghost var all := Rest();
      SuffixReflexive(all);
      if !isValid || beginTime > header.endTime || endTime < header.beginTime {
        OutsideTheFile(Contents(), all, beginTime, endTime);
        return None;
      }
      var stop;
      message, stop := ReadOpenChunk(beginTime, endTime);
      SuffixFacts(all, Rest());
      if stop {
        return;
      }
      ghost var unopened := Rest();
      assert unopened == Unopened();
      var found := ReadNextChunk(beginTime, endTime);
      if found {
        messageIndex := 0;
        assert chunk[0..] == chunk;
      } else {
        assert Rest() == Unopened();
      }
      SuffixTrans(all, unopened, Rest());
      SuffixFacts(all, Rest());
      if found {
        ghost var newest := Rest();
        message := ReadMessage(beginTime, endTime);
        SuffixTrans(all, newest, Rest());
      } else {
        NothingInside(Rest(), beginTime, endTime);
      }
    }

    // The loop over the messages of the chunk that is open.
    method ReadOpenChunk(beginTime: nat, endTime: nat) returns (message: Option<Message>, stop: bool)
      requires Valid()
      modifies this`messageIndex
      ensures messageIndex <= |chunk| && Suffix(old(Rest()), Rest())
      ensures stop ==> Answers(message, old(Rest()), Rest(), beginTime, endTime)
      ensures stop && message.None? ==> AllAfter(Rest(), endTime)
      ensures !stop ==> message == None && messageIndex == |chunk|
      ensures !stop ==> From(old(Rest()), beginTime) == From(Rest(), beginTime)
      ensures message.None? ==> (
                var rest := if stop then Rest() else AfterSearch(Ahead(), false, beginTime, endTime);
                AfterChunk(old(chunk[messageIndex..]), Ahead(), beginTime, endTime) == rest)
    {
      hide From, Sorted, Stream, Bounded, Suffix, File.WellFormed, DropUpTo, AfterSearch;
      ghost var all := Rest();
      UnopenedAhead();
      SuffixReflexive(all);
      while messageIndex < |chunk|
        invariant messageIndex <= |chunk| && Suffix(all, Rest())
        invariant DropUpTo(old(chunk[messageIndex..]), endTime) == DropUpTo(chunk[messageIndex..], endTime)
        invariant From(all, beginTime) == From(Rest(), beginTime)
      {
        ghost var rest := Rest();
        var next := chunk[messageIndex];
        assert rest == [next] + (chunk[messageIndex + 1..] + Unopened());
        SuffixFacts(all, rest);
        DropFirst(chunk, messageIndex, endTime);
        if next.time > endTime {
          FirstIsEarliest(rest);
          NothingInside(rest, beginTime, endTime);
          return None, true;
        }
        messageIndex := messageIndex + 1;
        TakeFirst(rest, Rest(), beginTime);
        SuffixDrop(all, [next], Rest());
        if next.time >= beginTime {
          return Some(next), true;
        }
        assert [] + From(Rest(), beginTime) == From(Rest(), beginTime);
      }
      DropFirst(chunk, messageIndex, endTime);
      return None, false;
    }

    // Reads sections up to the next chunk body worth opening.  A chunk header that
    // starts after endTime stops the search; it is consumed all the same.
    method ReadNextChunk(beginTime: nat, endTime: nat) returns (found: bool)
      requires AtSection()
      modifies this`cursor, this`reachEnd, this`chunk
      ensures AtSection() && cursor >= old(cursor)
      ensures found ==> cursor > old(cursor) && Suffix(old(Unopened()), chunk + Unopened())
      ensures found ==> From(old(Unopened()), beginTime) == From(chunk + Unopened(), beginTime)
      ensures !found ==> chunk == old(chunk) && Suffix(old(Unopened()), Unopened())
      ensures !found ==> From(old(Unopened()), beginTime) == From(Unopened(), beginTime)
      ensures !found ==> AllAfter(Unopened(), endTime)
      ensures AfterSearch(old(Ahead()), false, beginTime, endTime)
           == if found then AfterChunk(chunk, Ahead(), beginTime, endTime) else Unopened()
    {
      hide From, Sorted, Stream, Bounded, Suffix, NextBody, NoHeaderBeforeBody;
      var skipNextChunkBody := false;
      ghost var all := Unopened();
      SuffixReflexive(all);
      while !reachEnd
        invariant AtSection() && cursor >= old(cursor) && chunk == old(chunk)
        invariant Suffix(all, Unopened())
        invariant From(all, beginTime) == From(Unopened(), beginTime)
        invariant skipNextChunkBody && !reachEnd ==> SkipsNothing(sections[cursor..], beginTime)
        invariant AfterSearch(old(Ahead()), false, beginTime, endTime)
               == AfterSearch(Ahead(), skipNextChunkBody, beginTime, endTime)
        decreases |sections| - cursor, !reachEnd
      {
        if cursor == |sections| {
          NothingLeft(sections[cursor..]);
          return false;
        }
        NextSection(sections[cursor..], beginTime, endTime);
        assert sections[cursor..][1..] == sections[cursor + 1..] && sections[cursor..][0] == sections[cursor];
        var section := sections[cursor];
        cursor := cursor + 1;
        match section {
          case Index =>
            reachEnd := true;
          case Channel =>
          case ChunkHeader(first, last) =>
            if last < beginTime {
              skipNextChunkBody := true;
            }
            if first > endTime {
              return false;
            }
          case ChunkBody(messages) =>
            if skipNextChunkBody {
              SuffixDrop(all, messages, Unopened());
              skipNextChunkBody := false;
            } else {
              chunk := messages;
              return true;
            }
        }
      }
      return false;
    }
  }

  ghost predicate AllAfter(messages: seq<Message>, time: nat) {
    forall m | m in messages :: m.time > time
  }

  // A reading call went from the unread messages before to those after it: it takes the
  // first one inside the window, or there is none.
  ghost predicate Answers(message: Option<Message>, before: seq<Message>, after: seq<Message>,
                          beginTime: nat, endTime: nat) {
    match message
    case Some(m) => beginTime <= m.time <= endTime && From(before, beginTime) == [m] + From(after, beginTime)
    case None =>
      && From(before, beginTime) == From(after, beginTime)
      && (beginTime <= endTime ==> From(after, beginTime) == From(after, endTime + 1))
  }

  // ---- What the reader's loops rely on ----

  ghost predicate Suffix(all: seq<Message>, rest: seq<Message>) {
    |rest| <= |all| && all[|all| - |rest|..] == rest
  }

  // The next chunk body may be skipped: it lies before beginTime, and no other header comes first.
  ghost predicate SkipsNothing(sections: seq<Section>, beginTime: nat) {
    NoHeaderBeforeBody(sections) && forall m | m in NextBody(sections) :: m.time < beginTime
  }

  // What reading one section does to the messages not opened yet.
  lemma {:induction false} NextSection(rest: seq<Section>, beginTime: nat, endTime: nat)
    requires rest != [] && Bounded(rest)
    ensures !rest[0].Index? ==> Bounded(rest[1..])
    ensures rest[0].Index? ==> Stream(rest) == []
    ensures rest[0].Channel? || rest[0].ChunkHeader? ==> Stream(rest) == Stream(rest[1..])
    ensures rest[0].Channel? && SkipsNothing(rest, beginTime) ==> SkipsNothing(rest[1..], beginTime)
    ensures rest[0].ChunkHeader? && rest[0].endTime < beginTime ==> SkipsNothing(rest[1..], beginTime)
    ensures rest[0].ChunkHeader? ==> !SkipsNothing(rest, beginTime)
    ensures rest[0].ChunkHeader? && rest[0].beginTime > endTime ==> AllAfter(Stream(rest), endTime)
    ensures rest[0].ChunkBody? ==> Stream(rest) == rest[0].messages + Stream(rest[1..])
    ensures rest[0].ChunkBody? && SkipsNothing(rest, beginTime) ==>
              From(Stream(rest), beginTime) == From(Stream(rest[1..]), beginTime)
  {
    if rest[0].ChunkBody? && SkipsNothing(rest, beginTime) {
      FromOfEarlier(rest[0].messages, beginTime);
      FromAppend(rest[0].messages, Stream(rest[1..]), beginTime);
    }
  }

  lemma {:induction false} NothingLeft(rest: seq<Section>)
    requires rest == []
    ensures Stream(rest) == []
  {
  }

  lemma {:induction false} OutsideTheFile(file: File, rest: seq<Message>, beginTime: nat, endTime: nat)
    requires file.WellFormed() && forall m | m in rest :: m in Stream(file.sections)
    requires !file.isValid || beginTime > file.header.endTime || endTime < file.header.beginTime
    ensures beginTime > file.header.endTime || AllAfter(rest, endTime)
    ensures Answers(None, rest, rest, beginTime, endTime)
  {
    if !file.isValid {
      assert Stream(file.sections) == [];
    } else if beginTime > file.header.endTime {
      FromOfEarlier(rest, beginTime);
      if beginTime <= endTime {
        FromOfEarlier(rest, endTime + 1);
      }
    } else {
      NothingInside(rest, beginTime, endTime);
    }
  }

  lemma {:induction false} DropFirst(chunk: seq<Message>, index: nat, time: nat)
    requires index <= |chunk|
    ensures DropUpTo(chunk[index..], time)
         == if index == |chunk| then []
            else if chunk[index].time > time then chunk[index..]
            else DropUpTo(chunk[index + 1..], time)
  {
    if index < |chunk| {
      assert chunk[index..][1..] == chunk[index + 1..];
    }
  }

  lemma {:induction false} SuffixReflexive(all: seq<Message>)
    ensures Suffix(all, all)
  {
    assert all[0..] == all;
  }

  lemma {:induction false} SuffixTrans(all: seq<Message>, some: seq<Message>, rest: seq<Message>)
    requires Suffix(all, some) && Suffix(some, rest)
    ensures Suffix(all, rest)
  {
    assert all[|all| - |rest|..] == some[|some| - |rest|..];
  }

  lemma {:induction false} SuffixDrop(all: seq<Message>, dropped: seq<Message>, rest: seq<Message>)
    requires Suffix(all, dropped + rest)
    ensures Suffix(all, rest)
  {
    assert (dropped + rest)[|dropped|..] == rest;
    assert all[|all| - |rest|..] == all[|all| - |dropped + rest|..][|dropped|..];
  }

  lemma {:induction false} SuffixFacts(all: seq<Message>, rest: seq<Message>)
    requires Suffix(all, rest) && Sorted(all)
    ensures Sorted(rest) && forall m | m in rest :: m in all
  {
  }

  lemma {:induction false} FirstIsEarliest(messages: seq<Message>)
    requires Sorted(messages) && messages != []
    ensures forall m | m in messages :: m.time >= messages[0].time
  {
  }

  lemma {:induction false} NothingInside(messages: seq<Message>, beginTime: nat, endTime: nat)
    requires AllAfter(messages, endTime)
    ensures beginTime <= endTime ==> From(messages, beginTime) == From(messages, endTime + 1)
  {
    if beginTime <= endTime {
      FromOfLater(messages, beginTime);
      FromOfLater(messages, endTime + 1);
    }
  }

  lemma {:induction false} TakeFirst(messages: seq<Message>, rest: seq<Message>, time: int)
    requires messages != [] && messages == [messages[0]] + rest
    ensures From(messages, time) == (if messages[0].time >= time then [messages[0]] else []) + From(rest, time)
  {
    assert messages[1..] == rest;
  }
}
