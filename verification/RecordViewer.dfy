// cyber/record/record_viewer.h and record_viewer.cc: several readers played back as
// one stream, filled window by window into a multimap and taken from its front.
module RecordViewer {
  import opened PlaybackOfFiles
  import opened PlaybackOrder
  import opened PlaybackWindows
  import opened RecordReader
  import opened Wrappers

  const BUFFER_MIN_SIZE: nat := 128

  // ---- The readers ----

  ghost predicate AllValid(readers: seq<RecordReader>)
    reads readers
  {
    forall i | 0 <= i < |readers| :: readers[i].Valid()
  }

  predicate Distinct(readers: seq<RecordReader>) {
    forall i, j | 0 <= i < j < |readers| :: readers[i] != readers[j]
  }

  // The readers' files.
  function Files(readers: seq<RecordReader>): (files: seq<File>)
    ensures |files| == |readers| && forall i | 0 <= i < |files| :: files[i] == readers[i].Contents()
  {
    seq(|readers|, i requires 0 <= i < |readers| => readers[i].Contents())
  }

  function EarliestBegin(readers: seq<RecordReader>): (r: nat) {
    if readers == [] then TWO_64 - 1
    else
      var last := readers[|readers| - 1];
      var r := EarliestBegin(readers[..|readers| - 1]);
      if last.isValid && last.header.beginTime < r then last.header.beginTime else r
  }

  function LatestEnd(readers: seq<RecordReader>): (r: nat) {
    if readers == [] then 0
    else
      var last := readers[|readers| - 1];
      var r := LatestEnd(readers[..|readers| - 1]);
      if last.isValid && last.header.endTime > r then last.header.endTime else r
  }

  // That is the least of the valid readers' begin times and the greatest of their end
  // times, or the largest and the smallest time there is.
  lemma {:induction false} EarliestAndLatest(readers: seq<RecordReader>)
    ensures var begin := EarliestBegin(readers);
      && begin <= TWO_64 - 1
      && (forall i | 0 <= i < |readers| && readers[i].isValid :: begin <= readers[i].header.beginTime)
      && (begin == TWO_64 - 1
          || exists i :: 0 <= i < |readers| && readers[i].isValid && readers[i].header.beginTime == begin)
    ensures var end := LatestEnd(readers);
      && (forall i | 0 <= i < |readers| && readers[i].isValid :: readers[i].header.endTime <= end)
      && (end == 0 || exists i :: 0 <= i < |readers| && readers[i].isValid && readers[i].header.endTime == end)
  {
    if readers != [] {
      var n := |readers| - 1;
      EarliestAndLatest(readers[..n]);
      assert forall i | 0 <= i < n :: readers[..n][i] == readers[i];
    }
  }

  // Without a valid reader there is nothing to view, whatever the user's times.
  lemma {:induction false} NothingToView(readers: seq<RecordReader>, beginTime: nat, endTime: nat)
    requires forall i | 0 <= i < |readers| :: !readers[i].isValid
    ensures ClippedBegin(readers, beginTime) > ClippedEnd(readers, endTime)
  {
    EarliestAndLatest(readers);
  }

  // The user's times, clipped to the times of the files.
  function ClippedBegin(readers: seq<RecordReader>, beginTime: nat): (r: nat) {
    if beginTime < EarliestBegin(readers) then EarliestBegin(readers) else beginTime
  }

  function ClippedEnd(readers: seq<RecordReader>, endTime: nat): (r: nat) {
    if endTime > LatestEnd(readers) then LatestEnd(readers) else endTime
  }

  class RecordViewer {
    var beginTime: nat
    var endTime: nat
    const channels: set<string>
    const readers: seq<RecordReader>
    var readersFinished: seq<bool>
    var currBeginTime: nat
    var msgBuffer: seq<Message>
    ghost var reached: nat  // the latest time that windows have been read up to, or are to start at

    // What each reader has still to contribute: a finished one nothing.
    ghost function Pending(): (pending: seq<seq<Message>>)
      reads `readersFinished, readers
      requires AllValid(readers) && |readersFinished| == |readers|
      ensures |pending| == |readers|
      ensures forall i | 0 <= i < |readers| :: pending[i] == if readersFinished[i] then [] else readers[i].Rest()
    {
      var finished := readersFinished;
      seq(|readers|, i requires 0 <= i < |readers| == |finished| && readers[i].Valid() reads readers =>
                       if finished[i] then [] else readers[i].Rest())
    }

    // What each reader will still contribute to playback.  While a first window that
    // wraps around is to be read, that is what the reader does not skip in it.
    ghost function Unplayed(): (unplayed: seq<seq<Message>>)
      reads `readersFinished, `currBeginTime, `endTime, `reached, readers
      requires AllValid(readers) && |readersFinished| == |readers|
      ensures |unplayed| == |readers|
      ensures currBeginTime <= reached ==> unplayed == Pending()
    {
      if currBeginTime <= reached then Pending()
      else Skimmed(currBeginTime, WindowEnd(currBeginTime, endTime))
    }

    ghost function Skimmed(first: nat, last: nat): (skimmed: seq<seq<Message>>)
      reads `readersFinished, readers
      requires AllValid(readers) && |readersFinished| == |readers|
      ensures |skimmed| == |readers|
      ensures forall i | 0 <= i < |readers| ::
        skimmed[i] == if readersFinished[i] || readers[i].header.endTime < first then []
                      else readers[i].AfterMiss(first, last)
    {
      var finished := readersFinished;
      seq(|readers|, i requires 0 <= i < |readers| == |finished| && readers[i].Valid() reads readers =>
                       if finished[i] || readers[i].header.endTime < first then []
                       else readers[i].AfterMiss(first, last))
    }

    ghost predicate Valid()
      reads this, readers
    {
      && Distinct(readers) && AllValid(readers) && |readersFinished| == |readers|
      && PlayingEnds(beginTime, endTime) && currBeginTime < TWO_64
      && Sorted(msgBuffer) && Before(msgBuffer, reached)
      && if currBeginTime > endTime then currBeginTime <= reached
         else && endTime < TWO_64 - 1
              && if currBeginTime <= reached
                 then forall i | 0 <= i < |readers| :: ReadUpTo(Pending()[i], currBeginTime, reached)
                 else FirstWraps(currBeginTime, endTime) && reached == NextBegin(currBeginTime, endTime)
    }

    // Everything this viewer has still to play, wanted or not.
    ghost function StillToPlay(): (left: seq<Message>)
      reads this, readers
      requires AllValid(readers) && |readersFinished| == |readers|
    {
      Left(msgBuffer, Flatten(Unplayed()), reached, endTime)
    }

    // Everything this viewer plays of its files.
    ghost function WholePlayback(): (playback: seq<Message>)
      reads this`beginTime, this`endTime
    {
      Played(Files(readers), beginTime, endTime, channels)
    }

    constructor (readers: seq<RecordReader>, beginTime: nat, endTime: nat, channels: set<string>)
      requires Distinct(readers) && AllValid(readers)
      requires PlayingEnds(ClippedBegin(readers, beginTime), ClippedEnd(readers, endTime))
      ensures Valid() && this.readers == readers && this.channels == channels
      ensures this.beginTime == ClippedBegin(readers, beginTime) && this.endTime == ClippedEnd(readers, endTime)
      ensures Playable(this.beginTime, this.endTime) ==>
                WholePlayback() == Playback(Recorded(Files(readers)), beginTime, endTime, channels)
    {
      this.beginTime, this.endTime, this.readers, this.channels := beginTime, endTime, readers, channels;
      readersFinished := seq(|readers|, _ => false);
      currBeginTime, msgBuffer := 0, [];
      reached := StartTime(ClippedBegin(readers, beginTime), ClippedEnd(readers, endTime));
      new;
      hide RecordReader.Valid, RecordReader.Rest, RecordReader.Contents, File.WellFormed, EarliestBegin, LatestEnd,
           Files, Recorded, Playback, From, Played, RecordViewer.Valid;
      UpdateTime();
      StartIsValid();
      AllWellFormed(readers);
      ClippingKeepsThePlayback(readers, beginTime, endTime, channels);
      if Playable(this.beginTime, this.endTime) {
        PlayedIfPlayable(Files(readers), this.beginTime, this.endTime, channels);
      }
    }

    // A viewer that has played nothing is in order, wherever its readers are.
    lemma {:induction false} StartIsValid()
      requires Distinct(readers) && AllValid(readers) && |readersFinished| == |readers|
      requires PlayingEnds(beginTime, endTime) && currBeginTime == beginTime && msgBuffer == []
      requires reached == StartTime(beginTime, endTime)
      ensures Valid()
    {
      hide RecordReader.Valid, RecordReader.Rest, From;
      if FirstWraps(beginTime, endTime) {
        OneWindow(beginTime, endTime);
      }
    }

    // With its readers at the start, what is to be played is what its files have.
    lemma {:induction false} UnplayedAtStart()
      requires AllValid(readers) && |readersFinished| == |readers| && currBeginTime == beginTime
      requires reached == StartTime(beginTime, endTime) && PlayingEnds(beginTime, endTime)
      requires forall i | 0 <= i < |readers| :: readers[i].AtStart() && !readersFinished[i]
      ensures Unplayed() == Shares(Files(readers), beginTime, endTime)
    {
      hide RecordReader.Valid, RecordReader.Rest, RecordReader.AfterMiss, RecordReader.AtStart, File.Skimmed, Stream;
      var last := WindowEnd(beginTime, endTime);
      forall i | 0 <= i < |readers| ensures Unplayed()[i] == Share(Files(readers)[i], beginTime, endTime) {
        readers[i].MissAtStart(beginTime, last);
      }
      if FirstWraps(beginTime, endTime) {
        OneWindow(beginTime, endTime);
      }
    }

    // Clips the wanted times to the times of the files.
    method UpdateTime()
      modifies this`beginTime, this`endTime, this`currBeginTime
      ensures beginTime == currBeginTime == ClippedBegin(readers, old(beginTime))
      ensures endTime == ClippedEnd(readers, old(endTime))
    {
      var minBeginTime, maxEndTime: nat := TWO_64 - 1, 0;
      for i := 0 to |readers|
        invariant minBeginTime == EarliestBegin(readers[..i]) && maxEndTime == LatestEnd(readers[..i])
      {
        var reader := readers[i];
        assert readers[..i + 1][..i] == readers[..i];
        if reader.isValid {
          if minBeginTime > reader.header.beginTime {
            minBeginTime := reader.header.beginTime;
          }
          if maxEndTime < reader.header.endTime {
            maxEndTime := reader.header.endTime;
          }
        }
      }
      assert readers[..|readers|] == readers;
      if beginTime < minBeginTime {
        beginTime := minBeginTime;
      }
      if endTime > maxEndTime {
        endTime := maxEndTime;
      }
      currBeginTime := beginTime;
    }

    method IsValid() returns (valid: bool)
      ensures valid <==> beginTime <= endTime
    {
      valid := !(beginTime > endTime);
    }

    // Starts over, whatever was played before.
    method Reset()
      requires Valid()
      modifies this`readersFinished, this`currBeginTime, this`msgBuffer, this`reached, readers
      ensures Valid() && currBeginTime == beginTime && msgBuffer == []
      ensures Selected(StillToPlay(), channels) == WholePlayback()
    {
      hide RecordReader.Valid, RecordReader.Rest, RecordReader.AtStart, Stream, From, Sorted, Bounded, Flatten, Within,
           StableSort, RecordViewer.Valid, PlayingEnds, StartTime, RecordViewer.Unplayed, Shares, Distinct, Files;
      ValidParts();
      for i := 0 to |readers|
        invariant AllValid(readers) && forall j | 0 <= j < i :: readers[j].AtStart()
      {
        readers[i].Reset();
      }
      readersFinished := seq(|readers|, _ => false);
      currBeginTime := beginTime;
      reached := StartTime(beginTime, endTime);
      msgBuffer := [];
      StartIsValid();
      UnplayedAtStart();
      assert [] + StableSort(Within(Flatten(Unplayed()), reached, endTime))
          == StableSort(Within(Flatten(Unplayed()), reached, endTime));
    }

    lemma {:induction false} ValidParts()
      requires Valid()
      ensures Distinct(readers) && AllValid(readers) && PlayingEnds(beginTime, endTime)
    {
    }

    // Readers whose file ends before the window are finished and rewound.
    method FinishReaders()
      requires Valid() && currBeginTime <= endTime
      modifies this`readersFinished, readers
      ensures Valid() && StillToPlay() == old(StillToPlay())
      ensures forall i | 0 <= i < |readers| && !readersFinished[i] :: readers[i].header.endTime >= currBeginTime
    {
      hide RecordReader.Valid, RecordReader.Rest, Stream, From, Sorted, Bounded, Flatten, ReadUpTo, Left;
      ghost var before := Unplayed();
      var i := 0;
      while i < |readers|
        invariant i <= |readers| && Valid()
        invariant forall j | 0 <= j < |readers| :: SameFrom(before[j], Unplayed()[j], reached)
        invariant forall j | 0 <= j < i && !readersFinished[j] :: readers[j].header.endTime >= currBeginTime
      {
        if !readersFinished[i] && readers[i].header.endTime < currBeginTime {
          Rewind(i);
        }
        i := i + 1;
      }
      FlattenFrom(before, Unplayed(), reached, reached);
      LeftOfSameFrom(msgBuffer, Flatten(before), Flatten(Unplayed()), reached, endTime);
    }

    method Rewind(i: nat)
      requires Valid() && currBeginTime <= endTime
      requires i < |readers| && !readersFinished[i] && readers[i].header.endTime < currBeginTime
      modifies this`readersFinished, readers[i]
      ensures Valid() && readersFinished == old(readersFinished)[i := true]
      ensures forall j | 0 <= j < |readers| :: SameFrom(old(Unplayed()[j]), Unplayed()[j], reached)
    {
      hide RecordReader.Valid, RecordReader.Rest, RecordReader.AfterMiss, Stream, From, Sorted, Bounded, ReadUpTo;
      ghost var pending, unplayed := Pending(), Unplayed();
      FileEndsBefore(readers[i], currBeginTime);
      if currBeginTime <= reached {
        FileEndsBefore(readers[i], reached);
      }
      NothingUnread(currBeginTime, reached);
      readersFinished := readersFinished[i := true];
      readers[i].Reset();
      assert Pending() == pending[i := []];
      assert currBeginTime > reached ==> Unplayed() == unplayed;
    }

    // One reader's share of a window, read into the buffer; a finished reader has none.
    method ReadShareUnlessFinished(i: nat, first: nat, last: nat)
      requires i < |readers| == |readersFinished| && AllValid(readers) && Distinct(readers)
      requires !readersFinished[i] ==> readers[i].header.endTime >= first
      modifies this`msgBuffer, readers[i]
      ensures AllValid(readers)
      ensures msgBuffer == InsertAll(old(msgBuffer), Within(old(Pending()[i]), first, last))
      ensures AfterShare(old(Pending()[i]), Pending()[i], first, last)
      ensures last < first ==> Pending()[i] == old(Skimmed(first, last)[i])
      ensures forall j | 0 <= j < |readers| && j != i :: Pending()[j] == old(Pending()[j])
      ensures forall j | 0 <= j < |readers| && j != i :: Skimmed(first, last)[j] == old(Skimmed(first, last)[j])
    {
      hide RecordReader.Valid, RecordReader.Rest, Stream, Sorted, Bounded, Within, InsertAll, AfterShare;
      if readersFinished[i] {
        NoShare(msgBuffer, first, last);
      } else {
        msgBuffer := ReadShare(readers[i], msgBuffer, first, last);
      }
    }

    static method ReadShare(reader: RecordReader, buffer: seq<Message>, first: nat, last: nat)
      returns (filled: seq<Message>)
      requires reader.Valid() && reader.header.endTime >= first
      modifies reader
      ensures reader.Valid()
      ensures filled == InsertAll(buffer, Within(old(reader.Rest()), first, last))
      ensures AfterShare(old(reader.Rest()), reader.Rest(), first, last)
      ensures last < first ==> reader.Rest() == old(reader.AfterMiss(first, last))
    {
      hide RecordReader.Valid, RecordReader.Rest, RecordReader.AfterMiss, Stream, From, Sorted, Bounded, Within,
           InsertAll, Insert, Suffix;
      filled := buffer;
      ghost var all := reader.Rest();
      ghost var share: seq<Message> := [];
      InsertNone(buffer);
      SuffixReflexive(all);
      assert From(all, first) == share + From(all, first);
      while true
        invariant reader.Valid() && filled == InsertAll(buffer, share) && Suffix(all, reader.Rest())
        invariant From(all, first) == share + From(reader.Rest(), first)
        invariant forall m | m in share :: first <= m.time <= last
        invariant last < first ==> reader.AfterMiss(first, last) == old(reader.AfterMiss(first, last))
        decreases |From(reader.Rest(), first)|
      {
        ghost var before := reader.Rest();
        var message := reader.ReadMessage(first, last);
        SuffixTrans(all, before, reader.Rest());
        if message.None? {
          break;
        }
        filled := Insert(filled, message.value);
        InsertOne(buffer, share, message.value);
        share := Taken(all, share, before, message.value, reader.Rest(), first);
      }
      ShareIsTheWindow(all, share, reader.Rest(), first, last);
    }

    // Reads all readers' messages of one window into the buffer, reader by reader.
    method FillWindow(last: nat)
      requires Distinct(readers) && AllValid(readers) && |readersFinished| == |readers|
      requires forall i | 0 <= i < |readers| && !readersFinished[i] :: readers[i].header.endTime >= currBeginTime
      modifies this`msgBuffer, readers
      ensures AllValid(readers)
      ensures msgBuffer == InsertAll(old(msgBuffer), Within(Flatten(old(Pending())), currBeginTime, last))
      ensures forall i | 0 <= i < |readers| :: AfterShare(old(Pending()[i]), Pending()[i], currBeginTime, last)
      ensures last < currBeginTime ==> Pending() == old(Skimmed(currBeginTime, last))
    {
      hide RecordReader.AfterMiss, RecordReader.Valid, RecordReader.Rest, Stream, From, Sorted, Bounded, Flatten,
           Within, InsertAll, AfterShare, RecordViewer.Pending, RecordViewer.Skimmed, Distinct;
      ghost var pending := Pending();
      ghost var buffer := msgBuffer;
      var first := currBeginTime;
      ghost var skimmed := Skimmed(first, last);
      WindowOfNone(pending, buffer, first, last);
      var i := 0;
      while i < |readers|
        invariant i <= |readers|
        invariant forall j | 0 <= j < |readers| :: readers[j].Valid()
        invariant forall j | 0 <= j < i :: AfterShare(pending[j], Pending()[j], first, last)
        invariant forall j | i <= j < |readers| :: pending[j] == Pending()[j]
        invariant last < first ==> forall j | 0 <= j < i :: Pending()[j] == skimmed[j]
        invariant forall j | i <= j < |readers| :: Skimmed(first, last)[j] == skimmed[j]
        invariant msgBuffer == InsertAll(buffer, Within(Flatten(pending[..i]), first, last))
      {
        ReadShareUnlessFinished(i, first, last);
        WindowOfOneMore(pending, buffer, i, first, last);
        i := i + 1;
      }
      assert pending[..i] == pending;
    }

    // Fills the buffer unless there is enough in it, window by window.
    method FillBuffer() returns (filled: bool)
      requires Valid()
      modifies this`readersFinished, this`currBeginTime, this`msgBuffer, this`reached, readers
      ensures Valid() && StillToPlay() == old(StillToPlay())
      ensures filled <==> msgBuffer != []
      ensures !filled ==> StillToPlay() == []
      ensures currBeginTime > endTime || |msgBuffer| >= 128
      ensures old(|msgBuffer|) >= BUFFER_MIN_SIZE ==> msgBuffer == old(msgBuffer)
    {
      hide RecordReader.Valid, RecordReader.Rest, Stream, From, Sorted, Bounded, Flatten, Within, InsertAll, Left,
           Before, ReadUpTo, WindowsToGo, NextBegin;
      while currBeginTime <= endTime && |msgBuffer| < BUFFER_MIN_SIZE
        invariant Valid() && StillToPlay() == old(StillToPlay())
        invariant old(|msgBuffer|) >= BUFFER_MIN_SIZE ==> msgBuffer == old(msgBuffer)
        decreases Measure(currBeginTime, endTime)
      {
        MeasureDecreases(currBeginTime, endTime);
        FillOneWindow();
      }
      filled := msgBuffer != [];
      if !filled {
        NothingLeftAfterTheEnd(Flatten(Unplayed()), reached, endTime);
      }
    }

    method FillOneWindow()
      requires Valid() && currBeginTime <= endTime
      modifies this`readersFinished, this`currBeginTime, this`msgBuffer, this`reached, readers
      ensures Valid() && StillToPlay() == old(StillToPlay())
      ensures currBeginTime == NextBegin(old(currBeginTime), endTime)
    {
      hide RecordViewer.Valid, RecordViewer.StillToPlay;
      var thisEndTime := (currBeginTime + STEP_TIME_NANO_SEC) % TWO_64;
      if thisEndTime > endTime {
        thisEndTime := endTime;
      }
      FinishReaders();
      ReadWindow(thisEndTime);
    }

    method ReadWindow(thisEndTime: nat)
      requires Valid() && currBeginTime <= endTime && thisEndTime == WindowEnd(currBeginTime, endTime)
      requires forall i | 0 <= i < |readers| && !readersFinished[i] :: readers[i].header.endTime >= currBeginTime
      modifies this`currBeginTime, this`msgBuffer, this`reached, readers
      ensures Valid() && StillToPlay() == old(StillToPlay())
      ensures currBeginTime == NextBegin(old(currBeginTime), endTime)
    {
      hide RecordReader.Valid, RecordReader.Rest, RecordReader.AfterMiss, Stream, From, Sorted, Bounded, Flatten,
           Within, InsertAll, Left, Before, ReadUpTo, AfterShare, SameFrom, PlayingEnds, Distinct, FirstWraps,
           RecordViewer.Pending, RecordViewer.Skimmed;
      OneWindow(currBeginTime, endTime);
      hide WindowEnd, NextBegin;
      ghost var pending, unplayed := Pending(), Unplayed();
      ghost var buffer := msgBuffer;
      assert currBeginTime > reached ==> unplayed == Skimmed(currBeginTime, thisEndTime);
      hide RecordViewer.Unplayed;
      FillWindow(thisEndTime);
      OneWindowIsRead(buffer, pending, unplayed, Pending(), currBeginTime, thisEndTime, reached, endTime);
      reached := Later(reached, thisEndTime + 1);
      currBeginTime := (thisEndTime + 1) % TWO_64;
    }

    // The next message on a wanted channel, if there is one left.
    method Update() returns (message: Option<Message>)
      requires Valid()
      modifies this`readersFinished, this`currBeginTime, this`msgBuffer, this`reached, readers
      ensures Valid()
      ensures Selected(old(StillToPlay()), channels)
           == (if message.Some? then [message.value] else []) + Selected(StillToPlay(), channels)
      ensures message == None ==> StillToPlay() == []
      ensures message.Some? ==> |StillToPlay()| < |old(StillToPlay())|
    {
      hide RecordReader.Valid, RecordReader.Rest, Stream, From, Sorted, Before, Bounded, Flatten, Within, InsertAll,
           Left, Selected, ReadUpTo, RecordViewer.Unplayed, RecordViewer.Pending, PlayingEnds, FirstWraps, NextBegin;
      message := None;
      ghost var all := StillToPlay();
      while true
        invariant Valid() && message == None
        invariant |StillToPlay()| <= |all| && Selected(all, channels) == Selected(StillToPlay(), channels)
        decreases |StillToPlay()|
      {
        if msgBuffer == [] {
          var filled := FillBuffer();
          if !filled {
            SelectedNone(channels);
            return None;
          }
        }
        var next := msgBuffer[0];
        LeftOfFirst(msgBuffer, Flatten(Unplayed()), reached, endTime, channels);
        msgBuffer := msgBuffer[1..];
        if channels == {} || next.channel in channels {
          return Some(next);
        }
      }
    }
  }

  function Later(a: nat, b: nat): (r: nat) {
    if a < b then b else a
  }

  // A reader whose unread messages lie outside [curr, reached): those from curr on are
  // those from reached on, and if a window from curr would wrap, there are no others.
  ghost predicate ReadUpTo(unread: seq<Message>, curr: nat, reached: nat) {
    && From(unread, curr) == From(unread, reached)
    && (curr + STEP_TIME_NANO_SEC < TWO_64 || NoneBefore(unread, curr))
  }

  ghost predicate NoneBefore(messages: seq<Message>, time: nat) {
    forall m | m in messages :: m.time >= time
  }

  // A reader's unread messages before and after its share of the window [first, last].
  ghost predicate AfterShare(before: seq<Message>, after: seq<Message>, first: nat, last: nat) {
    && Suffix(before, after) && AllAfter(after, last)
    && SameFrom(before, after, Later(first, last + 1))
  }

  // A window that wraps, or that ends before the time reached, changes nothing for a
  // reader but the time it is read up to.
  lemma {:induction false} ReaderIsRead(before: seq<Message>, after: seq<Message>, first: nat, last: nat, reached: nat)
    requires ReadUpTo(before, first, reached) && first <= reached && AfterShare(before, after, first, last)
    requires last < first ==> first + STEP_TIME_NANO_SEC >= TWO_64
    ensures ReadUpTo(after, last + 1, Later(reached, last + 1))
    ensures SameFrom(before, after, Later(reached, last + 1))
  {
    FromOfLater(after, last + 1);
    hide From, Suffix;
    if last < first {
      AllInSuffix(before, after, first);
      FromOfLater(before, first);
      FromOfLater(after, first);
      FromOfLaterStill(after, last + 1, first, reached);
    } else {
      ForwardIsRead(before, after, first, last, reached);
    }
  }

  lemma {:induction false} FromOfLaterStill(messages: seq<Message>, early: nat, first: nat, reached: nat)
    requires early <= first <= reached && From(messages, early) == messages == From(messages, first)
    ensures From(From(messages, first), reached) == From(messages, reached)
  {
  }

  lemma {:induction false} ForwardIsRead(before: seq<Message>, after: seq<Message>, first: nat, last: nat, reached: nat)
    requires From(before, first) == From(before, reached) && first <= reached && first <= last
    requires From(before, last + 1) == From(after, last + 1)
    ensures From(after, last + 1) == From(after, Later(reached, last + 1))
    ensures From(before, Later(reached, last + 1)) == From(after, Later(reached, last + 1))
  {
    if last + 1 < reached {
      FromTwice(before, first, last + 1);
      FromTwice(before, reached, reached);
      FromTwice(before, last + 1, reached);
      FromTwice(after, last + 1, reached);
      FromOfLater(From(before, reached), last + 1);
    }
  }

  lemma {:induction false} AllInSuffix(before: seq<Message>, after: seq<Message>, time: nat)
    requires Suffix(before, after) && NoneBefore(before, time)
    ensures NoneBefore(after, time)
  {
  }

  // What one window does to the viewer.
  lemma {:induction false} WindowIsRead(buffer: seq<Message>, before: seq<seq<Message>>, after: seq<seq<Message>>,
                                        first: nat, last: nat, reached: nat, end: nat)
    requires Sorted(buffer) && Before(buffer, reached) && first <= reached && last <= end
    requires last < first ==> first + STEP_TIME_NANO_SEC >= TWO_64
    requires |before| == |after|
    requires forall i | 0 <= i < |before| :: ReadUpTo(before[i], first, reached)
    requires forall i | 0 <= i < |before| :: AfterShare(before[i], after[i], first, last)
    ensures var filled := InsertAll(buffer, Within(Flatten(before), first, last));
            var later := Later(reached, last + 1);
            && Sorted(filled) && Before(filled, later)
            && Left(filled, Flatten(after), later, end) == Left(buffer, Flatten(before), reached, end)
    ensures forall i | 0 <= i < |after| :: ReadUpTo(after[i], last + 1, Later(reached, last + 1))
  {
    var later := Later(reached, last + 1);
    hide AfterShare, Flatten, From, Within, InsertAll, Sorted, Left;
    forall i | 0 <= i < |before|
      ensures ReadUpTo(after[i], last + 1, later) && SameFrom(before[i], after[i], later)
    {
      ReaderIsRead(before[i], after[i], first, last, reached);
    }
    FlattenFrom(before, after, later, later);
    FlattenFrom(before, before, first, reached);
    WindowFromReached(Flatten(before), first, last, reached);
    if last >= reached {
      WindowKeepsWhatIsLeft(buffer, Flatten(before), Flatten(after), reached, last, end);
    } else {
      InsertNone(buffer);
      LeftOfSameFrom(buffer, Flatten(before), Flatten(after), reached, end);
    }
  }

  // What a first window that wraps around does to the viewer.
  lemma {:induction false} FirstWindowIsRead(buffer: seq<Message>, before: seq<seq<Message>>,
                                             after: seq<seq<Message>>, first: nat, last: nat)
    requires last < first && |before| == |after|
    requires forall i | 0 <= i < |before| :: AfterShare(before[i], after[i], first, last)
    ensures InsertAll(buffer, Within(Flatten(before), first, last)) == buffer
    ensures forall i | 0 <= i < |after| :: ReadUpTo(after[i], last + 1, last + 1)
  {
    hide From, InsertAll;
    NothingLeftAfterTheEnd(Flatten(before), first, last);
    InsertNone(buffer);
  }

  // In both cases what is to be played stays the same.
  lemma {:induction false} OneWindowIsRead(buffer: seq<Message>, before: seq<seq<Message>>,
                                           unplayed: seq<seq<Message>>, after: seq<seq<Message>>,
                                           first: nat, last: nat, reached: nat, end: nat)
    requires Sorted(buffer) && Before(buffer, reached) && last <= end
    requires last < first ==> first + STEP_TIME_NANO_SEC >= TWO_64
    requires |before| == |after| && forall i | 0 <= i < |before| :: AfterShare(before[i], after[i], first, last)
    requires if first <= reached
             then unplayed == before && forall i | 0 <= i < |before| :: ReadUpTo(before[i], first, reached)
             else last < first && reached == last + 1 && unplayed == after
    ensures var filled := InsertAll(buffer, Within(Flatten(before), first, last));
            var later := Later(reached, last + 1);
            && Sorted(filled) && Before(filled, later)
            && Left(filled, Flatten(after), later, end) == Left(buffer, Flatten(unplayed), reached, end)
    ensures forall i | 0 <= i < |after| :: ReadUpTo(after[i], last + 1, Later(reached, last + 1))
  {
    hide AfterShare, ReadUpTo, Flatten, Left, Sorted, Before, InsertAll, Within;
    if first <= reached {
      WindowIsRead(buffer, before, after, first, last, reached, end);
    } else {
      FirstWindowIsRead(buffer, before, after, first, last);
    }
  }

  // The messages of a window are those at or after the time reached.
  lemma {:induction false} WindowFromReached(unread: seq<Message>, first: nat, last: nat, reached: nat)
    requires From(unread, first) == From(unread, reached) && first <= reached
    ensures Within(unread, first, last) == if last >= reached then Within(unread, reached, last) else []
  {
    WithinFrom(unread, first, last);
    WithinFrom(unread, reached, last);
    var rest := From(unread, reached);
    if last >= reached {
      WithinWider(rest, first, last, reached, last);
    } else {
      WithinNone(rest, first, last);
    }
  }

  lemma {:induction false} NothingUnread(curr: nat, reached: nat)
    ensures ReadUpTo([], curr, reached) && From([], reached) == []
  {
  }

  lemma {:induction false} NoShare(buffer: seq<Message>, first: nat, last: nat)
    ensures InsertAll(buffer, Within([], first, last)) == buffer && AfterShare([], [], first, last)
  {
  }

  lemma {:induction false} WindowOfNone(rests: seq<seq<Message>>, buffer: seq<Message>, first: nat, last: nat)
    ensures InsertAll(buffer, Within(Flatten(rests[..0]), first, last)) == buffer
  {
    assert rests[..0] == [];
  }

  lemma {:induction false} WindowOfOneMore(rests: seq<seq<Message>>, buffer: seq<Message>, i: nat, first: nat,
                                           last: nat)
    requires i < |rests|
    ensures InsertAll(buffer, Within(Flatten(rests[..i + 1]), first, last))
         == InsertAll(InsertAll(buffer, Within(Flatten(rests[..i]), first, last)), Within(rests[i], first, last))
  {
    assert rests[..i + 1][..i] == rests[..i];
    WithinAppend(Flatten(rests[..i]), rests[i], first, last);
    InsertAllAppend(buffer, Within(Flatten(rests[..i]), first, last), Within(rests[i], first, last));
  }

  lemma {:induction false} ShareIsTheWindow(all: seq<Message>, share: seq<Message>, rest: seq<Message>, first: nat,
                                            last: nat)
    requires forall m | m in share :: first <= m.time <= last
    requires From(all, first) == share + From(rest, first) && AllAfter(rest, last)
    ensures share == Within(all, first, last) && SameFrom(all, rest, Later(first, last + 1))
  {
    WithinFrom(all, first, last);
    var later := From(rest, first);
    WithinAppend(share, later, first, last);
    WithinAll(share, first, last);
    WithinNone(later, first, last);
    if first <= last {
      FromTwice(all, first, last + 1);
      FromAppend(share, later, last + 1);
      FromOfEarlier(share, last + 1);
      FromTwice(rest, first, last + 1);
      assert [] + From(rest, last + 1) == From(rest, last + 1);
    } else {
      NothingLeftAfterTheEnd(share, first, last);
      assert [] + later == later;
    }
  }

  lemma {:induction false} Taken(all: seq<Message>, share: seq<Message>, before: seq<Message>, m: Message,
                                 after: seq<Message>, first: nat)
    returns (longer: seq<Message>)
    requires From(all, first) == share + From(before, first) && From(before, first) == [m] + From(after, first)
    ensures longer == share + [m] && From(all, first) == longer + From(after, first)
    ensures |From(after, first)| < |From(before, first)|
  {
    longer := share + [m];
    assert share + ([m] + From(after, first)) == longer + From(after, first);
  }

  lemma {:induction false} FileEndsBefore(reader: RecordReader, time: nat)
    requires reader.Valid() && reader.header.endTime < time
    ensures From(reader.Rest(), time) == []
  {
    if !reader.isValid {
      assert Stream(reader.sections) == [];
    }
    FromOfEarlier(reader.Rest(), time);
  }

  lemma {:induction false} FilesInsideTheirBounds(readers: seq<RecordReader>)
    requires forall i | 0 <= i < |readers| :: readers[i].Contents().WellFormed()
    ensures forall m | m in Recorded(Files(readers)) :: EarliestBegin(readers) <= m.time <= LatestEnd(readers)
  {
    if readers != [] {
      var n := |readers| - 1;
      FilesInsideTheirBounds(readers[..n]);
      assert Streams(Files(readers))[..n] == Streams(Files(readers[..n]));
      if !readers[n].isValid {
        assert Stream(readers[n].sections) == [];
      }
    }
  }

  lemma {:induction false} AllWellFormed(readers: seq<RecordReader>)
    requires AllValid(readers)
    ensures forall i | 0 <= i < |readers| :: readers[i].Contents().WellFormed()
  {
    hide File.WellFormed;
  }

  // Clipping the wanted times to the files' times leaves out no message.
  lemma {:induction false} ClippingKeepsThePlayback(readers: seq<RecordReader>, first: nat, last: nat,
                                                    channels: set<string>)
    requires forall i | 0 <= i < |readers| :: readers[i].Contents().WellFormed()
    ensures Playback(Recorded(Files(readers)), ClippedBegin(readers, first), ClippedEnd(readers, last), channels)
         == Playback(Recorded(Files(readers)), first, last, channels)
  {
    FilesInsideTheirBounds(readers);
    WithinWider(Recorded(Files(readers)), first, last, ClippedBegin(readers, first), ClippedEnd(readers, last));
  }

  // ---- Iteration ----

  class Iterator {
    const viewer: RecordViewer
    var end: bool
    var index: nat
    var message: Message

    // The messages this iterator has still to show, the current one first.
    ghost function Ahead(): (ahead: seq<Message>)
      reads this, viewer, viewer.readers
      requires viewer.Valid()
      ensures if end then ahead == [] else ahead != [] && ahead[0] == message
    {
      if end then [] else [message] + Selected(viewer.StillToPlay(), viewer.channels)
    }

    constructor Begin(viewer: RecordViewer)
      requires viewer.Valid()
      modifies viewer`readersFinished, viewer`currBeginTime, viewer`msgBuffer, viewer`reached, viewer.readers
      ensures viewer.Valid() && this.viewer == viewer && index == 0
      ensures Ahead() == viewer.WholePlayback()
    {
      hide RecordViewer.Valid, RecordReader.Valid, RecordReader.Rest, Stream, From, Sorted, Bounded, Flatten, Within,
           StableSort, Selected, Left, SameFrom, Distinct, AllValid;
      this.viewer, end, index, message := viewer, false, 0, Message("", 0, "");
      new;
      viewer.Reset();
      var valid := viewer.IsValid();
      if !valid {
        NothingToPlay(Flatten(Shares(Files(viewer.readers), viewer.beginTime, viewer.endTime)), viewer.beginTime,
                      viewer.endTime, viewer.channels);
        end := true;
        return;
      }
      Take();
    }

    constructor End(viewer: RecordViewer)
      ensures this.viewer == viewer && end && index == 0
    {
      this.viewer, end, index, message := viewer, true, 0, Message("", 0, "");
    }

    method Take()
      requires viewer.Valid() && !end
      modifies this`end, this`message
      modifies viewer`readersFinished, viewer`currBeginTime, viewer`msgBuffer, viewer`reached, viewer.readers
      ensures viewer.Valid()
      ensures Ahead() == Selected(old(viewer.StillToPlay()), viewer.channels)
    {
      hide RecordViewer.Valid, RecordViewer.StillToPlay, Selected;
      SelectedNone(viewer.channels);
      var next := viewer.Update();
      if next.Some? {
        message := next.value;
      } else {
        end := true;
      }
    }

    method Advance()
      requires viewer.Valid() && !end
      modifies this`end, this`message, this`index
      modifies viewer`readersFinished, viewer`currBeginTime, viewer`msgBuffer, viewer`reached, viewer.readers
      ensures viewer.Valid() && Ahead() == old(Ahead())[1..] && index == old(index) + 1
    {
      hide RecordViewer.Valid, RecordViewer.StillToPlay, Selected;
      index := index + 1;
      Take();
    }

    predicate Equals(other: Iterator): (equal: bool)
      reads this, other
      ensures other.end ==> equal == end
      ensures !other.end ==> (equal <==> index == other.index && viewer == other.viewer)
    {
      if other.end then end else index == other.index && viewer == other.viewer
    }
  }

  lemma {:induction false} FirstToTheOther(a: seq<Message>, b: seq<Message>)
    requires b != []
    ensures a + b == (a + [b[0]]) + b[1..]
  {
  }

  // The loop over all messages of a viewer, which may have been played before.
  method PlayAll(viewer: RecordViewer) returns (played: seq<Message>)
    requires viewer.Valid()
    modifies viewer`readersFinished, viewer`currBeginTime, viewer`msgBuffer, viewer`reached, viewer.readers
    ensures viewer.Valid()
    ensures played == viewer.WholePlayback()
  {
    hide RecordViewer.Valid, RecordViewer.StillToPlay, Selected, Playback;
    hide AllValid, Distinct, Iterator.Ahead, Files, Flatten;
    var it := new Iterator.Begin(viewer);
    var last := new Iterator.End(viewer);
    ghost var all := it.Ahead();
    played := [];
    while !it.Equals(last)
      invariant it.viewer == viewer && viewer.Valid() && last.end
      invariant all == played + it.Ahead()
      decreases |it.Ahead()|
    {
      FirstToTheOther(played, it.Ahead());
      played := played + [it.message];
      it.Advance();
    }
  }

  // Playing readers, in the order the viewer's Init left them in, through a window
  // given by the user: what is played for any window, and that this is what should be.
  method View(readers: seq<RecordReader>, beginTime: nat, endTime: nat, channels: set<string>)
    returns (played: seq<Message>)
    requires Distinct(readers) && AllValid(readers)
    requires PlayingEnds(ClippedBegin(readers, beginTime), ClippedEnd(readers, endTime))
    modifies readers
    ensures var begin, end := ClippedBegin(readers, beginTime), ClippedEnd(readers, endTime);
      && played == Played(Files(readers), begin, end, channels)
      && (Playable(begin, end) ==> played == Playback(Recorded(Files(readers)), beginTime, endTime, channels))
  {
    hide Played, Playback, Files, ClippedBegin, ClippedEnd, AllValid, Distinct;
    var viewer := new RecordViewer(readers, beginTime, endTime, channels);
    played := PlayAll(viewer);
  }

  // Otherwise playback goes wrong.  If the end is the last 64-bit value, the windows
  // never end (WindowsEndIff).  If the first window wraps, the second one lies before
  // the begin: a viewer plays the message of a file that lies there.
  method PlaysBeforeTheBegin(reader: RecordReader, m: Message, begin: nat, last: nat) returns (played: seq<Message>)
    requires reader.Valid() && TooEarly(reader.Contents(), m, begin, last)
    requires FirstWraps(begin, last) && last < TWO_64 - 1 && begin < TWO_64
    modifies reader
    ensures played == [m] && m.time < begin
    ensures Playback(Recorded(Files([reader])), begin, last, {}) == []
  {
    var readers := [reader];
    OneReader(reader);
    TooEarlyIsPlayed(reader.Contents(), m, begin, last);
    hide Played, Playback, RecordReader.Valid;
    played := View(readers, begin, last, {});
    assert Files(readers) == [reader.Contents()];
  }

  lemma {:induction false} OneReader(reader: RecordReader)
    requires reader.isValid && reader.header.beginTime == 0
    ensures EarliestBegin([reader]) == 0 && LatestEnd([reader]) == reader.header.endTime
  {
    assert [reader][..0] == [];
    assert LatestEnd([]) == 0;
  }
}
