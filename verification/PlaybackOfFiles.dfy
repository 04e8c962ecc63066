// cyber/record/record_viewer.cc: what a viewer plays of its files for every begin and
// end.  It plays what lies between them unless its first window wraps around 2^64: then
// it starts to play far back.
module PlaybackOfFiles {
  import opened PlaybackOrder
  import opened PlaybackWindows
  import opened RecordReader

  // The messages recorded in some files, one file after the other.
  function Recorded(files: seq<File>): (messages: seq<Message>) {
    Flatten(Streams(files))
  }

  function Streams(files: seq<File>): (streams: seq<seq<Message>>)
    ensures |streams| == |files| && forall i | 0 <= i < |files| :: streams[i] == Stream(files[i].sections)
  {
    seq(|files|, i requires 0 <= i < |files| => Stream(files[i].sections))
  }

  // The first window wraps around.
  predicate FirstWraps(begin: nat, last: nat) {
    begin <= last && begin + STEP_TIME_NANO_SEC >= TWO_64
  }

  // The time that playing starts at: the first window that wraps around plays nothing.
  function StartTime(begin: nat, last: nat): (time: nat) {
    if FirstWraps(begin, last) then NextBegin(begin, last) else begin
  }

  // What a file contributes from the start time on.  In a first window that wraps around
  // its reader is finished if the file ends before the begin, else it looks in vain for
  // a message, and what it skips on the way is never played.
  function Share(file: File, begin: nat, last: nat): (messages: seq<Message>) {
    if !FirstWraps(begin, last) then Stream(file.sections)
    else if file.header.endTime < begin then []
    else file.Skimmed(begin, WindowEnd(begin, last))
  }

  function Shares(files: seq<File>, begin: nat, last: nat): (shares: seq<seq<Message>>)
    ensures |shares| == |files| && forall i | 0 <= i < |files| :: shares[i] == Share(files[i], begin, last)
  {
    seq(|files|, i requires 0 <= i < |files| => Share(files[i], begin, last))
  }

  function Played(files: seq<File>, begin: nat, last: nat, channels: set<string>): (messages: seq<Message>) {
    Playback(Flatten(Shares(files, begin, last)), StartTime(begin, last), last, channels)
  }

  // What should be played is played, whatever the files.
  ghost predicate PlaysRight(begin: nat, last: nat) {
    forall files: seq<File>, channels | (forall f | f in files :: f.WellFormed()) ::
      Played(files, begin, last, channels) == Playback(Recorded(files), begin, last, channels)
  }

  lemma {:induction false} PlayedIfPlayable(files: seq<File>, begin: nat, last: nat, channels: set<string>)
    requires Playable(begin, last)
    ensures Played(files, begin, last, channels) == Playback(Recorded(files), begin, last, channels)
  {
    assert Shares(files, begin, last) == Streams(files);
  }

  // ---- Playing before the begin ----

  // A file with one message, which lies where the second window begins.
  predicate TooEarly(file: File, m: Message, begin: nat, last: nat) {
    && file == File(true, Header(0, last), [ChunkHeader(m.time, m.time), ChunkBody([m])])
    && m.time == NextBegin(begin, last)
  }

  // If the first window wraps around, that message is played although it lies before the
  // begin.
  lemma {:induction false} TooEarlyIsPlayed(file: File, m: Message, begin: nat, last: nat)
    requires FirstWraps(begin, last) && last < TWO_64 - 1 && TooEarly(file, m, begin, last)
    ensures file.WellFormed() && m.time < begin
    ensures Played([file], begin, last, {}) == [m] && Playback(Recorded([file]), begin, last, {}) == []
  {
    TooEarlyFile(file, m, begin, last);
    TooEarlyIsNotSkipped(file, m, begin, WindowEnd(begin, last));
    hide Stream, Bounded, File.Skimmed, File.WellFormed, Flatten, Playback, WindowEnd, NextBegin;
    assert Shares([file], begin, last) == [[m]] && Streams([file]) == [[m]];
    OneFile([m]);
    OneMessage(m, m.time, last);
    OneMessage(m, begin, last);
  }

  lemma {:induction false} TooEarlyFile(file: File, m: Message, begin: nat, last: nat)
    requires FirstWraps(begin, last) && last < TWO_64 - 1 && TooEarly(file, m, begin, last)
    ensures file.WellFormed() && Stream(file.sections) == [m] && WindowEnd(begin, last) < m.time < begin
  {
    OneWindow(begin, last);
    OneMessageFile(file.sections, m);
    hide Stream, Bounded, WindowEnd, NextBegin;
    assert forall x | x in [m] :: x == m;
  }

  lemma {:induction false} TooEarlyIsNotSkipped(file: File, m: Message, first: nat, last: nat)
    requires file.sections == [ChunkHeader(m.time, m.time), ChunkBody([m])] && m.time > last
    ensures Stream(file.sections) == [m] ==> file.Skimmed(first, last) == [m]
  {
    OneMessageFile(file.sections, m);
  }

  lemma {:induction false} OneFile(messages: seq<Message>)
    ensures Flatten([messages]) == messages
  {
    assert [messages][..0] == [] && Flatten([]) == [];
  }

  lemma {:induction false} OneMessage(m: Message, first: nat, last: nat)
    ensures Playback([m], first, last, {}) == if first <= m.time <= last then [m] else []
  {
    assert [m][1..] == [] && Within([], first, last) == [];
    var window := Within([m], first, last);
    assert window == if first <= m.time <= last then [m] else [];
    InsertNone(Insert([], m));
    assert StableSort(window) == window;
    assert Selected([], {}) == [];
  }

  lemma {:induction false} OneMessageFile(sections: seq<Section>, m: Message)
    requires sections == [ChunkHeader(m.time, m.time), ChunkBody([m])]
    ensures Stream(sections) == Stream(sections[1..]) == [m] && Sorted([m]) && Bounded(sections)
  {
    var body := sections[1..];
    assert body == [ChunkBody([m])] && body[1..] == [];
    assert Stream(body) == [m] + Stream(body[1..]) && NextBody(body) == [m];
    assert Bounded(body[1..]) && Bounded(body);
    assert NoHeaderBeforeBody(body);
  }

  // Of all begins and ends for which playing ends, playback is right, whatever the files,
  // if and only if there is nothing to play or the first window does not wrap around.
  lemma {:induction false} PlaysRightIffPlayable(begin: nat, last: nat)
    requires PlayingEnds(begin, last)
    ensures PlaysRight(begin, last) <==> Playable(begin, last)
  {
    if Playable(begin, last) {
      forall files: seq<File>, channels | (forall f | f in files :: f.WellFormed())
        ensures Played(files, begin, last, channels) == Playback(Recorded(files), begin, last, channels)
      {
        PlayedIfPlayable(files, begin, last, channels);
      }
    } else {
      var m := Message("channel", NextBegin(begin, last), "content");
      var file := File(true, Header(0, last), [ChunkHeader(m.time, m.time), ChunkBody([m])]);
      TooEarlyIsPlayed(file, m, begin, last);
      assert forall f | f in [file] :: f.WellFormed();
    }
  }
}
