// cyber/record/record_viewer.cc: the one-second windows of playback, on 64-bit
// unsigned integers.  A window that reaches past 2^64 wraps around: the next one starts
// far back, and the windows go round until one of them meets the end.
module PlaybackWindows {
  import opened Modular

  const STEP_TIME_NANO_SEC: nat := 1_000_000_000
  const TWO_64: nat := 0x1_0000_0000_0000_0000

  function WindowEnd(first: nat, last: nat): (r: nat) {
    var end := (first + STEP_TIME_NANO_SEC) % TWO_64;
    if end > last then last else end
  }

  function NextBegin(first: nat, last: nat): (r: nat)
    ensures r < TWO_64
  {
    (WindowEnd(first, last) + 1) % TWO_64
  }

  // The start of the n-th window.
  function WindowStart(begin: nat, last: nat, n: nat): (first: nat) {
    if n == 0 then begin else NextBegin(WindowStart(begin, last, n - 1), last)
  }

  // Playing comes to an end: there is nothing to play, or the end is before the last
  // 64-bit value (WindowsEndIff).
  predicate PlayingEnds(begin: nat, last: nat) {
    begin < TWO_64 && (begin > last || last < TWO_64 - 1)
  }

  // What a playback needs: there is nothing to play, or the first window does not wrap
  // and the end is before the last 64-bit value.
  predicate Playable(begin: nat, last: nat) {
    PlayingEnds(begin, last) && (begin > last || begin + STEP_TIME_NANO_SEC < TWO_64)
  }

  // ---- Going round ----

  // The last start of a window that does not wrap, and the inverse of the distance
  // from start to start modulo 2^64.
  const LAST_START: nat := TWO_64 - 1 - STEP_TIME_NANO_SEC
  const INVERSE: nat := 2916421085551998465
  const CARRY: nat := 158099504

  // How many windows it takes from a start to LAST_START.
  function WindowsToGo(first: nat): (n: nat) {
    ((LAST_START - first) * INVERSE) % TWO_64
  }

  lemma {:induction false} OneWindow(first: nat, last: nat)
    requires first <= last < TWO_64 - 1
    ensures NextBegin(first, last) > last
         || (first != LAST_START
             && NextBegin(first, last) == if first < LAST_START then first + STEP_TIME_NANO_SEC + 1
                                          else first + STEP_TIME_NANO_SEC + 1 - TWO_64)
    ensures WindowEnd(first, last) <= last
    ensures if first + STEP_TIME_NANO_SEC < TWO_64 then first <= WindowEnd(first, last)
            else WindowEnd(first, last) == first + STEP_TIME_NANO_SEC - TWO_64 < first
    ensures NextBegin(first, last) == WindowEnd(first, last) + 1
  {
    var sum := first + STEP_TIME_NANO_SEC;
    assert sum % TWO_64 == if sum < TWO_64 then sum else sum - TWO_64;
  }

  lemma {:induction false} ToGoDecreases(first: nat, next: nat)
    requires first < TWO_64 && first != LAST_START
    requires next == if first < LAST_START then first + STEP_TIME_NANO_SEC + 1
                     else first + STEP_TIME_NANO_SEC + 1 - TWO_64
    ensures WindowsToGo(next) == WindowsToGo(first) - 1
  {
    var wraps := if first < LAST_START then 0 else 1;
    var x, y := (LAST_START - first) * INVERSE, (LAST_START - next) * INVERSE;
    var a, r := x / TWO_64, x % TWO_64;
    assert x == TWO_64 * a + r;
    assert (STEP_TIME_NANO_SEC + 1) * INVERSE == TWO_64 * CARRY + 1;
    assert y == TWO_64 * (a + wraps * INVERSE - CARRY) + (r - 1);
    if r == 0 {
      NotThereYet(first, a);
    }
    DivModUnique(TWO_64, a + wraps * INVERSE - CARRY, r - 1);
  }

  lemma {:induction false} NotThereYet(first: nat, a: int)
    requires first < TWO_64 && first != LAST_START
    ensures (LAST_START - first) * INVERSE != TWO_64 * a
  {
    var d := LAST_START - first;
    var e := d * INVERSE - TWO_64 * a;
    assert e * (STEP_TIME_NANO_SEC + 1) == TWO_64 * (d * CARRY - a * (STEP_TIME_NANO_SEC + 1)) + d;
  }

  // A bound on the windows from here on, for the loop over them.
  function Measure(first: nat, last: nat): (n: nat) {
    if first > last then 0 else 1 + WindowsToGo(first)
  }

  lemma {:induction false} MeasureDecreases(first: nat, last: nat)
    requires first <= last < TWO_64 - 1
    ensures Measure(NextBegin(first, last), last) < Measure(first, last)
  {
    OneWindow(first, last);
    if NextBegin(first, last) <= last {
      ToGoDecreases(first, NextBegin(first, last));
    }
  }

  lemma {:induction false} WindowsEnd(begin: nat, last: nat, n: nat) returns (m: nat)
    requires last < TWO_64 - 1
    ensures WindowStart(begin, last, m) > last
    decreases Measure(WindowStart(begin, last, n), last)
  {
    if WindowStart(begin, last, n) > last {
      m := n;
    } else {
      MeasureDecreases(WindowStart(begin, last, n), last);
      m := WindowsEnd(begin, last, n + 1);
    }
  }

  // The windows come to an end if and only if the end is not the last 64-bit value,
  // however often they go round before.
  lemma {:induction false} WindowsEndIff(begin: nat, last: nat)
    requires begin <= last < TWO_64
    ensures (exists n :: WindowStart(begin, last, n) > last) <==> last < TWO_64 - 1
  {
    if last < TWO_64 - 1 {
      var n := WindowsEnd(begin, last, 0);
    } else {
      forall n ensures WindowStart(begin, last, n) <= last {
      }
    }
  }
}
