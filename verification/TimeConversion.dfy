// cyber/common/time_conversion.h: Unix time without leap seconds against GPS time
// with them, over a table of the moments a leap second was inserted, newest first.
module TimeConversion {
  import opened Modular

  const UNIX_GPS_DIFF: int := 315964800
  const ONE_MILLION: int := 1_000_000
  const ONE_BILLION: int := 1_000_000_000
  const TWO_31: int := 0x8000_0000

  // A moment in Unix time, and the leap seconds inserted up to then.
  datatype Entry = Entry(first: int, leaps: int)

  const LEAP_SECONDS: seq<Entry> :=
    [Entry(1483228800, 18), Entry(1435708800, 17), Entry(1341100800, 16), Entry(1230768000, 15), Entry(1136073600, 14)]

  // Newest first, one leap second at a time, in the range of a 32-bit integer.
  predicate WellFormed(t: seq<Entry>) {
    && |t| > 0
    && (forall i, j | 0 <= i < j < |t| :: t[i].first > t[j].first && t[i].leaps == t[j].leaps + (j - i))
    && (forall i | 0 <= i < |t| :: UNIX_GPS_DIFF <= t[i].first < TWO_31 && 0 <= t[i].leaps < TWO_31)
  }

  function Oldest(t: seq<Entry>): (e: Entry)
    requires |t| > 0
  {
    t[|t| - 1]
  }

  // The C++ cast to int32_t.
  function Int32(x: int): (r: int)
    ensures -TWO_31 <= r < TWO_31
    ensures -TWO_31 <= x < TWO_31 ==> r == x
  {
    (x + TWO_31) % (2 * TWO_31) - TWO_31
  }

  // ---- The two searches, from entry i on ----

  function UnixToGps(t: seq<Entry>, unix: int, i: nat): (gps: int)
    requires i <= |t|
    decreases |t| - i
  {
    if i == |t| then 0
    else if unix >= t[i].first then unix - (UNIX_GPS_DIFF - t[i].leaps)
    else UnixToGps(t, unix, i + 1)
  }

  function GpsToUnix(t: seq<Entry>, gps: int, i: nat): (unix: int)
    requires i <= |t|
    decreases |t| - i
  {
    if i == |t| then 0
    else
      var result := gps + (UNIX_GPS_DIFF - t[i].leaps);
      if Int32(result) >= t[i].first then result else GpsToUnix(t, gps, i + 1)
  }

  method UnixToGpsSeconds(t: seq<Entry>, unix: int) returns (gps: int)
    ensures gps == UnixToGps(t, unix, 0)
  {
    for i := 0 to |t|
      invariant UnixToGps(t, unix, 0) == UnixToGps(t, unix, i)
    {
      if unix >= t[i].first {
        return unix - (UNIX_GPS_DIFF - t[i].leaps);
      }
    }
    return 0;
  }

  method GpsToUnixSeconds(t: seq<Entry>, gps: int) returns (unix: int)
    ensures unix == GpsToUnix(t, gps, 0)
  {
    for i := 0 to |t|
      invariant GpsToUnix(t, gps, 0) == GpsToUnix(t, gps, i)
    {
      var result := gps + (UNIX_GPS_DIFF - t[i].leaps);
      if Int32(result) >= t[i].first {
        return result;
      }
    }
    return 0;
  }

  // ---- Where the searches stop ----

  lemma {:induction false} UnixSearchStops(t: seq<Entry>, unix: int, i: nat, k: nat)
    requires i <= k < |t| && unix >= t[k].first && forall j | i <= j < k :: unix < t[j].first
    ensures UnixToGps(t, unix, i) == unix - UNIX_GPS_DIFF + t[k].leaps
    decreases k - i
  {
    if i < k {
      UnixSearchStops(t, unix, i + 1, k);
    }
  }

  lemma {:induction false} GpsSearchStops(t: seq<Entry>, gps: int, i: nat, k: nat)
    requires i <= k < |t| && Int32(gps + UNIX_GPS_DIFF - t[k].leaps) >= t[k].first
    requires forall j | i <= j < k :: Int32(gps + UNIX_GPS_DIFF - t[j].leaps) < t[j].first
    ensures GpsToUnix(t, gps, i) == gps + UNIX_GPS_DIFF - t[k].leaps
    decreases k - i
  {
    if i < k {
      GpsSearchStops(t, gps, i + 1, k);
    }
  }

  // The entry in force at a Unix time.
  lemma {:induction false} EntryInForce(t: seq<Entry>, unix: int, i: nat) returns (k: nat)
    requires i < |t| && unix >= Oldest(t).first
    ensures i <= k < |t| && unix >= t[k].first && forall j | i <= j < k :: unix < t[j].first
    decreases |t| - i
  {
    if unix >= t[i].first {
      k := i;
    } else {
      k := EntryInForce(t, unix, i + 1);
    }
  }

  lemma {:induction false} GpsSearchFrom(t: seq<Entry>, gps: int, i: nat)
    requires i <= |t|
    ensures GpsToUnix(t, gps, i) == 0
         || exists k | i <= k < |t| :: GpsToUnix(t, gps, i) == gps + UNIX_GPS_DIFF - t[k].leaps
    decreases |t| - i
  {
    if i < |t| {
      GpsSearchFrom(t, gps, i + 1);
    }
  }

  // ---- There and back ----

  // GPS-to-Unix inverts Unix-to-GPS from the oldest entry on, exactly as long as the
  // cast to 32 bits leaves the time no earlier than the newest entry: in particular
  // up to 2^31, and not for the 2^31 seconds after that.
  lemma {:induction false} UnixGpsUnix(t: seq<Entry>, unix: int)
    requires WellFormed(t) && unix >= Oldest(t).first
    ensures GpsToUnix(t, UnixToGps(t, unix, 0), 0) == unix <==> unix < TWO_31 || Int32(unix) >= t[0].first
  {
    var k := EntryInForce(t, unix, 0);
    UnixSearchStops(t, unix, 0, k);
    var gps := UnixToGps(t, unix, 0);
    if unix < TWO_31 {
      forall j | 0 <= j < k ensures Int32(gps + UNIX_GPS_DIFF - t[j].leaps) < t[j].first {
        assert gps + UNIX_GPS_DIFF - t[j].leaps == unix - (k - j);
      }
      GpsSearchStops(t, gps, 0, k);
    } else {
      assert k == 0;
      if Int32(unix) < t[0].first {
        GpsSearchFrom(t, gps, 1);
      }
    }
  }

  // A GPS second that was inserted: the one before an entry takes force.
  predicate Inserted(t: seq<Entry>, gps: int) {
    exists i | 0 <= i < |t| - 1 :: gps == t[i].first + t[i].leaps - UNIX_GPS_DIFF - 1
  }

  // The Unix time that the newest entry gives still reads no earlier than that entry
  // after the cast to 32 bits, or fits 32 bits.
  predicate SurvivesCast(t: seq<Entry>, gps: int)
    requires |t| > 0
  {
    var unix := gps + UNIX_GPS_DIFF - t[0].leaps;
    unix < TWO_31 || Int32(unix) >= t[0].first
  }

  // Unix-to-GPS inverts GPS-to-Unix, from the oldest entry on, exactly on the seconds
  // that were not inserted and that survive the cast.
  lemma {:induction false} GpsUnixGps(t: seq<Entry>, gps: int)
    requires WellFormed(t) && gps >= Oldest(t).first + Oldest(t).leaps - UNIX_GPS_DIFF
    ensures UnixToGps(t, GpsToUnix(t, gps, 0), 0) == gps <==> !Inserted(t, gps) && SurvivesCast(t, gps)
  {
    if gps + UNIX_GPS_DIFF - t[0].leaps < TWO_31 {
      GpsUnixGpsIn32Bits(t, gps);
    } else {
      GpsUnixGpsBeyond(t, gps);
    }
  }

  lemma {:induction false} GpsUnixGpsBeyond(t: seq<Entry>, gps: int)
    requires WellFormed(t) && gps + UNIX_GPS_DIFF - t[0].leaps >= TWO_31
    ensures !Inserted(t, gps)
    ensures UnixToGps(t, GpsToUnix(t, gps, 0), 0) == gps <==> SurvivesCast(t, gps)
    ensures GpsToUnix(t, gps, 0) >= 0
  {
    forall i | 0 <= i < |t| ensures gps + UNIX_GPS_DIFF - t[i].leaps >= TWO_31 > t[i].first {
    }
    if SurvivesCast(t, gps) {
      GpsSearchStops(t, gps, 0, 0);
      UnixSearchStops(t, gps + UNIX_GPS_DIFF - t[0].leaps, 0, 0);
    } else {
      GpsSearchFrom(t, gps, 1);
      var unix := GpsToUnix(t, gps, 0);
      if unix == 0 {
        BeforeTheTable(t, 0, 0);
      } else {
        UnixSearchStops(t, unix, 0, 0);
      }
    }
  }

  lemma {:induction false} BeforeTheTable(t: seq<Entry>, unix: int, i: nat)
    requires i <= |t| && forall j | 0 <= j < |t| :: unix < t[j].first
    ensures UnixToGps(t, unix, i) == 0
    decreases |t| - i
  {
    if i < |t| {
      BeforeTheTable(t, unix, i + 1);
    }
  }

  lemma {:induction false} GpsUnixGpsIn32Bits(t: seq<Entry>, gps: int)
    requires WellFormed(t) && gps >= Oldest(t).first + Oldest(t).leaps - UNIX_GPS_DIFF
    requires gps + UNIX_GPS_DIFF - t[0].leaps < TWO_31
    ensures UnixToGps(t, GpsToUnix(t, gps, 0), 0) == gps <==> !Inserted(t, gps)
  {
    var j := GpsEntry(t, gps, 0);
    GpsSearchStops(t, gps, 0, j);
    var unix := GpsToUnix(t, gps, 0);
    var i := EntryInForce(t, unix, 0);
    UnixSearchStops(t, unix, 0, i);
    assert i <= j;
    if i < j {
      assert gps + UNIX_GPS_DIFF - t[j - 1].leaps < t[j - 1].first;
      assert t[j - 1].leaps == t[j].leaps + 1;
      assert i == j - 1;
      assert gps == t[i].first + t[i].leaps - UNIX_GPS_DIFF - 1;
    } else if Inserted(t, gps) {
      var m :| 0 <= m < |t| - 1 && gps == t[m].first + t[m].leaps - UNIX_GPS_DIFF - 1;
      InsertedStopsAfter(t, gps, m, j);
      assert false;
    }
  }

  lemma {:induction false} InsertedPasses(t: seq<Entry>, gps: int, m: nat, k: nat)
    requires WellFormed(t) && m < |t| - 1 && k < |t|
    requires gps == t[m].first + t[m].leaps - UNIX_GPS_DIFF - 1
    ensures gps + UNIX_GPS_DIFF - t[k].leaps >= t[k].first <==> k > m
  {
    if k < m {
      assert t[k].first > t[m].first && t[k].leaps == t[m].leaps + (m - k);
    } else if k > m {
      assert t[m].first > t[k].first && t[m].leaps == t[k].leaps + (k - m);
    }
  }

  lemma {:induction false} InsertedStopsAfter(t: seq<Entry>, gps: int, m: nat, j: nat)
    requires WellFormed(t) && m < |t| - 1 && j < |t|
    requires gps == t[m].first + t[m].leaps - UNIX_GPS_DIFF - 1
    requires gps + UNIX_GPS_DIFF - t[j].leaps >= t[j].first
    requires forall i | 0 <= i < j :: gps + UNIX_GPS_DIFF - t[i].leaps < t[i].first
    ensures j == m + 1 && gps + UNIX_GPS_DIFF - t[j].leaps == t[m].first
  {
    InsertedPasses(t, gps, m, j);
    InsertedPasses(t, gps, m, m + 1);
  }

  lemma {:induction false} GpsEntry(t: seq<Entry>, gps: int, i: nat) returns (k: nat)
    requires WellFormed(t) && i < |t| && gps >= Oldest(t).first + Oldest(t).leaps - UNIX_GPS_DIFF
    requires gps + UNIX_GPS_DIFF - t[i].leaps < TWO_31
    ensures i <= k < |t| && gps + UNIX_GPS_DIFF - t[k].leaps >= t[k].first
    ensures Int32(gps + UNIX_GPS_DIFF - t[k].leaps) >= t[k].first
    ensures forall j | i <= j < k :: gps + UNIX_GPS_DIFF - t[j].leaps < t[j].first
    ensures forall j | i <= j < k :: Int32(gps + UNIX_GPS_DIFF - t[j].leaps) < t[j].first
    decreases |t| - i
  {
    if gps + UNIX_GPS_DIFF - t[i].leaps >= t[i].first {
      k := i;
    } else {
      assert i < |t| - 1 && t[i].leaps == t[i + 1].leaps + 1;
      k := GpsEntry(t, gps, i + 1);
    }
  }

  // ---- Smaller units: the wrappers convert whole seconds and keep the rest ----

  // C++ division and remainder, towards zero.
  function Quotient(a: int, b: int): (q: int)
    requires b > 0
  {
    if a >= 0 then a / b else -(-a / b)
  }

  function Remainder(a: int, b: int): (r: int)
    requires b > 0
  {
    a - Quotient(a, b) * b
  }

  lemma {:induction false} TowardsZero(a: int, b: int)
    requires b > 0
    ensures var q, r := Quotient(a, b), Remainder(a, b);
      a == q * b + r && (if a >= 0 then 0 <= r < b else -b < r <= 0)
  {
  }

  // UnixToGpsMicroseconds and UnixToGpsNanoseconds, by unit.
  function UnixToGpsUnits(t: seq<Entry>, unix: int, unit: int): (gps: int)
    requires unit > 0
  {
    UnixToGps(t, Quotient(unix, unit), 0) * unit + Remainder(unix, unit)
  }

  function GpsToUnixUnits(t: seq<Entry>, gps: int, unit: int): (unix: int)
    requires unit > 0
  {
    GpsToUnix(t, Quotient(gps, unit), 0) * unit + Remainder(gps, unit)
  }

  lemma {:induction false} SplitUnits(whole: int, rest: int, unit: int)
    requires whole >= 0 && 0 <= rest < unit
    ensures Quotient(whole * unit + rest, unit) == whole && Remainder(whole * unit + rest, unit) == rest
  {
    assert whole * unit >= 0;
    assert whole * unit == unit * whole;
    DivModUnique(unit, whole, rest);
  }

  lemma {:induction false} UnitsUnixGpsUnix(t: seq<Entry>, unix: int, unit: int)
    requires WellFormed(t) && unit > 0 && unix >= Oldest(t).first * unit
    ensures GpsToUnixUnits(t, UnixToGpsUnits(t, unix, unit), unit) == unix
       <==> unix / unit < TWO_31 || Int32(unix / unit) >= t[0].first
  {
    var whole, rest := unix / unit, unix % unit;
    assert unix < (whole + 1) * unit;
    WholeInRange(unix, unit, Oldest(t).first, whole + 1);
    SplitUnits(whole, rest, unit);
    UnixGpsUnix(t, whole);
    var k := EntryInForce(t, whole, 0);
    UnixSearchStops(t, whole, 0, k);
    SplitUnits(UnixToGps(t, whole, 0), rest, unit);
    SameUnits(GpsToUnix(t, UnixToGps(t, whole, 0), 0), whole, rest, unit);
  }

  lemma {:induction false} WholeInRange(x: int, unit: int, low: int, high: int)
    requires unit > 0 && low >= 0 && low * unit <= x < high * unit
    ensures low <= x / unit < high && x == x / unit * unit + x % unit
  {
    MulOrder(x / unit, high, unit);
    MulOrder(low, x / unit + 1, unit);
  }

  lemma {:induction false} MulOrder(a: int, b: int, unit: int)
    requires unit > 0
    ensures a < b <==> a * unit < b * unit
  {
    if a < b {
      assert (b - a) * unit > 0;
    } else {
      assert (a - b) * unit >= 0;
    }
  }

  // The other way round fails exactly within an inserted second or one lost to the cast.
  lemma {:induction false} UnitsGpsUnixGps(t: seq<Entry>, gps: int, unit: int)
    requires WellFormed(t) && unit > 0
    requires (Oldest(t).first + Oldest(t).leaps - UNIX_GPS_DIFF) * unit <= gps
    ensures UnixToGpsUnits(t, GpsToUnixUnits(t, gps, unit), unit) == gps
       <==> !Inserted(t, gps / unit) && SurvivesCast(t, gps / unit)
  {
    var whole, rest := gps / unit, gps % unit;
    assert gps < (whole + 1) * unit;
    WholeInRange(gps, unit, Oldest(t).first + Oldest(t).leaps - UNIX_GPS_DIFF, whole + 1);
    SplitUnits(whole, rest, unit);
    GpsUnixGps(t, whole);
    UnixIsPositive(t, whole);
    SplitUnits(GpsToUnix(t, whole, 0), rest, unit);
    SameUnits(UnixToGps(t, GpsToUnix(t, whole, 0), 0), whole, rest, unit);
  }

  lemma {:induction false} UnixIsPositive(t: seq<Entry>, gps: int)
    requires WellFormed(t) && gps >= Oldest(t).first + Oldest(t).leaps - UNIX_GPS_DIFF
    ensures GpsToUnix(t, gps, 0) >= 0
  {
    if gps + UNIX_GPS_DIFF - t[0].leaps < TWO_31 {
      var k := GpsEntry(t, gps, 0);
      GpsSearchStops(t, gps, 0, k);
    } else {
      GpsUnixGpsBeyond(t, gps);
    }
  }

  lemma {:induction false} SameUnits(a: int, b: int, rest: int, unit: int)
    requires unit > 0
    ensures a * unit + rest == b * unit + rest <==> a == b
  {
    MulOrder(a, b, unit);
    MulOrder(b, a, unit);
  }

  // ---- The table in use ----

  lemma {:induction false} LeapSecondsWellFormed()
    ensures WellFormed(LEAP_SECONDS)
  {
  }

  // The first second of the first or the seventh month of a year, by the Gregorian calendar.
  function StartOfHalf(year: nat, second: bool): (unix: int)
    requires year >= 1970
  {
    var leapYear := year % 4 == 0 && (year % 100 != 0 || year % 400 == 0);
    var leapDays := (year - 1969) / 4 - (year - 1901) / 100 + (year - 1601) / 400;
    var days := 365 * (year - 1970) + leapDays + if second then (if leapYear then 182 else 181) else 0;
    86400 * days
  }

  // The table has the last five leap seconds, up to the eighteenth; GPS time starts on the
  // sixth of January 1980.
  lemma {:induction false} EntriesFallOnTheirDates()
    ensures LEAP_SECONDS == [Entry(StartOfHalf(2017, false), 18), Entry(StartOfHalf(2015, true), 17),
                             Entry(StartOfHalf(2012, true), 16), Entry(StartOfHalf(2009, false), 15),
                             Entry(StartOfHalf(2006, false), 14)]
    ensures UNIX_GPS_DIFF == StartOfHalf(1980, false) + 5 * 86400
  {
  }

  // The leap second of 2008: the GPS second before 2009 is told as the first Unix
  // second of 2009, which itself is the GPS second after.
  lemma {:induction false} LeapSecondOf2008()
    ensures UnixToGps(LEAP_SECONDS, 1230767999, 0) == 914803213 && GpsToUnix(LEAP_SECONDS, 914803213, 0) == 1230767999
    ensures UnixToGps(LEAP_SECONDS, 1230768000, 0) == 914803215 && GpsToUnix(LEAP_SECONDS, 914803215, 0) == 1230768000
    ensures GpsToUnix(LEAP_SECONDS, 914803214, 0) == 1230768000 && Inserted(LEAP_SECONDS, 914803214)
  {
    UnixSearchStops(LEAP_SECONDS, 1230767999, 0, 4);
    UnixSearchStops(LEAP_SECONDS, 1230768000, 0, 3);
    GpsSearchStops(LEAP_SECONDS, 914803213, 0, 4);
    GpsSearchStops(LEAP_SECONDS, 914803215, 0, 3);
    GpsSearchStops(LEAP_SECONDS, 914803214, 0, 4);
    assert 914803214 == LEAP_SECONDS[3].first + LEAP_SECONDS[3].leaps - UNIX_GPS_DIFF - 1;
  }
}
