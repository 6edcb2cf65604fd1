/**
 * The season banner of the leaderboard page (script.js): which season is
 * running, when it started and when it ends, and the countdown text shown for
 * the time that remains.
 *
 * The seasons come as pairs of season number and start time in milliseconds, in
 * the enumeration order of the data file; the current time is a parameter.
 */
module Season {
  import opened Sorting
  import opened Text
  import opened Wrappers
  import Display

  datatype SeasonStart = SeasonStart(season: int, start: int)

  /** What `getCurrentSeason` returns: `end` is `None` for the last season (`null`). */
  datatype CurrentSeason = CurrentSeason(season: int, start: int, end: Option<int>)

  /** Sorting ascending by start is sorting descending by the negated start. */
  function EarlierFirst(e: SeasonStart): real { -(e.start as real) }

  /** The seasons ordered by start, earliest first, ties in input order. */
  function ByStart(seasons: seq<SeasonStart>): seq<SeasonStart> {
    SortDesc(seasons, EarlierFirst)
  }

  /** How many seasons at the front of `sorted` have started by `now`. */
  function StartedPrefix(sorted: seq<SeasonStart>, now: int): (n: nat)
    ensures n <= |sorted|
    ensures forall i :: 0 <= i < n ==> sorted[i].start <= now
    ensures n < |sorted| ==> sorted[n].start > now
  {
    if sorted == [] || sorted[0].start > now then 0
    else
      var n := StartedPrefix(sorted[1..], now);
      assert forall i :: 1 <= i <= n ==> sorted[i] == sorted[1..][i - 1];
      n + 1
  }

  /**
   * The season the banner shows for a list already sorted by start: the last one
   * of the started prefix, ending where the next one starts; or, when none has
   * started, the first one, with no end.
   */
  function Choose(sorted: seq<SeasonStart>, now: int): Option<CurrentSeason> {
    if sorted == [] then None
    else
      var n := StartedPrefix(sorted, now);
      if n == 0 then Some(CurrentSeason(sorted[0].season, sorted[0].start, None))
      else
        Some(CurrentSeason(sorted[n - 1].season, sorted[n - 1].start,
                           if n < |sorted| then Some(sorted[n].start) else None))
  }

  /**
   * The selection part of `getCurrentSeason`: sort the seasons by start, then
   * walk forward while `now` has reached the start, remembering the last season
   * reached and the start of the one after it. `None` is the empty list, on which
   * the source fails reading the first entry.
   */
  method CurrentSeasonAt(seasons: seq<SeasonStart>, now: int) returns (r: Option<CurrentSeason>)
    ensures r == Choose(ByStart(seasons), now)
  {
    if |seasons| == 0 {
      return None;
    }
    var a := ToArray(seasons);
    SortInPlace(a, EarlierFirst);
    var sorted := a[..];
    assert sorted == ByStart(seasons);
    ghost var n := StartedPrefix(sorted, now);
    var season, startTime, endTime := sorted[0].season, sorted[0].start, None;
    var i := 0;
    while i < |sorted|
      invariant 0 <= i <= n
      invariant i == 0 ==> (season, startTime, endTime) == (sorted[0].season, sorted[0].start, None)
      invariant i > 0 ==> season == sorted[i - 1].season && startTime == sorted[i - 1].start
      invariant i > 0 ==> endTime == if i < |sorted| then Some(sorted[i].start) else None
    {
      if now >= sorted[i].start {
        season, startTime := sorted[i].season, sorted[i].start;
        endTime := if i + 1 < |sorted| then Some(sorted[i + 1].start) else None;
      } else {
        break;
      }
      i := i + 1;
    }
    assert i == n;
    r := Some(CurrentSeason(season, startTime, endTime));
  }

  /** In a list sorted by start, a season that has started lies in the started prefix. */
  lemma StartedIsInPrefix(sorted: seq<SeasonStart>, now: int, k: int)
    requires SortedDesc(sorted, EarlierFirst) && 0 <= k < |sorted| && sorted[k].start <= now
    ensures k < StartedPrefix(sorted, now)
  {
  }

  /**
   * What the banner shows, for any input order: a season from the list; when
   * some season has started, one whose start is the latest start not after `now`;
   * otherwise one with the earliest start, and no end.
   */
  lemma CurrentSeasonMeaning(seasons: seq<SeasonStart>, now: int)
    requires |seasons| > 0
    ensures Choose(ByStart(seasons), now).Some?
    ensures var c := Choose(ByStart(seasons), now).value;
      && SeasonStart(c.season, c.start) in seasons
      && ((exists e :: e in seasons && e.start <= now) ==>
            c.start <= now && forall e :: e in seasons && e.start <= now ==> e.start <= c.start)
      && ((forall e :: e in seasons ==> e.start > now) ==>
            c.end == None && forall e :: e in seasons ==> c.start <= e.start)
  {
    var sorted := ByStart(seasons);
    SortDescSorted(seasons, EarlierFirst);
    var n := StartedPrefix(sorted, now);
    var c := Choose(sorted, now).value;
    var k := if n == 0 then 0 else n - 1;
    SortDescSameElements(seasons, EarlierFirst, sorted[k]);
    assert SeasonStart(c.season, c.start) == sorted[k];
    forall e | e in seasons ensures e.start <= now ==> e.start <= c.start
      ensures n == 0 ==> c.start <= e.start
    {
      SortDescSameElements(seasons, EarlierFirst, e);
      var p :| 0 <= p < |sorted| && sorted[p] == e;
      if e.start <= now {
        StartedIsInPrefix(sorted, now, p);
        assert EarlierFirst(sorted[p]) >= EarlierFirst(sorted[k]);
      }
      if n == 0 {
        assert EarlierFirst(sorted[0]) >= EarlierFirst(sorted[p]);
      }
    }
    if exists e :: e in seasons && e.start <= now {
      var e :| e in seasons && e.start <= now;
      SortDescSameElements(seasons, EarlierFirst, e);
      var p :| 0 <= p < |sorted| && sorted[p] == e;
      StartedIsInPrefix(sorted, now, p);
    }
  }

  /**
   * The end of the chosen season is the first start after `now`: a season's
   * start, later than `now`, and no season starts strictly between `now` and it.
   */
  lemma CurrentSeasonEnd(seasons: seq<SeasonStart>, now: int, t: int)
    requires |seasons| > 0 && Choose(ByStart(seasons), now).value.end == Some(t)
    ensures t > now
    ensures exists e :: e in seasons && e.start == t
    ensures forall e :: e in seasons && e.start > now ==> t <= e.start
  {
    var sorted := ByStart(seasons);
    SortDescSorted(seasons, EarlierFirst);
    var n := StartedPrefix(sorted, now);
    SortDescSameElements(seasons, EarlierFirst, sorted[n]);
    forall e | e in seasons && e.start > now ensures t <= e.start {
      SortDescSameElements(seasons, EarlierFirst, e);
      var p :| 0 <= p < |sorted| && sorted[p] == e;
      assert EarlierFirst(sorted[n]) >= EarlierFirst(sorted[p]);
    }
  }

  /** The end is missing exactly when every season has started, or none has. */
  lemma CurrentSeasonNoEnd(seasons: seq<SeasonStart>, now: int)
    requires |seasons| > 0
    ensures Choose(ByStart(seasons), now).value.end == None
        <==> (forall e :: e in seasons ==> e.start <= now) || (forall e :: e in seasons ==> e.start > now)
  {
    var sorted := ByStart(seasons);
    SortDescSorted(seasons, EarlierFirst);
    var n := StartedPrefix(sorted, now);
    if n == |sorted| {
      forall e | e in seasons ensures e.start <= now {
        SortDescSameElements(seasons, EarlierFirst, e);
      }
    } else if n == 0 {
      forall e | e in seasons ensures e.start > now {
        SortDescSameElements(seasons, EarlierFirst, e);
        var p :| 0 <= p < |sorted| && sorted[p] == e;
        if e.start <= now {
          StartedIsInPrefix(sorted, now, p);
        }
      }
    } else {
      SortDescSameElements(seasons, EarlierFirst, sorted[0]);
      SortDescSameElements(seasons, EarlierFirst, sorted[n]);
    }
  }

  // ---------------------------------------------------------------------------
  // Countdown
  // ---------------------------------------------------------------------------

  const MsPerSecond := 1000
  const MsPerMinute := 60 * MsPerSecond
  const MsPerHour := 60 * MsPerMinute
  const MsPerDay := 24 * MsPerHour

  /** `${n} ${unit}${n > 1 ? "s" : ""} left`. */
  function Left(n: int, unit: string): string {
    IntToString(n) + " " + unit + (if n > 1 then "s" else "") + " left"
  }

  /**
   * `formatRemaining(ms)`: the remaining time in the largest of days, hours,
   * minutes and seconds that is at least one, each computed by flooring the
   * previous one. Stated here by the thresholds of the whole `ms` instead.
   */
  function FormatRemaining(ms: int): (text: string)
    ensures ms <= 0 ==> text == "0s remaining"
    ensures ms >= MsPerDay ==> text == Left(ms / MsPerDay, "day")
    ensures MsPerHour <= ms < MsPerDay ==> text == Left(ms / MsPerHour, "hour")
    ensures MsPerMinute <= ms < MsPerHour ==> text == Left(ms / MsPerMinute, "minute")
    ensures 0 < ms < MsPerMinute ==> text == Left(ms / MsPerSecond, "second")
  {
    if ms <= 0 then "0s remaining"
    else
      var sec := ms / 1000;
      var min := sec / 60;
      var hr := min / 60;
      var day := hr / 24;
      FlooredUnits(ms);
      if day >= 1 then Left(day, "day")
      else if hr >= 1 then Left(hr, "hour")
      else if min >= 1 then Left(min, "minute")
      else Left(sec, "second")
  }

  /** Flooring step by step is flooring once by the product of the divisors. */
  lemma FlooredUnits(ms: int)
    requires ms > 0
    ensures ms / 1000 / 60 == ms / MsPerMinute
    ensures ms / 1000 / 60 / 60 == ms / MsPerHour
    ensures ms / 1000 / 60 / 60 / 24 == ms / MsPerDay
  {
  }

  /** With a count of at least one, the countdown text is the pluraliser's text plus " left". */
  lemma LeftIsPlural(n: int, unit: string)
    requires n >= 1 && unit in {"day", "hour", "minute", "second"}
    ensures Left(n, unit) == Display.Plural(n, unit, None) + " left"
  {
  }

  /**
   * From one second on, the number shown is at least one and below the size of
   * the next unit, and the text is what the pluraliser prints, plus " left".
   */
  lemma FormatRemainingPlural(ms: int)
    requires ms >= MsPerSecond
    ensures ms >= MsPerDay ==> FormatRemaining(ms) == Display.Plural(ms / MsPerDay, "day", None) + " left"
    ensures MsPerHour <= ms < MsPerDay ==>
              1 <= ms / MsPerHour < 24
              && FormatRemaining(ms) == Display.Plural(ms / MsPerHour, "hour", None) + " left"
    ensures MsPerMinute <= ms < MsPerHour ==>
              1 <= ms / MsPerMinute < 60
              && FormatRemaining(ms) == Display.Plural(ms / MsPerMinute, "minute", None) + " left"
    ensures ms < MsPerMinute ==>
              1 <= ms / MsPerSecond < 60
              && FormatRemaining(ms) == Display.Plural(ms / MsPerSecond, "second", None) + " left"
  {
    if ms >= MsPerDay {
      LeftIsPlural(ms / MsPerDay, "day");
    } else if ms >= MsPerHour {
      LeftIsPlural(ms / MsPerHour, "hour");
    } else if ms >= MsPerMinute {
      LeftIsPlural(ms / MsPerMinute, "minute");
    } else {
      LeftIsPlural(ms / MsPerSecond, "second");
    }
  }

  /** Below one second the count is 0 and the source prints it in the singular. */
  lemma FormatRemainingSubSecond(ms: int)
    requires 0 < ms < MsPerSecond
    ensures FormatRemaining(ms) == "0 second left"
  {
  }
}
