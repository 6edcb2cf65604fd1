/**
 * The activity charts of the statistics page (statistics.js): game start times,
 * in milliseconds since the Unix epoch, counted per weekday (Monday first) and
 * per hour of the day, both in UTC.
 */
module Activity {

  const MsPerHour := 3600000
  const MsPerDay := 24 * MsPerHour

  /** `new Date(ts).getUTCDay()`: 0 is Sunday; 1 January 1970 was a Thursday (4). */
  function UtcDay(ts: int): (d: int)
    ensures 0 <= d < 7
    ensures 0 <= ts < MsPerDay ==> d == 4
  {
    (ts / MsPerDay + 4) % 7
  }

  /** `(jsDay + 6) % 7`: Monday is 0, Sunday 6; the epoch's Thursday is 3. */
  function WeekdayIndex(ts: int): (i: int)
    ensures 0 <= i < 7
    ensures 0 <= ts < MsPerDay ==> i == 3
  {
    (UtcDay(ts) + 6) % 7
  }

  /** `new Date(ts).getUTCHours()`. */
  function HourIndex(ts: int): (h: int)
    ensures 0 <= h < 24
    ensures 0 <= ts < MsPerHour ==> h == 0
  {
    (ts / MsPerHour) % 24
  }

  /** The hour index counts the whole hours elapsed since the start of the UTC day. */
  lemma HourIndexOfDay(ts: int)
    ensures var h := HourIndex(ts);
            h * MsPerHour <= ts % MsPerDay < (h + 1) * MsPerHour
  {
    var q, r := ts / MsPerHour, ts % MsPerHour;
    var days, h := q / 24, q % 24;
    assert ts == q * MsPerHour + r;
    assert q == days * 24 + h;
    assert ts == days * MsPerDay + (h * MsPerHour + r);
    RemainderOf(ts, days, h * MsPerHour + r);
  }

  /** Writing `ts` as whole days plus a remainder below a day fixes `ts % MsPerDay`. */
  lemma RemainderOf(ts: int, days: int, rest: int)
    requires ts == days * MsPerDay + rest && 0 <= rest < MsPerDay
    ensures ts % MsPerDay == rest
  {
  }

  /** Monday is bucket 0, Sunday bucket 6, and every other day one before its `getUTCDay`. */
  lemma WeekdayIndexShift(ts: int)
    ensures UtcDay(ts) == 0 ==> WeekdayIndex(ts) == 6
    ensures UtcDay(ts) >= 1 ==> WeekdayIndex(ts) == UtcDay(ts) - 1
  {
  }

  /** A day later is the next bucket, wrapping from Sunday to Monday; a week later, the same. */
  lemma WeekdayIndexNextDay(ts: int)
    ensures WeekdayIndex(ts + MsPerDay) == (WeekdayIndex(ts) + 1) % 7
    ensures WeekdayIndex(ts + 7 * MsPerDay) == WeekdayIndex(ts)
  {
    var d := ts / MsPerDay;
    assert (ts + MsPerDay) / MsPerDay == d + 1;
    assert (ts + 7 * MsPerDay) / MsPerDay == d + 7;
    DayStep(d);
  }

  /** The weekday index of day number `d` since the epoch, one day and one week on. */
  lemma DayStep(d: int)
    ensures ((d + 1 + 4) % 7 + 6) % 7 == (((d + 4) % 7 + 6) % 7 + 1) % 7
    ensures ((d + 7 + 4) % 7 + 6) % 7 == ((d + 4) % 7 + 6) % 7
  {
  }

  /** An hour later is the next hour bucket, wrapping at midnight; a day later, the same. */
  lemma HourIndexNextHour(ts: int)
    ensures HourIndex(ts + MsPerHour) == (HourIndex(ts) + 1) % 24
    ensures HourIndex(ts + MsPerDay) == HourIndex(ts)
  {
    assert (ts + MsPerHour) / MsPerHour == ts / MsPerHour + 1;
    assert (ts + MsPerDay) / MsPerHour == ts / MsPerHour + 24;
  }

  // ---------------------------------------------------------------------------
  // Counting
  // ---------------------------------------------------------------------------

  /** How many times `k` occurs among `xs`. */
  function Count(xs: seq<int>, k: int): nat {
    if xs == [] then 0 else Count(xs[..|xs| - 1], k) + (if xs[|xs| - 1] == k then 1 else 0)
  }

  /** The table of counts of `0 .. n - 1`. */
  function Counts(xs: seq<int>, n: nat): (c: seq<int>)
    ensures |c| == n && forall k :: 0 <= k < n ==> c[k] == Count(xs, k)
  {
    seq(n, k requires 0 <= k < n => Count(xs, k))
  }

  function Sum(s: seq<int>): int {
    if s == [] then 0 else Sum(s[..|s| - 1]) + s[|s| - 1]
  }

  /** Adding one at a position adds one to the sum. */
  lemma {:induction false} SumIncrement(s: seq<int>, k: int)
    requires 0 <= k < |s|
    ensures Sum(s[k := s[k] + 1]) == Sum(s) + 1
    decreases |s|
  {
    var t := s[k := s[k] + 1];
    assert t[..|t| - 1] == if k < |s| - 1 then s[..|s| - 1][k := s[k] + 1] else s[..|s| - 1];
    if k < |s| - 1 {
      SumIncrement(s[..|s| - 1], k);
    }
  }

  /** When every index is a bucket, the buckets add up to the number of indices. */
  lemma {:induction false} CountsSum(xs: seq<int>, n: nat)
    requires forall i :: 0 <= i < |xs| ==> 0 <= xs[i] < n
    ensures Sum(Counts(xs, n)) == |xs|
    decreases |xs|
  {
    if xs == [] {
      var c := Counts(xs, n);
      assert c == seq(n, _ => 0);
      ZeroSum(n);
    } else {
      var init, x := xs[..|xs| - 1], xs[|xs| - 1];
      CountsSum(init, n);
      assert Counts(xs, n) == Counts(init, n)[x := Counts(init, n)[x] + 1];
      SumIncrement(Counts(init, n), x);
    }
  }

  lemma {:induction false} ZeroSum(n: nat)
    ensures Sum(seq(n, _ => 0)) == 0
    decreases n
  {
    if n > 0 {
      assert seq(n, _ => 0)[..n - 1] == seq(n - 1, _ => 0);
      ZeroSum(n - 1);
    }
  }

  /** The bucket index of every timestamp. */
  function WeekdayIndices(ts: seq<int>): (xs: seq<int>)
    ensures |xs| == |ts| && forall i :: 0 <= i < |ts| ==> xs[i] == WeekdayIndex(ts[i])
  {
    seq(|ts|, i requires 0 <= i < |ts| => WeekdayIndex(ts[i]))
  }

  function HourIndices(ts: seq<int>): (xs: seq<int>)
    ensures |xs| == |ts| && forall i :: 0 <= i < |ts| ==> xs[i] == HourIndex(ts[i])
  {
    seq(|ts|, i requires 0 <= i < |ts| => HourIndex(ts[i]))
  }

  /** `weekdayBuckets`: seven counters, one increment per timestamp. */
  method WeekdayBuckets(ts: seq<int>) returns (buckets: array<int>)
    ensures fresh(buckets) && buckets.Length == 7
    ensures buckets[..] == Counts(WeekdayIndices(ts), 7)
    ensures Sum(buckets[..]) == |ts|
  {
    buckets := new int[7](_ => 0);
    var i := 0;
    while i < |ts|
      modifies buckets
      invariant 0 <= i <= |ts|
      invariant forall d :: 0 <= d < 7 ==> buckets[d] == Count(WeekdayIndices(ts[..i]), d)
    {
      var w := WeekdayIndex(ts[i]);
      assert WeekdayIndices(ts[..i + 1]) == WeekdayIndices(ts[..i]) + [w];
      buckets[w] := buckets[w] + 1;
      i := i + 1;
    }
    assert ts[..i] == ts;
    WeekdayBucketsTotal(ts);
  }

  /** `hourBuckets` and their sum `totalGames`. */
  method HourBuckets(ts: seq<int>) returns (buckets: array<int>, totalGames: int)
    ensures fresh(buckets) && buckets.Length == 24
    ensures buckets[..] == Counts(HourIndices(ts), 24)
    ensures totalGames == Sum(buckets[..]) && totalGames == |ts|
  {
    buckets := new int[24](_ => 0);
    var i := 0;
    while i < |ts|
      modifies buckets
      invariant 0 <= i <= |ts|
      invariant forall h :: 0 <= h < 24 ==> buckets[h] == Count(HourIndices(ts[..i]), h)
    {
      var h := HourIndex(ts[i]);
      assert HourIndices(ts[..i + 1]) == HourIndices(ts[..i]) + [h];
      buckets[h] := buckets[h] + 1;
      i := i + 1;
    }
    assert ts[..i] == ts;
    HourBucketsTotal(ts);
    totalGames := Sum(buckets[..]);
  }

  /** Every timestamp is counted exactly once: the weekday buckets add up to the number of games. */
  lemma WeekdayBucketsTotal(ts: seq<int>)
    ensures Sum(Counts(WeekdayIndices(ts), 7)) == |ts|
  {
    CountsSum(WeekdayIndices(ts), 7);
  }

  /** The hour buckets, and so `totalGames`, add up to the number of games. */
  lemma HourBucketsTotal(ts: seq<int>)
    ensures Sum(Counts(HourIndices(ts), 24)) == |ts|
  {
    CountsSum(HourIndices(ts), 24);
  }
}
