# Ladder dashboard core, modelled in Dafny

The dashboard shows a team-game ladder in three pages.

- **Leaderboard** (script.js). It decodes each player's positional rating row and keeps players with at least 10 games. It sorts them by rating, largest first, and ranks them by position. It also builds a map from id to global rank by mu. It picks the running season from the season start times and formats the countdown to the season's end.
- **Player page** (player.js). It decodes the same rows and shows the player's rank among eligible players. It classifies races and ratings into icons. It turns `[total, wins, losses]` triples into per-race, per-team, per-matchup and per-ally records; the team, matchup and ally lists are sorted by total. It labels team keys such as `zpt` or `ztzpt` with one teammate in parentheses. It sizes and toggles the charts and prints match durations.
- **Statistics page** (statistics.js). It sums wins and losses over groups of team compositions, ranks the groups and their compositions by win rate, and adds up per-matchup games and wins. It counts game start times per UTC weekday and hour.

## How the model is organised

Each module follows one part of the program.

- `Wrappers`: `Option`, and `Field`, which models one slot of a JSON array: a number, `null` or absent.
- `Text`: ASCII case mapping and decimal printing.
- `Sorting`: the engine's stable comparator sort.
- `Display`: the classifiers.
- `Ratings`: decoding rows, the leaderboard, the player rank and the global rank map.
- `Season`: season selection and the countdown.
- `MatchupKeys`: team-key labels.
- `StatBuckets`: the player page's tables.
- `ChartLayout`: bar thickness, the mode toggle, chart height and duration.
- `Aggregates`: the statistics page's sums and sorts.
- `Activity`: the weekday and hour counters.

How the source is represented:

- JSON objects are the sequence of their `Object.entries`, in enumeration order.
- JSON numbers are `real`. Millisecond timestamps and counters are `int`.
- Every `sort((a, b) => key(b) - key(a))` is `Sorting.SortDesc`: largest key first, ties in input order, as the built-in sort is stable. The ascending sort by season start is the same sort on the negated start.
- Where the source sorts an array in place, the model copies the sequence into an `array` and runs `Sorting.SortInPlace`. That method is proved equal to `SortDesc`.
- The loops that accumulate totals or fill counters are methods with loop invariants. Each is proved equal to a specification function, and the properties are lemmas about that function.
- The mode toggle's `data-mode` attribute is the field of a class, `ChartLayout.ChartToggle`.
- Ranks follow the code: position plus one after the sort. There is no tie-break chain and no shared rank.

## Model

| member | source | states |
|---|---|---|
| Sorting.SortDescMeaning | player.js:36 | the comparator sort keeps length and multiset, orders keys largest first, keeps input order among equal keys, and keeps exactly the input's elements |
| Sorting.SortDescPermutes | statistics.js:537 | the sorted list is a permutation of its input |
| Sorting.SortDescSorted | statistics.js:537 | the sorted list runs from the largest key to the smallest |
| Sorting.SortDescStable | script.js:232-234 | the elements with any one key appear in the sorted list in their input order |
| Sorting.SortDescSameElements | script.js:232-234 | an element is in the sorted list exactly when it is in the input |
| Sorting.SortedDescAhead | player.js:36-42 | in a list sorted largest first, an element with a strictly larger key than position k lies before k |
| Sorting.InsertAt | statistics.js:1019 | one pass of the in-place sort inserts a[i] into the sorted prefix and leaves the rest of the array alone |
| Sorting.SortInPlace | statistics.js:1019 | sorting the array in place yields exactly the specification sort of its old contents |
| Text.NatToStringRoundTrip | script.js:140-143 | reading back the decimal digits printed for a count gives the count |
| Text.IntToStringRoundTrip | player.js:2640 | reading back `${n}` gives `n`, after the leading "-" when `n` is negative |
| Display.MostPlayedRace | script.js:76-83 | "-" exactly when fewer than 4 counts are given or the maximum is 0; otherwise the race named at the first index of the maximum |
| Display.MostPlayedIsFirstMaximum | script.js:78-82 | the chosen race's count is at least every count, and no earlier index holds it |
| Display.FirstMaximumIsMostPlayed | script.js:78-82 | conversely, a race whose count is the maximum with none earlier is the one chosen |
| Display.RatingBucket | script.js:180-193 | the bucket is 0..13 and brackets the rating between the previous tier's bound, exclusive, and its own bound, inclusive |
| Display.RatingBucketMonotone | script.js:180-193 | a higher rating never gets a lower bucket |
| Display.TierBoundsInclusive | script.js:180-193 | each bound belongs to its own tier and the next whole rating to the next tier (399 to 0, 400 to 1, 14499 to 12, 14500 to 13) |
| Display.BucketIcon | script.js:196-204 | every icon path is an `icons/*.jpg` file |
| Display.BucketIconLetters | script.js:199-201 | buckets 4..12 map to c1..c3, b1..b3, a1..a3, three tiers per letter |
| Display.BucketIconEnds | script.js:196-204 | buckets 0-1 give d1, 2 gives d2, 3 gives d3, 13 gives s |
| Display.RatingToIcon | script.js:177-205 | up to 849 the icon is d1, up to 1999 d2, up to 2999 d3, then c1..a3 by tier, and above 14499 s; always an `icons/*.jpg` path |
| Display.NormalizeRace | player.js:316-325 | the result is always one of the nine normal codes; "" exactly for a missing or empty race; ignoring case, p/pp, t/tt, z/zz and r/rr collapse to one letter, random picks rp/rt/rz keep their code, and any other text is "unknown" |
| Display.NormalizeRaceIdempotent | player.js:316-325 | normalising a normal code changes nothing |
| Display.NormalizeRaceIgnoresCase | player.js:318 | upper- or lower-casing the input first gives the same code |
| Display.RaceIcon | player.js:563-569 | a missing race or one without a mapping gives the unknown icon, and a known code gives its mapped file |
| Display.RaceIconSingleLetter | player.js:563-569 | single-letter codes, which normalisation accepts, have no icon of their own |
| Display.PluralWord | player.js:2634-2641 | the word is the singular for 1, else the given plural form, else "losses" for "loss", else the singular plus "s" |
| Display.PluralMeaning | player.js:2634-2641 | the text is the count in decimal (read back, it is the count), one space, then the word; with no plural form, or one different from the singular, the word is the singular exactly when the count is 1 |
| Ratings.DecodeStats | player.js:23-32 | each record field is read from its fixed offset of the row |
| Ratings.DecodeStatsReadsOnlyTable | player.js:24 | offsets 9 and 14 and anything past 21 do not affect the record |
| Ratings.Eligible | player.js:36 | every kept player has at least 10 games, and no more players come out than went in |
| Ratings.EligibleMembers | player.js:36 | a player is kept exactly when it is in the input with at least 10 games |
| Ratings.EligibleAppend | player.js:36 | a single player is kept exactly when it has at least 10 games, and filtering a concatenation concatenates the filtered parts, so input order and repetitions are kept |
| Ratings.FindId | player.js:40-42 | the index is the first position holding the id, or -1 when none does |
| Ratings.RankedStatsElements | player.js:35-36 | the ranked list holds exactly the decoded players with at least 10 games |
| Ratings.PlayerRank | player.js:40-42 | a rank k lies in 1..n and the k-th ranked player is the first with the id; there is no rank exactly when no ranked player has the id |
| Ratings.PlayerRankDefined | player.js:40-42 | a player has a rank exactly when one of their rows has at least 10 games; otherwise, if the player has any row, the page shows "—" |
| Ratings.PlayerRankOrder | player.js:36-42 | the rank lies in 1..n, the player sits at that position, and everyone eligible with more points is ahead |
| Ratings.DecodeLeaderboard | script.js:217-228 | the id is the entry key; games, mu, sigma and wins are offsets 0 to 3 and the last-played time offset 8; losses are games minus wins; the rating is offset 21; the races are reordered Protoss, Zerg, Terran, Random |
| Ratings.SameMostPlayedRace | script.js:223-225 | the leaderboard's reordered race counts and rating agree with the player page's decoding of the same row |
| Ratings.Leaderboard | script.js:231-237 | the ranked players are the eligible ones in sorted order, and rank equals position plus one |
| Ratings.AssignRanks | script.js:237 | every player is paired with its position plus one |
| Ratings.LeaderboardOrderMeaning | script.js:231-234 | only players with at least 10 games appear, each once; ratings never increase down the table; ties keep the enumeration order of the ratings object (ascending id for numeric ids) |
| Ratings.LeaderboardMembership | script.js:231-234 | a row's player is on the leaderboard exactly when it has at least 10 games |
| Ratings.PositionRanksAt | script.js:90 | with distinct ids, the entry at position p has rank p + 1 and the map has exactly the listed ids |
| Ratings.DistinctCountsAtMostOne | script.js:87 | in a list with distinct ids, no entry occurs twice |
| Ratings.PermutationKeepsDistinct | script.js:88 | sorting does not create duplicate ids |
| Ratings.BuildGlobalRankMap | script.js:86-92 | the method builds exactly the rank map of the mu-sorted entries |
| Ratings.NumberByPosition | script.js:90 | the loop gives each id its position plus one, a later row overwriting an earlier one |
| Ratings.PositionRanksDistinct | script.js:90 | ranks lie in 1..n and no two ids share one |
| Ratings.HigherMuRanksFirst | script.js:88-90 | in the mu-sorted list, a strictly higher mu gets a smaller rank |
| Ratings.SortedEntries | script.js:87-88 | the mu-sorted entries are sorted, have distinct ids and hold exactly the ratings' entries |
| Ratings.GlobalRanksKeys | script.js:86-92 | the map's keys are exactly the ids of the ratings |
| Ratings.GlobalRanksMeaning | script.js:86-92 | every id gets a distinct rank in 1..n, and a strictly higher mu never gets a larger rank number |
| Season.StartedPrefix | script.js:22-31 | the first n seasons have started by now, and the next one, if any, has not |
| Season.CurrentSeasonAt | script.js:14-31 | the loop with its early exit returns exactly the season chosen from the start-sorted list; an empty list gives none |
| Season.CurrentSeasonMeaning | script.js:14-31 | the chosen season is in the list; if some season has started, it has the latest start not after now; otherwise it has the earliest start and no end |
| Season.CurrentSeasonEnd | script.js:27 | the end is a season's start, later than now, and no season starts between now and it |
| Season.CurrentSeasonNoEnd | script.js:27 | the end is missing exactly when every season has started or none has |
| Season.FormatRemaining | script.js:132-144 | "0s remaining" for ms ≤ 0, otherwise the count in the largest unit of day, hour, minute or second that fits, from the thresholds of ms |
| Season.FlooredUnits | script.js:135-138 | flooring ms step by step through seconds, minutes and hours equals one floor by the unit's milliseconds |
| Season.LeftIsPlural | script.js:140-143 | for counts of 1 or more, the countdown words are the pluraliser's text plus " left" |
| Season.FormatRemainingPlural | script.js:140-143 | from one second on, the count shown is at least 1 and below the next unit's size, with "s" exactly when it is above 1 |
| Season.FormatRemainingSubSecond | script.js:143 | between 0 and 1000 ms the text is "0 second left" |
| MatchupKeys.DecideParenthesis | player.js:1369-1386 | the index is 1 or 2; it is 2 exactly when the teammates differ, the first is not the player's race and the second is; comparisons ignore case |
| MatchupKeys.DecideParenthesisIgnoresCase | player.js:1371-1373 | upper- or lower-casing all three inputs does not change the decision |
| MatchupKeys.KeyLetter | player.js:1413-1414 | a key letter is the upper-cased character, or "" past the end of the key |
| MatchupKeys.MakeLabel3 | player.js:1388-1403 | "" for a key shorter than 3; otherwise "(A)B", or "A(B)" when the second teammate is marked, with A, B the upper-cased key[1], key[2] |
| MatchupKeys.MakeLabel3Teammates | player.js:1388-1403 | removing the parentheses gives back the two teammates in key order, and exactly one pair of parentheses is present |
| MatchupKeys.MakeLabel5 | player.js:1925-1943 | "" for a key shorter than 5; otherwise the 3-letter label of the first three letters, " vs ", then the upper-cased opponents |
| MatchupKeys.MakeLabel5Opponents | player.js:1925-1943 | the label has 10 characters, the opponents close it in key order and are never parenthesised |
| StatBuckets.PerGame | player.js:826-830 | with games, the value times games is the total; without games it is 0 |
| StatBuckets.WinPercent | player.js:832-834 | with games, the value times games is 100 times the wins; without games it is 0 |
| StatBuckets.WinPercentBounds | player.js:832-834 | with non-negative wins and losses the rate lies in 0..100, and is 100 exactly when nothing was lost |
| StatBuckets.Parse | player.js:795-804 | a missing entry is all zeros; missing slots count as 0; games are wins plus losses |
| StatBuckets.Summarise | player.js:806-835 | a race's summary carries the parsed bucket, its games and total, and per-game and win rate guarded against zero games |
| StatBuckets.SummarisePlayer | player.js:806-835 | the three races are summarised independently |
| StatBuckets.SummariseMissing | player.js:796 | a race never played reports zero everywhere |
| StatBuckets.TallyOf | player.js:1423-1424 | `arr ?? [0, 0, 0]` with defaults; games are wins plus losses; per-game divides the raw total |
| StatBuckets.RawRatioDefaults | player.js:1442-1443 | the raw ratio is NaN exactly when the slot is absent and there are games; otherwise it is the guarded ratio of the defaulted value |
| StatBuckets.TeamEntryOf | player.js:1423-1431 | an entry carries its key, its 3-letter label, its teammates and the decided parenthesis, its tally, and a win rate guarded against zero games |
| StatBuckets.ParseMatchupData | player.js:1405-1434 | the method returns exactly the entries sorted by total, largest first |
| StatBuckets.ParseMatchupDataMeaning | player.js:1405-1434 | the list is a permutation of one entry per key, with totals never increasing |
| StatBuckets.VersusEntryOf | player.js:1945-1970 | an entry carries its key, its 5-letter label, teammates, opponents, the decided parenthesis and its tally |
| StatBuckets.ParseDrawer3Data | player.js:1945-1972 | the method returns exactly the entries sorted by total, largest first |
| StatBuckets.ParseDrawer3DataMeaning | player.js:1945-1972 | the list is a permutation of one entry per key, with totals never increasing |
| StatBuckets.AllyName | player.js:2432 | the known, non-empty name, otherwise the id |
| StatBuckets.AllyEntryOf | player.js:2424-2439 | an ally row carries its id, its display name and its tally; its win rate is raw wins over games |
| StatBuckets.AllyWinRateIsFraction | player.js:2428 | with wins present, the ally win rate is the percentage divided by 100, a fraction |
| StatBuckets.AllyEntries | player.js:2424 | a missing table has no entries; otherwise there is one row per ally |
| StatBuckets.ParseDrawer4Data | player.js:2423-2442 | the method returns exactly the ally rows sorted by total, largest first |
| StatBuckets.ParseDrawer4DataMeaning | player.js:2423-2442 | a missing table gives an empty list; otherwise the list is a permutation of the rows, totals never increasing |
| ChartLayout.BarThickness | player.js:1575-1604 | the cap for an empty list; otherwise the floor of quota over length, never above the cap |
| ChartLayout.CalcBarThickness | player.js:1575-1580 | the thickness never exceeds 42 |
| ChartLayout.CalcBarThicknessHigh | player.js:1582-1595 | the thickness never exceeds 44, for both copies of the rule |
| ChartLayout.CalcBarThicknessHigh3 | player.js:1598-1604 | the thickness never exceeds 44 |
| ChartLayout.BarThicknessAntitone | player.js:1575-1604 | more bars never get thicker ones |
| ChartLayout.CalcBarThicknessSamples | player.js:1575-1604 | concrete thicknesses: 42 up to 3 bars and 33 for 4 (quota 132), 38 for 5 (quota 192), 41 for 6 (quota 250) |
| ChartLayout.ModeIndex | player.js:853 | the index is -1 exactly for an unknown mode, else the mode's position |
| ChartLayout.NextMode | player.js:851-854 | the next mode is always a known one, and an unknown mode moves to "games" |
| ChartLayout.NextModeCycle | player.js:840-854 | games, winrate, total, pergame follow each other in a cycle |
| ChartLayout.NextModeFourClicks | player.js:851-854 | four clicks return to a known mode, and to any mode after its first click |
| ChartLayout.Indicator | player.js:892-903 | "" exactly for an unknown mode, else "(k/4)" with k the mode's position plus one |
| ChartLayout.ChartToggle.constructor | player.js:770-771 | the toggle starts on "games" |
| ChartLayout.ChartToggle.Switch | player.js:851-856 | one click moves the stored mode to the next one and shows a non-empty indicator |
| ChartLayout.ChartHeight | player.js:1890-1900 | 340 pixels up to 10 bars, then exactly 24 more per extra bar |
| ChartLayout.ChartHeightMonotone | player.js:2338-2341 | the height never shrinks as bars are added and grows at most 24 per bar |
| ChartLayout.DurationSeconds | player.js:637 | the nearest whole second to the length, halves rounded up, with a missing length as 0 |
| ChartLayout.Seconds | player.js:639 | JavaScript's remainder: in 0..59 for a non-negative duration, in -59..0 otherwise |
| ChartLayout.DurationText | player.js:637-640 | the text always ends in " min" |
| ChartLayout.MinutesSecondsSplit | player.js:638-639 | for a non-negative duration, minutes times 60 plus seconds is the duration |
| ChartLayout.PadStart2 | player.js:640 | a string of 2 or more characters is unchanged; a shorter one gets leading zeros up to 2 |
| ChartLayout.DurationTextMissing | player.js:637-640 | a missing length reads "0:00 min" |
| ChartLayout.SecondsFieldTwoDigits | player.js:639-640 | for a non-negative length the seconds field always has two characters |
| ChartLayout.DurationTextMeaning | player.js:637-640 | for a non-negative length, the text is the whole minutes in decimal, ":", the remaining seconds in exactly two digits, then " min" |
| Aggregates.SumOfSort | statistics.js:534-537 | the sum of any per-entry value is the same before and after sorting |
| Aggregates.PercentOf | statistics.js:1015 | 0 for a zero whole; otherwise the value times the whole is 100 times the part |
| Aggregates.PercentBounds | statistics.js:1015 | a part between 0 and the whole gives a rate in 0..100, 100 exactly when the part is the whole |
| Aggregates.SumWinsLosses | statistics.js:997-1011 | the loop yields the specification sums of wins and losses over the keys, and total is wins plus losses |
| Aggregates.KeysSumsAppend | statistics.js:998-1009 | summing two key lists in turn adds their sums |
| Aggregates.Present | statistics.js:1000 | the keys kept are exactly those the table has |
| Aggregates.AbsentKeysIgnored | statistics.js:1000 | keys missing from the table contribute nothing |
| Aggregates.ArrayEntryTotal | statistics.js:1002-1004 | an array entry adds wins and games minus wins, which together are its games |
| Aggregates.GroupRowOf | statistics.js:1014-1017 | a group row's wins and losses are its keys' sums, the total is their sum, and the win rate is guarded against a zero total |
| Aggregates.GroupData | statistics.js:945-1019 | the method returns exactly the six group rows sorted by win rate, highest first |
| Aggregates.GroupDataMeaning | statistics.js:1014-1019 | six rows, win rates never increasing, every group present and nothing else |
| Aggregates.AddSlots | statistics.js:1130 | `null` adds as 0 and an absent value makes NaN |
| Aggregates.SubEntryOf | statistics.js:1127-1135 | an array entry's total is its games; an object entry's is wins plus losses; the win rate is 0 for a zero or NaN total |
| Aggregates.SubEntries | statistics.js:1127-1136 | one entry per key the table has, in the order of the keys, each built from that key's table entry |
| Aggregates.SortedSubEntriesMeaning | statistics.js:1127-1137 | the tooltip lists exactly the group's present compositions, each once, highest win rate first |
| Aggregates.FrequencyOf | statistics.js:519-530 | a matchup's total games is the sum of its opponents' games, a missing count as 0 |
| Aggregates.TeamFrequency | statistics.js:519-551 | the entries sorted by total games, the grand total of selections, and the entries re-sorted by win fraction |
| Aggregates.TeamFrequencyMeaning | statistics.js:532-551 | both lists are permutations of one entry per matchup in their own order, and the grand total is the sum of the sorted bars |
| Aggregates.MatchupRateOf | statistics.js:810-822 | wins and games are summed over the opponents, and the rate is guarded against zero games |
| Aggregates.MatchupWinrates | statistics.js:810-825 | the method returns exactly the matchup entries sorted by win rate, highest first |
| Aggregates.MatchupWinratesMeaning | statistics.js:810-825 | a permutation of the entries, rates never increasing, each a percentage when no opponent has more wins than games |
| Aggregates.WinsWithinGames | statistics.js:815-819 | summed wins stay between 0 and summed games |
| Activity.UtcDay | statistics.js:185 | the UTC weekday, 0 for Sunday, is in 0..6, and the epoch's first day is a Thursday (4) |
| Activity.WeekdayIndex | statistics.js:185-186 | the bucket is in 0..6, and the epoch's first day (a Thursday) lands in bucket 3 |
| Activity.HourIndex | statistics.js:279 | the bucket is in 0..23, and the epoch's first hour lands in bucket 0 |
| Activity.HourIndexOfDay | statistics.js:279 | the bucket is the number of whole hours elapsed since the start of the UTC day |
| Activity.WeekdayIndexShift | statistics.js:186 | Sunday goes to bucket 6 and every other day to its weekday minus one |
| Activity.WeekdayIndexNextDay | statistics.js:185-186 | a day later is the next bucket, wrapping Sunday to Monday; a week later is the same bucket |
| Activity.HourIndexNextHour | statistics.js:279 | an hour later is the next hour bucket, wrapping at midnight; a day later is the same |
| Activity.SumIncrement | statistics.js:187 | incrementing one counter adds one to the sum |
| Activity.CountsSum | statistics.js:183-188 | when every index is a bucket, the counts add up to the number of indices |
| Activity.WeekdayBuckets | statistics.js:183-188 | the seven counters hold each weekday's count and add up to the number of timestamps |
| Activity.HourBuckets | statistics.js:277-282 | the 24 counters hold each hour's count, and totalGames is their sum and the number of timestamps |
| Activity.WeekdayBucketsTotal | statistics.js:183-188 | every timestamp is counted exactly once among the weekdays |
| Activity.HourBucketsTotal | statistics.js:277-282 | every timestamp is counted exactly once among the hours |

## Left out

- I/O: fetching the data files, `Date.now` (the current time is a parameter), `Promise.all` loading, `loadNames` and its cache.
- Chart.js charts, tooltips, DOM updates, event listeners, and the `setInterval` countdown with its click toggle. `data-mode` is modelled; the text shown on the toggle button is not.
- The module-level data caches the mode switchers read, such as `matchupDataCache` and `drawer3DataCache`.
- `timeAgo`, and the UTC week buckets with their week span and weekday averages. They use the `Date` library and fractional month lengths.
- Colour interpolation, `toFixed` and other number formatting.
- Ratings.DecodeStats: rows shorter than 22 fields are excluded by the row type. The source reads `undefined` there and computes NaN.
- Ratings.DecodeLeaderboard: rows shorter than 22 fields are excluded by the row type, as for the player page.
- The statistics page's early return for an empty activity list, and timestamps that do not parse as a date (Invalid Date).
- Aggregates.SumWinsLosses: an array entry is modelled with two numbers. An array with missing slots, which makes NaN in the source, is not modelled.
- Aggregates.FrequencyOf: a missing wins count, which makes the win sums NaN, is not modelled. Neither is a games count that is present but not a number.
- Aggregates.MatchupRateOf: missing wins or games, which make the sums NaN, are not modelled.
- Season.CurrentSeasonAt: an empty list of seasons returns `None`; the source throws reading the first entry. Season numbers and start times are integers.
- Season: the countdown is not offered when the end time is falsy. A season ending at time 0 is treated as having an end.
- ChartLayout.DurationSeconds: game lengths are whole milliseconds.
- Display.RaceIcon: a race code that names an inherited property of a JavaScript object, such as `constructor`, is not modelled.
- Text: case mapping is ASCII only. There is no Unicode case folding.
- Text.IntToString: JavaScript prints integers of magnitude 1e21 or more in exponent notation (`1e+21`); the model always prints every digit. No count on these pages comes near that.
- Ratings.PlayerRank: an id with no row makes the player page stop early (player.js:38); the model returns None for it, the same as for a player with fewer than 10 games.
- The duplicate `ratingToIcon` in player.js (lines 68-96) has the same ladder and is not modelled separately.
- The mode cycles of the other three charts repeat the same rule and are modelled once. So are their indicators (for example player.js:1280-1290) and `updateExtraChart4Height`.
- Ranking follows the code: positions after a stable sort. No competition ranking, multi-level tie-break or multi-season merging is modelled, because the code has none.
