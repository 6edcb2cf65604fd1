/**
 * Rating rows and the rankings built from them.
 *
 * A season's ratings file maps each player id to a positional numeric row. The
 * leaderboard (script.js) and the player page (player.js) both decode that row
 * by fixed offsets, keep the players with at least `MinGames` games, sort them
 * by points, largest first, and rank them by position: rank = index + 1, with no
 * tie-break beyond the sort's own stability and no shared ranks. The global rank
 * map ranks every player, eligible or not, by mu.
 *
 * The ratings object is modelled as the sequence of its `Object.entries`, in
 * enumeration order; as keys of one object, the ids in it are distinct.
 */
module Ratings {
  import opened Sorting
  import Display
  import opened Wrappers

  // ---------------------------------------------------------------------------
  // The offset table of a rating row
  // ---------------------------------------------------------------------------

  const GamesAt := 0
  const MuAt := 1
  const SigmaAt := 2
  const WinsAt := 3
  /** Games played as Protoss, Terran, Zerg and Random, in that order. */
  const RacesAt := 4
  /** Last-played timestamp; offset 9 is not read. */
  const LastPlayedAt := 8
  /** Wins as Protoss, Terran, Zerg and Random; offset 14 is not read. */
  const WinsByRaceAt := 10
  /** Wins of random games that resolved to Protoss, Terran and Zerg. */
  const RandomWinsAt := 15
  /** Losses of random games that resolved to Protoss, Terran and Zerg. */
  const RandomLossesAt := 18
  /** Ladder points; the leaderboard calls them `rating`. */
  const PointsAt := 21
  const RowLength := 22

  /** A row of the ratings file: the 22 positional fields (more are ignored). */
  type RatingRow = v: seq<real> | |v| >= RowLength witness seq(RowLength, _ => 0.0)

  /** The minimum number of games for a player to be ranked. */
  const MinGames := 10.0

  /** Two rows that agree on every offset the decoders read. */
  ghost predicate SameReadFields(v: RatingRow, w: RatingRow) {
    forall k :: 0 <= k < RowLength && k != 9 && k != 14 ==> v[k] == w[k]
  }

  // ---------------------------------------------------------------------------
  // Player page (player.js)
  // ---------------------------------------------------------------------------

  datatype PlayerStats = PlayerStats(
    id: string, games: real, mu: real, sigma: real, wins: real,
    races: seq<real>,            // p, t, z, r
    winsByRace: seq<real>,       // p, t, z, r
    randomSubWins: seq<real>,    // p, t, z
    randomSubLosses: seq<real>,  // p, t, z
    points: real)

  /** The player page's decoding of a rating row. */
  function DecodeStats(id: string, v: RatingRow): (p: PlayerStats)
    ensures p.id == id && p.games == v[GamesAt] && p.mu == v[MuAt]
    ensures p.sigma == v[SigmaAt] && p.wins == v[WinsAt] && p.points == v[PointsAt]
    ensures p.races == v[RacesAt..RacesAt + 4]
    ensures p.winsByRace == v[WinsByRaceAt..WinsByRaceAt + 4]
    ensures p.randomSubWins == v[RandomWinsAt..RandomWinsAt + 3]
    ensures p.randomSubLosses == v[RandomLossesAt..RandomLossesAt + 3]
  {
    PlayerStats(id, v[0], v[1], v[2], v[3], [v[4], v[5], v[6], v[7]],
                [v[10], v[11], v[12], v[13]], [v[15], v[16], v[17]],
                [v[18], v[19], v[20]], v[21])
  }

  /** Offsets 9 and 14, and anything past offset 21, do not influence the decoded record. */
  lemma DecodeStatsReadsOnlyTable(id: string, v: RatingRow, w: RatingRow)
    requires SameReadFields(v, w)
    ensures DecodeStats(id, v) == DecodeStats(id, w)
  {
  }

  function StatsPoints(p: PlayerStats): real { p.points }

  function StatsGames(p: PlayerStats): real { p.games }

  /** Keeps the elements with at least `MinGames` games, in order (`filter`). */
  function Eligible<T(!new)>(s: seq<T>, games: T -> real): (r: seq<T>)
    ensures |r| <= |s|
    ensures forall i :: 0 <= i < |r| ==> games(r[i]) >= MinGames
  {
    if s == [] then []
    else
      var rest := Eligible(s[1..], games);
      if games(s[0]) >= MinGames then [s[0]] + rest else rest
  }

  /** An element survives the filter exactly when it is in the input with enough games. */
  lemma {:induction false} EligibleMembers<T(!new)>(s: seq<T>, games: T -> real, x: T)
    ensures x in Eligible(s, games) <==> x in s && games(x) >= MinGames
    decreases |s|
  {
    if s != [] {
      EligibleMembers(s[1..], games, x);
      assert x in s <==> x == s[0] || x in s[1..] by {
        assert s == [s[0]] + s[1..];
      }
    }
  }

  /** Filtering a sequence that starts with `x`: `x` is kept or dropped, then the rest. */
  lemma EligibleCons<T(!new)>(x: T, s: seq<T>, games: T -> real)
    ensures Eligible([x] + s, games) == (if games(x) >= MinGames then [x] else []) + Eligible(s, games)
  {
    assert ([x] + s)[1..] == s;
  }

  /**
   * `filter` works element by element: a single element is kept exactly when it
   * has enough games, and filtering a concatenation concatenates the filtered
   * parts, so order and repetitions are those of the input.
   */
  lemma {:induction false} EligibleAppend<T(!new)>(a: seq<T>, b: seq<T>, games: T -> real)
    ensures |a| == 1 ==> Eligible(a, games) == if games(a[0]) >= MinGames then a else []
    ensures Eligible(a + b, games) == Eligible(a, games) + Eligible(b, games)
    decreases |a|
  {
    if a == [] {
      assert a + b == b;
    } else {
      assert a == [a[0]] + a[1..];
      assert a + b == [a[0]] + (a[1..] + b);
      EligibleCons(a[0], a[1..], games);
      EligibleCons(a[0], a[1..] + b, games);
      EligibleAppend(a[1..], b, games);
      if |a| == 1 {
        assert a[1..] == [];
      }
    }
  }

  /** `ratings` decoded by the player page, in enumeration order. */
  function AllStats(ratings: seq<(string, RatingRow)>): (ps: seq<PlayerStats>)
    ensures |ps| == |ratings|
    ensures forall i :: 0 <= i < |ps| ==> ps[i] == DecodeStats(ratings[i].0, ratings[i].1)
  {
    seq(|ratings|, i requires 0 <= i < |ratings| => DecodeStats(ratings[i].0, ratings[i].1))
  }

  /** The eligible players sorted by points, largest first (`eligiblePlayers`). */
  function RankedStats(ratings: seq<(string, RatingRow)>): seq<PlayerStats> {
    SortDesc(Eligible(AllStats(ratings), StatsGames), StatsPoints)
  }

  /** The position of the first element with id `id`, or -1 (`find` then `indexOf`). */
  function FindId(ps: seq<PlayerStats>, id: string): (i: int)
    ensures -1 <= i < |ps|
    ensures i >= 0 ==> ps[i].id == id && forall j :: 0 <= j < i ==> ps[j].id != id
    ensures i == -1 ==> forall j :: 0 <= j < |ps| ==> ps[j].id != id
  {
    if ps == [] then -1
    else if ps[0].id == id then 0
    else
      var k := FindId(ps[1..], id);
      if k == -1 then -1 else k + 1
  }

  /**
   * The rank the player page shows: `Some(position + 1)`, or `None`, which the
   * page shows as "—" when the player has a row at all.
   */
  function PlayerRank(ratings: seq<(string, RatingRow)>, id: string): (r: Option<nat>)
    ensures r.Some? ==> 1 <= r.value <= |RankedStats(ratings)|
                        && RankedStats(ratings)[r.value - 1].id == id
                        && forall j :: 0 <= j < r.value - 1 ==> RankedStats(ratings)[j].id != id
    ensures r.None? <==> forall j :: 0 <= j < |RankedStats(ratings)| ==> RankedStats(ratings)[j].id != id
  {
    var i := FindId(RankedStats(ratings), id);
    if i < 0 then None else Some(i + 1)
  }

  /** The sorted eligible list holds exactly the eligible players. */
  lemma RankedStatsElements(ratings: seq<(string, RatingRow)>, e: PlayerStats)
    ensures e in RankedStats(ratings) <==> e in AllStats(ratings) && e.games >= MinGames
  {
    SortDescSameElements(Eligible(AllStats(ratings), StatsGames), StatsPoints, e);
    EligibleMembers(AllStats(ratings), StatsGames, e);
  }

  /** A player has a rank exactly when one of their rows has at least `MinGames` games. */
  lemma PlayerRankDefined(ratings: seq<(string, RatingRow)>, id: string)
    ensures PlayerRank(ratings, id).Some?
        <==> exists j :: 0 <= j < |ratings| && ratings[j].0 == id && ratings[j].1[GamesAt] >= MinGames
  {
    var all := AllStats(ratings);
    var sorted := RankedStats(ratings);
    var i := FindId(sorted, id);
    if i >= 0 {
      RankedStatsElements(ratings, sorted[i]);
      var j :| 0 <= j < |all| && all[j] == sorted[i];
      assert ratings[j].0 == id && ratings[j].1[GamesAt] >= MinGames;
    } else {
      forall j | 0 <= j < |ratings| && ratings[j].0 == id
        ensures ratings[j].1[GamesAt] < MinGames
      {
        RankedStatsElements(ratings, all[j]);
      }
    }
  }

  /**
   * A rank is a position in 1..n among the n eligible players, and every eligible
   * player with strictly more points is ranked ahead of the player.
   */
  lemma PlayerRankOrder(ratings: seq<(string, RatingRow)>, id: string, k: nat)
    requires PlayerRank(ratings, id) == Some(k)
    ensures 1 <= k <= |Eligible(AllStats(ratings), StatsGames)|
    ensures RankedStats(ratings)[k - 1].id == id
    ensures forall q :: q in AllStats(ratings) && q.games >= MinGames
              && q.points > RankedStats(ratings)[k - 1].points
              ==> q in RankedStats(ratings)[..k - 1]
  {
    var sorted := RankedStats(ratings);
    assert k - 1 == FindId(sorted, id);
    SortDescSorted(Eligible(AllStats(ratings), StatsGames), StatsPoints);
    forall q | q in AllStats(ratings) && q.games >= MinGames && q.points > sorted[k - 1].points
      ensures q in sorted[..k - 1]
    {
      RankedStatsElements(ratings, q);
      assert StatsPoints(q) > StatsPoints(sorted[k - 1]);
      SortedDescAhead(sorted, StatsPoints, k - 1, q);
    }
  }

  // ---------------------------------------------------------------------------
  // Leaderboard (script.js)
  // ---------------------------------------------------------------------------

  datatype LeaderboardPlayer = LeaderboardPlayer(
    id: string, games: real, mu: real, sigma: real, wins: real, losses: real,
    races: seq<real>,  // p, z, t, r: the order `MostPlayedRace` expects
    lastPlayed: real,
    rating: real)

  datatype RankedPlayer = RankedPlayer(player: LeaderboardPlayer, rank: nat)

  /** The leaderboard's decoding of a rating row. */
  function DecodeLeaderboard(id: string, v: RatingRow): (p: LeaderboardPlayer)
    ensures p.losses == p.games - p.wins
    ensures p.id == id && p.mu == v[MuAt] && p.sigma == v[SigmaAt] && p.lastPlayed == v[LastPlayedAt]
    ensures p.games == v[GamesAt] && p.wins == v[WinsAt] && p.rating == v[PointsAt]
    ensures p.races == [v[RacesAt], v[RacesAt + 2], v[RacesAt + 1], v[RacesAt + 3]]
  {
    LeaderboardPlayer(id, v[0], v[1], v[2], v[3], v[0] - v[3], [v[4], v[6], v[5], v[7]], v[8], v[21])
  }

  /**
   * Both pages hand `MostPlayedRace` the same counts: the leaderboard its
   * reordered `races`, the player page its `countsForFunction`.
   */
  lemma SameMostPlayedRace(id: string, v: RatingRow)
    ensures DecodeLeaderboard(id, v).races
         == (var s := DecodeStats(id, v); [s.races[0], s.races[2], s.races[1], s.races[3]])
    ensures DecodeLeaderboard(id, v).rating == DecodeStats(id, v).points
  {
  }

  function Rating(p: LeaderboardPlayer): real { p.rating }

  function LeaderboardGames(p: LeaderboardPlayer): real { p.games }

  function AllLeaderboard(ratings: seq<(string, RatingRow)>): (ps: seq<LeaderboardPlayer>)
    ensures |ps| == |ratings|
    ensures forall i :: 0 <= i < |ps| ==> ps[i] == DecodeLeaderboard(ratings[i].0, ratings[i].1)
  {
    seq(|ratings|, i requires 0 <= i < |ratings| => DecodeLeaderboard(ratings[i].0, ratings[i].1))
  }

  /** The leaderboard's players in ranking order: the eligible ones sorted by rating. */
  function LeaderboardOrder(ratings: seq<(string, RatingRow)>): seq<LeaderboardPlayer> {
    SortDesc(Eligible(AllLeaderboard(ratings), LeaderboardGames), Rating)
  }

  function Players(ranked: seq<RankedPlayer>): (ps: seq<LeaderboardPlayer>)
    ensures |ps| == |ranked|
    ensures forall i :: 0 <= i < |ranked| ==> ps[i] == ranked[i].player
  {
    seq(|ranked|, i requires 0 <= i < |ranked| => ranked[i].player)
  }

  /**
   * The leaderboard: decode every row, keep the eligible players, sort them in
   * place by rating (largest first, ties in input order) and give each its
   * position plus one as rank.
   */
  method Leaderboard(ratings: seq<(string, RatingRow)>) returns (ranked: seq<RankedPlayer>)
    ensures Players(ranked) == LeaderboardOrder(ratings)
    ensures forall i :: 0 <= i < |ranked| ==> ranked[i].rank == i + 1
  {
    var eligible := Eligible(AllLeaderboard(ratings), LeaderboardGames);
    var a := ToArray(eligible);
    SortInPlace(a, Rating);
    ranked := AssignRanks(a[..]);
  }

  /** Pairs every player with its position plus one. */
  method AssignRanks(sorted: seq<LeaderboardPlayer>) returns (ranked: seq<RankedPlayer>)
    ensures |ranked| == |sorted|
    ensures forall i :: 0 <= i < |ranked| ==> ranked[i] == RankedPlayer(sorted[i], i + 1)
  {
    ranked := [];
    var idx := 0;
    while idx < |sorted|
      invariant 0 <= idx <= |sorted|
      invariant |ranked| == idx
      invariant forall i :: 0 <= i < idx ==> ranked[i] == RankedPlayer(sorted[i], i + 1)
    {
      ranked := ranked + [RankedPlayer(sorted[idx], idx + 1)];
      idx := idx + 1;
    }
  }

  /**
   * What the leaderboard shows: only players with at least `MinGames` games,
   * every one of them exactly once, ratings never increasing down the table,
   * and among equal ratings the enumeration order of the ratings object
   * (ascending id for numeric ids).
   */
  lemma LeaderboardOrderMeaning(ratings: seq<(string, RatingRow)>)
    ensures var order := LeaderboardOrder(ratings);
      && (forall i :: 0 <= i < |order| ==> order[i].games >= MinGames)
      && (forall i, j :: 0 <= i < j < |order| ==> order[i].rating >= order[j].rating)
      && multiset(order) == multiset(Eligible(AllLeaderboard(ratings), LeaderboardGames))
      && (forall v :: WithKey(order, Rating, v) == WithKey(Eligible(AllLeaderboard(ratings), LeaderboardGames), Rating, v))
  {
    var eligible := Eligible(AllLeaderboard(ratings), LeaderboardGames);
    var order := LeaderboardOrder(ratings);
    SortDescSorted(eligible, Rating);
    SortDescPermutes(eligible, Rating);
    forall i | 0 <= i < |order| ensures order[i].games >= MinGames {
      SortDescSameElements(eligible, Rating, order[i]);
    }
    forall v ensures WithKey(order, Rating, v) == WithKey(eligible, Rating, v) {
      SortDescStable(eligible, Rating, v);
    }
  }

  /** A player is on the leaderboard exactly when their row has at least `MinGames` games. */
  lemma LeaderboardMembership(ratings: seq<(string, RatingRow)>, i: nat)
    requires i < |ratings|
    ensures DecodeLeaderboard(ratings[i].0, ratings[i].1) in LeaderboardOrder(ratings)
        <==> ratings[i].1[GamesAt] >= MinGames
  {
    var all := AllLeaderboard(ratings);
    SortDescSameElements(Eligible(all, LeaderboardGames), Rating, all[i]);
    EligibleMembers(all, LeaderboardGames, all[i]);
  }

  // ---------------------------------------------------------------------------
  // Global rank map (script.js)
  // ---------------------------------------------------------------------------

  datatype MuEntry = MuEntry(id: string, mu: real)

  function EntryMu(e: MuEntry): real { e.mu }

  /** `Object.entries(ratings).map(([id, v]) => ({ id, mu: v[1] }))`. */
  function MuEntries(ratings: seq<(string, RatingRow)>): (es: seq<MuEntry>)
    ensures |es| == |ratings|
    ensures forall i :: 0 <= i < |es| ==> es[i] == MuEntry(ratings[i].0, ratings[i].1[MuAt])
  {
    seq(|ratings|, i requires 0 <= i < |ratings| => MuEntry(ratings[i].0, ratings[i].1[MuAt]))
  }

  /** The map `forEach((p, idx) => map[p.id] = idx + 1)` builds from `s`. */
  function PositionRanks(s: seq<MuEntry>): map<string, nat> {
    if s == [] then map[] else PositionRanks(s[..|s| - 1])[s[|s| - 1].id := |s|]
  }

  ghost predicate DistinctIds(ratings: seq<(string, RatingRow)>) {
    forall i, j :: 0 <= i < j < |ratings| ==> ratings[i].0 != ratings[j].0
  }

  ghost predicate DistinctEntryIds(s: seq<MuEntry>) {
    forall i, j :: 0 <= i < j < |s| ==> s[i].id != s[j].id
  }

  /** With distinct ids, each id is mapped to its own position plus one. */
  lemma {:induction false} PositionRanksAt(s: seq<MuEntry>)
    requires DistinctEntryIds(s)
    ensures PositionRanks(s).Keys == set k | 0 <= k < |s| :: s[k].id
    ensures forall k :: 0 <= k < |s| ==> PositionRanks(s)[s[k].id] == k + 1
    decreases |s|
  {
    if s != [] {
      var init := s[..|s| - 1];
      PositionRanksAt(init);
      assert forall k :: 0 <= k < |init| ==> init[k] == s[k];
      assert (set k | 0 <= k < |s| :: s[k].id) == (set k | 0 <= k < |init| :: init[k].id) + {s[|s| - 1].id};
    }
  }

  lemma {:induction false} DistinctCountsAtMostOne(s: seq<MuEntry>, e: MuEntry)
    requires DistinctEntryIds(s)
    ensures multiset(s)[e] <= 1
    decreases |s|
  {
    if s != [] {
      var init := s[..|s| - 1];
      DistinctCountsAtMostOne(init, e);
      assert s == init + [s[|s| - 1]];
      if e == s[|s| - 1] {
        assert e !in init;
      }
    }
  }

  lemma TwoPositionsCountTwice(t: seq<MuEntry>, i: int, j: int)
    requires 0 <= i < j < |t| && t[i] == t[j]
    ensures multiset(t)[t[i]] >= 2
  {
    assert t == t[..j] + [t[j]] + t[j + 1..];
    assert t[i] in t[..j];
  }

  /** A permutation of entries with distinct ids has distinct ids. */
  lemma PermutationKeepsDistinct(s: seq<MuEntry>, t: seq<MuEntry>)
    requires multiset(s) == multiset(t) && DistinctEntryIds(s)
    ensures DistinctEntryIds(t)
  {
    forall i, j | 0 <= i < j < |t| ensures t[i].id != t[j].id {
      if t[i] == t[j] {
        TwoPositionsCountTwice(t, i, j);
        DistinctCountsAtMostOne(s, t[i]);
      } else {
        assert t[i] in multiset(s) && t[j] in multiset(s);
        var p :| 0 <= p < |s| && s[p] == t[i];
        var q :| 0 <= q < |s| && s[q] == t[j];
      }
    }
  }

  /** The rank map `buildGlobalRankMap` returns, as a function of the ratings. */
  function GlobalRanks(ratings: seq<(string, RatingRow)>): map<string, nat> {
    PositionRanks(SortDesc(MuEntries(ratings), EntryMu))
  }

  /** `buildGlobalRankMap(ratings)`: sort by mu in place, then number the ids by position. */
  method BuildGlobalRankMap(ratings: seq<(string, RatingRow)>) returns (rank: map<string, nat>)
    ensures rank == GlobalRanks(ratings)
  {
    var a := ToArray(MuEntries(ratings));
    SortInPlace(a, EntryMu);
    rank := NumberByPosition(a[..]);
  }

  /** The `forEach` of `buildGlobalRankMap`: each id gets its position plus one, a later row overwriting an earlier one. */
  method NumberByPosition(sorted: seq<MuEntry>) returns (rank: map<string, nat>)
    ensures rank == PositionRanks(sorted)
  {
    rank := map[];
    var idx := 0;
    while idx < |sorted|
      invariant 0 <= idx <= |sorted|
      invariant rank == PositionRanks(sorted[..idx])
    {
      assert sorted[..idx + 1][..idx] == sorted[..idx];
      rank := rank[sorted[idx].id := idx + 1];
      idx := idx + 1;
    }
    assert sorted[..idx] == sorted;
  }

  /** Ranking by position gives ids in 1..n distinct ranks. */
  lemma PositionRanksDistinct(s: seq<MuEntry>)
    requires DistinctEntryIds(s)
    ensures forall id :: id in PositionRanks(s) ==> 1 <= PositionRanks(s)[id] <= |s|
    ensures forall a, b :: a in PositionRanks(s) && b in PositionRanks(s) && a != b
              ==> PositionRanks(s)[a] != PositionRanks(s)[b]
  {
  }

  /** In a list sorted by mu, a strictly higher mu has a smaller position rank. */
  lemma HigherMuRanksFirst(s: seq<MuEntry>, x: MuEntry, y: MuEntry)
    requires SortedDesc(s, EntryMu) && DistinctEntryIds(s)
    requires x in s && y in s && x.mu > y.mu
    ensures x.id in PositionRanks(s) && y.id in PositionRanks(s)
    ensures PositionRanks(s)[x.id] < PositionRanks(s)[y.id]
  {
    PositionRanksAt(s);
    var p :| 0 <= p < |s| && s[p] == x;
    var q :| 0 <= q < |s| && s[q] == y;
    assert p < q;
  }

  /** The entries sorted by mu, with their ids still distinct. */
  lemma SortedEntries(ratings: seq<(string, RatingRow)>)
    requires DistinctIds(ratings)
    ensures var sorted := SortDesc(MuEntries(ratings), EntryMu);
      && SortedDesc(sorted, EntryMu) && DistinctEntryIds(sorted)
      && forall e :: e in sorted <==> e in MuEntries(ratings)
  {
    var entries := MuEntries(ratings);
    SortDescSorted(entries, EntryMu);
    SortDescPermutes(entries, EntryMu);
    PermutationKeepsDistinct(entries, SortDesc(entries, EntryMu));
    forall e ensures e in SortDesc(entries, EntryMu) <==> e in entries {
      SortDescSameElements(entries, EntryMu, e);
    }
  }

  /** Every id of the ratings gets a rank, and nothing else does. */
  lemma GlobalRanksKeys(ratings: seq<(string, RatingRow)>)
    requires DistinctIds(ratings)
    ensures GlobalRanks(ratings).Keys == set i | 0 <= i < |ratings| :: ratings[i].0
  {
    var entries := MuEntries(ratings);
    var sorted := SortDesc(entries, EntryMu);
    SortedEntries(ratings);
    PositionRanksAt(sorted);
    var rank := GlobalRanks(ratings);
    forall id | id in rank ensures exists i :: 0 <= i < |ratings| && ratings[i].0 == id {
      var k :| 0 <= k < |sorted| && sorted[k].id == id;
      assert sorted[k] in entries;
    }
    forall i | 0 <= i < |ratings| ensures ratings[i].0 in rank {
      assert entries[i] in sorted;
    }
  }

  /**
   * Every id gets a rank, the ranks are distinct and lie in 1..n, and a strictly
   * higher mu always means a smaller rank number.
   */
  lemma GlobalRanksMeaning(ratings: seq<(string, RatingRow)>)
    requires DistinctIds(ratings)
    ensures GlobalRanks(ratings).Keys == set i | 0 <= i < |ratings| :: ratings[i].0
    ensures forall id :: id in GlobalRanks(ratings) ==> 1 <= GlobalRanks(ratings)[id] <= |ratings|
    ensures forall a, b :: a in GlobalRanks(ratings) && b in GlobalRanks(ratings) && a != b
              ==> GlobalRanks(ratings)[a] != GlobalRanks(ratings)[b]
    ensures forall i, j :: 0 <= i < |ratings| && 0 <= j < |ratings| && ratings[i].1[MuAt] > ratings[j].1[MuAt]
              ==> GlobalRanks(ratings)[ratings[i].0] < GlobalRanks(ratings)[ratings[j].0]
  {
    var entries := MuEntries(ratings);
    var sorted := SortDesc(entries, EntryMu);
    SortedEntries(ratings);
    GlobalRanksKeys(ratings);
    PositionRanksDistinct(sorted);
    forall i, j | 0 <= i < |ratings| && 0 <= j < |ratings| && ratings[i].1[MuAt] > ratings[j].1[MuAt]
      ensures GlobalRanks(ratings)[ratings[i].0] < GlobalRanks(ratings)[ratings[j].0]
    {
      HigherMuRanksFirst(sorted, entries[i], entries[j]);
    }
  }
}
