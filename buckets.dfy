/**
 * The per-race, per-team and per-ally statistics of the player page
 * (player.js): a `[total, wins, losses]` triple turned into a record with
 * games and the derived points per game and win rate, and the lists built from
 * whole tables of such triples, sorted by total points, largest first.
 *
 * A table is modelled as the sequence of its `Object.entries`; a triple that is
 * `null` or absent is `None`, and each slot of a present one is a `Field`.
 */
module StatBuckets {
  import opened Wrappers
  import opened Sorting
  import opened MatchupKeys

  // ---------------------------------------------------------------------------
  // Shared arithmetic
  // ---------------------------------------------------------------------------

  /** Points per game, 0 when there are no games. */
  function PerGame(total: real, games: real): (v: real)
    ensures games > 0.0 ==> v * games == total
    ensures games <= 0.0 ==> v == 0.0
  {
    if games > 0.0 then total / games else 0.0
  }

  /** Win rate in percent, 0 when there are no games. */
  function WinPercent(wins: real, games: real): (v: real)
    ensures games > 0.0 ==> v * games == wins * 100.0
    ensures games <= 0.0 ==> v == 0.0
  {
    if games > 0.0 then (wins / games) * 100.0 else 0.0
  }

  /** With non-negative wins and losses, the win rate is a percentage, 100 exactly when nothing was lost. */
  lemma WinPercentBounds(wins: real, losses: real)
    requires wins >= 0.0 && losses >= 0.0
    ensures 0.0 <= WinPercent(wins, wins + losses) <= 100.0
    ensures wins + losses > 0.0 ==> (WinPercent(wins, wins + losses) == 100.0 <==> losses == 0.0)
  {
    var g := wins + losses;
    if g > 0.0 {
      var v := WinPercent(wins, g);
      assert v * g == wins * 100.0;
    }
  }

  // ---------------------------------------------------------------------------
  // The player's games per race (`parse` in `loadPlayerData`)
  // ---------------------------------------------------------------------------

  datatype Bucket = Bucket(total: real, wins: real, losses: real, games: real)

  /** `parse(entry)`: a missing entry is all zeros; missing slots count as 0. */
  function Parse(entry: Option<seq<Field>>): (b: Bucket)
    ensures b.games == b.wins + b.losses
    ensures entry.None? ==> b == Bucket(0.0, 0.0, 0.0, 0.0)
    ensures entry.Some? ==>
              b.total == OrZero(At(entry.value, 0)) && b.wins == OrZero(At(entry.value, 1))
              && b.losses == OrZero(At(entry.value, 2))
  {
    if entry.None? then Bucket(0.0, 0.0, 0.0, 0.0)
    else
      var arr := entry.value;
      var wins, losses := OrZero(At(arr, 1)), OrZero(At(arr, 2));
      Bucket(OrZero(At(arr, 0)), wins, losses, wins + losses)
  }

  /** What `loadPlayerData` reports for one race. */
  datatype RaceSummary = RaceSummary(raw: Bucket, games: real, total: real, perGame: real, winrate: real)

  function Summarise(entry: Option<seq<Field>>): (r: RaceSummary)
    ensures r.raw == Parse(entry) && r.games == r.raw.wins + r.raw.losses && r.total == r.raw.total
    ensures r.games > 0.0 ==> r.perGame * r.games == r.total && r.winrate * r.games == r.raw.wins * 100.0
    ensures r.games <= 0.0 ==> r.perGame == 0.0 && r.winrate == 0.0
  {
    var b := Parse(entry);
    RaceSummary(b, b.games, b.total, PerGame(b.total, b.games), WinPercent(b.wins, b.games))
  }

  /** `loadPlayerData`'s summary of the player's Protoss, Terran and Zerg entries. */
  datatype PlayerSummary = PlayerSummary(p: RaceSummary, t: RaceSummary, z: RaceSummary)

  function SummarisePlayer(p: Option<seq<Field>>, t: Option<seq<Field>>, z: Option<seq<Field>>): (s: PlayerSummary)
    ensures s.p == Summarise(p) && s.t == Summarise(t) && s.z == Summarise(z)
  {
    PlayerSummary(Summarise(p), Summarise(t), Summarise(z))
  }

  /** A race the player never played reports zero everywhere. */
  lemma SummariseMissing()
    ensures Summarise(None) == RaceSummary(Bucket(0.0, 0.0, 0.0, 0.0), 0.0, 0.0, 0.0, 0.0)
  {
  }

  // ---------------------------------------------------------------------------
  // One row of a team, matchup or ally table
  // ---------------------------------------------------------------------------

  /**
   * The common part of every table row: `[mmr, wins, losses] = arr ?? [0, 0, 0]`
   * with defaults for the stored fields. `perGame` divides the raw `mmr`, so a
   * row whose `mmr` slot is absent while it has games gets NaN (`None`).
   */
  datatype Tally = Tally(total: real, wins: real, losses: real, games: real, perGame: Option<real>)

  function Slots(arr: Option<seq<Field>>): (s: seq<Field>)
    ensures arr.None? ==> s == [Num(0.0), Num(0.0), Num(0.0)]
    ensures arr.Some? ==> s == arr.value
  {
    if arr.None? then [Num(0.0), Num(0.0), Num(0.0)] else arr.value
  }

  /** `games > 0 ? raw / games : 0` on a raw slot. */
  function RawRatio(f: Field, games: real): (q: Option<real>)
    ensures games <= 0.0 ==> q == Some(0.0)
    ensures games > 0.0 ==> q == DivSlot(f, games)
  {
    if games > 0.0 then DivSlot(f, games) else Some(0.0)
  }

  function TallyOf(arr: Option<seq<Field>>): (t: Tally)
    ensures t.games == t.wins + t.losses
    ensures t.total == OrZero(At(Slots(arr), 0)) && t.wins == OrZero(At(Slots(arr), 1))
    ensures t.losses == OrZero(At(Slots(arr), 2))
    ensures t.perGame == RawRatio(At(Slots(arr), 0), t.games)
  {
    var s := Slots(arr);
    var games := OrZero(At(s, 1)) + OrZero(At(s, 2));
    Tally(OrZero(At(s, 0)), OrZero(At(s, 1)), OrZero(At(s, 2)), games, RawRatio(At(s, 0), games))
  }

  /**
   * The raw ratio is the guarded ratio of the defaulted value, except when the
   * slot is absent and there are games: then it is NaN.
   */
  lemma RawRatioDefaults(f: Field, games: real)
    ensures RawRatio(f, games).None? <==> f.Missing? && games > 0.0
    ensures RawRatio(f, games).Some? ==> RawRatio(f, games).value == PerGame(OrZero(f), games)
  {
  }

  /** The total of a row, the key every table is sorted by. */
  function TallyTotal(t: Tally): real { t.total }

  // ---------------------------------------------------------------------------
  // Team compositions (`parseMatchupData`)
  // ---------------------------------------------------------------------------

  datatype TeamEntry = TeamEntry(
    key: string, caption: string, teammateA: string, teammateB: string,
    parenthesisIndex: nat, parenthesisRace: string,
    tally: Tally, winrate: Option<real>)

  function TeamEntryOf(key: string, arr: Option<seq<Field>>): (e: TeamEntry)
    ensures e.key == key && e.caption == MakeLabel3(key)
    ensures e.teammateA == KeyLetter(key, 1) && e.teammateB == KeyLetter(key, 2)
    ensures e.parenthesisIndex == DecideParenthesis(PlayerLetter(key), e.teammateA, e.teammateB).index
    ensures e.parenthesisRace == DecideParenthesis(PlayerLetter(key), e.teammateA, e.teammateB).race
    ensures e.tally == TallyOf(arr)
    ensures e.tally.games <= 0.0 ==> e.winrate == Some(0.0)
    ensures e.tally.games > 0.0 && !At(Slots(arr), 1).Missing? ==>
              e.winrate == Some(WinPercent(e.tally.wins, e.tally.games))
  {
    var t := TallyOf(arr);
    var a, b := KeyLetter(key, 1), KeyLetter(key, 2);
    var d := DecideParenthesis(PlayerLetter(key), a, b);
    var winrate := if t.games > 0.0 then
                     (match DivSlot(At(Slots(arr), 1), t.games)
                      case Some(r) => Some(r * 100.0)
                      case None => None)
                   else Some(0.0);
    RawRatioDefaults(At(Slots(arr), 1), t.games);
    TeamEntry(key, MakeLabel3(key), a, b, d.index, d.race, t, winrate)
  }

  function TeamTotal(e: TeamEntry): real { e.tally.total }

  function TeamEntries(obj: seq<(string, Option<seq<Field>>)>): (es: seq<TeamEntry>)
    ensures |es| == |obj|
    ensures forall i :: 0 <= i < |obj| ==> es[i] == TeamEntryOf(obj[i].0, obj[i].1)
  {
    seq(|obj|, i requires 0 <= i < |obj| => TeamEntryOf(obj[i].0, obj[i].1))
  }

  /** `parseMatchupData(obj)`: one entry per key, sorted in place by total, largest first. */
  method ParseMatchupData(obj: seq<(string, Option<seq<Field>>)>) returns (entries: seq<TeamEntry>)
    ensures entries == SortDesc(TeamEntries(obj), TeamTotal)
  {
    var a := ToArray(TeamEntries(obj));
    SortInPlace(a, TeamTotal);
    entries := a[..];
  }

  /**
   * The team list holds one entry per key of the table, and nothing else, with
   * totals never increasing down the list.
   */
  lemma ParseMatchupDataMeaning(obj: seq<(string, Option<seq<Field>>)>)
    ensures var r := SortDesc(TeamEntries(obj), TeamTotal);
      && multiset(r) == multiset(TeamEntries(obj))
      && (forall i, j :: 0 <= i < j < |r| ==> r[i].tally.total >= r[j].tally.total)
      && (forall e :: e in r <==> e in TeamEntries(obj))
  {
    SortDescMeaning(TeamEntries(obj), TeamTotal);
  }

  // ---------------------------------------------------------------------------
  // Team against opponents (`parseDrawer3Data`)
  // ---------------------------------------------------------------------------

  datatype VersusEntry = VersusEntry(
    key: string, caption: string, teammateA: string, teammateB: string,
    opponentA: string, opponentB: string,
    parenthesisIndex: nat, parenthesisRace: string, tally: Tally)

  function VersusEntryOf(key: string, arr: Option<seq<Field>>): (e: VersusEntry)
    ensures e.key == key && e.caption == MakeLabel5(key)
    ensures e.teammateA == KeyLetter(key, 1) && e.teammateB == KeyLetter(key, 2)
    ensures e.opponentA == KeyLetter(key, 3) && e.opponentB == KeyLetter(key, 4)
    ensures e.parenthesisIndex == DecideParenthesis(PlayerLetter(key), e.teammateA, e.teammateB).index
    ensures e.parenthesisRace == DecideParenthesis(PlayerLetter(key), e.teammateA, e.teammateB).race
    ensures e.tally == TallyOf(arr)
  {
    var a, b := KeyLetter(key, 1), KeyLetter(key, 2);
    var d := DecideParenthesis(PlayerLetter(key), a, b);
    VersusEntry(key, MakeLabel5(key), a, b, KeyLetter(key, 3), KeyLetter(key, 4), d.index, d.race, TallyOf(arr))
  }

  function VersusTotal(e: VersusEntry): real { e.tally.total }

  function VersusEntries(obj: seq<(string, Option<seq<Field>>)>): (es: seq<VersusEntry>)
    ensures |es| == |obj|
    ensures forall i :: 0 <= i < |obj| ==> es[i] == VersusEntryOf(obj[i].0, obj[i].1)
  {
    seq(|obj|, i requires 0 <= i < |obj| => VersusEntryOf(obj[i].0, obj[i].1))
  }

  /** `parseDrawer3Data(obj)`: one entry per key, sorted by total, largest first. */
  method ParseDrawer3Data(obj: seq<(string, Option<seq<Field>>)>) returns (entries: seq<VersusEntry>)
    ensures entries == SortDesc(VersusEntries(obj), VersusTotal)
  {
    var a := ToArray(VersusEntries(obj));
    SortInPlace(a, VersusTotal);
    entries := a[..];
  }

  lemma ParseDrawer3DataMeaning(obj: seq<(string, Option<seq<Field>>)>)
    ensures var r := SortDesc(VersusEntries(obj), VersusTotal);
      && multiset(r) == multiset(VersusEntries(obj))
      && (forall i, j :: 0 <= i < j < |r| ==> r[i].tally.total >= r[j].tally.total)
      && (forall e :: e in r <==> e in VersusEntries(obj))
  {
    SortDescMeaning(VersusEntries(obj), VersusTotal);
  }

  // ---------------------------------------------------------------------------
  // Allies (`parseDrawer4Data`)
  // ---------------------------------------------------------------------------

  datatype AllyEntry = AllyEntry(allyId: string, allyName: string, tally: Tally, winRate: Option<real>)

  /** `names?.[allyId] || allyId`: the known, non-empty name, else the id. */
  function AllyName(names: Option<map<string, string>>, allyId: string): (name: string)
    ensures names.Some? && allyId in names.value && names.value[allyId] != "" ==> name == names.value[allyId]
    ensures names.None? || allyId !in names.value || names.value[allyId] == "" ==> name == allyId
  {
    if names.Some? && allyId in names.value && names.value[allyId] != "" then names.value[allyId]
    else allyId
  }

  /** One ally row; its win rate is a fraction, not a percentage. */
  function AllyEntryOf(allyId: string, arr: Option<seq<Field>>, names: Option<map<string, string>>): (e: AllyEntry)
    ensures e.allyId == allyId && e.allyName == AllyName(names, allyId) && e.tally == TallyOf(arr)
    ensures e.winRate == RawRatio(At(Slots(arr), 1), e.tally.games)
  {
    var t := TallyOf(arr);
    AllyEntry(allyId, AllyName(names, allyId), t, RawRatio(At(Slots(arr), 1), t.games))
  }

  /** With its wins present, an ally's win rate is the percentage scaled down to a fraction. */
  lemma AllyWinRateIsFraction(allyId: string, arr: Option<seq<Field>>, names: Option<map<string, string>>)
    requires !At(Slots(arr), 1).Missing?
    ensures var e := AllyEntryOf(allyId, arr, names);
      e.winRate == Some(WinPercent(e.tally.wins, e.tally.games) / 100.0)
  {
  }

  function AllyTotal(e: AllyEntry): real { e.tally.total }

  /** `Object.entries(obj || {})`: a missing table has no entries. */
  function AllyEntries(obj: Option<seq<(string, Option<seq<Field>>)>>, names: Option<map<string, string>>)
    : (es: seq<AllyEntry>)
    ensures obj.None? ==> es == []
    ensures obj.Some? ==>
              |es| == |obj.value|
              && forall i :: 0 <= i < |obj.value| ==> es[i] == AllyEntryOf(obj.value[i].0, obj.value[i].1, names)
  {
    if obj.None? then []
    else
      var o := obj.value;
      seq(|o|, i requires 0 <= i < |o| => AllyEntryOf(o[i].0, o[i].1, names))
  }

  /** `parseDrawer4Data(obj, names)`: one entry per ally, sorted by total, largest first. */
  method ParseDrawer4Data(obj: Option<seq<(string, Option<seq<Field>>)>>, names: Option<map<string, string>>)
    returns (entries: seq<AllyEntry>)
    ensures entries == SortDesc(AllyEntries(obj, names), AllyTotal)
  {
    var a := ToArray(AllyEntries(obj, names));
    SortInPlace(a, AllyTotal);
    entries := a[..];
  }

  lemma ParseDrawer4DataMeaning(obj: Option<seq<(string, Option<seq<Field>>)>>, names: Option<map<string, string>>)
    ensures var r := SortDesc(AllyEntries(obj, names), AllyTotal);
      && (obj.None? ==> r == [])
      && multiset(r) == multiset(AllyEntries(obj, names))
      && (forall i, j :: 0 <= i < j < |r| ==> r[i].tally.total >= r[j].tally.total)
      && (forall e :: e in r <==> e in AllyEntries(obj, names))
  {
    SortDescMeaning(AllyEntries(obj, names), AllyTotal);
  }
}
