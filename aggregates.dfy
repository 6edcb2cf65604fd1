/**
 * The aggregation loops of the statistics page (statistics.js): win/loss sums
 * over groups of team compositions, the groups' win rates, the per-composition
 * breakdown, and the per-matchup totals behind the frequency and win-rate
 * charts.
 *
 * Tables are modelled as the sequences of their `Object.entries`; the win/loss
 * table, which is only looked up by key, as a map.
 */
module Aggregates {
  import opened Wrappers
  import opened Sorting

  // ---------------------------------------------------------------------------
  // Sums
  // ---------------------------------------------------------------------------

  /** The sum of `f` over `s`, added up from the front as the loops do. */
  function SumOf<T>(s: seq<T>, f: T -> real): real {
    if s == [] then 0.0 else SumOf(s[..|s| - 1], f) + f(s[|s| - 1])
  }

  lemma {:induction false} SumOfAppend<T>(a: seq<T>, b: seq<T>, f: T -> real)
    ensures SumOf(a + b, f) == SumOf(a, f) + SumOf(b, f)
    decreases |b|
  {
    if b == [] {
      assert a + b == a;
    } else {
      assert (a + b)[..|a + b| - 1] == a + b[..|b| - 1];
      SumOfAppend(a, b[..|b| - 1], f);
    }
  }

  lemma {:induction false} SumOfInsert<T>(s: seq<T>, x: T, key: T -> real, f: T -> real)
    ensures SumOf(InsertDesc(s, x, key), f) == SumOf(s, f) + f(x)
    decreases |s|
  {
    if s != [] && key(s[|s| - 1]) < key(x) {
      SumOfInsert(s[..|s| - 1], x, key, f);
      var r' := InsertDesc(s[..|s| - 1], x, key);
      assert (r' + [s[|s| - 1]])[..|r' + [s[|s| - 1]]| - 1] == r';
    }
  }

  /** Sorting never changes a sum. */
  lemma {:induction false} SumOfSort<T>(s: seq<T>, key: T -> real, f: T -> real)
    ensures SumOf(SortDesc(s, key), f) == SumOf(s, f)
    decreases |s|
  {
    if s != [] {
      SumOfSort(s[..|s| - 1], key, f);
      SumOfInsert(SortDesc(s[..|s| - 1], key), s[|s| - 1], key, f);
    }
  }

  /** `whole ? (part / whole) * 100 : 0`: a percentage, 0 when the whole is 0. */
  function PercentOf(part: real, whole: real): (p: real)
    ensures whole == 0.0 ==> p == 0.0
    ensures whole != 0.0 ==> p * whole == part * 100.0
  {
    if whole != 0.0 then (part / whole) * 100.0 else 0.0
  }

  /** A part between 0 and the whole is a percentage between 0 and 100. */
  lemma PercentBounds(part: real, whole: real)
    requires 0.0 <= part <= whole
    ensures 0.0 <= PercentOf(part, whole) <= 100.0
    ensures whole != 0.0 ==> (PercentOf(part, whole) == 100.0 <==> part == whole)
  {
  }

  // ---------------------------------------------------------------------------
  // Wins and losses per composition (`wlp`)
  // ---------------------------------------------------------------------------

  /**
   * A `wlp` entry: either an array `[wins, games]`, or an object with optional
   * `wins` and `losses`.
   */
  datatype WlpEntry = ArrayEntry(wins: real, games: real) | ObjectEntry(winsField: Field, lossesField: Field)

  /** What `sumWinsLosses` adds to its wins for an entry. */
  function EntryWins(d: WlpEntry): real {
    match d
    case ArrayEntry(w, _) => w
    case ObjectEntry(w, _) => OrZero(w)
  }

  /** What `sumWinsLosses` adds to its losses: for an array, games minus wins. */
  function EntryLosses(d: WlpEntry): real {
    match d
    case ArrayEntry(w, g) => g - w
    case ObjectEntry(_, l) => OrZero(l)
  }

  /** Wins summed over `keys`, skipping keys the table does not have. */
  function KeysWins(wlp: map<string, WlpEntry>, keys: seq<string>): real {
    if keys == [] then 0.0
    else
      var k := keys[|keys| - 1];
      KeysWins(wlp, keys[..|keys| - 1]) + (if k in wlp then EntryWins(wlp[k]) else 0.0)
  }

  function KeysLosses(wlp: map<string, WlpEntry>, keys: seq<string>): real {
    if keys == [] then 0.0
    else
      var k := keys[|keys| - 1];
      KeysLosses(wlp, keys[..|keys| - 1]) + (if k in wlp then EntryLosses(wlp[k]) else 0.0)
  }

  datatype WinLoss = WinLoss(wins: real, losses: real, total: real)

  /** `sumWinsLosses(keys)`. */
  method SumWinsLosses(wlp: map<string, WlpEntry>, keys: seq<string>) returns (r: WinLoss)
    ensures r.wins == KeysWins(wlp, keys) && r.losses == KeysLosses(wlp, keys)
    ensures r.total == r.wins + r.losses
  {
    var wins, losses := 0.0, 0.0;
    var i := 0;
    while i < |keys|
      invariant 0 <= i <= |keys|
      invariant wins == KeysWins(wlp, keys[..i]) && losses == KeysLosses(wlp, keys[..i])
    {
      assert keys[..i + 1][..i] == keys[..i];
      var k := keys[i];
      if k in wlp {
        var d := wlp[k];
        match d
        case ArrayEntry(w, g) =>
          wins := wins + w;
          losses := losses + (g - w);
        case ObjectEntry(w, l) =>
          wins := wins + OrZero(w);
          losses := losses + OrZero(l);
      }
      i := i + 1;
    }
    assert keys[..|keys|] == keys;
    return WinLoss(wins, losses, wins + losses);
  }

  /** Summing two lists of keys one after the other adds their sums. */
  lemma {:induction false} KeysSumsAppend(wlp: map<string, WlpEntry>, a: seq<string>, b: seq<string>)
    ensures KeysWins(wlp, a + b) == KeysWins(wlp, a) + KeysWins(wlp, b)
    ensures KeysLosses(wlp, a + b) == KeysLosses(wlp, a) + KeysLosses(wlp, b)
    decreases |b|
  {
    if b == [] {
      assert a + b == a;
    } else {
      assert (a + b)[..|a + b| - 1] == a + b[..|b| - 1];
      KeysSumsAppend(wlp, a, b[..|b| - 1]);
    }
  }

  /** The keys of `keys` the table has, in order. */
  function Present(wlp: map<string, WlpEntry>, keys: seq<string>): (r: seq<string>)
    ensures forall k :: k in r <==> k in keys && k in wlp
  {
    if keys == [] then []
    else
      var k := keys[|keys| - 1];
      Present(wlp, keys[..|keys| - 1]) + (if k in wlp then [k] else [])
  }

  /** Keys missing from the table contribute nothing. */
  lemma {:induction false} AbsentKeysIgnored(wlp: map<string, WlpEntry>, keys: seq<string>)
    ensures KeysWins(wlp, Present(wlp, keys)) == KeysWins(wlp, keys)
    ensures KeysLosses(wlp, Present(wlp, keys)) == KeysLosses(wlp, keys)
    decreases |keys|
  {
    if keys != [] {
      var k := keys[|keys| - 1];
      AbsentKeysIgnored(wlp, keys[..|keys| - 1]);
      KeysSumsAppend(wlp, Present(wlp, keys[..|keys| - 1]), if k in wlp then [k] else []);
      assert KeysWins(wlp, []) == 0.0;
      if k in wlp {
        assert [k][..0] == [];
      }
    }
  }

  /** An array entry's wins and losses add up to its games. */
  lemma ArrayEntryTotal(w: real, g: real)
    ensures EntryWins(ArrayEntry(w, g)) + EntryLosses(ArrayEntry(w, g)) == g
  {
  }

  // ---------------------------------------------------------------------------
  // Groups (`loadWinrateChart`)
  // ---------------------------------------------------------------------------

  /** The six matchup groups and their compositions. */
  const Groups: seq<(string, seq<string>)> := [
    ("pz", ["ppzz", "pprz", "zzrp", "rprz"]),
    ("tz", ["ttzz", "ttrz", "zzrt", "rtrz"]),
    ("zz", ["zzzz", "zzrz", "rzrz"]),
    ("pt", ["pptt", "pprt", "ttrp", "rprt"]),
    ("pp", ["pppp", "pprp", "rprp"]),
    ("tt", ["tttt", "ttrt", "rtrt"])
  ]

  datatype GroupRow = GroupRow(name: string, keys: seq<string>, wins: real, losses: real, total: real, winrate: real)

  function GroupRowOf(wlp: map<string, WlpEntry>, name: string, keys: seq<string>): (g: GroupRow)
    ensures g.name == name && g.keys == keys
    ensures g.wins == KeysWins(wlp, keys) && g.losses == KeysLosses(wlp, keys)
    ensures g.total == g.wins + g.losses
    ensures g.total == 0.0 ==> g.winrate == 0.0
    ensures g.total != 0.0 ==> g.winrate * g.total == g.wins * 100.0
  {
    var w, l := KeysWins(wlp, keys), KeysLosses(wlp, keys);
    GroupRow(name, keys, w, l, w + l, PercentOf(w, w + l))
  }

  function GroupRows(wlp: map<string, WlpEntry>, groups: seq<(string, seq<string>)>): (rs: seq<GroupRow>)
    ensures |rs| == |groups|
    ensures forall i :: 0 <= i < |groups| ==> rs[i] == GroupRowOf(wlp, groups[i].0, groups[i].1)
  {
    seq(|groups|, i requires 0 <= i < |groups| => GroupRowOf(wlp, groups[i].0, groups[i].1))
  }

  function GroupWinrate(g: GroupRow): real { g.winrate }

  /** `groupData`: one row per group, sorted in place by win rate, highest first. */
  method GroupData(wlp: map<string, WlpEntry>) returns (rows: seq<GroupRow>)
    ensures rows == SortDesc(GroupRows(wlp, Groups), GroupWinrate)
  {
    var unsorted: seq<GroupRow> := [];
    var i := 0;
    while i < |Groups|
      invariant 0 <= i <= |Groups|
      invariant unsorted == GroupRows(wlp, Groups[..i])
    {
      var (name, keys) := Groups[i];
      var s := SumWinsLosses(wlp, keys);
      unsorted := unsorted + [GroupRow(name, keys, s.wins, s.losses, s.total, PercentOf(s.wins, s.total))];
      i := i + 1;
    }
    assert Groups[..|Groups|] == Groups;
    var a := ToArray(unsorted);
    SortInPlace(a, GroupWinrate);
    rows := a[..];
  }

  /** The group chart lists every group once, win rates never increasing. */
  lemma GroupDataMeaning(wlp: map<string, WlpEntry>)
    ensures var rows := SortDesc(GroupRows(wlp, Groups), GroupWinrate);
      && |rows| == 6
      && (forall i, j :: 0 <= i < j < |rows| ==> rows[i].winrate >= rows[j].winrate)
      && (forall i :: 0 <= i < |Groups| ==> GroupRowOf(wlp, Groups[i].0, Groups[i].1) in rows)
      && (forall g :: g in rows ==> g in GroupRows(wlp, Groups))
  {
    var rs := GroupRows(wlp, Groups);
    SortDescMeaning(rs, GroupWinrate);
    forall i | 0 <= i < |Groups| ensures GroupRowOf(wlp, Groups[i].0, Groups[i].1) in SortDesc(rs, GroupWinrate) {
      assert rs[i] in rs;
    }
  }

  // ---------------------------------------------------------------------------
  // A group's compositions (`subEntries`)
  // ---------------------------------------------------------------------------

  /** `a + b` on two raw slots: `null` adds as 0, `undefined` makes NaN (`None`). */
  function AddSlots(a: Field, b: Field): (s: Option<real>)
    ensures s.None? <==> a.Missing? || b.Missing?
    ensures s.Some? ==> s.value == OrZero(a) + OrZero(b)
  {
    if a.Missing? || b.Missing? then None else Some(OrZero(a) + OrZero(b))
  }

  /**
   * One composition of a group: its wins as stored, its total (NaN, `None`, when
   * an object entry lacks a field), and its win rate, 0 when the total is 0 or NaN.
   */
  datatype SubEntry = SubEntry(key: string, wins: Field, total: Option<real>, wr: real)

  function SubEntryOf(key: string, d: WlpEntry): (e: SubEntry)
    ensures e.key == key
    ensures d.ArrayEntry? ==> e.wins == Num(d.wins) && e.total == Some(d.games) && e.wr == PercentOf(d.wins, d.games)
    ensures d.ObjectEntry? ==> e.wins == d.winsField && e.total == AddSlots(d.winsField, d.lossesField)
    ensures e.total.None? || e.total.value == 0.0 ==> e.wr == 0.0
    ensures e.total.Some? ==> e.wr == PercentOf(OrZero(e.wins), e.total.value)
  {
    match d
    case ArrayEntry(w, g) => SubEntry(key, Num(w), Some(g), PercentOf(w, g))
    case ObjectEntry(w, l) =>
      var total := AddSlots(w, l);
      SubEntry(key, w, total, if total.Some? then PercentOf(OrZero(w), total.value) else 0.0)
  }

  /** `keys.map(...).filter(Boolean)`: the entries of the keys the table has. */
  function SubEntries(wlp: map<string, WlpEntry>, keys: seq<string>): (es: seq<SubEntry>)
    ensures |es| == |Present(wlp, keys)|
    ensures forall i :: 0 <= i < |es| ==> es[i].key == Present(wlp, keys)[i]
    ensures forall i :: 0 <= i < |es| ==> es[i].key in wlp && es[i] == SubEntryOf(es[i].key, wlp[es[i].key])
  {
    if keys == [] then []
    else
      var k := keys[|keys| - 1];
      SubEntries(wlp, keys[..|keys| - 1]) + (if k in wlp then [SubEntryOf(k, wlp[k])] else [])
  }

  function SubWr(e: SubEntry): real { e.wr }

  /** The rows of a group's tooltip, highest win rate first. */
  function SortedSubEntries(wlp: map<string, WlpEntry>, keys: seq<string>): seq<SubEntry> {
    SortDesc(SubEntries(wlp, keys), SubWr)
  }

  /**
   * The tooltip shows exactly the group's compositions present in the table, each
   * once, in win-rate order.
   */
  lemma SortedSubEntriesMeaning(wlp: map<string, WlpEntry>, keys: seq<string>)
    ensures var r := SortedSubEntries(wlp, keys);
      && |r| == |Present(wlp, keys)|
      && (forall i, j :: 0 <= i < j < |r| ==> r[i].wr >= r[j].wr)
      && (forall e :: e in r ==> e.key in keys && e.key in wlp && e == SubEntryOf(e.key, wlp[e.key]))
      && (forall k :: k in keys && k in wlp ==> exists e :: e in r && e.key == k)
  {
    var es := SubEntries(wlp, keys);
    var present := Present(wlp, keys);
    SortDescMeaning(es, SubWr);
    forall e | e in SortDesc(es, SubWr)
      ensures e.key in keys && e.key in wlp && e == SubEntryOf(e.key, wlp[e.key])
    {
      var i :| 0 <= i < |es| && es[i] == e;
      assert e.key == present[i];
    }
    forall k | k in keys && k in wlp
      ensures exists e :: e in SortDesc(es, SubWr) && e.key == k
    {
      var i :| 0 <= i < |present| && present[i] == k;
      assert es[i] in SortDesc(es, SubWr);
    }
  }

  // ---------------------------------------------------------------------------
  // Team frequency (`muwr`)
  // ---------------------------------------------------------------------------

  /** One opponent of a `muwr` matchup: `[wins, games]`, games possibly absent. */
  datatype VsGames = VsGames(opponent: string, wins: real, games: Field)

  /** What the loop records for an opponent, with `games || 0`. */
  datatype SubGames = SubGames(opponent: string, wins: real, games: real)

  datatype Frequency = Frequency(matchup: string, totalGames: real, sub: seq<SubGames>)

  function Record(v: VsGames): SubGames {
    SubGames(v.opponent, v.wins, OrZero(v.games))
  }

  function Records(vs: seq<VsGames>): (r: seq<SubGames>)
    ensures |r| == |vs|
    ensures forall i :: 0 <= i < |vs| ==> r[i] == Record(vs[i])
  {
    seq(|vs|, i requires 0 <= i < |vs| => Record(vs[i]))
  }

  function SubGamesOf(s: SubGames): real { s.games }

  function SubWinsOf(s: SubGames): real { s.wins }

  /** The entry of one matchup: its opponents and their games added up. */
  method FrequencyOf(matchup: string, vs: seq<VsGames>) returns (e: Frequency)
    ensures e.matchup == matchup && e.sub == Records(vs)
    ensures e.totalGames == SumOf(e.sub, SubGamesOf)
  {
    var totalGames := 0.0;
    var sub: seq<SubGames> := [];
    var i := 0;
    while i < |vs|
      invariant 0 <= i <= |vs|
      invariant sub == Records(vs[..i])
      invariant totalGames == SumOf(sub, SubGamesOf)
    {
      var g := OrZero(vs[i].games);
      sub := sub + [SubGames(vs[i].opponent, vs[i].wins, g)];
      totalGames := totalGames + g;
      i := i + 1;
    }
    assert vs[..|vs|] == vs;
    e := Frequency(matchup, totalGames, sub);
  }

  function FrequencyEntry(matchup: string, vs: seq<VsGames>): Frequency {
    var sub := Records(vs);
    Frequency(matchup, SumOf(sub, SubGamesOf), sub)
  }

  function Frequencies(muwr: seq<(string, seq<VsGames>)>): (es: seq<Frequency>)
    ensures |es| == |muwr|
    ensures forall i :: 0 <= i < |muwr| ==> es[i] == FrequencyEntry(muwr[i].0, muwr[i].1)
  {
    seq(|muwr|, i requires 0 <= i < |muwr| => FrequencyEntry(muwr[i].0, muwr[i].1))
  }

  function TotalGamesOf(e: Frequency): real { e.totalGames }

  /** `wrSorted`'s key: the matchup's wins per game, 0 without games. */
  function WinFraction(e: Frequency): real {
    var games := SumOf(e.sub, SubGamesOf);
    if games != 0.0 then SumOf(e.sub, SubWinsOf) / games else 0.0
  }

  /**
   * The frequency chart's data: the entries with their totals, the grand total of
   * selections, the entries sorted in place by total games, and a copy of those
   * sorted by win fraction.
   */
  method TeamFrequency(muwr: seq<(string, seq<VsGames>)>)
    returns (entries: seq<Frequency>, grandTotal: real, wrSorted: seq<Frequency>)
    ensures entries == SortDesc(Frequencies(muwr), TotalGamesOf)
    ensures grandTotal == SumOf(Frequencies(muwr), TotalGamesOf)
    ensures wrSorted == SortDesc(entries, WinFraction)
  {
    var unsorted: seq<Frequency> := [];
    var i := 0;
    while i < |muwr|
      invariant 0 <= i <= |muwr|
      invariant |unsorted| == i
      invariant forall k :: 0 <= k < i ==> unsorted[k] == FrequencyEntry(muwr[k].0, muwr[k].1)
    {
      var e := FrequencyOf(muwr[i].0, muwr[i].1);
      unsorted := unsorted + [e];
      i := i + 1;
    }
    assert unsorted == Frequencies(muwr);
    grandTotal := 0.0;
    var j := 0;
    while j < |unsorted|
      invariant 0 <= j <= |unsorted|
      invariant grandTotal == SumOf(unsorted[..j], TotalGamesOf)
    {
      assert unsorted[..j + 1][..j] == unsorted[..j];
      grandTotal := grandTotal + unsorted[j].totalGames;
      j := j + 1;
    }
    assert unsorted[..|unsorted|] == unsorted;
    var a := ToArray(unsorted);
    SortInPlace(a, TotalGamesOf);
    entries := a[..];
    var b := ToArray(entries);
    SortInPlace(b, WinFraction);
    wrSorted := b[..];
  }

  /**
   * The frequency chart lists every matchup once, most played first; its bars
   * add up to the grand total; the win-rate chart lists the same matchups.
   */
  lemma TeamFrequencyMeaning(muwr: seq<(string, seq<VsGames>)>)
    ensures var es := SortDesc(Frequencies(muwr), TotalGamesOf);
      && multiset(es) == multiset(Frequencies(muwr))
      && (forall i, j :: 0 <= i < j < |es| ==> es[i].totalGames >= es[j].totalGames)
      && SumOf(es, TotalGamesOf) == SumOf(Frequencies(muwr), TotalGamesOf)
      && multiset(SortDesc(es, WinFraction)) == multiset(Frequencies(muwr))
      && (forall i, j :: 0 <= i < j < |es| ==>
            WinFraction(SortDesc(es, WinFraction)[i]) >= WinFraction(SortDesc(es, WinFraction)[j]))
  {
    var fs := Frequencies(muwr);
    SortDescMeaning(fs, TotalGamesOf);
    SumOfSort(fs, TotalGamesOf, TotalGamesOf);
    var es := SortDesc(fs, TotalGamesOf);
    SortDescMeaning(es, WinFraction);
  }

  // ---------------------------------------------------------------------------
  // Matchup win rates (`muwrr`)
  // ---------------------------------------------------------------------------

  /** One opponent of a `muwrr` matchup: `[wins, games]`. */
  datatype VsRecord = VsRecord(opponent: string, wins: real, games: real)

  datatype MatchupRate = MatchupRate(matchup: string, wr: real, totalWins: real, totalGames: real, sub: seq<VsRecord>)

  function RecordWins(r: VsRecord): real { r.wins }

  function RecordGames(r: VsRecord): real { r.games }

  /** The entry of one matchup: wins and games added up over its opponents, and the win rate. */
  method MatchupRateOf(matchup: string, vs: seq<VsRecord>) returns (e: MatchupRate)
    ensures e.matchup == matchup && e.sub == vs
    ensures e.totalWins == SumOf(vs, RecordWins) && e.totalGames == SumOf(vs, RecordGames)
    ensures e.wr == PercentOf(e.totalWins, e.totalGames)
  {
    var totalWins, totalGames := 0.0, 0.0;
    var i := 0;
    while i < |vs|
      invariant 0 <= i <= |vs|
      invariant totalWins == SumOf(vs[..i], RecordWins) && totalGames == SumOf(vs[..i], RecordGames)
    {
      assert vs[..i + 1][..i] == vs[..i];
      totalWins := totalWins + vs[i].wins;
      totalGames := totalGames + vs[i].games;
      i := i + 1;
    }
    assert vs[..|vs|] == vs;
    e := MatchupRate(matchup, PercentOf(totalWins, totalGames), totalWins, totalGames, vs);
  }

  function MatchupRateEntry(matchup: string, vs: seq<VsRecord>): MatchupRate {
    var w, g := SumOf(vs, RecordWins), SumOf(vs, RecordGames);
    MatchupRate(matchup, PercentOf(w, g), w, g, vs)
  }

  function MatchupRates(muwrr: seq<(string, seq<VsRecord>)>): (es: seq<MatchupRate>)
    ensures |es| == |muwrr|
    ensures forall i :: 0 <= i < |muwrr| ==> es[i] == MatchupRateEntry(muwrr[i].0, muwrr[i].1)
  {
    seq(|muwrr|, i requires 0 <= i < |muwrr| => MatchupRateEntry(muwrr[i].0, muwrr[i].1))
  }

  function RateOf(e: MatchupRate): real { e.wr }

  /** The matchup win-rate chart's entries, sorted in place by win rate, highest first. */
  method MatchupWinrates(muwrr: seq<(string, seq<VsRecord>)>) returns (entries: seq<MatchupRate>)
    ensures entries == SortDesc(MatchupRates(muwrr), RateOf)
  {
    var unsorted: seq<MatchupRate> := [];
    var i := 0;
    while i < |muwrr|
      invariant 0 <= i <= |muwrr|
      invariant unsorted == MatchupRates(muwrr[..i])
    {
      var e := MatchupRateOf(muwrr[i].0, muwrr[i].1);
      unsorted := unsorted + [e];
      i := i + 1;
    }
    assert muwrr[..|muwrr|] == muwrr;
    var a := ToArray(unsorted);
    SortInPlace(a, RateOf);
    entries := a[..];
  }

  /**
   * Every matchup once, highest win rate first, and with non-negative wins never
   * above games on each opponent, every rate is a percentage.
   */
  lemma MatchupWinratesMeaning(muwrr: seq<(string, seq<VsRecord>)>)
    ensures var es := SortDesc(MatchupRates(muwrr), RateOf);
      && multiset(es) == multiset(MatchupRates(muwrr))
      && (forall i, j :: 0 <= i < j < |es| ==> es[i].wr >= es[j].wr)
      && (forall e :: e in es && (forall r :: r in e.sub ==> 0.0 <= r.wins <= r.games) ==> 0.0 <= e.wr <= 100.0)
  {
    var ms := MatchupRates(muwrr);
    SortDescMeaning(ms, RateOf);
    forall e | e in SortDesc(ms, RateOf) && (forall r :: r in e.sub ==> 0.0 <= r.wins <= r.games)
      ensures 0.0 <= e.wr <= 100.0
    {
      var k :| 0 <= k < |ms| && ms[k] == e;
      WinsWithinGames(e.sub);
      PercentBounds(e.totalWins, e.totalGames);
    }
  }

  /** Summed over opponents, wins stay between 0 and games. */
  lemma {:induction false} WinsWithinGames(vs: seq<VsRecord>)
    requires forall r :: r in vs ==> 0.0 <= r.wins <= r.games
    ensures 0.0 <= SumOf(vs, RecordWins) <= SumOf(vs, RecordGames)
    decreases |vs|
  {
    if vs != [] {
      assert vs[|vs| - 1] in vs;
      WinsWithinGames(vs[..|vs| - 1]);
    }
  }
}
