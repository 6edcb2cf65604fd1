/**
 * The display classifiers of the leaderboard and the player page: the most played
 * race, the rating tier and its icon, race-code normalisation, the race icon and
 * the pluraliser.
 */
module Display {
  import opened Text
  import opened Wrappers

  // ---------------------------------------------------------------------------
  // Most played race
  // ---------------------------------------------------------------------------

  /** Race names in the order of the counts handed to `MostPlayedRace`. */
  const RaceNames: seq<string> := ["Protoss", "Zerg", "Terran", "Random"]

  /** `Math.max(...s)`. */
  function Max(s: seq<real>): (m: real)
    requires |s| > 0
    ensures m in s
    ensures forall j :: 0 <= j < |s| ==> s[j] <= m
  {
    if |s| == 1 then s[0]
    else
      var rest := Max(s[1..]);
      assert forall j :: 1 <= j < |s| ==> s[j] == s[1..][j - 1];
      if s[0] >= rest then s[0] else rest
  }

  /** `s.indexOf(v)`: the first position holding `v`, or -1. */
  function IndexOf(s: seq<real>, v: real): (i: int)
    ensures -1 <= i < |s|
    ensures i >= 0 ==> s[i] == v
    ensures i >= 0 ==> forall j :: 0 <= j < i ==> s[j] != v
    ensures i == -1 <==> v !in s
  {
    if s == [] then -1
    else if s[0] == v then 0
    else
      var k := IndexOf(s[1..], v);
      assert forall j :: 1 <= j < |s| ==> s[j] == s[1..][j - 1];
      if k == -1 then -1 else k + 1
  }

  /**
   * `mostPlayedRace(counts)`, counts in the order Protoss, Zerg, Terran, Random.
   * `Some("-")` is the no-race sentinel; `None` stands for JavaScript's
   * `undefined`, the name looked up past the fourth race when a longer array has
   * its first maximum there.
   */
  function MostPlayedRace(counts: seq<real>): (r: Option<string>)
    ensures r == Some("-") <==> |counts| < 4 || Max(counts) == 0.0
    ensures |counts| >= 4 && Max(counts) != 0.0 && IndexOf(counts, Max(counts)) < 4
            ==> r == Some(RaceNames[IndexOf(counts, Max(counts))])
  {
    if |counts| < 4 then Some("-")
    else
      var max := Max(counts);
      if max == 0.0 then Some("-")
      else
        var i := IndexOf(counts, max);
        if i < 4 then Some(RaceNames[i]) else None
  }

  /**
   * The race reported is the first one holding the largest count: every count is
   * at most its count, every earlier count is strictly smaller, and it is not 0.
   */
  lemma MostPlayedIsFirstMaximum(counts: seq<real>, i: nat)
    requires |counts| >= 4 && i < 4
    requires MostPlayedRace(counts) == Some(RaceNames[i])
    ensures counts[i] != 0.0
    ensures forall j :: 0 <= j < |counts| ==> counts[j] <= counts[i]
    ensures forall j :: 0 <= j < i ==> counts[j] < counts[i]
  {
  }

  /** Conversely, a non-zero first maximum among the four races is what is reported. */
  lemma FirstMaximumIsMostPlayed(counts: seq<real>, i: nat)
    requires |counts| >= 4 && i < 4 && counts[i] != 0.0
    requires forall j :: 0 <= j < |counts| ==> counts[j] <= counts[i]
    requires forall j :: 0 <= j < i ==> counts[j] < counts[i]
    ensures MostPlayedRace(counts) == Some(RaceNames[i])
  {
  }

  // ---------------------------------------------------------------------------
  // Rating tier and icon
  // ---------------------------------------------------------------------------

  /** Inclusive upper bounds of tiers 0 to 12; tier 13 is everything above. */
  const TierBounds: seq<real> :=
    [399.0, 849.0, 1999.0, 2999.0, 3999.0, 4999.0, 5999.0, 6999.0, 7999.0, 8999.0,
     10499.0, 11999.0, 14499.0]

  /** The bucket chosen by `ratingToIcon`'s threshold ladder. */
  function RatingBucket(rating: real): (b: nat)
    ensures b <= 13
    ensures b < 13 ==> rating <= TierBounds[b]
    ensures b > 0 ==> rating > TierBounds[b - 1]
  {
    if rating <= 399.0 then 0
    else if rating <= 849.0 then 1
    else if rating <= 1999.0 then 2
    else if rating <= 2999.0 then 3
    else if rating <= 3999.0 then 4
    else if rating <= 4999.0 then 5
    else if rating <= 5999.0 then 6
    else if rating <= 6999.0 then 7
    else if rating <= 7999.0 then 8
    else if rating <= 8999.0 then 9
    else if rating <= 10499.0 then 10
    else if rating <= 11999.0 then 11
    else if rating <= 14499.0 then 12
    else 13
  }

  /** A higher rating never lands in a lower tier. */
  lemma RatingBucketMonotone(a: real, b: real)
    requires a <= b
    ensures RatingBucket(a) <= RatingBucket(b)
  {
  }

  /** Each bound belongs to its own tier, and the next whole rating to the next tier. */
  lemma TierBoundsInclusive(k: nat)
    requires k < |TierBounds|
    ensures RatingBucket(TierBounds[k]) == k
    ensures RatingBucket(TierBounds[k] + 1.0) == k + 1
  {
  }

  /** The icon file of a bucket. */
  function BucketIcon(bucket: nat): (path: string)
    ensures |path| >= 11 && path[..6] == "icons/" && path[|path| - 4..] == ".jpg"
  {
    if bucket <= 1 then "icons/d1.jpg"
    else if bucket == 2 then "icons/d2.jpg"
    else if bucket == 3 then "icons/d3.jpg"
    else if 4 <= bucket <= 6 then "icons/c" + [Digit(bucket - 3)] + ".jpg"
    else if 7 <= bucket <= 9 then "icons/b" + [Digit(bucket - 6)] + ".jpg"
    else if 10 <= bucket <= 12 then "icons/a" + [Digit(bucket - 9)] + ".jpg"
    else "icons/s.jpg"
  }

  /**
   * `ratingToIcon(rating)`: up to 849 the lowest icon, then d2 and d3, then
   * c, b and a with three numbered tiers each, and above 14499 the top icon.
   */
  function RatingToIcon(rating: real): (path: string)
    ensures |path| >= 11 && path[..6] == "icons/" && path[|path| - 4..] == ".jpg"
    ensures rating <= 849.0 ==> path == "icons/d1.jpg"
    ensures 849.0 < rating <= 1999.0 ==> path == "icons/d2.jpg"
    ensures 1999.0 < rating <= 2999.0 ==> path == "icons/d3.jpg"
    ensures 2999.0 < rating <= 14499.0 ==>
              var b := RatingBucket(rating);
              4 <= b <= 12 && path == "icons/" + ["cba"[(b - 4) / 3]] + [Digit((b - 4) % 3 + 1)] + ".jpg"
    ensures rating > 14499.0 ==> path == "icons/s.jpg"
  {
    var b := RatingBucket(rating);
    BucketIconEnds(b);
    if 4 <= b <= 12 then BucketIconLetters(b); BucketIcon(b) else BucketIcon(b)
  }

  /**
   * Tiers 4 to 12 run through the letters c, b, a, three tiers per letter,
   * numbered 1 to 3 within each letter.
   */
  lemma BucketIconLetters(bucket: nat)
    requires 4 <= bucket <= 12
    ensures BucketIcon(bucket)
         == "icons/" + ["cba"[(bucket - 4) / 3]] + [Digit((bucket - 4) % 3 + 1)] + ".jpg"
  {
  }

  /** Tiers 0 and 1 share the lowest icon; 2 and 3 have their own; 13 is the top icon. */
  lemma BucketIconEnds(bucket: nat)
    ensures bucket <= 1 ==> BucketIcon(bucket) == "icons/d1.jpg"
    ensures bucket == 2 ==> BucketIcon(bucket) == "icons/d2.jpg"
    ensures bucket == 3 ==> BucketIcon(bucket) == "icons/d3.jpg"
    ensures bucket >= 13 ==> BucketIcon(bucket) == "icons/s.jpg"
  {
  }

  // ---------------------------------------------------------------------------
  // Race codes
  // ---------------------------------------------------------------------------

  /** Every value `NormalizeRace` can return. */
  const NormalizedRaces: set<string> := {"", "p", "t", "z", "r", "rp", "rt", "rz", "unknown"}

  /** The lower-cased spellings `NormalizeRace` recognises. */
  const KnownRaceCodes: set<string> := {"p", "pp", "t", "tt", "z", "zz", "r", "rr", "rp", "rt", "rz"}

  /** `!race` in JavaScript for a string that may be missing. */
  predicate Blank(race: Option<string>) {
    race.None? || race.value == ""
  }

  /** `normalizeRace(race)`: doubled single-race codes collapse, random picks stay. */
  function NormalizeRace(race: Option<string>): (r: string)
    ensures r in NormalizedRaces
    ensures r == "" <==> Blank(race)
    ensures !Blank(race) && LowerStr(race.value) in {"rp", "rt", "rz"} ==> r == LowerStr(race.value)
    ensures !Blank(race) && LowerStr(race.value) in {"p", "pp"} ==> r == "p"
    ensures !Blank(race) && LowerStr(race.value) in {"t", "tt"} ==> r == "t"
    ensures !Blank(race) && LowerStr(race.value) in {"z", "zz"} ==> r == "z"
    ensures !Blank(race) && LowerStr(race.value) in {"r", "rr"} ==> r == "r"
    ensures !Blank(race) && LowerStr(race.value) !in KnownRaceCodes ==> r == "unknown"
  {
    if Blank(race) then ""
    else
      var s := LowerStr(race.value);
      if s in ["p", "pp"] then "p"
      else if s in ["t", "tt"] then "t"
      else if s in ["z", "zz"] then "z"
      else if s in ["r", "rr"] then "r"
      else if s in ["rp", "rt", "rz"] then s
      else "unknown"
  }

  /** Normalising twice is normalising once. */
  lemma NormalizeRaceIdempotent(race: Option<string>)
    ensures NormalizeRace(Some(NormalizeRace(race))) == NormalizeRace(race)
  {
    var r := NormalizeRace(race);
    assert r in NormalizedRaces;
    assert LowerStr(r) == r by {
      if r == "unknown" {
        assert LowerStr("unknown") == "unknown";
      }
    }
  }

  /** Normalisation ignores letter case. */
  lemma NormalizeRaceIgnoresCase(s: string)
    ensures NormalizeRace(Some(UpperStr(s))) == NormalizeRace(Some(s))
    ensures NormalizeRace(Some(LowerStr(s))) == NormalizeRace(Some(s))
  {
    LowerStrFolds(s);
  }

  /** `raceIcon(race)`: the icon of a two-letter race code as it appears in match data. */
  function RaceIcon(race: Option<string>): (path: string)
    ensures Blank(race) ==> path == "icons/unknown.png"
    ensures !Blank(race) && LowerStr(race.value) !in RaceIconKeys ==> path == "icons/unknown.png"
    ensures !Blank(race) && LowerStr(race.value) in RaceIconKeys
            ==> path == "icons/" + RaceIconKeys[LowerStr(race.value)] + ".png"
  {
    if Blank(race) then "icons/unknown.png"
    else
      var s := LowerStr(race.value);
      "icons/" + (if s in RaceIconKeys then RaceIconKeys[s] else "unknown") + ".png"
  }

  const RaceIconKeys: map<string, string> :=
    map["tt" := "t", "pp" := "p", "zz" := "z", "rt" := "r_t", "rp" := "r_p", "rz" := "r_z"]

  /** A single-letter code has no icon of its own, even though `NormalizeRace` accepts it. */
  lemma RaceIconSingleLetter(c: string)
    requires c in {"p", "t", "z", "r"}
    ensures RaceIcon(Some(c)) == "icons/unknown.png"
    ensures NormalizeRace(Some(c)) == c
  {
    assert LowerStr(c) == c;
  }

  // ---------------------------------------------------------------------------
  // Pluraliser
  // ---------------------------------------------------------------------------

  /** The word `plural` prints after the count. */
  function PluralWord(n: int, singular: string, pluralForm: Option<string>): (w: string)
    ensures n == 1 ==> w == singular
    ensures n != 1 && !Blank(pluralForm) ==> w == pluralForm.value
    ensures n != 1 && Blank(pluralForm) && singular == "loss" ==> w == "losses"
    ensures n != 1 && Blank(pluralForm) && singular != "loss" ==> w == singular + "s"
  {
    if n == 1 then singular
    else if !Blank(pluralForm) then pluralForm.value
    else if singular == "loss" then "losses"
    else singular + "s"
  }

  /** `plural(n, singular, pluralForm)`: the count, a space, then the word. */
  function Plural(n: int, singular: string, pluralForm: Option<string>): string {
    IntToString(n) + " " + PluralWord(n, singular, pluralForm)
  }

  /**
   * What `plural` prints: the count in decimal, a space, then the word, which is
   * the singular exactly when the count is one (unless the plural form passed in
   * is the singular itself).
   */
  lemma PluralMeaning(n: int, singular: string, pluralForm: Option<string>)
    ensures var s, k := Plural(n, singular, pluralForm), |IntToString(n)|;
            |s| > k && s[k] == ' '
            && (n >= 0 ==> DigitsValue(s[..k]) == n)
            && (n < 0 ==> s[0] == '-' && DigitsValue(s[1..k]) == -n)
            && s[k + 1..] == PluralWord(n, singular, pluralForm)
            && (Blank(pluralForm) || pluralForm.value != singular ==> (s[k + 1..] == singular <==> n == 1))
  {
    IntToStringRoundTrip(n);
    var digits := IntToString(n);
    var s := Plural(n, singular, pluralForm);
    assert s[..|digits|] == digits;
    assert s[1..|digits|] == digits[1..];
  }
}
