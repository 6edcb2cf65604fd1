/**
 * The small integer rules of the player page's charts and match list
 * (player.js): bar thickness, the chart-mode toggle, the height of the growing
 * charts and the match duration.
 */
module ChartLayout {
  import opened Text
  import opened Wrappers

  // ---------------------------------------------------------------------------
  // Bar thickness
  // ---------------------------------------------------------------------------

  /**
   * `calcBarThickness*`: the cap for an empty list, otherwise the quota shared
   * out over the bars, rounded down, but never more than the cap.
   */
  function BarThickness(cap: int, quota: nat, len: int): (t: int)
    ensures t <= cap
    ensures len <= 0 ==> t == cap
    ensures len > 0 && t < cap ==> t * len <= quota < (t + 1) * len
    ensures len > 0 && t == cap ==> cap * len <= quota
  {
    if len <= 0 then cap
    else
      var share := quota / len;
      assert share * len <= quota < (share + 1) * len;
      if cap <= share then
        assert cap * len <= share * len;
        cap
      else share
  }

  /** `calcBarThickness`: cap 42, quota 132. */
  function CalcBarThickness(len: int): (t: int)
    ensures t <= 42
  {
    BarThickness(42, 132, len)
  }

  /** `calcBarThicknessHigh` and `calcBarThickness44`, the same rule: cap 44, quota 192. */
  function CalcBarThicknessHigh(len: int): (t: int)
    ensures t <= 44
  {
    BarThickness(44, 192, len)
  }

  /** `calcBarThicknessHigh3`: cap 44, quota 250. */
  function CalcBarThicknessHigh3(len: int): (t: int)
    ensures t <= 44
  {
    BarThickness(44, 250, len)
  }

  lemma MulLe(x: int, y: int, k: nat)
    requires x <= y
    ensures x * k <= y * k
  {
  }

  lemma DivAntitone(quota: nat, m: int, n: int)
    requires 0 < m <= n
    ensures quota / n <= quota / m
  {
    var a, b := quota / n, quota / m;
    assert a * n <= quota;
    assert quota < (b + 1) * m;
    MulLe(m, n, a);
    assert a * m <= quota;
    if a > b {
      MulLe(b + 1, a, m);
    }
  }

  /** More bars never get thicker ones. */
  lemma BarThicknessAntitone(cap: int, quota: nat, m: int, n: int)
    requires m <= n
    ensures BarThickness(cap, quota, n) <= BarThickness(cap, quota, m)
  {
    if m > 0 {
      DivAntitone(quota, m, n);
    }
  }

  /** Up to three bars all get the cap, from twelve on the thickness is 11 or less. */
  lemma CalcBarThicknessSamples()
    ensures CalcBarThickness(0) == 42 && CalcBarThickness(3) == 42
    ensures CalcBarThickness(4) == 33 && CalcBarThickness(12) == 11
    ensures CalcBarThicknessHigh(4) == 44 && CalcBarThicknessHigh(5) == 38
    ensures CalcBarThicknessHigh3(5) == 44 && CalcBarThicknessHigh3(6) == 41
  {
  }

  // ---------------------------------------------------------------------------
  // Chart modes
  // ---------------------------------------------------------------------------

  /** `CHART_MODES`, and its copies for the other three charts, in toggle order. */
  const Modes: seq<string> := ["games", "winrate", "total", "pergame"]

  /** `Modes.indexOf(mode)`: -1 when the mode is unknown. */
  function ModeIndex(mode: string): (i: int)
    ensures -1 <= i < |Modes|
    ensures i >= 0 ==> Modes[i] == mode
    ensures i == -1 <==> mode !in Modes
  {
    if mode == "games" then 0
    else if mode == "winrate" then 1
    else if mode == "total" then 2
    else if mode == "pergame" then 3
    else -1
  }

  /** The mode after one click: the next in the cycle; an unknown mode starts over at "games". */
  function NextMode(mode: string): (next: string)
    ensures next in Modes
    ensures mode !in Modes ==> next == "games"
  {
    Modes[(ModeIndex(mode) + 1) % |Modes|]
  }

  /** Each known mode is followed by the one after it, the last by the first. */
  lemma NextModeCycle()
    ensures NextMode("games") == "winrate" && NextMode("winrate") == "total"
    ensures NextMode("total") == "pergame" && NextMode("pergame") == "games"
  {
  }

  /** Four clicks from a known mode come back to it. */
  lemma FourClicksKnown(mode: string)
    requires mode in Modes
    ensures NextMode(NextMode(NextMode(NextMode(mode)))) == mode
  {
    NextModeCycle();
  }

  /** Four clicks bring any known mode back, and any mode at all once it has been clicked. */
  lemma NextModeFourClicks(mode: string)
    ensures mode in Modes ==> NextMode(NextMode(NextMode(NextMode(mode)))) == mode
    ensures var m := NextMode(mode); NextMode(NextMode(NextMode(NextMode(m)))) == m
  {
    if mode in Modes {
      FourClicksKnown(mode);
    }
    FourClicksKnown(NextMode(mode));
  }

  /** The position indicator `(k/4)` of a mode, "" for an unknown one. */
  function Indicator(mode: string): (s: string)
    ensures mode !in Modes <==> s == ""
    ensures mode in Modes ==> s == "(" + [Digit(ModeIndex(mode) + 1)] + "/4)"
  {
    if mode == "games" then "(1/4)"
    else if mode == "winrate" then "(2/4)"
    else if mode == "total" then "(3/4)"
    else if mode == "pergame" then "(4/4)"
    else ""
  }

  /**
   * A chart's mode toggle: the button's `data-mode`, which each click moves to
   * the next mode.
   */
  class ChartToggle {
    var mode: string

    /** The toggle as the page sets it up, showing games. */
    constructor()
      ensures mode == "games"
    {
      mode := "games";
    }

    /** One click: `switchChart` and its copies for the other charts. */
    method Switch() returns (indicator: string)
      modifies this
      ensures mode == NextMode(old(mode))
      ensures indicator == Indicator(mode) && indicator != ""
    {
      mode := NextMode(mode);
      indicator := Indicator(mode);
    }
  }

  // ---------------------------------------------------------------------------
  // Chart height
  // ---------------------------------------------------------------------------

  /**
   * `updateExtraChart3Height` and `updateExtraChart4Height`: 340 pixels for up to
   * ten bars, 24 more for each bar beyond.
   */
  function ChartHeight(barCount: int): (h: int)
    ensures h >= 340
    ensures barCount <= 10 ==> h == 340
    ensures barCount > 10 ==> h - 340 == 24 * (barCount - 10)
  {
    340 + (if barCount - 10 > 0 then barCount - 10 else 0) * 24
  }

  /** The height never shrinks as bars are added. */
  lemma ChartHeightMonotone(m: int, n: int)
    requires m <= n
    ensures ChartHeight(m) <= ChartHeight(n)
    ensures n > 10 ==> ChartHeight(n) - ChartHeight(m) <= 24 * (n - m)
  {
  }

  // ---------------------------------------------------------------------------
  // Match duration
  // ---------------------------------------------------------------------------

  /** `Math.round((game_length || 0) / 1000)`: the nearest whole second, halves rounded up. */
  function DurationSeconds(gameLength: Option<int>): (d: int)
    ensures var ms := if gameLength.Some? then gameLength.value else 0;
      d * 1000 - 500 <= ms < d * 1000 + 500
  {
    var ms := if gameLength.Some? then gameLength.value else 0;
    (ms + 500) / 1000
  }

  /** `Math.floor(d / 60)`. */
  function Minutes(d: int): int {
    d / 60
  }

  /** `d % 60` with JavaScript's remainder, which takes the sign of `d`. */
  function Seconds(d: int): (s: int)
    ensures d >= 0 ==> 0 <= s < 60
    ensures d < 0 ==> -60 < s <= 0
  {
    if d >= 0 then d % 60 else -((-d) % 60)
  }

  /** For a non-negative duration, minutes and seconds split it exactly. */
  lemma MinutesSecondsSplit(d: int)
    requires d >= 0
    ensures Minutes(d) * 60 + Seconds(d) == d
    ensures 0 <= Seconds(d) < 60
  {
  }

  /** `s.toString().padStart(2, "0")`. */
  function PadStart2(s: string): (p: string)
    ensures |s| >= 2 ==> p == s
    ensures |s| < 2 ==> |p| == 2 && p[2 - |s|..] == s && forall i :: 0 <= i < 2 - |s| ==> p[i] == '0'
  {
    if |s| >= 2 then s else seq(2 - |s|, _ => '0') + s
  }

  /** The duration text of a match row: `m:ss min`. */
  function DurationText(gameLength: Option<int>): (text: string)
    ensures |text| >= 8 && text[|text| - 4..] == " min"
  {
    var d := DurationSeconds(gameLength);
    IntToString(Minutes(d)) + ":" + PadStart2(IntToString(Seconds(d))) + " min"
  }

  /** A missing length reads as zero: "0:00 min". */
  lemma DurationTextMissing()
    ensures DurationText(None) == "0:00 min"
  {
  }

  /** The seconds field of a non-negative duration is always two digits. */
  lemma SecondsFieldTwoDigits(gameLength: Option<int>)
    requires gameLength.None? || gameLength.value >= 0
    ensures |PadStart2(IntToString(Seconds(DurationSeconds(gameLength))))| == 2
  {
    var s := Seconds(DurationSeconds(gameLength));
    assert 0 <= s < 60;
    if s >= 10 {
      assert IntToString(s) == NatToString(s / 10) + [Digit(s % 10)];
    }
  }

  /** Zero-padded to two places, a number of seconds below a minute reads back as itself. */
  lemma SecondsFieldValue(x: int)
    requires 0 <= x < 60
    ensures DigitsValue(PadStart2(IntToString(x))) == x
  {
    var p := PadStart2(IntToString(x));
    if x < 10 {
      assert p == ['0', Digit(x)];
      assert p[..1] == ['0'] && ['0'][..0] == [];
    } else {
      NatToStringRoundTrip(x);
    }
  }

  /**
   * For a non-negative length, the text is the whole minutes in decimal, a colon,
   * the remaining seconds in exactly two digits, then " min".
   */
  lemma DurationTextMeaning(gameLength: Option<int>)
    requires gameLength.None? || gameLength.value >= 0
    ensures var d, text := DurationSeconds(gameLength), DurationText(gameLength);
            var k := |IntToString(d / 60)|;
            |text| == k + 7 && text[k] == ':' && text[k + 3..] == " min"
            && DigitsValue(text[..k]) == d / 60
            && DigitsValue(text[k + 1..k + 3]) == d % 60
  {
    var d := DurationSeconds(gameLength);
    var m, sec := IntToString(Minutes(d)), PadStart2(IntToString(Seconds(d)));
    SecondsFieldTwoDigits(gameLength);
    SecondsFieldValue(Seconds(d));
    IntToStringRoundTrip(Minutes(d));
    var text := m + ":" + sec + " min";
    assert text == DurationText(gameLength);
    assert text[..|m|] == m;
    assert text[|m| + 1..|m| + 3] == sec;
    assert text[|m| + 3..] == " min";
  }
}
