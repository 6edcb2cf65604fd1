/**
 * The labels of team compositions on the player page (player.js).
 *
 * A 3-letter key is the player's race followed by two teammates' races; a
 * 5-letter key adds two opponents. A label shows the teammates upper-cased and
 * in key order, with one of them in parentheses: the one that plays the player's
 * own race, or the first one when that does not decide it.
 */
module MatchupKeys {
  import opened Text

  /** Which teammate `decideParenthesis` marks (1 or 2), and its race in lower case. */
  datatype Parenthesis = Parenthesis(index: nat, race: string)

  /**
   * `decideParenthesis(playerRace, t1, t2)`, identical in `parseMatchupData` and
   * `parseDrawer3Data`: identical teammates mark the first; otherwise the first
   * if it plays the player's race, else the second if it does, else the first.
   * All comparisons are on upper-cased strings.
   */
  function DecideParenthesis(player: string, t1: string, t2: string): (d: Parenthesis)
    ensures d.index == 1 || d.index == 2
    ensures d.index == 2 <==>
              UpperStr(t1) != UpperStr(t2) && UpperStr(t1) != UpperStr(player)
              && UpperStr(t2) == UpperStr(player)
    ensures d.race == LowerStr(UpperStr(if d.index == 1 then t1 else t2))
  {
    var p := UpperStr(player);
    var a := UpperStr(t1);
    var b := UpperStr(t2);
    if a == b then Parenthesis(1, LowerStr(a))
    else if a == p then Parenthesis(1, LowerStr(a))
    else if b == p then Parenthesis(2, LowerStr(b))
    else Parenthesis(1, LowerStr(a))
  }

  /** Marking depends on the letters only, not on their case. */
  lemma DecideParenthesisIgnoresCase(player: string, t1: string, t2: string)
    ensures DecideParenthesis(UpperStr(player), UpperStr(t1), UpperStr(t2))
         == DecideParenthesis(player, t1, t2)
    ensures DecideParenthesis(LowerStr(player), LowerStr(t1), LowerStr(t2))
         == DecideParenthesis(player, t1, t2)
  {
    UpperLowerFold(player);
    UpperLowerFold(t1);
    UpperLowerFold(t2);
  }

  lemma UpperLowerFold(s: string)
    ensures UpperStr(UpperStr(s)) == UpperStr(s)
    ensures UpperStr(LowerStr(s)) == UpperStr(s)
    ensures LowerStr(UpperStr(UpperStr(s))) == LowerStr(UpperStr(s))
  {
  }

  /** One letter of a key, upper-cased: `key[i].toUpperCase()`, or "" past the end. */
  function KeyLetter(key: string, i: nat): (s: string)
    ensures i < |key| ==> s == [Upper(key[i])]
    ensures i >= |key| ==> s == ""
  {
    if i < |key| then UpperStr([key[i]]) else ""
  }

  /** The player's race as handed to `decideParenthesis`: `key && key[0]`. */
  function PlayerLetter(key: string): (s: string)
    ensures |s| <= 1
  {
    if key == [] then "" else [key[0]]
  }

  /** The teammate part: the chosen teammate in parentheses, both in key order. */
  function TeammatesPart(key: string): (part: string)
    requires |key| >= 3
    ensures |part| == 4
  {
    var t1 := KeyLetter(key, 1);
    var t2 := KeyLetter(key, 2);
    if DecideParenthesis(PlayerLetter(key), t1, t2).index == 1 then "(" + t1 + ")" + t2
    else t1 + "(" + t2 + ")"
  }

  /**
   * The second teammate is marked exactly when the teammates differ, the first
   * does not play the player's race and the second does.
   */
  predicate SecondMarked(key: string)
    requires |key| >= 3
  {
    Upper(key[1]) != Upper(key[2]) && Upper(key[1]) != Upper(key[0]) && Upper(key[2]) == Upper(key[0])
  }

  /** `makeLabel(key)` of `parseMatchupData`: "" for a key shorter than three letters. */
  function MakeLabel3(key: string): (caption: string)
    ensures |key| < 3 ==> caption == ""
    ensures |key| >= 3 && !SecondMarked(key) ==> caption == ['(', Upper(key[1]), ')', Upper(key[2])]
    ensures |key| >= 3 && SecondMarked(key) ==> caption == [Upper(key[1]), '(', Upper(key[2]), ')']
  {
    if |key| < 3 then ""
    else
      assert UpperStr(KeyLetter(key, 1)) == [Upper(key[1])];
      assert UpperStr(KeyLetter(key, 2)) == [Upper(key[2])];
      assert UpperStr(PlayerLetter(key)) == [Upper(key[0])];
      TeammatesPart(key)
  }

  /** `makeLabel(key5)` of `parseDrawer3Data`: "" for a key shorter than five letters. */
  function MakeLabel5(key: string): (caption: string)
    ensures |key| < 5 ==> caption == ""
    ensures |key| >= 5 ==> caption == MakeLabel3(key[..3]) + " vs " + [Upper(key[3]), Upper(key[4])]
  {
    if |key| < 5 then ""
    else
      assert TeammatesPart(key) == TeammatesPart(key[..3]) by {
        assert KeyLetter(key, 1) == KeyLetter(key[..3], 1);
        assert KeyLetter(key, 2) == KeyLetter(key[..3], 2);
      }
      TeammatesPart(key) + " vs " + KeyLetter(key, 3) + KeyLetter(key, 4)
  }

  /** A label with its parentheses taken out. */
  function StripParens(s: string): (r: string)
    ensures forall c :: c in r ==> c != '(' && c != ')'
  {
    if s == [] then []
    else (if s[0] == '(' || s[0] == ')' then [] else [s[0]]) + StripParens(s[1..])
  }

  /**
   * Taking the parentheses out of a 3-letter label gives back the two teammates,
   * upper-cased, in key order, and exactly one of them was parenthesised.
   */
  lemma MakeLabel3Teammates(key: string)
    requires |key| >= 3
    requires key[1] !in "()" && key[2] !in "()"
    ensures StripParens(MakeLabel3(key)) == [Upper(key[1]), Upper(key[2])]
    ensures multiset(MakeLabel3(key))['('] == 1 && multiset(MakeLabel3(key))[')'] == 1
  {
    var a, b := Upper(key[1]), Upper(key[2]);
    StripMarked(a, b);
    if SecondMarked(key) {
      assert MakeLabel3(key) == [a, '(', b, ')'];
    } else {
      assert MakeLabel3(key) == ['(', a, ')', b];
    }
  }

  lemma StripMarked(a: char, b: char)
    requires a != '(' && a != ')' && b != '(' && b != ')'
    ensures StripParens(['(', a, ')', b]) == [a, b]
    ensures StripParens([a, '(', b, ')']) == [a, b]
    ensures multiset(['(', a, ')', b])['('] == 1 && multiset(['(', a, ')', b])[')'] == 1
    ensures multiset([a, '(', b, ')'])['('] == 1 && multiset([a, '(', b, ')'])[')'] == 1
  {
    assert StripParens([b]) == [b] + StripParens([]);
    assert StripParens([b, ')']) == [b] + StripParens([')']);
    assert StripParens([')', b]) == StripParens([b]);
    assert StripParens(['(', b, ')']) == StripParens([b, ')']);
    assert StripParens([a, '(', b, ')']) == [a] + StripParens(['(', b, ')']);
    assert StripParens([a, ')', b]) == [a] + StripParens([')', b]);
    assert StripParens(['(', a, ')', b]) == StripParens([a, ')', b]);
  }

  /**
   * The opponents follow " vs " upper-cased and in key order, never parenthesised,
   * and the teammate part is the 3-letter label of the key's first three letters.
   */
  lemma MakeLabel5Opponents(key: string)
    requires |key| >= 5
    ensures var caption := MakeLabel5(key);
      && |caption| == 10
      && caption[..4] == MakeLabel3(key[..3])
      && caption[4..8] == " vs "
      && caption[8..] == [Upper(key[3]), Upper(key[4])]
  {
  }
}
