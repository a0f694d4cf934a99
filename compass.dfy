/** The bearing of a ship: four cardinal directions and an UNKNOWN fallback. */
module Bearings {

  datatype Compass = North | South | East | West | Unknown

  /** The character each bearing carries ('o' is "oeste", west). */
  function GetDirection(d: Compass): (c: char)
    ensures c in "nseou"
    ensures CharToCompass(c) == d
  {
    match d
    case North => 'n'
    case South => 's'
    case East => 'e'
    case West => 'o'
    case Unknown => 'u'
  }

  /** The one-character text of a bearing. */
  function ToString(d: Compass): (s: string)
    ensures |s| == 1 && s[0] == GetDirection(d)
    ensures CharToCompass(s[0]) == d
  {
    [GetDirection(d)]
  }

  /** Decodes a character; every character that names no cardinal direction gives Unknown. */
  function CharToCompass(ch: char): (d: Compass)
    ensures d == North <==> ch == 'n'
    ensures d == South <==> ch == 's'
    ensures d == East <==> ch == 'e'
    ensures d == West <==> ch == 'o'
    ensures d == Unknown <==> ch !in ['n', 's', 'e', 'o']
  {
    match ch
    case 'n' => North
    case 's' => South
    case 'e' => East
    case 'o' => West
    case _ => Unknown
  }

  /** Distinct bearings carry distinct characters. */
  lemma DirectionInjective(d1: Compass, d2: Compass)
    ensures GetDirection(d1) == GetDirection(d2) <==> d1 == d2
  {
  }

  /** Decoding the character of a bearing gives the bearing back, Unknown included. */
  lemma DirectionRoundTrip(d: Compass)
    ensures CharToCompass(GetDirection(d)) == d
  {
  }

  /** The characters of the five bearings are exactly n, s, e, o and u. */
  lemma DirectionCharacters()
    ensures forall c: char :: c in "nseou" <==> exists d: Compass :: GetDirection(d) == c
  {
    forall c: char | c in "nseou" ensures exists d: Compass :: GetDirection(d) == c {
      var d := CharToCompass(c);
      DirectionRoundTrip(d);
    }
  }
}
