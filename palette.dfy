/** The six block and platform colours, and the random colour pick. */
module Palette {

  datatype Color = Red | Green | Blue | Yellow | Purple | Orange

  /** The palette, in the order the game lists it. */
  const Colors: seq<Color> := [Red, Green, Blue, Yellow, Purple, Orange]

  /** Where a colour sits in the palette. */
  function IndexOf(c: Color): (i: nat)
    ensures i < |Colors| && Colors[i] == c
  {
    match c
    case Red => 0
    case Green => 1
    case Blue => 2
    case Yellow => 3
    case Purple => 4
    case Orange => 5
  }

  /** Every colour appears exactly once in the palette. */
  lemma IndexOfAt(i: nat)
    requires i < |Colors|
    ensures IndexOf(Colors[i]) == i
  {
  }

  /**
   * getRandomColor: a uniform draw `roll` in [0, 1) picks the palette entry at
   * floor(roll * 6). Each colour owns the slice of width 1/6 that starts at
   * its palette index over 6.
   */
  function RandomColor(roll: real): (c: Color)
    requires 0.0 <= roll < 1.0
    ensures IndexOf(c) as real <= roll * 6.0 < IndexOf(c) as real + 1.0
  {
    var k := (roll * 6.0).Floor;
    IndexOfAt(k);
    Colors[k]
  }

  /** Every colour of the palette can be drawn. */
  lemma RandomColorCovers(c: Color)
    ensures RandomColor(IndexOf(c) as real / 6.0) == c
  {
    var roll := IndexOf(c) as real / 6.0;
    assert roll * 6.0 == IndexOf(c) as real;
  }
}
