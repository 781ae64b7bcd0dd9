/** The colour dropdown of Assets/Scripts/Plot.cs: the eight engine
    colours offered in the settings menu, the mapping from a dropdown
    value to its colour, and the mapping back. */
module PlotColors {

  /** An RGBA colour with channels in [0, 1]. */
  datatype Color = Color(r: real, g: real, b: real, a: real)

  const Black := Color(0.0, 0.0, 0.0, 1.0)
  const Blue := Color(0.0, 0.0, 1.0, 1.0)
  /** The engine's yellow is (1, 235/255, 4/255, 1). */
  const Yellow := Color(1.0, 235.0 / 255.0, 4.0 / 255.0, 1.0)
  const Green := Color(0.0, 1.0, 0.0, 1.0)
  const Red := Color(1.0, 0.0, 0.0, 1.0)
  const Magenta := Color(1.0, 0.0, 1.0, 1.0)
  const Cyan := Color(0.0, 1.0, 1.0, 1.0)
  const White := Color(1.0, 1.0, 1.0, 1.0)

  /** The dropdown's entries, in the order of their values 0 to 7. */
  const Palette: seq<Color> := [Black, Blue, Yellow, Green, Red, Magenta, Cyan, White]

  /** DropdownValueToColor: the palette entry for a value from 0 to 7, and
      white for any other value. */
  function DropdownValueToColor(val: int): (c: Color)
    ensures 0 <= val < |Palette| ==> c == Palette[val]
    ensures !(0 <= val < |Palette|) ==> c == White
  {
    match val
    case 0 => Black
    case 1 => Blue
    case 2 => Yellow
    case 3 => Green
    case 4 => Red
    case 5 => Magenta
    case 6 => Cyan
    case 7 => White
    case _ => White
  }

  /** ColorToDropdownValue: the first palette entry equal to the colour,
      compared in dropdown order, and 7 when none of the first seven is. */
  function ColorToDropdownValue(val: Color): (v: int)
    ensures 0 <= v < |Palette|
    ensures v < |Palette| - 1 ==> val == Palette[v]
    ensures forall i :: 0 <= i < v ==> val != Palette[i]
  {
    if val == Black then 0
    else if val == Blue then 1
    else if val == Yellow then 2
    else if val == Green then 3
    else if val == Red then 4
    else if val == Magenta then 5
    else if val == Cyan then 6
    else if val == White then 7
    else 7
  }

  /** No two dropdown entries have the same colour. */
  lemma PaletteDistinct(i: int, j: int)
    requires 0 <= i < j < |Palette|
    ensures Palette[i] != Palette[j]
  {
    assert Palette[i].r != Palette[j].r || Palette[i].g != Palette[j].g || Palette[i].b != Palette[j].b;
  }

  /** A colour equal to entry `i` maps to `i`: because the entries are
      distinct, the order of the comparisons never decides. */
  lemma EntryMapsToIt(c: Color, i: int)
    requires 0 <= i < |Palette| && c == Palette[i]
    ensures ColorToDropdownValue(c) == i
  {
    var v := ColorToDropdownValue(c);
    if v < i {
      PaletteDistinct(v, i);
    } else if v > i {
      PaletteDistinct(i, v);
    }
  }

  /** ColorToDropdownValue gives 7 exactly when the colour is none of the
      first seven entries, white and every colour outside the palette. */
  lemma UnknownColorIsWhite(c: Color)
    ensures ColorToDropdownValue(c) == 7 <==> forall i :: 0 <= i < |Palette| - 1 ==> c != Palette[i]
  {
    if ColorToDropdownValue(c) != 7 {
      EntryMapsToIt(c, ColorToDropdownValue(c));
    }
  }

  /** Round trip from the dropdown: every value from 0 to 7 comes back
      from its colour, and any other value comes back as 7. */
  lemma DropdownRoundTrip(val: int)
    ensures 0 <= val < |Palette| ==> ColorToDropdownValue(DropdownValueToColor(val)) == val
    ensures !(0 <= val < |Palette|) ==> ColorToDropdownValue(DropdownValueToColor(val)) == 7
  {
    if 0 <= val < |Palette| {
      EntryMapsToIt(Palette[val], val);
    } else {
      EntryMapsToIt(White, 7);
    }
  }

  /** Round trip from the colour: every palette colour comes back from its
      value, and every colour comes back as a palette colour. */
  lemma ColorRoundTrip(c: Color)
    ensures c in Palette ==> DropdownValueToColor(ColorToDropdownValue(c)) == c
    ensures DropdownValueToColor(ColorToDropdownValue(c)) in Palette
  {
    if c in Palette {
      var i :| 0 <= i < |Palette| && Palette[i] == c;
      EntryMapsToIt(c, i);
    }
  }
}
