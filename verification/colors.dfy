/**
 The six marker colours of the earthquake map, ordered from the shallowest
 depth band (green) to the deepest (red), and their CSS hex spellings.
 */
module Colors {

  /** The palette shared by the depth classifier and the legend. */
  datatype Color = Green | LightGreen | Yellow | Orange | OrangeRed | Red

  /** Number of depth bands, one per colour. */
  const BandCount: nat := 6

  /** Position of a colour in the band order: green = 0 ... red = 5. */
  function Rank(c: Color): (n: nat)
    ensures n < BandCount
  {
    match c
    case Green => 0
    case LightGreen => 1
    case Yellow => 2
    case Orange => 3
    case OrangeRed => 4
    case Red => 5
  }

  /** The colour of band `n`; the inverse of `Rank`. */
  function OfRank(n: nat): (c: Color)
    requires n < BandCount
    ensures Rank(c) == n
  {
    if n == 0 then Green
    else if n == 1 then LightGreen
    else if n == 2 then Yellow
    else if n == 3 then Orange
    else if n == 4 then OrangeRed
    else Red
  }

  lemma RankRoundTrip(c: Color)
    ensures OfRank(Rank(c)) == c
  {
  }

  /** The CSS colour string the map uses for each palette entry. */
  function Hex(c: Color): (s: string)
    ensures |s| == 7 && s[0] == '#'
  {
    match c
    case Green => "#00FF00"
    case LightGreen => "#90EE90"
    case Yellow => "#FFFF00"
    case Orange => "#FFA500"
    case OrangeRed => "#FF4500"
    case Red => "#FF0000"
  }

  /** The six hex strings a marker fill can take. */
  const Palette: set<string> := {"#FF0000", "#FF4500", "#FFA500", "#FFFF00", "#90EE90", "#00FF00"}

  /** Distinct colours are spelled differently, and every spelling is in the palette. */
  lemma HexInjective(a: Color, b: Color)
    ensures Hex(a) == Hex(b) <==> a == b
    ensures Hex(a) in Palette
  {
  }
}
