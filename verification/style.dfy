/**
 The style record the map applies to each earthquake's circle marker.
 */
module Style {
  import opened Colors
  import opened Markers

  /** A feed position: longitude, latitude and depth, in that order. */
  datatype Geometry = Geometry(coordinates: seq<real>)
  datatype Properties = Properties(mag: real)
  /** One earthquake record of the GeoJSON feed, reduced to what styling reads. */
  datatype Feature = Feature(geometry: Geometry, properties: Properties)

  /** Circle-marker path options; the fractional constants are kept as exact reals. */
  datatype PathStyle = PathStyle(
    opacity: real,
    fillOpacity: real,
    stroke: bool,
    weight: real,
    fillColor: string,
    color: string,
    radius: real)

  /** A depth read from the feed: the third coordinate, or `undefined` when absent. */
  datatype FeedDepth = Known(value: real) | Missing

  function Depth(f: Feature): FeedDepth
  {
    if |f.geometry.coordinates| > 2 then Known(f.geometry.coordinates[2]) else Missing
  }

  /**
   Fill colour for a possibly missing depth. A missing coordinate reads as
   `undefined`, every `undefined > n` test is false, and the classifier falls
   through to its default, green.
   */
  function FillFor(d: FeedDepth): Color
  {
    match d
    case Known(v) => GetColor(v)
    case Missing => Green
  }

  /**
   The style of one marker: the fill is the depth classifier's colour, the
   radius is the magnitude rule's, and every other option is a constant.
   */
  function StyleInfo(f: Feature): (s: PathStyle)
    ensures s.fillColor in Palette
    ensures |f.geometry.coordinates| > 2 ==> s.fillColor == Hex(GetColor(f.geometry.coordinates[2]))
    ensures |f.geometry.coordinates| <= 2 ==> s.fillColor == Hex(Green)
    ensures s.radius == GetRadius(f.properties.mag)
  {
    PathStyle(
      opacity := 0.8,
      fillOpacity := 0.6,
      stroke := true,
      weight := 0.5,
      fillColor := Hex(FillFor(Depth(f))),
      color := "#000000",
      radius := GetRadius(f.properties.mag))
  }

  /** The options other than fill and radius do not depend on the feature. */
  lemma StyleConstantFields(f1: Feature, f2: Feature)
    ensures StyleInfo(f1).opacity == StyleInfo(f2).opacity == 0.8
    ensures StyleInfo(f1).fillOpacity == StyleInfo(f2).fillOpacity == 0.6
    ensures StyleInfo(f1).stroke == StyleInfo(f2).stroke == true
    ensures StyleInfo(f1).weight == StyleInfo(f2).weight == 0.5
    ensures StyleInfo(f1).color == StyleInfo(f2).color == "#000000"
  {
  }

  /**
   A marker's style is a function of the event's depth and magnitude alone,
   and its fill string names exactly the classifier's colour for that depth.
   */
  lemma StyleDeterminedByDepthAndMagnitude(f1: Feature, f2: Feature, c: Color)
    requires Depth(f1) == Depth(f2)
    requires f1.properties.mag == f2.properties.mag
    ensures StyleInfo(f1) == StyleInfo(f2)
    ensures StyleInfo(f1).fillColor == Hex(c) <==> c == FillFor(Depth(f1))
  {
    HexInjective(c, FillFor(Depth(f1)));
  }

  /** Two events of different depth bands get different fill strings. */
  lemma DistinctBandsDistinctFills(f1: Feature, f2: Feature)
    requires |f1.geometry.coordinates| > 2 && |f2.geometry.coordinates| > 2
    requires GetColor(f1.geometry.coordinates[2]) != GetColor(f2.geometry.coordinates[2])
    ensures StyleInfo(f1).fillColor != StyleInfo(f2).fillColor
  {
    HexInjective(GetColor(f1.geometry.coordinates[2]), GetColor(f2.geometry.coordinates[2]));
  }
}
