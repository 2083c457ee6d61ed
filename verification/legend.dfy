/**
 The map's depth legend: a fixed table of band boundaries and swatch colours,
 and the loop that turns it into one labelled swatch per band.
 */
module Legend {
  import opened Colors
  import opened Markers

  /** Lower boundary of each legend band, in kilometres of depth. */
  const Grades: seq<int> := [-10, 10, 30, 50, 70, 90]

  /** Swatch colour of each legend band, parallel to `Grades`. */
  const LegendColors: seq<Color> := [Green, LightGreen, Yellow, Orange, OrangeRed, Red]

  /** The structure of a legend label: `lo–hi` for a closed band, `lo+` for the last. */
  datatype Label = Range(low: int, high: int) | AndAbove(low: int)

  /** One legend entry: a coloured square and its label. */
  datatype Item = Item(swatch: Color, caption: Label)

  /**
   JavaScript truthiness of `grades[i]` for an integer table: an index past
   the end reads `undefined`, which is falsy, and so is the number 0.
   */
  predicate Truthy(grades: seq<int>, i: nat)
  {
    i < |grades| && grades[i] != 0
  }

  /** The label of entry `i`: a range up to the next grade when that grade is truthy. */
  function LabelAt(grades: seq<int>, i: nat): Label
    requires i < |grades|
  {
    if Truthy(grades, i + 1) then Range(grades[i], grades[i + 1]) else AndAbove(grades[i])
  }

  /**
   The legend loop: one entry per grade, in order, pairing the i-th colour
   with the i-th label.
   */
  method BuildLegend(grades: seq<int>, colors: seq<Color>) returns (items: seq<Item>)
    requires |grades| <= |colors|
    ensures |items| == |grades|
    ensures forall i :: 0 <= i < |items| ==> items[i].swatch == colors[i]
    ensures forall i :: 0 <= i < |items| ==>
              items[i].caption == (if Truthy(grades, i + 1)
                                   then Range(grades[i], grades[i + 1])
                                   else AndAbove(grades[i]))
    ensures (forall j :: 0 < j < |grades| ==> grades[j] != 0) ==>
              forall i :: 0 <= i < |items| ==> (items[i].caption.AndAbove? <==> i == |items| - 1)
  {
    items := [];
    var i := 0;
    while i < |grades|
      invariant 0 <= i <= |grades|
      invariant |items| == i
      invariant forall j :: 0 <= j < i ==> items[j] == Item(colors[j], LabelAt(grades, j))
    {
      items := items + [Item(colors[i], LabelAt(grades, i))];
      i := i + 1;
    }
  }

  /** The legend the map actually shows, built from the shipped tables. */
  method ShippedLegend() returns (items: seq<Item>)
    ensures items == [Item(Green, Range(-10, 10)), Item(LightGreen, Range(10, 30)),
                      Item(Yellow, Range(30, 50)), Item(Orange, Range(50, 70)),
                      Item(OrangeRed, Range(70, 90)), Item(Red, AndAbove(90))]
  {
    items := BuildLegend(Grades, LegendColors);
    TablesWellFormed();
    ShippedLabels();
    assert items[0] == Item(Green, Range(-10, 10));
    assert items[1] == Item(LightGreen, Range(10, 30));
    assert items[2] == Item(Yellow, Range(30, 50));
    assert items[3] == Item(Orange, Range(50, 70));
    assert items[4] == Item(OrangeRed, Range(70, 90));
    assert items[5] == Item(Red, AndAbove(90));
  }

  /** The two tables are parallel, six long, and the grades strictly ascend. */
  lemma TablesWellFormed()
    ensures |Grades| == |LegendColors| == BandCount
    ensures StrictlyIncreasing(Grades)
    ensures Grades[1..] == Thresholds
    ensures forall i :: 0 <= i < |LegendColors| ==> Rank(LegendColors[i]) == i
  {
  }

  /** The shipped table yields `-10–10`, `10–30`, `30–50`, `50–70`, `70–90`, `90+`. */
  lemma ShippedLabels()
    ensures LabelAt(Grades, 0) == Range(-10, 10)
    ensures LabelAt(Grades, 1) == Range(10, 30)
    ensures LabelAt(Grades, 2) == Range(30, 50)
    ensures LabelAt(Grades, 3) == Range(50, 70)
    ensures LabelAt(Grades, 4) == Range(70, 90)
    ensures LabelAt(Grades, 5) == AndAbove(90)
  {
  }

  /**
   When no grade after the first is zero, exactly the last entry is
   open-ended and every other one is the range to its successor.
   */
  lemma OnlyLastOpenEnded(grades: seq<int>, i: nat)
    requires forall j :: 0 < j < |grades| ==> grades[j] != 0
    requires i < |grades|
    ensures LabelAt(grades, i).AndAbove? <==> i == |grades| - 1
    ensures i < |grades| - 1 ==> LabelAt(grades, i) == Range(grades[i], grades[i + 1])
  {
  }

  /** A zero grade is falsy, so the entry before it is labelled open-ended too. */
  lemma ZeroGradeCutsLabel(grades: seq<int>, k: nat)
    requires 0 < k < |grades| && grades[k] == 0
    ensures LabelAt(grades, k - 1) == AndAbove(grades[k - 1])
    ensures LabelAt(grades, |grades| - 1).AndAbove?
  {
  }

  /**
   Depths the classifier assigns to legend band `i`: at most 10 for the
   first band, above 90 for the last, and (Grades[i], Grades[i+1]] between.
   */
  ghost predicate InLegendBand(i: nat, d: real)
    requires i < |Grades|
  {
    && (i > 0 ==> (Grades[i] as real) < d)
    && (i + 1 < |Grades| ==> d <= (Grades[i + 1] as real))
  }

  /** The legend and the classifier agree: band `i` is exactly the depths coloured `LegendColors[i]`. */
  lemma LegendAgreesWithClassifier(i: nat, d: real)
    requires i < |Grades|
    ensures GetColor(d) == LegendColors[i] <==> InLegendBand(i, d)
  {
    TablesWellFormed();
    if InLegendBand(i, d) {
      if i > 0 {
        assert Thresholds[i - 1] == Grades[i];
      }
      if i < |Thresholds| {
        assert Thresholds[i] == Grades[i + 1];
      }
      ExceededInBand(Thresholds, i, d);
      GetColorCountsThresholds(d);
      RankRoundTrip(GetColor(d));
      RankRoundTrip(LegendColors[i]);
    }
    if GetColor(d) == LegendColors[i] {
      BandRules(d);
    }
  }

  /**
   Every depth a label names is drawn in that entry's swatch colour. One
   direction only: the first label reads `-10–10`, yet every depth at or
   below -10 is green too.
   */
  lemma LabelsDescribeBands(i: nat, d: real)
    requires i < |Grades|
    ensures LabelAt(Grades, i).Range? && (LabelAt(Grades, i).low as real) < d <= (LabelAt(Grades, i).high as real)
            ==> GetColor(d) == LegendColors[i]
    ensures LabelAt(Grades, i).AndAbove? && d > (LabelAt(Grades, i).low as real)
            ==> GetColor(d) == LegendColors[i]
  {
    TablesWellFormed();
    OnlyLastOpenEnded(Grades, i);
    LegendAgreesWithClassifier(i, d);
  }
}
