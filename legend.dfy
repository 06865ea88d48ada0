/**
 The legend: one HTML row per value of the magnitude scale 0, 1, ..., 5, each
 holding a colour swatch and the range that colour stands for ("0&ndash;1",
 ..., "5+"). The legend is the HTML the loop appends to the legend's
 container, as written; the container itself, and the re-serialised text a
 browser gives back when it is read, are not modelled.
 */
module Legend {
  import opened Magnitude
  import opened Decimal

  /** The scale the legend is drawn for. */
  const MagnitudeScale: seq<nat> := [0, 1, 2, 3, 4, 5]

  /** What reading the scale at an index yields: past the end JavaScript
      yields `undefined`. */
  datatype Slot = Undefined | Number(value: nat)

  function At(scale: seq<nat>, j: nat): (v: Slot)
    ensures v.Number? <==> j < |scale|
  {
    if j < |scale| then Number(scale[j]) else Undefined
  }

  /** JavaScript truthiness of a slot: `undefined` and 0 are false. */
  predicate Truthy(v: Slot)
  {
    v.Number? && v.value != 0
  }

  /** The colour swatch that opens a row. */
  function Swatch(color: string): (s: string)
  {
    "<i style=\"background:" + color + "\"></i> "
  }

  /** Row `i` as the loop writes it: the label is a range up to the next scale
      value when that value is truthy, and "+" otherwise. */
  function Row(scale: seq<nat>, i: nat): (row: string)
    requires i < |scale|
  {
    var next := At(scale, i + 1);
    Swatch(MagnitudeColor(scale[i] as real)) + NatToString(scale[i]) +
    (if Truthy(next) then "&ndash;" + NatToString(next.value) + "<br>" else "+")
  }

  /** The text after the first `n` iterations of the loop. */
  function Rows(scale: seq<nat>, n: nat): (text: string)
    requires n <= |scale|
  {
    if n == 0 then "" else Rows(scale, n - 1) + Row(scale, n - 1)
  }

  /** The test `scale[i + 1] ? ... : '+'` holds exactly when there is a next
      scale value and it is not 0. */
  lemma TruthyNext(scale: seq<nat>, i: nat)
    ensures Truthy(At(scale, i + 1)) <==> i + 1 < |scale| && scale[i + 1] != 0
  {
  }

  /** A swatch holds its colour verbatim, after `<i style="background:`. */
  lemma SwatchShape(color: string)
    ensures |Swatch(color)| == 21 + |color| + 7
    ensures Swatch(color)[..21] == "<i style=\"background:"
    ensures Swatch(color)[21..21 + |color|] == color
    ensures Swatch(color)[21 + |color|..] == "\"></i> "
  {
    var s := Swatch(color);
    assert s == "<i style=\"background:" + color + "\"></i> ";
  }

  /** A row opens with the swatch of its scale value's colour and the value
      itself; it closes with "&ndash;", the next value and a line break when the
      next value is truthy, and with "+" otherwise, so it ends in '+' exactly
      when the next value is not truthy. */
  lemma RowShape(scale: seq<nat>, i: nat)
    requires i < |scale|
    ensures var head := Swatch(MagnitudeColor(scale[i] as real)) + NatToString(scale[i]);
      |head| < |Row(scale, i)| && Row(scale, i)[..|head|] == head
    ensures var next := At(scale, i + 1);
      Truthy(next) ==> (Row(scale, i) == Swatch(MagnitudeColor(scale[i] as real)) + NatToString(scale[i])
        + ("&ndash;" + NatToString(next.value) + "<br>"))
    ensures !Truthy(At(scale, i + 1)) ==> Row(scale, i) == Swatch(MagnitudeColor(scale[i] as real)) + NatToString(scale[i]) + "+"
    ensures Row(scale, i)[|Row(scale, i)| - 1] == '+' <==> !Truthy(At(scale, i + 1))
  {
    var head := Swatch(MagnitudeColor(scale[i] as real)) + NatToString(scale[i]);
    var next := At(scale, i + 1);
    var tail := if Truthy(next) then "&ndash;" + NatToString(next.value) + "<br>" else "+";
    assert Row(scale, i) == head + tail;
    assert (head + tail)[..|head|] == head;
    assert (head + tail)[|head + tail| - 1] == tail[|tail| - 1];
  }

  /** The legend's `onAdd`: appends one row per scale value to the container's
      text, which starts empty. */
  method LegendOnAdd() returns (html: string)
    ensures html == Rows(MagnitudeScale, |MagnitudeScale|)
  {
    var scale := MagnitudeScale;
    html := "";
    var i := 0;
    while i < |scale|
      invariant i <= |scale|
      invariant html == Rows(scale, i)
    {
      html := html + Row(scale, i);
      i := i + 1;
    }
  }

  /** Each iteration only appends: the text after `i` iterations is a prefix of
      the text after any later iteration. */
  lemma {:induction false} RowsOnlyAppend(scale: seq<nat>, i: nat, j: nat)
    requires i <= j <= |scale|
    ensures |Rows(scale, i)| <= |Rows(scale, j)|
    ensures Rows(scale, j)[..|Rows(scale, i)|] == Rows(scale, i)
    decreases j
  {
    if i < j {
      RowsOnlyAppend(scale, i, j - 1);
    }
  }

  /** Row `i` stands in the text after `n > i` iterations right where the
      text after `i` iterations ends: the rows appear in scale order. */
  lemma {:induction false} RowsAt(scale: seq<nat>, n: nat, i: nat)
    requires i < n <= |scale|
    ensures |Rows(scale, i)| + |Row(scale, i)| <= |Rows(scale, n)|
    ensures Rows(scale, n)[|Rows(scale, i)|..|Rows(scale, i)| + |Row(scale, i)|] == Row(scale, i)
  {
    var before, row, upto := Rows(scale, i), Row(scale, i), Rows(scale, i + 1);
    assert upto == before + row;
    RowsOnlyAppend(scale, i + 1, n);
    SliceAfterPrefix(before, row, upto, Rows(scale, n));
  }

  /** If `d` is `a + b` and begins `c`, then `b` stands in `c` right after `a`. */
  lemma SliceAfterPrefix(a: string, b: string, d: string, c: string)
    requires d == a + b && |d| <= |c| && c[..|d|] == d
    ensures |a| + |b| <= |c| && c[|a|..|a| + |b|] == b
  {
    assert c[|a|..|a| + |b|] == d[|a|..];
  }

  /** The label the legend is designed to show for bucket `i`: "i&ndash;(i+1)"
      and a line break below the top bucket, "5+" for it. */
  function RangeLabel(i: nat): (text: string)
  {
    NatToString(i) + RangeEnd(i)
  }

  /** What follows the lower end of the range of bucket `i`. */
  function RangeEnd(i: nat): (text: string)
  {
    if i + 1 < |Palette| then "&ndash;" + NatToString(i + 1) + "<br>" else "+"
  }

  /** The row designed for bucket `i`: its colour and its range. */
  function DesignedRow(i: nat): (row: string)
    requires i < |Palette|
  {
    Swatch(Palette[i]) + RangeLabel(i)
  }

  /** The magnitudes the label of row `i` names: [i, i + 1), or [5, infinity)
      for the last row. */
  predicate Labels(i: nat, m: real)
  {
    i < |Palette| && i as real <= m && (i + 1 == |Palette| || m < (i + 1) as real)
  }

  /** The next-value truthiness test picks the range label on every row but the
      last: no later scale value is 0. */
  lemma NextTruthyUnlessLast(i: nat)
    requires i < |MagnitudeScale|
    ensures Truthy(At(MagnitudeScale, i + 1)) <==> i + 1 < |MagnitudeScale|
  {
  }

  /** The classifier gives scale value `i` the colour of bucket `i`. */
  lemma ScaleValueColor(i: nat)
    requires i < |Palette|
    ensures MagnitudeColor(i as real) == Palette[i]
  {
    ColorMatchesBucket(i as real);
    BucketExactly(i, i as real);
  }

  /** Row `i` that the loop writes is the row designed for bucket `i`. */
  lemma {:induction false} RowMatchesDesign(i: nat)
    requires i < |MagnitudeScale|
    ensures Row(MagnitudeScale, i) == DesignedRow(i)
  {
    var scale := MagnitudeScale;
    assert scale[i] == i;
    ScaleValueColor(i);
    RowShape(scale, i);
    NextTruthyUnlessLast(i);
    var swatch, value := Swatch(Palette[i]), NatToString(i);
    var tail := RangeEnd(i);
    if i + 1 < |scale| {
      assert At(scale, i + 1).value == i + 1;
    }
    assert Row(scale, i) == (swatch + value) + tail;
    ConcatAssoc(swatch, value, tail);
  }

  lemma ConcatAssoc(a: string, b: string, c: string)
    ensures (a + b) + c == a + (b + c)
  {
  }

  /** The whole legend: six rows, one per bucket, in ascending order. */
  lemma {:induction false} LegendIsDesignedRows()
    ensures |MagnitudeScale| == |Palette| == 6
    ensures forall i :: 0 <= i < |MagnitudeScale| ==> MagnitudeScale[i] == i
    ensures Rows(MagnitudeScale, 6) == DesignedRow(0) + DesignedRow(1) + DesignedRow(2)
      + DesignedRow(3) + DesignedRow(4) + DesignedRow(5)
  {
    var scale := MagnitudeScale;
    RowMatchesDesign(0);
    RowMatchesDesign(1);
    RowMatchesDesign(2);
    RowMatchesDesign(3);
    RowMatchesDesign(4);
    RowMatchesDesign(5);
    assert Rows(scale, 1) == DesignedRow(0);
    assert Rows(scale, 2) == Rows(scale, 1) + DesignedRow(1);
    assert Rows(scale, 3) == Rows(scale, 2) + DesignedRow(2);
    assert Rows(scale, 4) == Rows(scale, 3) + DesignedRow(3);
    assert Rows(scale, 5) == Rows(scale, 4) + DesignedRow(4);
    assert Rows(scale, 6) == Rows(scale, 5) + DesignedRow(5);
  }

  /** The decimal text of each scale value is its single digit. */
  lemma ScaleDigits()
    ensures NatToString(0) == "0" && NatToString(1) == "1" && NatToString(2) == "2"
    ensures NatToString(3) == "3" && NatToString(4) == "4" && NatToString(5) == "5"
  {
  }

  /** The end of each range label. */
  lemma RangeEndTexts()
    ensures RangeEnd(0) == "&ndash;1<br>" && RangeEnd(1) == "&ndash;2<br>"
    ensures RangeEnd(2) == "&ndash;3<br>" && RangeEnd(3) == "&ndash;4<br>"
    ensures RangeEnd(4) == "&ndash;5<br>" && RangeEnd(5) == "+"
  {
    ScaleDigits();
    assert RangeEnd(0) == "&ndash;" + "1" + "<br>";
    assert RangeEnd(1) == "&ndash;" + "2" + "<br>";
    assert RangeEnd(2) == "&ndash;" + "3" + "<br>";
    assert RangeEnd(3) == "&ndash;" + "4" + "<br>";
    assert RangeEnd(4) == "&ndash;" + "5" + "<br>";
  }

  /** The range label of each bucket, as the page shows it. */
  lemma RangeLabelTexts()
    ensures RangeLabel(0) == "0&ndash;1<br>" && RangeLabel(1) == "1&ndash;2<br>"
    ensures RangeLabel(2) == "2&ndash;3<br>" && RangeLabel(3) == "3&ndash;4<br>"
    ensures RangeLabel(4) == "4&ndash;5<br>" && RangeLabel(5) == "5+"
  {
    ScaleDigits();
    RangeEndTexts();
    assert RangeLabel(0) == "0" + "&ndash;1<br>";
    assert RangeLabel(1) == "1" + "&ndash;2<br>";
    assert RangeLabel(2) == "2" + "&ndash;3<br>";
    assert RangeLabel(3) == "3" + "&ndash;4<br>";
    assert RangeLabel(4) == "4" + "&ndash;5<br>";
    assert RangeLabel(5) == "5" + "+";
  }

  /** Each designed row is its bucket's swatch and its range label. */
  lemma DesignedRowTexts()
    ensures DesignedRow(0) == Swatch("#7dcea0") + "0&ndash;1<br>"
    ensures DesignedRow(1) == Swatch("#f7dc6f") + "1&ndash;2<br>"
    ensures DesignedRow(2) == Swatch("#f5b041") + "2&ndash;3<br>"
    ensures DesignedRow(3) == Swatch("#f39c12") + "3&ndash;4<br>"
    ensures DesignedRow(4) == Swatch("#e67e22") + "4&ndash;5<br>"
    ensures DesignedRow(5) == Swatch("#d35400") + "5+"
  {
    RangeLabelTexts();
  }

  /** The legend text: each bucket's swatch followed by its range label. */
  lemma LegendText()
    ensures Rows(MagnitudeScale, |MagnitudeScale|) ==
      (Swatch("#7dcea0") + "0&ndash;1<br>") +
      (Swatch("#f7dc6f") + "1&ndash;2<br>") +
      (Swatch("#f5b041") + "2&ndash;3<br>") +
      (Swatch("#f39c12") + "3&ndash;4<br>") +
      (Swatch("#e67e22") + "4&ndash;5<br>") +
      (Swatch("#d35400") + "5+")
  {
    LegendIsDesignedRows();
    DesignedRowTexts();
  }

  /** Every non-negative magnitude is named by exactly one row, the row of its
      bucket, and that row's swatch is the colour the classifier gives the
      magnitude: the swatch of row i is the colour of all of [i, i + 1). */
  lemma SwatchAgreesWithClassifier(m: real)
    requires 0.0 <= m
    ensures Labels(BucketOf(m), m)
    ensures forall i: nat :: Labels(i, m) ==> i == BucketOf(m)
    ensures forall i: nat :: Labels(i, m) ==> MagnitudeColor(m) == MagnitudeColor(MagnitudeScale[i] as real)
    ensures Row(MagnitudeScale, BucketOf(m)) == Swatch(MagnitudeColor(m)) + RangeLabel(BucketOf(m))
  {
    var k := BucketOf(m);
    ColorMatchesBucket(m);
    BucketExactly(k, m);
    RowMatchesDesign(k);
    forall i: nat | Labels(i, m)
      ensures i == k && MagnitudeColor(m) == MagnitudeColor(MagnitudeScale[i] as real)
    {
      BucketExactly(i, m);
      BucketExactly(i, i as real);
      ColorMatchesBucket(i as real);
    }
  }

  /** A negative magnitude is named by no row, yet it gets the colour of the
      first row: the classifier's default bucket reaches below the legend. */
  lemma NegativeMagnitudeUnlabelled(m: real)
    requires m < 0.0
    ensures forall i: nat :: !Labels(i, m)
    ensures MagnitudeColor(m) == Palette[0]
  {
  }

  /** The label test is truthiness, not "is this the last row": on a scale with
      a later 0 a row that is not the last would still end in "+". */
  lemma TruthinessLabelsZeroAsLast(scale: seq<nat>, i: nat)
    requires i + 1 < |scale| && scale[i + 1] == 0
    ensures Row(scale, i) == Swatch(MagnitudeColor(scale[i] as real)) + NatToString(scale[i]) + "+"
  {
  }
}
