/** The line chart's own decisions: the clamped container width, where the tooltip sits, the
    date text, which peak is highlighted, and the margin of the two axis labels. */
module LineChart {
  import opened Wrappers
  import opened JsString

  const MinWidth := 300
  const MaxWidth := 400

  /** The y offset of the tooltip, above the point. */
  const TooltipY: real := -6.0

  /** The width the chart is drawn at: the parent's width, or the initial width when the parent
      is missing or reports 0, clamped to [300, 400]. */
  function ContainerWidth(parentWidth: Option<nat>, initialWidth: int): (w: int)
    ensures MinWidth <= w <= MaxWidth
    ensures var p := if parentWidth.Some? && parentWidth.value != 0 then parentWidth.value else initialWidth;
      && (MinWidth <= p <= MaxWidth ==> w == p)
      && (p < MinWidth ==> w == MinWidth)
      && (p > MaxWidth ==> w == MaxWidth)
  {
    var p := if parentWidth.Some? && parentWidth.value != 0 then parentWidth.value else initialWidth;
    Min(MaxWidth, Max(MinWidth, p))
  }

  function Min(a: int, b: int): int { if a <= b then a else b }
  function Max(a: int, b: int): int { if a >= b then a else b }

  /** Clamping is stable: a parent already as wide as the chart keeps that width, and a wider
      parent never gives a narrower chart. */
  lemma ContainerWidthStable(parentWidth: Option<nat>, initialWidth: int, other: Option<nat>)
    ensures var w := ContainerWidth(parentWidth, initialWidth);
      ContainerWidth(Some(w), initialWidth) == w
    ensures parentWidth.Some? && other.Some? && 0 < parentWidth.value <= other.value ==>
      ContainerWidth(parentWidth, initialWidth) <= ContainerWidth(other, initialWidth)
  {
  }

  /** Where the tooltip is placed. */
  datatype TooltipPosition = TooltipPosition(x: real, y: real)

  /** The mobile tooltip positioner: centred above the point, unless the centred label would
      cross the right edge of the plot (then it ends at the point) or, failing that, the left
      edge (then it starts at the point). */
  function MobilePosition(pointPlotX: real, plotLeft: real, plotWidth: real, labelWidth: real)
    : (p: TooltipPosition)
    ensures p.y == TooltipY
    ensures var base := pointPlotX + plotLeft;
      && (base + labelWidth / 2.0 > plotLeft + plotWidth ==> p.x + labelWidth == base)
      && (base + labelWidth / 2.0 <= plotLeft + plotWidth && base - labelWidth / 2.0 < plotLeft ==> p.x == base)
      && (base + labelWidth / 2.0 <= plotLeft + plotWidth && base - labelWidth / 2.0 >= plotLeft ==>
            p.x + labelWidth / 2.0 == base)
  {
    var base := pointPlotX + plotLeft;
    var labelRight := base + labelWidth / 2.0;
    var labelLeft := base - labelWidth / 2.0;
    var plotRight := plotWidth + plotLeft;
    var x := if labelRight > plotRight then base - labelWidth
             else if labelLeft < plotLeft then base
             else labelLeft;
    TooltipPosition(x, TooltipY)
  }

  /** For a point inside the plot and a label at most two thirds as wide as the plot, the
      tooltip lies wholly inside the plot, and it always touches or straddles the point. */
  lemma TooltipStaysInPlot(pointPlotX: real, plotLeft: real, plotWidth: real, labelWidth: real)
    requires 0.0 <= labelWidth && 3.0 * labelWidth <= 2.0 * plotWidth
    requires 0.0 <= pointPlotX <= plotWidth
    ensures var p := MobilePosition(pointPlotX, plotLeft, plotWidth, labelWidth);
      && plotLeft <= p.x && p.x + labelWidth <= plotLeft + plotWidth
      && p.x <= pointPlotX + plotLeft <= p.x + labelWidth
  {
  }

  /** A label wider than the plot always ends at the point: the right-edge rule comes first. */
  lemma WideLabelEndsAtPoint(pointPlotX: real, plotLeft: real, plotWidth: real, labelWidth: real)
    requires 0.0 <= pointPlotX && labelWidth > 2.0 * plotWidth
    ensures MobilePosition(pointPlotX, plotLeft, plotWidth, labelWidth).x == pointPlotX + plotLeft - labelWidth
  {
  }

  /** The tooltip's date: "YYYY/MM/DD" with the month counted from 1 and month and day padded
      to two digits. `month` is the zero-based month of the date and `day` its day. */
  function FormatDate(year: int, month: nat, day: nat): (r: string)
    requires month < 12 && 1 <= day <= 31
    ensures |r| >= 7
    ensures r[|r| - 3] == '/' && r[|r| - 6] == '/'
  {
    NumberText(Some(year)) + "/" + PadTwo(month + 1) + "/" + PadTwo(day)
  }

  /** The three fields of a formatted date read back as the year, the one-based month and the
      day. */
  lemma FormatDateReadsBack(year: nat, month: nat, day: nat)
    requires month < 12 && 1 <= day <= 31
    ensures var parts := Split(FormatDate(year, month, day), '/');
      && |parts| == 3
      && |parts[1]| == 2 && |parts[2]| == 2
      && (forall k, i :: 0 <= k < 3 && 0 <= i < |parts[k]| ==> IsAsciiDigit(parts[k][i]))
      && DecimalValue(parts[0]) == year
      && DecimalValue(parts[1]) == month + 1
      && DecimalValue(parts[2]) == day
  {
    var y, m, d := Decimal(year), PadTwo(month + 1), PadTwo(day);
    PadTwoValue(month + 1);
    PadTwoValue(day);
    DecimalRoundTrip(year);
    DateFields(year, month, day);
    var parts := Split(FormatDate(year, month, day), '/');
    assert parts[0] == y && parts[1] == m && parts[2] == d;
  }

  /** A formatted date splits into its year, month and day texts. */
  lemma DateFields(year: nat, month: nat, day: nat)
    requires month < 12 && 1 <= day <= 31
    ensures Split(FormatDate(year, month, day), '/') == [Decimal(year), PadTwo(month + 1), PadTwo(day)]
  {
    var y, m, d := Decimal(year), PadTwo(month + 1), PadTwo(day);
    assert FormatDate(year, month, day) == y + ['/'] + m + ['/'] + d by {
      assert NumberText(Some(year)) == y;
    }
    PadTwoValue(month + 1);
    PadTwoValue(day);
    SplitThree(y, m, d, '/');
  }

  /** `i` is the first index of the largest of `values`, and `v` that value. */
  predicate IsFirstPeak(values: seq<int>, v: int, i: int) {
    && 0 <= i < |values| && values[i] == v
    && (forall j :: 0 <= j < |values| ==> values[j] <= v)
    && (forall j :: 0 <= j < i ==> values[j] < v)
  }

  /** A series has one first peak. */
  lemma FirstPeakUnique(values: seq<int>, v: int, i: int, w: int, k: int)
    requires IsFirstPeak(values, v, i) && IsFirstPeak(values, w, k)
    ensures v == w && i == k
  {
    assert values[k] <= v && values[i] <= w;
  }

  /** `Math.max(...values)` and `findIndex` of it, for a non-empty series. */
  method MaxIndex(values: seq<int>) returns (maxValue: int, index: int)
    requires |values| > 0
    ensures IsFirstPeak(values, maxValue, index)
  {
    maxValue, index := values[0], 0;
    var i := 1;
    while i < |values|
      invariant 1 <= i <= |values|
      invariant 0 <= index < i && values[index] == maxValue
      invariant forall j :: 0 <= j < i ==> values[j] <= maxValue
      invariant forall j :: 0 <= j < index ==> values[j] < maxValue
    {
      if values[i] > maxValue {
        maxValue, index := values[i], i;
      }
      i := i + 1;
    }
  }

  /** The comparison series' peak: 0 at index -1 when there is no comparison data. */
  method ComparePeak(compareData: Option<seq<int>>) returns (maxValue: int, index: int)
    ensures compareData.None? || |compareData.value| == 0 ==> maxValue == 0 && index == -1
    ensures compareData.Some? && |compareData.value| > 0 ==> IsFirstPeak(compareData.value, maxValue, index)
  {
    if compareData.Some? && |compareData.value| > 0 {
      maxValue, index := MaxIndex(compareData.value);
    } else {
      maxValue, index := 0, -1;
    }
  }

  /** Which series' peak is marked after drawing. */
  datatype Highlight = Highlight(main: bool, compare: bool)

  /** The main peak is marked when it is above the comparison peak, and the comparison peak when
      there is comparison data and its peak is above the main one. */
  function HighlightOf(maxValue: int, maxIndex: int, compareData: Option<seq<int>>,
                       compareMaxValue: int, compareMaxIndex: int): (h: Highlight)
    ensures !(h.main && h.compare)
    ensures maxValue == compareMaxValue ==> !h.main && !h.compare
    ensures h.compare ==> compareData.Some? && |compareData.value| > 0
  {
    Highlight(
      maxIndex >= 0 && maxValue > compareMaxValue,
      compareMaxIndex >= 0 && compareData.Some? && |compareData.value| > 0 && compareMaxValue > maxValue)
  }

  /** There is comparison data to draw. */
  predicate HasCompare(compareData: Option<seq<int>>) {
    compareData.Some? && |compareData.value| > 0
  }

  /** The peaks of both series and the highlight decision, for non-empty main data: a series is
      marked exactly when its peak is strictly above the other's (0 standing in for a missing
      comparison series). */
  method Peaks(data: seq<int>, compareData: Option<seq<int>>)
    returns (maxValue: int, maxIndex: int, compareMaxValue: int, compareMaxIndex: int, h: Highlight)
    requires |data| > 0
    ensures IsFirstPeak(data, maxValue, maxIndex)
    ensures HasCompare(compareData) ==> IsFirstPeak(compareData.value, compareMaxValue, compareMaxIndex)
    ensures !HasCompare(compareData) ==> compareMaxValue == 0 && compareMaxIndex == -1
    ensures h.main <==> maxValue > compareMaxValue
    ensures h.compare <==> HasCompare(compareData) && compareMaxValue > maxValue
  {
    maxValue, maxIndex := MaxIndex(data);
    compareMaxValue, compareMaxIndex := ComparePeak(compareData);
    h := HighlightOf(maxValue, maxIndex, compareData, compareMaxValue, compareMaxIndex);
  }

  /** Without comparison data a series whose values are all zero or negative gets no mark. */
  lemma NoCompareNeedsPositivePeak(data: seq<int>, maxValue: int, maxIndex: int)
    requires IsFirstPeak(data, maxValue, maxIndex)
    requires maxValue <= 0
    ensures HighlightOf(maxValue, maxIndex, None, 0, -1) == Highlight(false, false)
  {
  }

  const LeftMargin := "margin-left: 58px;"
  const RightMargin := "margin-right: 58px;"

  /** The inline style of an x-axis label: the first label is pushed right, the last pushed
      left, and the last rule wins when one label is both. */
  function AxisLabelStyle(isFirst: bool, isLast: bool): (style: string)
    ensures style == ";" <==> !isFirst && !isLast
  {
    var margin := if isLast then RightMargin else if isFirst then LeftMargin else "";
    margin + ";"
  }

  /** The right margin goes to the last label, the only label included; the left margin to a
      first label that is not also the last. */
  lemma AxisLabelMargins(isFirst: bool, isLast: bool)
    ensures StartsWith(AxisLabelStyle(isFirst, isLast), RightMargin) <==> isLast
    ensures StartsWith(AxisLabelStyle(isFirst, isLast), LeftMargin) <==> isFirst && !isLast
  {
    var style := AxisLabelStyle(isFirst, isLast);
    assert RightMargin[7] != LeftMargin[7];
    if isLast {
      assert style[..|RightMargin|] == RightMargin;
    } else if isFirst {
      assert style[..|LeftMargin|] == LeftMargin;
    }
  }
}
