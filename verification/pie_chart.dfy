/** The category pie chart's own logic: which categories become slices, their colours, the
    two-line labels, the restyling on selection, and which clicks are passed on. */
module PieChart {
  import opened Wrappers
  import opened JsString

  /** The palette slices cycle through. */
  const FixedColors: seq<string> := ["#1D9C58", "#67C7FB", "#757EEC", "#FFAB50", "#EC5555", "#BDBDBD"]

  /** The opacity used for faded slices, as JavaScript prints it. */
  const DefaultOpacity := "0.3"

  const BaseZ := 76
  const SelectedZ := 85
  const LabelLineLength := 7

  /** A category as the chart receives it. */
  datatype PieCategory = PieCategory(name: string, amount: int)

  /** `makeColorTransparent`: a "#…" colour becomes `rgba(r, g, b, opacity)` from the first three
      two-character fields after the '#', each read by `parseInt(…, 16)` (NaN when a field has
      no hexadecimal digit); any other colour is returned as it is. */
  function MakeColorTransparent(color: string, opacityText: string): (r: string)
    ensures !StartsWith(color, "#") ==> r == color
  {
    if StartsWith(color, "#") then
      var hex := color[1..];
      RgbaText(Channel(hex, 0), Channel(hex, 2), Channel(hex, 4), opacityText)
    else color
  }

  /** `parseInt(hex.substr(start, 2), 16)`, printed. */
  function Channel(hex: string, start: nat): string {
    NumberText(ParseIntHex(Slice(hex, start, start + 2)))
  }

  /** Two hexadecimal digits at `start` print as their byte value. */
  lemma ChannelOfDigits(hex: string, start: nat)
    requires start + 2 <= |hex| && IsHexDigit(hex[start]) && IsHexDigit(hex[start + 1])
    ensures Channel(hex, start) == Decimal(HexByte(hex[start], hex[start + 1]))
  {
    var v := 16 * HexDigitValue(hex[start]) + HexDigitValue(hex[start + 1]);
    assert HexByte(hex[start], hex[start + 1]) == v;
    assert Channel(hex, start) == NumberText(Some(v)) by {
      FieldParses(hex, start);
    }
  }

  /** The two-character field at `start` parses as the byte its digits write. */
  lemma FieldParses(hex: string, start: nat)
    requires start + 2 <= |hex| && IsHexDigit(hex[start]) && IsHexDigit(hex[start + 1])
    ensures ParseIntHex(Slice(hex, start, start + 2))
      == Some(16 * HexDigitValue(hex[start]) + HexDigitValue(hex[start + 1]))
  {
    var field := Slice(hex, start, start + 2);
    assert field[0] == hex[start] && field[1] == hex[start + 1];
    ParseTwoHexDigits(field);
  }

  /** The CSS `rgba(…)` text for three printed channels and an opacity. */
  function RgbaText(red: string, green: string, blue: string, opacityText: string): string {
    "rgba(" + red + ", " + green + ", " + blue + ", " + opacityText + ")"
  }

  /** The rgba text for three byte values. */
  function Rgba(red: nat, green: nat, blue: nat, opacityText: string): string {
    RgbaText(Decimal(red), Decimal(green), Decimal(blue), opacityText)
  }

  /** The byte written by two hexadecimal digits. */
  function HexByte(a: char, b: char): (v: nat)
    requires IsHexDigit(a) && IsHexDigit(b)
    ensures v < 256
  {
    16 * HexDigitValue(a) + HexDigitValue(b)
  }

  /** A "#…" colour is faded channel by channel. */
  lemma TransparentUnfolds(color: string, opacityText: string)
    requires |color| >= 1 && color[0] == '#'
    ensures MakeColorTransparent(color, opacityText)
      == RgbaText(Channel(color[1..], 0), Channel(color[1..], 2), Channel(color[1..], 4), opacityText)
  {
    assert StartsWith(color, "#");
  }

  /** The three channels of a six-digit colour are its three bytes. */
  lemma SixDigitChannels(color: string)
    requires |color| == 7
    requires forall i :: 1 <= i < 7 ==> IsHexDigit(color[i])
    ensures Channel(color[1..], 0) == Decimal(HexByte(color[1], color[2]))
    ensures Channel(color[1..], 2) == Decimal(HexByte(color[3], color[4]))
    ensures Channel(color[1..], 4) == Decimal(HexByte(color[5], color[6]))
  {
    ColorChannel(color, 1);
    ColorChannel(color, 3);
    ColorChannel(color, 5);
  }

  /** The channel whose digits sit at `k` and `k + 1` of the colour. */
  lemma ColorChannel(color: string, k: nat)
    requires 1 <= k && k + 1 < |color|
    requires IsHexDigit(color[k]) && IsHexDigit(color[k + 1])
    ensures Channel(color[1..], k - 1) == Decimal(HexByte(color[k], color[k + 1]))
  {
    ChannelOfDigits(color[1..], k - 1);
  }

  /** A six-digit "#RRGGBB" colour becomes `rgba(r, g, b, o)` with the three decoded bytes. */
  lemma TransparentSixDigits(color: string, opacityText: string)
    requires |color| == 7 && color[0] == '#'
    requires forall i :: 1 <= i < 7 ==> IsHexDigit(color[i])
    ensures MakeColorTransparent(color, opacityText)
      == Rgba(HexByte(color[1], color[2]), HexByte(color[3], color[4]), HexByte(color[5], color[6]), opacityText)
  {
    TransparentUnfolds(color, opacityText);
    SixDigitChannels(color);
  }

  /** The upper-case hexadecimal digit of `d`. */
  function HexDigitChar(d: nat): (c: char)
    requires d < 16
    ensures IsHexDigit(c) && HexDigitValue(c) == d
  {
    if d < 10 then ('0' as int + d) as char else ('A' as int + d - 10) as char
  }

  /** "#RRGGBB" for three bytes. */
  function HexColor(red: nat, green: nat, blue: nat): (color: string)
    requires red < 256 && green < 256 && blue < 256
    ensures |color| == 7 && color[0] == '#' && forall i :: 1 <= i < 7 ==> IsHexDigit(color[i])
  {
    ['#', HexDigitChar(red / 16), HexDigitChar(red % 16), HexDigitChar(green / 16), HexDigitChar(green % 16),
     HexDigitChar(blue / 16), HexDigitChar(blue % 16)]
  }

  /** Writing three bytes as a colour and fading it gives back exactly those bytes. */
  lemma TransparentRoundTrip(red: nat, green: nat, blue: nat, opacityText: string)
    requires red < 256 && green < 256 && blue < 256
    ensures MakeColorTransparent(HexColor(red, green, blue), opacityText) == Rgba(red, green, blue, opacityText)
  {
    var color := HexColor(red, green, blue);
    TransparentSixDigits(color, opacityText);
    HexColorBytes(red, green, blue);
  }

  /** The digits of "#RRGGBB" decode to the bytes they were written from. */
  lemma HexColorBytes(red: nat, green: nat, blue: nat)
    requires red < 256 && green < 256 && blue < 256
    ensures var color := HexColor(red, green, blue);
      && HexByte(color[1], color[2]) == red
      && HexByte(color[3], color[4]) == green
      && HexByte(color[5], color[6]) == blue
  {
    var color := HexColor(red, green, blue);
    assert HexByte(color[1], color[2]) == red by { assert color[1] == HexDigitChar(red / 16) && color[2] == HexDigitChar(red % 16); }
    assert HexByte(color[3], color[4]) == green by { assert color[3] == HexDigitChar(green / 16) && color[4] == HexDigitChar(green % 16); }
    assert HexByte(color[5], color[6]) == blue by { assert color[5] == HexDigitChar(blue / 16) && color[6] == HexDigitChar(blue % 16); }
  }

  /** Every palette colour fades to its own bytes; the first palette colour, for one. */
  lemma PaletteFades()
    ensures MakeColorTransparent(FixedColors[0], DefaultOpacity) == Rgba(29, 156, 88, DefaultOpacity)
  {
    assert FixedColors[0] == HexColor(29, 156, 88);
    TransparentRoundTrip(29, 156, 88, DefaultOpacity);
  }

  /** A three-digit colour is not expanded: "#RGB" reads as the byte "RG", the lone digit "B"
      and NaN, so "#FFF" fades to "rgba(255, 15, NaN, o)". */
  lemma ShortColorIsMisread(color: string, opacityText: string)
    requires |color| == 4 && color[0] == '#'
    requires IsHexDigit(color[1]) && IsHexDigit(color[2]) && IsHexDigit(color[3])
    ensures MakeColorTransparent(color, opacityText)
      == RgbaText(Decimal(HexByte(color[1], color[2])), Decimal(HexDigitValue(color[3])), "NaN", opacityText)
  {
    TransparentUnfolds(color, opacityText);
    ColorChannel(color, 1);
    var hex := color[1..];
    assert Channel(hex, 2) == Decimal(HexDigitValue(color[3])) by {
      var field := Slice(hex, 2, 4);
      assert |field| == 1 && field[0] == color[3];
      ParseOneHexDigit(field);
    }
    assert Channel(hex, 4) == "NaN" by {
      assert Slice(hex, 4, 6) == [];
    }
  }

  /** The categories that become slices, in order: all of them for a negative pie, otherwise
      those with a positive amount. */
  function Visible(categories: seq<PieCategory>, isNegativePie: bool): (r: seq<PieCategory>)
    ensures isNegativePie ==> r == categories
    ensures |r| <= |categories|
  {
    if isNegativePie then categories else Positive(categories)
  }

  function Positive(categories: seq<PieCategory>): (r: seq<PieCategory>)
    ensures |r| <= |categories|
  {
    if |categories| == 0 then []
    else Positive(categories[..|categories| - 1])
         + (if categories[|categories| - 1].amount > 0 then [categories[|categories| - 1]] else [])
  }

  /** Outside a negative pie, a category is a slice iff its amount is positive. */
  lemma {:induction false} VisibleMembers(categories: seq<PieCategory>)
    ensures forall c :: c in Visible(categories, false) <==> c in categories && c.amount > 0
  {
    if |categories| > 0 {
      var init := categories[..|categories| - 1];
      VisibleMembers(init);
      assert categories == init + [categories[|categories| - 1]];
    }
  }

  /** When every amount is positive nothing is dropped. */
  lemma {:induction false} AllPositiveKept(categories: seq<PieCategory>)
    requires forall i :: 0 <= i < |categories| ==> categories[i].amount > 0
    ensures Visible(categories, false) == categories
  {
    if |categories| > 0 {
      AllPositiveKept(categories[..|categories| - 1]);
      assert categories == categories[..|categories| - 1] + [categories[|categories| - 1]];
    }
  }

  /** The colour of slice `index`: the single colour of a negative pie when one is given,
      otherwise the palette, cycling. */
  function SliceColor(index: nat, isNegativePie: bool, singleColor: Option<string>): (c: string)
    ensures isNegativePie && Truthy(singleColor) ==> c == singleColor.value
    ensures !(isNegativePie && Truthy(singleColor)) ==> c in FixedColors
  {
    if isNegativePie && Truthy(singleColor) then singleColor.value else FixedColors[index % |FixedColors|]
  }

  /** Slices six apart share a palette colour, and neighbouring slices never do. */
  lemma PaletteCycles(index: nat)
    ensures SliceColor(index + 6, false, None) == SliceColor(index, false, None)
    ensures SliceColor(index + 1, false, None) != SliceColor(index, false, None)
  {
    var i := index % 6;
    assert (index + 6) % 6 == i;
    assert (index + 1) % 6 == (i + 1) % 6;
  }

  /** One slice as handed to the chart. */
  datatype SeriesPoint = SeriesPoint(name: string, amount: int, z: int, color: string, categoryIndex: nat)

  /** The chart's slices; `None` when there are no categories or none survives the filter (the
      chart is then not drawn). */
  function Slices(categories: seq<PieCategory>, isNegativePie: bool, singleColor: Option<string>)
    : (r: Option<seq<SeriesPoint>>)
    ensures r.None? <==> |Visible(categories, isNegativePie)| == 0
    ensures r.Some? ==> |r.value| == |Visible(categories, isNegativePie)|
    ensures r.Some? ==> forall i :: 0 <= i < |r.value| ==>
      && r.value[i].name == Visible(categories, isNegativePie)[i].name
      && r.value[i].amount == Visible(categories, isNegativePie)[i].amount
      && r.value[i].z == BaseZ && r.value[i].categoryIndex == i
      && r.value[i].color == SliceColor(i, isNegativePie, singleColor)
  {
    var visible := Visible(categories, isNegativePie);
    if |categories| == 0 || |visible| == 0 then None
    else Some(seq(|visible|, i requires 0 <= i < |visible| =>
      SeriesPoint(visible[i].name, visible[i].amount, BaseZ, SliceColor(i, isNegativePie, singleColor), i)))
  }

  /** The negative-pie chart: one grey slice named "更多". */
  lemma NegativePieChart()
    ensures Slices([PieCategory("更多", 100)], true, Some("#BDBDBD")) ==
      Some([SeriesPoint("更多", 100, BaseZ, "#BDBDBD", 0)])
  {
    var r := Slices([PieCategory("更多", 100)], true, Some("#BDBDBD"));
    assert SliceColor(0, true, Some("#BDBDBD")) == "#BDBDBD";
    assert r.Some? && |r.value| == 1 && r.value[0] == SeriesPoint("更多", 100, BaseZ, "#BDBDBD", 0);
    assert r.value == [SeriesPoint("更多", 100, BaseZ, "#BDBDBD", 0)];
  }

  /** A slice's label: hidden for small slices, one line for names of at most seven characters,
      otherwise the first seven characters and the rest. */
  function LabelLines(name: string, isLowPercentage: bool): (lines: Option<seq<string>>)
    ensures isLowPercentage <==> lines.None?
    ensures lines.Some? ==> |lines.value| == (if |name| <= LabelLineLength then 1 else 2)
    ensures lines.Some? && |name| > LabelLineLength ==>
      |lines.value[0]| == LabelLineLength && |lines.value[1]| >= 1
  {
    if isLowPercentage then None
    else if |name| <= LabelLineLength then Some([name])
    else Some([Slice(name, 0, LabelLineLength), Slice(name, LabelLineLength, |name|)])
  }

  /** Wrapping loses and reorders nothing: the lines put together are the name. */
  lemma LabelKeepsName(name: string)
    ensures var lines := LabelLines(name, false).value;
      (if |lines| == 1 then lines[0] else lines[0] + lines[1]) == name
  {
    if |name| > LabelLineLength {
      assert name[..LabelLineLength] + name[LabelLineLength..] == name;
    }
  }

  /** A point's style after a selection change. */
  datatype PointStyle = PointStyle(z: int, color: string)

  /** The colour remembered for point `index`, or the palette colour when none is remembered. */
  function RememberedColor(originalColors: seq<string>, index: nat): string {
    if index < |originalColors| && originalColors[index] != "" then originalColors[index]
    else FixedColors[index % |FixedColors|]
  }

  /** Restyling on a selection change. With a selection (neither undefined nor -1) the selected
      point is enlarged in its own colour and every other point is small and faded; with none,
      every point is small in its own colour. */
  function Restyle(originalColors: seq<string>, pointCount: nat, selected: Option<int>): (r: seq<PointStyle>)
    ensures |r| == pointCount
    ensures selected.Some? && 0 <= selected.value < pointCount ==>
              r[selected.value] == PointStyle(SelectedZ, RememberedColor(originalColors, selected.value))
    ensures selected.Some? && selected.value != -1 ==>
              forall i :: 0 <= i < pointCount && i != selected.value ==>
                r[i] == PointStyle(BaseZ, MakeColorTransparent(RememberedColor(originalColors, i), DefaultOpacity))
    ensures selected.None? || selected.value == -1 ==>
              forall i :: 0 <= i < pointCount ==> r[i] == PointStyle(BaseZ, RememberedColor(originalColors, i))
  {
    seq(pointCount, i requires 0 <= i < pointCount =>
      var c := RememberedColor(originalColors, i);
      if selected.Some? && selected.value != -1 then
        if i == selected.value then PointStyle(SelectedZ, c) else PointStyle(BaseZ, MakeColorTransparent(c, DefaultOpacity))
      else PointStyle(BaseZ, c))
  }

  /** The number of enlarged points. */
  function EnlargedCount(styles: seq<PointStyle>): nat {
    if |styles| == 0 then 0
    else EnlargedCount(styles[..|styles| - 1]) + (if styles[|styles| - 1].z == SelectedZ then 1 else 0)
  }

  lemma {:induction false} EnlargedCountAt(styles: seq<PointStyle>, k: int)
    requires forall i :: 0 <= i < |styles| ==> (styles[i].z == SelectedZ <==> i == k)
    ensures EnlargedCount(styles) == (if 0 <= k < |styles| then 1 else 0)
  {
    if |styles| > 0 {
      EnlargedCountAt(styles[..|styles| - 1], k);
    }
  }

  /** Exactly one point is enlarged when the selection names a point, and none otherwise (no
      selection, -1, or an index past the last point, which fades every point). */
  lemma RestyleEnlargesAtMostOne(originalColors: seq<string>, pointCount: nat, selected: Option<int>)
    ensures var r := Restyle(originalColors, pointCount, selected);
      EnlargedCount(r) == (if selected.Some? && 0 <= selected.value < pointCount then 1 else 0)
  {
    var r := Restyle(originalColors, pointCount, selected);
    var k := if selected.Some? && selected.value != -1 then selected.value else -1;
    EnlargedCountAt(r, k);
  }

  /** Clearing the selection restores the slices exactly as first drawn. */
  lemma DeselectRestoresInitial(categories: seq<PieCategory>, isNegativePie: bool, singleColor: Option<string>)
    requires Slices(categories, isNegativePie, singleColor).Some?
    ensures var slices := Slices(categories, isNegativePie, singleColor).value;
      var colors := seq(|slices|, i requires 0 <= i < |slices| => slices[i].color);
      forall i :: 0 <= i < |slices| ==>
        (Restyle(colors, |slices|, None)[i] == PointStyle(slices[i].z, slices[i].color)
         && Restyle(colors, |slices|, Some(-1))[i] == PointStyle(slices[i].z, slices[i].color))
  {
    var slices := Slices(categories, isNegativePie, singleColor).value;
    forall i | 0 <= i < |slices|
      ensures slices[i].color != ""
    {
      if isNegativePie && Truthy(singleColor) {
      } else {
        assert slices[i].color in FixedColors;
      }
    }
  }

  /** A click on slice `index` is passed on, with that index into the visible slices, only when
      a handler is given and the chart is not a negative pie. */
  function ClickTarget(index: nat, isNegativePie: bool, hasHandler: bool): (r: Option<nat>)
    ensures r.Some? <==> hasHandler && !isNegativePie
    ensures r.Some? ==> r.value == index
  {
    if hasHandler && !isNegativePie then Some(index) else None
  }

  /** With every amount positive a forwarded index names the clicked category in the caller's
      list; a dropped category in front of it shifts the index. */
  lemma ClickIndexMatchesCategory(categories: seq<PieCategory>, index: nat)
    requires forall i :: 0 <= i < |categories| ==> categories[i].amount > 0
    requires index < |categories|
    ensures Visible(categories, false) == categories
    ensures var slices := Slices(categories, false, None);
      slices.Some? && |slices.value| == |categories| && slices.value[index].name == categories[ClickTarget(index, false, true).value].name
  {
    AllPositiveKept(categories);
  }

  /** With a zero-amount category first, clicking the first slice forwards index 0, which in the
      caller's list is the dropped category. */
  lemma ClickIndexShiftsPastDroppedCategory()
    ensures var categories := [PieCategory("交通", 0), PieCategory("餐飲", 500)];
      var slices := Slices(categories, false, None);
      slices.Some? && slices.value[0].name == "餐飲" && categories[ClickTarget(0, false, true).value].name == "交通"
  {
    var categories := [PieCategory("交通", 0), PieCategory("餐飲", 500)];
    assert categories[..1] == [PieCategory("交通", 0)];
    assert categories[..1][..0] == [];
    assert Positive(categories[..1]) == [];
    assert Visible(categories, false) == [PieCategory("餐飲", 500)];
  }
}
