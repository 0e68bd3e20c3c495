/**
 * The age-group column chart: for each age group three bars (skilled,
 * family, humanitarian) side by side inside the group's band, all standing
 * on the chart's base line.
 */
module AgeGroupChart {
  import opened Wrappers
  import Stats
  import Scales
  import Text

  datatype AgeGroup = AgeGroup(ageGroup: string, skilled: int, family: int, humanitarian: int)

  const AgeGroupsData: seq<AgeGroup> := [
    AgeGroup("14 and under", 193300, 40800, 31700),
    AgeGroup("15-19", 100500, 29800, 24800),
    AgeGroup("20-24", 94200, 40700, 29300),
    AgeGroup("25-29", 108800, 84600, 29500),
    AgeGroup("30-34", 232700, 151300, 30400),
    AgeGroup("35-39", 319100, 163700, 30600),
    AgeGroup("40-44", 262200, 131200, 25600),
    AgeGroup("45-49", 189800, 92600, 22100),
    AgeGroup("50-54", 129700, 58800, 17900),
    AgeGroup("55-59", 76600, 39400, 13700),
    AgeGroup("60-64", 33800, 34000, 10000),
    AgeGroup("65 and over", 20300, 95500, 18000)
  ]

  const ChartHeight: real := 400.0

  datatype Category = Skilled | Family | Humanitarian

  function Count(r: AgeGroup, c: Category): int
  {
    match c
    case Skilled => r.skilled
    case Family => r.family
    case Humanitarian => r.humanitarian
  }

  /** `d3.max([d.skilled, d.family, d.humanitarian])`. */
  function GroupMax(r: AgeGroup): Option<int>
  {
    Stats.Max([r.skilled, r.family, r.humanitarian])
  }

  function GroupMaxima(rows: seq<AgeGroup>): (ms: seq<Option<int>>)
    ensures |ms| == |rows| && forall i :: 0 <= i < |rows| ==> ms[i] == GroupMax(rows[i])
  {
    seq(|rows|, i requires 0 <= i < |rows| => GroupMax(rows[i]))
  }

  /** The y-domain's upper end before `.nice()`: `d3.max` over the groups of the group's largest count. */
  function YMax(rows: seq<AgeGroup>): Option<int>
  {
    Stats.MaxPresent(GroupMaxima(rows))
  }

  /** The group maximum bounds each of the three counts and is one of them. */
  lemma GroupMaxBounds(r: AgeGroup, c: Category)
    ensures GroupMax(r).Some?
    ensures Count(r, c) <= GroupMax(r).value
    ensures GroupMax(r).value in {r.skilled, r.family, r.humanitarian}
  {
    var xs := [r.skilled, r.family, r.humanitarian];
    var k :| 0 <= k < 3 && xs[k] == GroupMax(r).value;
    assert Count(r, c) in xs;
  }

  predicate AtMost(r: AgeGroup, bound: int)
  {
    r.skilled <= bound && r.family <= bound && r.humanitarian <= bound
  }

  /** A bound on the three counts bounds the group maximum. */
  lemma GroupMaxAtMost(r: AgeGroup, v: int)
    requires AtMost(r, v)
    ensures GroupMax(r).Some? && GroupMax(r).value <= v
  {
    var xs := [r.skilled, r.family, r.humanitarian];
    var k :| 0 <= k < 3 && xs[k] == GroupMax(r).value;
  }

  /** The y-domain bounds every count of every group and is attained by some count. */
  lemma YMaxBounds(rows: seq<AgeGroup>)
    requires |rows| > 0
    ensures YMax(rows).Some?
    ensures forall i, c :: 0 <= i < |rows| ==> Count(rows[i], c) <= YMax(rows).value
    ensures exists i, c :: 0 <= i < |rows| && Count(rows[i], c) == YMax(rows).value
  {
    GroupMaxBounds(rows[0], Skilled);
    assert GroupMaxima(rows)[0].Some?;
    forall i, c | 0 <= i < |rows|
      ensures Count(rows[i], c) <= YMax(rows).value
    {
      GroupMaxBounds(rows[i], c);
      assert GroupMaxima(rows)[i] == GroupMax(rows[i]);
    }
    var i :| 0 <= i < |rows| && GroupMaxima(rows)[i] == Some(YMax(rows).value);
    GroupMaxBounds(rows[i], Skilled);
    var c := if GroupMax(rows[i]).value == rows[i].skilled then Skilled
             else if GroupMax(rows[i]).value == rows[i].family then Family
             else Humanitarian;
    assert Count(rows[i], c) == YMax(rows).value;
  }

  /** No count in the chart's table exceeds 319100. */
  lemma TableAtMost(k: nat)
    requires k < |AgeGroupsData|
    ensures AtMost(AgeGroupsData[k], 319100)
  {
  }

  /** A count that no other count exceeds is the y-domain's end. */
  lemma YMaxIsBound(rows: seq<AgeGroup>, k: nat, c: Category, v: int)
    requires k < |rows| && Count(rows[k], c) == v
    requires forall i :: 0 <= i < |rows| ==> AtMost(rows[i], v)
    ensures YMax(rows) == Some(v)
  {
    var maxima := GroupMaxima(rows);
    GroupMaxBounds(rows[k], c);
    GroupMaxAtMost(rows[k], v);
    forall i | 0 <= i < |maxima| && maxima[i].Some?
      ensures maxima[i].value <= v
    {
      GroupMaxAtMost(rows[i], v);
    }
    Stats.MaxPresentIs(maxima, k, v);
  }

  /** For the chart's table the domain ends at 319100, the skilled count of the 35-39 group. */
  lemma AgeGroupsYMax()
    ensures YMax(AgeGroupsData) == Some(319100)
  {
    forall i | 0 <= i < |AgeGroupsData|
      ensures AtMost(AgeGroupsData[i], 319100)
    {
      TableAtMost(i);
    }
    YMaxIsBound(AgeGroupsData, 5, Skilled, 319100);
  }

  /** `yScale`: [0, m] onto [chartHeight, 0]. */
  function YScale(m: int): Scales.Linear
    requires m > 0
  {
    Scales.FromZero(m, ChartHeight, 0.0)
  }

  /** The x offset within the band: a quarter, a half and three quarters of the bandwidth. */
  function Offset(c: Category, bandwidth: real): real
  {
    match c
    case Skilled => bandwidth / 4.0
    case Family => bandwidth / 2.0
    case Humanitarian => 3.0 * bandwidth / 4.0
  }

  datatype Rect = Rect(x: real, y: real, width: real, height: real)

  /** The bar of a category in a group, relative to the group's band start. */
  function SubBar(r: AgeGroup, c: Category, bandwidth: real, m: int): (b: Rect)
    requires m > 0
    ensures b.x == Offset(c, bandwidth) && b.width == bandwidth / 4.0
  {
    var y := Scales.Apply(YScale(m), Count(r, c) as real);
    Rect(Offset(c, bandwidth), y, bandwidth / 4.0, ChartHeight - y)
  }

  /** Every bar stands on the base line. */
  lemma OnBaseLine(r: AgeGroup, c: Category, bandwidth: real, m: int)
    requires m > 0
    ensures SubBar(r, c, bandwidth, m).y + SubBar(r, c, bandwidth, m).height == ChartHeight
  {
  }

  /** A count inside the domain gives a bar of non-negative height that fits in the chart. */
  lemma InsideChart(r: AgeGroup, c: Category, bandwidth: real, m: int)
    requires m > 0 && 0 <= Count(r, c) <= m
    ensures 0.0 <= SubBar(r, c, bandwidth, m).y
    ensures 0.0 <= SubBar(r, c, bandwidth, m).height <= ChartHeight
  {
    Scales.InRange(YScale(m), Count(r, c) as real);
  }

  /** The position of a category, left to right. */
  function Slot(c: Category): nat
  {
    match c
    case Skilled => 1
    case Family => 2
    case Humanitarian => 3
  }

  /**
   * Bar c occupies [slot/4, (slot+1)/4] of the band: the three bars are
   * pairwise disjoint, in category order, and all inside [0, bandwidth].
   */
  lemma SubBarsLayout(r: AgeGroup, c: Category, d: Category, bandwidth: real, m: int)
    requires m > 0 && bandwidth >= 0.0
    ensures SubBar(r, c, bandwidth, m).x == Slot(c) as real * bandwidth / 4.0
    ensures 0.0 <= SubBar(r, c, bandwidth, m).x
    ensures SubBar(r, c, bandwidth, m).x + SubBar(r, c, bandwidth, m).width <= bandwidth
    ensures Slot(c) < Slot(d) ==>
              SubBar(r, c, bandwidth, m).x + SubBar(r, c, bandwidth, m).width <= SubBar(r, d, bandwidth, m).x
  {
  }

  /** The tooltip every bar of a group shows, whichever of the three is hovered. */
  function GroupTooltip(r: AgeGroup): string
  {
    "<strong>" + r.ageGroup + "</strong><br>"
    + "Skilled: " + Text.Show(r.skilled) + "<br>"
    + "Family: " + Text.Show(r.family) + "<br>"
    + "Humanitarian: " + Text.Show(r.humanitarian)
  }

  /** The tooltip ends with the humanitarian count, which reads back from its last line. */
  lemma GroupTooltipEnds(r: AgeGroup)
    ensures var tip := GroupTooltip(r);
            var shown := Text.Show(r.humanitarian);
            && |shown| <= |tip| && Text.ParseInt(tip[|tip| - |shown|..]) == r.humanitarian
  {
    var tip := GroupTooltip(r);
    assert tip[|tip| - |Text.Show(r.humanitarian)|..] == Text.Show(r.humanitarian);
    Text.ParseShow(r.humanitarian);
  }
}
