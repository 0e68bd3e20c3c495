/**
 * The population-components bar chart of New South Wales local government
 * areas: one row per area with natural increase, net internal migration
 * and net overseas migration; a signed, padded y-domain; a zero line; three
 * bars per area; and a hover rule that highlights one series and fades the
 * other two.
 */
module PopulationEffect {
  import opened Wrappers
  import Stats
  import Scales
  import Text

  /** Plot area: 1060 x 820 less 50 pixels of margin on every side. */
  const Width: real := 960.0
  const Height: real := 720.0
  /** Head-room added below the smallest and above the largest value. */
  const Padding: int := 1000
  /** Vertical position of the area-name labels under the plot. */
  const LabelY: real := Height + 45.0

  /** A field of a parsed CSV row: text as read, or a number once coerced. */
  datatype Cell = Raw(text: string) | Number(value: int)

  /** One CSV row: the area name and the three component columns. */
  datatype AreaRow = AreaRow(area: string, natural: Cell, internal: Cell, overseas: Cell)

  predicate Coerced(r: AreaRow)
  {
    r.natural.Number? && r.internal.Number? && r.overseas.Number?
  }

  /** Unary `+` on a field: text is converted, a number stays what it is. */
  function Coerce(c: Cell, toNumber: string -> int): (r: Cell)
    ensures r.Number?
    ensures c.Number? ==> r == c
  {
    match c
    case Raw(s) => Number(toNumber(s))
    case Number(_) => c
  }

  /** The three assignments applied to one row. */
  function CoerceRow(r: AreaRow, toNumber: string -> int): (c: AreaRow)
    ensures Coerced(c)
    ensures c.area == r.area
    ensures Coerced(r) ==> c == r
  {
    r.(natural := Coerce(r.natural, toNumber),
       internal := Coerce(r.internal, toNumber),
       overseas := Coerce(r.overseas, toNumber))
  }

  /** Coercing twice is coercing once. */
  lemma CoerceRowIdempotent(r: AreaRow, toNumber: string -> int)
    ensures CoerceRow(CoerceRow(r, toNumber), toNumber) == CoerceRow(r, toNumber)
  {
  }

  /** The `forEach` that rewrites the numeric fields of every row in place. */
  method CoerceAll(data: array<AreaRow>, toNumber: string -> int)
    modifies data
    ensures forall i :: 0 <= i < data.Length ==> data[i] == CoerceRow(old(data[i]), toNumber)
    ensures forall i :: 0 <= i < data.Length ==> Coerced(data[i]) && data[i].area == old(data[i].area)
  {
    for i := 0 to data.Length
      invariant forall j :: 0 <= j < i ==> data[j] == CoerceRow(old(data[j]), toNumber)
      invariant forall j :: i <= j < data.Length ==> data[j] == old(data[j])
    {
      data[i] := CoerceRow(data[i], toNumber);
    }
  }

  /** The argument list `0, internal, overseas, natural` of the min/max calls. */
  function Values(r: AreaRow): (vs: seq<int>)
    requires Coerced(r)
    ensures |vs| == 4 && vs[0] == 0
  {
    [0, r.internal.value, r.overseas.value, r.natural.value]
  }

  function RowLow(r: AreaRow): int
    requires Coerced(r)
  {
    Stats.Smallest(Values(r))
  }

  function RowHigh(r: AreaRow): int
    requires Coerced(r)
  {
    Stats.Largest(Values(r))
  }

  predicate AllCoerced(rows: seq<AreaRow>)
  {
    forall i :: 0 <= i < |rows| ==> Coerced(rows[i])
  }

  /** Math.min(0, values) and Math.max(0, values) bound zero and each value of the row. */
  lemma RowBounds(r: AreaRow)
    requires Coerced(r)
    ensures RowLow(r) <= 0 <= RowHigh(r)
    ensures RowLow(r) <= r.internal.value <= RowHigh(r)
    ensures RowLow(r) <= r.overseas.value <= RowHigh(r)
    ensures RowLow(r) <= r.natural.value <= RowHigh(r)
  {
    var vs := Values(r);
    assert vs[1] == r.internal.value && vs[2] == r.overseas.value && vs[3] == r.natural.value;
  }

  datatype Domain = Domain(lo: int, hi: int)

  /** Zero and every value of the row lie in [lo, hi]. */
  predicate Covers(d: Domain, r: AreaRow)
    requires Coerced(r)
  {
    && d.lo <= 0 <= d.hi
    && d.lo <= r.internal.value <= d.hi
    && d.lo <= r.overseas.value <= d.hi
    && d.lo <= r.natural.value <= d.hi
  }

  function Lows(rows: seq<AreaRow>): (lows: seq<int>)
    requires AllCoerced(rows)
    ensures |lows| == |rows| && forall i :: 0 <= i < |rows| ==> lows[i] == RowLow(rows[i])
  {
    seq(|rows|, i requires 0 <= i < |rows| => RowLow(rows[i]))
  }

  function Highs(rows: seq<AreaRow>): (highs: seq<int>)
    requires AllCoerced(rows)
    ensures |highs| == |rows| && forall i :: 0 <= i < |rows| ==> highs[i] == RowHigh(rows[i])
  {
    seq(|rows|, i requires 0 <= i < |rows| => RowHigh(rows[i]))
  }

  /**
   * The y-domain: the smallest of `min(0, values)` over the rows less the
   * padding, and the largest of `max(0, values)` plus the padding. With no
   * rows `d3.min` is `undefined` and no domain results.
   */
  function YDomain(rows: seq<AreaRow>): (d: Option<Domain>)
    requires AllCoerced(rows)
    ensures d.None? <==> |rows| == 0
  {
    match (Stats.Min(Lows(rows)), Stats.Max(Highs(rows)))
    case (Some(lo), Some(hi)) => Some(Domain(lo - Padding, hi + Padding))
    case _ => None
  }

  /**
   * The domain reaches at least the padding below and above zero, and
   * shrunk by the padding it still covers every row, tightly on both sides.
   */
  lemma YDomainBounds(rows: seq<AreaRow>)
    requires AllCoerced(rows) && |rows| > 0
    ensures var d := YDomain(rows).value;
            && d.lo <= -Padding && Padding <= d.hi
            && (forall i :: 0 <= i < |rows| ==> Covers(Domain(d.lo + Padding, d.hi - Padding), rows[i]))
            && (exists i :: 0 <= i < |rows| && RowLow(rows[i]) == d.lo + Padding)
            && (exists i :: 0 <= i < |rows| && RowHigh(rows[i]) == d.hi - Padding)
  {
    var d := YDomain(rows).value;
    var lows, highs := Lows(rows), Highs(rows);
    var lo, hi := Stats.Min(lows).value, Stats.Max(highs).value;
    assert d == Domain(lo - Padding, hi + Padding);
    forall i | 0 <= i < |rows|
      ensures Covers(Domain(lo, hi), rows[i])
    {
      RowBounds(rows[i]);
      assert lo <= lows[i] && highs[i] <= hi;
    }
    RowBounds(rows[0]);
    assert lo <= lows[0] && highs[0] <= hi;
  }

  /** A row whose values and zero span -500 to 1000 gives the domain [-1500, 2000]. */
  lemma YDomainExample()
    ensures YDomain([AreaRow("A", Number(-500), Number(200), Number(1000))]) == Some(Domain(-1500, 2000))
  {
    var r := AreaRow("A", Number(-500), Number(200), Number(1000));
    var vs := Values(r);
    assert vs == [0, 200, 1000, -500];
    var lo, hi := RowLow(r), RowHigh(r);
    RowBounds(r);
    var k :| 0 <= k < 4 && vs[k] == lo;
    var l :| 0 <= l < 4 && vs[l] == hi;
    assert lo == -500 && hi == 1000;
    assert Lows([r]) == [-500] && Highs([r]) == [1000];
  }

  /** A domain the scale can use: it spans zero strictly. */
  predicate Usable(d: Domain)
  {
    d.lo < 0 < d.hi
  }

  /** `y`: the domain onto [Height, 0]. */
  function YScale(d: Domain): (s: Scales.Linear)
    requires Usable(d)
    ensures Scales.Inverted(s)
  {
    Scales.Linear(d.lo as real, d.hi as real, Height, 0.0)
  }

  function Y(d: Domain, v: int): real
    requires Usable(d)
  {
    Scales.Apply(YScale(d), v as real)
  }

  datatype Segment = Segment(x1: real, y1: real, x2: real, y2: real)

  /** The horizontal line at value 0 across the whole plot width. */
  function ZeroLine(d: Domain): (l: Segment)
    requires Usable(d)
    ensures l.x1 == 0.0 && l.x2 == Width
    ensures l.y1 == l.y2 == Y(d, 0)
    ensures 0.0 < l.y1 < Height
  {
    var s := YScale(d);
    Scales.Ends(s);
    Scales.Decreasing(s, d.lo as real, 0.0);
    Scales.Decreasing(s, 0.0, d.hi as real);
    Segment(0.0, Y(d, 0), Width, Y(d, 0))
  }

  datatype Rect = Rect(x: real, y: real, width: real, height: real)

  function MinOf(a: real, b: real): real
  {
    if a <= b then a else b
  }

  /**
   * The natural-increase bar: from the zero line up to the value when it is
   * positive, down to it when it is negative, and flat when it is zero.
   */
  function NaturalBar(r: AreaRow, d: Domain, bandStart: real, bandwidth: real): (b: Rect)
    requires Coerced(r) && Usable(d)
    ensures b.x == bandStart && b.width == bandwidth
    ensures b.height >= 0.0
    ensures b.height == 0.0 <==> r.natural.value == 0
    ensures r.natural.value >= 0 ==> b.y == Y(d, r.natural.value) && b.y + b.height == Y(d, 0)
    ensures r.natural.value <= 0 ==> b.y == Y(d, 0) && b.y + b.height == Y(d, r.natural.value)
  {
    var v := r.natural.value;
    var yv, y0 := Y(d, v), Y(d, 0);
    AgainstZero(d, v);
    Rect(bandStart, MinOf(yv, y0), bandwidth, Scales.Abs(yv - y0))
  }

  /** A positive value is drawn above the zero line, a negative one below, zero on it. */
  lemma AgainstZero(d: Domain, v: int)
    requires Usable(d)
    ensures v > 0 ==> Y(d, v) < Y(d, 0)
    ensures v < 0 ==> Y(d, 0) < Y(d, v)
    ensures v == 0 <==> Y(d, v) == Y(d, 0)
  {
    Scales.Injective(YScale(d), v as real, 0.0);
    if v > 0 { Scales.Decreasing(YScale(d), 0.0, v as real); }
    if v < 0 { Scales.Decreasing(YScale(d), v as real, 0.0); }
  }

  /** The internal-migration bar (class `bar2`). */
  function InternalBar(r: AreaRow, d: Domain, bandStart: real, bandwidth: real): (b: Rect)
    requires Coerced(r) && Usable(d)
    ensures b.x == bandStart && b.width == bandwidth && b.height >= 0.0
  {
    Rect(bandStart, Y(d, RowHigh(r)), bandwidth, Scales.Abs(Y(d, r.internal.value) - Y(d, r.overseas.value)))
  }

  /** The overseas-migration bar (class `bar3`). */
  function OverseasBar(r: AreaRow, d: Domain, bandStart: real, bandwidth: real): (b: Rect)
    requires Coerced(r) && Usable(d)
    ensures b.x == bandStart && b.width == bandwidth && b.height >= 0.0
  {
    Rect(bandStart, Y(d, RowHigh(r)), bandwidth, Scales.Abs(Y(d, r.overseas.value) - Y(d, 0)))
  }

  /**
   * Both migration bars hang from y(max(0, values)), which is never below
   * the zero line and, for a row the domain covers, never above the plot.
   */
  lemma MigrationBarsTop(r: AreaRow, d: Domain, bandStart: real, bandwidth: real)
    requires Coerced(r) && Usable(d)
    ensures InternalBar(r, d, bandStart, bandwidth).y == OverseasBar(r, d, bandStart, bandwidth).y == Y(d, RowHigh(r))
    ensures Y(d, RowHigh(r)) <= Y(d, 0)
    ensures Covers(d, r) ==> 0.0 <= Y(d, RowHigh(r))
  {
    var s := YScale(d);
    var m := RowHigh(r);
    assert Values(r)[0] == 0;
    if m > 0 { Scales.Decreasing(s, 0.0, m as real); }
    if Covers(d, r) {
      assert m in Values(r);
      Scales.InRange(s, m as real);
    }
  }

  /** The internal bar is as tall as the distance between the internal and the overseas value. */
  lemma InternalBarHeight(r: AreaRow, d: Domain, bandStart: real, bandwidth: real)
    requires Coerced(r) && Usable(d)
    ensures InternalBar(r, d, bandStart, bandwidth).height
            == Scales.Abs(r.internal.value as real - r.overseas.value as real) * Scales.Slope(YScale(d))
  {
    Scales.GapAbs(YScale(d), r.internal.value as real, r.overseas.value as real);
  }

  /** The overseas bar is as tall as the overseas value's distance from zero. */
  lemma OverseasBarHeight(r: AreaRow, d: Domain, bandStart: real, bandwidth: real)
    requires Coerced(r) && Usable(d)
    ensures OverseasBar(r, d, bandStart, bandwidth).height
            == Scales.Abs(r.overseas.value as real) * Scales.Slope(YScale(d))
  {
    Scales.GapAbs(YScale(d), r.overseas.value as real, 0.0);
  }

  /** The domain computed from the rows covers each of them and spans zero. */
  lemma DomainCoversRows(rows: seq<AreaRow>, i: nat)
    requires AllCoerced(rows) && i < |rows|
    ensures YDomain(rows).Some? && Usable(YDomain(rows).value)
    ensures Covers(YDomain(rows).value, rows[i])
  {
    var d := YDomain(rows).value;
    YDomainBounds(rows);
    assert Covers(Domain(d.lo + Padding, d.hi - Padding), rows[i]);
  }

  /** For a row the domain covers, the natural-increase bar stays inside the plot. */
  lemma NaturalBarInsidePlot(r: AreaRow, d: Domain, bandStart: real, bandwidth: real)
    requires Coerced(r) && Usable(d) && Covers(d, r)
    ensures var n := NaturalBar(r, d, bandStart, bandwidth);
            0.0 <= n.y && n.y + n.height <= Height
  {
    var s := YScale(d);
    Scales.InRange(s, r.natural.value as real);
    Scales.InRange(s, 0.0);
  }

  datatype Label = Label(text: string, x: real, y: real)

  /** One area-name label per row, centred in the row's band. */
  function AreaLabels(rows: seq<AreaRow>, band: string -> real, bandwidth: real): (ls: seq<Label>)
    ensures |ls| == |rows|
    ensures forall i :: 0 <= i < |rows| ==> ls[i].text == rows[i].area && ls[i].y == LabelY
    ensures forall i :: 0 <= i < |rows| ==> ls[i].x - band(rows[i].area) == bandwidth / 2.0
    ensures 0.0 <= bandwidth ==>
              forall i :: 0 <= i < |rows| ==> band(rows[i].area) <= ls[i].x <= band(rows[i].area) + bandwidth
  {
    seq(|rows|, i requires 0 <= i < |rows| => Label(rows[i].area, band(rows[i].area) + bandwidth / 2.0, LabelY))
  }

  // ---------------------------------------------------------------------
  // Hover emphasis across the three bar groups
  // ---------------------------------------------------------------------

  datatype Series = Internal | Overseas | Natural

  /** The groups in the order they are appended: internal, overseas, natural. */
  function SeriesAt(g: nat): Series
    requires g < 3
  {
    if g == 0 then Internal else if g == 1 then Overseas else Natural
  }

  function GroupOf(s: Series): (g: nat)
    ensures g < 3 && SeriesAt(g) == s
  {
    match s
    case Internal => 0
    case Overseas => 1
    case Natural => 2
  }

  /** The `highlight` and `fade` classes of one rect. */
  datatype Emphasis = Emphasis(highlight: bool, fade: bool)

  const Plain := Emphasis(false, false)

  /** Mouseover on a rect of `hovered`: its whole series is highlighted, every other rect faded. */
  function OnOver(hovered: Series, owner: Series, e: Emphasis): (e': Emphasis)
    ensures owner == hovered ==> e'.highlight && e'.fade == e.fade
    ensures owner != hovered ==> e'.fade && e'.highlight == e.highlight
  {
    if owner == hovered then e.(highlight := true) else e.(fade := true)
  }

  /** Mouseout on a rect of `hovered`: its series loses highlight, the others lose fade. */
  function OnOut(hovered: Series, owner: Series, e: Emphasis): (e': Emphasis)
    ensures owner == hovered ==> !e'.highlight && e'.fade == e.fade
    ensures owner != hovered ==> !e'.fade && e'.highlight == e.highlight
  {
    if owner == hovered then e.(highlight := false) else e.(fade := false)
  }

  datatype Pointer = Over(series: Series) | Out(series: Series)

  function Step(p: Pointer, owner: Series, e: Emphasis): Emphasis
  {
    match p
    case Over(s) => OnOver(s, owner, e)
    case Out(s) => OnOut(s, owner, e)
  }

  /** The classes of a rect of `owner` after a run of pointer events. */
  function Replay(events: seq<Pointer>, owner: Series, e: Emphasis): Emphasis
  {
    if |events| == 0 then e else Replay(events[1..], owner, Step(events[0], owner, e))
  }

  /** Events as the browser delivers them: each mouseover followed by the matching mouseout. */
  predicate InPairs(events: seq<Pointer>)
  {
    |events| == 0
    || (|events| >= 2 && events[0].Over? && events[1] == Out(events[0].series) && InPairs(events[2..]))
  }

  lemma {:induction false} ReplayAppend(a: seq<Pointer>, b: seq<Pointer>, owner: Series, e: Emphasis)
    ensures Replay(a + b, owner, e) == Replay(b, owner, Replay(a, owner, e))
  {
    if |a| == 0 {
      assert a + b == b;
    } else {
      assert (a + b)[0] == a[0] && (a + b)[1..] == a[1..] + b;
      ReplayAppend(a[1..], b, owner, Step(a[0], owner, e));
    }
  }

  /** After any number of complete over/out pairs no rect is highlighted or faded. */
  lemma {:induction false} PairsLeavePlain(events: seq<Pointer>, owner: Series)
    requires InPairs(events)
    ensures Replay(events, owner, Plain) == Plain
  {
    if |events| > 0 {
      var s := events[0].series;
      assert Step(events[1], owner, Step(events[0], owner, Plain)) == Plain;
      assert events[1..][1..] == events[2..];
      PairsLeavePlain(events[2..], owner);
    }
  }

  /**
   * While a rect of series s is hovered (after complete pairs), exactly the
   * rects of s are highlighted and exactly the rects of the other two are faded.
   */
  lemma WhileHovered(events: seq<Pointer>, s: Series, owner: Series)
    requires InPairs(events)
    ensures Replay(events + [Over(s)], owner, Plain)
            == if owner == s then Emphasis(true, false) else Emphasis(false, true)
  {
    ReplayAppend(events, [Over(s)], owner, Plain);
    PairsLeavePlain(events, owner);
  }

  /** The column name of a series, as the tooltip's target line shows it. */
  function SeriesName(s: Series): string
  {
    match s
    case Internal => "Net internal migration"
    case Overseas => "Net overseas migration"
    case Natural => "Natural increase"
  }

  /** The row's field of a series. */
  function Field(r: AreaRow, s: Series): Cell
  {
    match s
    case Internal => r.internal
    case Overseas => r.overseas
    case Natural => r.natural
  }

  /** A field concatenated into a string: text as it is, a number in decimal. */
  function CellText(c: Cell): string
  {
    match c
    case Raw(t) => t
    case Number(v) => Text.Show(v)
  }

  /** The tooltip of a bar of series s: the area, the series name and the series' value. */
  function BarTooltip(r: AreaRow, s: Series): string
  {
    "<strong>City:</strong> " + r.area + "<br/>"
    + "<strong>Target:</strong> " + SeriesName(s) + "<br/>"
    + "<strong>Data:</strong> " + CellText(Field(r, s))
  }

  /** On a coerced row the tooltip's last line reads back as the hovered series' value. */
  lemma BarTooltipData(r: AreaRow, s: Series)
    requires Coerced(r)
    ensures var tip := BarTooltip(r, s);
            var shown := Text.Show(Field(r, s).value);
            && |shown| + 23 <= |tip|
            && tip[|tip| - |shown| - 23..|tip| - |shown|] == "<strong>Data:</strong> "
            && Text.ParseInt(tip[|tip| - |shown|..]) == Field(r, s).value
  {
    var tip := BarTooltip(r, s);
    var shown := Text.Show(Field(r, s).value);
    assert tip[|tip| - |shown|..] == shown;
    assert tip[|tip| - |shown| - 23..|tip| - |shown|] == "<strong>Data:</strong> ";
    Text.ParseShow(Field(r, s).value);
  }

  /** The rects of the three groups: `rects[g, j]` is the bar of series `SeriesAt(g)` for row j. */
  class BarGroups {
    const rows: nat
    const rects: array2<Emphasis>

    ghost predicate Valid()
    {
      rects.Length0 == 3 && rects.Length1 == rows
    }

    constructor (n: nat)
      ensures Valid() && rows == n && fresh(rects)
      ensures forall g, j :: 0 <= g < 3 && 0 <= j < n ==> rects[g, j] == Plain
    {
      rows := n;
      rects := new Emphasis[3, n]((g, j) => Plain);
    }

    /** Mouseover on row k's rect of series s. */
    method MouseOver(s: Series, k: nat)
      requires Valid() && k < rows
      modifies rects
      ensures forall g, j :: 0 <= g < 3 && 0 <= j < rows ==>
                rects[g, j] == OnOver(s, SeriesAt(g), old(rects[g, j]))
    {
      for g := 0 to 3
        invariant forall g', j :: 0 <= g' < g && 0 <= j < rows ==>
                    rects[g', j] == OnOver(s, SeriesAt(g'), old(rects[g', j]))
        invariant forall g', j :: g <= g' < 3 && 0 <= j < rows ==> rects[g', j] == old(rects[g', j])
      {
        for j := 0 to rows
          invariant forall g', j' :: 0 <= g' < g && 0 <= j' < rows ==>
                      rects[g', j'] == OnOver(s, SeriesAt(g'), old(rects[g', j']))
          invariant forall j' :: 0 <= j' < j ==> rects[g, j'] == OnOver(s, SeriesAt(g), old(rects[g, j']))
          invariant forall g', j' :: g <= g' < 3 && 0 <= j' < rows && (g' != g || j <= j') ==>
                      rects[g', j'] == old(rects[g', j'])
        {
          rects[g, j] := OnOver(s, SeriesAt(g), rects[g, j]);
        }
      }
      var own := GroupOf(s);
      rects[own, k] := rects[own, k].(highlight := true);
    }

    /** Mouseout from a rect of series s. */
    method MouseOut(s: Series)
      requires Valid()
      modifies rects
      ensures forall g, j :: 0 <= g < 3 && 0 <= j < rows ==>
                rects[g, j] == OnOut(s, SeriesAt(g), old(rects[g, j]))
    {
      for g := 0 to 3
        invariant forall g', j :: 0 <= g' < g && 0 <= j < rows ==>
                    rects[g', j] == OnOut(s, SeriesAt(g'), old(rects[g', j]))
        invariant forall g', j :: g <= g' < 3 && 0 <= j < rows ==> rects[g', j] == old(rects[g', j])
      {
        for j := 0 to rows
          invariant forall g', j' :: 0 <= g' < g && 0 <= j' < rows ==>
                      rects[g', j'] == OnOut(s, SeriesAt(g'), old(rects[g', j']))
          invariant forall j' :: 0 <= j' < j ==> rects[g, j'] == OnOut(s, SeriesAt(g), old(rects[g, j']))
          invariant forall g', j' :: g <= g' < 3 && 0 <= j' < rows && (g' != g || j <= j') ==>
                      rects[g', j'] == old(rects[g', j'])
        {
          rects[g, j] := OnOut(s, SeriesAt(g), rects[g, j]);
        }
      }
    }
  }
}
