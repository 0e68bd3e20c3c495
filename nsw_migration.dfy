/**
 * The New South Wales page: the migration CSV turned into count records,
 * the city list serialised as CSV text, the city dots placed by the map
 * projection, and the stacked column chart of skilled, family and
 * humanitarian migrants for two regions.
 */
module NswMigration {
  import opened Wrappers
  import Stats
  import Scales
  import Text

  // ---------------------------------------------------------------------
  // processedData
  // ---------------------------------------------------------------------

  /** A row of the migration CSV: the City, Skilled, Family and Humanitarian columns as text. */
  datatype CsvRow = CsvRow(city: string, skilled: string, family: string, humanitarian: string)

  datatype CityCounts = CityCounts(city: string, skilled: int, family: int, humanitarian: int)

  /** The `forEach` that pushes one record per CSV row onto `processedData`. */
  method ProcessData(rows: seq<CsvRow>, toNumber: string -> int) returns (processed: seq<CityCounts>)
    ensures |processed| == |rows|
    ensures forall i :: 0 <= i < |rows| ==>
              processed[i] == CityCounts(rows[i].city, toNumber(rows[i].skilled),
                                         toNumber(rows[i].family), toNumber(rows[i].humanitarian))
  {
    processed := [];
    for i := 0 to |rows|
      invariant |processed| == i
      invariant forall j :: 0 <= j < i ==>
                  processed[j] == CityCounts(rows[j].city, toNumber(rows[j].skilled),
                                             toNumber(rows[j].family), toNumber(rows[j].humanitarian))
    {
      var d := rows[i];
      processed := processed + [CityCounts(d.city, toNumber(d.skilled), toNumber(d.family), toNumber(d.humanitarian))];
    }
  }

  // ---------------------------------------------------------------------
  // The city list and its CSV text
  // ---------------------------------------------------------------------

  /** A city with its `coordinates` pair: latitude first, longitude second. */
  datatype Place = Place(name: string, lat: real, lon: real)

  const Cities: seq<Place> := [
    Place("Sydney", -33.8688, 151.2093),
    Place("Newcastle", -32.9283, 151.7817),
    Place("Wollongong", -34.4278, 150.8931),
    Place("Central Coast", -33.2833, 151.2333),
    Place("Tweed", -28.1781, 153.5380),
    Place("Wagga Wagga", -35.1150, 147.3678),
    Place("Albury", -36.0737, 146.9135),
    Place("Maitland", -32.7333, 151.5500),
    Place("Tamworth", -31.0833, 150.9167),
    Place("Coffs Harbour", -30.2963, 153.1131)
  ]

  const CsvHeader: string := "place,lat,lon"

  /** `name,coordinates[0],coordinates[1]`, numbers written by `fmt`. */
  function CsvLine(c: Place, fmt: real -> string): string
  {
    c.name + "," + fmt(c.lat) + "," + fmt(c.lon)
  }

  /** One newline-terminated line per city, in order. */
  function CsvBody(cs: seq<Place>, fmt: real -> string): string
  {
    if |cs| == 0 then "" else CsvLine(cs[0], fmt) + "\n" + CsvBody(cs[1..], fmt)
  }

  function CsvText(cs: seq<Place>, fmt: real -> string): string
  {
    CsvHeader + "\n" + CsvBody(cs, fmt)
  }

  lemma {:induction false} CsvBodyAppend(cs: seq<Place>, c: Place, fmt: real -> string)
    ensures CsvBody(cs + [c], fmt) == CsvBody(cs, fmt) + CsvLine(c, fmt) + "\n"
  {
    if |cs| == 0 {
      assert cs + [c] == [c];
    } else {
      assert (cs + [c])[0] == cs[0] && (cs + [c])[1..] == cs[1..] + [c];
      CsvBodyAppend(cs[1..], c, fmt);
    }
  }

  /** The loop that builds `csvContent`: the header line, then `+=` one line per city. */
  method BuildCsv(cities: seq<Place>, fmt: real -> string) returns (csv: string)
    ensures csv == CsvText(cities, fmt)
  {
    csv := "place,lat,lon\n";
    for i := 0 to |cities|
      invariant csv == CsvText(cities[..i], fmt)
    {
      var city := cities[i];
      CsvBodyAppend(cities[..i], city, fmt);
      assert cities[..i + 1] == cities[..i] + [city];
      csv := csv + city.name + "," + fmt(city.lat) + "," + fmt(city.lon) + "\n";
    }
    assert cities[..|cities|] == cities;
  }

  /** Text that neither separates fields nor lines. */
  predicate Plain(s: string)
  {
    ',' !in s && '\n' !in s
  }

  predicate PlainNames(cs: seq<Place>)
  {
    forall i :: 0 <= i < |cs| ==> Plain(cs[i].name)
  }

  ghost predicate PlainFormat(fmt: real -> string)
  {
    forall x :: Plain(fmt(x))
  }

  /** A CSV line splits back into the city's name, its latitude and its longitude. */
  lemma CsvLineFields(c: Place, fmt: real -> string)
    requires Plain(c.name) && PlainFormat(fmt)
    ensures Text.Split(CsvLine(c, fmt), ',') == [c.name, fmt(c.lat), fmt(c.lon)]
  {
    assert Plain(fmt(c.lat)) && Plain(fmt(c.lon));
    Text.SplitWithoutSeparator(fmt(c.lon), ',');
    Text.SplitAtSeparator(fmt(c.lat), ',', fmt(c.lon));
    assert CsvLine(c, fmt) == c.name + [','] + (fmt(c.lat) + [','] + fmt(c.lon));
    Text.SplitAtSeparator(c.name, ',', fmt(c.lat) + [','] + fmt(c.lon));
  }

  lemma {:induction false} CsvBodyLines(cs: seq<Place>, fmt: real -> string)
    requires PlainNames(cs) && PlainFormat(fmt)
    ensures Text.Split(CsvBody(cs, fmt), '\n') == seq(|cs|, i requires 0 <= i < |cs| => CsvLine(cs[i], fmt)) + [""]
  {
    if |cs| == 0 {
    } else {
      var line := CsvLine(cs[0], fmt);
      assert '\n' !in line by {
        assert Plain(fmt(cs[0].lat)) && Plain(fmt(cs[0].lon)) && Plain(cs[0].name);
      }
      Text.SplitAtSeparator(line, '\n', CsvBody(cs[1..], fmt));
      assert CsvBody(cs, fmt) == line + ['\n'] + CsvBody(cs[1..], fmt);
      CsvBodyLines(cs[1..], fmt);
    }
  }

  /**
   * Reading the CSV text back: the header, then exactly one line per city
   * in array order, then the empty piece after the final newline.
   */
  lemma CsvLines(cs: seq<Place>, fmt: real -> string)
    requires PlainNames(cs) && PlainFormat(fmt)
    ensures Text.Split(CsvText(cs, fmt), '\n')
            == [CsvHeader] + seq(|cs|, i requires 0 <= i < |cs| => CsvLine(cs[i], fmt)) + [""]
  {
    assert CsvText(cs, fmt) == CsvHeader + ['\n'] + CsvBody(cs, fmt);
    Text.SplitAtSeparator(CsvHeader, '\n', CsvBody(cs, fmt));
    CsvBodyLines(cs, fmt);
  }

  /**
   * The same text in join form: the header and the city lines, each
   * followed by a newline, are the lines joined with newlines.
   */
  lemma CsvTextIsJoin(cs: seq<Place>, fmt: real -> string)
    requires PlainNames(cs) && PlainFormat(fmt)
    ensures Text.Join([CsvHeader] + seq(|cs|, i requires 0 <= i < |cs| => CsvLine(cs[i], fmt)) + [""], '\n')
            == CsvText(cs, fmt)
  {
    CsvLines(cs, fmt);
    Text.JoinSplit(CsvText(cs, fmt), '\n');
  }

  /** No name in the city array contains a comma or a newline. */
  lemma CityNamesPlain()
    ensures PlainNames(Cities)
  {
    forall i | 0 <= i < |Cities|
      ensures Plain(Cities[i].name)
    {
      var n := Cities[i].name;
      assert forall k :: 0 <= k < |n| ==> n[k] != ',' && n[k] != '\n';
    }
  }

  /** The lines of the text by index: the header, city i on line i + 1, and the empty tail. */
  lemma CsvLineAt(cs: seq<Place>, fmt: real -> string)
    requires PlainNames(cs) && PlainFormat(fmt)
    ensures var lines := Text.Split(CsvText(cs, fmt), '\n');
            && |lines| == |cs| + 2 && lines[0] == CsvHeader && lines[|cs| + 1] == ""
            && (forall i :: 1 <= i <= |cs| ==> lines[i] == CsvLine(cs[i - 1], fmt))
  {
    CsvLines(cs, fmt);
    var lines := Text.Split(CsvText(cs, fmt), '\n');
    var body := seq(|cs|, i requires 0 <= i < |cs| => CsvLine(cs[i], fmt));
    assert lines == [CsvHeader] + body + [""];
    forall i | 1 <= i <= |cs|
      ensures lines[i] == CsvLine(cs[i - 1], fmt)
    {
      assert lines[i] == body[i - 1];
    }
  }

  /** The chart's ten cities: the header, ten lines in array order, and the empty tail. */
  lemma CitiesCsv(fmt: real -> string)
    requires PlainFormat(fmt)
    ensures var lines := Text.Split(CsvText(Cities, fmt), '\n');
            && |lines| == 12 && lines[0] == CsvHeader && lines[11] == ""
            && (forall i :: 1 <= i <= 10 ==> lines[i] == CsvLine(Cities[i - 1], fmt))
  {
    CityNamesPlain();
    CsvLineAt(Cities, fmt);
  }

  /** The first city line reads back as Sydney, its latitude and its longitude. */
  lemma SydneyLine(fmt: real -> string)
    requires PlainFormat(fmt)
    ensures Text.Split(CsvLine(Cities[0], fmt), ',') == ["Sydney", fmt(-33.8688), fmt(151.2093)]
  {
    var sydney := Cities[0];
    assert sydney.name == "Sydney" && sydney.lat == -33.8688 && sydney.lon == 151.2093;
    CsvLineFields(sydney, fmt);
  }

  /** The text starts with the header line. */
  lemma CsvStartsWithHeader(cs: seq<Place>, fmt: real -> string)
    ensures |CsvText(cs, fmt)| >= |CsvHeader| + 1
    ensures CsvText(cs, fmt)[..|CsvHeader| + 1] == "place,lat,lon\n"
  {
  }

  /** The `[lon, lat]` pair the projection receives for a city. */
  function ProjectionInput(c: Place): (real, real)
  {
    (c.lon, c.lat)
  }

  /** The CSV line lists latitude then longitude; the projection gets them the other way round. */
  lemma CoordinateOrder(c: Place, fmt: real -> string)
    requires Plain(c.name) && PlainFormat(fmt)
    ensures Text.Split(CsvLine(c, fmt), ',') == [c.name, fmt(ProjectionInput(c).1), fmt(ProjectionInput(c).0)]
  {
    CsvLineFields(c, fmt);
  }

  datatype Circle = Circle(cx: real, cy: real, r: real)

  /** One red dot of radius 5 per city, at the projection of its [lon, lat]. */
  function CityDots(cs: seq<Place>, projection: (real, real) -> (real, real)): (dots: seq<Circle>)
    ensures |dots| == |cs|
    ensures forall i :: 0 <= i < |cs| ==> dots[i].r == 5.0
    ensures forall i :: 0 <= i < |cs| ==>
              dots[i].cx == projection(cs[i].lon, cs[i].lat).0 && dots[i].cy == projection(cs[i].lon, cs[i].lat).1
  {
    seq(|cs|, i requires 0 <= i < |cs| => Dot(cs[i], projection))
  }

  function Dot(c: Place, projection: (real, real) -> (real, real)): Circle
  {
    var xy := projection(ProjectionInput(c).0, ProjectionInput(c).1);
    Circle(xy.0, xy.1, 5.0)
  }

  /** The first dot is Sydney's, and the projection receives its longitude first. */
  lemma CitiesDots(projection: (real, real) -> (real, real))
    ensures var dots := CityDots(Cities, projection);
            && |dots| == 10
            && dots[0].cx == projection(151.2093, -33.8688).0 && dots[0].cy == projection(151.2093, -33.8688).1
  {
    assert Cities[0] == Place("Sydney", -33.8688, 151.2093);
  }

  // ---------------------------------------------------------------------
  // The stacked column chart
  // ---------------------------------------------------------------------

  datatype Key = Skilled | Family | Humanitarian

  function KeyName(k: Key): string
  {
    match k
    case Skilled => "skilled"
    case Family => "family"
    case Humanitarian => "humanitarian"
  }

  const Keys: seq<Key> := [Skilled, Family, Humanitarian]

  datatype ColumnRow = ColumnRow(city: string, skilled: int, family: int, humanitarian: int)

  const ColumnData: seq<ColumnRow> := [
    ColumnRow("Greater Sydney", 481569, 312781, 86398),
    ColumnRow("Rest of New South Wales", 55313, 41779, 9353)
  ]

  const ChartHeight: real := 450.0

  function Value(r: ColumnRow, k: Key): int
  {
    match k
    case Skilled => r.skilled
    case Family => r.family
    case Humanitarian => r.humanitarian
  }

  function RowTotal(r: ColumnRow): int
  {
    r.skilled + r.family + r.humanitarian
  }

  predicate NonNegative(r: ColumnRow)
  {
    r.skilled >= 0 && r.family >= 0 && r.humanitarian >= 0
  }

  /** The sum of the row's values for the first j keys. */
  function Cumulative(r: ColumnRow, keys: seq<Key>, j: nat): int
    requires j <= |keys|
  {
    if j == 0 then 0 else Cumulative(r, keys, j - 1) + Value(r, keys[j - 1])
  }

  /** A stack point `[d[0], d[1]]` with the row it was computed from (`d.data`). */
  datatype Point = Point(lower: int, upper: int, data: ColumnRow)

  /** One stack series: a key and one point per row. */
  datatype Layer = Layer(key: Key, points: seq<Point>)

  /** Series j, point i: the cumulative sums of row i before and after key j. */
  function StackPoint(rows: seq<ColumnRow>, keys: seq<Key>, j: nat, i: nat): Point
    requires j < |keys| && i < |rows|
  {
    Point(Cumulative(rows[i], keys, j), Cumulative(rows[i], keys, j + 1), rows[i])
  }

  function StackLayer(rows: seq<ColumnRow>, keys: seq<Key>, j: nat): (l: Layer)
    requires j < |keys|
    ensures l.key == keys[j] && |l.points| == |rows|
    ensures forall i :: 0 <= i < |rows| ==> l.points[i] == StackPoint(rows, keys, j, i)
  {
    Layer(keys[j], seq(|rows|, i requires 0 <= i < |rows| => StackPoint(rows, keys, j, i)))
  }

  /** `d3.stack().keys(keys)` with the default order and offset: one series per key. */
  function Stack(rows: seq<ColumnRow>, keys: seq<Key>): (layers: seq<Layer>)
    ensures |layers| == |keys|
    ensures forall j :: 0 <= j < |keys| ==> layers[j] == StackLayer(rows, keys, j)
  {
    seq(|keys|, j requires 0 <= j < |keys| => StackLayer(rows, keys, j))
  }

  /**
   * The extents chain: the first key starts at 0, each key starts where the
   * previous one ends, and each extent is as long as the key's own value.
   */
  lemma StackExtents(rows: seq<ColumnRow>, keys: seq<Key>, j: nat, i: nat)
    requires j < |keys| && i < |rows|
    ensures var p := Stack(rows, keys)[j].points[i];
            && p.data == rows[i]
            && (j == 0 ==> p.lower == 0)
            && (j + 1 < |keys| ==> Stack(rows, keys)[j + 1].points[i].lower == p.upper)
            && p.upper - p.lower == Value(rows[i], keys[j])
  {
  }

  /** The last of the chart's series ends at the row total. */
  lemma StackTopIsTotal(rows: seq<ColumnRow>, i: nat)
    requires i < |rows|
    ensures Stack(rows, Keys)[2].points[i].upper == RowTotal(rows[i])
  {
    var r := rows[i];
    assert Cumulative(r, Keys, 1) == r.skilled;
    assert Cumulative(r, Keys, 2) == r.skilled + r.family;
    assert Cumulative(r, Keys, 3) == RowTotal(r);
  }

  /** With non-negative values the cumulative sums grow with the number of keys. */
  lemma {:induction false} CumulativeMonotone(r: ColumnRow, keys: seq<Key>, j: nat, k: nat)
    requires NonNegative(r) && j <= k <= |keys|
    ensures 0 <= Cumulative(r, keys, j) <= Cumulative(r, keys, k)
  {
    if j < k {
      CumulativeMonotone(r, keys, j, k - 1);
      assert Value(r, keys[k - 1]) >= 0;
    } else if j > 0 {
      CumulativeMonotone(r, keys, 0, j);
    }
  }

  /** With non-negative values no series reaches above its row's total. */
  lemma StackBelowTotal(rows: seq<ColumnRow>, j: nat, i: nat)
    requires i < |rows| && j < 3 && NonNegative(rows[i])
    ensures Stack(rows, Keys)[j].points[i].upper <= RowTotal(rows[i])
  {
    CumulativeMonotone(rows[i], Keys, j + 1, 3);
    StackTopIsTotal(rows, i);
  }

  function Uppers(l: Layer): (us: seq<int>)
    ensures |us| == |l.points| && forall i :: 0 <= i < |us| ==> us[i] == l.points[i].upper
  {
    seq(|l.points|, i requires 0 <= i < |l.points| => l.points[i].upper)
  }

  /** The largest upper bound within one series. */
  function LayerMax(l: Layer): Option<int>
  {
    Stats.Max(Uppers(l))
  }

  function LayerMaxima(layers: seq<Layer>): (ms: seq<Option<int>>)
    ensures |ms| == |layers| && forall j :: 0 <= j < |ms| ==> ms[j] == LayerMax(layers[j])
  {
    seq(|layers|, j requires 0 <= j < |layers| => LayerMax(layers[j]))
  }

  /** The y-domain's upper end: `d3.max` over the series of the series' largest `d[1]`. */
  function YMax(layers: seq<Layer>): Option<int>
  {
    Stats.MaxPresent(LayerMaxima(layers))
  }

  function Totals(rows: seq<ColumnRow>): (ts: seq<int>)
    ensures |ts| == |rows| && forall i :: 0 <= i < |rows| ==> ts[i] == RowTotal(rows[i])
  {
    seq(|rows|, i requires 0 <= i < |rows| => RowTotal(rows[i]))
  }

  /** Every stacked upper bound is at most the largest row total. */
  lemma UpperAtMostLargestTotal(rows: seq<ColumnRow>, j: nat, i: nat)
    requires forall k :: 0 <= k < |rows| ==> NonNegative(rows[k])
    requires j < 3 && i < |rows|
    ensures Uppers(Stack(rows, Keys)[j])[i] <= Stats.Max(Totals(rows)).value
  {
    StackBelowTotal(rows, j, i);
    assert Totals(rows)[i] == RowTotal(rows[i]);
  }

  /** The largest row total is the upper bound of the last series at that row. */
  lemma LargestTotalIsUpper(rows: seq<ColumnRow>) returns (k: nat)
    requires |rows| > 0
    ensures k < |rows| && Uppers(Stack(rows, Keys)[2])[k] == Stats.Max(Totals(rows)).value
  {
    var totals := Totals(rows);
    k :| 0 <= k < |totals| && totals[k] == Stats.Max(totals).value;
    StackTopIsTotal(rows, k);
  }

  /** With no rows every series is empty, so the maximum is `undefined`. */
  lemma YMaxOfNoRows(rows: seq<ColumnRow>)
    requires |rows| == 0
    ensures YMax(Stack(rows, Keys)).None?
  {
    var maxima := LayerMaxima(Stack(rows, Keys));
    forall j | 0 <= j < |maxima|
      ensures maxima[j].None?
    {
      assert |Uppers(Stack(rows, Keys)[j])| == 0;
    }
  }

  /** With at least one row of non-negative counts, the stacked maximum is the largest row total. */
  lemma YMaxBetween(rows: seq<ColumnRow>)
    requires forall i :: 0 <= i < |rows| ==> NonNegative(rows[i])
    requires |rows| > 0
    ensures YMax(Stack(rows, Keys)).Some?
    ensures YMax(Stack(rows, Keys)).value == Stats.Max(Totals(rows)).value
  {
    var layers := Stack(rows, Keys);
    var maxima := LayerMaxima(layers);
    assert maxima[2].Some?;
    var m := YMax(layers).value;
    var t := Stats.Max(Totals(rows)).value;
    var j :| 0 <= j < |maxima| && maxima[j] == Some(m);
    var i :| 0 <= i < |Uppers(layers[j])| && Uppers(layers[j])[i] == m;
    UpperAtMostLargestTotal(rows, j, i);
    var k := LargestTotalIsUpper(rows);
    assert t <= maxima[2].value;
  }

  /** For non-negative data the largest stacked upper bound is the largest row total. */
  lemma YMaxIsLargestTotal(rows: seq<ColumnRow>)
    requires forall i :: 0 <= i < |rows| ==> NonNegative(rows[i])
    ensures YMax(Stack(rows, Keys)) == Stats.Max(Totals(rows))
  {
    if |rows| == 0 {
      YMaxOfNoRows(rows);
    } else {
      YMaxBetween(rows);
    }
  }

  /** For the chart's two regions the y-domain ends at 880748, Greater Sydney's total. */
  lemma ColumnDataYMax()
    ensures YMax(Stack(ColumnData, Keys)) == Some(880748)
  {
    var rows := ColumnData;
    assert NonNegative(rows[0]) && NonNegative(rows[1]);
    YMaxIsLargestTotal(rows);
    var ts := Totals(rows);
    assert ts[0] == 880748 && ts[1] == 106445;
    var t := Stats.Max(ts).value;
    var k :| 0 <= k < 2 && ts[k] == t;
    assert ts[0] <= t;
  }

  /** `yScale`: [0, m] onto [ChartHeight, 0]. */
  function YScale(m: int): Scales.Linear
    requires m > 0
  {
    Scales.FromZero(m, ChartHeight, 0.0)
  }

  datatype Rect = Rect(x: real, y: real, width: real, height: real)

  /** The rect drawn for a stack point: top at `yScale(d[1])`, height `yScale(d[0]) - yScale(d[1])`. */
  function BarRect(p: Point, m: int, band: string -> real, bandwidth: real): (b: Rect)
    requires m > 0
    ensures b.x == band(p.data.city) && b.width == bandwidth
  {
    var s := YScale(m);
    Rect(band(p.data.city), Scales.Apply(s, p.upper as real), bandwidth,
         Scales.Apply(s, p.lower as real) - Scales.Apply(s, p.upper as real))
  }

  /** A bar is as tall as its extent times the slope, so never negative for an ordered extent. */
  lemma BarHeight(p: Point, m: int, band: string -> real, bandwidth: real)
    requires m > 0
    ensures BarRect(p, m, band, bandwidth).height == (p.upper - p.lower) as real * Scales.Slope(YScale(m))
    ensures p.lower <= p.upper ==> BarRect(p, m, band, bandwidth).height >= 0.0
  {
    Scales.Gap(YScale(m), p.lower as real, p.upper as real);
  }

  /** An extent inside the domain is drawn inside the chart. */
  lemma BarInsideChart(p: Point, m: int, band: string -> real, bandwidth: real)
    requires 0 <= p.lower <= p.upper <= m && 0 < m
    ensures 0.0 <= BarRect(p, m, band, bandwidth).y
    ensures BarRect(p, m, band, bandwidth).y + BarRect(p, m, band, bandwidth).height <= ChartHeight
  {
    Scales.InRange(YScale(m), p.upper as real);
    Scales.InRange(YScale(m), p.lower as real);
  }

  /** Every bar of the chart's stack over non-negative rows has a non-negative height. */
  lemma StackedBarsNonNegative(rows: seq<ColumnRow>, j: nat, i: nat, band: string -> real, bandwidth: real)
    requires forall k :: 0 <= k < |rows| ==> NonNegative(rows[k])
    requires j < 3 && i < |rows|
    requires YMax(Stack(rows, Keys)).Some? && YMax(Stack(rows, Keys)).value > 0
    ensures BarRect(Stack(rows, Keys)[j].points[i], YMax(Stack(rows, Keys)).value, band, bandwidth).height >= 0.0
  {
    StackExtents(rows, Keys, j, i);
    assert Value(rows[i], Keys[j]) >= 0;
    BarHeight(Stack(rows, Keys)[j].points[i], YMax(Stack(rows, Keys)).value, band, bandwidth);
  }

  /** A stack point as the bar handlers see it; `key` is the property the `map` adds. */
  datatype TaggedPoint = TaggedPoint(lower: int, upper: int, data: ColumnRow, key: Option<Key>)

  /** A series' points before tagging: no `key` property yet. */
  function Untagged(l: Layer): (ps: seq<TaggedPoint>)
    ensures |ps| == |l.points|
    ensures forall i :: 0 <= i < |ps| ==> ps[i].key.None?
  {
    seq(|l.points|, i requires 0 <= i < |l.points| =>
      TaggedPoint(l.points[i].lower, l.points[i].upper, l.points[i].data, None))
  }

  /** Every point of a series tagged with the series key. */
  function Tag(l: Layer): (ps: seq<TaggedPoint>)
    ensures |ps| == |l.points|
    ensures forall i :: 0 <= i < |ps| ==>
              ps[i].key == Some(l.key) && ps[i].lower == l.points[i].lower
              && ps[i].upper == l.points[i].upper && ps[i].data == l.points[i].data
  {
    seq(|l.points|, i requires 0 <= i < |l.points| =>
      TaggedPoint(l.points[i].lower, l.points[i].upper, l.points[i].data, Some(l.key)))
  }

  /** `d.map(point => { point.key = d.key; return point; })`: each point object gains the key. */
  method TagPoints(points: array<TaggedPoint>, key: Key)
    modifies points
    ensures forall i :: 0 <= i < points.Length ==> points[i] == old(points[i]).(key := Some(key))
  {
    for i := 0 to points.Length
      invariant forall j :: 0 <= j < i ==> points[j] == old(points[j]).(key := Some(key))
      invariant forall j :: i <= j < points.Length ==> points[j] == old(points[j])
    {
      points[i] := points[i].(key := Some(key));
    }
  }

  /** Tagging a series' untagged points in place yields exactly the tagged series. */
  lemma TaggingUntagged(l: Layer, i: nat)
    requires i < |l.points|
    ensures Untagged(l)[i].(key := Some(l.key)) == Tag(l)[i]
  {
  }

  function KeyText(k: Option<Key>): string
  {
    match k
    case None => "undefined"
    case Some(key) => KeyName(key)
  }

  /** The bar tooltip: the series key and the cumulative upper bound `d[1]`. */
  function Tooltip(p: TaggedPoint): string
  {
    KeyText(p.key) + ": " + Text.Show(p.upper)
  }

  /**
   * The tooltip of series j at row i names key j and reads back as the sum
   * of the row's values up to and including key j, not key j's own value.
   */
  lemma TooltipShowsCumulative(rows: seq<ColumnRow>, j: nat, i: nat)
    requires j < 3 && i < |rows|
    ensures var p := Tag(Stack(rows, Keys)[j])[i];
            var tip := Tooltip(p);
            var prefix := KeyName(Keys[j]) + ": ";
            && |prefix| <= |tip| && tip[..|prefix|] == prefix
            && Text.ParseInt(tip[|prefix|..]) == Cumulative(rows[i], Keys, j + 1)
  {
    var p := Tag(Stack(rows, Keys)[j])[i];
    var prefix := KeyName(Keys[j]) + ": ";
    assert Tooltip(p)[|prefix|..] == Text.Show(p.upper);
    Text.ParseShow(p.upper);
  }

  /** Hovering Greater Sydney's family bar shows 794350, the skilled plus family count, not 312781. */
  lemma FamilyTooltipExample()
    ensures Tooltip(Tag(Stack(ColumnData, Keys)[1])[0]) == "family: " + Text.Show(794350)
  {
    var r := ColumnData[0];
    var layer := Stack(ColumnData, Keys)[1];
    assert layer == StackLayer(ColumnData, Keys, 1);
    assert layer.key == Family;
    assert layer.points[0] == StackPoint(ColumnData, Keys, 1, 0);
    assert Cumulative(r, Keys, 2) == 794350;
    var p := Tag(layer)[0];
    assert p.key == Some(Family) && p.upper == 794350;
  }
}
