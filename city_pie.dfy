/**
 * The drill-down pie chart drawn when a city circle is clicked: the
 * selection of the city's records, the split of the first record into
 * category names and values, and the chart container that keeps at most
 * one pie chart and a log of errors.
 */
module CityPie {
  import opened Wrappers
  import Text
  import opened MigrationData

  const NoDataMessage: string := "No data found for the selected city."

  /** A record field as JavaScript sees it: the city name or a count. */
  datatype Value = Str(s: string) | Num(n: int)

  /** A city record as an object, its keys in the order the row converter creates them. */
  function RecordObject(r: CityRecord): seq<(string, Value)>
  {
    [("city", Str(r.city)), ("skilled", Num(r.skilled)), ("family", Num(r.family)),
     ("humanitarian", Num(r.humanitarian)), ("total", Num(r.total))]
  }

  /** `Object.keys`. */
  function Keys(obj: seq<(string, Value)>): (ks: seq<string>)
    ensures |ks| == |obj| && forall i :: 0 <= i < |obj| ==> ks[i] == obj[i].0
  {
    seq(|obj|, i requires 0 <= i < |obj| => obj[i].0)
  }

  /** `obj[key]`: the value of the first field named `key`, if any. */
  function Lookup(obj: seq<(string, Value)>, key: string): Option<Value>
  {
    if |obj| == 0 then None
    else if obj[0].0 == key then Some(obj[0].1)
    else Lookup(obj[1..], key)
  }

  /** `keys.filter(key => key !== "city" && key !== "total")`. */
  function CategoryKeys(keys: seq<string>): (cs: seq<string>)
    ensures forall c :: c in cs ==> c in keys && c != "city" && c != "total"
  {
    if |keys| == 0 then []
    else (if keys[0] != "city" && keys[0] != "total" then [keys[0]] else []) + CategoryKeys(keys[1..])
  }

  /** `years.map(year => record[year])`. */
  function Values(obj: seq<(string, Value)>, keys: seq<string>): (vs: seq<Option<Value>>)
    ensures |vs| == |keys| && forall i :: 0 <= i < |keys| ==> vs[i] == Lookup(obj, keys[i])
  {
    seq(|keys|, i requires 0 <= i < |keys| => Lookup(obj, keys[i]))
  }

  /** `cityData.filter(d => d.city === cityName)`. */
  function Selected(cityData: seq<CityRecord>, name: string): (sel: seq<CityRecord>)
    ensures forall r :: r in sel ==> r in cityData && r.city == name
    ensures |sel| == 0 <==> forall i :: 0 <= i < |cityData| ==> cityData[i].city != name
  {
    if |cityData| == 0 then []
    else
      var rest := Selected(cityData[1..], name);
      assert forall i :: 0 < i < |cityData| ==> cityData[i] == cityData[1..][i - 1];
      (if cityData[0].city == name then [cityData[0]] else []) + rest
  }

  /** The first selected record is the first record with that city name in the data. */
  lemma {:induction false} FirstSelected(cityData: seq<CityRecord>, name: string, k: nat)
    requires k < |cityData| && cityData[k].city == name
    requires forall j :: 0 <= j < k ==> cityData[j].city != name
    ensures |Selected(cityData, name)| > 0 && Selected(cityData, name)[0] == cityData[k]
  {
    if k > 0 {
      FirstSelected(cityData[1..], name, k - 1);
    }
  }

  /** A drawn pie chart: its title, the legend categories and one wedge value per category, unsorted. */
  datatype PieChart = PieChart(title: string, categories: seq<string>, values: seq<Option<Value>>)

  /** The chart drawn for a record: categories from its keys, values looked up by them. */
  function PieFor(r: CityRecord, name: string): PieChart
  {
    var years := CategoryKeys(Keys(RecordObject(r)));
    PieChart(name + " Migration Data", years, Values(RecordObject(r), years))
  }

  /**
   * The categories are skilled, family and humanitarian, in the record's key
   * order, and the wedges are those counts of the record in the same order.
   */
  lemma PieCategories(r: CityRecord, name: string)
    ensures PieFor(r, name).categories == ["skilled", "family", "humanitarian"]
    ensures PieFor(r, name).values == [Some(Num(r.skilled)), Some(Num(r.family)), Some(Num(r.humanitarian))]
    ensures PieFor(r, name).title == name + " Migration Data"
  {
    var keys := Keys(RecordObject(r));
    assert keys == ["city", "skilled", "family", "humanitarian", "total"];
    assert CategoryKeys(keys[4..]) == [];
    assert CategoryKeys(keys[3..]) == ["humanitarian"];
    assert CategoryKeys(keys[2..]) == ["family", "humanitarian"];
    assert CategoryKeys(keys[1..]) == ["skilled", "family", "humanitarian"];
    var obj := RecordObject(r);
    assert Lookup(obj[3..], "humanitarian") == Some(Num(r.humanitarian));
    assert Lookup(obj[2..], "humanitarian") == Some(Num(r.humanitarian));
    assert Lookup(obj[2..], "family") == Some(Num(r.family));
    assert Lookup(obj[1..], "humanitarian") == Some(Num(r.humanitarian));
    assert Lookup(obj[1..], "family") == Some(Num(r.family));
    assert Lookup(obj[1..], "skilled") == Some(Num(r.skilled));
    assert Lookup(obj, "skilled") == Some(Num(r.skilled));
    assert Lookup(obj, "family") == Some(Num(r.family));
    assert Lookup(obj, "humanitarian") == Some(Num(r.humanitarian));
    var vs := Values(obj, CategoryKeys(keys));
    assert vs[0] == Some(Num(r.skilled)) && vs[1] == Some(Num(r.family)) && vs[2] == Some(Num(r.humanitarian));
  }

  /** Perth with 100 skilled, 50 family and 20 humanitarian migrants gives three wedges 100, 50, 20. */
  lemma PerthExample()
    ensures var chart := PieFor(CityRecord("Perth", 100, 50, 20, 170), "Perth");
            && |chart.values| == 3
            && chart.values == [Some(Num(100)), Some(Num(50)), Some(Num(20))]
            && chart.title == "Perth Migration Data"
  {
    PieCategories(CityRecord("Perth", 100, 50, 20, 170), "Perth");
  }

  /** How a wedge value appears when concatenated into a string. */
  function ValueText(v: Option<Value>): string
  {
    match v
    case None => "undefined"
    case Some(Str(s)) => s
    case Some(Num(n)) => Text.Show(n)
  }

  /** The tooltip of wedge i: its category and its value. */
  function WedgeTooltip(chart: PieChart, i: nat): string
    requires i < |chart.categories| && i < |chart.values|
  {
    chart.categories[i] + ": " + ValueText(chart.values[i])
  }

  /** The three counts of a record, in the order the pie's categories come. */
  function CategoryCounts(r: CityRecord): seq<int>
  {
    [r.skilled, r.family, r.humanitarian]
  }

  /** Wedge i's tooltip names category i and reads back as that category's count. */
  lemma WedgeTooltipShowsCount(r: CityRecord, name: string, i: nat)
    requires i < 3
    ensures |PieFor(r, name).categories| == 3 && |PieFor(r, name).values| == 3
    ensures var category := ["skilled", "family", "humanitarian"][i];
            var tip := WedgeTooltip(PieFor(r, name), i);
            && tip == category + ": " + Text.Show(CategoryCounts(r)[i])
            && Text.ParseInt(tip[|category| + 2..]) == CategoryCounts(r)[i]
  {
    PieCategories(r, name);
    var category := ["skilled", "family", "humanitarian"][i];
    var tip := WedgeTooltip(PieFor(r, name), i);
    assert tip[|category| + 2..] == Text.Show(CategoryCounts(r)[i]);
    Text.ParseShow(CategoryCounts(r)[i]);
  }

  /** The second wedge of a city's chart names the family category and reads back as the family count. */
  lemma FamilyWedgeTooltip(r: CityRecord, name: string)
    ensures |PieFor(r, name).categories| == 3 && |PieFor(r, name).values| == 3
    ensures WedgeTooltip(PieFor(r, name), 1) == "family: " + Text.Show(r.family)
    ensures Text.ParseInt(WedgeTooltip(PieFor(r, name), 1)[8..]) == r.family
  {
    PieCategories(r, name);
    Text.ParseShow(r.family);
  }

  /** The `#chart-container` element, as far as the drill-down changes it. */
  class ChartContainer {
    /** The `.city-pie-chart` elements, in document order. */
    var pieCharts: seq<PieChart>
    /** One tooltip `div` is appended per drawn chart and none is removed. */
    var tooltipDivs: nat
    /** The console error log. */
    var errors: seq<string>

    ghost predicate Valid()
      reads this
    {
      |pieCharts| <= 1
    }

    constructor()
      ensures Valid()
      ensures pieCharts == [] && tooltipDivs == 0 && errors == []
    {
      pieCharts := [];
      tooltipDivs := 0;
      errors := [];
    }

    /**
     * `drawCityPieChart(cityName)`: with no record of that city it logs an
     * error and returns, leaving any chart in place; otherwise it removes
     * the first existing pie chart, then appends the new one and its tooltip.
     */
    method DrawCityPieChart(cityData: seq<CityRecord>, cityName: string)
      modifies this
      ensures Selected(cityData, cityName) == [] ==>
                pieCharts == old(pieCharts) && tooltipDivs == old(tooltipDivs)
                && errors == old(errors) + [NoDataMessage]
      ensures Selected(cityData, cityName) != [] ==>
                pieCharts == (if old(pieCharts) == [] then [] else old(pieCharts)[1..])
                              + [PieFor(Selected(cityData, cityName)[0], cityName)]
                && tooltipDivs == old(tooltipDivs) + 1 && errors == old(errors)
      ensures old(Valid()) ==> Valid()
      ensures Selected(cityData, cityName) != [] && old(Valid()) ==>
                pieCharts == [PieFor(Selected(cityData, cityName)[0], cityName)]
    {
      var selectedCityData := Selected(cityData, cityName);
      if |selectedCityData| == 0 {
        errors := errors + [NoDataMessage];
        return;
      }
      if pieCharts != [] {
        pieCharts := pieCharts[1..];
      }
      var years := CategoryKeys(Keys(RecordObject(selectedCityData[0])));
      var dataValues := Values(RecordObject(selectedCityData[0]), years);
      tooltipDivs := tooltipDivs + 1;
      pieCharts := pieCharts + [PieChart(cityName + " Migration Data", years, dataValues)];
    }
  }
}
