/**
 * The Australia map page's data: the rows of the city, location and state
 * CSV files converted into records, the lookup of a state's record by
 * name, and the two hover tooltips built from those records.
 */
module MigrationData {
  import opened Wrappers
  import Text

  /** A row of the city CSV: the City, Skilled, Family, Humanitarian and Total columns as text. */
  datatype CityCsv = CityCsv(city: string, skilled: string, family: string, humanitarian: string, total: string)

  /** A row of the state CSV, with a State column in place of City. */
  datatype StateCsv = StateCsv(state: string, skilled: string, family: string, humanitarian: string, total: string)

  /** A row of the location CSV: place, lat and lon as text. */
  datatype LocationCsv = LocationCsv(place: string, lat: string, lon: string)

  datatype CityRecord = CityRecord(city: string, skilled: int, family: int, humanitarian: int, total: int)
  datatype StateRecord = StateRecord(state: string, skilled: int, family: int, humanitarian: int, total: int)
  datatype Location = Location(place: string, lat: real, lon: real)

  /** The row converter of the city CSV: the name kept, the counts coerced with `+`. */
  function CityFromCsv(d: CityCsv, toNumber: string -> int): CityRecord
  {
    CityRecord(d.city, toNumber(d.skilled), toNumber(d.family), toNumber(d.humanitarian), toNumber(d.total))
  }

  /** The row converter of the state CSV. */
  function StateFromCsv(d: StateCsv, toNumber: string -> int): StateRecord
  {
    StateRecord(d.state, toNumber(d.skilled), toNumber(d.family), toNumber(d.humanitarian), toNumber(d.total))
  }

  /** The row converter of the location CSV. */
  function LocationFromCsv(d: LocationCsv, toReal: string -> real): Location
  {
    Location(d.place, toReal(d.lat), toReal(d.lon))
  }

  /** `d3.csv("aus_city.csv", …)`: the row converter applied to every row, in file order. */
  function LoadLocations(rows: seq<LocationCsv>, toReal: string -> real): (ls: seq<Location>)
    ensures |ls| == |rows|
    ensures forall i :: 0 <= i < |rows| ==>
              ls[i].place == rows[i].place && ls[i].lat == toReal(rows[i].lat) && ls[i].lon == toReal(rows[i].lon)
  {
    seq(|rows|, i requires 0 <= i < |rows| => LocationFromCsv(rows[i], toReal))
  }

  /** A location row written out with a number format. */
  function LocationToCsv(l: Location, fmt: real -> string): LocationCsv
  {
    LocationCsv(l.place, fmt(l.lat), fmt(l.lon))
  }

  /** With a number reader that undoes the format, the location converter gives back the location. */
  lemma LocationCsvRoundTrip(l: Location, fmt: real -> string, toReal: string -> real)
    requires forall x :: toReal(fmt(x)) == x
    ensures LocationFromCsv(LocationToCsv(l, fmt), toReal) == l
  {
    assert toReal(fmt(l.lat)) == l.lat && toReal(fmt(l.lon)) == l.lon;
  }

  /** A city record written out as a CSV row with decimal numbers. */
  function CityToCsv(r: CityRecord): CityCsv
  {
    CityCsv(r.city, Text.Show(r.skilled), Text.Show(r.family), Text.Show(r.humanitarian), Text.Show(r.total))
  }

  function StateToCsv(r: StateRecord): StateCsv
  {
    StateCsv(r.state, Text.Show(r.skilled), Text.Show(r.family), Text.Show(r.humanitarian), Text.Show(r.total))
  }

  /** Reading a decimal city row gives back the record it was written from. */
  lemma CityCsvRoundTrip(r: CityRecord)
    ensures CityFromCsv(CityToCsv(r), Text.ParseInt) == r
  {
    Text.ParseShow(r.skilled);
    Text.ParseShow(r.family);
    Text.ParseShow(r.humanitarian);
    Text.ParseShow(r.total);
  }

  /** Reading a decimal state row gives back the record it was written from. */
  lemma StateCsvRoundTrip(r: StateRecord)
    ensures StateFromCsv(StateToCsv(r), Text.ParseInt) == r
  {
    Text.ParseShow(r.skilled);
    Text.ParseShow(r.family);
    Text.ParseShow(r.humanitarian);
    Text.ParseShow(r.total);
  }

  /**
   * `getStateData`: `stateData.find(d => d.state === name)`, the first
   * record whose name is exactly `name`, or `undefined`.
   */
  function FindState(states: seq<StateRecord>, name: string): (r: Option<StateRecord>)
    ensures r.None? <==> forall i :: 0 <= i < |states| ==> states[i].state != name
    ensures r.Some? ==> exists i :: 0 <= i < |states| && states[i] == r.value
                                    && r.value.state == name
                                    && forall j :: 0 <= j < i ==> states[j].state != name
  {
    if |states| == 0 then None
    else if states[0].state == name then Some(states[0])
    else
      var r := FindState(states[1..], name);
      assert forall i :: 0 < i < |states| ==> states[i] == states[1..][i - 1];
      r
  }

  /** The index of the first record named `name`, to state where `find` stops. */
  function FirstIndex(states: seq<StateRecord>, name: string): (k: nat)
    ensures k <= |states|
    ensures k < |states| ==> states[k].state == name
    ensures forall j :: 0 <= j < k ==> states[j].state != name
  {
    if |states| == 0 then 0
    else if states[0].state == name then 0
    else FirstIndex(states[1..], name) + 1
  }

  /** `find` returns the record at the first matching index, and nothing exactly when there is none. */
  lemma {:induction false} FindStateIsFirst(states: seq<StateRecord>, name: string)
    ensures FirstIndex(states, name) < |states| ==> FindState(states, name) == Some(states[FirstIndex(states, name)])
    ensures FirstIndex(states, name) == |states| <==> FindState(states, name).None?
  {
    if |states| > 0 && states[0].state != name {
      FindStateIsFirst(states[1..], name);
    }
  }

  /** The tooltip format both the region and the city tooltips use: a bold name, then one line per count. */
  function CountsTooltip(name: string, skilled: int, family: int, humanitarian: int, total: int): string
  {
    "<strong>" + name + "</strong><br>"
    + "Skilled: " + Text.Show(skilled) + "<br>"
    + "Family: " + Text.Show(family) + "<br>"
    + "Humanitarian: " + Text.Show(humanitarian) + "<br>"
    + "Total: " + Text.Show(total)
  }

  /** The tooltip opens with the bold name and its last line reads back as the total. */
  lemma CountsTooltipEnds(name: string, skilled: int, family: int, humanitarian: int, total: int)
    ensures var tip := CountsTooltip(name, skilled, family, humanitarian, total);
            var shown := Text.Show(total);
            && |name| + 17 <= |tip| && tip[..|name| + 17] == "<strong>" + name + "</strong>"
            && |shown| + 7 <= |tip|
            && tip[|tip| - |shown| - 7..|tip| - |shown|] == "Total: "
            && Text.ParseInt(tip[|tip| - |shown|..]) == total
  {
    var tip := CountsTooltip(name, skilled, family, humanitarian, total);
    var shown := Text.Show(total);
    assert tip[|tip| - |shown|..] == shown;
    assert tip[|tip| - |shown| - 7..|tip| - |shown|] == "Total: ";
    assert tip[..|name| + 17] == "<strong>" + name + "</strong>";
    Text.ParseShow(total);
  }

  /**
   * The tooltip shown on hovering a region: the region's name and the
   * counts of the record `getStateData` finds. The handler dereferences the
   * lookup unguarded, so it needs a record of that name.
   */
  function RegionTooltip(states: seq<StateRecord>, name: string): string
    requires FindState(states, name).Some?
  {
    var info := FindState(states, name).value;
    CountsTooltip(name, info.skilled, info.family, info.humanitarian, info.total)
  }

  /** A region's tooltip is titled with the hovered name and ends with the total of the first record of that name. */
  lemma RegionTooltipShowsRecord(states: seq<StateRecord>, name: string)
    requires FindState(states, name).Some?
    ensures var tip := RegionTooltip(states, name);
            var info := FindState(states, name).value;
            var shown := Text.Show(info.total);
            && info.state == name
            && |name| + 17 <= |tip| && tip[..|name| + 17] == "<strong>" + name + "</strong>"
            && |shown| <= |tip| && Text.ParseInt(tip[|tip| - |shown|..]) == info.total
  {
    var info := FindState(states, name).value;
    CountsTooltipEnds(name, info.skilled, info.family, info.humanitarian, info.total);
  }

  /**
   * The city tooltip of circle i: the location's place name with the counts
   * of `cityData[i]`, the record at the same index, whatever its city.
   */
  function CityTooltip(locations: seq<Location>, cityData: seq<CityRecord>, i: nat): string
    requires i < |locations| && i < |cityData|
  {
    CountsTooltip(locations[i].place, cityData[i].skilled, cityData[i].family,
                  cityData[i].humanitarian, cityData[i].total)
  }

  /** Circle i's tooltip is titled with location i's place and ends with record i's total. */
  lemma CityTooltipByIndex(locations: seq<Location>, cityData: seq<CityRecord>, i: nat)
    requires i < |locations| && i < |cityData|
    ensures var tip := CityTooltip(locations, cityData, i);
            var name := locations[i].place;
            var shown := Text.Show(cityData[i].total);
            && |name| + 17 <= |tip| && tip[..|name| + 17] == "<strong>" + name + "</strong>"
            && |shown| <= |tip| && Text.ParseInt(tip[|tip| - |shown|..]) == cityData[i].total
  {
    CountsTooltipEnds(locations[i].place, cityData[i].skilled, cityData[i].family,
                      cityData[i].humanitarian, cityData[i].total);
  }

  /**
   * Circle i of the loaded location file is titled with row i's `place`,
   * and shows the total of `cityData[i]`.
   */
  lemma CityTooltipOfRow(rows: seq<LocationCsv>, toReal: string -> real, cityData: seq<CityRecord>, i: nat)
    requires i < |rows| && i < |cityData|
    ensures var tip := CityTooltip(LoadLocations(rows, toReal), cityData, i);
            var name := rows[i].place;
            var shown := Text.Show(cityData[i].total);
            && |name| + 17 <= |tip| && tip[..|name| + 17] == "<strong>" + name + "</strong>"
            && |shown| <= |tip| && Text.ParseInt(tip[|tip| - |shown|..]) == cityData[i].total
  {
    CityTooltipByIndex(LoadLocations(rows, toReal), cityData, i);
  }
}
