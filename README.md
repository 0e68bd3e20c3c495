# Migration in Australia — a verified model of the chart logic

This project is a Dafny model of the computational core of four D3 charts about migration to Australia:

- **chart1** is the Australia map page:
  - the region paths and their hover flags;
  - the region labels and their offset rule;
  - the city circles and their radius cycle;
  - the state lookup and the tooltips;
  - the drill-down pie chart of a clicked city;
  - the age-group column chart.
- **chart2** is the education line chart: a wide-to-long pivot of the table, the per-type series, the y-domain, the point positions and the tooltip.
- **chart3** is the New South Wales page: the `processedData` records, the `csvContent` text of the city list, the city dots, and the stacked column chart with its cumulative extents, y-domain, bar heights and key-tagged tooltips.
- **chart4** is the population-components chart: the numeric coercion of the rows, the signed padded y-domain, the zero line, the three bar formulas, the area labels, the tooltip, and the series-wide highlight/fade hover behaviour.

## Modules

- `Wrappers` holds `Option`, which stands for JavaScript's `undefined`.
- `Text` turns integers into decimal text and parses it back, and splits text on a separator character.
- `Stats` is `d3.max`/`d3.min` (`None` on empty input, and `MaxPresent` skips `undefined`) and `Math.max`/`Math.min`.
- `Scales` is the linear scale, as an affine map from a domain onto an inverted pixel range.
- The chart modules are `MigrationData`, `CityPie`, `StateMap` and `AgeGroupChart` (chart1), `EducationChart` (chart2), `NswMigration` (chart3) and `PopulationEffect` (chart4).

## How the code's shape is kept

Where the JavaScript changes things step by step, the model does too:

| Source behaviour | Model |
|---|---|
| `forEach` that rewrites rows, pushes onto an array or appends to a string | A method with a loop, proved equal to a specification function |
| `point.key = d.key` mutation in chart3 | A loop over an array |
| Hover handlers | Classes over arrays of flags or radii |
| `drawCityPieChart` | A class standing for `#chart-container` |

Where the code is an expression, the model is a function, and lemmas state what it means.

## Model

| member | source | states |
|---|---|---|
| Stats.Largest | javascript/chart4.js:25-25 | `Math.max` of a non-empty list bounds every element and is one of them. |
| Stats.Smallest | javascript/chart4.js:24-24 | `Math.min` of a non-empty list is below every element and is one of them. |
| Stats.Max | javascript/chart2.js:39-39 | `d3.max` is `undefined` exactly on empty input; otherwise it bounds every element and is attained. |
| Stats.Min | javascript/chart4.js:24-24 | `d3.min` is `undefined` exactly on empty input; otherwise it is below every element and is attained. |
| Stats.MaxPresent | javascript/chart3.js:166-166 | The outer `d3.max` over per-series maxima ignores `undefined` entries: it is `undefined` iff all are, and otherwise it bounds every defined entry and is one of them. |
| Stats.MaxPresentIs | javascript/chart3.js:166-166 | A defined entry that bounds all defined entries is the maximum. |
| Scales.Apply | javascript/chart4.js:23-26 | `d3.scaleLinear().domain([d0, d1]).range([r0, r1])` applied to a value: the affine map with `d0 ↦ r0` and `d1 ↦ r1`, for a non-degenerate domain. `Ends`, `Decreasing`, `Injective`, `InRange` and `GapAbs` state its properties. |
| Scales.FromZero | javascript/chart1.js:446-449 | The chart scale `[0, m]` onto `[bottom, top]` with `top` above `bottom` is inverted and sends 0 to the bottom edge. The y-scales of chart1, chart2 and chart3 are built with it. |
| Scales.Ends | javascript/chart4.js:23-26 | The scale sends the domain ends to the range ends. |
| Scales.GapAbs | javascript/chart4.js:78-78 | The pixel distance of two values is their distance times the slope. |
| Scales.Decreasing | javascript/chart4.js:26-26 | An inverted scale (range `[height, 0]`) is strictly decreasing. |
| Scales.Injective | javascript/chart4.js:26-26 | An inverted scale maps equal pixels only from equal values, in both directions. |
| Scales.InRange | javascript/chart4.js:26-26 | A domain value is drawn inside the pixel range. |
| Text.Show | javascript/chart2.js:115-115 | The decimal text JavaScript writes when a count is concatenated into a string: non-empty, digits with an optional leading minus sign. `ParseShow` shows that it reads back. |
| Text.ParseInt | javascript/chart1.js:149-152 | Unary `+` on decimal text: an optional minus sign, then the digits read in base 10. `ParseShow` shows it inverts `Show`. |
| Text.ParseShow | javascript/chart1.js:149-152 | `+` applied to the decimal text of an integer gives the integer back. |
| Text.Split | javascript/chart3.js:68-72 | The reader used to state what the CSV text contains: the pieces between separators, always at least one. `SplitWithoutSeparator`, `SplitAtSeparator` and `JoinSplit` state its properties. |
| Text.JoinSplit | javascript/chart3.js:68-72 | A property of the model's text reader `Split`: joining the pieces of a split on the same separator rebuilds the text. `NswMigration.CsvTextIsJoin` uses it to show that the `+=` text is its lines joined with newlines. |
| Text.SplitAtSeparator | javascript/chart3.js:71-71 | Splitting `head + sep + tail`, where `head` has no separator, yields `head` followed by the pieces of `tail`. |
| MigrationData.CityFromCsv | javascript/chart1.js:146-153 | The city row converter keeps `city` and applies `+` to the four count columns. `CityCsvRoundTrip` shows it recovers a record written in decimal. |
| MigrationData.StateFromCsv | javascript/chart1.js:240-247 | The state row converter keeps `state` and applies `+` to the four count columns. `StateCsvRoundTrip` shows it recovers a record written in decimal. |
| MigrationData.CityCsvRoundTrip | javascript/chart1.js:146-153 | The city row converter, applied to a row written in decimal, gives back the record. |
| MigrationData.StateCsvRoundTrip | javascript/chart1.js:240-247 | The state row converter, applied to a row written in decimal, gives back the record. |
| MigrationData.FindState | javascript/chart1.js:253-257 | `getStateData` returns nothing iff no record's `state` equals the name exactly. A found record has that name, and every record before it has a different name. |
| MigrationData.FirstIndex | javascript/chart1.js:254-256 | The index where `find` stops: the first record with the name, or the length if there is none. |
| MigrationData.FindStateIsFirst | javascript/chart1.js:253-257 | `getStateData` returns the record at the first matching index, and returns nothing exactly when that index is the length. |
| MigrationData.LocationFromCsv | javascript/chart1.js:158-163 | The `aus_city.csv` row converter keeps `place` and applies `+` to `lat` and `lon`. `LocationCsvRoundTrip` shows it recovers a location whose numbers are written by a format the reader undoes. |
| MigrationData.LoadLocations | javascript/chart1.js:158-164 | `locationData`: one location per row of the file, in file order, each with the row's place and its coerced latitude and longitude. |
| MigrationData.LocationCsvRoundTrip | javascript/chart1.js:158-163 | With a number reader that undoes the format, converting a written-out location gives back the location. |
| MigrationData.CountsTooltip | javascript/chart1.js:84-88 | The shared tooltip text: the bold name, then the skilled, family, humanitarian and total lines separated by `<br>`. `CountsTooltipEnds` states its first and last parts. |
| MigrationData.RegionTooltip | javascript/chart1.js:83-88 | A region's tooltip: `CountsTooltip` of the hovered name with the counts of the record `getStateData` finds. `RegionTooltipShowsRecord` states what it shows. |
| MigrationData.CityTooltip | javascript/chart1.js:210-214 | Circle i's tooltip: `CountsTooltip` of location i's place with record i's counts. `CityTooltipByIndex` states the join by index. |
| MigrationData.CountsTooltipEnds | javascript/chart1.js:84-88 | The count tooltip opens with the bold name, and its last line is `Total: ` followed by text that parses back to the total. |
| MigrationData.RegionTooltipShowsRecord | javascript/chart1.js:83-88 | A region's tooltip is titled with the hovered name and ends with the total of the first state record of that exact name. |
| MigrationData.CityTooltipByIndex | javascript/chart1.js:210-214 | Circle i's tooltip is titled with location i's place and shows record i's total: the two files are joined by index, not by name. |
| MigrationData.CityTooltipOfRow | javascript/chart1.js:158-214 | Circle i, drawn from the loaded `aus_city.csv`, is titled with row i's `place` and ends with the total of `cityData[i]`, which reads back. |
| CityPie.Keys | javascript/chart1.js:282-282 | `Object.keys` lists the field names in order. |
| CityPie.CategoryKeys | javascript/chart1.js:282-284 | Every category kept is a key and is neither `city` nor `total`. |
| CityPie.Values | javascript/chart1.js:287-289 | One value per category, each the record's field of that name. |
| CityPie.Selected | javascript/chart1.js:268-270 | The filter keeps only records of the city, and it is empty iff no record has that city. |
| CityPie.FirstSelected | javascript/chart1.js:268-288 | The record charted is the first record of that city in the data. |
| CityPie.PieFor | javascript/chart1.js:282-289 | The pie drawn for a record: the title `<name> Migration Data`, the category keys, and their values. `PieCategories` and `PerthExample` state what these are. |
| CityPie.PieCategories | javascript/chart1.js:282-289 | The categories are exactly skilled, family and humanitarian, in key order. The wedge values are those three counts in the same order, unsorted. The title is `<name> Migration Data`. |
| CityPie.PerthExample | javascript/chart1.js:282-311 | A record with 100/50/20 gives exactly three wedges, 100, 50 and 20, titled `Perth Migration Data`. |
| CityPie.WedgeTooltip | javascript/chart1.js:319-322 | Wedge i's tooltip is its category, `: `, and its value. `FamilyWedgeTooltip` states it for the family wedge. |
| CityPie.WedgeTooltipShowsCount | javascript/chart1.js:319-322 | For each of the three wedges, the tooltip is `skilled: `, `family: ` or `humanitarian: ` in wedge order, followed by that count, which reads back. |
| CityPie.FamilyWedgeTooltip | javascript/chart1.js:322-322 | The second wedge's tooltip is `family: ` followed by the family count, which reads back. |
| CityPie.ChartContainer.constructor | javascript/chart1.js:21-24 | A fresh container has no pie chart, no tooltip div and no logged error. |
| CityPie.ChartContainer.DrawCityPieChart | javascript/chart1.js:263-372 | On a name with no record, only the error is logged and any existing chart survives. On a match, the first existing chart is removed and the new chart and one tooltip div are appended. At most one chart exists afterwards, and it is the chart of the first matching record. |
| StateMap.LabelOffset | javascript/chart1.js:124-135 | A label's shift from its centroid: fixed for Northern Territory and Victoria, otherwise chosen by which half of the map the centroid is in. `LabelOffsetRule` states the rule. |
| StateMap.LabelY | javascript/chart1.js:122-137 | A label's y is the centroid's y plus the offset. |
| StateMap.LabelOffsetRule | javascript/chart1.js:124-136 | The offset is 45 for Northern Territory and 10 for Victoria, wherever their centroid lies. Otherwise it is -15 below mid-height and 14 at or above it. |
| StateMap.LabelTowardsMiddle | javascript/chart1.js:130-135 | An unnamed region's label moves up exactly when its centroid is in the lower half. |
| StateMap.RegionOver | javascript/chart1.js:74-77 | The flags after mouseover on path k, one per path. `OverFadesOthers` states which paths are faded and highlighted. |
| StateMap.RegionOut | javascript/chart1.js:99-101 | The flags after mouseout on path k, one per path. `OutClearsFade` states that no fade remains. |
| StateMap.OverFadesOthers | javascript/chart1.js:74-77 | After mouseover on path k, exactly the paths other than k are faded and k is highlighted. Other paths keep their highlight. |
| StateMap.OutClearsFade | javascript/chart1.js:99-101 | After mouseout on path k, no path is faded and k is not highlighted. Other paths keep their highlight. |
| StateMap.OverOutRestores | javascript/chart1.js:74-101 | Hovering and leaving a region on a plain map gives the plain map back. |
| StateMap.RegionPaths.constructor | javascript/chart1.js:67-73 | Paths are drawn neither highlighted nor faded. |
| StateMap.RegionPaths.MouseOver | javascript/chart1.js:74-77 | The three class updates applied to the flag array give the `RegionOver` flags. |
| StateMap.RegionPaths.MouseOut | javascript/chart1.js:99-101 | The two class updates applied to the flag array give the `RegionOut` flags. |
| StateMap.RadiusAfter | javascript/chart1.js:203-220 | A circle's radius after a run of enter and leave events: 6 after an enter, 5 after a leave. `RadiusCycle` states the cycle. |
| StateMap.RadiusCycle | javascript/chart1.js:198-220 | Once touched, a circle's radius is 6 if the last event was an enter and 5 otherwise. It is never the drawn radius 4 again. |
| StateMap.CityCircles.constructor | javascript/chart1.js:198-198 | Every circle is drawn with radius 4. |
| StateMap.CityCircles.MouseOver | javascript/chart1.js:204-205 | Only the hovered circle changes, to radius 6. |
| StateMap.CityCircles.MouseOut | javascript/chart1.js:219-220 | Only the circle left changes, to radius 5. |
| AgeGroupChart.GroupMax | javascript/chart1.js:447-447 | The inner `d3.max` over a group's skilled, family and humanitarian counts. `GroupMaxBounds` and `GroupMaxAtMost` state its properties. |
| AgeGroupChart.YMax | javascript/chart1.js:446-447 | The outer `d3.max` over the groups' maxima, which is the domain's upper end. `YMaxBounds`, `YMaxIsBound` and `AgeGroupsYMax` state its properties. |
| AgeGroupChart.GroupMaxBounds | javascript/chart1.js:447-447 | The inner `d3.max` of a group is one of its three counts and bounds each of them. |
| AgeGroupChart.GroupMaxAtMost | javascript/chart1.js:447-447 | A bound on a group's three counts bounds its maximum. |
| AgeGroupChart.YMaxBounds | javascript/chart1.js:446-449 | The y-domain's upper end bounds every count of every category in every row, and is attained by one of them. |
| AgeGroupChart.TableAtMost | javascript/chart1.js:411-424 | No count in the age-group table exceeds 319100. |
| AgeGroupChart.YMaxIsBound | javascript/chart1.js:446-449 | A count that bounds all counts is the domain's upper end. |
| AgeGroupChart.AgeGroupsYMax | javascript/chart1.js:411-449 | For the table as written, the domain's upper end is 319100 (skilled, 35-39). |
| AgeGroupChart.YScale | javascript/chart1.js:446-449 | The y-scale `[0, max]` onto `[400, 0]`, built with `Scales.FromZero`, which proves it inverted. |
| AgeGroupChart.SubBar | javascript/chart1.js:491-546 | Each sub-bar sits at its category's offset and is a quarter band wide. |
| AgeGroupChart.OnBaseLine | javascript/chart1.js:494-496 | Every bar's top plus its height is the chart height. |
| AgeGroupChart.InsideChart | javascript/chart1.js:494-496 | A count inside the domain gives a bar of non-negative height that fits in the chart. |
| AgeGroupChart.SubBarsLayout | javascript/chart1.js:493-545 | The bars sit at bw/4, bw/2 and 3bw/4, inside `[0, bw]`, pairwise disjoint and in category order. |
| AgeGroupChart.GroupTooltip | javascript/chart1.js:502-505 | The group tooltip: the bold age group, then the skilled, family and humanitarian lines. `GroupTooltipEnds` states how it ends. |
| AgeGroupChart.GroupTooltipEnds | javascript/chart1.js:502-505 | The group tooltip ends with the humanitarian count, which reads back. |
| EducationChart.CellOf | javascript/chart2.js:25-26 | A row has a cell for a column iff some pair carries that column name, and the cell is that pair's text. |
| EducationChart.Parsed | javascript/chart2.js:17-30 | The specification of `parsedData`: each row contributes one entry per non-level column, in row order. `Pivot` proves the loops build it, and `PivotMembers` and `PivotLength` state its contents and length. |
| EducationChart.Pivot | javascript/chart2.js:17-30 | The nested `forEach` loops build exactly `Parsed`: one entry per non-level cell, row-major and then in column order. |
| EducationChart.ColumnEntriesLength | javascript/chart2.js:19-29 | A row contributes one entry per non-level column. |
| EducationChart.PivotLength | javascript/chart2.js:17-30 | The pivot's length is the sum over rows of the non-level column counts. |
| EducationChart.AllDataColumns | javascript/chart2.js:21-21 | Without a level column, every column yields an entry. |
| EducationChart.DataColumnsOfRow | javascript/chart2.js:19-21 | A row with distinct keys and a level column yields exactly one entry fewer than it has columns. |
| EducationChart.ColumnEntriesMembers | javascript/chart2.js:19-28 | A row's entries are exactly its non-level columns, each with the row's level and the coerced cell. |
| EducationChart.PivotMembers | javascript/chart2.js:17-30 | An entry is in `parsedData` iff it is some row's non-level column, carrying the column name, that row's level and the coerced cell. |
| EducationChart.NoLevelEntries | javascript/chart2.js:21-27 | No entry has type `Level of education`. |
| EducationChart.Filter | javascript/chart2.js:92-99 | `parsedData.filter(d => d.type === type)`: the entries of that type in order, never more than the input. `FilterAppend`, `FilterIsSeries` and `TypeSeries` state what it keeps. |
| EducationChart.FilterAppend | javascript/chart2.js:99-99 | Filtering distributes over concatenation. |
| EducationChart.FilterColumnEntries | javascript/chart2.js:99-99 | Filtering a row's entries by a type keeps exactly the entry of that column, if the row has one. |
| EducationChart.FilterIsSeries | javascript/chart2.js:92-99 | Filtering `parsedData` by a type gives that type's series: one entry per row that has the column, in row order. |
| EducationChart.TypeSeries | javascript/chart2.js:66-99 | Each of Skilled, Family and Humanitarian filters to its own series. |
| EducationChart.MaxCount | javascript/chart2.js:39-39 | `d3.max` of the entries' counts, the y-domain's upper end. `MaxCountBounds` states its properties. |
| EducationChart.MaxCountBounds | javascript/chart2.js:38-39 | The domain's upper end is `undefined` iff there are no entries; otherwise the max bounds every count and is one of them. |
| EducationChart.YScale | javascript/chart2.js:38-41 | The y-scale `[0, max]` onto `[height - 200, 80]`, built with `Scales.FromZero`, which proves it inverted. |
| EducationChart.PointY | javascript/chart2.js:89-107 | A point's `cy` and a line vertex's y: the y-scale applied to the count. `PointYInPlot` states where it lies. |
| EducationChart.PointYInPlot | javascript/chart2.js:107-107 | A count inside the domain is drawn between the top and bottom margins. |
| EducationChart.PointX | javascript/chart2.js:106-106 | A point with a level is centred in its level's band. A point with no level has no position. |
| EducationChart.SameLevelSameX | javascript/chart2.js:88-106 | All types at one level share the same cx. |
| EducationChart.Tooltip | javascript/chart2.js:115-115 | The point tooltip: the type, `<br>`, the level, `: ` and the count. `TooltipParts` states its parts. |
| EducationChart.TooltipParts | javascript/chart2.js:115-115 | The tooltip is, in order: the type, `<br>`, the level (`undefined` when missing), `: `, and a tail that reads back as the count. |
| NswMigration.ProcessData | javascript/chart3.js:35-43 | `processedData` has one record per CSV row, in order, with the City and the three coerced counts. |
| NswMigration.CsvLine | javascript/chart3.js:71-71 | One city's line: name, latitude and longitude separated by commas. `CsvLineFields` shows it splits back into those three. |
| NswMigration.CsvText | javascript/chart3.js:68-72 | The specification of `csvContent`: the header line and then each city's line, each ended by a newline. `BuildCsv` proves the loop builds it, and `CsvLines` and `CsvTextIsJoin` state its lines. |
| NswMigration.CsvBodyAppend | javascript/chart3.js:70-72 | Each city appends exactly its own newline-terminated line. |
| NswMigration.BuildCsv | javascript/chart3.js:68-72 | The `+=` loop builds exactly the header line followed by one line per city, in array order. |
| NswMigration.CsvLineFields | javascript/chart3.js:71-71 | A line splits on commas into exactly name, latitude, longitude. |
| NswMigration.CsvBodyLines | javascript/chart3.js:70-72 | The city lines split on newlines into one line per city, in order, then an empty tail. |
| NswMigration.CsvLines | javascript/chart3.js:68-72 | The whole text splits on newlines into the header, one line per city, and an empty tail. |
| NswMigration.CsvLineAt | javascript/chart3.js:68-72 | By index: line 0 is the header, line i + 1 is city i's line, and the piece after the last newline is empty. |
| NswMigration.CsvTextIsJoin | javascript/chart3.js:68-72 | The text is the header and the city lines, in order, joined with newlines and ending with a newline. |
| NswMigration.CsvStartsWithHeader | javascript/chart3.js:68-68 | The text starts with `place,lat,lon\n`. |
| NswMigration.CityNamesPlain | javascript/chart3.js:55-66 | No name in the `cities` array contains a comma or a newline. |
| NswMigration.CitiesCsv | javascript/chart3.js:55-72 | For the `cities` array, the text splits into the header, ten city lines in array order, and an empty tail. |
| NswMigration.SydneyLine | javascript/chart3.js:56-71 | The first city line reads back as `Sydney`, then its latitude -33.8688, then its longitude 151.2093. |
| NswMigration.CoordinateOrder | javascript/chart3.js:71-81 | The CSV line writes `coordinates[0]` then `coordinates[1]`, which is latitude then longitude. The projection receives them the other way round. |
| NswMigration.CityDots | javascript/chart3.js:77-82 | One dot of radius 5 per city, at the projection of `[lon, lat]`. |
| NswMigration.CitiesDots | javascript/chart3.js:55-82 | The `cities` array gives ten dots. The first is Sydney's, and the projection receives its longitude 151.2093 first. |
| NswMigration.StackLayer | javascript/chart3.js:151-153 | A series has its key and one point per row. |
| NswMigration.Stack | javascript/chart3.js:151-153 | One series per key, in key order. |
| NswMigration.StackExtents | javascript/chart3.js:151-153 | The first key starts at 0, and key j+1 starts where key j ends. Each extent is as long as its key's value, and each point carries its row. |
| NswMigration.StackTopIsTotal | javascript/chart3.js:151-153 | The last key's upper bound is the row total. |
| NswMigration.Cumulative | javascript/chart3.js:151-153 | The sum of a row's values for the first j keys: the stack's lower bound for key j. `StackExtents`, `StackTopIsTotal` and `CumulativeMonotone` state its use and properties. |
| NswMigration.CumulativeMonotone | javascript/chart3.js:151-153 | For non-negative counts, the cumulative sums grow with the key index. |
| NswMigration.StackBelowTotal | javascript/chart3.js:151-153 | For non-negative counts, no upper bound exceeds the row total. |
| NswMigration.UpperAtMostLargestTotal | javascript/chart3.js:165-166 | For non-negative counts, every stacked upper bound is at most the largest row total. |
| NswMigration.LargestTotalIsUpper | javascript/chart3.js:165-166 | The largest row total is the upper bound of some point of the last series. |
| NswMigration.YMax | javascript/chart3.js:166-166 | The outer `d3.max` over the series' inner maxima of `d[1]`. `YMaxOfNoRows`, `YMaxBetween` and `YMaxIsLargestTotal` state what it is. |
| NswMigration.YMaxOfNoRows | javascript/chart3.js:166-166 | With no rows the domain's upper end is `undefined`. |
| NswMigration.YMaxBetween | javascript/chart3.js:165-166 | With rows and non-negative counts, the domain's upper end is the largest row total. |
| NswMigration.YMaxIsLargestTotal | javascript/chart3.js:165-166 | For non-negative counts, the max of the per-series maxima of `d[1]` equals `d3.max` of the row totals, including the empty case. |
| NswMigration.ColumnDataYMax | javascript/chart3.js:145-166 | For the two given rows, the domain's upper end is 880748. |
| NswMigration.YScale | javascript/chart3.js:165-167 | The y-scale `[0, m]` onto `[450, 0]`, built with `Scales.FromZero`, which proves it inverted. |
| NswMigration.BarRect | javascript/chart3.js:194-197 | A bar sits at its city's band start and is one band wide. |
| NswMigration.BarHeight | javascript/chart3.js:196-196 | `yScale(d[0]) - yScale(d[1])` is the extent times the slope, and is non-negative for an ordered extent. |
| NswMigration.BarInsideChart | javascript/chart3.js:195-196 | An extent inside the domain is drawn inside the chart. |
| NswMigration.StackedBarsNonNegative | javascript/chart3.js:165-196 | With non-negative counts, every stacked bar of the computed domain has a non-negative height. |
| NswMigration.Untagged | javascript/chart3.js:153-153 | Stack points start without a key. |
| NswMigration.Tag | javascript/chart3.js:187-192 | Each point gains its series key and keeps its extent and data. |
| NswMigration.TaggingUntagged | javascript/chart3.js:188-191 | Setting the key on an untagged point gives the tagged point. |
| NswMigration.TagPoints | javascript/chart3.js:187-192 | The in-place loop sets every point's key to the series key and changes nothing else. |
| NswMigration.Tooltip | javascript/chart3.js:203-205 | A bar's tooltip: its key, `: ` and its upper bound `d[1]`. `TooltipShowsCumulative` and `FamilyTooltipExample` state what it shows. |
| NswMigration.TooltipShowsCumulative | javascript/chart3.js:203-205 | The tooltip of series j names key j, and reads back as the cumulative sum up to and including key j (`d[1]`), not key j's own value. |
| NswMigration.FamilyTooltipExample | javascript/chart3.js:203-205 | Greater Sydney's family bar shows 794350, not its family count 312781. |
| PopulationEffect.Coerce | javascript/chart4.js:17-19 | Unary `+` always yields a number, and leaves a number unchanged. |
| PopulationEffect.CoerceRow | javascript/chart4.js:16-20 | After the three assignments every numeric column holds a number, and the area name is unchanged. An already-coerced row stays the same. |
| PopulationEffect.CoerceRowIdempotent | javascript/chart4.js:16-20 | Coercing twice is coercing once. |
| PopulationEffect.CoerceAll | javascript/chart4.js:16-20 | The in-place `forEach` leaves each row coerced, with its area name unchanged. |
| PopulationEffect.RowBounds | javascript/chart4.js:24-25 | `Math.min(0, …)` and `Math.max(0, …)` bound zero and each of the row's three values. |
| PopulationEffect.YDomain | javascript/chart4.js:23-25 | There is no domain iff there are no rows. |
| PopulationEffect.YDomainBounds | javascript/chart4.js:23-25 | The domain satisfies `lower <= -1000` and `1000 <= upper`. Shrunk by 1000 on each side, it covers every row's values and zero, and both of its ends are attained. |
| PopulationEffect.YDomainExample | javascript/chart4.js:23-25 | Values spanning -500..1000 give the domain `[-1500, 2000]`. |
| PopulationEffect.YScale | javascript/chart4.js:23-26 | The domain onto `[height, 0]` is an inverted scale. |
| PopulationEffect.DomainCoversRows | javascript/chart4.js:23-26 | The computed domain spans zero and covers every row. |
| PopulationEffect.Y | javascript/chart4.js:23-26 | The function `y`: the y-scale of the computed domain applied to a value. `ZeroLine`, `AgainstZero` and the bar lemmas state its properties. |
| PopulationEffect.ZeroLine | javascript/chart4.js:43-50 | The zero line runs across the full width at `y(0)`, strictly inside the plot. |
| PopulationEffect.AgainstZero | javascript/chart4.js:94-99 | A positive value is drawn above the zero line and a negative one below; a value is on the line iff it is 0. |
| PopulationEffect.NaturalBar | javascript/chart4.js:91-100 | The bar spans exactly from the zero line to `y(v)`, upward for positive v and downward for negative v. Its height is non-negative, and it is 0 iff v = 0. |
| PopulationEffect.NaturalBarInsidePlot | javascript/chart4.js:94-100 | For a covered row, the natural bar lies inside `[0, height]`. |
| PopulationEffect.InternalBar | javascript/chart4.js:73-78 | The internal bar lies on the band, one band wide, with a non-negative height. |
| PopulationEffect.OverseasBar | javascript/chart4.js:82-87 | The overseas bar lies on the band, one band wide, with a non-negative height. |
| PopulationEffect.MigrationBarsTop | javascript/chart4.js:76-85 | Both migration bars start at `y(max(0, values))`, which is never below the zero line and, for a covered row, never above the plot. |
| PopulationEffect.InternalBarHeight | javascript/chart4.js:78-78 | The internal bar is `abs(internal - overseas)` values tall. |
| PopulationEffect.OverseasBarHeight | javascript/chart4.js:87-87 | The overseas bar is `abs(overseas)` values tall. |
| PopulationEffect.AreaLabels | javascript/chart4.js:104-113 | One label per row, in order, with the area's name, centred at band start plus bandwidth/2, under the plot. |
| PopulationEffect.GroupOf | javascript/chart4.js:58-70 | Each series owns one of the three rect groups. |
| PopulationEffect.OnOver | javascript/chart4.js:131-139 | Mouseover on series s highlights every rect of s and fades every other rect. It never fades s's rects, and it leaves the highlight of the other rects unchanged. |
| PopulationEffect.OnOut | javascript/chart4.js:149-155 | Mouseout on series s clears the highlight on s's rects and the fade on the other rects, and changes nothing else. |
| PopulationEffect.Step | javascript/chart4.js:129-227 | One pointer event on a rect of one series: `OnOver` for a mouseover and `OnOut` for a mouseout. |
| PopulationEffect.Replay | javascript/chart4.js:129-227 | A rect's emphasis after a run of pointer events, applied in order. `ReplayAppend`, `PairsLeavePlain` and `WhileHovered` state its properties. |
| PopulationEffect.ReplayAppend | javascript/chart4.js:129-227 | Replaying two runs of events is replaying one after the other. |
| PopulationEffect.PairsLeavePlain | javascript/chart4.js:149-222 | After any number of over/out pairs no rect is highlighted or faded. |
| PopulationEffect.WhileHovered | javascript/chart4.js:131-139 | While a rect of s is hovered, exactly the rects of s are highlighted and exactly the others are faded. |
| PopulationEffect.BarTooltip | javascript/chart4.js:143-212 | The rect tooltip for each series: the area, the series name and the series' value, on three lines. `BarTooltipData` states how it ends. |
| PopulationEffect.BarTooltipData | javascript/chart4.js:143-145 | The tooltip's last line is `<strong>Data:</strong> ` followed by text that reads back as the hovered series' value. |
| PopulationEffect.BarGroups.constructor | javascript/chart4.js:58-101 | Three groups of one rect per row, all plain. |
| PopulationEffect.BarGroups.MouseOver | javascript/chart4.js:131-139 | Every rect of the grid becomes `OnOver(s, its series, before)`. |
| PopulationEffect.BarGroups.MouseOut | javascript/chart4.js:149-155 | Every rect of the grid becomes `OnOut(s, its series, before)`. |

### Layout details

- chart4.js draws all three bars of an area at `x(area)` with the full bandwidth (javascript/chart4.js:75-97), so the three bars of an area overlap.
- The city circles have radius 4 when drawn, 6 while hovered and 5 after the pointer leaves (javascript/chart1.js:198, 205, 220).

## Left out

- DOM and SVG construction, styles, colours, axes and tick formats, legends, titles, borders, transitions, opacity and tooltip pixel positions. These are rendering with no checkable logic.
- `mousemove` handlers, which only move a tooltip.
- D3 internals, which are library code outside this model:
  - `scaleBand` band and padding maths, so band starts and bandwidths are inputs;
  - `.nice()`, so domains are the unrounded `[0, max]`;
  - pie and arc geometry;
  - `geoMercator`, `fitSize` and `geoPath.centroid`, so projections and centroids are inputs;
  - ordinal colour scales.
- `d3.stack` is modelled only as plain cumulative sums in key order, which is its default order and offset.
- City labels at the projected point's x − 25 and y + 14 (javascript/chart1.js:173-178) are not modelled.
- The NSW dot tooltip, which shows only the city's name (javascript/chart3.js:101-108), is not modelled.
- Asynchronous loading with `d3.json`/`d3.csv`, and the order in which the globals `cityData` and `stateData` are assigned, are event-loop concurrency and are left out.
- The click handler only calls `drawCityPieChart(d.place)`. `ChartContainer.DrawCityPieChart` models that call.
- `console.log(csvContent)` is output only; `BuildCsv` returns the text instead.
- JavaScript number semantics:
  - Unary `+` is a parameter `toNumber` (and `toReal` for coordinates), so `NaN` is not modelled.
  - Numbers concatenated into strings use an integer decimal writer.
  - Float-to-text formatting is a parameter `fmt`.
- `PopulationEffect.Y`, `EducationChart.PointY`, `NswMigration.BarRect` and `AgeGroupChart.SubBar` use real numbers, not IEEE doubles.
- `Object.keys` order:
  - A city record's keys are in the order the row converter creates them. None of them is an integer-like key that JavaScript would move to the front.
  - A chart2 CSV row is a sequence of (column, text) pairs in header order with distinct names.
- The `total` computed in the chart3 mouseover handler (javascript/chart3.js:199) is never used, so it is not modelled.
- `processedData` in chart3 is built but not used by anything later; `ProcessData` models only its construction.
- MigrationData.RegionTooltip: requires that `getStateData` finds the region. The handler dereferences the result unguarded, so a region with no record throws a `TypeError`, which is not modelled.
- MigrationData.CityTooltip: requires `i` to be below both lengths. Outside that range the source reads `undefined` fields, which is not modelled.
- PopulationEffect.YScale: requires a domain that strictly spans zero. The computed domain always does (`DomainCoversRows`), and a degenerate scale is not modelled.
- NswMigration.YScale: requires a positive upper end. With all-zero counts D3's degenerate-domain behaviour is not modelled.
- EducationChart.YScale: requires a positive upper end, for the same reason.
- AgeGroupChart.YScale: requires a positive upper end, for the same reason.
- NswMigration.YMaxIsLargestTotal: stated only for non-negative counts. With negative counts the default stack offset still gives cumulative sums, but their maximum need not be a row total.
- NswMigration.CsvLineFields: stated only for names without commas or newlines, and for a number format that never emits them. Otherwise the text does not split back into fields.
- StateMap.RegionPaths.MouseOver: the flags belong to the map's own paths only. `d3.selectAll("path")` also reaches the paths of the other charts on the page, which is not modelled.
- StateMap.RegionPaths.MouseOut: limited to the map's own paths in the same way.
