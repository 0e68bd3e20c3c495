/**
 * The education page: the wide table of migrant counts per level of
 * education pivoted into long (type, level, count) records, one line and
 * one dot series per migrant type, and the dot tooltip.
 */
module EducationChart {
  import opened Wrappers
  import Stats
  import Scales
  import Text

  const LevelColumn: string := "Level of education"

  /** The series drawn, in this order. */
  const Types: seq<string> := ["Skilled", "Family", "Humanitarian"]

  /** A CSV row as `Object.keys` lists it: column names with their cell text. */
  type Row = seq<(string, string)>

  /** A `parsedData` record; `level` is `None` where the row has no level cell (`undefined`). */
  datatype Entry = Entry(kind: string, level: Option<string>, count: int)

  /** The cell of column `key`, if the row has one. */
  function CellOf(row: Row, key: string): (v: Option<string>)
    ensures v.Some? <==> exists c :: 0 <= c < |row| && row[c].0 == key
    ensures v.Some? ==> exists c :: 0 <= c < |row| && row[c] == (key, v.value)
  {
    if |row| == 0 then None
    else if row[|row| - 1].0 == key then Some(row[|row| - 1].1)
    else
      var v := CellOf(row[..|row| - 1], key);
      assert forall c :: 0 <= c < |row| - 1 ==> row[..|row| - 1][c] == row[c];
      v
  }

  /** `d["Level of education"]`. */
  function LevelOf(row: Row): Option<string>
  {
    CellOf(row, LevelColumn)
  }

  /** An object has each key once. */
  predicate KeysDistinct(row: Row)
  {
    forall a, b :: 0 <= a < b < |row| ==> row[a].0 != row[b].0
  }

  /** The records pushed for the columns `cols` of a row whose level is `level`. */
  function ColumnEntries(cols: Row, level: Option<string>, toNumber: string -> int): seq<Entry>
  {
    if |cols| == 0 then []
    else
      var (kind, text) := cols[|cols| - 1];
      ColumnEntries(cols[..|cols| - 1], level, toNumber)
      + (if kind != LevelColumn then [Entry(kind, level, toNumber(text))] else [])
  }

  function RowEntries(row: Row, toNumber: string -> int): seq<Entry>
  {
    ColumnEntries(row, LevelOf(row), toNumber)
  }

  /** `parsedData` after the rows `rows` have been visited. */
  function Parsed(rows: seq<Row>, toNumber: string -> int): seq<Entry>
  {
    if |rows| == 0 then []
    else Parsed(rows[..|rows| - 1], toNumber) + RowEntries(rows[|rows| - 1], toNumber)
  }

  /** The nested `forEach` loops that fill `parsedData`. */
  method Pivot(rows: seq<Row>, toNumber: string -> int) returns (parsed: seq<Entry>)
    ensures parsed == Parsed(rows, toNumber)
  {
    parsed := [];
    for i := 0 to |rows|
      invariant parsed == Parsed(rows[..i], toNumber)
    {
      var d := rows[i];
      var before := parsed;
      for c := 0 to |d|
        invariant parsed == before + ColumnEntries(d[..c], LevelOf(d), toNumber)
      {
        var kind := d[c].0;
        assert d[..c + 1][..c] == d[..c];
        if kind != LevelColumn {
          parsed := parsed + [Entry(kind, LevelOf(d), toNumber(d[c].1))];
        }
      }
      assert d[..|d|] == d;
      assert rows[..i + 1][..i] == rows[..i];
    }
    assert rows[..|rows|] == rows;
  }

  // ---------------------------------------------------------------------
  // What the pivot produces
  // ---------------------------------------------------------------------

  /** The number of columns of a row other than the level column. */
  function DataColumns(cols: Row): (n: nat)
    ensures n <= |cols|
  {
    if |cols| == 0 then 0
    else DataColumns(cols[..|cols| - 1]) + (if cols[|cols| - 1].0 != LevelColumn then 1 else 0)
  }

  function SumDataColumns(rows: seq<Row>): nat
  {
    if |rows| == 0 then 0 else SumDataColumns(rows[..|rows| - 1]) + DataColumns(rows[|rows| - 1])
  }

  lemma {:induction false} ColumnEntriesLength(cols: Row, level: Option<string>, toNumber: string -> int)
    ensures |ColumnEntries(cols, level, toNumber)| == DataColumns(cols)
  {
    if |cols| > 0 {
      ColumnEntriesLength(cols[..|cols| - 1], level, toNumber);
    }
  }

  /** One record per row and non-level column. */
  lemma {:induction false} PivotLength(rows: seq<Row>, toNumber: string -> int)
    ensures |Parsed(rows, toNumber)| == SumDataColumns(rows)
  {
    if |rows| > 0 {
      PivotLength(rows[..|rows| - 1], toNumber);
      ColumnEntriesLength(rows[|rows| - 1], LevelOf(rows[|rows| - 1]), toNumber);
    }
  }

  lemma {:induction false} AllDataColumns(cols: Row)
    requires forall c :: 0 <= c < |cols| ==> cols[c].0 != LevelColumn
    ensures DataColumns(cols) == |cols|
  {
    if |cols| > 0 {
      AllDataColumns(cols[..|cols| - 1]);
    }
  }

  /** A row with one level column contributes one record per other column. */
  lemma {:induction false} DataColumnsOfRow(row: Row)
    requires KeysDistinct(row) && LevelOf(row).Some?
    ensures DataColumns(row) == |row| - 1
  {
    var init := row[..|row| - 1];
    if row[|row| - 1].0 == LevelColumn {
      AllDataColumns(init);
    } else {
      assert LevelOf(init).Some?;
      DataColumnsOfRow(init);
    }
  }

  /** A row's records are those of its non-level columns, each with the given level. */
  lemma {:induction false} ColumnEntriesMembers(cols: Row, level: Option<string>, toNumber: string -> int, e: Entry)
    ensures e in ColumnEntries(cols, level, toNumber)
            <==> exists c :: 0 <= c < |cols| && cols[c].0 != LevelColumn
                             && e == Entry(cols[c].0, level, toNumber(cols[c].1))
  {
    if |cols| > 0 {
      var init := cols[..|cols| - 1];
      ColumnEntriesMembers(init, level, toNumber, e);
      assert forall c :: 0 <= c < |init| ==> init[c] == cols[c];
      if e in ColumnEntries(cols, level, toNumber) && e !in ColumnEntries(init, level, toNumber) {
        assert cols[|cols| - 1].0 != LevelColumn;
      }
    }
  }

  /**
   * The records are those of the rows' non-level columns, each carrying the
   * column name, the row's level and the coerced cell.
   */
  lemma {:induction false} PivotMembers(rows: seq<Row>, toNumber: string -> int, e: Entry)
    ensures e in Parsed(rows, toNumber)
            <==> exists i, c :: 0 <= i < |rows| && 0 <= c < |rows[i]| && rows[i][c].0 != LevelColumn
                                && e == Entry(rows[i][c].0, LevelOf(rows[i]), toNumber(rows[i][c].1))
  {
    if |rows| > 0 {
      var init := rows[..|rows| - 1];
      var last := rows[|rows| - 1];
      PivotMembers(init, toNumber, e);
      ColumnEntriesMembers(last, LevelOf(last), toNumber, e);
      assert forall i :: 0 <= i < |init| ==> init[i] == rows[i];
      if exists i, c :: 0 <= i < |rows| && 0 <= c < |rows[i]| && rows[i][c].0 != LevelColumn
                        && e == Entry(rows[i][c].0, LevelOf(rows[i]), toNumber(rows[i][c].1)) {
        var i, c :| 0 <= i < |rows| && 0 <= c < |rows[i]| && rows[i][c].0 != LevelColumn
                    && e == Entry(rows[i][c].0, LevelOf(rows[i]), toNumber(rows[i][c].1));
        if i < |init| {
          assert e in Parsed(init, toNumber);
        } else {
          assert e in RowEntries(last, toNumber);
        }
      }
    }
  }

  /** No record has the level column as its type. */
  lemma NoLevelEntries(rows: seq<Row>, toNumber: string -> int, e: Entry)
    requires e in Parsed(rows, toNumber)
    ensures e.kind != LevelColumn
  {
    PivotMembers(rows, toNumber, e);
  }

  // ---------------------------------------------------------------------
  // One series per type
  // ---------------------------------------------------------------------

  /** `parsedData.filter(d => d.type === type)`. */
  function Filter(es: seq<Entry>, kind: string): (fs: seq<Entry>)
    ensures |fs| <= |es|
  {
    if |es| == 0 then []
    else Filter(es[..|es| - 1], kind) + (if es[|es| - 1].kind == kind then [es[|es| - 1]] else [])
  }

  lemma {:induction false} FilterAppend(a: seq<Entry>, b: seq<Entry>, kind: string)
    ensures Filter(a + b, kind) == Filter(a, kind) + Filter(b, kind)
  {
    if |b| == 0 {
      assert a + b == a;
    } else {
      assert (a + b)[..|a + b| - 1] == a + b[..|b| - 1];
      FilterAppend(a, b[..|b| - 1], kind);
    }
  }

  /** The series a type should have: for each row that has the column, its level and coerced cell. */
  function Series(rows: seq<Row>, kind: string, toNumber: string -> int): seq<Entry>
  {
    if |rows| == 0 then []
    else
      var row := rows[|rows| - 1];
      Series(rows[..|rows| - 1], kind, toNumber)
      + (match CellOf(row, kind)
         case None => []
         case Some(text) => [Entry(kind, LevelOf(row), toNumber(text))])
  }

  lemma {:induction false} FilterColumnEntries(cols: Row, level: Option<string>, kind: string, toNumber: string -> int)
    requires KeysDistinct(cols) && kind != LevelColumn
    ensures Filter(ColumnEntries(cols, level, toNumber), kind)
            == match CellOf(cols, kind)
               case None => []
               case Some(text) => [Entry(kind, level, toNumber(text))]
  {
    if |cols| > 0 {
      var init := cols[..|cols| - 1];
      var (k, text) := cols[|cols| - 1];
      FilterColumnEntries(init, level, kind, toNumber);
      var tail := if k != LevelColumn then [Entry(k, level, toNumber(text))] else [];
      FilterAppend(ColumnEntries(init, level, toNumber), tail, kind);
      if k == kind {
        assert forall c :: 0 <= c < |init| ==> init[c].0 != kind by {
          forall c | 0 <= c < |init| ensures init[c].0 != kind {
            assert init[c] == cols[c];
          }
        }
        assert CellOf(init, kind).None?;
        assert Filter(tail, kind) == tail;
      } else {
        assert tail == [] || Filter(tail, kind) == [];
      }
    }
  }

  /** Each per-type series keeps exactly that type's records, one per row having the column, in row order. */
  lemma {:induction false} FilterIsSeries(rows: seq<Row>, kind: string, toNumber: string -> int)
    requires forall i :: 0 <= i < |rows| ==> KeysDistinct(rows[i])
    requires kind != LevelColumn
    ensures Filter(Parsed(rows, toNumber), kind) == Series(rows, kind, toNumber)
  {
    if |rows| > 0 {
      var init := rows[..|rows| - 1];
      var last := rows[|rows| - 1];
      FilterIsSeries(init, kind, toNumber);
      FilterAppend(Parsed(init, toNumber), RowEntries(last, toNumber), kind);
      FilterColumnEntries(last, LevelOf(last), kind, toNumber);
    }
  }

  /** The three drawn series are the Skilled, Family and Humanitarian columns. */
  lemma TypeSeries(rows: seq<Row>, toNumber: string -> int, t: nat)
    requires forall i :: 0 <= i < |rows| ==> KeysDistinct(rows[i])
    requires t < |Types|
    ensures Filter(Parsed(rows, toNumber), Types[t]) == Series(rows, Types[t], toNumber)
  {
    if t == 0 {
      FilterIsSeries(rows, "Skilled", toNumber);
    } else if t == 1 {
      FilterIsSeries(rows, "Family", toNumber);
    } else {
      FilterIsSeries(rows, "Humanitarian", toNumber);
    }
  }

  // ---------------------------------------------------------------------
  // Geometry and the tooltip
  // ---------------------------------------------------------------------

  const Width: real := 1060.0
  const Height: real := 720.0
  const MarginTop: real := 80.0
  const MarginBottom: real := 200.0

  function Counts(es: seq<Entry>): (cs: seq<int>)
    ensures |cs| == |es| && forall k :: 0 <= k < |es| ==> cs[k] == es[k].count
  {
    seq(|es|, k requires 0 <= k < |es| => es[k].count)
  }

  /** `d3.max(parsedData, d => d.count)`: the upper end of the y-domain [0, max] before `.nice()`. */
  function MaxCount(es: seq<Entry>): Option<int>
  {
    Stats.Max(Counts(es))
  }

  /** The y-domain contains every count and its end is one of them; `undefined` for no records. */
  lemma MaxCountBounds(es: seq<Entry>)
    ensures MaxCount(es).None? <==> |es| == 0
    ensures MaxCount(es).Some? ==> forall k :: 0 <= k < |es| ==> es[k].count <= MaxCount(es).value
    ensures MaxCount(es).Some? ==> exists k :: 0 <= k < |es| && es[k].count == MaxCount(es).value
  {
    if MaxCount(es).Some? {
      var k :| 0 <= k < |Counts(es)| && Counts(es)[k] == MaxCount(es).value;
    }
  }

  /** `yScale`: [0, m] onto [height - margin.bottom, margin.top]. */
  function YScale(m: int): Scales.Linear
    requires m > 0
  {
    Scales.FromZero(m, Height - MarginBottom, MarginTop)
  }

  /** A dot's `cy`: between the margins for a count in the domain. */
  function PointY(count: int, m: int): (cy: real)
    requires m > 0
  {
    Scales.Apply(YScale(m), count as real)
  }

  lemma PointYInPlot(count: int, m: int)
    requires 0 <= count <= m && m > 0
    ensures MarginTop <= PointY(count, m) <= Height - MarginBottom
  {
    Scales.InRange(YScale(m), count as real);
  }

  /**
   * A dot's `cx`: the middle of its level's band; with no level the band
   * scale gives `undefined` and no number.
   */
  function PointX(level: Option<string>, band: string -> real, bandwidth: real): (cx: Option<real>)
    ensures cx.Some? <==> level.Some?
    ensures level.Some? ==> cx.value - band(level.value) == bandwidth / 2.0
  {
    match level
    case None => None
    case Some(l) => Some(band(l) + bandwidth / 2.0)
  }

  /** The dots of all types at one level are stacked on the same vertical line. */
  lemma SameLevelSameX(e1: Entry, e2: Entry, band: string -> real, bandwidth: real)
    requires e1.level == e2.level
    ensures PointX(e1.level, band, bandwidth) == PointX(e2.level, band, bandwidth)
  {
  }

  /** How `undefined` is written when concatenated into a string. */
  function LevelText(level: Option<string>): string
  {
    match level
    case None => "undefined"
    case Some(l) => l
  }

  /** The dot tooltip: type, a line break, the level and the count. */
  function Tooltip(kind: string, e: Entry): string
  {
    kind + "<br>" + LevelText(e.level) + ": " + Text.Show(e.count)
  }

  /** The tooltip starts with the type and a break, and its last part reads back as the count. */
  lemma TooltipParts(kind: string, e: Entry)
    ensures var tip := Tooltip(kind, e);
            var a := |kind| + 4;
            var b := a + |LevelText(e.level)|;
            && b + 2 <= |tip|
            && tip[..a] == kind + "<br>"
            && tip[a..b] == LevelText(e.level)
            && tip[b..b + 2] == ": "
            && Text.ParseInt(tip[b + 2..]) == e.count
  {
    var tip := Tooltip(kind, e);
    var a := |kind| + 4;
    var b := a + |LevelText(e.level)|;
    assert tip[b + 2..] == Text.Show(e.count);
    assert tip[a..b] == LevelText(e.level);
    assert tip[b..b + 2] == ": ";
    assert tip[..a] == kind + "<br>";
    Text.ParseShow(e.count);
  }
}
