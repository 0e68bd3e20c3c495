/**
 * The Australia map: where each region's name label sits, the
 * highlighted/faded flags the region paths carry while hovered, and the
 * radius of the city circles.
 */
module StateMap {

  const MapHeight: real := 720.0

  // ---------------------------------------------------------------------
  // Region labels
  // ---------------------------------------------------------------------

  /** The label's shift from the region's centroid, by name first and by position otherwise. */
  function LabelOffset(name: string, cy: real): real
  {
    if name == "Northern Territory" then 45.0
    else if name == "Victoria" then 10.0
    else if cy > MapHeight / 2.0 then -15.0
    else 14.0
  }

  /** A label's `y`: the centroid's y plus the offset. */
  function LabelY(name: string, cy: real): (y: real)
    ensures y - cy == LabelOffset(name, cy)
  {
    cy + LabelOffset(name, cy)
  }

  /** The regions whose offset is fixed by name. */
  const NamedOffsets: map<string, real> := map["Northern Territory" := 45.0, "Victoria" := 10.0]

  /** A named region gets its own offset wherever its centroid is; any other region is placed by position. */
  lemma LabelOffsetRule(name: string, cy: real)
    ensures name in NamedOffsets ==> LabelOffset(name, cy) == NamedOffsets[name]
    ensures name !in NamedOffsets ==> LabelOffset(name, cy) == (if cy > MapHeight / 2.0 then -15.0 else 14.0)
  {
    if name in NamedOffsets {
      assert name == "Northern Territory" || name == "Victoria";
    }
  }

  /** Other regions' labels move up in the lower half of the map and down in the upper half. */
  lemma LabelTowardsMiddle(name: string, cy: real)
    requires name !in NamedOffsets
    ensures cy > MapHeight / 2.0 <==> LabelY(name, cy) < cy
  {
    LabelOffsetRule(name, cy);
  }

  // ---------------------------------------------------------------------
  // Region paths under the pointer
  // ---------------------------------------------------------------------

  /** The two classes a region path can carry. */
  datatype PathFlags = PathFlags(highlighted: bool, faded: bool)

  /** `mouseover` on path k: k highlighted, every path faded, then k unfaded. */
  function RegionOver(flags: seq<PathFlags>, k: nat): (after: seq<PathFlags>)
    requires k < |flags|
    ensures |after| == |flags|
  {
    seq(|flags|, i requires 0 <= i < |flags| =>
      if i == k then PathFlags(true, false) else flags[i].(faded := true))
  }

  /** `mouseout` on path k: k not highlighted, no path faded. */
  function RegionOut(flags: seq<PathFlags>, k: nat): (after: seq<PathFlags>)
    requires k < |flags|
    ensures |after| == |flags|
  {
    seq(|flags|, i requires 0 <= i < |flags| =>
      if i == k then PathFlags(false, false) else flags[i].(faded := false))
  }

  /**
   * While path k is hovered exactly it is unfaded, and it is highlighted;
   * the other paths' highlighted flags are left as they were.
   */
  lemma OverFadesOthers(flags: seq<PathFlags>, k: nat)
    requires k < |flags|
    ensures forall i :: 0 <= i < |flags| ==> (RegionOver(flags, k)[i].faded <==> i != k)
    ensures RegionOver(flags, k)[k].highlighted
    ensures forall i :: 0 <= i < |flags| && i != k ==>
              RegionOver(flags, k)[i].highlighted == flags[i].highlighted
  {
  }

  /** Leaving path k unfades every path and clears k's highlight only. */
  lemma OutClearsFade(flags: seq<PathFlags>, k: nat)
    requires k < |flags|
    ensures forall i :: 0 <= i < |flags| ==> !RegionOut(flags, k)[i].faded
    ensures !RegionOut(flags, k)[k].highlighted
    ensures forall i :: 0 <= i < |flags| && i != k ==>
              RegionOut(flags, k)[i].highlighted == flags[i].highlighted
  {
  }

  predicate AllPlain(flags: seq<PathFlags>)
  {
    forall i :: 0 <= i < |flags| ==> flags[i] == PathFlags(false, false)
  }

  /** Hovering a region and leaving it puts a plain map back as it was. */
  lemma OverOutRestores(flags: seq<PathFlags>, k: nat)
    requires k < |flags| && AllPlain(flags)
    ensures RegionOut(RegionOver(flags, k), k) == flags
  {
    var after := RegionOut(RegionOver(flags, k), k);
    assert forall i :: 0 <= i < |flags| ==> after[i] == flags[i];
  }

  /** The region paths' flags, one pair per GeoJSON feature. */
  class RegionPaths {
    const flags: array<PathFlags>

    constructor(n: nat)
      ensures flags.Length == n && fresh(flags)
      ensures AllPlain(flags[..])
    {
      flags := new PathFlags[n](_ => PathFlags(false, false));
    }

    /** The region `mouseover` handler on path k. */
    method MouseOver(k: nat)
      requires k < flags.Length
      modifies flags
      ensures flags[..] == RegionOver(old(flags[..]), k)
    {
      flags[k] := flags[k].(highlighted := true);
      for i := 0 to flags.Length
        invariant forall j :: 0 <= j < i ==> flags[j] == old(flags[j]).(highlighted := j == k || old(flags[j]).highlighted, faded := true)
        invariant forall j :: i <= j < flags.Length ==> flags[j] == old(flags[j]).(highlighted := j == k || old(flags[j]).highlighted)
      {
        flags[i] := flags[i].(faded := true);
      }
      flags[k] := flags[k].(faded := false);
    }

    /** The region `mouseout` handler on path k. */
    method MouseOut(k: nat)
      requires k < flags.Length
      modifies flags
      ensures flags[..] == RegionOut(old(flags[..]), k)
    {
      flags[k] := flags[k].(highlighted := false);
      for i := 0 to flags.Length
        invariant forall j :: 0 <= j < i ==> flags[j] == old(flags[j]).(highlighted := j != k && old(flags[j]).highlighted, faded := false)
        invariant forall j :: i <= j < flags.Length ==> flags[j] == old(flags[j]).(highlighted := j != k && old(flags[j]).highlighted)
      {
        flags[i] := flags[i].(faded := false);
      }
    }
  }

  // ---------------------------------------------------------------------
  // City circles under the pointer
  // ---------------------------------------------------------------------

  const DrawnRadius: int := 4
  const HoveredRadius: int := 6
  const LeftRadius: int := 5

  /** Pointer events on one circle. */
  datatype CircleEvent = Enter | Leave

  /** The radius after a sequence of events, starting from `r`. */
  function RadiusAfter(r: int, events: seq<CircleEvent>): int
    decreases events
  {
    if |events| == 0 then r
    else RadiusAfter(if events[0] == Enter then HoveredRadius else LeftRadius, events[1..])
  }

  /**
   * Once the pointer has touched a circle its radius is 6 while hovered and
   * 5 after leaving, never the drawn radius 4 again.
   */
  lemma {:induction false} RadiusCycle(r: int, events: seq<CircleEvent>)
    requires |events| > 0
    ensures RadiusAfter(r, events) == (if events[|events| - 1] == Enter then HoveredRadius else LeftRadius)
    ensures RadiusAfter(r, events) != DrawnRadius
    decreases events
  {
    var next := if events[0] == Enter then HoveredRadius else LeftRadius;
    if |events| > 1 {
      RadiusCycle(next, events[1..]);
    }
  }

  /** The `r` attributes of the city circles. */
  class CityCircles {
    const radii: array<int>

    constructor(n: nat)
      ensures radii.Length == n && fresh(radii)
      ensures forall i :: 0 <= i < n ==> radii[i] == DrawnRadius
    {
      radii := new int[n](_ => DrawnRadius);
    }

    /** The circle `mouseover` handler on circle i. */
    method MouseOver(i: nat)
      requires i < radii.Length
      modifies radii
      ensures radii[..] == old(radii[..])[i := HoveredRadius]
    {
      radii[i] := HoveredRadius;
    }

    /** The circle `mouseout` handler on circle i. */
    method MouseOut(i: nat)
      requires i < radii.Length
      modifies radii
      ensures radii[..] == old(radii[..])[i := LeftRadius]
    {
      radii[i] := LeftRadius;
    }
  }
}
