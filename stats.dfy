/**
 * The extremum helpers the charts call: `Math.max`/`Math.min` over a
 * non-empty argument list, and `d3.max`/`d3.min`, which give `undefined`
 * (here `None`) for an empty array and skip `undefined` entries.
 */
module Stats {
  import opened Wrappers

  /** `Math.max(xs...)` for a non-empty argument list. */
  function Largest(xs: seq<int>): (m: int)
    requires |xs| > 0
    ensures forall i :: 0 <= i < |xs| ==> xs[i] <= m
    ensures exists i :: 0 <= i < |xs| && xs[i] == m
  {
    if |xs| == 1 then xs[0]
    else
      var t := Largest(xs[1..]);
      if xs[0] >= t then xs[0] else t
  }

  /** `Math.min(xs...)` for a non-empty argument list. */
  function Smallest(xs: seq<int>): (m: int)
    requires |xs| > 0
    ensures forall i :: 0 <= i < |xs| ==> m <= xs[i]
    ensures exists i :: 0 <= i < |xs| && xs[i] == m
  {
    if |xs| == 1 then xs[0]
    else
      var t := Smallest(xs[1..]);
      if xs[0] <= t then xs[0] else t
  }

  /** `d3.max(xs)`: the largest element, or `undefined` for an empty array. */
  function Max(xs: seq<int>): (m: Option<int>)
    ensures m.None? <==> |xs| == 0
    ensures m.Some? ==> (forall i :: 0 <= i < |xs| ==> xs[i] <= m.value)
                        && (exists i :: 0 <= i < |xs| && xs[i] == m.value)
  {
    if |xs| == 0 then None else Some(Largest(xs))
  }

  /** `d3.min(xs)`: the smallest element, or `undefined` for an empty array. */
  function Min(xs: seq<int>): (m: Option<int>)
    ensures m.None? <==> |xs| == 0
    ensures m.Some? ==> (forall i :: 0 <= i < |xs| ==> m.value <= xs[i])
                        && (exists i :: 0 <= i < |xs| && xs[i] == m.value)
  {
    if |xs| == 0 then None else Some(Smallest(xs))
  }

  /** `d3.max` over values some of which may be `undefined`; those are skipped. */
  function MaxPresent(xs: seq<Option<int>>): (m: Option<int>)
    ensures m.None? <==> forall i :: 0 <= i < |xs| ==> xs[i].None?
    ensures m.Some? ==> (forall i :: 0 <= i < |xs| && xs[i].Some? ==> xs[i].value <= m.value)
                        && (exists i :: 0 <= i < |xs| && xs[i] == Some(m.value))
  {
    if |xs| == 0 then None
    else
      var t := MaxPresent(xs[1..]);
      match xs[0]
      case None => t
      case Some(x) =>
        if t.None? || x >= t.value then Some(x) else t
  }

  /** A present value that no present value exceeds is the maximum. */
  lemma MaxPresentIs(xs: seq<Option<int>>, k: nat, v: int)
    requires k < |xs| && xs[k] == Some(v)
    requires forall i :: 0 <= i < |xs| && xs[i].Some? ==> xs[i].value <= v
    ensures MaxPresent(xs) == Some(v)
  {
    var m := MaxPresent(xs).value;
    var j :| 0 <= j < |xs| && xs[j] == Some(m);
  }
}
