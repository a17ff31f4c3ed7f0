/** `closest` (closest.py): the index of the array element nearest to a
    target, `argmin(|array - target|)`. */
module Closest {

  function Abs(x: real): real { if x < 0.0 then -x else x }

  function Distance(a: seq<real>, i: nat, target: real): real
    requires i < |a|
  {
    Abs(a[i] - target)
  }

  /** An index is the first minimiser of the distance to the target. */
  ghost predicate IsFirstClosest(a: seq<real>, target: real, r: nat)
  {
    && r < |a|
    && (forall j :: 0 <= j < |a| ==> Distance(a, r, target) <= Distance(a, j, target))
    && (forall j :: 0 <= j < r ==> Distance(a, j, target) > Distance(a, r, target))
  }

  /** numpy's argmin raises on an empty array, so the array must be non-empty. */
  function Closest(a: seq<real>, target: real): (r: nat)
    requires |a| > 0
    ensures r < |a|
    ensures forall j :: 0 <= j < |a| ==> Distance(a, r, target) <= Distance(a, j, target)
    ensures forall j :: 0 <= j < r ==> Distance(a, j, target) > Distance(a, r, target)
  {
    if |a| == 1 then 0
    else
      var k := Closest(a[..|a| - 1], target);
      assert forall j :: 0 <= j < |a| - 1 ==> Distance(a[..|a| - 1], j, target) == Distance(a, j, target);
      if Distance(a, |a| - 1, target) < Distance(a, k, target) then |a| - 1 else k
  }

  /** The first minimiser is unique, so `Closest` is the only index with
      its two properties. */
  lemma ClosestUnique(a: seq<real>, target: real, r: nat)
    requires |a| > 0
    requires IsFirstClosest(a, target, r)
    ensures r == Closest(a, target)
  {
  }

  /** The example of the source's docstring: `closest(arange(0, 10), 4.3)` is 4. */
  lemma ClosestExample(a: seq<real>)
    requires a == [0.0, 1.0, 2.0, 3.0, 4.0, 5.0, 6.0, 7.0, 8.0, 9.0]
    ensures Closest(a, 4.3) == 4
  {
    assert forall j :: 0 <= j < |a| ==> a[j] == j as real;
    ClosestUnique(a, 4.3, 4);
  }
}
