/** `findStartTimeFromGuiPosition` (project/src/index.js:160-178): a linear scan
    for the block nearest to the control point in the (normX, normY) plane. */
module FeatureSearch {
  import opened Wrappers
  import opened SquareRoot

  /** Squared length of the vector `(dx, dy)`. */
  function SqLength(dx: real, dy: real): (r: real)
  {
    dx * dx + dy * dy
  }

  /** Squared Euclidean distance from block `i` to the point `(x, y)`. */
  function SqDistance(normX: seq<real>, normY: seq<real>, i: nat, x: real, y: real): (r: real)
    requires i < |normX| && i < |normY|
  {
    SqLength(normX[i] - x, normY[i] - y)
  }

  lemma SqDistanceNonNegative(normX: seq<real>, normY: seq<real>, i: nat, x: real, y: real)
    requires i < |normX| && i < |normY|
    ensures 0.0 <= SqDistance(normX, normY, i, x, y)
  {
    var distX, distY := normX[i] - x, normY[i] - y;
    if distX < 0.0 {
      assert distX * distX == (-distX) * (-distX);
    }
    if distY < 0.0 {
      assert distY * distY == (-distY) * (-distY);
    }
  }

  /** The index the scan holds after visiting blocks `0 .. k - 1`: a block
      replaces the current one only when strictly closer. */
  function Closest(normX: seq<real>, normY: seq<real>, x: real, y: real, k: nat): (c: nat)
    requires 0 < k <= |normX| && k <= |normY|
    ensures c < k
  {
    if k == 1 then 0
    else
      var c := Closest(normX, normY, x, y, k - 1);
      if SqDistance(normX, normY, k - 1, x, y) < SqDistance(normX, normY, c, x, y) then k - 1 else c
  }

  /** Block `i` is at minimal distance among the first `n`, and every block
      before it is strictly farther: the lowest index among equal minima. */
  ghost predicate IsFirstNearest(normX: seq<real>, normY: seq<real>, x: real, y: real, n: nat, i: nat)
    requires n <= |normX| && n <= |normY|
  {
    && i < n
    && (forall j :: 0 <= j < n ==> SqDistance(normX, normY, i, x, y) <= SqDistance(normX, normY, j, x, y))
    && (forall j :: 0 <= j < i ==> SqDistance(normX, normY, i, x, y) < SqDistance(normX, normY, j, x, y))
  }

  /** The scan finds the first nearest block, and it is the only index that is. */
  lemma {:induction false} ClosestIsFirstNearest(normX: seq<real>, normY: seq<real>, x: real, y: real, k: nat)
    requires 0 < k <= |normX| && k <= |normY|
    ensures IsFirstNearest(normX, normY, x, y, k, Closest(normX, normY, x, y, k))
    ensures forall i :: IsFirstNearest(normX, normY, x, y, k, i) ==> i == Closest(normX, normY, x, y, k)
  {
    if k > 1 {
      ClosestIsFirstNearest(normX, normY, x, y, k - 1);
    }
  }

  /** A control point placed exactly on block `k` is at distance 0 from the
      chosen block, which is `k` itself unless an earlier block also sits there. */
  lemma ExactHit(normX: seq<real>, normY: seq<real>, x: real, y: real, n: nat, k: nat)
    requires n <= |normX| && n <= |normY| && k < n
    requires normX[k] == x && normY[k] == y
    ensures SqDistance(normX, normY, Closest(normX, normY, x, y, n), x, y) == 0.0
    ensures Closest(normX, normY, x, y, n) <= k
    ensures (forall j :: 0 <= j < k ==> SqDistance(normX, normY, j, x, y) > 0.0) ==> Closest(normX, normY, x, y, n) == k
  {
    ClosestIsFirstNearest(normX, normY, x, y, n);
    var c := Closest(normX, normY, x, y, n);
    assert SqDistance(normX, normY, k, x, y) == 0.0;
    SqDistanceNonNegative(normX, normY, c, x, y);
  }

  /** One step of the scan: comparing roots of distances decides as comparing
      the distances themselves. */
  lemma ClosestStep(normX: seq<real>, normY: seq<real>, x: real, y: real, i: nat, sqrt: real -> real)
    requires IsSqrt(sqrt)
    requires 0 < i < |normX| && i < |normY|
    ensures var c := Closest(normX, normY, x, y, i);
      Closest(normX, normY, x, y, i + 1)
        == if sqrt(SqDistance(normX, normY, i, x, y)) < sqrt(SqDistance(normX, normY, c, x, y)) then i else c
  {
    var c := Closest(normX, normY, x, y, i);
    SqDistanceNonNegative(normX, normY, i, x, y);
    SqDistanceNonNegative(normX, normY, c, x, y);
    SqrtMonotone(sqrt, SqDistance(normX, normY, i, x, y), SqDistance(normX, normY, c, x, y));
  }

  /** JavaScript turns `null` into 0 in arithmetic. */
  function AsNumber(v: Option<real>): (r: real)
  {
    if v.Some? then v.value else 0.0
  }

  /** What the search returns: the start time of the first nearest block, or
      `None` (`times[null]`, that is `undefined`) when there are no blocks. */
  function NearestTime(times: seq<real>, normX: seq<real>, normY: seq<real>, x: real, y: real): (r: Option<real>)
    requires |normX| == |times| && |normY| == |times|
  {
    if |times| == 0 then None else Some(times[Closest(normX, normY, x, y, |times|)])
  }

  /** `findStartTimeFromGuiPosition` (project/src/index.js:160-178), comparing
      `Math.sqrt` of the squared distances as the source does. */
  method FindStartTimeFromGuiPosition(x: Option<real>, y: Option<real>, times: seq<real>,
                                      normX: seq<real>, normY: seq<real>, sqrt: real -> real)
    returns (time: Option<real>)
    requires IsSqrt(sqrt)
    requires |normX| == |times| && |normY| == |times|
    ensures time == NearestTime(times, normX, normY, AsNumber(x), AsNumber(y))
    ensures time.None? <==> |times| == 0
  {
    var px, py := AsNumber(x), AsNumber(y);
    var minDistance := 0.0; // +Infinity until the first block is seen
    var closestIndex: Option<nat> := None;
    for i := 0 to |times|
      invariant closestIndex.None? <==> i == 0
      invariant closestIndex.Some? ==>
        && closestIndex.value == Closest(normX, normY, px, py, i)
        && minDistance == sqrt(SqDistance(normX, normY, closestIndex.value, px, py))
    {
      var distX := normX[i] - px;
      var distY := normY[i] - py;
      var distance := sqrt(SqLength(distX, distY));
      if closestIndex.Some? {
        ClosestStep(normX, normY, px, py, i, sqrt);
      }
      if closestIndex.None? || distance < minDistance {
        minDistance := distance;
        closestIndex := Some(i);
      }
    }
    if closestIndex.Some? {
      time := Some(times[closestIndex.value]);
    } else {
      time := None;
    }
  }
}
