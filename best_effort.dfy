/**
 * Looking up a single duration in a power curve: the value paired with the
 * first exact match of the duration, with no interpolation, and 0 when the
 * duration is missing or its index falls outside the value list.
 */
module BestEffort {
  import opened Model

  /** The position of the first occurrence of `t` in `secs`, or `|secs|` when there is none. */
  function FirstIndex(secs: seq<int>, t: int): (i: nat)
    ensures i <= |secs|
    ensures i < |secs| ==> secs[i] == t
    ensures forall j :: 0 <= j < i ==> secs[j] != t
    ensures i == |secs| <==> t !in secs
  {
    if |secs| == 0 then 0
    else if secs[0] == t then 0
    else 1 + FirstIndex(secs[1..], t)
  }

  /** The power sustained for `target` seconds according to `curve`. */
  function BestEffortPower(curve: PowerCurve, target: int): (w: real)
    ensures target !in curve.secs ==> w == 0.0
    ensures forall i :: 0 <= i < |curve.secs| && curve.secs[i] == target && target !in curve.secs[..i] ==>
              w == (if i < |curve.values| then curve.values[i] else 0.0)
  {
    if target in curve.secs then
      var idx := FirstIndex(curve.secs, target);
      if idx < |curve.values| then curve.values[idx] else 0.0
    else
      0.0
  }

  /** A present duration yields some paired value: the result is 0 or one of `values`. */
  lemma BestEffortIsPairedValue(curve: PowerCurve, target: int)
    ensures var w := BestEffortPower(curve, target);
            w == 0.0 || exists k :: 0 <= k < |curve.secs| && k < |curve.values| && curve.secs[k] == target && curve.values[k] == w
  {
    if target in curve.secs {
      var idx := FirstIndex(curve.secs, target);
      if idx < |curve.values| {
        assert curve.secs[idx] == target && curve.values[idx] == BestEffortPower(curve, target);
      }
    }
  }

  /** Durations [5, 15, 300] paired with [800, 700, 300]: 15 seconds gives 700, 60 seconds gives 0. */
  lemma BestEffortExample()
    ensures BestEffortPower(PowerCurve([5, 15, 300], [800.0, 700.0, 300.0]), 15) == 700.0
    ensures BestEffortPower(PowerCurve([5, 15, 300], [800.0, 700.0, 300.0]), 60) == 0.0
  {
    var c := PowerCurve([5, 15, 300], [800.0, 700.0, 300.0]);
    assert c.secs[1] == 15 && 15 !in c.secs[..1];
  }

  /** A malformed curve whose value list is shorter than its duration list yields 0 past the end. */
  lemma BestEffortShortValues()
    ensures BestEffortPower(PowerCurve([5, 15], [800.0]), 15) == 0.0
  {
    var c := PowerCurve([5, 15], [800.0]);
    assert c.secs[1] == 15 && 15 !in c.secs[..1];
  }
}
