/**
 * The all-time best-effort table of one athlete and the cohort maxima over it.
 *
 * `ExtractBestEfforts` is the part of the power-curve fetch that runs once the
 * curve list has arrived: for each of six labelled durations it keeps the
 * largest value among the curve rows at exactly that duration. `RankCohort`
 * is the max-scan over all athletes' tables, in watts and, for athletes with a
 * positive weight, in watts per kilogram.
 */
module PersonalBests {
  import opened Model

  /** The six durations of the table, in seconds, with their column labels. */
  const Durations: seq<(int, string)> :=
    [(5, "5 sec"), (15, "15 sec"), (30, "30 sec"), (300, "5 min"), (600, "10 min"), (1200, "20 min")]

  /** The column labels the cohort scan walks, in display order. */
  const Columns: seq<string> := ["5 sec", "15 sec", "30 sec", "5 min", "10 min", "20 min"]

  /** The column labels as a set: the keys of every table and of both cohort maps. */
  const ColumnSet: set<string> := set c | c in Columns

  /** One entry of the all-time curve list: the power curve and the athlete's weight in kg. */
  datatype CurveRow = CurveRow(curve: PowerCurve, weight: real)

  /** One athlete's table: watts by column label, and weight in kg. */
  datatype AthleteBests = AthleteBests(bestEfforts: map<string, real>, weight: real)

  /** The table of an athlete whose curve list is empty: no entries and weight 0. */
  const NoBests := AthleteBests(map[], 0.0)

  /** The column labels are pairwise distinct, and they are the labels of `Durations` in order. */
  lemma ColumnsDistinct()
    ensures |Columns| == |Durations|
    ensures forall k :: 0 <= k < |Durations| ==> Durations[k].1 == Columns[k]
    ensures forall j, k :: 0 <= j < |Columns| && 0 <= k < |Columns| && j != k ==> Columns[j] != Columns[k]
  {
    assert Columns[0] != Columns[1] && Columns[0] != Columns[2] && Columns[1] != Columns[2] by {
      assert Columns[0][0] == '5' && Columns[1][1] == '5' && Columns[2][0] == '3' && Columns[1][0] == '1';
    }
    assert Columns[3][0] == '5' && Columns[4][1] == '0' && Columns[5][0] == '2';
    assert Columns[0][2] == 's' && Columns[3][2] == 'm' && Columns[1][1] == '5' && Columns[4][0] == '1';
    assert Columns[1][3] == 's' && Columns[4][3] == 'm';
  }

  // ---------------------------------------------------------------------
  // The table of one athlete

  /** The values paired, position by position, with a duration equal to `duration`; pairing stops at the shorter list. */
  function Candidates(values: seq<real>, secs: seq<int>, duration: int): seq<real> {
    if values == [] || secs == [] then []
    else (if secs[0] == duration then [values[0]] else []) + Candidates(values[1..], secs[1..], duration)
  }

  /** A value is a candidate exactly when some paired position carries it at `duration`. */
  lemma {:induction false} CandidatesAreMatches(values: seq<real>, secs: seq<int>, duration: int)
    ensures forall k :: 0 <= k < |values| && k < |secs| && secs[k] == duration ==>
              values[k] in Candidates(values, secs, duration)
    ensures forall v :: v in Candidates(values, secs, duration) ==>
              exists k :: 0 <= k < |values| && k < |secs| && secs[k] == duration && values[k] == v
  {
    if values != [] && secs != [] {
      CandidatesAreMatches(values[1..], secs[1..], duration);
      forall k | 0 <= k < |values| && k < |secs| && secs[k] == duration
        ensures values[k] in Candidates(values, secs, duration)
      {
        if k > 0 {
          assert values[1..][k - 1] == values[k] && secs[1..][k - 1] == duration;
        }
      }
      forall v | v in Candidates(values, secs, duration)
        ensures exists k :: 0 <= k < |values| && k < |secs| && secs[k] == duration && values[k] == v
      {
        if !(secs[0] == duration && v == values[0]) {
          assert v in Candidates(values[1..], secs[1..], duration);
          var k :| 0 <= k < |values[1..]| && k < |secs[1..]| && secs[1..][k] == duration && values[1..][k] == v;
          assert secs[k + 1] == duration && values[k + 1] == v;
        }
      }
    }
  }

  /** The largest element of a non-empty list. */
  function Largest(c: seq<real>): (r: real)
    requires c != []
    ensures r in c
    ensures forall i :: 0 <= i < |c| ==> c[i] <= r
  {
    if |c| == 1 then c[0]
    else
      var init := c[..|c| - 1];
      var m := Largest(init);
      assert forall i :: 0 <= i < |init| ==> init[i] == c[i];
      if c[|c| - 1] > m then c[|c| - 1] else m
  }

  /** The table entry for `duration`: the largest candidate, or 0 when there is none. */
  function BestValue(values: seq<real>, secs: seq<int>, duration: int): real {
    var c := Candidates(values, secs, duration);
    if c == [] then 0.0 else Largest(c)
  }

  /**
   * The table entry is the largest value paired with `duration` (not floored at 0),
   * and 0 exactly when no position pairs a value with it.
   */
  lemma BestValueIsMax(values: seq<real>, secs: seq<int>, duration: int)
    ensures var b := BestValue(values, secs, duration);
      && (forall k :: 0 <= k < |values| && k < |secs| && secs[k] == duration ==> values[k] <= b)
      && ((forall k :: 0 <= k < |values| && k < |secs| ==> secs[k] != duration) ==> b == 0.0)
      && ((exists k :: 0 <= k < |values| && k < |secs| && secs[k] == duration) ==>
            exists k :: 0 <= k < |values| && k < |secs| && secs[k] == duration && values[k] == b)
  {
    var c := Candidates(values, secs, duration);
    CandidatesAreMatches(values, secs, duration);
    forall k | 0 <= k < |values| && k < |secs| && secs[k] == duration
      ensures values[k] <= BestValue(values, secs, duration)
    {
      assert values[k] in c;
    }
    if c != [] {
      assert Largest(c) in c;
    }
  }

  /** Durations [5, 15, 15] paired with [900, 600, 650]: the 15-second entry is 650, the 30-second one 0. */
  lemma BestValueExample()
    ensures BestValue([900.0, 600.0, 650.0], [5, 15, 15], 15) == 650.0
    ensures BestValue([900.0, 600.0, 650.0], [5, 15, 15], 30) == 0.0
  {
    assert Candidates([650.0], [15], 15) == [650.0] by {
      assert [650.0][1..] == [] && [15][1..] == [];
    }
    assert Candidates([600.0, 650.0], [15, 15], 15) == [600.0, 650.0] by {
      assert [600.0, 650.0][1..] == [650.0] && [15, 15][1..] == [15];
    }
    assert [900.0, 600.0, 650.0][1..] == [600.0, 650.0] && [5, 15, 15][1..] == [15, 15];
    assert [600.0, 650.0][..1] == [600.0];
    assert Candidates([650.0], [15], 30) == [] by {
      assert [650.0][1..] == [] && [15][1..] == [];
    }
    assert Candidates([600.0, 650.0], [15, 15], 30) == [] by {
      assert [600.0, 650.0][1..] == [650.0] && [15, 15][1..] == [15];
    }
  }

  /**
   * Builds one athlete's table from the fetched curve list: only the first entry
   * is read; an empty list gives the empty table and weight 0.
   */
  method ExtractBestEfforts(powerData: seq<CurveRow>) returns (r: AthleteBests)
    ensures powerData == [] ==> r == NoBests
    ensures powerData != [] ==>
              && r.weight == powerData[0].weight
              && r.bestEfforts.Keys == ColumnSet
              && forall k :: 0 <= k < |Durations| ==>
                   r.bestEfforts[Columns[k]] == BestValue(powerData[0].curve.values, powerData[0].curve.secs, Durations[k].0)
  {
    if powerData == [] {
      return NoBests;
    }
    var secsList := powerData[0].curve.secs;
    var valuesList := powerData[0].curve.values;
    ColumnsDistinct();

    var bestEfforts: map<string, real> := map[];
    for j := 0 to |Durations|
      invariant bestEfforts.Keys == (set k | 0 <= k < j :: Columns[k])
      invariant forall k :: 0 <= k < j ==> bestEfforts[Columns[k]] == BestValue(valuesList, secsList, Durations[k].0)
    {
      var duration, columnLabel := Durations[j].0, Durations[j].1;
      var candidates := Candidates(valuesList, secsList, duration);
      var bestValue := if candidates != [] then Largest(candidates) else 0.0;
      bestEfforts := bestEfforts[columnLabel := bestValue];
    }

    r := AthleteBests(bestEfforts, powerData[0].weight);
  }

  // ---------------------------------------------------------------------
  // The cohort maxima

  /** An athlete's entry in a column, 0 when the table has none. */
  function BestOf(a: AthleteBests, col: string): real {
    if col in a.bestEfforts then a.bestEfforts[col] else 0.0
  }

  /** An athlete's entry in a column per kilogram; only meaningful when the weight is positive. */
  function BestOfPerKg(a: AthleteBests, col: string): real
    requires a.weight > 0.0
  {
    BestOf(a, col) / a.weight
  }

  /** A running watt maximum after seeing athlete `a`: replaced only by a strictly larger entry. */
  function Raise(m: real, a: AthleteBests, col: string): real {
    if BestOf(a, col) > m then BestOf(a, col) else m
  }

  /** A running per-kg maximum after seeing athlete `a`: untouched unless the weight is positive. */
  function RaisePerKg(m: real, a: AthleteBests, col: string): real {
    if a.weight > 0.0 && BestOfPerKg(a, col) > m then BestOfPerKg(a, col) else m
  }

  /** The column maximum in watts, seeded at 0 and raised only by a strictly larger entry. */
  function ColumnMax(athletes: seq<AthleteBests>, col: string): real {
    if athletes == [] then 0.0
    else
      Raise(ColumnMax(athletes[..|athletes| - 1], col), athletes[|athletes| - 1], col)
  }

  /** The column maximum in watts per kilogram, over the athletes with a positive weight only. */
  function ColumnMaxPerKg(athletes: seq<AthleteBests>, col: string): real {
    if athletes == [] then 0.0
    else
      RaisePerKg(ColumnMaxPerKg(athletes[..|athletes| - 1], col), athletes[|athletes| - 1], col)
  }

  /** The maxima of every column over every athlete, in watts and in watts per kilogram. */
  method RankCohort(athletes: seq<AthleteBests>) returns (maxValues: map<string, real>, maxValuesPerKg: map<string, real>)
    ensures maxValues.Keys == maxValuesPerKg.Keys == ColumnSet
    ensures forall k :: 0 <= k < |Columns| ==>
              maxValues[Columns[k]] == ColumnMax(athletes, Columns[k]) &&
              maxValuesPerKg[Columns[k]] == ColumnMaxPerKg(athletes, Columns[k])
  {
    maxValues := map c | c in Columns :: 0.0;
    maxValuesPerKg := maxValues;

    for i := 0 to |athletes|
      invariant maxValues.Keys == maxValuesPerKg.Keys == ColumnSet
      invariant forall k :: 0 <= k < |Columns| ==>
                  maxValues[Columns[k]] == ColumnMax(athletes[..i], Columns[k]) &&
                  maxValuesPerKg[Columns[k]] == ColumnMaxPerKg(athletes[..i], Columns[k])
    {
      maxValues, maxValuesPerKg := RaiseColumns(athletes[i], maxValues, maxValuesPerKg);
      forall k | 0 <= k < |Columns|
        ensures maxValues[Columns[k]] == ColumnMax(athletes[..i + 1], Columns[k])
        ensures maxValuesPerKg[Columns[k]] == ColumnMaxPerKg(athletes[..i + 1], Columns[k])
      {
        ColumnStep(athletes, i, Columns[k]);
      }
    }
    assert athletes[..|athletes|] == athletes;
  }

  /** One athlete's pass over the columns: each maximum is raised to the athlete's entry when that is strictly larger. */
  method RaiseColumns(data: AthleteBests, maxValues: map<string, real>, maxValuesPerKg: map<string, real>)
    returns (newMaxValues: map<string, real>, newMaxValuesPerKg: map<string, real>)
    requires maxValues.Keys == maxValuesPerKg.Keys == ColumnSet
    ensures newMaxValues.Keys == newMaxValuesPerKg.Keys == ColumnSet
    ensures forall k :: 0 <= k < |Columns| ==>
              newMaxValues[Columns[k]] == Raise(maxValues[Columns[k]], data, Columns[k]) &&
              newMaxValuesPerKg[Columns[k]] == RaisePerKg(maxValuesPerKg[Columns[k]], data, Columns[k])
  {
    ColumnsDistinct();
    newMaxValues, newMaxValuesPerKg := maxValues, maxValuesPerKg;
    for j := 0 to |Columns|
      invariant newMaxValues.Keys == newMaxValuesPerKg.Keys == ColumnSet
      invariant forall k :: 0 <= k < j ==>
                  newMaxValues[Columns[k]] == Raise(maxValues[Columns[k]], data, Columns[k]) &&
                  newMaxValuesPerKg[Columns[k]] == RaisePerKg(maxValuesPerKg[Columns[k]], data, Columns[k])
      invariant forall k :: j <= k < |Columns| ==>
                  newMaxValues[Columns[k]] == maxValues[Columns[k]] &&
                  newMaxValuesPerKg[Columns[k]] == maxValuesPerKg[Columns[k]]
    {
      var col := Columns[j];
      var bestVal := BestOf(data, col);
      if bestVal > newMaxValues[col] {
        newMaxValues := newMaxValues[col := bestVal];
      }
      if data.weight > 0.0 {
        var valPerKg := bestVal / data.weight;
        if valPerKg > newMaxValuesPerKg[col] {
          newMaxValuesPerKg := newMaxValuesPerKg[col := valPerKg];
        }
      }
    }
  }

  /** How both column maxima move when the prefix of `athletes` grows by `athletes[i]`. */
  lemma ColumnStep(athletes: seq<AthleteBests>, i: nat, col: string)
    requires i < |athletes|
    ensures ColumnMax(athletes[..i + 1], col) == Raise(ColumnMax(athletes[..i], col), athletes[i], col)
    ensures ColumnMaxPerKg(athletes[..i + 1], col) == RaisePerKg(ColumnMaxPerKg(athletes[..i], col), athletes[i], col)
  {
    assert athletes[..i + 1][..i] == athletes[..i];
  }

  /** The watt maximum of a column is at least 0, at least every athlete's entry, and 0 or one of them. */
  lemma {:induction false} ColumnMaxBounds(athletes: seq<AthleteBests>, col: string)
    ensures var m := ColumnMax(athletes, col);
      && m >= 0.0
      && (forall i :: 0 <= i < |athletes| ==> BestOf(athletes[i], col) <= m)
      && (m == 0.0 || exists i :: 0 <= i < |athletes| && BestOf(athletes[i], col) == m)
  {
    if athletes != [] {
      var n := |athletes| - 1;
      var init := athletes[..n];
      ColumnMaxBounds(init, col);
      assert forall i :: 0 <= i < n ==> init[i] == athletes[i];
      var m := ColumnMax(init, col);
      if m != 0.0 && ColumnMax(athletes, col) == m {
        var i :| 0 <= i < n && BestOf(init[i], col) == m;
        assert BestOf(athletes[i], col) == m;
      }
    }
  }

  /**
   * The per-kg maximum of a column is at least 0, at least the per-kg entry of every
   * athlete with a positive weight, and 0 or the per-kg entry of one such athlete:
   * an athlete without a positive weight never sets it.
   */
  lemma {:induction false} ColumnMaxPerKgBounds(athletes: seq<AthleteBests>, col: string)
    ensures var m := ColumnMaxPerKg(athletes, col);
      && m >= 0.0
      && (forall i :: 0 <= i < |athletes| && athletes[i].weight > 0.0 ==> BestOfPerKg(athletes[i], col) <= m)
      && (m == 0.0 || exists i :: 0 <= i < |athletes| && athletes[i].weight > 0.0 && BestOfPerKg(athletes[i], col) == m)
  {
    if athletes != [] {
      var n := |athletes| - 1;
      var init := athletes[..n];
      ColumnMaxPerKgBounds(init, col);
      assert forall i :: 0 <= i < n ==> init[i] == athletes[i];
      var m := ColumnMaxPerKg(init, col);
      if m != 0.0 && ColumnMaxPerKg(athletes, col) == m {
        var i :| 0 <= i < n && init[i].weight > 0.0 && BestOfPerKg(init[i], col) == m;
        assert athletes[i].weight > 0.0 && BestOfPerKg(athletes[i], col) == m;
      }
    }
  }

  /** An athlete whose curve list was empty contributes 0 to every column and is left out of the per-kg maxima. */
  lemma NoBestsNeutral(athletes: seq<AthleteBests>, col: string)
    ensures ColumnMaxPerKg(athletes + [NoBests], col) == ColumnMaxPerKg(athletes, col)
    ensures ColumnMax(athletes + [NoBests], col) == ColumnMax(athletes, col)
  {
    assert (athletes + [NoBests])[..|athletes|] == athletes;
    ColumnMaxBounds(athletes, col);
  }
}
