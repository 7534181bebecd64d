/**
 * The weekly highlight board: over every athlete's activities of the window,
 * in roster order and then activity order, the single best activity for each
 * of eight metrics and the athlete who did it.
 *
 * Each winner starts at value 0 with no athlete and is replaced only by a
 * strictly larger value, so the first activity to reach the final value keeps
 * the title. The heart-rate winner also keeps the raw peak heart rate of the
 * activity that set it.
 *
 * `Scan` folds `Step` over the observations and is the reference;
 * `WeeklyHighlights` is the nested loop that overwrites board entries in
 * place, proved to compute `Scan`.
 */
module Highlights {
  import opened Model
  import opened BestEffort

  /** The eight highlight categories, in board order. */
  datatype Metric =
    | Power15s         // "Max 15s Power (W)"
    | Power15sPerKg    // "Max 15s Power (W/kg)"
    | Power20m         // "Max 20m Power (W)"
    | Power20mPerKg    // "Max 20m Power (W/kg)"
    | LongestDuration  // "Longest Duration (hrs)"
    | LongestDistance  // "Longest Distance (km)"
    | MaxHrPercent     // "Max % of Max HR"
    | MostElevation    // "Most Elevation Gain (m)"

  /** The holder of one category. */
  datatype Winner = Winner(value: real, athlete: string)

  /** The seed of every category: value 0, no athlete. */
  const NoWinner := Winner(0.0, "")

  /** The board: one winner per category, and the peak heart rate (bpm) behind the heart-rate winner. */
  datatype Board = Board(
    power15s: Winner,
    power15sPerKg: Winner,
    power20m: Winner,
    power20mPerKg: Winner,
    longestDuration: Winner,
    longestDistance: Winner,
    maxHrPercent: Winner,
    mostElevation: Winner,
    maxHrBpm: real)

  const InitialBoard := Board(NoWinner, NoWinner, NoWinner, NoWinner, NoWinner, NoWinner, NoWinner, NoWinner, 0.0)

  /** The winner of category `m`. */
  function Lookup(b: Board, m: Metric): Winner {
    match m
    case Power15s => b.power15s
    case Power15sPerKg => b.power15sPerKg
    case Power20m => b.power20m
    case Power20mPerKg => b.power20mPerKg
    case LongestDuration => b.longestDuration
    case LongestDistance => b.longestDistance
    case MaxHrPercent => b.maxHrPercent
    case MostElevation => b.mostElevation
  }

  /** One activity of one athlete, as the scan meets it. */
  datatype Observation = Observation(athlete: string, activity: Activity)

  // ---------------------------------------------------------------------
  // What one activity scores

  /**
   * The power curve of an activity: fetched, by activity id, only for a cycling
   * activity with a non-empty id; `curves` holds the fetched curves and a
   * missing id stands for a failed fetch, which reads as the empty curve.
   */
  function CurveFor(a: Activity, curves: map<string, PowerCurve>): PowerCurve {
    if IsCycling(a) && a.id != "" && a.id in curves then curves[a.id] else EmptyCurve
  }

  function EffortPower(a: Activity, curves: map<string, PowerCurve>, seconds: int): real {
    BestEffortPower(CurveFor(a, curves), seconds)
  }

  /** Watts per kilogram, taken only when both the weight and the power are positive. */
  function PerKg(power: real, weight: real): real {
    if weight > 0.0 && power > 0.0 then power / weight else 0.0
  }

  /** The activity's peak heart rate as a percentage of the athlete's maximum, taken only when both are positive. */
  function HrPercent(a: Activity): real {
    var athleteMaxHr, maxHeartrate := OrZero(a.athleteMaxHr), OrZero(a.maxHeartrate);
    if athleteMaxHr > 0.0 && maxHeartrate > 0.0 then (maxHeartrate / athleteMaxHr) * 100.0 else 0.0
  }

  function DurationHours(a: Activity): real { OrZero(a.movingTime) / 3600.0 }
  function DistanceKm(a: Activity): real { OrZero(a.distance) / 1000.0 }
  function Elevation(a: Activity): real { OrZero(a.elevationGain) }

  /** What activity `a` scores in category `m`. */
  function Measure(m: Metric, a: Activity, curves: map<string, PowerCurve>): real {
    match m
    case Power15s => EffortPower(a, curves, 15)
    case Power15sPerKg => PerKg(EffortPower(a, curves, 15), OrZero(a.weight))
    case Power20m => EffortPower(a, curves, 1200)
    case Power20mPerKg => PerKg(EffortPower(a, curves, 1200), OrZero(a.weight))
    case LongestDuration => DurationHours(a)
    case LongestDistance => DistanceKm(a)
    case MaxHrPercent => HrPercent(a)
    case MostElevation => Elevation(a)
  }

  /** The per-kg score is never negative, and it is positive exactly when both weight and power are. */
  lemma PerKgGuard(power: real, weight: real)
    ensures PerKg(power, weight) >= 0.0
    ensures PerKg(power, weight) > 0.0 <==> weight > 0.0 && power > 0.0
    ensures PerKg(power, weight) > 0.0 ==> PerKg(power, weight) == power / weight
  {
    if weight > 0.0 && power > 0.0 {
      assert power / weight > 0.0;
    }
  }

  /** The heart-rate score is never negative, and it is positive exactly when both heart rates are. */
  lemma HrPercentGuard(a: Activity)
    ensures HrPercent(a) >= 0.0
    ensures HrPercent(a) > 0.0 <==> OrZero(a.athleteMaxHr) > 0.0 && OrZero(a.maxHeartrate) > 0.0
  {
    var athleteMaxHr, maxHeartrate := OrZero(a.athleteMaxHr), OrZero(a.maxHeartrate);
    if athleteMaxHr > 0.0 && maxHeartrate > 0.0 {
      assert maxHeartrate / athleteMaxHr > 0.0;
    }
  }

  /** Only cycling activities have a power curve; every other activity scores 0 in the four power categories. */
  lemma NoCurveNoPower(a: Activity, curves: map<string, PowerCurve>, m: Metric)
    requires !IsCycling(a) || a.id == "" || a.id !in curves
    requires m == Power15s || m == Power15sPerKg || m == Power20m || m == Power20mPerKg
    ensures Measure(m, a, curves) == 0.0
  {
    assert CurveFor(a, curves) == EmptyCurve;
    assert 15 !in EmptyCurve.secs && 1200 !in EmptyCurve.secs;
  }

  // ---------------------------------------------------------------------
  // The reference scan

  /** A winner challenged by `value`: replaced only when `value` is strictly larger. */
  function Challenge(w: Winner, value: real, athlete: string): Winner {
    if value > w.value then Winner(value, athlete) else w
  }

  /** The board after observation `o`; activities of a type outside the included set are skipped. */
  function Step(b: Board, o: Observation, curves: map<string, PowerCurve>): Board {
    var a, who := o.activity, o.athlete;
    if !IsIncluded(a) then b
    else
      var p15, p20, weight := EffortPower(a, curves, 15), EffortPower(a, curves, 1200), OrZero(a.weight);
      Board(
        Challenge(b.power15s, p15, who),
        Challenge(b.power15sPerKg, PerKg(p15, weight), who),
        Challenge(b.power20m, p20, who),
        Challenge(b.power20mPerKg, PerKg(p20, weight), who),
        Challenge(b.longestDuration, DurationHours(a), who),
        Challenge(b.longestDistance, DistanceKm(a), who),
        Challenge(b.maxHrPercent, HrPercent(a), who),
        Challenge(b.mostElevation, Elevation(a), who),
        if HrPercent(a) > b.maxHrPercent.value then OrZero(a.maxHeartrate) else b.maxHrBpm)
  }

  /** The board after every observation of `obs`, in order. */
  function Scan(obs: seq<Observation>, curves: map<string, PowerCurve>): Board {
    if obs == [] then InitialBoard
    else Step(Scan(obs[..|obs| - 1], curves), obs[|obs| - 1], curves)
  }

  /** The activities of one athlete, each tagged with the athlete's name. */
  function Tagged(athlete: string, acts: seq<Activity>): seq<Observation> {
    seq(|acts|, k requires 0 <= k < |acts| => Observation(athlete, acts[k]))
  }

  /** Every athlete's activities, athlete by athlete in roster order. */
  function Observations(roster: seq<(string, seq<Activity>)>): seq<Observation> {
    if roster == [] then []
    else
      var (athlete, acts) := roster[|roster| - 1];
      Observations(roster[..|roster| - 1]) + Tagged(athlete, acts)
  }

  // ---------------------------------------------------------------------
  // The imperative scan

  /** The nested scan over the roster's athletes and each athlete's activities. */
  method WeeklyHighlights(roster: seq<(string, seq<Activity>)>, curves: map<string, PowerCurve>)
    returns (highlights: Board)
    ensures highlights == Scan(Observations(roster), curves)
  {
    highlights := InitialBoard;
    for i := 0 to |roster|
      invariant highlights == Scan(Observations(roster[..i]), curves)
    {
      var athleteName, activities := roster[i].0, roster[i].1;
      var seen := Observations(roster[..i]);
      assert seen + Tagged(athleteName, activities[..0]) == seen;
      for j := 0 to |activities|
        invariant highlights == Scan(seen + Tagged(athleteName, activities[..j]), curves)
      {
        var activity := activities[j];
        ScanStep(seen, athleteName, activities, j, curves);
        if IsIncluded(activity) {
          highlights := ConsiderActivity(highlights, athleteName, activity, curves);
        }
      }
      ObservationsStep(roster, i);
    }
    assert roster[..|roster|] == roster;
  }

  /** One included activity against the board: each category is overwritten when the activity strictly beats it. */
  method ConsiderActivity(highlights: Board, athleteName: string, activity: Activity, curves: map<string, PowerCurve>)
    returns (updated: Board)
    requires IsIncluded(activity)
    ensures updated == Step(highlights, Observation(athleteName, activity), curves)
  {
    var powerCurveData := CurveFor(activity, curves);
    var max15SecPower := BestEffortPower(powerCurveData, 15);
    var max20MinPower := BestEffortPower(powerCurveData, 1200);

    var weight := OrZero(activity.weight);
    var max15sWKg := if weight > 0.0 && max15SecPower > 0.0 then max15SecPower / weight else 0.0;
    var max20mWKg := if weight > 0.0 && max20MinPower > 0.0 then max20MinPower / weight else 0.0;

    var power15s := Contest(highlights.power15s, max15SecPower, athleteName);
    var power15sPerKg := Contest(highlights.power15sPerKg, max15sWKg, athleteName);
    var power20m := Contest(highlights.power20m, max20MinPower, athleteName);
    var power20mPerKg := Contest(highlights.power20mPerKg, max20mWKg, athleteName);

    var singleDuration := OrZero(activity.movingTime) / 3600.0;
    var longestDuration := Contest(highlights.longestDuration, singleDuration, athleteName);
    var singleDistance := OrZero(activity.distance) / 1000.0;
    var longestDistance := Contest(highlights.longestDistance, singleDistance, athleteName);

    var athleteMaxHr := OrZero(activity.athleteMaxHr);
    var maxHeartrate := OrZero(activity.maxHeartrate);
    var maxHrPercent := 0.0;
    if athleteMaxHr > 0.0 && maxHeartrate > 0.0 {
      maxHrPercent := (maxHeartrate / athleteMaxHr) * 100.0;
    }
    var hrWinner, maxHrBpm := highlights.maxHrPercent, highlights.maxHrBpm;
    if maxHrPercent > hrWinner.value {
      hrWinner, maxHrBpm := Winner(maxHrPercent, athleteName), maxHeartrate;
    }

    var elevationGain := OrZero(activity.elevationGain);
    var mostElevation := Contest(highlights.mostElevation, elevationGain, athleteName);

    updated := Board(power15s, power15sPerKg, power20m, power20mPerKg, longestDuration, longestDistance,
                     hrWinner, mostElevation, maxHrBpm);
  }

  /**
   * One category's entry after a challenge, the imperative counterpart of `Challenge`:
   * overwritten only by a strictly larger value.
   */
  method Contest(current: Winner, value: real, athleteName: string) returns (w: Winner)
    ensures w == Challenge(current, value, athleteName)
  {
    w := current;
    if value > current.value {
      w := Winner(value, athleteName);
    }
  }

  /** Scanning one more activity of the current athlete is one more `Step`. */
  lemma ScanStep(seen: seq<Observation>, athlete: string, acts: seq<Activity>, j: nat, curves: map<string, PowerCurve>)
    requires j < |acts|
    ensures Scan(seen + Tagged(athlete, acts[..j + 1]), curves) ==
              Step(Scan(seen + Tagged(athlete, acts[..j]), curves), Observation(athlete, acts[j]), curves)
  {
    var obs := seen + Tagged(athlete, acts[..j]);
    assert seen + Tagged(athlete, acts[..j + 1]) == obs + [Observation(athlete, acts[j])];
    assert (obs + [Observation(athlete, acts[j])])[..|obs|] == obs;
  }

  /** The observations of the first `i + 1` athletes extend those of the first `i` by athlete `i`'s activities. */
  lemma ObservationsStep(roster: seq<(string, seq<Activity>)>, i: nat)
    requires i < |roster|
    ensures Observations(roster[..i + 1]) ==
              Observations(roster[..i]) + Tagged(roster[i].0, roster[i].1[..|roster[i].1|])
  {
    assert roster[..i + 1][..i] == roster[..i];
    assert roster[i].1[..|roster[i].1|] == roster[i].1;
  }

  // ---------------------------------------------------------------------
  // What the board promises

  /** One step leaves a category alone or raises it, so it never decreases. */
  lemma StepRaises(b: Board, o: Observation, curves: map<string, PowerCurve>, m: Metric)
    ensures Lookup(Step(b, o, curves), m).value >= Lookup(b, m).value
    ensures IsIncluded(o.activity) ==> Lookup(Step(b, o, curves), m).value >= Measure(m, o.activity, curves)
    ensures Lookup(Step(b, o, curves), m) == Lookup(b, m) ||
              (IsIncluded(o.activity) && Measure(m, o.activity, curves) > Lookup(b, m).value &&
               Lookup(Step(b, o, curves), m) == Winner(Measure(m, o.activity, curves), o.athlete))
    ensures Step(b, o, curves).maxHrBpm ==
              if Lookup(Step(b, o, curves), MaxHrPercent) == Lookup(b, MaxHrPercent) then b.maxHrBpm
              else OrZero(o.activity.maxHeartrate)
  {
  }

  /** Every winner is at least 0 and at least the score of every included activity scanned. */
  lemma {:induction false} ScanDominates(obs: seq<Observation>, curves: map<string, PowerCurve>, m: Metric)
    ensures Lookup(Scan(obs, curves), m).value >= 0.0
    ensures forall i :: 0 <= i < |obs| && IsIncluded(obs[i].activity) ==>
              Measure(m, obs[i].activity, curves) <= Lookup(Scan(obs, curves), m).value
  {
    if obs != [] {
      var n := |obs| - 1;
      var init := obs[..n];
      ScanDominates(init, curves, m);
      StepRaises(Scan(init, curves), obs[n], curves, m);
      assert forall i :: 0 <= i < n ==> init[i] == obs[i];
    }
  }

  /** Scanning more observations never lowers a winner's value. */
  lemma {:induction false} ScanMonotone(obs: seq<Observation>, k: nat, curves: map<string, PowerCurve>, m: Metric)
    requires k <= |obs|
    ensures Lookup(Scan(obs[..k], curves), m).value <= Lookup(Scan(obs, curves), m).value
  {
    if k < |obs| {
      var n := |obs| - 1;
      assert obs[..n][..k] == obs[..k];
      ScanMonotone(obs[..n], k, curves, m);
      StepRaises(Scan(obs[..n], curves), obs[n], curves, m);
    } else {
      assert obs[..k] == obs;
    }
  }

  /** The winner's value is first reached by observation `i`, whose athlete and heart rate the board holds. */
  ghost predicate FirstToReach(obs: seq<Observation>, curves: map<string, PowerCurve>, m: Metric, b: Board, i: int) {
    && 0 <= i < |obs|
    && IsIncluded(obs[i].activity)
    && Lookup(b, m) == Winner(Measure(m, obs[i].activity, curves), obs[i].athlete)
    && (forall j :: 0 <= j < i && IsIncluded(obs[j].activity) ==> Measure(m, obs[j].activity, curves) < Lookup(b, m).value)
    && (m == MaxHrPercent ==> b.maxHrBpm == OrZero(obs[i].activity.maxHeartrate))
  }

  /**
   * A winner with value 0 is still the seed (and then no heart rate is kept);
   * any other winner is the first included activity, in scan order, to score that
   * value: every earlier one scored strictly less, so a tie keeps the earlier
   * title. The heart rate kept is that same activity's.
   */
  lemma {:induction false} ScanWinnerIsFirst(obs: seq<Observation>, curves: map<string, PowerCurve>, m: Metric)
    ensures var b := Scan(obs, curves);
      && (Lookup(b, m).value == 0.0 ==> Lookup(b, m) == NoWinner && (m == MaxHrPercent ==> b.maxHrBpm == 0.0))
      && (Lookup(b, m).value != 0.0 ==> exists i :: FirstToReach(obs, curves, m, b, i))
  {
    if obs != [] {
      var n := |obs| - 1;
      var init := obs[..n];
      var before := Scan(init, curves);
      var b := Scan(obs, curves);
      ScanWinnerIsFirst(init, curves, m);
      ScanDominates(init, curves, m);
      StepRaises(before, obs[n], curves, m);
      StepRaises(before, obs[n], curves, MaxHrPercent);
      if Lookup(b, m) != Lookup(before, m) {
        FirstToReachNew(obs, init, curves, m, before, b);
      } else if Lookup(b, m).value != 0.0 {
        var i :| FirstToReach(init, curves, m, before, i);
        FirstToReachKept(obs, curves, m, before, b, i);
      }
    }
  }

  /** A winner the last observation did not change keeps its first observation. */
  lemma FirstToReachKept(obs: seq<Observation>, curves: map<string, PowerCurve>, m: Metric, before: Board, b: Board, i: int)
    requires obs != [] && FirstToReach(obs[..|obs| - 1], curves, m, before, i)
    requires Lookup(b, m) == Lookup(before, m)
    requires m == MaxHrPercent ==> b.maxHrBpm == before.maxHrBpm
    ensures FirstToReach(obs, curves, m, b, i)
  {
    assert forall j :: 0 <= j < |obs| - 1 ==> obs[..|obs| - 1][j] == obs[j];
  }

  /** A winner the last observation set is first reached there, since every earlier score was at most the old value. */
  lemma FirstToReachNew(obs: seq<Observation>, init: seq<Observation>, curves: map<string, PowerCurve>, m: Metric,
                        before: Board, b: Board)
    requires obs != [] && init == obs[..|obs| - 1]
    requires var n := |obs| - 1;
      && IsIncluded(obs[n].activity)
      && Measure(m, obs[n].activity, curves) > Lookup(before, m).value
      && Lookup(b, m) == Winner(Measure(m, obs[n].activity, curves), obs[n].athlete)
      && (m == MaxHrPercent ==> b.maxHrBpm == OrZero(obs[n].activity.maxHeartrate))
    requires forall j :: 0 <= j < |init| && IsIncluded(init[j].activity) ==>
               Measure(m, init[j].activity, curves) <= Lookup(before, m).value
    ensures FirstToReach(obs, curves, m, b, |obs| - 1)
  {
    assert forall j :: 0 <= j < |obs| - 1 ==> obs[..|obs| - 1][j] == obs[j];
  }

  /** A roster of one run peaking at 180 bpm against a maximum of 190: 18000/190 % with 180 bpm kept. */
  lemma HeartRateExample()
    ensures var run := Activity("r1", Some("Run"), Some(5000.0), Some(1800.0), None, None, None, None, None, None,
                                [], Some(190.0), Some(180.0), None);
            var b := Scan(Observations([("Ann", [run])]), map[]);
            b.maxHrPercent == Winner(18000.0 / 190.0, "Ann") && b.maxHrBpm == 180.0 &&
            b.longestDistance == Winner(5.0, "Ann") && b.power15s == NoWinner
  {
    var run := Activity("r1", Some("Run"), Some(5000.0), Some(1800.0), None, None, None, None, None, None,
                        [], Some(190.0), Some(180.0), None);
    var b := Step(InitialBoard, Observation("Ann", run), map[]);
    assert Scan(Observations([("Ann", [run])]), map[]) == b by {
      var roster := [("Ann", [run])];
      assert roster[..0] == [];
      var obs := Observations(roster);
      assert obs == Observations(roster[..0]) + Tagged("Ann", [run]);
      assert Tagged("Ann", [run]) == [Observation("Ann", run)];
      assert obs == [Observation("Ann", run)];
      assert obs[..0] == [];
    }
    assert IsIncluded(run);
    assert b.maxHrPercent == Winner(18000.0 / 190.0, "Ann") && b.maxHrBpm == 180.0 by {
      assert (180.0 / 190.0) * 100.0 == 18000.0 / 190.0;
    }
    assert b.power15s == NoWinner by {
      assert CurveFor(run, map[]) == EmptyCurve;
    }
  }
}
