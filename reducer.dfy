/**
 * The activity reducer: one pass over one athlete's activities in a time
 * window, giving totals, power maxima, the heart-rate zone distribution and
 * the fitness-trend delta.
 *
 * `Summarize` defines each field of the result from its own reference
 * function over the whole input (a sum, a running maximum, a first or last
 * occurrence); `ProcessActivities` is the single imperative pass, proved to
 * compute `Summarize`. The lemmas state what the summary promises.
 */
module Reducer {
  import opened Model

  /** The number of heart-rate zones the reducer keeps. */
  const ZoneCount: nat := 5

  datatype Summary = Summary(
    totalDistance: real,            // km
    totalDuration: real,            // hours
    avgTrainingLoadPerWeek: real,
    maxNormalizedPower: real,       // W
    maxAvgPower: real,              // W
    maxNormalizedPowerPerKg: real,  // W/kg
    maxAvgPowerPerKg: real,         // W/kg
    maxPmFtp: real,                 // W
    hrZonePercentages: seq<real>,
    fitnessGainPercentage: real)

  // ---------------------------------------------------------------------
  // Readings of one activity

  function Weight(a: Activity): real { OrZero(a.weight) }
  function NormalizedPower(a: Activity): real { OrZero(a.weightedAvgWatts) }
  function AveragePower(a: Activity): real { OrZero(a.averageWatts) }

  /** A cycling activity with a positive weight: the only kind whose per-kg power is taken. */
  predicate PerKgEligible(a: Activity) {
    IsCycling(a) && Weight(a) > 0.0
  }

  /** Seconds spent in zone `k`; a zone list too short to have slot `k` gives 0. */
  function ZoneTime(a: Activity, k: int): real {
    if 0 <= k < |a.hrZoneTimes| then a.hrZoneTimes[k] else 0.0
  }

  /** The quantities the reducer adds up over included activities. */
  datatype Counter = Metres | Seconds | Load | ZoneSeconds(zone: int)

  function Reading(c: Counter, a: Activity): real {
    match c
    case Metres => OrZero(a.distance)
    case Seconds => OrZero(a.movingTime)
    case Load => OrZero(a.trainingLoad)
    case ZoneSeconds(k) => ZoneTime(a, k)
  }

  /** The five running power maxima. */
  datatype Peak = NormalizedWatts | AverageWatts | NormalizedWattsPerKg | AverageWattsPerKg | EstimatedFtp

  /** The activities a peak is taken over: cycling ones, and for the per-kg peaks only weighed ones. */
  predicate Eligible(p: Peak, a: Activity) {
    match p
    case NormalizedWattsPerKg | AverageWattsPerKg => PerKgEligible(a)
    case _ => IsCycling(a)
  }

  function PeakReading(p: Peak, a: Activity): real {
    match p
    case NormalizedWatts => NormalizedPower(a)
    case AverageWatts => AveragePower(a)
    case NormalizedWattsPerKg => if Weight(a) > 0.0 then NormalizedPower(a) / Weight(a) else 0.0
    case AverageWattsPerKg => if Weight(a) > 0.0 then AveragePower(a) / Weight(a) else 0.0
    case EstimatedFtp => OrZero(a.pmFtp)
  }

  /** An included activity that reports a fitness score. */
  predicate ReportsCtl(a: Activity) {
    IsIncluded(a) && a.ctl.Some?
  }

  // ---------------------------------------------------------------------
  // Reference definitions over a whole activity list

  /** The sum of reading `c` over the included activities. */
  function Total(acts: seq<Activity>, c: Counter): real {
    if acts == [] then 0.0
    else
      var a := acts[|acts| - 1];
      Total(acts[..|acts| - 1], c) + (if IsIncluded(a) then Reading(c, a) else 0.0)
  }

  /** Peak `p` after seeing `a`: raised to `a`'s reading when `a` is eligible for it. */
  function Raised(p: Peak, a: Activity, m: real): real {
    if Eligible(p, a) then Max(m, PeakReading(p, a)) else m
  }

  /** The maximum, seeded at 0, of peak `p` over the included activities eligible for it. */
  function RunningMax(acts: seq<Activity>, p: Peak): real {
    if acts == [] then 0.0
    else
      var a := acts[|acts| - 1];
      var m := RunningMax(acts[..|acts| - 1], p);
      if IsIncluded(a) then Raised(p, a, m) else m
  }

  /** Slot `k` of the five zone totals: the zone-`k` seconds summed over the included activities. */
  function ZoneTotals(acts: seq<Activity>): seq<real> {
    seq(ZoneCount, k => Total(acts, ZoneSeconds(k)))
  }

  /** One more activity adds its zone-`k` time to slot `k` when it is included, and nothing otherwise. */
  lemma ZoneTotalsAppend(acts: seq<Activity>, a: Activity)
    ensures |ZoneTotals(acts + [a])| == ZoneCount
    ensures forall k :: 0 <= k < ZoneCount ==>
              ZoneTotals(acts + [a])[k] == ZoneTotals(acts)[k] + (if IsIncluded(a) then ZoneTime(a, k) else 0.0)
  {
    assert (acts + [a])[..|acts|] == acts;
  }

  /** The fitness score of the first included activity that reports one. */
  function FirstCtl(acts: seq<Activity>): Option<real> {
    if acts == [] then None
    else if ReportsCtl(acts[0]) then acts[0].ctl
    else FirstCtl(acts[1..])
  }

  /** The fitness score of the last included activity that reports one. */
  function LastCtl(acts: seq<Activity>): Option<real> {
    if acts == [] then None
    else if ReportsCtl(acts[|acts| - 1]) then acts[|acts| - 1].ctl
    else LastCtl(acts[..|acts| - 1])
  }

  function Sum(s: seq<real>): real {
    if s == [] then 0.0 else Sum(s[..|s| - 1]) + s[|s| - 1]
  }

  /** Each entry as a percentage of the sum of all entries; all 0 when that sum is not positive. */
  function Percentages(times: seq<real>): (p: seq<real>)
    ensures |p| == |times|
    ensures Sum(times) <= 0.0 ==> forall k :: 0 <= k < |p| ==> p[k] == 0.0
    ensures Sum(times) > 0.0 ==> forall k :: 0 <= k < |p| ==> p[k] * Sum(times) == times[k] * 100.0
  {
    var total := Sum(times);
    seq(|times|, k requires 0 <= k < |times| => if total > 0.0 then times[k] / total * 100.0 else 0.0)
  }

  /** The fitness gain, sign-inverted: a falling score reads as a positive gain. */
  function FitnessGain(start: Option<real>, end: Option<real>): (g: real)
    requires start.Some? ==> end.Some?
    ensures start.None? || start.value <= 0.0 ==> g == 0.0
    ensures start.Some? && start.value > 0.0 ==> g * start.value == (start.value - end.value) * 100.0
  {
    if start.Some? && start.value > 0.0 then
      (((end.value - start.value) / start.value) * 100.0) * -1.0
    else
      0.0
  }

  function AveragePerWeek(load: real, weeksAgo: int): (r: real)
    ensures weeksAgo > 0 ==> r * (weeksAgo as real) == load
    ensures weeksAgo <= 0 ==> r == 0.0
  {
    if weeksAgo > 0 then load / (weeksAgo as real) else 0.0
  }

  /** The summary of `acts` over a window of `weeksAgo` weeks. */
  function Summarize(acts: seq<Activity>, weeksAgo: int): Summary {
    CtlPresence(acts);
    Summary(
      Total(acts, Metres) / 1000.0,
      Total(acts, Seconds) / 3600.0,
      AveragePerWeek(Total(acts, Load), weeksAgo),
      RunningMax(acts, NormalizedWatts),
      RunningMax(acts, AverageWatts),
      RunningMax(acts, NormalizedWattsPerKg),
      RunningMax(acts, AverageWattsPerKg),
      RunningMax(acts, EstimatedFtp),
      Percentages(ZoneTotals(acts)),
      FitnessGain(FirstCtl(acts), LastCtl(acts)))
  }

  // ---------------------------------------------------------------------
  // The imperative pass

  /** One pass over `activities`, in order, keeping running totals, maxima, zone times and CTL ends. */
  method ProcessActivities(activities: seq<Activity>, weeksAgo: int) returns (s: Summary)
    ensures s == Summarize(activities, weeksAgo)
  {
    var totalDistance, totalDuration, totalTrainingLoad := 0.0, 0.0, 0.0;
    var maxNormalizedPower, maxAvgPower := 0.0, 0.0;
    var maxNormalizedPowerPerKg, maxAvgPowerPerKg := 0.0, 0.0;
    var maxPmFtp := 0.0;
    var hrZoneTimes := new real[ZoneCount](_ => 0.0);
    var ctlStart: Option<real> := None;
    var ctlEnd: Option<real> := None;

    var i := 0;
    while i < |activities|
      invariant 0 <= i <= |activities|
      invariant totalDistance == Total(activities[..i], Metres)
      invariant totalDuration == Total(activities[..i], Seconds)
      invariant totalTrainingLoad == Total(activities[..i], Load)
      invariant maxNormalizedPower == RunningMax(activities[..i], NormalizedWatts)
      invariant maxAvgPower == RunningMax(activities[..i], AverageWatts)
      invariant maxNormalizedPowerPerKg == RunningMax(activities[..i], NormalizedWattsPerKg)
      invariant maxAvgPowerPerKg == RunningMax(activities[..i], AverageWattsPerKg)
      invariant maxPmFtp == RunningMax(activities[..i], EstimatedFtp)
      invariant hrZoneTimes.Length == ZoneCount
      invariant forall k :: 0 <= k < ZoneCount ==> hrZoneTimes[k] == Total(activities[..i], ZoneSeconds(k))
      invariant ctlStart == FirstCtl(activities[..i])
      invariant ctlEnd == LastCtl(activities[..i])
    {
      var activity := activities[i];
      PrefixStep(activities, i);
      if IsIncluded(activity) {
        if activity.ctl.Some? {
          if ctlStart.None? {
            ctlStart := activity.ctl;
          }
          ctlEnd := activity.ctl;
        }

        totalDistance := totalDistance + OrZero(activity.distance);
        totalDuration := totalDuration + OrZero(activity.movingTime);
        totalTrainingLoad := totalTrainingLoad + OrZero(activity.trainingLoad);

        maxNormalizedPower, maxAvgPower, maxNormalizedPowerPerKg, maxAvgPowerPerKg, maxPmFtp :=
          TakePeaks(activity, maxNormalizedPower, maxAvgPower, maxNormalizedPowerPerKg, maxAvgPowerPerKg, maxPmFtp);

        if activity.hrZoneTimes != [] {
          AddZoneTimes(hrZoneTimes, activity.hrZoneTimes);
        }
      }
      i := i + 1;
    }
    assert activities[..i] == activities;

    var zoneTotals := hrZoneTimes[..];
    assert zoneTotals == ZoneTotals(activities) by {
      assert forall k :: 0 <= k < ZoneCount ==> zoneTotals[k] == Total(activities, ZoneSeconds(k));
    }
    var hrZonePercentages := Percentages(zoneTotals);

    CtlPresence(activities);
    var fitnessGainPercentage := 0.0;
    if ctlStart.Some? && ctlStart.value > 0.0 {
      fitnessGainPercentage := (((ctlEnd.value - ctlStart.value) / ctlStart.value) * 100.0) * -1.0;
    }

    var avgTrainingLoadPerWeek := if weeksAgo > 0 then totalTrainingLoad / (weeksAgo as real) else 0.0;
    assert fitnessGainPercentage == FitnessGain(FirstCtl(activities), LastCtl(activities));

    s := Summary(
      totalDistance / 1000.0,
      totalDuration / 3600.0,
      avgTrainingLoadPerWeek,
      maxNormalizedPower,
      maxAvgPower,
      maxNormalizedPowerPerKg,
      maxAvgPowerPerKg,
      maxPmFtp,
      hrZonePercentages,
      fitnessGainPercentage);
  }

  /**
   * The cycling block of one included activity, the imperative counterpart of `Raised`:
   * each peak grows by the activity's reading when it is eligible.
   */
  method TakePeaks(activity: Activity, maxNormalizedPower: real, maxAvgPower: real, maxNormalizedPowerPerKg: real,
                   maxAvgPowerPerKg: real, maxPmFtp: real)
    returns (np: real, ap: real, npKg: real, apKg: real, ftp: real)
    ensures np == Raised(NormalizedWatts, activity, maxNormalizedPower)
    ensures ap == Raised(AverageWatts, activity, maxAvgPower)
    ensures npKg == Raised(NormalizedWattsPerKg, activity, maxNormalizedPowerPerKg)
    ensures apKg == Raised(AverageWattsPerKg, activity, maxAvgPowerPerKg)
    ensures ftp == Raised(EstimatedFtp, activity, maxPmFtp)
  {
    np, ap, npKg, apKg, ftp := maxNormalizedPower, maxAvgPower, maxNormalizedPowerPerKg, maxAvgPowerPerKg, maxPmFtp;
    if IsCycling(activity) {
      var weight := OrZero(activity.weight);
      var normalizedPower := OrZero(activity.weightedAvgWatts);
      var avgPower := OrZero(activity.averageWatts);
      np := Max(np, normalizedPower);
      ap := Max(ap, avgPower);
      if weight > 0.0 {
        npKg := Max(npKg, normalizedPower / weight);
        apKg := Max(apKg, avgPower / weight);
      }
      ftp := Max(ftp, OrZero(activity.pmFtp));
    }
  }

  /** Adds each zone time of one activity into the running per-zone totals; entries past the last slot are dropped. */
  method AddZoneTimes(hrZoneTimes: array<real>, zones: seq<real>)
    modifies hrZoneTimes
    ensures forall k :: 0 <= k < hrZoneTimes.Length ==>
              hrZoneTimes[k] == old(hrZoneTimes[k]) + (if k < |zones| then zones[k] else 0.0)
  {
    var j := 0;
    while j < |zones|
      invariant 0 <= j <= |zones|
      invariant forall k :: 0 <= k < hrZoneTimes.Length ==>
                  hrZoneTimes[k] == old(hrZoneTimes[k]) + (if k < j && k < |zones| then zones[k] else 0.0)
    {
      if j < hrZoneTimes.Length {
        hrZoneTimes[j] := hrZoneTimes[j] + zones[j];
      }
      j := j + 1;
    }
  }

  /** How every reference definition moves when the prefix of `acts` grows by `acts[i]`. */
  lemma PrefixStep(acts: seq<Activity>, i: nat)
    requires i < |acts|
    ensures var a, p, q := acts[i], acts[..i], acts[..i + 1];
      && (forall c :: Total(q, c) == Total(p, c) + (if IsIncluded(a) then Reading(c, a) else 0.0))
      && (forall pk :: RunningMax(q, pk) ==
            if IsIncluded(a) then Raised(pk, a, RunningMax(p, pk)) else RunningMax(p, pk))
      && FirstCtl(q) == (if FirstCtl(p).Some? then FirstCtl(p) else if ReportsCtl(a) then a.ctl else None)
      && LastCtl(q) == (if ReportsCtl(a) then a.ctl else LastCtl(p))
  {
    assert acts[..i + 1][..i] == acts[..i];
    assert acts[..i + 1] == acts[..i] + [acts[i]];
    FirstCtlAppend(acts[..i], acts[i]);
  }

  // ---------------------------------------------------------------------
  // First and last fitness score

  lemma {:induction false} FirstCtlAppend(acts: seq<Activity>, a: Activity)
    ensures FirstCtl(acts + [a]) ==
              if FirstCtl(acts).Some? then FirstCtl(acts)
              else if ReportsCtl(a) then a.ctl
              else None
  {
    if acts == [] {
      assert [a][1..] == [];
    } else {
      assert (acts + [a])[1..] == acts[1..] + [a];
      FirstCtlAppend(acts[1..], a);
    }
  }

  /** `FirstCtl` is the score of the first activity, in input order, that reports one. */
  lemma {:induction false} FirstCtlIsFirst(acts: seq<Activity>)
    ensures FirstCtl(acts).None? <==> forall i :: 0 <= i < |acts| ==> !ReportsCtl(acts[i])
    ensures FirstCtl(acts).Some? ==>
              exists i :: 0 <= i < |acts| && ReportsCtl(acts[i]) && acts[i].ctl == FirstCtl(acts) &&
                          forall j :: 0 <= j < i ==> !ReportsCtl(acts[j])
  {
    if acts != [] && !ReportsCtl(acts[0]) {
      var rest := acts[1..];
      FirstCtlIsFirst(rest);
      assert forall i :: 1 <= i < |acts| ==> acts[i] == rest[i - 1];
      if FirstCtl(rest).Some? {
        var i :| 0 <= i < |rest| && ReportsCtl(rest[i]) && rest[i].ctl == FirstCtl(rest) &&
                 forall j :: 0 <= j < i ==> !ReportsCtl(rest[j]);
        assert ReportsCtl(acts[i + 1]) && acts[i + 1].ctl == FirstCtl(acts);
        assert forall j :: 0 <= j < i + 1 ==> !ReportsCtl(acts[j]) by {
          forall j | 0 <= j < i + 1 ensures !ReportsCtl(acts[j]) {
            if j > 0 { assert acts[j] == rest[j - 1]; }
          }
        }
      }
    } else if acts != [] {
      assert ReportsCtl(acts[0]);
    }
  }

  /** `LastCtl` is the score of the last activity, in input order, that reports one. */
  lemma {:induction false} LastCtlIsLast(acts: seq<Activity>)
    ensures LastCtl(acts).None? <==> forall i :: 0 <= i < |acts| ==> !ReportsCtl(acts[i])
    ensures LastCtl(acts).Some? ==>
              exists i :: 0 <= i < |acts| && ReportsCtl(acts[i]) && acts[i].ctl == LastCtl(acts) &&
                          forall j :: i < j < |acts| ==> !ReportsCtl(acts[j])
  {
    if acts != [] {
      var n := |acts| - 1;
      if ReportsCtl(acts[n]) {
      } else {
        LastCtlIsLast(acts[..n]);
        assert forall i :: 0 <= i < n ==> acts[..n][i] == acts[i];
        if LastCtl(acts[..n]).Some? {
          var i :| 0 <= i < n && ReportsCtl(acts[..n][i]) && acts[..n][i].ctl == LastCtl(acts[..n]) &&
                   forall j :: i < j < n ==> !ReportsCtl(acts[..n][j]);
          assert ReportsCtl(acts[i]);
        }
      }
    }
  }

  /** A first score exists exactly when a last one does. */
  lemma CtlPresence(acts: seq<Activity>)
    ensures FirstCtl(acts).Some? <==> LastCtl(acts).Some?
  {
    FirstCtlIsFirst(acts);
    LastCtlIsLast(acts);
  }

  /** Scores 50 then 40 give a fitness gain of 20 (a fall of 20% reads as +20). */
  lemma FitnessGainExample(a: Activity, b: Activity)
    requires ReportsCtl(a) && a.ctl == Some(50.0)
    requires ReportsCtl(b) && b.ctl == Some(40.0)
    ensures Summarize([a, b], 1).fitnessGainPercentage == 20.0
  {
    assert [a, b][1..] == [b];
    assert [a, b][..1] == [a];
  }

  // ---------------------------------------------------------------------
  // The empty input

  /** No activities: every total, maximum, zone share and the fitness gain are 0. */
  lemma SummarizeEmpty(weeksAgo: int)
    ensures Summarize([], weeksAgo) ==
              Summary(0.0, 0.0, 0.0, 0.0, 0.0, 0.0, 0.0, 0.0, [0.0, 0.0, 0.0, 0.0, 0.0], 0.0)
  {
    var t := ZoneTotals([]);
    assert Sum(t[..0]) == 0.0;
  }

  // ---------------------------------------------------------------------
  // Maxima

  /** A running maximum is at least 0, at least every eligible reading, and 0 or one of them. */
  lemma {:induction false} RunningMaxBounds(acts: seq<Activity>, p: Peak)
    ensures RunningMax(acts, p) >= 0.0
    ensures forall i :: 0 <= i < |acts| && IsIncluded(acts[i]) && Eligible(p, acts[i]) ==>
              PeakReading(p, acts[i]) <= RunningMax(acts, p)
    ensures RunningMax(acts, p) == 0.0 ||
              exists i :: 0 <= i < |acts| && IsIncluded(acts[i]) && Eligible(p, acts[i]) &&
                          PeakReading(p, acts[i]) == RunningMax(acts, p)
  {
    if acts != [] {
      var n := |acts| - 1;
      var init := acts[..n];
      RunningMaxBounds(init, p);
      assert forall i :: 0 <= i < n ==> init[i] == acts[i];
      var m := RunningMax(init, p);
      if m != 0.0 && RunningMax(acts, p) == m {
        var i :| 0 <= i < n && IsIncluded(init[i]) && Eligible(p, init[i]) && PeakReading(p, init[i]) == m;
        assert IsIncluded(acts[i]) && Eligible(p, acts[i]) && PeakReading(p, acts[i]) == m;
      }
    }
  }

  /**
   * The three watt maxima of a summary (normalised power, average power, FTP):
   * each at least 0, at least the value of every cycling activity, and 0 or the
   * value of one such activity, so an activity that is not a ride never sets them.
   */
  lemma SummaryWattMaxima(acts: seq<Activity>, weeksAgo: int)
    ensures var s := Summarize(acts, weeksAgo);
      && s.maxNormalizedPower >= 0.0 && s.maxAvgPower >= 0.0 && s.maxPmFtp >= 0.0
      && (forall i :: 0 <= i < |acts| && IsCycling(acts[i]) ==>
            s.maxNormalizedPower >= NormalizedPower(acts[i]) && s.maxAvgPower >= AveragePower(acts[i]) &&
            s.maxPmFtp >= OrZero(acts[i].pmFtp))
      && (s.maxNormalizedPower == 0.0 ||
            exists i :: 0 <= i < |acts| && IsCycling(acts[i]) && s.maxNormalizedPower == NormalizedPower(acts[i]))
      && (s.maxAvgPower == 0.0 ||
            exists i :: 0 <= i < |acts| && IsCycling(acts[i]) && s.maxAvgPower == AveragePower(acts[i]))
      && (s.maxPmFtp == 0.0 ||
            exists i :: 0 <= i < |acts| && IsCycling(acts[i]) && s.maxPmFtp == OrZero(acts[i].pmFtp))
  {
    RunningMaxBounds(acts, NormalizedWatts);
    RunningMaxBounds(acts, AverageWatts);
    RunningMaxBounds(acts, EstimatedFtp);
  }

  /**
   * The two per-kg maxima of a summary: each at least 0, each at least the value of
   * every cycling activity with a positive weight, and 0 or attained by such an
   * activity; an activity without a positive weight never sets them.
   */
  lemma SummaryPerKgMaxima(acts: seq<Activity>, weeksAgo: int)
    ensures var s := Summarize(acts, weeksAgo);
      && s.maxNormalizedPowerPerKg >= 0.0 && s.maxAvgPowerPerKg >= 0.0
      && (forall i :: 0 <= i < |acts| && PerKgEligible(acts[i]) ==>
            NormalizedPower(acts[i]) / Weight(acts[i]) <= s.maxNormalizedPowerPerKg &&
            AveragePower(acts[i]) / Weight(acts[i]) <= s.maxAvgPowerPerKg)
      && (s.maxNormalizedPowerPerKg == 0.0 ||
            exists i :: 0 <= i < |acts| && PerKgEligible(acts[i]) &&
                        s.maxNormalizedPowerPerKg == NormalizedPower(acts[i]) / Weight(acts[i]))
      && (s.maxAvgPowerPerKg == 0.0 ||
            exists i :: 0 <= i < |acts| && PerKgEligible(acts[i]) &&
                        s.maxAvgPowerPerKg == AveragePower(acts[i]) / Weight(acts[i]))
  {
    var s := Summarize(acts, weeksAgo);
    PerKgPeakBounds(acts, NormalizedWattsPerKg);
    PerKgPeakBounds(acts, AverageWattsPerKg);
    assert s.maxNormalizedPowerPerKg == RunningMax(acts, NormalizedWattsPerKg);
    assert s.maxAvgPowerPerKg == RunningMax(acts, AverageWattsPerKg);
  }

  /** The watts a per-kg peak divides by the weight. */
  function PerKgWatts(p: Peak, a: Activity): real {
    if p == NormalizedWattsPerKg then NormalizedPower(a) else AveragePower(a)
  }

  /** The per-kg form of `RunningMaxBounds`, stated on watts and weight. */
  lemma PerKgPeakBounds(acts: seq<Activity>, p: Peak)
    requires p == NormalizedWattsPerKg || p == AverageWattsPerKg
    ensures var m := RunningMax(acts, p);
      && m >= 0.0
      && (forall i :: 0 <= i < |acts| && PerKgEligible(acts[i]) ==> PerKgWatts(p, acts[i]) / Weight(acts[i]) <= m)
      && (m == 0.0 || exists i :: 0 <= i < |acts| && PerKgEligible(acts[i]) && m == PerKgWatts(p, acts[i]) / Weight(acts[i]))
  {
    RunningMaxBounds(acts, p);
    var m := RunningMax(acts, p);
    forall i | 0 <= i < |acts| && PerKgEligible(acts[i]) ensures PerKgWatts(p, acts[i]) / Weight(acts[i]) <= m {
      assert IsIncluded(acts[i]) && Eligible(p, acts[i]);
    }
    if m != 0.0 {
      var i :| 0 <= i < |acts| && IsIncluded(acts[i]) && Eligible(p, acts[i]) && PeakReading(p, acts[i]) == m;
      assert PerKgEligible(acts[i]);
    }
  }

  // ---------------------------------------------------------------------
  // Heart-rate zones

  lemma {:induction false} SumScaled(t: seq<real>, u: seq<real>, c: real)
    requires |u| == |t|
    requires forall k :: 0 <= k < |t| ==> u[k] == t[k] * c
    ensures Sum(u) == Sum(t) * c
  {
    if t != [] {
      var n := |t| - 1;
      assert forall k :: 0 <= k < n ==> u[..n][k] == t[..n][k] * c;
      SumScaled(t[..n], u[..n], c);
    }
  }

  /** When any zone time is present the zone shares add up to 100. */
  lemma PercentagesSumTo100(times: seq<real>)
    requires Sum(times) > 0.0
    ensures Sum(Percentages(times)) == 100.0
  {
    var total := Sum(times);
    var p := Percentages(times);
    var c := 100.0 / total;
    forall k | 0 <= k < |times| ensures p[k] == times[k] * c {
      assert times[k] / total * 100.0 == times[k] * (100.0 / total);
    }
    SumScaled(times, p, c);
    assert total * (100.0 / total) == 100.0;
  }

  lemma {:induction false} SumNonNegative(t: seq<real>)
    requires forall k :: 0 <= k < |t| ==> t[k] >= 0.0
    ensures Sum(t) >= 0.0
  {
    if t != [] {
      SumNonNegative(t[..|t| - 1]);
    }
  }

  /** Non-negative zone times give non-negative shares. */
  lemma PercentagesNonNegative(times: seq<real>)
    requires forall k :: 0 <= k < |times| ==> times[k] >= 0.0
    ensures forall k :: 0 <= k < |times| ==> Percentages(times)[k] >= 0.0
  {
    SumNonNegative(times);
  }

  /** The activities' recorded zone times are all non-negative. */
  predicate NonNegativeZones(acts: seq<Activity>) {
    forall i, z :: 0 <= i < |acts| && 0 <= z < |acts[i].hrZoneTimes| ==> acts[i].hrZoneTimes[z] >= 0.0
  }

  lemma {:induction false} ZoneTotalNonNegative(acts: seq<Activity>, k: int)
    requires NonNegativeZones(acts)
    ensures Total(acts, ZoneSeconds(k)) >= 0.0
  {
    if acts != [] {
      var n := |acts| - 1;
      assert forall i :: 0 <= i < n ==> acts[..n][i] == acts[i];
      ZoneTotalNonNegative(acts[..n], k);
    }
  }

  /**
   * The zone distribution of a summary: always five entries; all 0 when the zone
   * times add up to nothing; otherwise shares that sum to 100, each non-negative
   * when every recorded zone time is.
   */
  lemma SummaryZones(acts: seq<Activity>, weeksAgo: int)
    ensures var p := Summarize(acts, weeksAgo).hrZonePercentages;
      && |p| == ZoneCount
      && (Sum(ZoneTotals(acts)) <= 0.0 ==> forall k :: 0 <= k < ZoneCount ==> p[k] == 0.0)
      && (Sum(ZoneTotals(acts)) > 0.0 ==> Sum(p) == 100.0)
      && (NonNegativeZones(acts) ==> forall k :: 0 <= k < ZoneCount ==> p[k] >= 0.0)
  {
    var t := ZoneTotals(acts);
    if Sum(t) > 0.0 {
      PercentagesSumTo100(t);
    }
    if NonNegativeZones(acts) {
      forall k | 0 <= k < ZoneCount ensures t[k] >= 0.0 {
        ZoneTotalNonNegative(acts, k);
      }
      PercentagesNonNegative(t);
    }
  }

  /** An activity with its zone list cut to the first five entries. */
  function TruncateZones(a: Activity): Activity {
    if |a.hrZoneTimes| > ZoneCount then a.(hrZoneTimes := a.hrZoneTimes[..ZoneCount]) else a
  }

  function TruncateAll(acts: seq<Activity>): (r: seq<Activity>)
    ensures |r| == |acts|
  {
    if acts == [] then [] else TruncateAll(acts[..|acts| - 1]) + [TruncateZones(acts[|acts| - 1])]
  }

  lemma {:induction false} ZoneTotalTruncated(acts: seq<Activity>, k: int)
    requires 0 <= k < ZoneCount
    ensures Total(TruncateAll(acts), ZoneSeconds(k)) == Total(acts, ZoneSeconds(k))
  {
    if acts != [] {
      var n := |acts| - 1;
      var r := TruncateAll(acts[..n]);
      ZoneTotalTruncated(acts[..n], k);
      assert (r + [TruncateZones(acts[n])])[..n] == r;
    }
  }

  /** Zone entries beyond the fifth are ignored: cutting every zone list to five changes no zone total. */
  lemma ExtraZonesIgnored(acts: seq<Activity>)
    ensures ZoneTotals(TruncateAll(acts)) == ZoneTotals(acts)
  {
    forall k | 0 <= k < ZoneCount
      ensures Total(TruncateAll(acts), ZoneSeconds(k)) == Total(acts, ZoneSeconds(k))
    {
      ZoneTotalTruncated(acts, k);
    }
  }

  // ---------------------------------------------------------------------
  // Excluded activity types

  /** The included activities of `acts`, in order. */
  function OnlyIncluded(acts: seq<Activity>): (r: seq<Activity>)
    ensures forall i :: 0 <= i < |r| ==> IsIncluded(r[i])
  {
    if acts == [] then []
    else
      var a := acts[|acts| - 1];
      OnlyIncluded(acts[..|acts| - 1]) + (if IsIncluded(a) then [a] else [])
  }

  /** Every reference definition gives the same value on the included activities alone. */
  lemma {:induction false} ReferencesOnlyIncluded(acts: seq<Activity>)
    ensures forall c :: Total(OnlyIncluded(acts), c) == Total(acts, c)
    ensures forall p :: RunningMax(OnlyIncluded(acts), p) == RunningMax(acts, p)
    ensures FirstCtl(OnlyIncluded(acts)) == FirstCtl(acts)
    ensures LastCtl(OnlyIncluded(acts)) == LastCtl(acts)
  {
    if acts != [] {
      var n := |acts| - 1;
      var r := OnlyIncluded(acts[..n]);
      ReferencesOnlyIncluded(acts[..n]);
      assert acts == acts[..n] + [acts[n]];
      FirstCtlAppend(acts[..n], acts[n]);
      if IsIncluded(acts[n]) {
        FirstCtlAppend(r, acts[n]);
        assert (r + [acts[n]])[..|r|] == r;
      } else {
        assert r + [] == r;
      }
    }
  }

  /** Activities of a type outside the included set have no effect: dropping them changes nothing. */
  lemma ExcludedIgnored(acts: seq<Activity>, weeksAgo: int)
    ensures Summarize(OnlyIncluded(acts), weeksAgo) == Summarize(acts, weeksAgo)
  {
    ReferencesOnlyIncluded(acts);
    assert ZoneTotals(OnlyIncluded(acts)) == ZoneTotals(acts);
  }

  // ---------------------------------------------------------------------
  // A worked scenario

  /** A ride of `metres` and `seconds` with normalised power `watts` by a rider weighing `kg`. */
  function Ride(metres: real, seconds: real, watts: real, kg: real): Activity {
    Activity("", Some("Ride"), Some(metres), Some(seconds), None, Some(kg), None,
             Some(watts), None, None, [], None, None, None)
  }

  /** 10 km in an hour at 200 W and 70 kg; 5 km in half an hour at 250 W and 50 kg. */
  lemma RideScenario()
    ensures var alice := Summarize([Ride(10000.0, 3600.0, 200.0, 70.0)], 1);
      alice.totalDistance == 10.0 && alice.totalDuration == 1.0 &&
      alice.maxNormalizedPower == 200.0 && alice.maxNormalizedPowerPerKg == 200.0 / 70.0
    ensures var bob := Summarize([Ride(5000.0, 1800.0, 250.0, 50.0)], 1);
      bob.totalDistance == 5.0 && bob.totalDuration == 0.5 &&
      bob.maxNormalizedPower == 250.0 && bob.maxNormalizedPowerPerKg == 5.0
  {
    var a := [Ride(10000.0, 3600.0, 200.0, 70.0)];
    var b := [Ride(5000.0, 1800.0, 250.0, 50.0)];
    assert a[..0] == [] && b[..0] == [];
  }
}
