/**
 * The records the statistics core reads: one activity as listed by the
 * intervals.icu API, and one power curve (parallel duration/value lists).
 *
 * A field the API record lacks, or holds as null, is `None`. The source reads
 * almost every numeric field as `activity.get(key, 0) or 0`, so an absent
 * field and a zero field mean the same thing there; `OrZero` is that reading.
 */
module Model {

  datatype Option<T> = None | Some(value: T) {
    function GetOr(default: T): T {
      match this
      case Some(v) => v
      case None => default
    }
  }

  /** The activity types counted as cycling, and those counted at all. */
  const CyclingTypes: set<string> := {"Ride", "VirtualRide"}
  const IncludedTypes: set<string> := CyclingTypes + {"Run"}

  datatype Activity = Activity(
    id: string,                      // "id"; "" when absent
    kind: Option<string>,            // "type"
    distance: Option<real>,          // "distance", metres
    movingTime: Option<real>,        // "moving_time", seconds
    trainingLoad: Option<real>,      // "icu_training_load"
    weight: Option<real>,            // "icu_weight", kilograms
    ctl: Option<real>,               // "icu_ctl", the fitness score
    weightedAvgWatts: Option<real>,  // "icu_weighted_avg_watts", normalised power
    averageWatts: Option<real>,      // "icu_average_watts"
    pmFtp: Option<real>,             // "icu_pm_ftp", estimated FTP
    hrZoneTimes: seq<real>,          // "icu_hr_zone_times", seconds per zone; [] when absent
    athleteMaxHr: Option<real>,      // "athlete_max_hr", bpm
    maxHeartrate: Option<real>,      // "max_heartrate", bpm
    elevationGain: Option<real>)     // "total_elevation_gain", metres

  /** A power curve: `values[k]` watts sustained for `secs[k]` seconds. */
  datatype PowerCurve = PowerCurve(secs: seq<int>, values: seq<real>)

  /** The curve of a failed or skipped fetch (an empty dictionary). */
  const EmptyCurve := PowerCurve([], [])

  /** `x or 0`: absent and zero both read as 0. */
  function OrZero(x: Option<real>): real {
    x.GetOr(0.0)
  }

  predicate IsIncluded(a: Activity) {
    a.kind.Some? && a.kind.value in IncludedTypes
  }

  predicate IsCycling(a: Activity) {
    a.kind.Some? && a.kind.value in CyclingTypes
  }

  function Max(x: real, y: real): real {
    if x >= y then x else y
  }
}
