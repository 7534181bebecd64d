# Cycling-club statistics core, modelled in Dafny

This project models the statistics logic of a Discord bot for a cycling club.
The bot reads each athlete's activities and power curves from the
intervals.icu API and reports:

- per-athlete aggregates over a window of weeks: distance, time, training load,
  power maxima, heart-rate zone shares and the fitness-score trend;
- an all-time best-effort table per athlete, with the cohort maxima of each
  column in watts and in watts per kilogram;
- a weekly highlight board: the single best activity in each of eight
  categories, and who did it.

The fetched activity lists and power curves are inputs to the model. Numbers are
`real`. A field the source reads with `x or 0` (distance, moving time, training
load, weight, the power readings, FTP, the heart rates and elevation) reads as 0
when the API record lacks it or holds it as null. The fitness score `icu_ctl` is
different: a missing or null score stays absent, and the first and last score
skip such activities.

Modules:

- `Model` (`model.dfy`) holds the activity record, the power curve, and the
  cycling and included activity types.
- `BestEffort` (`best_effort.dfy`) is the power-curve lookup for one duration.
- `Reducer` (`reducer.dfy`) is the one-pass activity reducer. `Summarize`
  defines every field of its result from a reference function over the whole
  input. `ProcessActivities` is the imperative loop, with its accumulators and
  a five-slot zone array updated in place, and it is proved to compute
  `Summarize`.
- `PersonalBests` (`personal_bests.dfy`) holds two loops. `ExtractBestEfforts`
  builds the best-effort table. `RankCohort` is the nested max-scan over the
  athletes' tables.
- `Highlights` (`highlights.dfy`) has the reference scan `Scan`, a fold of
  `Step` over the observations. `WeeklyHighlights` is the nested loop over
  athletes and activities that overwrites board entries, and it is proved to
  compute `Scan`.

## Model

| member | source | states |
|---|---|---|
| BestEffort.FirstIndex | ted.py:68-69 | The index is the first position holding the target duration. It equals the list length exactly when the duration is absent. |
| BestEffort.BestEffortPower | ted.py:65-71 | An absent duration gives 0. Otherwise the result is the value at the first position holding the duration, or 0 when that position is past the end of the value list. |
| BestEffort.BestEffortIsPairedValue | ted.py:65-71 | The result is 0 or a value paired with the requested duration: nothing is interpolated. |
| BestEffort.BestEffortExample | ted.py:65-71 | Durations [5, 15, 300] with values [800, 700, 300] give 700 at 15 s and 0 at 60 s. |
| BestEffort.BestEffortShortValues | ted.py:70 | A value list shorter than the duration list gives 0 for a duration whose index has no value. |
| Reducer.ProcessActivities | ted.py:73-140 | The single pass returns exactly `Summarize` of its input, field by field. |
| Reducer.TakePeaks | ted.py:102-113 | For a cycling activity, each of the five maxima rises to the activity's reading. The per-kg maxima rise only when the weight is positive. Other activities leave all five unchanged. |
| Reducer.AddZoneTimes | ted.py:115-118 | Each of the five slots gains the activity's time for that zone. Entries past the fifth are dropped, and a short list adds nothing to the missing slots. |
| Reducer.ZoneTotalsAppend | ted.py:115-118 | One more activity adds its zone-k time to slot k of the five totals when its type is included, and adds nothing otherwise. A zone list shorter than k + 1 adds 0 to slot k. |
| Reducer.Percentages | ted.py:120-123 | The list has the input's length. All entries are 0 when the total is not positive. Otherwise each entry times the total equals its time times 100. |
| Reducer.FitnessGain | ted.py:125-127 | The gain is 0 unless the first score is present and positive. Otherwise gain times start equals (start - end) times 100: a falling score reads as a positive gain. |
| Reducer.AveragePerWeek | ted.py:132 | When the window is positive, the average times the number of weeks equals the total load. Otherwise it is 0. |
| Reducer.FirstCtlIsFirst | ted.py:91-96 | The first score is absent exactly when no included activity reports one. Otherwise it is the score of the earliest included activity that reports one. |
| Reducer.LastCtlIsLast | ted.py:91-96 | The last score is absent exactly when no included activity reports one. Otherwise it is the score of the latest included activity that reports one. |
| Reducer.CtlPresence | ted.py:93-96 | A first score exists exactly when a last score does, so the end score is always set when the start score is. |
| Reducer.FitnessGainExample | ted.py:125-127 | Scores 50 then 40 give a fitness gain of 20. |
| Reducer.SummarizeEmpty | ted.py:73-140 | An empty input gives all-zero totals and maxima, five zero zone shares and a zero fitness gain. |
| Reducer.RunningMaxBounds | ted.py:102-113 | Each running maximum is at least 0 and at least every eligible reading. It is either 0 or equal to one of those readings. |
| Reducer.SummaryWattMaxima | ted.py:102-113 | Normalised power, average power and FTP maxima are each at least 0 and at least the value of every included cycling activity. Each is either 0 or the value of one such activity, so a non-cycling activity never sets them. |
| Reducer.SummaryPerKgMaxima | ted.py:109-111 | Each per-kg maximum is at least 0 and at least watts/weight of every cycling activity with a positive weight. It is either 0 or attained by such an activity, so no other activity sets it. |
| Reducer.PerKgPeakBounds | ted.py:109-111 | The per-kg running maximum bounds, stated on watts and weight rather than on the stored quotient. |
| Reducer.PercentagesSumTo100 | ted.py:120-123 | When the zone total is positive, the shares add up to 100. |
| Reducer.PercentagesNonNegative | ted.py:120-123 | Non-negative zone times give non-negative shares. |
| Reducer.SummaryZones | ted.py:115-123 | The summary's zone list always has five entries. They are all 0 when the zone times add up to nothing, and they sum to 100 otherwise. Each is non-negative when every recorded zone time is. |
| Reducer.ExtraZonesIgnored | ted.py:116-118 | Cutting every activity's zone list to five entries changes no zone total. |
| Reducer.ReferencesOnlyIncluded | ted.py:86-88 | Every sum, maximum and first or last score is the same over the included activities alone. |
| Reducer.ExcludedIgnored | ted.py:86-88 | Removing the activities whose type is not included leaves the summary unchanged. |
| Reducer.RideScenario | ted.py:73-140 | A 10 km, 1 h ride at 200 W and 70 kg gives 10 km, 1 h, 200 W and 200/70 W/kg. A 5 km, 0.5 h ride at 250 W and 50 kg gives 5 km, 0.5 h, 250 W and 5 W/kg. |
| PersonalBests.ColumnsDistinct | ted.py:157-160 | The six column labels are pairwise distinct, and they are the labels of the six durations, in order. |
| PersonalBests.CandidatesAreMatches | ted.py:163 | Every value paired with the duration within the shorter of the two lists is a candidate. Every candidate is such a value. |
| PersonalBests.Largest | ted.py:164 | The maximum of a non-empty list belongs to the list and is at least every element. |
| PersonalBests.BestValueIsMax | ted.py:162-165 | A table entry is at least every value paired with its duration and equals one of them. It is 0 when no value is paired with the duration. It is not floored at 0. |
| PersonalBests.BestValueExample | ted.py:162-165 | Durations [5, 15, 15] with values [900, 600, 650] give 650 for 15 s and 0 for 30 s. |
| PersonalBests.ExtractBestEfforts | ted.py:150-168 | An empty curve list gives the empty table and weight 0. Otherwise the table has exactly the six column labels, each holding the best value for its duration in the first entry, with that entry's weight. |
| PersonalBests.RankCohort | ted.py:183-195 | Both result maps have exactly the six column labels. Each column holds the watt maximum and the per-kg maximum over all athletes. The same scan is repeated verbatim in the `bests` command at ted.py:481-493, and this method models both copies. |
| PersonalBests.RaiseColumns | ted.py:188-195 | One athlete's pass replaces each column's maximum only by a strictly larger entry. The per-kg maximum is replaced only when the weight is positive. |
| PersonalBests.ColumnMaxBounds | ted.py:187-191 | A column's watt maximum is at least 0 and at least every athlete's entry. It is either 0 or one athlete's entry. |
| PersonalBests.ColumnMaxPerKgBounds | ted.py:187-195 | A column's per-kg maximum is at least 0 and at least the per-kg entry of every athlete with a positive weight. It is either 0 or such an athlete's per-kg entry. |
| PersonalBests.NoBestsNeutral | ted.py:150-151 | An athlete whose curve list was empty changes neither maximum of any column. |
| Highlights.PerKgGuard | ted.py:392-394 | The per-kg score is never negative. It is positive exactly when weight and power are both positive, and it is then power/weight. |
| Highlights.HrPercentGuard | ted.py:416-420 | The heart-rate percentage is never negative, and it is positive exactly when both heart rates are positive. |
| Highlights.NoCurveNoPower | ted.py:383-390 | An activity without a fetched curve scores 0 in all four power categories. This covers a non-cycling activity, an empty id and a failed fetch. |
| Highlights.WeeklyHighlights | ted.py:365-427 | The nested loop over athletes and their activities returns exactly `Scan` of the observations in roster order. |
| Highlights.ConsiderActivity | ted.py:383-427 | One included activity updates the board exactly as `Step` does. |
| Highlights.Contest | ted.py:396-397 | A category entry is overwritten only by a strictly larger value. |
| Highlights.StepRaises | ted.py:396-427 | One step never lowers a category. It leaves the category unchanged or sets it to the activity's strictly larger score and athlete. The kept heart rate is overwritten with the new winner's own bpm exactly when the heart-rate winner changes. |
| Highlights.ScanDominates | ted.py:376-427 | Every winner's value is at least 0 and at least the score of every included activity scanned. |
| Highlights.ScanMonotone | ted.py:376-427 | Scanning more activities never lowers a winner's value. |
| Highlights.ScanWinnerIsFirst | ted.py:365-427 | A winner with value 0 is still the seed, and then no heart rate is kept. Any other winner is the earliest included activity to score that value, and every earlier activity scored strictly less, so ties keep the first title. The kept heart rate is that activity's own. |
| Highlights.HeartRateExample | ted.py:416-423 | A run peaking at 180 bpm against a maximum of 190 gives 18000/190 % for its athlete, with 180 bpm kept. |

## Left out

- Network I/O is left out. This covers fetching activities and power curves and the HTTP status handling (ted.py:48-63, 142-151, 169-171). Fetched lists and curves are inputs. A failed activity-curve fetch is an id missing from the curve map. A failed all-time curve fetch is the empty curve list.
- The Discord bot, its commands, embeds and messages are left out (ted.py:23-26, 452-564).
- Response-string formatting is left out (ted.py:197-230, 250-278, 298-356, 431-446). This includes the star marking of a column's best value by float equality.
- Environment and dotenv configuration and the athlete-roster parse are left out (ted.py:14-39). The roster is an input sequence in configuration order. The all-time tables are collected by athlete name, so two ids sharing a name keep only the later one. `RankCohort` takes the tables that remain.
- Date-window computation from the wall clock is left out (ted.py:234-235, 282-285, 360-363).
- Floating-point rounding is not modelled: arithmetic is over the reals.
- The year-to-date sums (ted.py:240-242) are left out. They repeat the reducer's distance, time and load sums, which `Reducer.Total` models.
- A JSON null weight in an all-time curve entry is not modelled: the source would fail comparing it with 0. `CurveRow.weight` is a number, and an absent weight reads as 0.
- A non-numeric or missing `secs`/`values` in an all-time curve entry is not modelled: the source would fail there.
- A JSON null inside an activity's `icu_hr_zone_times` list, or inside the `values` of an activity power curve, is not modelled: the source would fail adding it to a zone total (ted.py:118) or comparing it with a number (ted.py:396). `Activity.hrZoneTimes` and `PowerCurve.values` hold numbers only.
