# Outside-duty scheduler: a verified model of the scheduling core

The application assigns doctors (医員) to outside duties (外勤) at clinics on the
Saturdays of a month. This project models its scheduling core in Dafny. That core is
`optimizer.py` plus the prior-earnings accumulator `_calc_previous_earnings` in
`pages/admin_generate.py`. The model covers these steps:

- **Duty dates.** The month's duty dates are its Saturdays that are not public
  holidays. Each clinic's recurrence pattern then picks the dates it is staffed on.
- **Slots.** Every (clinic, date) the pattern picks becomes a slot needing some number
  of doctors. That number is 1 unless a date override changes it, and an override of
  0 closes the date.
- **Constraints.** The solver gets five hard constraint families:
  - exact coverage of every slot;
  - at most one duty per doctor per date;
  - no duty on a doctor's NG date;
  - no duty at a clinic whose affinity weight is 0.0 (NEVER);
  - at least one duty at each clinic whose weight is 2.0 (MUST), when that clinic has a
    slot.
- **Result.** An optimal answer is turned into an assignment list. That list comes with
  per-doctor earnings, per-doctor duty counts and a satisfaction score.
- **Plans.** The three weighting profiles (balanced, preference, affinity) are run in
  that order, and every run that produced a schedule is kept as a labelled plan.
- **Prior earnings.** Fees from confirmed schedules of earlier months are summed per
  doctor.

The modules follow the code:

- `Calendar`: `get_target_saturdays`
- `Recurrence`: `get_clinic_dates`
- `Indexing`: the dictionaries filled in loops, where the last entry wins
- `Slots`: the slot builder
- `LpModel`: the constraints, the extraction, and validity stated over assignments
- `Stats`: earnings, counts and satisfaction
- `Weights`: the mode table
- `Optimizer`: `solve_schedule` and `generate_multiple_plans`
- `TextOrder`: Python string order, the `YYYY-MM` label and `sorted`
- `History`: `_calc_previous_earnings`

Each loop of the source that builds a result is a method, proved equal to a
specification function; the properties are lemmas about that function. Two kinds of
loops are not methods, because what they build is a set of constraints rather than a
value. The loop that splits the affinity table into MUST and NEVER pairs
(optimizer.py:113-117) becomes the predicates `LpModel.IsMust` and `LpModel.IsNever`.
The loops that add the five constraint families (optimizer.py:136-176) become the
predicate `LpModel.SatisfiesConstraints`.

The solver is a parameter, `cbc: Problem -> Reply`. The model relies on one promise
from it, `SolverSound`: when it reports `Optimal`, its values satisfy every constraint
of the model. Validity of the schedules it yields follows from that promise.

Three other inputs are parameters too:

- the holiday table is `isHoliday: Date -> bool`;
- the confirmed schedules read from storage are a list;
- dates are `Date` values standing for their ISO strings (`d.isoformat()`).

Two behaviours of the code a reader might not expect:

- **Only the `Optimal` status yields a schedule.** This is the check at
  `optimizer.py:287`. Any other status gives no schedule, whatever values the solver
  holds. The model does not cover which status the solver library reports for a run
  stopped by its 30-second time limit.
- **Re-filtering under a biweekly pattern drops dates again.**
  `Recurrence.BiweeklyRefilterShrinks` gives lists that lose dates when filtered a
  second time. `Recurrence.RefilterStable` shows that the other patterns leave an
  already filtered list unchanged.

## Model

| member | source | states |
|---|---|---|
| `Calendar.DaysInMonth` | optimizer.py:21-25 | a month has 28 to 31 days, and 29 exactly for February of a leap year |
| `Calendar.Weekday` | optimizer.py:23 | `date.weekday()` is in 0..6 |
| `Calendar.WeekdayAnchor` | optimizer.py:23 | the weekday numbering matches the calendar: 0001-01-01 is a Monday (0), and each next day has the next weekday, Sunday (6) wrapping round to Monday, so weekday 5 is Saturday |
| `Calendar.NextDay` | optimizer.py:25 | adding one day gives the next valid date, one later in day count and later in date order; it fails exactly on 9999-12-31, where `timedelta` overflows |
| `Calendar.TargetSaturdays` | optimizer.py:18-26 | fails with ValueError exactly when the year or month is out of range, and with an overflow exactly for December 9999, where the walk steps past the last representable day |
| `Calendar.DutyDatesFromExact` | optimizer.py:22-25 | walking from a given day, the kept dates are in the month, are Saturdays that are not holidays, are strictly ascending, and include every such day from that day on |
| `Calendar.TargetSaturdaysExact` | optimizer.py:18-26 | a date is returned exactly when it is a valid date of that month whose weekday is Saturday (5) and which is not a holiday; the list is strictly ascending |
| `Calendar.GetTargetSaturdays` | optimizer.py:18-26 | the `while` loop returns exactly `TargetSaturdays`, including its error outcomes |
| `Common.NoDupCardinality` | optimizer.py:64 | a list of distinct doctor ids has as many distinct members as entries |
| `Recurrence.ClinicDates` | optimizer.py:29-43 | the result is an order-preserving subsequence of the input; `first_only` and `last_only` give the first or last date, or nothing for no dates; `biweekly_odd` gives the dates at even positions and `biweekly_even` those at odd positions; `weekly` and unknown patterns give the input unchanged |
| `Recurrence.KeepParityIsSubsequence` | optimizer.py:35-37 | keeping the positions of one parity yields an order-preserving subsequence |
| `Recurrence.KeepParityAt` | optimizer.py:35-37 | the k-th kept element is the input at the k-th position of that parity; the count of kept elements is exact |
| `Recurrence.EvenOddPartition` | optimizer.py:34-37 | the even-position list, which `biweekly_odd` returns, holds positions 0, 2, 4, …; the odd-position list, which `biweekly_even` returns, holds 1, 3, 5, …; every input position is found in one of the two |
| `Recurrence.EvenOddDisjoint` | optimizer.py:34-37 | with no repeated date, the even- and odd-position lists (the two biweekly patterns' results) share no date |
| `Recurrence.EvenOddCover` | optimizer.py:34-37 | together the even- and odd-position lists (the two biweekly patterns' results) hold every date of the input |
| `Recurrence.LastIsSubsequence` | optimizer.py:41 | the last date alone is a subsequence of the dates |
| `Recurrence.RefilterStable` | optimizer.py:32-33 | re-filtering under `weekly`, `first_only`, `last_only` or an unknown pattern changes nothing |
| `Recurrence.BiweeklyRefilterShrinks` | optimizer.py:34-37 | re-filtering under a biweekly pattern is not stable: three dates under `biweekly_odd` and four under `biweekly_even` lose dates on the second pass |
| `Indexing.IndexByLastWins` | optimizer.py:92-95 | a key is in the dictionary exactly when some entry has it, and it maps to the last such entry |
| `Indexing.BuildIndex` | optimizer.py:106-108 | the assignment loop builds exactly that dictionary |
| `Slots.AddDatesExact` | optimizer.py:75-81 | one clinic's dates keep the slot list free of repeats and in step with the count table, and add exactly its dates whose override is not 0 |
| `Slots.SlotTableExact` | optimizer.py:71-84 | (c, d) is a slot exactly when some clinic with id c has d among its pattern's dates and the override for (c, d) is not 0; its count is the override, or 1 without one; the slot list has no repeats and holds exactly the counted slots |
| `Slots.ClosedDateHasNoSlot` | optimizer.py:77-79 | a date closed by an override of 0 has no slot |
| `Slots.BuildSlots` | optimizer.py:71-84 | the nested loop builds exactly that slot list and count table |
| `LpModel.ExtractAssignments` | optimizer.py:291-299 | the extraction loop returns the assignments slot by slot, doctors in list order, for each variable above 0.5 |
| `LpModel.ExtractedMembers` | optimizer.py:291-299 | an assignment is extracted exactly when its doctor is in the list, its slot is a slot, and its variable is above 0.5 |
| `LpModel.ExtractedDutiesAtSlot` | optimizer.py:136-141 | the number of extracted assignments at a slot is the coverage sum of that slot |
| `LpModel.ExtractedDutiesOfDoctor` | optimizer.py:143-176 | a doctor's extracted assignments on a date, or at a clinic, number exactly the per-doctor sum over the same slots |
| `LpModel.SlotsOfDoctorWitness` | optimizer.py:147-148 | a per-doctor sum over a date or a clinic is non-zero only if some slot has that date or clinic |
| `LpModel.ExtractionSound` | optimizer.py:136-176 | values meeting all five constraint families extract to a valid schedule: exact coverage, at most one duty per doctor and date, no NG date, no NEVER clinic, every MUST pair with slots served |
| `LpModel.ExtractionComplete` | optimizer.py:136-176 | conversely, values whose extraction is a valid schedule meet all five constraint families |
| `LpModel.TwoDuties` | optimizer.py:144-152 | two different matching assignments count at least twice |
| `LpModel.DistinctDoctorsAtSlot` | optimizer.py:136-152 | in a valid schedule, the doctors on one slot are distinct |
| `LpModel.DoctorsAtCount` | optimizer.py:136-141 | when the doctors on a slot are distinct, their number is the slot's assignment count |
| `LpModel.FullStaffing` | optimizer.py:135-141 | a slot needing as many doctors as there are has every doctor on it |
| `LpModel.SoleDoctorNgInfeasible` | optimizer.py:136-159 | a lone doctor whose NG dates include a slot's date leaves no values that meet the constraints |
| `LpModel.OtherWeightsUnconstrained` | optimizer.py:113-117 | affinity weights other than 2.0 and 0.0 impose no constraint: changing one to another such weight changes nothing |
| `Stats.ComputeStats` | optimizer.py:302-306 | every doctor, and only they, gets an earnings and a count entry; each is the doctor's fee total and duty count over the assignments |
| `Stats.TallyOfAbsent` | optimizer.py:302-303 | a doctor without assignments has earnings 0 and count 0 |
| `Stats.TallyNonNegative` | optimizer.py:304-306 | counts are never negative, and earnings are not when no fee is |
| `Stats.TalliesSumToTotal` | optimizer.py:302-306 | over distinct doctors holding every assignment, the counts sum to the number of assignments and the earnings to the fees of all assignments |
| `Stats.ComputeSatisfaction` | optimizer.py:312-319 | the loop's score is the sum over assignments of +1 for a preferred clinic, +1 for a nominating clinic, and the affinity weight (0 when absent) |
| `Stats.SatisfactionAppend` | optimizer.py:312-319 | the score of a list is the sum of the scores of its parts |
| `Stats.SatisfactionBounds` | optimizer.py:312-319 | with the three canonical affinity weights, the score lies between 0 and 4 per assignment |
| `Weights.ModeWeights` | optimizer.py:261-268 | every profile penalises avoid dates with 3.0, keeps positive pay- and count-variance weights, and rewards preference, nomination and affinity with negative weights |
| `Weights.EffectiveWeights` | optimizer.py:261-272 | when no clinic pays anything the pay-variance weight is 0, and otherwise the mode's weights are used unchanged |
| `Weights.ProfilesEmphasis` | optimizer.py:261-268 | balanced weighs pay variance most, preference the preferred clinics most, affinity the affinity weights most |
| `Optimizer.Solve` | optimizer.py:46-328 | `solve_schedule` returns exactly `Schedule`: nothing without slots or without an `Optimal` status, otherwise the extracted assignments with their statistics |
| `Optimizer.NoSlotsNoSchedule` | optimizer.py:84-86 | with no slot there is no schedule, whatever the solver would say |
| `Optimizer.ScheduleIffOptimal` | optimizer.py:287-288 | with slots, there is a schedule exactly when the status is `Optimal` |
| `Optimizer.ScheduleValid` | optimizer.py:133-176 | with a sound solver and distinct doctors, every schedule returned is valid for the model built from the input |
| `Optimizer.ScheduleStats` | optimizer.py:301-306 | a schedule's earnings and counts have an entry for each doctor and no one else; each doctor's earnings are the fees of their assignments' clinics and their count is the number of their assignments; the counts sum to the number of assignments and the earnings to the fees of all assignments |
| `Optimizer.SoleDoctorNgNoSchedule` | optimizer.py:155-159 | a lone doctor who cannot work on some slot's date gets no schedule from a sound solver |
| `Optimizer.GeneratePlans` | optimizer.py:331-352 | the loop returns exactly the plans of the successful runs, in profile order |
| `Optimizer.SuccessIndicesExact` | optimizer.py:348-351 | the positions of successful runs are strictly increasing and are exactly the runs that produced a schedule |
| `Optimizer.PlansOfAt` | optimizer.py:348-351 | plan k is the outcome of the k-th successful run, tagged with that profile's label and mode |
| `Optimizer.PlansShape` | optimizer.py:331-352 | at most three plans, in the order balanced, preference, affinity, one for each profile whose run produced a schedule, each with its label and mode |
| `TextOrder.LexIrreflexive` | pages/admin_generate.py:23 | no label is smaller than itself |
| `TextOrder.LexTransitive` | pages/admin_generate.py:23 | string order is transitive |
| `TextOrder.LexTotal` | pages/admin_generate.py:28 | two different strings are ordered one way or the other |
| `TextOrder.LexAppend` | pages/admin_generate.py:23 | for first parts of equal length, the first parts decide and only equal ones defer to the rests |
| `TextOrder.FormatIsFixed` | pages/admin_generate.py:17 | a number with at most k digits is formatted to exactly its last k digits with leading zeros |
| `TextOrder.FixedOrder` | pages/admin_generate.py:17 | zero-padded numbers of one width compare as strings exactly as the numbers compare |
| `TextOrder.MonthLabelOrder` | pages/admin_generate.py:17-23 | for years 0..9999 and months 0..99, labels compare as months do in time, and equal labels mean equal months |
| `TextOrder.AscendingNoRepeats` | pages/admin_generate.py:28 | a strictly ascending month list has no repeats |
| `TextOrder.Insert` | pages/admin_generate.py:28 | inserting a new label into an ascending list keeps it ascending and adds just that label |
| `TextOrder.SortStrings` | pages/admin_generate.py:28 | `sorted` returns the set's labels strictly ascending, each once |
| `History.AddFeesExact` | pages/admin_generate.py:25-27 | one schedule's assignments give a doctor an entry exactly when they hold one, and add the fees of their clinics to the total |
| `History.PriorEarningsExact` | pages/admin_generate.py:19-27 | a doctor has an entry exactly when they hold an assignment in a schedule before the target; otherwise they are absent, not 0; the entry is the sum of their fees over those schedules |
| `History.MonthsUsedExact` | pages/admin_generate.py:21-24 | the month set holds exactly the labels of schedules before the target |
| `History.MonthsUsedBefore` | pages/admin_generate.py:23-24 | every recorded month label is smaller than the target label |
| `History.BeforeIsEarlier` | pages/admin_generate.py:17-23 | for a schedule labelled `YYYY-MM`, "before the target" means an earlier year, or the same year and an earlier month |
| `History.AddScheduleFees` | pages/admin_generate.py:25-27 | the inner loop adds exactly that schedule's fees |
| `History.CalcPreviousEarnings` | pages/admin_generate.py:15-28 | returns the accumulated earnings and the contributing months, strictly ascending, each once |

## Left out

- **The objective and its optimality.** The source builds the objective at
  optimizer.py:178-281. The model does not include it: the six terms, the L1 slack
  variables (`dev_plus`/`dev_minus`, `cnt_dp`/`cnt_dm`), the average, or the use of
  previous earnings in it. The solver is only required to return values that meet the
  constraints, so nothing is proved about optimality. `Problem` carries the weights,
  tables and previous earnings the solver receives.
- **The CBC solver itself.** The solver, its 30-second limit and its binary variable
  type are not modelled. The solver is a parameter, and its values are read through
  the `> 0.5` test of optimizer.py:294.
- **Rounded values.** The constraint families are stated over those rounded values,
  not over the raw floating-point values.
- **`total_variance`.** The `np.std` computation at optimizer.py:309 is floating-point
  library code. `Outcome` has no such field.
- **The holiday table.** `jpholiday` is the parameter `isHoliday`.
- **Decoding of stored records.** `preferred_doctors` and the preference lists arrive
  as typed sets, so the JSON decoding at optimizer.py:100-102 is not modelled. So are
  the `.get` defaults for a missing `frequency` (`"weekly"`) or `fee` (0) on a clinic
  record.
- **Doctor records.** These are reduced to their ids (`doc_ids`, optimizer.py:64).
- **Floating point.** Affinity weights and the satisfaction score are exact reals, so
  rounding in the float sum is not modelled.
- `Optimizer.Solve`: requires, whenever a slot exists, at least one doctor and
  distinct doctor ids. The source fails in both cases instead of returning. With no
  doctors, the average at optimizer.py:196 divides by zero. `solve_schedule`'s caller
  `generate_multiple_plans` (optimizer.py:342-347) does not check for this; the guard
  is two call levels up, in pages/admin_generate.py:40, which stops before generating
  plans when no doctor is registered. With a repeated id, the loop at
  optimizer.py:145-152 adds the constraint `one_per_day_{doc_id}_{ds}` twice under
  one name, and the LP library raises on the repeated name before any solve. New doctor
  ids are allocated as the largest id so far plus one (database.py:53-59), so ids
  stored by the application are distinct.
  `Optimizer.GeneratePlans` has the same requirement.
- `Optimizer.ScheduleValid`: assumes distinct doctor ids, for the same reason.
- `Optimizer.ScheduleStats`: also assumes distinct doctor ids.
- `LpModel.ExtractionSound`, `LpModel.ExtractionComplete` and
  `LpModel.ExtractedDutiesOfDoctor`: also assume distinct doctor ids. With a repeated
  id, one variable would be counted once per occurrence in the list.
- **The rest of the application.** Storage and sheets I/O (`database.py`), the
  Streamlit pages, the schedule table component and the seed-data loader are not part
  of this model. So is the fetch of confirmed schedules; those schedules are an input
  of `History.CalcPreviousEarnings`.
