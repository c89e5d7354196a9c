/**
 * `_calc_previous_earnings`: the earnings each doctor has accumulated in confirmed
 * schedules of months before the target month, and the sorted list of those months.
 * The confirmed schedules, which the application reads from storage, are a parameter.
 */
module History {
  import opened Entities
  import opened Indexing
  import opened Stats
  import opened TextOrder

  /** A confirmed schedule: its month label (`year_month`) and its assignments. */
  datatype ConfirmedSchedule = ConfirmedSchedule(yearMonth: string, assignments: seq<Assignment>)

  /** `{c["id"]: c["fee"] for c in clinics}`: a later clinic with the same id wins. */
  function FeeTable(clinics: seq<Clinic>): map<ClinicId, int> {
    var idx := IndexBy(clinics, ClinicKey);
    map c | c in idx :: idx[c].fee
  }

  /** The schedule counts: its label is smaller than the target label as strings. */
  predicate Before(s: ConfirmedSchedule, target: string) {
    LexLess(s.yearMonth, target)
  }

  /** `earnings.get(doctor, 0)`. */
  function Get(m: map<DoctorId, int>, d: DoctorId): int {
    if d in m then m[d] else 0
  }

  /** The inner loop: add each assignment's fee to its doctor's running total. */
  function AddFees(m: map<DoctorId, int>, a: seq<Assignment>, fee: map<ClinicId, int>): map<DoctorId, int>
    decreases |a|
  {
    if a == [] then m
    else
      var prev, x := AddFees(m, a[..|a| - 1], fee), a[|a| - 1];
      prev[x.doctor := Get(prev, x.doctor) + FeeOf(fee, x.clinic)]
  }

  /** The outer loop's earnings: the fees of the schedules before the target, in order. */
  function PriorEarnings(confirmed: seq<ConfirmedSchedule>, target: string, fee: map<ClinicId, int>): map<DoctorId, int>
    decreases |confirmed|
  {
    if confirmed == [] then map[]
    else
      var prev, s := PriorEarnings(confirmed[..|confirmed| - 1], target, fee), confirmed[|confirmed| - 1];
      if Before(s, target) then AddFees(prev, s.assignments, fee) else prev
  }

  /** The outer loop's month set. */
  function MonthsUsed(confirmed: seq<ConfirmedSchedule>, target: string): set<string>
    decreases |confirmed|
  {
    if confirmed == [] then {}
    else
      var prev, s := MonthsUsed(confirmed[..|confirmed| - 1], target), confirmed[|confirmed| - 1];
      if Before(s, target) then prev + {s.yearMonth} else prev
  }

  /** Reference sum: doctor `d`'s fees, schedule by schedule, over the schedules before
      the target. */
  function PriorTally(confirmed: seq<ConfirmedSchedule>, target: string, d: DoctorId, fee: map<ClinicId, int>): int
    decreases |confirmed|
  {
    if confirmed == [] then 0
    else
      var s := confirmed[|confirmed| - 1];
      PriorTally(confirmed[..|confirmed| - 1], target, d, fee) + (if Before(s, target) then Tally(s.assignments, d, Pay(fee)) else 0)
  }

  /** Doctor `d` holds an assignment in some schedule before the target. */
  ghost predicate AppearsBefore(confirmed: seq<ConfirmedSchedule>, target: string, d: DoctorId) {
    exists i, j :: 0 <= i < |confirmed| && Before(confirmed[i], target)
      && 0 <= j < |confirmed[i].assignments| && confirmed[i].assignments[j].doctor == d
  }

  /** Adding one schedule's fees: a doctor gets an entry exactly when they had one or
      hold one of the assignments, and their total grows by the fees of their
      assignments. */
  lemma {:induction false} AddFeesExact(m: map<DoctorId, int>, a: seq<Assignment>, fee: map<ClinicId, int>, d: DoctorId)
    decreases |a|
    ensures d in AddFees(m, a, fee) <==> d in m || exists j :: 0 <= j < |a| && a[j].doctor == d
    ensures Get(AddFees(m, a, fee), d) == Get(m, d) + Tally(a, d, Pay(fee))
  {
    if a != [] {
      var init := a[..|a| - 1];
      AddFeesExact(m, init, fee, d);
      if exists j :: 0 <= j < |init| && init[j].doctor == d {
        var j :| 0 <= j < |init| && init[j].doctor == d;
        assert a[j] == init[j];
      }
      if exists j :: 0 <= j < |a| && a[j].doctor == d {
        var j :| 0 <= j < |a| && a[j].doctor == d;
        if j < |init| { assert init[j] == a[j]; }
      }
    }
  }

  /** The accumulated earnings: a doctor has an entry exactly when they appear in a
      schedule before the target (no entry, rather than 0, otherwise), and it is the sum
      of their fees over those schedules. */
  lemma {:induction false} PriorEarningsExact(confirmed: seq<ConfirmedSchedule>, target: string, fee: map<ClinicId, int>, d: DoctorId)
    decreases |confirmed|
    ensures d in PriorEarnings(confirmed, target, fee) <==> AppearsBefore(confirmed, target, d)
    ensures Get(PriorEarnings(confirmed, target, fee), d) == PriorTally(confirmed, target, d, fee)
  {
    if confirmed != [] {
      var init, s := confirmed[..|confirmed| - 1], confirmed[|confirmed| - 1];
      PriorEarningsExact(init, target, fee, d);
      if Before(s, target) {
        AddFeesExact(PriorEarnings(init, target, fee), s.assignments, fee, d);
      }
      if AppearsBefore(init, target, d) {
        var i, j :| 0 <= i < |init| && Before(init[i], target)
          && 0 <= j < |init[i].assignments| && init[i].assignments[j].doctor == d;
        assert confirmed[i] == init[i];
      }
      if AppearsBefore(confirmed, target, d) {
        var i, j :| 0 <= i < |confirmed| && Before(confirmed[i], target)
          && 0 <= j < |confirmed[i].assignments| && confirmed[i].assignments[j].doctor == d;
        if i < |init| { assert init[i] == confirmed[i]; }
      }
    }
  }

  /** The month set holds exactly the labels of the schedules before the target. */
  lemma {:induction false} MonthsUsedExact(confirmed: seq<ConfirmedSchedule>, target: string, ym: string)
    decreases |confirmed|
    ensures ym in MonthsUsed(confirmed, target) <==>
      exists i :: 0 <= i < |confirmed| && Before(confirmed[i], target) && confirmed[i].yearMonth == ym
  {
    if confirmed != [] {
      var init := confirmed[..|confirmed| - 1];
      MonthsUsedExact(init, target, ym);
      if exists i :: 0 <= i < |init| && Before(init[i], target) && init[i].yearMonth == ym {
        var i :| 0 <= i < |init| && Before(init[i], target) && init[i].yearMonth == ym;
        assert confirmed[i] == init[i];
      }
      if exists i :: 0 <= i < |confirmed| && Before(confirmed[i], target) && confirmed[i].yearMonth == ym {
        var i :| 0 <= i < |confirmed| && Before(confirmed[i], target) && confirmed[i].yearMonth == ym;
        if i < |init| { assert init[i] == confirmed[i]; }
      }
    }
  }

  /** The month set holds labels smaller than the target only, so the target month itself
      and later ones never count. */
  lemma {:induction false} MonthsUsedBefore(confirmed: seq<ConfirmedSchedule>, target: string, ym: string)
    requires ym in MonthsUsed(confirmed, target)
    ensures LexLess(ym, target)
  {
    MonthsUsedExact(confirmed, target, ym);
  }

  /**
   * For a schedule labelled in the application's own `YYYY-MM` form, "before the target"
   * means what it says: an earlier year, or the same year and an earlier month.
   */
  lemma BeforeIsEarlier(s: ConfirmedSchedule, y: int, m: int, year: int, month: int)
    requires 0 <= y < 10000 && 1 <= m <= 12 && 0 <= year < 10000 && 1 <= month <= 12
    requires s.yearMonth == MonthLabel(y, m)
    ensures Before(s, MonthLabel(year, month)) <==> y < year || (y == year && m < month)
  {
    MonthLabelOrder(y, m, year, month);
  }

  /** The inner loop over one schedule's assignments. */
  method AddScheduleFees(m: map<DoctorId, int>, a: seq<Assignment>, fee: map<ClinicId, int>)
    returns (earnings: map<DoctorId, int>)
    ensures earnings == AddFees(m, a, fee)
  {
    earnings := m;
    for j := 0 to |a|
      invariant earnings == AddFees(m, a[..j], fee)
    {
      assert a[..j + 1][..j] == a[..j];
      var x := a[j];
      earnings := earnings[x.doctor := (if x.doctor in earnings then earnings[x.doctor] else 0) + FeeOf(fee, x.clinic)];
    }
    assert a[..|a|] == a;
  }

  /**
   * `_calc_previous_earnings`: for each confirmed schedule whose label is smaller than
   * `f"{year:04d}-{month:02d}"`, record its month and add each assignment's fee (0 for
   * an unknown clinic) to its doctor; return the totals and the months in ascending
   * order.
   */
  method CalcPreviousEarnings(clinics: seq<Clinic>, confirmed: seq<ConfirmedSchedule>, year: int, month: int)
    returns (earnings: map<DoctorId, int>, months: seq<string>)
    ensures earnings == PriorEarnings(confirmed, MonthLabel(year, month), FeeTable(clinics))
    ensures StrictlyAscending(months)
    ensures forall ym :: ym in months <==> ym in MonthsUsed(confirmed, MonthLabel(year, month))
  {
    var target := MonthLabel(year, month);
    var idx := BuildIndex(clinics, ClinicKey);
    var fee := map c | c in idx :: idx[c].fee;
    assert fee == FeeTable(clinics);
    earnings := map[];
    var used: set<string> := {};
    for i := 0 to |confirmed|
      invariant earnings == PriorEarnings(confirmed[..i], target, fee)
      invariant used == MonthsUsed(confirmed[..i], target)
    {
      assert confirmed[..i + 1][..i] == confirmed[..i];
      var sched := confirmed[i];
      if LexLess(sched.yearMonth, target) {
        used := used + {sched.yearMonth};
        earnings := AddScheduleFees(earnings, sched.assignments, fee);
      }
    }
    assert confirmed[..|confirmed|] == confirmed;
    months := SortStrings(used);
  }
}
