/**
 * The statistics `solve_schedule` reports with a schedule: each doctor's earnings and
 * duty count, and the satisfaction score.
 */
module Stats {
  import opened Common
  import opened Entities

  /** `fee_map.get(clinic_id, 0)`. */
  function FeeOf(fee: map<ClinicId, int>, c: ClinicId): int {
    if c in fee then fee[c] else 0
  }

  /** What a per-doctor total adds up for each assignment: the clinic's fee, or one duty. */
  datatype Measure = Pay(fee: map<ClinicId, int>) | Duties

  function Amount(m: Measure, x: Assignment): int {
    match m
    case Pay(fee) => FeeOf(fee, x.clinic)
    case Duties => 1
  }

  /** Doctor `d`'s total over the assignment list under measure `m`. */
  function Tally(a: seq<Assignment>, d: DoctorId, m: Measure): int
    decreases |a|
  {
    if a == [] then 0
    else Tally(a[..|a| - 1], d, m) + (if a[|a| - 1].doctor == d then Amount(m, a[|a| - 1]) else 0)
  }

  /** The measure summed over every assignment, whoever holds it. */
  function Total(a: seq<Assignment>, m: Measure): int
    decreases |a|
  {
    if a == [] then 0 else Total(a[..|a| - 1], m) + Amount(m, a[|a| - 1])
  }

  /** The per-doctor totals summed over a list of doctors. */
  function SumTallies(doctors: seq<DoctorId>, a: seq<Assignment>, m: Measure): int
    decreases |doctors|
  {
    if doctors == [] then 0
    else SumTallies(doctors[..|doctors| - 1], a, m) + Tally(a, doctors[|doctors| - 1], m)
  }

  /** A doctor's duty count is the number of their assignments; a doctor with none
      earns 0 and has count 0. */
  lemma {:induction false} TallyOfAbsent(a: seq<Assignment>, d: DoctorId, m: Measure)
    requires forall i :: 0 <= i < |a| ==> a[i].doctor != d
    decreases |a|
    ensures Tally(a, d, m) == 0
  {
    if a != [] {
      TallyOfAbsent(a[..|a| - 1], d, m);
    }
  }

  /** Counts are never negative, and earnings are not either when no fee is. */
  lemma {:induction false} TallyNonNegative(a: seq<Assignment>, d: DoctorId, m: Measure)
    requires m.Pay? ==> forall c :: c in m.fee ==> m.fee[c] >= 0
    decreases |a|
    ensures Tally(a, d, m) >= 0
  {
    if a != [] {
      TallyNonNegative(a[..|a| - 1], d, m);
    }
  }

  lemma {:induction false} SumTalliesAppendOne(doctors: seq<DoctorId>, a: seq<Assignment>, x: Assignment, m: Measure)
    requires NoDup(doctors)
    decreases |doctors|
    ensures SumTallies(doctors, a + [x], m) == SumTallies(doctors, a, m) + (if x.doctor in doctors then Amount(m, x) else 0)
  {
    if doctors != [] {
      var init, e := doctors[..|doctors| - 1], doctors[|doctors| - 1];
      assert NoDup(init) by {
        forall i, j | 0 <= i < j < |init| ensures init[i] != init[j] {
          assert init[i] == doctors[i] && init[j] == doctors[j];
        }
      }
      SumTalliesAppendOne(init, a, x, m);
      assert (a + [x])[..|a + [x]| - 1] == a;
      if x.doctor == e {
        assert e !in init by {
          forall i | 0 <= i < |init| ensures init[i] != e {
            assert doctors[i] != doctors[|doctors| - 1];
          }
        }
      }
      assert doctors == init + [e];
    }
  }

  /**
   * Nothing is lost or counted twice: over distinct doctors who between them hold every
   * assignment, the earnings add up to the fees of all assignments and the counts add
   * up to the number of assignments.
   */
  lemma {:induction false} TalliesSumToTotal(doctors: seq<DoctorId>, a: seq<Assignment>, m: Measure)
    requires NoDup(doctors)
    requires forall i :: 0 <= i < |a| ==> a[i].doctor in doctors
    decreases |a|
    ensures SumTallies(doctors, a, m) == Total(a, m)
    ensures m == Duties ==> SumTallies(doctors, a, m) == |a|
  {
    if a == [] {
      SumTalliesOfEmpty(doctors, m);
    } else {
      var init, x := a[..|a| - 1], a[|a| - 1];
      TalliesSumToTotal(doctors, init, m);
      SumTalliesAppendOne(doctors, init, x, m);
      assert init + [x] == a;
    }
  }

  lemma {:induction false} SumTalliesOfEmpty(doctors: seq<DoctorId>, m: Measure)
    decreases |doctors|
    ensures SumTallies(doctors, [], m) == 0
  {
    if doctors != [] {
      SumTalliesOfEmpty(doctors[..|doctors| - 1], m);
    }
  }

  /**
   * The statistics loop: every doctor starts at 0 earnings and 0 duties, and each
   * assignment adds its clinic's fee (0 for a clinic without one) and one duty to its
   * doctor. Every assignment's doctor must be one of `doctors`, as the dictionary
   * lookup demands.
   */
  method ComputeStats(doctors: seq<DoctorId>, assignments: seq<Assignment>, fee: map<ClinicId, int>)
    returns (earnings: map<DoctorId, int>, counts: map<DoctorId, int>)
    requires forall i :: 0 <= i < |assignments| ==> assignments[i].doctor in doctors
    ensures earnings == map d | d in doctors :: Tally(assignments, d, Pay(fee))
    ensures counts == map d | d in doctors :: Tally(assignments, d, Duties)
  {
    earnings := map d | d in doctors :: 0;
    counts := map d | d in doctors :: 0;
    for i := 0 to |assignments|
      invariant forall d :: d in earnings <==> d in doctors
      invariant forall d :: d in counts <==> d in doctors
      invariant forall d :: d in earnings ==> earnings[d] == Tally(assignments[..i], d, Pay(fee))
      invariant forall d :: d in counts ==> counts[d] == Tally(assignments[..i], d, Duties)
    {
      assert assignments[..i + 1][..i] == assignments[..i];
      var x := assignments[i];
      earnings := earnings[x.doctor := earnings[x.doctor] + FeeOf(fee, x.clinic)];
      counts := counts[x.doctor := counts[x.doctor] + 1];
    }
    assert assignments[..|assignments|] == assignments;
    var want := map d | d in doctors :: Tally(assignments, d, Pay(fee));
    assert forall d :: d in earnings.Keys <==> d in want.Keys;
    assert forall d :: d in want ==> earnings[d] == want[d];
  }

  // ---- satisfaction ----

  /** `pref_clinics_map.get(doctor, set())`. */
  function PreferredOf(prefs: map<DoctorId, set<ClinicId>>, d: DoctorId): set<ClinicId> {
    if d in prefs then prefs[d] else {}
  }

  /** `clinic_preferred.get(clinic, set())`. */
  function NominatedBy(nominated: map<ClinicId, set<DoctorId>>, c: ClinicId): set<DoctorId> {
    if c in nominated then nominated[c] else {}
  }

  /** `priority_map.get((doctor, clinic), 0)`. */
  function WeightOf(priority: map<(DoctorId, ClinicId), real>, d: DoctorId, c: ClinicId): real {
    if (d, c) in priority then priority[(d, c)] else 0.0
  }

  /** One assignment's share of the score: +1 for a clinic the doctor prefers, +1 for a
      doctor the clinic nominates, plus the affinity weight. */
  function Score(prefs: map<DoctorId, set<ClinicId>>, nominated: map<ClinicId, set<DoctorId>>,
                 priority: map<(DoctorId, ClinicId), real>, x: Assignment): real
  {
    (if x.clinic in PreferredOf(prefs, x.doctor) then 1.0 else 0.0)
    + (if x.doctor in NominatedBy(nominated, x.clinic) then 1.0 else 0.0)
    + WeightOf(priority, x.doctor, x.clinic)
  }

  /** The satisfaction score of an assignment list: the sum of its assignments' shares. */
  function Satisfaction(prefs: map<DoctorId, set<ClinicId>>, nominated: map<ClinicId, set<DoctorId>>,
                        priority: map<(DoctorId, ClinicId), real>, a: seq<Assignment>): real
    decreases |a|
  {
    if a == [] then 0.0
    else Satisfaction(prefs, nominated, priority, a[..|a| - 1]) + Score(prefs, nominated, priority, a[|a| - 1])
  }

  /** The score adds up over any split of the list. */
  lemma {:induction false} SatisfactionAppend(prefs: map<DoctorId, set<ClinicId>>, nominated: map<ClinicId, set<DoctorId>>,
                                              priority: map<(DoctorId, ClinicId), real>, a: seq<Assignment>, b: seq<Assignment>)
    decreases |b|
    ensures Satisfaction(prefs, nominated, priority, a + b)
         == Satisfaction(prefs, nominated, priority, a) + Satisfaction(prefs, nominated, priority, b)
  {
    if b == [] {
      assert a + b == a;
    } else {
      SatisfactionAppend(prefs, nominated, priority, a, b[..|b| - 1]);
      assert (a + b)[..|a + b| - 1] == a + b[..|b| - 1];
    }
  }

  /** Affinity weights are the three canonical levels. */
  predicate CanonicalWeights(priority: map<(DoctorId, ClinicId), real>) {
    forall k :: k in priority ==> priority[k] in {PriorityNever, PriorityPossible, PriorityMust}
  }

  /** With canonical weights every assignment scores between 0 and 4, so the score lies
      between 0 and 4 per assignment. */
  lemma {:induction false} SatisfactionBounds(prefs: map<DoctorId, set<ClinicId>>, nominated: map<ClinicId, set<DoctorId>>,
                                              priority: map<(DoctorId, ClinicId), real>, a: seq<Assignment>)
    requires CanonicalWeights(priority)
    decreases |a|
    ensures 0.0 <= Satisfaction(prefs, nominated, priority, a) <= 4.0 * |a| as real
  {
    if a != [] {
      var x := a[|a| - 1];
      SatisfactionBounds(prefs, nominated, priority, a[..|a| - 1]);
      assert 0.0 <= WeightOf(priority, x.doctor, x.clinic) <= 2.0;
    }
  }

  /** The satisfaction loop: `sat` starts at 0 and each assignment adds its share. */
  method ComputeSatisfaction(prefs: map<DoctorId, set<ClinicId>>, nominated: map<ClinicId, set<DoctorId>>,
                             priority: map<(DoctorId, ClinicId), real>, assignments: seq<Assignment>)
    returns (sat: real)
    ensures sat == Satisfaction(prefs, nominated, priority, assignments)
  {
    sat := 0.0;
    for i := 0 to |assignments|
      invariant sat == Satisfaction(prefs, nominated, priority, assignments[..i])
    {
      assert assignments[..i + 1][..i] == assignments[..i];
      var x := assignments[i];
      if x.clinic in PreferredOf(prefs, x.doctor) {
        sat := sat + 1.0;
      }
      if x.doctor in NominatedBy(nominated, x.clinic) {
        sat := sat + 1.0;
      }
      sat := sat + WeightOf(priority, x.doctor, x.clinic);
    }
    assert assignments[..|assignments|] == assignments;
  }
}
