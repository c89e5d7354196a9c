/**
 * `solve_schedule` and `generate_multiple_plans`: build the slots and tables, hand the
 * model to the solver, and turn an optimal answer into a schedule with its statistics;
 * then run the three weighting profiles in a fixed order and keep every success.
 *
 * The solver (CBC through PuLP) is the parameter `cbc`. What the model relies on is its
 * one promise: when it reports `Optimal`, the values it returns satisfy every constraint
 * of the model (`SolverSound`).
 */
module Optimizer {
  import opened Common
  import opened Calendar
  import opened Entities
  import opened Indexing
  import opened Slots
  import opened Weights
  import opened LpModel
  import opened Stats

  /** The inputs of one run: doctor ids, clinics, the month's duty dates, preferences,
      affinities, earnings carried over from earlier months, and the date overrides (a
      missing argument is the empty dictionary). */
  datatype Snapshot = Snapshot(
    doctors: seq<DoctorId>,
    clinics: seq<Clinic>,
    saturdays: seq<Date>,
    preferences: seq<Preference>,
    affinities: seq<Affinity>,
    previous: map<DoctorId, int>,
    overrides: map<Slot, int>)

  /** The result record of a successful run (`total_variance` is not modelled). */
  datatype Outcome = Outcome(
    assignments: seq<Assignment>,
    earnings: map<DoctorId, int>,
    counts: map<DoctorId, int>,
    satisfaction: real,
    status: Status)

  /** The solver's promise: an `Optimal` answer satisfies every constraint of the model. */
  ghost predicate SolverSound(cbc: Problem -> Reply) {
    forall p :: cbc(p).status == Optimal ==> SatisfiesConstraints(p, cbc(p).value)
  }

  // The keys under which the input lists are indexed.
  function PreferenceKey(p: Preference): DoctorId { p.doctor }
  function AffinityKey(a: Affinity): (DoctorId, ClinicId) { (a.doctor, a.clinic) }

  /** The model built from the slots and the indexed tables: the per-doctor and
      per-clinic tables are read off the indexes, and the weights are the mode's
      effective ones for the clinics' fees. */
  function BuildProblem(doctors: seq<DoctorId>, slots: seq<Slot>, required: map<Slot, int>,
                        prefs: map<DoctorId, Preference>, clinics: map<ClinicId, Clinic>,
                        affs: map<(DoctorId, ClinicId), Affinity>, previous: map<DoctorId, int>,
                        mode: string): Problem
  {
    var fee := map c | c in clinics :: clinics[c].fee;
    Problem(
      doctors, slots, required,
      map d | d in prefs :: prefs[d].ngDates,
      map d | d in prefs :: prefs[d].avoidDates,
      map d | d in prefs :: prefs[d].preferredClinics,
      map c | c in clinics :: clinics[c].nominated,
      map k | k in affs :: affs[k].weight,
      fee, previous, EffectiveWeights(mode, fee))
  }

  /** The model `solve_schedule` builds for `inp` under `mode`: the slot builder's slots
      and counts, and the tables indexed by doctor, clinic and (doctor, clinic), a later
      entry for the same key replacing an earlier one. */
  function ProblemOf(inp: Snapshot, mode: string): Problem {
    var t := SlotTableOf(inp.clinics, inp.saturdays, inp.overrides);
    BuildProblem(inp.doctors, t.order, t.required,
      IndexBy(inp.preferences, PreferenceKey), IndexBy(inp.clinics, ClinicKey),
      IndexBy(inp.affinities, AffinityKey), inp.previous, mode)
  }

  /** The result record for the solver's values: the extracted assignments, every
      doctor's earnings and duty count, and the satisfaction score. */
  function OutcomeOf(p: Problem, value: Var -> real): Outcome {
    var a := Extracted(p.slots, p.doctors, value);
    Outcome(
      a,
      map d | d in p.doctors :: Tally(a, d, Pay(p.fee)),
      map d | d in p.doctors :: Tally(a, d, Duties),
      Satisfaction(p.preferredClinics, p.nominated, p.priority, a),
      Optimal)
  }

  /** The run's outcome: no schedule when there is no slot (the solver is not consulted)
      or when the solver's status is not `Optimal`; otherwise the outcome of its values. */
  function Schedule(inp: Snapshot, mode: string, cbc: Problem -> Reply): Option<Outcome> {
    var p := ProblemOf(inp, mode);
    if p.slots == [] then None
    else if cbc(p).status != Optimal then None
    else Some(OutcomeOf(p, cbc(p).value))
  }

  /** Once there is a slot, `solve_schedule` needs at least one doctor (the average over
      doctors divides by their number) and distinct doctor ids (a repeated id names the
      same one-per-day constraint twice, which the LP library rejects). With no slot it
      returns before either matters. */
  predicate CanSolve(inp: Snapshot) {
    SlotTableOf(inp.clinics, inp.saturdays, inp.overrides).order == []
    || (inp.doctors != [] && NoDup(inp.doctors))
  }

  /** `solve_schedule`. */
  method Solve(inp: Snapshot, mode: string, cbc: Problem -> Reply) returns (r: Option<Outcome>)
    requires CanSolve(inp)
    ensures r == Schedule(inp, mode, cbc)
  {
    var slots, required := BuildSlots(inp.clinics, inp.saturdays, inp.overrides);
    if slots == [] {
      assert ProblemOf(inp, mode).slots == [];
      return None;
    }
    var prefs := BuildIndex(inp.preferences, PreferenceKey);
    var clinics := BuildIndex(inp.clinics, ClinicKey);
    var affs := BuildIndex(inp.affinities, AffinityKey);
    var p := BuildProblem(inp.doctors, slots, required, prefs, clinics, affs, inp.previous, mode);
    assert p == ProblemOf(inp, mode);
    var reply := cbc(p);
    if reply.status != Optimal {
      return None;
    }
    var a := ExtractAssignments(p.slots, p.doctors, reply.value);
    forall i | 0 <= i < |a| ensures a[i].doctor in p.doctors {
      ExtractedMembers(p.slots, p.doctors, reply.value, a[i]);
    }
    var earnings, counts := ComputeStats(p.doctors, a, p.fee);
    var sat := ComputeSatisfaction(p.preferredClinics, p.nominated, p.priority, a);
    ghost var o := OutcomeOf(p, reply.value);
    assert o.assignments == a;
    assert o.earnings == earnings;
    assert o.counts == counts;
    assert o.satisfaction == sat;
    r := Some(Outcome(a, earnings, counts, sat, Optimal));
    assert r == Some(OutcomeOf(p, reply.value));
  }

  /** With no slot there is no schedule, whatever the solver would have said. */
  lemma NoSlotsNoSchedule(inp: Snapshot, mode: string, cbc: Problem -> Reply)
    requires SlotTableOf(inp.clinics, inp.saturdays, inp.overrides).order == []
    ensures Schedule(inp, mode, cbc) == None
  {
  }

  /** With slots, there is a schedule exactly when the solver reports `Optimal`. */
  lemma ScheduleIffOptimal(inp: Snapshot, mode: string, cbc: Problem -> Reply)
    requires SlotTableOf(inp.clinics, inp.saturdays, inp.overrides).order != []
    ensures Schedule(inp, mode, cbc).Some? <==> cbc(ProblemOf(inp, mode)).status == Optimal
  {
  }

  /** Every schedule a sound solver leads to is valid for the model it was built from:
      exact coverage, one duty per day, no NG date, no NEVER clinic, every MUST pair
      served. */
  lemma ScheduleValid(inp: Snapshot, mode: string, cbc: Problem -> Reply)
    requires SolverSound(cbc) && NoDup(inp.doctors)
    ensures Schedule(inp, mode, cbc).Some? ==> ValidSchedule(ProblemOf(inp, mode), Schedule(inp, mode, cbc).value.assignments)
  {
    var p := ProblemOf(inp, mode);
    if Schedule(inp, mode, cbc).Some? {
      SlotTableExact(inp.clinics, inp.saturdays, inp.overrides);
      ExtractionSound(p, cbc(p).value);
    }
  }

  /** A schedule's statistics: every doctor has an earnings and a count entry; a
      doctor's earnings are the fees of their clinics and their count the number of
      their assignments; with distinct doctors, the counts add up to the number of
      assignments and the earnings to the fees of all of them. */
  lemma ScheduleStats(inp: Snapshot, mode: string, cbc: Problem -> Reply)
    requires NoDup(inp.doctors)
    ensures Schedule(inp, mode, cbc).Some? ==>
      var o := Schedule(inp, mode, cbc).value;
      var fee := ProblemOf(inp, mode).fee;
      && (forall d :: d in o.earnings <==> d in inp.doctors)
      && (forall d :: d in o.counts <==> d in inp.doctors)
      && (forall d :: d in inp.doctors ==>
            o.earnings[d] == Tally(o.assignments, d, Pay(fee)) && o.counts[d] == Tally(o.assignments, d, Duties))
      && SumTallies(inp.doctors, o.assignments, Duties) == |o.assignments|
      && SumTallies(inp.doctors, o.assignments, Pay(fee)) == Total(o.assignments, Pay(fee))
  {
    var p := ProblemOf(inp, mode);
    if Schedule(inp, mode, cbc).Some? {
      var a := Schedule(inp, mode, cbc).value.assignments;
      forall i | 0 <= i < |a| ensures a[i].doctor in inp.doctors {
        ExtractedMembers(p.slots, p.doctors, cbc(p).value, a[i]);
      }
      TalliesSumToTotal(inp.doctors, a, Duties);
      TalliesSumToTotal(inp.doctors, a, Pay(p.fee));
    }
  }

  /** A lone doctor who cannot work on the date of some slot leaves a sound solver no
      optimal answer, so there is no schedule. */
  lemma SoleDoctorNgNoSchedule(inp: Snapshot, mode: string, cbc: Problem -> Reply, s: Slot)
    requires SolverSound(cbc)
    requires |inp.doctors| == 1 && s in ProblemOf(inp, mode).slots
    requires Required(ProblemOf(inp, mode), s) >= 1
    requires s.date in NgOf(ProblemOf(inp, mode), inp.doctors[0])
    ensures Schedule(inp, mode, cbc) == None
  {
    var p := ProblemOf(inp, mode);
    SoleDoctorNgInfeasible(p, cbc(p).value, s);
  }

  // ---- plan generation ----

  /** A plan: a run's outcome tagged with its label and mode. */
  datatype Plan = Plan(outcome: Outcome, name: string, mode: string)

  /** The profiles, in the order they are tried, with their labels. */
  const Modes: seq<(string, string)> := [
    ("balanced", "案A: 給与均等重視"),
    ("preference", "案B: 希望重視"),
    ("affinity", "案C: 優先度重視")
  ]

  /** Each profile's run, in the order of `modes`. */
  function Runs(inp: Snapshot, cbc: Problem -> Reply, modes: seq<(string, string)>): (r: seq<Option<Outcome>>)
    ensures |r| == |modes|
    ensures forall j :: 0 <= j < |modes| ==> r[j] == Schedule(inp, modes[j].0, cbc)
  {
    seq(|modes|, j requires 0 <= j < |modes| => Schedule(inp, modes[j].0, cbc))
  }

  /** The plans kept from runs `outcomes` of the profiles `modes`: the successful runs,
      in order, each tagged with its profile's label and mode. */
  function PlansOf(modes: seq<(string, string)>, outcomes: seq<Option<Outcome>>): seq<Plan>
    requires |modes| == |outcomes|
    decreases |modes|
  {
    if modes == [] then []
    else
      var m, o := modes[|modes| - 1], outcomes[|modes| - 1];
      PlansOf(modes[..|modes| - 1], outcomes[..|modes| - 1]) + (if o.Some? then [Plan(o.value, m.1, m.0)] else [])
  }

  /** `generate_multiple_plans`. */
  method GeneratePlans(inp: Snapshot, cbc: Problem -> Reply) returns (plans: seq<Plan>)
    requires CanSolve(inp)
    ensures plans == PlansOf(Modes, Runs(inp, cbc, Modes))
  {
    ghost var runs := Runs(inp, cbc, Modes);
    plans := [];
    for i := 0 to |Modes|
      invariant plans == PlansOf(Modes[..i], runs[..i])
    {
      var mode, name := Modes[i].0, Modes[i].1;
      var result := Solve(inp, mode, cbc);
      assert result == runs[i];
      PlansOfStep(Modes, runs, i);
      if result.Some? {
        plans := plans + [Plan(result.value, name, mode)];
      }
    }
    assert Modes[..|Modes|] == Modes;
    assert runs[..|runs|] == runs;
  }

  /** One more profile's run adds its plan when it succeeded. */
  lemma PlansOfStep(modes: seq<(string, string)>, outcomes: seq<Option<Outcome>>, i: int)
    requires |modes| == |outcomes| && 0 <= i < |modes|
    ensures PlansOf(modes[..i + 1], outcomes[..i + 1])
      == PlansOf(modes[..i], outcomes[..i]) + (if outcomes[i].Some? then [Plan(outcomes[i].value, modes[i].1, modes[i].0)] else [])
  {
    assert modes[..i + 1][..i] == modes[..i];
    assert outcomes[..i + 1][..i] == outcomes[..i];
  }

  /** The positions of the successful runs. */
  function SuccessIndices(outcomes: seq<Option<Outcome>>): seq<int>
    decreases |outcomes|
  {
    if outcomes == [] then []
    else
      SuccessIndices(outcomes[..|outcomes| - 1]) + (if outcomes[|outcomes| - 1].Some? then [|outcomes| - 1] else [])
  }

  /** The successful positions are strictly increasing and are exactly the runs that
      produced a schedule. */
  lemma {:induction false} SuccessIndicesExact(outcomes: seq<Option<Outcome>>)
    decreases |outcomes|
    ensures var idx := SuccessIndices(outcomes);
      && |idx| <= |outcomes|
      && (forall k :: 0 <= k < |idx| ==> 0 <= idx[k] < |outcomes|)
      && (forall k, l :: 0 <= k < l < |idx| ==> idx[k] < idx[l])
      && (forall j :: 0 <= j < |outcomes| ==> (j in idx <==> outcomes[j].Some?))
  {
    if outcomes != [] {
      var init := outcomes[..|outcomes| - 1];
      SuccessIndicesExact(init);
      forall j | 0 <= j < |init| ensures outcomes[j] == init[j] { }
    }
  }

  /** Plan k comes from the k-th successful run: it carries that run's outcome and its
      profile's label and mode. */
  lemma {:induction false} PlansOfAt(modes: seq<(string, string)>, outcomes: seq<Option<Outcome>>)
    requires |modes| == |outcomes|
    decreases |modes|
    ensures var idx, plans := SuccessIndices(outcomes), PlansOf(modes, outcomes);
      && |plans| == |idx|
      && forall k :: 0 <= k < |plans| ==>
           (&& 0 <= idx[k] < |modes| && outcomes[idx[k]].Some?
            && plans[k] == Plan(outcomes[idx[k]].value, modes[idx[k]].1, modes[idx[k]].0))
  {
    if modes != [] {
      var init, oinit := modes[..|modes| - 1], outcomes[..|modes| - 1];
      PlansOfAt(init, oinit);
      SuccessIndicesExact(oinit);
      forall j | 0 <= j < |init| ensures modes[j] == init[j] && outcomes[j] == oinit[j] { }
    }
  }

  /** What `generate_multiple_plans` returns: at most three plans, one per profile whose
      run produced a schedule, in the order balanced, preference, affinity, each tagged
      with its profile's label and mode. */
  lemma PlansShape(inp: Snapshot, cbc: Problem -> Reply)
    ensures |PlansOf(Modes, Runs(inp, cbc, Modes))| <= 3
    ensures var runs := Runs(inp, cbc, Modes);
      var idx, plans := SuccessIndices(runs), PlansOf(Modes, runs);
      && |plans| == |idx|
      && (forall k, l :: 0 <= k < l < |idx| ==> idx[k] < idx[l])
      && (forall j :: 0 <= j < |Modes| ==> (j in idx <==> Schedule(inp, Modes[j].0, cbc).Some?))
      && (forall k :: 0 <= k < |plans| ==>
            (&& 0 <= idx[k] < 3 && Schedule(inp, Modes[idx[k]].0, cbc).Some?
             && plans[k] == Plan(Schedule(inp, Modes[idx[k]].0, cbc).value, Modes[idx[k]].1, Modes[idx[k]].0)))
  {
    var runs := Runs(inp, cbc, Modes);
    SuccessIndicesExact(runs);
    PlansOfAt(Modes, runs);
  }
}
