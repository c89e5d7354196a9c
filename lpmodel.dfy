/**
 * The hard-constraint layer of `solve_schedule`: the binary variables x[doctor, clinic,
 * date], the five constraint families as the model states them, the extraction of the
 * assignment list from the solver's values, and the validity of an assignment list
 * stated directly over assignments. The two views are proved equivalent.
 */
module LpModel {
  import opened Common
  import opened Calendar
  import opened Entities
  import opened Weights

  /** The decision variable x[doc_id, clinic_id, date]. */
  datatype Var = Var(doctor: DoctorId, clinic: ClinicId, date: Date)

  /** The solver's status labels (`pulp.LpStatus`). */
  datatype Status = Optimal | NotSolved | Infeasible | Unbounded | Undefined

  /** Everything the model is built from: the doctors (`doc_ids`), the slots in key
      order with their required counts, the preference, nomination, affinity and fee
      tables, the previous earnings and the objective's coefficients. */
  datatype Problem = Problem(
    doctors: seq<DoctorId>,
    slots: seq<Slot>,
    required: map<Slot, int>,
    ngDates: map<DoctorId, set<Date>>,
    avoidDates: map<DoctorId, set<Date>>,
    preferredClinics: map<DoctorId, set<ClinicId>>,
    nominated: map<ClinicId, set<DoctorId>>,
    priority: map<(DoctorId, ClinicId), real>,
    fee: map<ClinicId, int>,
    previous: map<DoctorId, int>,
    weights: Weights)

  /** What the solver hands back: its status and the value of every variable. */
  datatype Reply = Reply(status: Status, value: Var -> real)

  /** `slot_required.get((cid, ds), 1)`. */
  function Required(p: Problem, s: Slot): int {
    if s in p.required then p.required[s] else 1
  }

  /** `ng_map.get(doc_id, set())`. */
  function NgOf(p: Problem, d: DoctorId): set<Date> {
    if d in p.ngDates then p.ngDates[d] else {}
  }

  /** The pair is in `must_pairs`: its affinity weight is exactly 2.0. */
  predicate IsMust(p: Problem, d: DoctorId, c: ClinicId) {
    (d, c) in p.priority && p.priority[(d, c)] == PriorityMust
  }

  /** The pair is in `never_pairs`: its affinity weight is exactly 0.0. */
  predicate IsNever(p: Problem, d: DoctorId, c: ClinicId) {
    (d, c) in p.priority && p.priority[(d, c)] == PriorityNever
  }

  /** Some slot belongs to clinic `c` (`clinic_slots` is non-empty). */
  predicate HasSlotAt(slots: seq<Slot>, c: ClinicId) {
    exists s :: s in slots && s.clinic == c
  }

  /** The variable for doctor `d` on slot `s` is set (`pulp.value(x) > 0.5`). */
  predicate Picked(v: Var -> real, d: DoctorId, s: Slot) {
    v(Var(d, s.clinic, s.date)) > 0.5
  }

  /** A restriction on slots used by the per-doctor sums: one date, or one clinic. */
  datatype SlotFilter = OnDate(date: Date) | AtClinic(clinic: ClinicId)

  predicate InFilter(s: Slot, f: SlotFilter) {
    match f
    case OnDate(dt) => s.date == dt
    case AtClinic(c) => s.clinic == c
  }

  /** `lpSum(x[d, c, ds] for d in doc_ids)`, with every variable read as 0 or 1. */
  function DoctorsOnSlot(doctors: seq<DoctorId>, v: Var -> real, s: Slot): nat
    decreases |doctors|
  {
    if doctors == [] then 0
    else DoctorsOnSlot(doctors[..|doctors| - 1], v, s) + (if Picked(v, doctors[|doctors| - 1], s) then 1 else 0)
  }

  /** `lpSum(x[d, c, ds] for (c, ds) in slots if ...)` for one doctor, over the slots the
      filter keeps. */
  function SlotsOfDoctor(slots: seq<Slot>, v: Var -> real, d: DoctorId, f: SlotFilter): nat
    decreases |slots|
  {
    if slots == [] then 0
    else
      var s := slots[|slots| - 1];
      SlotsOfDoctor(slots[..|slots| - 1], v, d, f) + (if InFilter(s, f) && Picked(v, d, s) then 1 else 0)
  }

  /** The five constraint families, as the model adds them:
      1. every slot gets exactly its required count of doctors;
      2. for every doctor and every slot date, at most one slot on that date;
      3. no variable on one of the doctor's NG dates is set;
      4. no variable at a NEVER clinic of the doctor is set;
      5. for every MUST pair whose clinic has slots, at least one of them is set. */
  ghost predicate SatisfiesConstraints(p: Problem, v: Var -> real) {
    && (forall s :: s in p.slots ==> DoctorsOnSlot(p.doctors, v, s) == Required(p, s))
    && (forall d, i :: d in p.doctors && 0 <= i < |p.slots| ==> SlotsOfDoctor(p.slots, v, d, OnDate(p.slots[i].date)) <= 1)
    && (forall d, s :: d in p.doctors && s in p.slots && s.date in NgOf(p, d) ==> !Picked(v, d, s))
    && (forall d, s :: d in p.doctors && s in p.slots && IsNever(p, d, s.clinic) ==> !Picked(v, d, s))
    && (forall d, c :: d in p.doctors && IsMust(p, d, c) && HasSlotAt(p.slots, c) ==> SlotsOfDoctor(p.slots, v, d, AtClinic(c)) >= 1)
  }

  /** The slot an assignment fills. */
  function SlotOf(a: Assignment): Slot {
    Slot(a.clinic, a.date)
  }

  /** The number of assignments filling slot `s`. */
  function DutiesAtSlot(a: seq<Assignment>, s: Slot): nat
    decreases |a|
  {
    if a == [] then 0
    else DutiesAtSlot(a[..|a| - 1], s) + (if SlotOf(a[|a| - 1]) == s then 1 else 0)
  }

  /** The number of doctor `d`'s assignments whose slot the filter keeps. */
  function DutiesOfDoctor(a: seq<Assignment>, d: DoctorId, f: SlotFilter): nat
    decreases |a|
  {
    if a == [] then 0
    else
      var x := a[|a| - 1];
      DutiesOfDoctor(a[..|a| - 1], d, f) + (if x.doctor == d && InFilter(SlotOf(x), f) then 1 else 0)
  }

  /** An acceptable schedule, stated over the assignments: each assignment puts one of
      the doctors on one of the slots, on none of that doctor's NG dates and at none of
      their NEVER clinics; every slot has exactly its required count; no doctor works
      twice on one date; and every MUST pair whose clinic has a slot is served. */
  ghost predicate ValidSchedule(p: Problem, a: seq<Assignment>) {
    && (forall i :: 0 <= i < |a| ==>
          && a[i].doctor in p.doctors && SlotOf(a[i]) in p.slots
          && a[i].date !in NgOf(p, a[i].doctor) && !IsNever(p, a[i].doctor, a[i].clinic))
    && (forall s :: s in p.slots ==> DutiesAtSlot(a, s) == Required(p, s))
    && (forall d, dt :: DutiesOfDoctor(a, d, OnDate(dt)) <= 1)
    && (forall d, c :: d in p.doctors && IsMust(p, d, c) && HasSlotAt(p.slots, c) ==> DutiesOfDoctor(a, d, AtClinic(c)) >= 1)
  }

  /** The assignments read off one slot: its doctors in `doc_ids` order. */
  function SlotRow(doctors: seq<DoctorId>, v: Var -> real, s: Slot): seq<Assignment>
    decreases |doctors|
  {
    if doctors == [] then []
    else
      var d := doctors[|doctors| - 1];
      SlotRow(doctors[..|doctors| - 1], v, s) + (if Picked(v, d, s) then [Assignment(s.date, s.clinic, d)] else [])
  }

  /** The extraction loop's result: slot by slot, each slot's row. */
  function Extracted(slots: seq<Slot>, doctors: seq<DoctorId>, v: Var -> real): seq<Assignment>
    decreases |slots|
  {
    if slots == [] then []
    else Extracted(slots[..|slots| - 1], doctors, v) + SlotRow(doctors, v, slots[|slots| - 1])
  }

  /** The extraction loop: for each slot, for each doctor, append the assignment when the
      variable is set. */
  method ExtractAssignments(slots: seq<Slot>, doctors: seq<DoctorId>, v: Var -> real)
    returns (assignments: seq<Assignment>)
    ensures assignments == Extracted(slots, doctors, v)
  {
    assignments := [];
    for i := 0 to |slots|
      invariant assignments == Extracted(slots[..i], doctors, v)
    {
      assert slots[..i + 1][..i] == slots[..i];
      ghost var before := assignments;
      var s := slots[i];
      for j := 0 to |doctors|
        invariant assignments == before + SlotRow(doctors[..j], v, s)
      {
        assert doctors[..j + 1][..j] == doctors[..j];
        if v(Var(doctors[j], s.clinic, s.date)) > 0.5 {
          assignments := assignments + [Assignment(s.date, s.clinic, doctors[j])];
        }
      }
      assert doctors[..|doctors|] == doctors;
    }
    assert slots[..|slots|] == slots;
  }

  // ---- counting over concatenations and rows ----

  lemma {:induction false} DutiesAtSlotAppend(a: seq<Assignment>, b: seq<Assignment>, s: Slot)
    decreases |b|
    ensures DutiesAtSlot(a + b, s) == DutiesAtSlot(a, s) + DutiesAtSlot(b, s)
  {
    if b != [] {
      DutiesAtSlotAppend(a, b[..|b| - 1], s);
      assert (a + b)[..|a + b| - 1] == a + b[..|b| - 1];
    } else {
      assert a + b == a;
    }
  }

  lemma {:induction false} DutiesOfDoctorAppend(a: seq<Assignment>, b: seq<Assignment>, d: DoctorId, f: SlotFilter)
    decreases |b|
    ensures DutiesOfDoctor(a + b, d, f) == DutiesOfDoctor(a, d, f) + DutiesOfDoctor(b, d, f)
  {
    if b != [] {
      DutiesOfDoctorAppend(a, b[..|b| - 1], d, f);
      assert (a + b)[..|a + b| - 1] == a + b[..|b| - 1];
    } else {
      assert a + b == a;
    }
  }

  /** A slot's row fills that slot once per picked doctor, and no other slot. */
  lemma {:induction false} RowDutiesAtSlot(doctors: seq<DoctorId>, v: Var -> real, r: Slot, s: Slot)
    decreases |doctors|
    ensures DutiesAtSlot(SlotRow(doctors, v, r), s) == if r == s then DoctorsOnSlot(doctors, v, s) else 0
  {
    if doctors != [] {
      var d := doctors[|doctors| - 1];
      RowDutiesAtSlot(doctors[..|doctors| - 1], v, r, s);
      DutiesAtSlotAppend(SlotRow(doctors[..|doctors| - 1], v, r), if Picked(v, d, r) then [Assignment(r.date, r.clinic, d)] else [], s);
    }
  }

  /** With no repeated doctor, a slot's row holds doctor `d` at most once: exactly when
      `d` is one of the doctors and is picked for the slot. */
  lemma {:induction false} RowDutiesOfDoctor(doctors: seq<DoctorId>, v: Var -> real, r: Slot, d: DoctorId, f: SlotFilter)
    requires NoDup(doctors)
    decreases |doctors|
    ensures DutiesOfDoctor(SlotRow(doctors, v, r), d, f) == if d in doctors && InFilter(r, f) && Picked(v, d, r) then 1 else 0
  {
    if doctors != [] {
      var init, e := doctors[..|doctors| - 1], doctors[|doctors| - 1];
      assert NoDup(init) by {
        forall i, j | 0 <= i < j < |init| ensures init[i] != init[j] {
          assert init[i] == doctors[i] && init[j] == doctors[j];
        }
      }
      RowDutiesOfDoctor(init, v, r, d, f);
      DutiesOfDoctorAppend(SlotRow(init, v, r), if Picked(v, e, r) then [Assignment(r.date, r.clinic, e)] else [], d, f);
      if e == d {
        assert d !in init by {
          forall i | 0 <= i < |init| ensures init[i] != d {
            assert doctors[i] != doctors[|doctors| - 1];
          }
        }
      }
      assert doctors == init + [e];
    }
  }

  // ---- the extracted list, counted ----

  /** With no repeated slot, slot `s` is filled in the extracted list exactly as often as
      the coverage sum of the model says. */
  lemma {:induction false} ExtractedDutiesAtSlot(slots: seq<Slot>, doctors: seq<DoctorId>, v: Var -> real, s: Slot)
    requires NoDup(slots)
    decreases |slots|
    ensures DutiesAtSlot(Extracted(slots, doctors, v), s) == if s in slots then DoctorsOnSlot(doctors, v, s) else 0
  {
    if slots != [] {
      var init, r := slots[..|slots| - 1], slots[|slots| - 1];
      assert NoDup(init) by {
        forall i, j | 0 <= i < j < |init| ensures init[i] != init[j] {
          assert init[i] == slots[i] && init[j] == slots[j];
        }
      }
      ExtractedDutiesAtSlot(init, doctors, v, s);
      DutiesAtSlotAppend(Extracted(init, doctors, v), SlotRow(doctors, v, r), s);
      RowDutiesAtSlot(doctors, v, r, s);
      if r == s {
        assert s !in init by {
          forall i | 0 <= i < |init| ensures init[i] != s {
            assert slots[i] != slots[|slots| - 1];
          }
        }
      }
      assert slots == init + [r];
    }
  }

  /** With no repeated doctor, doctor `d`'s filtered duties in the extracted list are the
      model's per-doctor sum over the same slots. */
  lemma {:induction false} ExtractedDutiesOfDoctor(slots: seq<Slot>, doctors: seq<DoctorId>, v: Var -> real, d: DoctorId, f: SlotFilter)
    requires NoDup(doctors)
    decreases |slots|
    ensures DutiesOfDoctor(Extracted(slots, doctors, v), d, f) == if d in doctors then SlotsOfDoctor(slots, v, d, f) else 0
  {
    if slots != [] {
      var init, r := slots[..|slots| - 1], slots[|slots| - 1];
      ExtractedDutiesOfDoctor(init, doctors, v, d, f);
      DutiesOfDoctorAppend(Extracted(init, doctors, v), SlotRow(doctors, v, r), d, f);
      RowDutiesOfDoctor(doctors, v, r, d, f);
    }
  }

  /** The extracted list holds exactly the (doctor, slot) pairs whose variable is set. */
  lemma {:induction false} ExtractedMembers(slots: seq<Slot>, doctors: seq<DoctorId>, v: Var -> real, x: Assignment)
    decreases |slots|
    ensures x in Extracted(slots, doctors, v) <==> x.doctor in doctors && SlotOf(x) in slots && Picked(v, x.doctor, SlotOf(x))
  {
    if slots != [] {
      var init, r := slots[..|slots| - 1], slots[|slots| - 1];
      ExtractedMembers(init, doctors, v, x);
      RowMembers(doctors, v, r, x);
      assert slots == init + [r];
    }
  }

  lemma {:induction false} RowMembers(doctors: seq<DoctorId>, v: Var -> real, r: Slot, x: Assignment)
    decreases |doctors|
    ensures x in SlotRow(doctors, v, r) <==> x.doctor in doctors && SlotOf(x) == r && Picked(v, x.doctor, r)
  {
    if doctors != [] {
      var init := doctors[..|doctors| - 1];
      RowMembers(init, v, r, x);
      assert doctors == init + [doctors[|doctors| - 1]];
    }
  }

  /** A filtered per-doctor sum is non-zero only when some slot passes the filter. */
  lemma {:induction false} SlotsOfDoctorWitness(slots: seq<Slot>, v: Var -> real, d: DoctorId, f: SlotFilter)
    decreases |slots|
    ensures SlotsOfDoctor(slots, v, d, f) > 0 ==> exists i :: 0 <= i < |slots| && InFilter(slots[i], f)
  {
    if slots != [] {
      var init := slots[..|slots| - 1];
      SlotsOfDoctorWitness(init, v, d, f);
      if SlotsOfDoctor(init, v, d, f) > 0 {
        var i :| 0 <= i < |init| && InFilter(init[i], f);
        assert slots[i] == init[i];
      }
    }
  }

  // ---- the two views agree ----

  /** Values that meet every constraint of the model extract to a valid schedule. */
  lemma ExtractionSound(p: Problem, v: Var -> real)
    requires NoDup(p.doctors) && NoDup(p.slots)
    requires SatisfiesConstraints(p, v)
    ensures ValidSchedule(p, Extracted(p.slots, p.doctors, v))
  {
    var a := Extracted(p.slots, p.doctors, v);
    forall i | 0 <= i < |a|
      ensures a[i].doctor in p.doctors && SlotOf(a[i]) in p.slots
      ensures a[i].date !in NgOf(p, a[i].doctor) && !IsNever(p, a[i].doctor, a[i].clinic)
    {
      ExtractedMembers(p.slots, p.doctors, v, a[i]);
    }
    forall s | s in p.slots ensures DutiesAtSlot(a, s) == Required(p, s) {
      ExtractedDutiesAtSlot(p.slots, p.doctors, v, s);
    }
    forall d, dt ensures DutiesOfDoctor(a, d, OnDate(dt)) <= 1 {
      ExtractedDutiesOfDoctor(p.slots, p.doctors, v, d, OnDate(dt));
      SlotsOfDoctorWitness(p.slots, v, d, OnDate(dt));
    }
    forall d, c | d in p.doctors && IsMust(p, d, c) && HasSlotAt(p.slots, c)
      ensures DutiesOfDoctor(a, d, AtClinic(c)) >= 1
    {
      ExtractedDutiesOfDoctor(p.slots, p.doctors, v, d, AtClinic(c));
    }
  }

  /** Conversely, values whose extracted list is a valid schedule meet every constraint. */
  lemma ExtractionComplete(p: Problem, v: Var -> real)
    requires NoDup(p.doctors) && NoDup(p.slots)
    requires ValidSchedule(p, Extracted(p.slots, p.doctors, v))
    ensures SatisfiesConstraints(p, v)
  {
    var a := Extracted(p.slots, p.doctors, v);
    forall s | s in p.slots ensures DoctorsOnSlot(p.doctors, v, s) == Required(p, s) {
      ExtractedDutiesAtSlot(p.slots, p.doctors, v, s);
    }
    forall d, i | d in p.doctors && 0 <= i < |p.slots|
      ensures SlotsOfDoctor(p.slots, v, d, OnDate(p.slots[i].date)) <= 1
    {
      ExtractedDutiesOfDoctor(p.slots, p.doctors, v, d, OnDate(p.slots[i].date));
    }
    forall d, s | d in p.doctors && s in p.slots && (s.date in NgOf(p, d) || IsNever(p, d, s.clinic))
      ensures !Picked(v, d, s)
    {
      var x := Assignment(s.date, s.clinic, d);
      ExtractedMembers(p.slots, p.doctors, v, x);
    }
    forall d, c | d in p.doctors && IsMust(p, d, c) && HasSlotAt(p.slots, c)
      ensures SlotsOfDoctor(p.slots, v, d, AtClinic(c)) >= 1
    {
      ExtractedDutiesOfDoctor(p.slots, p.doctors, v, d, AtClinic(c));
    }
  }

  // ---- consequences of validity ----

  /** Two different assignments that both match doctor `d` and the filter count twice. */
  lemma {:induction false} TwoDuties(a: seq<Assignment>, d: DoctorId, f: SlotFilter, i: int, j: int)
    requires 0 <= i < j < |a|
    requires a[i].doctor == d && InFilter(SlotOf(a[i]), f)
    requires a[j].doctor == d && InFilter(SlotOf(a[j]), f)
    decreases |a|
    ensures DutiesOfDoctor(a, d, f) >= 2
  {
    var init := a[..|a| - 1];
    if j == |a| - 1 {
      OneDuty(init, d, f, i);
    } else {
      TwoDuties(init, d, f, i, j);
    }
  }

  lemma {:induction false} OneDuty(a: seq<Assignment>, d: DoctorId, f: SlotFilter, i: int)
    requires 0 <= i < |a|
    requires a[i].doctor == d && InFilter(SlotOf(a[i]), f)
    decreases |a|
    ensures DutiesOfDoctor(a, d, f) >= 1
  {
    if i < |a| - 1 {
      OneDuty(a[..|a| - 1], d, f, i);
    }
  }

  /** In a valid schedule the doctors filling one slot are distinct. */
  lemma DistinctDoctorsAtSlot(p: Problem, a: seq<Assignment>, i: int, j: int)
    requires ValidSchedule(p, a)
    requires 0 <= i < |a| && 0 <= j < |a| && i != j && SlotOf(a[i]) == SlotOf(a[j])
    ensures a[i].doctor != a[j].doctor
  {
    if a[i].doctor == a[j].doctor {
      var d, f := a[i].doctor, OnDate(a[i].date);
      assert DutiesOfDoctor(a, d, f) <= 1;
      if i < j { TwoDuties(a, d, f, i, j); } else { TwoDuties(a, d, f, j, i); }
    }
  }

  /** The doctors on slot `s`. */
  ghost function DoctorsAt(a: seq<Assignment>, s: Slot): set<DoctorId> {
    set i | 0 <= i < |a| && SlotOf(a[i]) == s :: a[i].doctor
  }

  /** When the doctors filling slot `s` are distinct, there are as many of them as
      assignments at `s`. */
  lemma {:induction false} DoctorsAtCount(a: seq<Assignment>, s: Slot)
    requires forall i, j :: 0 <= i < j < |a| && SlotOf(a[i]) == s && SlotOf(a[j]) == s ==> a[i].doctor != a[j].doctor
    decreases |a|
    ensures |DoctorsAt(a, s)| == DutiesAtSlot(a, s)
  {
    if a != [] {
      var init, x := a[..|a| - 1], a[|a| - 1];
      DoctorsAtCount(init, s);
      if SlotOf(x) == s {
        assert DoctorsAt(a, s) == DoctorsAt(init, s) + {x.doctor};
        assert x.doctor !in DoctorsAt(init, s);
      } else {
        assert DoctorsAt(a, s) == DoctorsAt(init, s);
      }
    }
  }

  /** A slot whose required count equals the number of (distinct) doctors is filled by
      every doctor: with two doctors and a slot needing two, both are on it. */
  lemma FullStaffing(p: Problem, a: seq<Assignment>, s: Slot, d: DoctorId)
    requires NoDup(p.doctors) && ValidSchedule(p, a)
    requires s in p.slots && Required(p, s) == |p.doctors| && d in p.doctors
    ensures exists i :: 0 <= i < |a| && a[i].doctor == d && SlotOf(a[i]) == s
  {
    forall i, j | 0 <= i < j < |a| && SlotOf(a[i]) == s && SlotOf(a[j]) == s ensures a[i].doctor != a[j].doctor {
      DistinctDoctorsAtSlot(p, a, i, j);
    }
    DoctorsAtCount(a, s);
    NoDupCardinality(p.doctors);
    var all := set x | x in p.doctors;
    var on := DoctorsAt(a, s);
    assert on <= all;
    if d !in on {
      assert on <= all - {d};
      SubsetCardinality(on, all - {d});
    }
  }

  lemma SubsetCardinality<T>(a: set<T>, b: set<T>)
    requires a <= b
    ensures |a| <= |b|
  {
    assert b == a + (b - a);
  }

  /** A sole doctor whose NG dates include a slot's date cannot cover that slot: no
      values satisfy the model, so the solver can only report another status. */
  lemma SoleDoctorNgInfeasible(p: Problem, v: Var -> real, s: Slot)
    requires |p.doctors| == 1 && s in p.slots && Required(p, s) >= 1
    requires s.date in NgOf(p, p.doctors[0])
    ensures !SatisfiesConstraints(p, v)
  {
    assert p.doctors[..0] == [];
    assert DoctorsOnSlot(p.doctors, v, s) == if Picked(v, p.doctors[0], s) then 1 else 0;
  }

  /** Affinity weights other than 0.0 and 2.0 impose no constraint: re-weighting such a
      pair to another such weight leaves the constraints unchanged. */
  lemma OtherWeightsUnconstrained(p: Problem, v: Var -> real, d: DoctorId, c: ClinicId, w: real)
    requires w != PriorityMust && w != PriorityNever
    requires (d, c) in p.priority ==> p.priority[(d, c)] != PriorityMust && p.priority[(d, c)] != PriorityNever
    ensures SatisfiesConstraints(p, v) <==> SatisfiesConstraints(p.(priority := p.priority[(d, c) := w]), v)
  {
    var q := p.(priority := p.priority[(d, c) := w]);
    forall e, k ensures IsMust(p, e, k) == IsMust(q, e, k) && IsNever(p, e, k) == IsNever(q, e, k) {
    }
  }
}
