/**
 * The slot builder, the first loop of `solve_schedule`: every (clinic, date) pair the
 * clinic's recurrence pattern selects becomes a slot, with the number of doctors it
 * needs taken from the date overrides (1 when there is none); an override of 0 closes
 * the date and makes no slot.
 */
module Slots {
  import opened Common
  import opened Calendar
  import opened Recurrence
  import opened Entities

  /** The two dictionaries the loop fills: `order` is the key list of `clinic_dates`
      (insertion order, as `list(clinic_dates.keys())`), `required` is `slot_required`. */
  datatype SlotTable = SlotTable(order: seq<Slot>, required: map<Slot, int>)

  /** `overrides.get((clinic_id, date), 1)`. */
  function RequiredCount(overrides: map<Slot, int>, s: Slot): int {
    if s in overrides then overrides[s] else 1
  }

  /** One iteration of the inner loop: skip a closed date, otherwise record the slot (a
      key already present keeps its place) and its required count. */
  function AddSlot(t: SlotTable, s: Slot, overrides: map<Slot, int>): SlotTable {
    var req := RequiredCount(overrides, s);
    if req == 0 then t
    else SlotTable(if s in t.order then t.order else t.order + [s], t.required[s := req])
  }

  /** The inner loop over one clinic's dates. */
  function AddDates(t: SlotTable, clinic: ClinicId, dates: seq<Date>, overrides: map<Slot, int>): SlotTable
    decreases |dates|
  {
    if dates == [] then t
    else AddSlot(AddDates(t, clinic, dates[..|dates| - 1], overrides), Slot(clinic, dates[|dates| - 1]), overrides)
  }

  /** Both loops: the tables after processing every clinic in order. */
  function SlotTableOf(clinics: seq<Clinic>, saturdays: seq<Date>, overrides: map<Slot, int>): SlotTable
    decreases |clinics|
  {
    if clinics == [] then SlotTable([], map[])
    else
      var c := clinics[|clinics| - 1];
      AddDates(SlotTableOf(clinics[..|clinics| - 1], saturdays, overrides), c.id, ClinicDates(c.frequency, saturdays), overrides)
  }

  /** The invariant the loop keeps: the slot list has no repeats and the same keys as the
      count table, and every recorded count is the (non-zero) override count. */
  ghost predicate WellFormed(t: SlotTable, overrides: map<Slot, int>) {
    && NoDup(t.order)
    && (forall s :: s in t.order <==> s in t.required)
    && (forall s :: s in t.required ==> t.required[s] == RequiredCount(overrides, s) && t.required[s] != 0)
  }

  /** Processing one clinic's dates keeps the invariant and adds exactly its open dates. */
  lemma {:induction false} AddDatesExact(t: SlotTable, clinic: ClinicId, dates: seq<Date>, overrides: map<Slot, int>)
    requires WellFormed(t, overrides)
    decreases |dates|
    ensures WellFormed(AddDates(t, clinic, dates, overrides), overrides)
    ensures forall s :: s in AddDates(t, clinic, dates, overrides).required <==>
      s in t.required || (s.clinic == clinic && s.date in dates && RequiredCount(overrides, s) != 0)
  {
    if dates != [] {
      var init := dates[..|dates| - 1];
      AddDatesExact(t, clinic, init, overrides);
      var u := AddDates(t, clinic, init, overrides);
      var s := Slot(clinic, dates[|dates| - 1]);
      var v := AddSlot(u, s, overrides);
      if RequiredCount(overrides, s) != 0 && s !in u.order {
        assert v.order == u.order + [s];
        assert NoDup(v.order) by {
          forall i, j | 0 <= i < j < |v.order| ensures v.order[i] != v.order[j] {
            if j == |u.order| { assert v.order[i] == u.order[i]; }
          }
        }
      }
      assert dates == init + [dates[|dates| - 1]];
    }
  }

  /** Some clinic with the slot's id selects the slot's date. */
  ghost predicate Selects(clinics: seq<Clinic>, saturdays: seq<Date>, s: Slot) {
    exists i :: 0 <= i < |clinics| && clinics[i].id == s.clinic && s.date in ClinicDates(clinics[i].frequency, saturdays)
  }

  lemma SelectsSplit(clinics: seq<Clinic>, saturdays: seq<Date>, s: Slot)
    requires clinics != []
    ensures var c := clinics[|clinics| - 1];
      Selects(clinics, saturdays, s) <==>
        Selects(clinics[..|clinics| - 1], saturdays, s) || (s.clinic == c.id && s.date in ClinicDates(c.frequency, saturdays))
  {
    var init := clinics[..|clinics| - 1];
    if Selects(clinics, saturdays, s) {
      var i :| 0 <= i < |clinics| && clinics[i].id == s.clinic && s.date in ClinicDates(clinics[i].frequency, saturdays);
      if i < |init| { assert init[i] == clinics[i]; }
    }
    if Selects(init, saturdays, s) {
      var i :| 0 <= i < |init| && init[i].id == s.clinic && s.date in ClinicDates(init[i].frequency, saturdays);
      assert clinics[i] == init[i];
    }
  }

  /** The slot builder's result: every slot has a single place in the list, and (c, d) is
      a slot exactly when some clinic with id c selects d and d is not closed for c; its
      required count is the override, or 1 when there is none. */
  lemma {:induction false} SlotTableExact(clinics: seq<Clinic>, saturdays: seq<Date>, overrides: map<Slot, int>)
    decreases |clinics|
    ensures WellFormed(SlotTableOf(clinics, saturdays, overrides), overrides)
    ensures forall s :: s in SlotTableOf(clinics, saturdays, overrides).required <==>
      Selects(clinics, saturdays, s) && RequiredCount(overrides, s) != 0
  {
    if clinics != [] {
      var init, c := clinics[..|clinics| - 1], clinics[|clinics| - 1];
      SlotTableExact(init, saturdays, overrides);
      AddDatesExact(SlotTableOf(init, saturdays, overrides), c.id, ClinicDates(c.frequency, saturdays), overrides);
      forall s ensures s in SlotTableOf(clinics, saturdays, overrides).required <==>
        Selects(clinics, saturdays, s) && RequiredCount(overrides, s) != 0
      {
        SelectsSplit(clinics, saturdays, s);
      }
    }
  }

  /** A date closed by an override of 0 never becomes a slot. */
  lemma ClosedDateHasNoSlot(clinics: seq<Clinic>, saturdays: seq<Date>, overrides: map<Slot, int>, s: Slot)
    requires s in overrides && overrides[s] == 0
    ensures s !in SlotTableOf(clinics, saturdays, overrides).required
    ensures s !in SlotTableOf(clinics, saturdays, overrides).order
  {
    SlotTableExact(clinics, saturdays, overrides);
  }

  /**
   * The loop itself: for each clinic, for each of its dates, look up the override and
   * record the slot unless the date is closed.
   */
  method BuildSlots(clinics: seq<Clinic>, saturdays: seq<Date>, overrides: map<Slot, int>)
    returns (slots: seq<Slot>, required: map<Slot, int>)
    ensures SlotTable(slots, required) == SlotTableOf(clinics, saturdays, overrides)
  {
    slots, required := [], map[];
    for i := 0 to |clinics|
      invariant SlotTable(slots, required) == SlotTableOf(clinics[..i], saturdays, overrides)
    {
      var c := clinics[i];
      var cd := ClinicDates(c.frequency, saturdays);
      assert clinics[..i + 1][..i] == clinics[..i];
      ghost var before := SlotTable(slots, required);
      for j := 0 to |cd|
        invariant SlotTable(slots, required) == AddDates(before, c.id, cd[..j], overrides)
      {
        assert cd[..j + 1][..j] == cd[..j];
        var s := Slot(c.id, cd[j]);
        var req := if s in overrides then overrides[s] else 1;
        if req != 0 {
          if s !in slots {
            slots := slots + [s];
          }
          required := required[s := req];
        }
      }
      assert cd[..|cd|] == cd;
    }
    assert clinics[..|clinics|] == clinics;
  }
}
