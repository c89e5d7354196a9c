/**
 * The objective's weighting profiles: each mode gives six coefficients, for pay
 * variance, preferred clinics, clinic nominations, affinity, avoid-date penalty and
 * duty-count variance. The solver minimises, so rewards carry negative coefficients.
 */
module Weights {
  import opened Entities

  datatype Weights = Weights(
    variance: real, preference: real, nomination: real, priority: real, avoid: real, count: real)

  /** The mode table; an unknown mode falls back to a fourth, middle profile. */
  function ModeWeights(mode: string): (w: Weights)
    ensures w.avoid == 3.0
    ensures w.count > 0.0 && w.variance > 0.0
    ensures w.preference < 0.0 && w.nomination < 0.0 && w.priority < 0.0
  {
    if mode == "balanced" then Weights(10.0, -1.0, -2.0, -1.0, 3.0, 5.0)
    else if mode == "preference" then Weights(2.0, -5.0, -3.0, -2.0, 3.0, 3.0)
    else if mode == "affinity" then Weights(2.0, -2.0, -2.0, -5.0, 3.0, 3.0)
    else Weights(5.0, -2.0, -2.0, -2.0, 3.0, 5.0)
  }

  /** Every clinic in the fee table pays nothing. */
  predicate AllFeesZero(fee: map<ClinicId, int>) {
    forall c :: c in fee ==> fee[c] == 0
  }

  /** The coefficients actually used: when no clinic pays anything, pay balance is
      meaningless and its weight is set to 0; every other coefficient is the mode's. */
  function EffectiveWeights(mode: string, fee: map<ClinicId, int>): (w: Weights)
    ensures AllFeesZero(fee) ==> w.variance == 0.0
    ensures !AllFeesZero(fee) ==> w == ModeWeights(mode)
    ensures w.(variance := 0.0) == ModeWeights(mode).(variance := 0.0)
    ensures w.avoid > 0.0 && w.count > 0.0
  {
    var w := ModeWeights(mode);
    if AllFeesZero(fee) then w.(variance := 0.0) else w
  }

  /** Each named profile is the one that weighs its own priority most: `balanced` pay
      equality, `preference` the doctors' preferred clinics, `affinity` the affinity
      weights; the fallback profile leads in none of the three. */
  lemma ProfilesEmphasis(mode: string)
    ensures mode != "balanced" ==> ModeWeights(mode).variance < ModeWeights("balanced").variance
    ensures mode != "preference" ==> ModeWeights(mode).preference > ModeWeights("preference").preference
    ensures mode != "affinity" ==> ModeWeights(mode).priority > ModeWeights("affinity").priority
  {
  }
}
