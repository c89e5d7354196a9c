/**
 * The per-clinic filter of the calendar resolver (`get_clinic_dates`): which of the
 * month's duty dates a clinic is staffed on, by its recurrence pattern.
 */
module Recurrence {
  import opened Common
  import opened Calendar

  /** `a` is `b` with some elements left out and the rest in their original order. */
  predicate IsSubsequence<T(==)>(a: seq<T>, b: seq<T>)
    decreases |b|
  {
    if a == [] then true
    else if b == [] then false
    else (a[0] == b[0] && IsSubsequence(a[1..], b[1..])) || IsSubsequence(a, b[1..])
  }

  /** `[x for i, x in enumerate(s) if i % 2 == parity]`, enumerating from position `from`. */
  function KeepParity<T>(s: seq<T>, parity: nat, from: nat): seq<T>
    requires from <= |s|
    decreases |s| - from
  {
    if from == |s| then []
    else (if from % 2 == parity then [s[from]] else []) + KeepParity(s, parity, from + 1)
  }

  /** Elements at positions 0, 2, 4, ... */
  function EvenPositions<T>(s: seq<T>): seq<T> {
    KeepParity(s, 0, 0)
  }

  /** Elements at positions 1, 3, 5, ... */
  function OddPositions<T>(s: seq<T>): seq<T> {
    KeepParity(s, 1, 0)
  }

  /** Filtering from position `from` keeps an order-preserving subsequence of the suffix. */
  lemma {:induction false} KeepParityIsSubsequence<T>(s: seq<T>, parity: nat, from: nat)
    requires from <= |s|
    decreases |s| - from
    ensures IsSubsequence(KeepParity(s, parity, from), s[from..])
  {
    if from < |s| {
      KeepParityIsSubsequence(s, parity, from + 1);
      var rest := KeepParity(s, parity, from + 1);
      assert s[from..][1..] == s[from + 1..];
      if from % 2 == parity {
        assert KeepParity(s, parity, from)[1..] == rest;
      } else {
        assert KeepParity(s, parity, from) == rest;
        SubsequenceOfTail(rest, s[from..]);
      }
    }
  }

  /** A subsequence of a sequence's tail is a subsequence of the sequence. */
  lemma SubsequenceOfTail<T>(a: seq<T>, b: seq<T>)
    requires b != [] && IsSubsequence(a, b[1..])
    ensures IsSubsequence(a, b)
  {
  }

  /** Every sequence is a subsequence of itself. */
  lemma {:induction false} SubsequenceReflexive<T>(s: seq<T>)
    ensures IsSubsequence(s, s)
    decreases |s|
  {
    if s != [] {
      SubsequenceReflexive(s[1..]);
    }
  }

  /** Filtering from position `from`: the k-th kept element sits at the k-th position
      of the right parity, counted from `from`. */
  lemma {:induction false} KeepParityAt<T>(s: seq<T>, parity: nat, from: nat)
    requires from <= |s| && parity < 2
    decreases |s| - from
    ensures var r := KeepParity(s, parity, from);
      var first := if from % 2 == parity then from else from + 1;
      |r| == (if first >= |s| then 0 else (|s| - first + 1) / 2)
      && forall k :: 0 <= k < |r| ==> r[k] == s[first + 2 * k]
  {
    if from < |s| {
      KeepParityAt(s, parity, from + 1);
      if from % 2 != parity && from + 1 < |s| {
        KeepParityAt(s, parity, from + 2);
      }
    }
  }

  /**
   * `biweekly_odd` and `biweekly_even` split the dates: positions 0, 2, 4, ... go to the
   * first and 1, 3, 5, ... to the second, so between them every date is kept exactly once.
   */
  lemma EvenOddPartition<T>(s: seq<T>)
    ensures |EvenPositions(s)| == (|s| + 1) / 2 && |OddPositions(s)| == |s| / 2
    ensures forall k :: 0 <= k < |EvenPositions(s)| ==> EvenPositions(s)[k] == s[2 * k]
    ensures forall k :: 0 <= k < |OddPositions(s)| ==> OddPositions(s)[k] == s[2 * k + 1]
    ensures forall i :: 0 <= i < |s| ==>
      s[i] == if i % 2 == 0 then EvenPositions(s)[i / 2] else OddPositions(s)[i / 2]
  {
    KeepParityAt(s, 0, 0);
    KeepParityAt(s, 1, 0);
  }

  /** With no repeated date, the two biweekly patterns share no date. */
  lemma EvenOddDisjoint<T>(s: seq<T>)
    requires NoDup(s)
    ensures forall x :: x in EvenPositions(s) ==> x !in OddPositions(s)
  {
    KeepParityAt(s, 0, 0);
    KeepParityAt(s, 1, 0);
    var ev, od := EvenPositions(s), OddPositions(s);
    forall x | x in ev ensures x !in od {
      var k :| 0 <= k < |ev| && ev[k] == x;
      forall m | 0 <= m < |od| ensures od[m] != x {
        var i, j := 2 * k, 2 * m + 1;
        if i < j {
          assert s[i] != s[j];
        } else {
          assert s[j] != s[i];
        }
      }
    }
  }

  /** Together the two biweekly patterns hold every date. */
  lemma EvenOddCover<T>(s: seq<T>)
    ensures forall x :: x in s <==> x in EvenPositions(s) || x in OddPositions(s)
  {
    EvenOddPartition(s);
  }

  /**
   * `get_clinic_dates`: `weekly`, and any pattern it does not recognise, keep every date;
   * the biweekly patterns keep every other date; `first_only` and `last_only` keep the
   * first or the last date of the month, if there is one.
   */
  function ClinicDates(frequency: string, saturdays: seq<Date>): (r: seq<Date>)
    ensures IsSubsequence(r, saturdays)
    ensures frequency == "first_only" ==> r == (if saturdays == [] then [] else [saturdays[0]])
    ensures frequency == "last_only" ==> r == (if saturdays == [] then [] else [saturdays[|saturdays| - 1]])
    ensures frequency == "biweekly_odd" ==> r == EvenPositions(saturdays)
    ensures frequency == "biweekly_even" ==> r == OddPositions(saturdays)
    ensures frequency !in {"biweekly_odd", "biweekly_even", "first_only", "last_only"} ==> r == saturdays
  {
    if frequency == "weekly" then
      SubsequenceReflexive(saturdays);
      saturdays
    else if frequency == "biweekly_odd" then
      KeepParityIsSubsequence(saturdays, 0, 0);
      EvenPositions(saturdays)
    else if frequency == "biweekly_even" then
      KeepParityIsSubsequence(saturdays, 1, 0);
      OddPositions(saturdays)
    else if frequency == "first_only" then
      if saturdays == [] then [] else FirstIsSubsequence(saturdays); saturdays[..1]
    else if frequency == "last_only" then
      if saturdays == [] then [] else LastIsSubsequence(saturdays); saturdays[|saturdays| - 1..]
    else
      SubsequenceReflexive(saturdays);
      saturdays
  }

  lemma FirstIsSubsequence<T>(s: seq<T>)
    requires s != []
    ensures IsSubsequence(s[..1], s)
  {
    assert s[..1][1..] == [];
  }

  lemma {:induction false} LastIsSubsequence<T>(s: seq<T>)
    requires s != []
    ensures IsSubsequence(s[|s| - 1..], s)
    decreases |s|
  {
    if |s| == 1 {
      assert s[|s| - 1..] == s;
      SubsequenceReflexive(s);
    } else {
      LastIsSubsequence(s[1..]);
      assert s[1..][|s[1..]| - 1..] == s[|s| - 1..];
    }
  }

  /** Filtering an already filtered list again under `weekly`, `first_only`, `last_only`
      or an unrecognised pattern changes nothing. */
  lemma RefilterStable(frequency: string, saturdays: seq<Date>)
    requires frequency != "biweekly_odd" && frequency != "biweekly_even"
    ensures ClinicDates(frequency, ClinicDates(frequency, saturdays)) == ClinicDates(frequency, saturdays)
  {
  }

  /** The biweekly patterns are not stable under re-filtering: three dates filtered
      twice under `biweekly_odd` lose the third, and four filtered twice under
      `biweekly_even` lose the second. */
  lemma BiweeklyRefilterShrinks(a: Date, b: Date, c: Date, d: Date)
    ensures ClinicDates("biweekly_odd", ClinicDates("biweekly_odd", [a, b, c])) == [a]
    ensures ClinicDates("biweekly_odd", [a, b, c]) == [a, c]
    ensures ClinicDates("biweekly_even", ClinicDates("biweekly_even", [a, b, c, d])) == [d]
    ensures ClinicDates("biweekly_even", [a, b, c, d]) == [b, d]
  {
    KeepParityAt([a, b, c], 0, 0);
    assert ClinicDates("biweekly_odd", [a, b, c]) == [a, c];
    KeepParityAt([a, c], 0, 0);
    assert ClinicDates("biweekly_odd", [a, c]) == [a];
    KeepParityAt([a, b, c, d], 1, 0);
    assert ClinicDates("biweekly_even", [a, b, c, d]) == [b, d];
    KeepParityAt([b, d], 1, 0);
    assert ClinicDates("biweekly_even", [b, d]) == [d];
  }
}
