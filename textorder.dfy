/**
 * Month labels as the application writes them (`f"{year:04d}-{month:02d}"`) and
 * Python's ordering of strings, which the prior-earnings filter uses to compare them.
 */
module TextOrder {

  /** Python's `a < b` on `str`: at the first position where they differ, `a` has the
      smaller code point; or `a` is a proper prefix of `b`. */
  predicate LexLess(a: string, b: string)
    decreases |a|
  {
    if b == [] then false
    else if a == [] then true
    else if a[0] != b[0] then a[0] < b[0]
    else LexLess(a[1..], b[1..])
  }

  lemma {:induction false} LexIrreflexive(a: string)
    decreases |a|
    ensures !LexLess(a, a)
  {
    if a != [] {
      LexIrreflexive(a[1..]);
    }
  }

  lemma {:induction false} LexTransitive(a: string, b: string, c: string)
    requires LexLess(a, b) && LexLess(b, c)
    decreases |a|
    ensures LexLess(a, c)
  {
    if a != [] && a[0] == b[0] && b[0] == c[0] {
      LexTransitive(a[1..], b[1..], c[1..]);
    }
  }

  /** Two different strings are ordered one way or the other. */
  lemma {:induction false} LexTotal(a: string, b: string)
    requires a != b
    decreases |a|
    ensures LexLess(a, b) || LexLess(b, a)
  {
    if a != [] && b != [] && a[0] == b[0] {
      assert a == [a[0]] + a[1..] && b == [b[0]] + b[1..];
      LexTotal(a[1..], b[1..]);
    }
  }

  /** Comparing two strings whose first parts have the same length: the first parts
      decide, and only when they are equal do the rests. */
  lemma {:induction false} LexAppend(p: string, q: string, s: string, t: string)
    requires |p| == |q|
    decreases |p|
    ensures LexLess(p + s, q + t) <==> LexLess(p, q) || (p == q && LexLess(s, t))
  {
    if p == [] {
      assert p + s == s && q + t == t;
    } else {
      assert (p + s)[0] == p[0] && (q + t)[0] == q[0];
      assert (p + s)[1..] == p[1..] + s && (q + t)[1..] == q[1..] + t;
      LexAppend(p[1..], q[1..], s, t);
      if p[0] == q[0] {
        assert p == q <==> p[1..] == q[1..] by {
          assert p == [p[0]] + p[1..] && q == [q[0]] + q[1..];
        }
      }
    }
  }

  // ---- decimal formatting ----

  function DigitChar(d: nat): char
    requires d < 10
  {
    (48 + d) as char
  }

  /** The decimal digits of `n`, most significant first, without leading zeros. */
  function Digits(n: nat): string
    decreases n
  {
    if n < 10 then [DigitChar(n)] else Digits(n / 10) + [DigitChar(n % 10)]
  }

  function Zeros(k: nat): string {
    seq(k, _ => '0')
  }

  /** `s` with zeros put in front up to `width` characters. */
  function ZeroFill(s: string, width: int): string {
    if |s| >= width then s else Zeros(width - |s|) + s
  }

  /** Python's `format(n, "0<width>d")`: the digits of `n`, zero-filled to `width`
      characters, a negative number's '-' counting towards the width. */
  function FormatInt(n: int, width: nat): string {
    if n < 0 then "-" + ZeroFill(Digits(-n), width - 1) else ZeroFill(Digits(n), width)
  }

  /** The label `f"{year:04d}-{month:02d}"`. */
  function MonthLabel(year: int, month: int): string {
    FormatInt(year, 4) + "-" + FormatInt(month, 2)
  }

  function Pow10(k: nat): nat {
    if k == 0 then 1 else 10 * Pow10(k - 1)
  }

  /** The last `k` decimal digits of `n`, with leading zeros. */
  function Fixed(n: nat, k: nat): (r: string)
    ensures |r| == k
  {
    if k == 0 then [] else Fixed(n / 10, k - 1) + [DigitChar(n % 10)]
  }

  lemma {:induction false} FixedZero(k: nat)
    ensures Fixed(0, k) == Zeros(k)
  {
    if k > 0 {
      FixedZero(k - 1);
      assert Zeros(k) == Zeros(k - 1) + ['0'];
    }
  }

  /** A number with at most `k` digits is formatted to exactly `k` digits. */
  lemma {:induction false} FormatIsFixed(n: nat, k: nat)
    requires 1 <= k && n < Pow10(k)
    decreases k
    ensures FormatInt(n, k) == Fixed(n, k)
  {
    if n < 10 {
      FixedZero(k - 1);
    } else {
      assert Pow10(1) == 10;
      FormatIsFixed(n / 10, k - 1);
      var s, c := Digits(n / 10), [DigitChar(n % 10)];
      assert ZeroFill(s + c, k) == ZeroFill(s, k - 1) + c;
    }
  }

  /** Zero-padded numbers of the same width compare as the numbers do. */
  lemma {:induction false} FixedOrder(a: nat, b: nat, k: nat)
    requires a < Pow10(k) && b < Pow10(k)
    decreases k
    ensures LexLess(Fixed(a, k), Fixed(b, k)) <==> a < b
    ensures Fixed(a, k) == Fixed(b, k) <==> a == b
  {
    if k == 0 {
      assert a == 0 && b == 0;
    } else {
      var p, q := Fixed(a / 10, k - 1), Fixed(b / 10, k - 1);
      var x, y := [DigitChar(a % 10)], [DigitChar(b % 10)];
      FixedOrder(a / 10, b / 10, k - 1);
      LexAppend(p, q, x, y);
      assert LexLess(x, y) <==> a % 10 < b % 10;
      assert p + x == q + y <==> p == q && x == y by {
        if p + x == q + y {
          assert p == (p + x)[..k - 1] && q == (q + y)[..k - 1];
          assert x[0] == (p + x)[k - 1] && y[0] == (q + y)[k - 1];
        }
      }
    }
  }

  /**
   * For years 0..9999 and months 0..99 the labels compare as the months do in time:
   * one label is smaller exactly when its year is earlier, or the year is the same and
   * its month is earlier.
   */
  lemma MonthLabelOrder(y1: int, m1: int, y2: int, m2: int)
    requires 0 <= y1 < 10000 && 0 <= y2 < 10000 && 0 <= m1 < 100 && 0 <= m2 < 100
    ensures LexLess(MonthLabel(y1, m1), MonthLabel(y2, m2)) <==> y1 < y2 || (y1 == y2 && m1 < m2)
    ensures MonthLabel(y1, m1) == MonthLabel(y2, m2) <==> y1 == y2 && m1 == m2
  {
    assert Pow10(4) == 10000 && Pow10(2) == 100;
    FormatIsFixed(y1, 4);
    FormatIsFixed(y2, 4);
    FormatIsFixed(m1, 2);
    FormatIsFixed(m2, 2);
    FixedOrder(y1, y2, 4);
    FixedOrder(m1, m2, 2);
    var a1, a2 := Fixed(y1, 4), Fixed(y2, 4);
    var b1, b2 := Fixed(m1, 2), Fixed(m2, 2);
    assert MonthLabel(y1, m1) == a1 + ("-" + b1);
    assert MonthLabel(y2, m2) == a2 + ("-" + b2);
    LexAppend(a1, a2, "-" + b1, "-" + b2);
    LexAppend("-", "-", b1, b2);
    assert a1 + ("-" + b1) == a2 + ("-" + b2) <==> a1 == a2 && b1 == b2 by {
      if a1 + ("-" + b1) == a2 + ("-" + b2) {
        assert a1 == (a1 + ("-" + b1))[..4] && a2 == (a2 + ("-" + b2))[..4];
        assert b1 == (a1 + ("-" + b1))[5..] && b2 == (a2 + ("-" + b2))[5..];
      }
    }
  }

  // ---- sorting ----

  /** Strictly increasing under Python's string order (so also free of repeats). */
  predicate StrictlyAscending(r: seq<string>) {
    forall i, j :: 0 <= i < j < |r| ==> LexLess(r[i], r[j])
  }

  /** A strictly ascending list has no repeats. */
  lemma AscendingNoRepeats(r: seq<string>)
    requires StrictlyAscending(r)
    ensures forall i, j :: 0 <= i < j < |r| ==> r[i] != r[j]
  {
    forall i, j | 0 <= i < j < |r| ensures r[i] != r[j] {
      LexIrreflexive(r[i]);
    }
  }

  /** Puts `x` into an ascending list at its place. */
  method Insert(r: seq<string>, x: string) returns (t: seq<string>)
    requires StrictlyAscending(r) && x !in r
    ensures StrictlyAscending(t)
    ensures forall y :: y in t <==> y in r || y == x
    ensures |t| == |r| + 1
  {
    var k := 0;
    while k < |r| && LexLess(r[k], x)
      invariant 0 <= k <= |r|
      invariant forall i :: 0 <= i < k ==> LexLess(r[i], x)
    {
      k := k + 1;
    }
    t := r[..k] + [x] + r[k..];
    forall i | k <= i < |r| ensures LexLess(x, r[i]) {
      LexTotal(x, r[k]);
      if i > k {
        LexTransitive(x, r[k], r[i]);
      }
    }
    forall i, j | 0 <= i < j < |t| ensures LexLess(t[i], t[j]) {
      if i < k && j > k {
        LexTransitive(t[i], x, t[j]);
      }
    }
  }

  /** Python's `sorted` on a set of strings: its elements in ascending order. */
  method SortStrings(s: set<string>) returns (r: seq<string>)
    ensures StrictlyAscending(r)
    ensures forall x :: x in r <==> x in s
    ensures |r| == |s|
  {
    r := [];
    var rest := s;
    while rest != {}
      invariant rest <= s
      invariant StrictlyAscending(r)
      invariant forall x :: x in r <==> x in s && x !in rest
      invariant |r| + |rest| == |s|
      decreases |rest|
    {
      var x :| x in rest;
      r := Insert(r, x);
      rest := rest - {x};
    }
  }
}
