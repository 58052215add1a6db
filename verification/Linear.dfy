/** Vectors and matrices over the reals, as sequences. */
module Linear {
  type Vector = seq<real>
  type Matrix = seq<seq<real>>

  ghost predicate IsSquare(a: Matrix, n: nat) {
    |a| == n && forall i :: 0 <= i < n ==> |a[i]| == n
  }

  ghost predicate IsSymmetric(a: Matrix, n: nat)
    requires IsSquare(a, n)
  {
    forall i, j :: 0 <= i < n && 0 <= j < n ==> a[i][j] == a[j][i]
  }

  // Products are named, so that proofs that only need their laws can hide them.
  function Times(a: real, b: real): real {
    a * b
  }

  lemma TimesCommutes(a: real, b: real)
    ensures Times(a, b) == Times(b, a)
  {
  }

  // The scalar product of the first n components.
  function Dot(r: Vector, s: Vector, n: nat): real
    requires n <= |r| && n <= |s|
  {
    if n == 0 then 0.0 else Dot(r, s, n - 1) + Times(r[n - 1], s[n - 1])
  }

  // a·x == b
  ghost predicate Solves(a: Matrix, x: Vector, b: Vector, n: nat)
    requires IsSquare(a, n) && |x| == n && |b| == n
  {
    forall i :: 0 <= i < n ==> Dot(a[i], x, n) == b[i]
  }

  lemma {:induction false} DotAgrees(r: Vector, s: Vector, r': Vector, s': Vector, n: nat)
    requires n <= |r| && n <= |s| && n <= |r'| && n <= |s'|
    requires forall k :: 0 <= k < n ==> r[k] == r'[k] && s[k] == s'[k]
    ensures Dot(r, s, n) == Dot(r', s', n)
  {
    hide Times;
    if n > 0 {
      DotAgrees(r, s, r', s', n - 1);
    }
  }

  lemma {:induction false} DotCommutes(r: Vector, s: Vector, n: nat)
    requires n <= |r| && n <= |s|
    ensures Dot(r, s, n) == Dot(s, r, n)
  {
    hide Times;
    if n > 0 {
      DotCommutes(r, s, n - 1);
      TimesCommutes(r[n - 1], s[n - 1]);
    }
  }

  // Components in which one of the two is zero contribute nothing.
  lemma {:induction false} DotZeros(r: Vector, s: Vector, m: nat, n: nat)
    requires m <= n <= |r| && n <= |s| && forall k :: m <= k < n ==> r[k] == 0.0 || s[k] == 0.0
    ensures Dot(r, s, n) == Dot(r, s, m)
  {
    hide Times;
    if m < n {
      DotZeros(r, s, m, n - 1);
      ZeroTimes(r[n - 1], s[n - 1]);
    }
  }

  lemma ZeroTimes(a: real, b: real)
    requires a == 0.0 || b == 0.0
    ensures Times(a, b) == 0.0
  {
  }

  function Column(a: Matrix, n: nat, m: nat): Vector
    requires |a| == n && forall i :: 0 <= i < n ==> |a[i]| == n
    requires m < n
  {
    seq(n, k requires 0 <= k < n => a[k][m])
  }

  // The sum over k < p of (t · row k of a, first c components) times x[k].
  ghost function Weighted(t: Vector, a: Matrix, x: Vector, n: nat, c: nat, p: nat): real
    requires IsSquare(a, n) && |t| == n && |x| == n && c <= n && p <= n
  {
    if p == 0 then 0.0 else Weighted(t, a, x, n, c, p - 1) + Times(Dot(t, a[p - 1], c), x[p - 1])
  }

  lemma Regroup(d: real, t: real, e: real, x: real, w: real, s: real)
    ensures (w + Times(t, s)) + Times(d + Times(t, e), x) == (w + Times(d, x)) + Times(t, s + Times(e, x))
  {
    assert (d + t * e) * x == d * x + (t * e) * x;
    assert (t * e) * x == t * (e * x);
    assert t * (s + e * x) == t * s + t * (e * x);
  }

  lemma {:induction false} WeightedStep(t: Vector, a: Matrix, x: Vector, n: nat, c: nat, p: nat)
    requires IsSquare(a, n) && |t| == n && |x| == n && c < n && p <= n
    ensures Weighted(t, a, x, n, c + 1, p) == Weighted(t, a, x, n, c, p) + Times(t[c], Dot(Column(a, n, c), x, p))
  {
    hide Times;
    if p == 0 {
      ZeroTimes(t[c], 0.0);
    } else {
      WeightedStep(t, a, x, n, c, p - 1);
      var col := Column(a, n, c);
      Regroup(Dot(t, a[p - 1], c), t[c], a[p - 1][c], x[p - 1], Weighted(t, a, x, n, c, p - 1), Dot(col, x, p - 1));
    }
  }

  lemma {:induction false} WeightedNone(t: Vector, a: Matrix, x: Vector, n: nat, p: nat)
    requires IsSquare(a, n) && |t| == n && |x| == n && p <= n
    ensures Weighted(t, a, x, n, 0, p) == 0.0
  {
    if p > 0 {
      WeightedNone(t, a, x, n, p - 1);
      ZeroTimes(0.0, x[p - 1]);
    }
  }

  // Summing by rows or by columns is the same.
  lemma {:induction false} WeightedIs(t: Vector, a: Matrix, x: Vector, y: Vector, n: nat, c: nat)
    requires IsSquare(a, n) && |t| == n && |x| == n && |y| == n && c <= n
    requires forall m :: 0 <= m < n ==> y[m] == Dot(Column(a, n, m), x, n)
    ensures Weighted(t, a, x, n, c, n) == Dot(t, y, c)
  {
    if c == 0 {
      WeightedNone(t, a, x, n, n);
    } else {
      WeightedIs(t, a, x, y, n, c - 1);
      WeightedStep(t, a, x, n, c - 1, n);
    }
  }

  lemma {:induction false} WeightedRow(t: Vector, a: Matrix, x: Vector, row: Vector, n: nat, p: nat)
    requires IsSquare(a, n) && |t| == n && |x| == n && |row| == n && p <= n
    requires forall k :: 0 <= k < n ==> row[k] == Dot(t, a[k], n)
    ensures Weighted(t, a, x, n, n, p) == Dot(row, x, p)
  {
    if p > 0 {
      WeightedRow(t, a, x, row, n, p - 1);
    }
  }

  /** With rows that are products with the rows of a, and y the product of x with the columns of a. */
  lemma ProductsExchange(t: Vector, a: Matrix, x: Vector, y: Vector, row: Vector, n: nat)
    requires IsSquare(a, n) && |t| == n && |x| == n && |y| == n && |row| == n
    requires forall k :: 0 <= k < n ==> row[k] == Dot(t, a[k], n)
    requires forall m :: 0 <= m < n ==> y[m] == Dot(Column(a, n, m), x, n)
    ensures Dot(row, x, n) == Dot(t, y, n)
  {
    WeightedRow(t, a, x, row, n, n);
    WeightedIs(t, a, x, y, n, n);
  }
}
