/**
 Solving a symmetric positive definite system in place by its Cholesky factorisation, over exact reals. The
 square root is a parameter.
 */
module Cholesky {
  import opened Results
  import opened Linear

  const THRESHOLD := 0.000000000001

  ghost predicate IsSqrt(sqrt: real -> real) {
    forall d :: d > 0.0 ==> sqrt(d) > 0.0 && sqrt(d) * sqrt(d) == d
  }

  ghost function Rows(a: array2<real>): (rows: Matrix)
    reads a
    ensures |rows| == a.Length0
    ensures forall i :: 0 <= i < a.Length0 ==> |rows[i]| == a.Length1
    ensures forall i, j :: 0 <= i < a.Length0 && 0 <= j < a.Length1 ==> rows[i][j] == a[i, j]
  {
    seq(a.Length0, i requires 0 <= i < a.Length0 reads a =>
      seq(a.Length1, j requires 0 <= j < a.Length1 reads a => a[i, j]))
  }

  // ----- The factorisation -----

  // Of the lower triangle, the columns before j and the rows before i of column j hold the factor; the rest is
  // as it was.
  ghost predicate Progress(l: Matrix, a: Matrix, n: nat, j: nat, i: nat) {
    && IsSquare(l, n) && IsSquare(a, n) && j <= n && j <= i
    && (forall r, k :: 0 <= k <= r < n ==> EntryOk(l, a, n, j, i, r, k))
    && (forall k :: 0 <= k < n && (k < j || (k == j && j < i)) ==> l[k][k] > 0.0)
  }

  ghost predicate EntryOk(l: Matrix, a: Matrix, n: nat, j: nat, i: nat, r: nat, k: nat)
    requires IsSquare(l, n) && IsSquare(a, n) && k <= r < n
  {
    if k < j || (k == j && r < i) then Dot(l[r], l[k], k + 1) == a[r][k] else l[r][k] == a[r][k]
  }

  function Put(l: Matrix, n: nat, i: nat, j: nat, v: real): Matrix
    requires |l| == n && (forall r :: 0 <= r < n ==> |l[r]| == n) && i < n && j < n
  {
    l[i := l[i][j := v]]
  }

  lemma EntryKept(l: Matrix, a: Matrix, n: nat, j: nat, i: nat, v: real, r: nat, k: nat)
    requires Progress(l, a, n, j, i) && j <= i < n && k <= r < n && !(r == i && k == j)
    ensures EntryOk(Put(l, n, i, j, v), a, n, j, i + 1, r, k)
  {
    hide Times;
    var m := Put(l, n, i, j, v);
    assert EntryOk(l, a, n, j, i, r, k);
    if k < j || (k == j && r < i) {
      DotAgrees(l[r], l[k], m[r], m[k], k + 1);
    }
  }

  lemma EntryPut(l: Matrix, a: Matrix, n: nat, j: nat, i: nat, v: real)
    requires Progress(l, a, n, j, i) && j <= i < n
    requires Times(v, if i == j then v else l[j][j]) == a[i][j] - Dot(l[i], l[j], j)
    ensures EntryOk(Put(l, n, i, j, v), a, n, j, i + 1, i, j)
  {
    hide Times;
    var m := Put(l, n, i, j, v);
    DotAgrees(l[i], l[j], m[i], m[j], j);
  }

  lemma ProgressPut(l: Matrix, a: Matrix, n: nat, j: nat, i: nat, v: real)
    requires Progress(l, a, n, j, i) && j <= i < n && (i == j ==> v > 0.0)
    requires Times(v, if i == j then v else l[j][j]) == a[i][j] - Dot(l[i], l[j], j)
    ensures Progress(Put(l, n, i, j, v), a, n, j, i + 1)
  {
    hide EntryOk, Dot, Times;
    var m, next := Put(l, n, i, j, v), i + 1;
    assert forall k :: 0 <= k < n && (k < j || (k == j && j < next)) ==> m[k][k] > 0.0;
    forall r, k | 0 <= k <= r < n ensures EntryOk(m, a, n, j, next, r, k) {
      if r == i && k == j {
        EntryPut(l, a, n, j, i, v);
      } else {
        EntryKept(l, a, n, j, i, v, r, k);
      }
    }
  }

  lemma ColumnDone(l: Matrix, a: Matrix, n: nat, j: nat)
    requires Progress(l, a, n, j, n) && j < n
    ensures Progress(l, a, n, j + 1, j + 1)
  {
    var next := j + 1;
    forall r, k | 0 <= k <= r < n ensures EntryOk(l, a, n, next, next, r, k) {
      assert EntryOk(l, a, n, j, n, r, k);
    }
  }

  // The entry less the products of the columns before.
  method Reduced(a: array2<real>, i: nat, j: nat) returns (s: real)
    requires j <= i < a.Length0 == a.Length1
    ensures s == Rows(a)[i][j] - Dot(Rows(a)[i], Rows(a)[j], j)
  {
    s := a[i, j];
    var k := 0;
    while k < j
      invariant 0 <= k <= j
      invariant s == Rows(a)[i][j] - Dot(Rows(a)[i], Rows(a)[j], k)
    {
      s := s - a[i, k] * a[j, k];
      k := k + 1;
    }
  }

  method Write(a: array2<real>, i: nat, j: nat, v: real)
    requires i < a.Length0 == a.Length1 && j < a.Length0
    modifies a
    ensures Rows(a) == Put(old(Rows(a)), a.Length0, i, j, v)
  {
    ghost var before := Rows(a);
    a[i, j] := v;
    forall r | 0 <= r < a.Length0 ensures Rows(a)[r] == Put(before, a.Length0, i, j, v)[r] {
      assert r != i ==> Rows(a)[r] == before[r];
      assert r == i ==> Rows(a)[r] == before[r][j := v];
    }
  }

  lemma QuotientTimes(s: real, d: real)
    requires d > 0.0
    ensures Times(s / d, d) == s
  {
  }

  // The entry of the factor in row i of column j, below the pivot.
  method FactorRow(a: array2<real>, n: nat, j: nat, i: nat, ghost start: Matrix)
    requires a.Length0 == a.Length1 == n && j < i < n && Progress(Rows(a), start, n, j, i)
    modifies a
    ensures Progress(Rows(a), start, n, j, i + 1)
  {
    var s := Reduced(a, i, j);
    var d := a[j, j];
    QuotientTimes(s, d);
    assert EntryOk(Rows(a), start, n, j, i, i, j);
    ProgressPut(Rows(a), start, n, j, i, s / d);
    Write(a, i, j, s / d);
  }

  // Column j of the factor, below its pivot.
  method FactorColumn(a: array2<real>, n: nat, j: nat, ghost start: Matrix)
    requires a.Length0 == a.Length1 == n && j < n && Progress(Rows(a), start, n, j, j + 1)
    modifies a
    ensures Progress(Rows(a), start, n, j + 1, j + 1)
  {
    var i := j + 1;
    while i < n
      invariant j < i <= n && Progress(Rows(a), start, n, j, i)
    {
      FactorRow(a, n, j, i, start);
      i := i + 1;
    }
    ColumnDone(Rows(a), start, n, j);
  }

  // ----- There is only one factor -----

  lemma SquaresEqual(x: real, y: real)
    requires x > 0.0 && y > 0.0 && Times(x, x) == Times(y, y)
    ensures x == y
  {
    assert (x - y) * (x + y) == 0.0;
  }

  lemma SameProduct(x: real, y: real, d: real)
    requires d > 0.0 && Times(x, d) == Times(y, d)
    ensures x == y
  {
    assert (x - y) * d == 0.0;
  }

  // The first c columns of the lower triangles agree.
  ghost predicate ColumnsAgree(l: Matrix, m: Matrix, n: nat, c: nat)
    requires IsSquare(l, n) && IsSquare(m, n)
  {
    forall r, k :: 0 <= k < c && k <= r < n ==> l[r][k] == m[r][k]
  }

  lemma EntryUnique(l: Matrix, m: Matrix, a: Matrix, n: nat, j: nat, c: nat, r: nat)
    requires Progress(l, a, n, j, j) && Progress(m, a, n, j, j) && c < j && c <= r < n
    requires ColumnsAgree(l, m, n, c) && (r > c ==> l[c][c] == m[c][c])
    ensures l[r][c] == m[r][c]
  {
    hide Times;
    assert EntryOk(l, a, n, j, j, r, c) && EntryOk(m, a, n, j, j, r, c);
    DotAgrees(l[r], l[c], m[r], m[c], c);
    if r == c {
      SquaresEqual(l[c][c], m[c][c]);
    } else {
      SameProduct(l[r][c], m[r][c], l[c][c]);
    }
  }

  /** The finished columns are determined by the matrix. */
  lemma {:induction false} FactorUnique(l: Matrix, m: Matrix, a: Matrix, n: nat, j: nat, c: nat)
    requires Progress(l, a, n, j, j) && Progress(m, a, n, j, j) && c <= j
    ensures ColumnsAgree(l, m, n, c)
  {
    if c > 0 {
      FactorUnique(l, m, a, n, j, c - 1);
      EntryUnique(l, m, a, n, j, c - 1, c - 1);
      forall r | c - 1 < r < n ensures l[r][c - 1] == m[r][c - 1] {
        EntryUnique(l, m, a, n, j, c - 1, r);
      }
    }
  }

  // What is left of a diagonal entry when the columns before are finished.
  ghost function Remainder(l: Matrix, a: Matrix, n: nat, j: nat): real
    requires IsSquare(l, n) && IsSquare(a, n) && j < n
  {
    a[j][j] - Dot(l[j], l[j], j)
  }

  // A pivot that is not clearly positive: the factor up to it, and what is left of the diagonal entry.
  ghost predicate BadPivot(a: Matrix, n: nat, j: nat) {
    IsSquare(a, n) && j < n && exists l :: Progress(l, a, n, j, j) && Remainder(l, a, n, j) <= THRESHOLD
  }

  // One factor up to the pivot decides.
  lemma PivotDecided(l: Matrix, a: Matrix, n: nat, j: nat)
    requires Progress(l, a, n, j, j) && j < n
    ensures BadPivot(a, n, j) <==> Remainder(l, a, n, j) <= THRESHOLD
  {
    if BadPivot(a, n, j) {
      var m :| Progress(m, a, n, j, j) && Remainder(m, a, n, j) <= THRESHOLD;
      FactorUnique(l, m, a, n, j, j);
      DotAgrees(l[j], l[j], m[j], m[j], j);
    }
  }

  /** A single equation is refused iff its coefficient is at most 1e-12. */
  lemma SinglePivot(d: real)
    ensures BadPivot([[d]], 1, 0) <==> d <= 0.000000000001
  {
    PivotDecided([[d]], [[d]], 1, 0);
  }

  // The pivot of column j, unless it is not clearly positive.
  method FactorPivot(a: array2<real>, n: nat, j: nat, sqrt: real -> real, ghost start: Matrix) returns (ok: bool)
    requires a.Length0 == a.Length1 == n && j < n && Progress(Rows(a), start, n, j, j) && IsSqrt(sqrt)
    modifies a
    ensures ok ==> Progress(Rows(a), start, n, j, j + 1)
    ensures ok <==> !BadPivot(start, n, j)
  {
    PivotDecided(Rows(a), start, n, j);
    var d := Reduced(a, j, j);
    assert EntryOk(Rows(a), start, n, j, j, j, j);
    ok := d > THRESHOLD;
    if ok {
      ProgressPut(Rows(a), start, n, j, j, sqrt(d));
      Write(a, j, j, sqrt(d));
    }
  }

  lemma NothingDone(a: Matrix, n: nat)
    requires IsSquare(a, n)
    ensures Progress(a, a, n, 0, 0)
  {
  }

  ghost predicate FirstBadPivot(a: Matrix, n: nat, j: nat) {
    BadPivot(a, n, j) && forall k :: 0 <= k < j ==> !BadPivot(a, n, k)
  }

  method Factorize(a: array2<real>, n: nat, sqrt: real -> real) returns (bad: Option<nat>)
    requires a.Length0 == a.Length1 == n && IsSqrt(sqrt)
    modifies a
    ensures bad.None? ==> Progress(Rows(a), old(Rows(a)), n, n, n) && forall j :: !BadPivot(old(Rows(a)), n, j)
    ensures bad.Some? ==> FirstBadPivot(old(Rows(a)), n, bad.value)
  {
    ghost var start := Rows(a);
    NothingDone(start, n);
    var j := 0;
    while j < n
      invariant 0 <= j <= n && Progress(Rows(a), start, n, j, j)
      invariant forall k :: 0 <= k < j ==> !BadPivot(start, n, k)
    {
      var ok := FactorPivot(a, n, j, sqrt, start);
      if !ok {
        return Some(j);
      }
      FactorColumn(a, n, j, start);
      j := j + 1;
    }
    return None;
  }

  // ----- Substitution -----

  // A lower triangle without zeros on the diagonal.
  ghost predicate Triangular(l: Matrix, n: nat) {
    IsSquare(l, n) && forall k :: 0 <= k < n ==> l[k][k] > 0.0
  }

  // The rows before i are solved, the others hold the right-hand side.
  ghost predicate ForwardTo(l: Matrix, y: Vector, b: Vector, n: nat, i: nat) {
    && IsSquare(l, n) && |y| == n && |b| == n && i <= n
    && (forall r :: 0 <= r < i ==> Dot(l[r], y, r + 1) == b[r])
    && (forall r :: i <= r < n ==> y[r] == b[r])
  }

  lemma ForwardStep(l: Matrix, y: Vector, b: Vector, n: nat, i: nat, v: real)
    requires Triangular(l, n) && ForwardTo(l, y, b, n, i) && i < n
    requires Times(v, l[i][i]) == b[i] - Dot(l[i], y, i)
    ensures ForwardTo(l, y[i := v], b, n, i + 1)
  {
    hide Times;
    var z := y[i := v];
    forall r | 0 <= r <= i ensures Dot(l[r], z, r + 1) == b[r] {
      DotAgrees(l[r], y, l[r], z, r);
      assert r < i ==> Dot(l[r], y, r + 1) == b[r] && z[r] == y[r];
      TimesCommutes(z[i], l[i][i]);
    }
  }

  method ForwardSum(a: array2<real>, b: array<real>, n: nat, i: nat) returns (s: real)
    requires a.Length0 == a.Length1 == b.Length == n && i < n
    ensures s == b[i] - Dot(Rows(a)[i], b[..], i)
  {
    s := b[i];
    var k := 0;
    while k < i
      invariant 0 <= k <= i && s == b[i] - Dot(Rows(a)[i], b[..], k)
    {
      s := s - a[i, k] * b[k];
      k := k + 1;
    }
  }

  method Forward(a: array2<real>, b: array<real>, n: nat)
    requires a.Length0 == a.Length1 == b.Length == n && Triangular(Rows(a), n)
    modifies b
    ensures ForwardTo(Rows(a), b[..], old(b[..]), n, n)
  {
    ghost var l, start := Rows(a), b[..];
    var i := 0;
    while i < n
      invariant 0 <= i <= n && ForwardTo(l, b[..], start, n, i)
    {
      var s := ForwardSum(a, b, n, i);
      QuotientTimes(s, a[i, i]);
      ForwardStep(l, b[..], start, n, i, s / a[i, i]);
      b[i] := s / a[i, i];
      i := i + 1;
    }
  }

  // The lower triangle, with zeros above the diagonal.
  function Lower(l: Matrix, n: nat): (t: Matrix)
    requires |l| == n && forall r :: 0 <= r < n ==> |l[r]| == n
    ensures |t| == n && forall r :: 0 <= r < n ==> |t[r]| == n
  {
    seq(n, i requires 0 <= i < n => seq(n, m requires 0 <= m < n => if m <= i then l[i][m] else 0.0))
  }

  // The rows from i on are solved, those before hold the right-hand side.
  ghost predicate BackwardTo(l: Matrix, x: Vector, y: Vector, n: nat, i: nat) {
    && IsSquare(l, n) && |x| == n && |y| == n && i <= n
    && (forall r :: i <= r < n ==> Dot(Column(Lower(l, n), n, r), x, n) == y[r])
    && (forall r :: 0 <= r < i ==> x[r] == y[r])
  }

  lemma {:induction false} DotIgnores(c: Vector, x: Vector, i: nat, v: real, n: nat)
    requires i < |x| && n <= |c| && n <= |x| && (i < n ==> c[i] == 0.0)
    ensures Dot(c, x[i := v], n) == Dot(c, x, n)
  {
    if n > 0 {
      DotIgnores(c, x, i, v, n - 1);
      if n - 1 == i {
        ZeroTimes(c[i], v);
        ZeroTimes(c[i], x[i]);
      }
    }
  }

  // Changing an early component changes the product only up to there.
  lemma {:induction false} TailAgrees(c: Vector, x: Vector, i: nat, v: real, m: nat, n: nat)
    requires i < m <= n && n <= |c| && n <= |x|
    ensures Dot(c, x[i := v], n) - Dot(c, x[i := v], m) == Dot(c, x, n) - Dot(c, x, m)
  {
    hide Times;
    if m < n {
      TailAgrees(c, x, i, v, m, n - 1);
    }
  }

  lemma BackwardStep(l: Matrix, x: Vector, y: Vector, n: nat, i: nat, v: real)
    requires Triangular(l, n) && BackwardTo(l, x, y, n, i + 1) && i < n
    requires var c := Column(Lower(l, n), n, i); Times(v, l[i][i]) == y[i] - (Dot(c, x, n) - Dot(c, x, i + 1))
    ensures BackwardTo(l, x[i := v], y, n, i)
  {
    hide Times;
    var z := x[i := v];
    forall r | i < r < n ensures Dot(Column(Lower(l, n), n, r), z, n) == y[r] {
      DotIgnores(Column(Lower(l, n), n, r), x, i, v, n);
    }
    BackwardRow(l, x, y, n, i, v);
  }

  lemma BackwardRow(l: Matrix, x: Vector, y: Vector, n: nat, i: nat, v: real)
    requires Triangular(l, n) && |x| == n && |y| == n && i < n
    requires var c := Column(Lower(l, n), n, i); Times(v, l[i][i]) == y[i] - (Dot(c, x, n) - Dot(c, x, i + 1))
    ensures Dot(Column(Lower(l, n), n, i), x[i := v], n) == y[i]
  {
    hide Times;
    var z, c := x[i := v], Column(Lower(l, n), n, i);
    TailAgrees(c, x, i, v, i + 1, n);
    DotZeros(c, z, 0, i);
    assert Dot(c, z, i + 1) == Times(c[i], v) by {
      assert Dot(c, z, i) == 0.0;
    }
    TimesCommutes(v, l[i][i]);
  }

  method BackwardSum(a: array2<real>, b: array<real>, n: nat, i: nat) returns (s: real)
    requires a.Length0 == a.Length1 == b.Length == n && i < n
    ensures var c := Column(Lower(Rows(a), n), n, i); s == b[i] - (Dot(c, b[..], n) - Dot(c, b[..], i + 1))
  {
    ghost var c, x := Column(Lower(Rows(a), n), n, i), b[..];
    s := b[i];
    var k := i + 1;
    while k < n
      invariant i < k <= n && s == b[i] - (Dot(c, x, k) - Dot(c, x, i + 1))
    {
      assert c[k] == a[k, i] && x[k] == b[k];
      s := s - a[k, i] * b[k];
      k := k + 1;
    }
  }

  method Backward(a: array2<real>, b: array<real>, n: nat)
    requires a.Length0 == a.Length1 == b.Length == n && Triangular(Rows(a), n)
    modifies b
    ensures BackwardTo(Rows(a), b[..], old(b[..]), n, 0)
  {
    ghost var l, start := Rows(a), b[..];
    var i := n;
    while i > 0
      invariant 0 <= i <= n && BackwardTo(l, b[..], start, n, i)
    {
      i := i - 1;
      var s := BackwardSum(a, b, n, i);
      QuotientTimes(s, a[i, i]);
      BackwardStep(l, b[..], start, n, i, s / a[i, i]);
      b[i] := s / a[i, i];
    }
  }

  // ----- The solution -----

  // The symmetric matrix with the same lower triangle.
  function Mirrored(a: Matrix, n: nat): (m: Matrix)
    requires |a| == n && forall r :: 0 <= r < n ==> |a[r]| == n
    ensures IsSquare(m, n)
  {
    seq(n, i requires 0 <= i < n => seq(n, j requires 0 <= j < n => if j <= i then a[i][j] else a[j][i]))
  }

  lemma MirroredIsSame(a: Matrix, n: nat)
    requires IsSquare(a, n) && IsSymmetric(a, n)
    ensures Mirrored(a, n) == a
  {
    forall i | 0 <= i < n ensures Mirrored(a, n)[i] == a[i] {
    }
  }

  lemma FactorEntry(l: Matrix, a: Matrix, n: nat, i: nat, k: nat)
    requires Progress(l, a, n, n, n) && i < n && k < n
    ensures Mirrored(a, n)[i][k] == Dot(Lower(l, n)[i], Lower(l, n)[k], n)
  {
    var t := Lower(l, n);
    var hi, lo := if k <= i then i else k, if k <= i then k else i;
    assert EntryOk(l, a, n, n, n, hi, lo);
    DotZeros(t[hi], t[lo], lo + 1, n);
    DotAgrees(t[hi], t[lo], l[hi], l[lo], lo + 1);
    DotCommutes(t[hi], t[lo], n);
  }

  lemma ForwardRow(l: Matrix, y: Vector, b: Vector, n: nat, i: nat)
    requires ForwardTo(l, y, b, n, n) && i < n
    ensures Dot(Lower(l, n)[i], y, n) == b[i]
  {
    DotZeros(Lower(l, n)[i], y, i + 1, n);
    DotAgrees(Lower(l, n)[i], y, l[i], y, i + 1);
  }

  /** Solving with the factor and then with its transpose solves the system. */
  lemma SubstitutionsSolve(l: Matrix, a: Matrix, x: Vector, y: Vector, b: Vector, n: nat)
    requires Progress(l, a, n, n, n)
    requires ForwardTo(l, y, b, n, n) && BackwardTo(l, x, y, n, 0)
    ensures Solves(Mirrored(a, n), x, b, n)
  {
    var t, m := Lower(l, n), Mirrored(a, n);
    forall i | 0 <= i < n ensures Dot(m[i], x, n) == b[i] {
      forall k | 0 <= k < n ensures m[i][k] == Dot(t[i], t[k], n) {
        FactorEntry(l, a, n, i, k);
      }
      ProductsExchange(t[i], t, x, y, m[i], n);
      ForwardRow(l, y, b, n, i);
    }
  }

  /**
   Without a bad pivot the solution of the original system replaces the right-hand side; otherwise this stays and
   the first bad pivot is reported. Only the lower triangle is read.
   */
  method CholeskySolve(a: array2<real>, b: array<real>, n: nat, sqrt: real -> real) returns (bad: Option<nat>)
    requires a.Length0 == a.Length1 == b.Length == n && IsSqrt(sqrt)
    modifies a, b
    ensures bad.None? ==> Solves(Mirrored(old(Rows(a)), n), b[..], old(b[..]), n)
    ensures bad.None? && IsSymmetric(old(Rows(a)), n) ==> Solves(old(Rows(a)), b[..], old(b[..]), n)
    ensures bad.None? <==> forall j :: !BadPivot(old(Rows(a)), n, j)
    ensures bad.Some? ==> b[..] == old(b[..]) && FirstBadPivot(old(Rows(a)), n, bad.value)
  {
    ghost var start, right := Rows(a), b[..];
    bad := Factorize(a, n, sqrt);
    if bad.Some? {
      return;
    }
    Forward(a, b, n);
    ghost var y := b[..];
    Backward(a, b, n);
    SubstitutionsSolve(Rows(a), start, b[..], y, right, n);
    if IsSymmetric(start, n) {
      MirroredIsSame(start, n);
    }
  }
}
