/** The accumulator of the normal equations: observations are added one by one, or two accumulators are merged. */
module Normals {
  import opened Results
  import opened Linear
  import opened Cholesky
  import opened LeastSquares

  // ----- Observations with few features -----

  // Feature numbers and values, without the constant feature.
  type Features = seq<(nat, real)>

  ghost predicate AscendingBelow(feats: Features, bound: nat) {
    && (forall a, b :: 0 <= a < b < |feats| ==> feats[a].0 < feats[b].0)
    && (forall a :: 0 <= a < |feats| ==> feats[a].0 < bound)
  }

  ghost function ValueTo(feats: Features, i: nat, m: nat): real
    requires m <= |feats|
  {
    if m == 0 then 0.0 else if feats[m - 1].0 == i then feats[m - 1].1 else ValueTo(feats, i, m - 1)
  }

  // All features, the last of which is the constant one.
  ghost function Dense(feats: Features, n: nat): (x: Vector)
    ensures |x| == n
  {
    seq(n, i requires 0 <= i < n => if i == n - 1 then 1.0 else ValueTo(feats, i, |feats|))
  }

  lemma {:induction false} ValueOfFeature(feats: Features, bound: nat, k: nat, m: nat)
    requires AscendingBelow(feats, bound) && k < m <= |feats|
    ensures ValueTo(feats, feats[k].0, m) == feats[k].1
  {
    if k < m - 1 {
      ValueOfFeature(feats, bound, k, m - 1);
    }
  }

  lemma {:induction false} ValueOfOther(feats: Features, i: nat, m: nat)
    requires m <= |feats| && forall a :: 0 <= a < m ==> feats[a].0 != i
    ensures ValueTo(feats, i, m) == 0.0
  {
    if m > 0 {
      ValueOfOther(feats, i, m - 1);
    }
  }

  // One past the last of the first a features.
  function Reach(feats: Features, a: nat): nat
    requires a <= |feats|
  {
    if a == 0 then 0 else feats[a - 1].0 + 1
  }

  // Between two neighbouring features all values are zero.
  lemma ZeroBetween(feats: Features, n: nat, a: nat, k: nat)
    requires n > 0 && AscendingBelow(feats, n - 1) && a <= |feats| && Reach(feats, a) <= k < n - 1
    requires a < |feats| ==> k < feats[a].0
    ensures Dense(feats, n)[k] == 0.0
  {
    forall b | 0 <= b < |feats| ensures feats[b].0 != k {
      assert b < a - 1 ==> feats[b].0 < feats[a - 1].0;
      assert a < b ==> feats[a].0 < feats[b].0;
    }
    ValueOfOther(feats, k, |feats|);
  }

  lemma DenseAt(feats: Features, n: nat, a: nat)
    requires n > 0 && AscendingBelow(feats, n - 1) && a < |feats|
    ensures Dense(feats, n)[feats[a].0] == feats[a].1
    ensures Reach(feats, a) <= feats[a].0
  {
    ValueOfFeature(feats, n - 1, a, |feats|);
    assert a > 0 ==> feats[a - 1].0 < feats[a].0;
  }

  // ----- What weights predict from the features -----

  // The weighted features.
  ghost function Weighing(w: Vector, feats: Features): real
    requires forall a :: 0 <= a < |feats| ==> feats[a].0 < |w|
  {
    if feats == [] then 0.0
    else
      var last := feats[|feats| - 1];
      Weighing(w, feats[..|feats| - 1]) + Times(w[last.0], last.1)
  }

  lemma {:induction false} DotPut(w: Vector, x: Vector, i: nat, v: real, n: nat)
    requires n <= |w| && n <= |x| && i < |x| && x[i] == 0.0
    ensures Dot(w, x[i := v], n) == Dot(w, x, n) + if i < n then Times(w[i], v) else 0.0
  {
    hide Times;
    if n > 0 {
      DotPut(w, x, i, v, n - 1);
      ZeroTimes(w[n - 1], 0.0);
    }
  }

  lemma {:induction false} ValueInFront(feats: Features, i: nat, m: nat)
    requires m < |feats|
    ensures ValueTo(feats[..|feats| - 1], i, m) == ValueTo(feats, i, m)
  {
    if m > 0 {
      ValueInFront(feats, i, m - 1);
    }
  }

  // One feature more changes one component, which was zero.
  lemma DenseGrows(feats: Features, n: nat)
    requires n > 0 && AscendingBelow(feats, n - 1) && feats != []
    ensures var front, last := feats[..|feats| - 1], feats[|feats| - 1];
            && AscendingBelow(front, n - 1) && Dense(front, n)[last.0] == 0.0
            && Dense(feats, n) == Dense(front, n)[last.0 := last.1]
  {
    var m := |feats| - 1;
    ValueOfOther(feats[..m], feats[m].0, m);
    forall i | 0 <= i < n ensures Dense(feats, n)[i] == Dense(feats[..m], n)[feats[m].0 := feats[m].1][i] {
      ValueInFront(feats, i, m);
    }
  }

  lemma {:induction false} DotDense(w: Vector, feats: Features, n: nat)
    requires n > 0 && |w| == n && AscendingBelow(feats, n - 1)
    ensures Dot(w, Dense(feats, n), n) == w[n - 1] + Weighing(w, feats)
  {
    if feats == [] {
      DotZeros(w, Dense(feats, n), 0, n - 1);
    } else {
      var front, last := feats[..|feats| - 1], feats[|feats| - 1];
      DenseGrows(feats, n);
      DotDense(w, front, n);
      DotPut(w, Dense(front, n), last.0, last.1, n);
    }
  }

  /** What weights leave unexplained of an observation: its outcome less the constant and the weighted features. */
  lemma ResidualIs(w: Vector, feats: Features, y: real, n: nat)
    requires n > 0 && |w| == n && AscendingBelow(feats, n - 1)
    ensures Residual(Sample(Dense(feats, n), y), w, n) == y - (w[n - 1] + Weighing(w, feats))
  {
    DotDense(w, feats, n);
  }

  // ----- Adding an observation to the upper triangle -----

  // The first r rows have been added.
  ghost predicate RowsAdded(m: Matrix, start: Matrix, x: Vector, n: nat, r: nat) {
    && IsSquare(m, n) && IsSquare(start, n) && |x| == n
    && forall i, j :: 0 <= i <= j < n ==> m[i][j] == if i < r then start[i][j] + Times(x[i], x[j]) else start[i][j]
  }

  // The first c columns of row i have been added.
  ghost predicate ColumnsAdded(m: Matrix, start: Matrix, x: Vector, n: nat, i: nat, c: nat) {
    && IsSquare(m, n) && IsSquare(start, n) && |x| == n && i < n
    && (forall r, j :: 0 <= r <= j < n && r != i ==> m[r][j] == start[r][j])
    && (forall j :: i <= j < n ==> m[i][j] == if j < c then start[i][j] + Times(x[i], x[j]) else start[i][j])
  }

  lemma SkipRows(m: Matrix, start: Matrix, x: Vector, n: nat, r: nat, next: nat)
    requires RowsAdded(m, start, x, n, r) && r <= next <= n && forall k :: r <= k < next ==> x[k] == 0.0
    ensures RowsAdded(m, start, x, n, next)
  {
    hide Times;
    forall i, j | 0 <= i <= j < n ensures m[i][j] == if i < next then start[i][j] + Times(x[i], x[j]) else start[i][j] {
      assert r <= i < next ==> x[i] == 0.0;
      if r <= i < next {
        ZeroTimes(x[i], x[j]);
      }
    }
  }

  lemma SkipColumns(m: Matrix, start: Matrix, x: Vector, n: nat, i: nat, c: nat, next: nat)
    requires ColumnsAdded(m, start, x, n, i, c) && c <= next <= n && forall k :: c <= k < next ==> x[k] == 0.0
    ensures ColumnsAdded(m, start, x, n, i, next)
  {
    hide Times;
    forall j | i <= j < n ensures m[i][j] == if j < next then start[i][j] + Times(x[i], x[j]) else start[i][j] {
      if c <= j < next {
        ZeroTimes(x[i], x[j]);
      }
    }
  }

  lemma PutColumn(m: Matrix, start: Matrix, x: Vector, n: nat, i: nat, j: nat, v: real)
    requires ColumnsAdded(m, start, x, n, i, j) && i <= j < n && v == m[i][j] + Times(x[i], x[j])
    ensures ColumnsAdded(Put(m, n, i, j, v), start, x, n, i, j + 1)
  {
    hide Times;
  }

  lemma RowDone(m: Matrix, before: Matrix, start: Matrix, x: Vector, n: nat, i: nat)
    requires RowsAdded(before, start, x, n, i) && ColumnsAdded(m, before, x, n, i, n)
    ensures RowsAdded(m, start, x, n, i + 1)
  {
    hide Times;
    forall r, j | 0 <= r <= j < n
      ensures m[r][j] == if r < i + 1 then start[r][j] + Times(x[r], x[j]) else start[r][j]
    {
      var product := Times(x[r], x[j]);
      assert before[r][j] == if r < i then start[r][j] + product else start[r][j];
      assert m[r][j] == if r == i then before[r][j] + product else before[r][j];
    }
  }

  // The same for the products with the outcome.
  ghost predicate MomentsAdded(v: Vector, start: Vector, x: Vector, y: real, n: nat, r: nat) {
    && |v| == n && |start| == n && |x| == n
    && forall i :: 0 <= i < n ==> v[i] == if i < r then start[i] + Times(x[i], y) else start[i]
  }

  lemma SkipMoments(v: Vector, start: Vector, x: Vector, y: real, n: nat, r: nat, next: nat)
    requires MomentsAdded(v, start, x, y, n, r) && r <= next <= n && forall k :: r <= k < next ==> x[k] == 0.0
    ensures MomentsAdded(v, start, x, y, n, next)
  {
    hide Times;
    forall i | 0 <= i < n ensures v[i] == if i < next then start[i] + Times(x[i], y) else start[i] {
      if r <= i < next {
        ZeroTimes(x[i], y);
      }
    }
  }

  lemma {:induction false} SumsConcat(a: Data, b: Data, n: nat, i: nat, j: nat)
    requires OfSize(a, n) && OfSize(b, n) && OfSize(a + b, n) && i < n && j < n
    ensures XX(a + b, n, i, j) == XX(a, n, i, j) + XX(b, n, i, j)
    ensures XY(a + b, n, i) == XY(a, n, i) + XY(b, n, i)
    ensures SumY(a + b) == SumY(a) + SumY(b) && SumYY(a + b) == SumYY(a) + SumYY(b)
  {
    hide Times;
    if b == [] {
      assert a + b == a;
    } else {
      assert Front(a + b) == a + Front(b);
      SumsConcat(a, Front(b), n, i, j);
    }
  }

  lemma SizesConcat(a: Data, b: Data, n: nat)
    requires OfSize(a, n) && OfSize(b, n)
    ensures OfSize(a + b, n)
  {
  }

  lemma SumsOfOne(s: Sample, n: nat, i: nat, j: nat)
    requires |s.x| == n && i < n && j < n
    ensures OfSize([s], n) && XX([s], n, i, j) == Times(s.x[i], s.x[j]) && XY([s], n, i) == Times(s.x[i], s.y)
    ensures SumY([s]) == s.y && SumYY([s]) == Times(s.y, s.y)
  {
    hide Times;
    assert Front([s]) == [];
  }

  // One more row of the quadratic form: the square on the diagonal and the products to its right.
  lemma QuadRow(w: Vector, m: Matrix, n: nat, i: nat, d: real)
    requires |w| == n && IsSquare(m, n) && i < n && m[i][i] == d
    ensures QuadTo(w, m, n, i + 1) == QuadTo(w, m, n, i) + Times(Times(w[i], w[i]), d) + UpperTo(w, m, n, i, n)
  {
  }

  // The features between two that are listed are zero and add nothing.
  lemma SkipToFeature(feats: Features, a: nat, m: Matrix, rows: Matrix, v: Vector, moments: Vector, y: real, n: nat)
    requires n > 0 && AscendingBelow(feats, n - 1) && a < |feats|
    requires RowsAdded(m, rows, Dense(feats, n), n, Reach(feats, a))
    requires MomentsAdded(v, moments, Dense(feats, n), y, n, Reach(feats, a))
    ensures RowsAdded(m, rows, Dense(feats, n), n, feats[a].0)
    ensures MomentsAdded(v, moments, Dense(feats, n), y, n, feats[a].0)
  {
    var x := Dense(feats, n);
    DenseAt(feats, n, a);
    forall k | Reach(feats, a) <= k < feats[a].0 ensures x[k] == 0.0 {
      ZeroBetween(feats, n, a, k);
    }
    hide RowsAdded, MomentsAdded;
    SkipRows(m, rows, x, n, Reach(feats, a), feats[a].0);
    SkipMoments(v, moments, x, y, n, Reach(feats, a), feats[a].0);
  }

  class Normal {
    const n: nat
    const xtx: array2<real>
    const xty: array<real>
    var samples: nat
    var sumY: real
    var sumYY: real
    ghost var data: Data

    ghost predicate Sizes() {
      n > 0 && xtx.Length0 == n && xtx.Length1 == n && xty.Length == n
    }

    // What is stored are the sums over the observations; of the matrix only the upper triangle.
    ghost predicate Valid()
      reads this, xtx, xty
    {
      && Sizes() && OfSize(data, n)
      && samples == |data| && sumY == SumY(data) && sumYY == SumYY(data)
      && (forall i, j :: 0 <= i <= j < n ==> xtx[i, j] == XX(data, n, i, j))
      && (forall i :: 0 <= i < n ==> xty[i] == XY(data, n, i))
    }

    constructor (n: nat)
      requires n > 0
      ensures Valid() && fresh(xtx) && fresh(xty) && this.n == n && data == []
    {
      this.n, samples, sumY, sumYY, data := n, 0, 0.0, 0.0, [];
      xtx := new real[n, n]((_, _) => 0.0);
      xty := new real[n](_ => 0.0);
    }

    // ----- Adding an observation -----

    method Add(feats: Features, y: real)
      requires Valid() && AscendingBelow(feats, n - 1)
      modifies this, xtx, xty
      ensures Valid() && data == old(data) + [Sample(Dense(feats, n), y)]
    {
      ghost var rows, moments := Rows(xtx), xty[..];
      AddProducts(feats, y);
      samples := samples + 1;
      sumY := sumY + y;
      sumYY := sumYY + y * y;
      Extend(Sample(Dense(feats, n), y), rows, moments);
    }

    // The bookkeeping behind an added observation.
    ghost method Extend(s: Sample, rows: Matrix, moments: Vector)
      requires Sizes() && |s.x| == n && OfSize(data, n)
      requires RowsAdded(Rows(xtx), rows, s.x, n, n) && MomentsAdded(xty[..], moments, s.x, s.y, n, n)
      requires forall i, j :: 0 <= i <= j < n ==> rows[i][j] == XX(data, n, i, j)
      requires forall i :: 0 <= i < n ==> moments[i] == XY(data, n, i)
      requires samples == |data| + 1 && sumY == SumY(data) + s.y && sumYY == SumYY(data) + Times(s.y, s.y)
      modifies this`data
      ensures Valid() && data == old(data) + [s]
    {
      ghost var before := data;
      SizesConcat(before, [s], n);
      data := data + [s];
      forall i, j | 0 <= i <= j < n ensures xtx[i, j] == XX(data, n, i, j) {
        SumsConcat(before, [s], n, i, j);
        SumsOfOne(s, n, i, j);
      }
      forall i | 0 <= i < n ensures xty[i] == XY(data, n, i) {
        SumsConcat(before, [s], n, i, i);
        SumsOfOne(s, n, i, i);
      }
      SumsConcat(before, [s], n, 0, 0);
      SumsOfOne(s, n, 0, 0);
    }

    method AddProducts(feats: Features, y: real)
      requires Sizes() && AscendingBelow(feats, n - 1)
      modifies xtx, xty
      ensures RowsAdded(Rows(xtx), old(Rows(xtx)), Dense(feats, n), n, n)
      ensures MomentsAdded(xty[..], old(xty[..]), Dense(feats, n), y, n, n)
    {
      ghost var x, rows, moments := Dense(feats, n), Rows(xtx), xty[..];
      var a := 0;
      while a < |feats|
        invariant 0 <= a <= |feats|
        invariant RowsAdded(Rows(xtx), rows, x, n, Reach(feats, a))
        invariant MomentsAdded(xty[..], moments, x, y, n, Reach(feats, a))
      {
        AddFeature(feats, a, y, rows, moments);
        a := a + 1;
      }
      forall k | Reach(feats, a) <= k < n - 1 ensures x[k] == 0.0 {
        ZeroBetween(feats, n, a, k);
      }
      SkipRows(Rows(xtx), rows, x, n, Reach(feats, a), n - 1);
      SkipMoments(xty[..], moments, x, y, n, Reach(feats, a), n - 1);
      AddConstant(x, y, rows, moments);
    }

    // The constant feature.
    method AddConstant(ghost x: Vector, y: real, ghost rows: Matrix, ghost moments: Vector)
      requires Sizes() && |x| == n && x[n - 1] == 1.0
      requires RowsAdded(Rows(xtx), rows, x, n, n - 1) && MomentsAdded(xty[..], moments, x, y, n, n - 1)
      modifies xtx, xty
      ensures RowsAdded(Rows(xtx), rows, x, n, n) && MomentsAdded(xty[..], moments, x, y, n, n)
    {
      xtx[n - 1, n - 1] := xtx[n - 1, n - 1] + 1.0;
      xty[n - 1] := xty[n - 1] + y;
    }

    // Feature a: its product with the outcome, and its row of the matrix.
    method AddFeature(feats: Features, a: nat, y: real, ghost rows: Matrix, ghost moments: Vector)
      requires Sizes() && AscendingBelow(feats, n - 1) && a < |feats|
      requires RowsAdded(Rows(xtx), rows, Dense(feats, n), n, Reach(feats, a))
      requires MomentsAdded(xty[..], moments, Dense(feats, n), y, n, Reach(feats, a))
      modifies xtx, xty
      ensures RowsAdded(Rows(xtx), rows, Dense(feats, n), n, Reach(feats, a + 1))
      ensures MomentsAdded(xty[..], moments, Dense(feats, n), y, n, Reach(feats, a + 1))
    {
      ghost var x := Dense(feats, n);
      var i, v := feats[a].0, feats[a].1;
      DenseAt(feats, n, a);
      SkipToFeature(feats, a, Rows(xtx), rows, xty[..], moments, y, n);
      hide Dense, Rows, RowsAdded, ColumnsAdded;
      xty[i] := xty[i] + v * y;
      ghost var before := Rows(xtx);
      AddRow(feats, a);
      RowDone(Rows(xtx), before, rows, x, n, i);
    }

    method AddRow(feats: Features, a: nat)
      requires Sizes() && AscendingBelow(feats, n - 1) && a < |feats|
      modifies xtx
      ensures ColumnsAdded(Rows(xtx), old(Rows(xtx)), Dense(feats, n), n, feats[a].0, n)
    {
      ghost var x, before := Dense(feats, n), Rows(xtx);
      var i := feats[a].0;
      DenseAt(feats, n, a);
      var b := a;
      while b < |feats|
        invariant a <= b <= |feats|
        invariant ColumnsAdded(Rows(xtx), before, x, n, i, if b == a then i else Reach(feats, b))
      {
        AddEntry(feats, a, b, before);
        b := b + 1;
      }
      forall k | Reach(feats, b) <= k < n - 1 ensures x[k] == 0.0 {
        ZeroBetween(feats, n, b, k);
      }
      SkipColumns(Rows(xtx), before, x, n, i, Reach(feats, b), n - 1);
      PutColumn(Rows(xtx), before, x, n, i, n - 1, xtx[i, n - 1] + feats[a].1);
      Write(xtx, i, n - 1, xtx[i, n - 1] + feats[a].1);
    }

    // The product of the features a and b.
    method AddEntry(feats: Features, a: nat, b: nat, ghost before: Matrix)
      requires Sizes() && AscendingBelow(feats, n - 1) && a <= b < |feats|
      requires ColumnsAdded(Rows(xtx), before, Dense(feats, n), n, feats[a].0,
                            if b == a then feats[a].0 else Reach(feats, b))
      modifies xtx
      ensures ColumnsAdded(Rows(xtx), before, Dense(feats, n), n, feats[a].0, Reach(feats, b + 1))
    {
      ghost var x := Dense(feats, n);
      ghost var from := if b == a then feats[a].0 else Reach(feats, b);
      var i, j := feats[a].0, feats[b].0;
      DenseAt(feats, n, a);
      DenseAt(feats, n, b);
      forall k | from <= k < j ensures x[k] == 0.0 {
        ZeroBetween(feats, n, b, k);
      }
      SkipColumns(Rows(xtx), before, x, n, i, from, j);
      PutColumn(Rows(xtx), before, x, n, i, j, xtx[i, j] + feats[a].1 * feats[b].1);
      Write(xtx, i, j, xtx[i, j] + feats[a].1 * feats[b].1);
    }

    // ----- Merging -----

    method Merge(other: Normal)
      requires Valid() && other.Valid() && other != this && other.n == n && other.xtx != xtx && other.xty != xty
      modifies this, xtx, xty
      ensures Valid() && data == old(data) + other.data
    {
      AddMatrix(other.xtx);
      AddVector(other.xty);
      samples := samples + other.samples;
      sumY := sumY + other.sumY;
      sumYY := sumYY + other.sumYY;
      ghost var before := data;
      SizesConcat(before, other.data, n);
      data := data + other.data;
      forall i, j | 0 <= i <= j < n ensures xtx[i, j] == XX(data, n, i, j) {
        SumsConcat(before, other.data, n, i, j);
      }
      forall i | 0 <= i < n ensures xty[i] == XY(data, n, i) {
        SumsConcat(before, other.data, n, i, i);
      }
      SumsConcat(before, other.data, n, 0, 0);
    }

    method AddMatrix(m: array2<real>)
      requires Sizes() && m != xtx && m.Length0 == n && m.Length1 == n
      modifies xtx
      ensures forall i, j :: 0 <= i < n && 0 <= j < n ==> xtx[i, j] == old(xtx[i, j]) + m[i, j]
    {
      var r := 0;
      while r < n
        invariant 0 <= r <= n
        invariant forall i, j :: 0 <= i < n && 0 <= j < n ==>
                    xtx[i, j] == if i < r then old(xtx[i, j]) + m[i, j] else old(xtx[i, j])
      {
        var c := 0;
        while c < n
          invariant 0 <= c <= n
          invariant forall i, j :: 0 <= i < n && 0 <= j < n ==>
            xtx[i, j] == if i < r || (i == r && j < c) then old(xtx[i, j]) + m[i, j] else old(xtx[i, j])
        {
          xtx[r, c] := xtx[r, c] + m[r, c];
          c := c + 1;
        }
        r := r + 1;
      }
    }

    method AddVector(v: array<real>)
      requires Sizes() && v != xty && v.Length == n
      modifies xty
      ensures forall i :: 0 <= i < n ==> xty[i] == old(xty[i]) + v[i]
    {
      var r := 0;
      while r < n
        invariant 0 <= r <= n
        invariant forall i :: 0 <= i < n ==> xty[i] == if i < r then old(xty[i]) + v[i] else old(xty[i])
      {
        xty[r] := xty[r] + v[r];
        r := r + 1;
      }
    }

    // ----- Weights and their error -----

    /**
     Weights that solve the normal equations, and so have the least penalised error, or the feature without
     enough data.
     */
    method SolveFull(strength: real, sqrt: real -> real) returns (weights: Result<Vector, nat>)
      requires Valid() && IsSqrt(sqrt)
      ensures weights.Ok? <==> forall j :: !BadPivot(Ridge(data, strength, n), n, j)
      ensures weights.Err? ==> FirstBadPivot(Ridge(data, strength, n), n, weights.error)
      ensures weights.Ok? ==> |weights.value| == n && NormalEquations(data, strength, weights.value, n)
      ensures weights.Ok? && strength >= 0.0 ==>
                forall v: Vector :: |v| == n ==>
                  Objective(data, strength, weights.value, n) <= Objective(data, strength, v, n)
    {
      var a := Penalised(strength);
      var b := new real[n](i requires 0 <= i < n reads this, xty => xty[i]);
      assert b[..] == Moments(data, n);
      var bad := CholeskySolve(a, b, n, sqrt);
      if bad.Some? {
        return Err(bad.value);
      }
      forall v: Vector | |v| == n && strength >= 0.0
        ensures Objective(data, strength, b[..], n) <= Objective(data, strength, v, n)
      {
        SolutionIsLeast(data, strength, b[..], v, n);
      }
      return Ok(b[..]);
    }

    // The full symmetric matrix with the penalty on its diagonal.
    method Penalised(strength: real) returns (a: array2<real>)
      requires Valid()
      ensures fresh(a) && a.Length0 == n && a.Length1 == n && Rows(a) == Ridge(data, strength, n)
              && IsSymmetric(Rows(a), n)
    {
      a := new real[n, n]((_, _) => 0.0);
      var i := 0;
      while i < n
        invariant 0 <= i <= n && fresh(a)
        invariant forall r, c :: 0 <= r < n && 0 <= c < n && (r < i || c < i) ==>
                    a[r, c] == RidgeEntry(XX(data, n, r, c), strength, n, r, c)
      {
        FillRow(a, i, strength);
        i := i + 1;
      }
      forall r, c | 0 <= r < n && 0 <= c < n ensures Rows(a)[r][c] == Ridge(data, strength, n)[r][c] == Rows(a)[c][r] {
        XXCommutes(data, n, r, c);
      }
      forall r | 0 <= r < n ensures Rows(a)[r] == Ridge(data, strength, n)[r] {
      }
    }

    method FillRow(a: array2<real>, i: nat, strength: real)
      requires Valid() && i < n && a != xtx && a.Length0 == n && a.Length1 == n
      modifies a
      ensures forall r, c :: 0 <= r < n && 0 <= c < n && (r < i || c < i) ==> a[r, c] == old(a[r, c])
      ensures forall r, c :: 0 <= r < n && 0 <= c < n && (r == i || c == i) && r >= i && c >= i ==>
                a[r, c] == RidgeEntry(XX(data, n, r, c), strength, n, r, c)
    {
      var j := i;
      while j < n
        invariant i <= j <= n
        invariant forall r, c :: 0 <= r < n && 0 <= c < n && (r < i || c < i) ==> a[r, c] == old(a[r, c])
        invariant forall k :: i <= k < j ==> a[i, k] == XX(data, n, i, k) && a[k, i] == XX(data, n, k, i)
      {
        XXCommutes(data, n, i, j);
        var v := xtx[i, j];
        a[i, j] := v;
        a[j, i] := v;
        j := j + 1;
      }
      if i != n - 1 {
        a[i, i] := a[i, i] + strength;
      }
    }

    /** The mean squared error of the weights over all observations (none without observations). */
    method Mse(w: Vector) returns (mse: Option<real>)
      requires Valid() && |w| == n
      ensures mse == if |data| == 0 then None else Some(Error(data, w, n) / |data| as real)
    {
      if samples == 0 {
        return None;
      }
      hide Times;
      var quad := Quadratic(w);
      var cross := 0.0;
      var i := 0;
      while i < n
        invariant 0 <= i <= n && cross == Dot(w, Moments(data, n), i)
      {
        cross := cross + Times(w[i], xty[i]);
        i := i + 1;
      }
      ErrorFromSums(data, w, n);
      return Some((sumYY - 2.0 * cross + quad) / samples as real);
    }

    method Quadratic(w: Vector) returns (quad: real)
      requires Valid() && |w| == n
      ensures quad == QuadTo(w, Gram(data, n), n, n)
    {
      ghost var m := Gram(data, n);
      quad := 0.0;
      var i := 0;
      assert quad == QuadTo(w, m, n, i);
      hide QuadTo, UpperTo, Times;
      while i < n
        invariant 0 <= i <= n && quad == QuadTo(w, m, n, i)
      {
        var row := RowQuadratic(w, i);
        QuadRow(w, m, n, i, xtx[i, i]);
        quad := quad + Times(Times(w[i], w[i]), xtx[i, i]) + row;
        i := i + 1;
      }
    }

    method RowQuadratic(w: Vector, i: nat) returns (row: real)
      requires Valid() && |w| == n && i < n
      ensures row == UpperTo(w, Gram(data, n), n, i, n)
    {
      ghost var m := Gram(data, n);
      row := 0.0;
      var j := i + 1;
      while j < n
        invariant i < j <= n && row == UpperTo(w, m, n, i, j)
      {
        assert m[i][j] == xtx[i, j];
        row := row + 2.0 * w[i] * w[j] * xtx[i, j];
        j := j + 1;
      }
    }
  }
}
