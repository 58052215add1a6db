/**
 Ridge regression over exact reals: the sums kept of the observations determine the squared error of any
 weights, and weights that solve the normal equations have the least penalised error.
 */
module LeastSquares {
  import opened Linear

  // An observation: the features, the last of which is the constant one, and the outcome.
  datatype Sample = Sample(x: Vector, y: real)

  type Data = seq<Sample>

  ghost predicate OfSize(data: Data, n: nat) {
    forall s :: 0 <= s < |data| ==> |data[s].x| == n
  }

  function Front(data: Data): Data
    requires data != []
  {
    data[..|data| - 1]
  }

  function Last(data: Data): Sample
    requires data != []
  {
    data[|data| - 1]
  }

  // ----- What is kept of the observations -----

  ghost function XX(data: Data, n: nat, i: nat, j: nat): real
    requires OfSize(data, n) && i < n && j < n
  {
    if data == [] then 0.0 else XX(Front(data), n, i, j) + Times(Last(data).x[i], Last(data).x[j])
  }

  ghost function XY(data: Data, n: nat, i: nat): real
    requires OfSize(data, n) && i < n
  {
    if data == [] then 0.0 else XY(Front(data), n, i) + Times(Last(data).x[i], Last(data).y)
  }

  ghost function SumY(data: Data): real {
    if data == [] then 0.0 else SumY(Front(data)) + Last(data).y
  }

  ghost function SumYY(data: Data): real {
    if data == [] then 0.0 else SumYY(Front(data)) + Times(Last(data).y, Last(data).y)
  }

  ghost function GramRow(data: Data, n: nat, i: nat): (r: Vector)
    requires OfSize(data, n) && i < n
    ensures |r| == n
  {
    seq(n, j requires 0 <= j < n => XX(data, n, i, j))
  }

  ghost function Gram(data: Data, n: nat): (m: Matrix)
    requires OfSize(data, n)
    ensures IsSquare(m, n)
  {
    seq(n, i requires 0 <= i < n => GramRow(data, n, i))
  }

  ghost function Moments(data: Data, n: nat): (v: Vector)
    requires OfSize(data, n)
    ensures |v| == n
  {
    seq(n, i requires 0 <= i < n => XY(data, n, i))
  }

  // How far the prediction of the weights is off.
  ghost function Residual(s: Sample, w: Vector, n: nat): real
    requires |s.x| == n && |w| == n
  {
    s.y - Dot(w, s.x, n)
  }

  // The squared error of the weights.
  ghost function Error(data: Data, w: Vector, n: nat): real
    requires OfSize(data, n) && |w| == n
  {
    if data == [] then 0.0 else Error(Front(data), w, n) + Times(Residual(Last(data), w, n), Residual(Last(data), w, n))
  }

  lemma {:induction false} XXCommutes(data: Data, n: nat, i: nat, j: nat)
    requires OfSize(data, n) && i < n && j < n
    ensures XX(data, n, i, j) == XX(data, n, j, i)
  {
    if data != [] {
      XXCommutes(Front(data), n, i, j);
      TimesCommutes(Last(data).x[i], Last(data).x[j]);
    }
  }

  // ----- Linearity -----

  lemma DotAddsStep(total: real, part: real, c: real, rest: real, a: real, b: real, w: real)
    requires total == part + Times(c, rest)
    ensures total + Times(a + Times(c, b), w) == (part + Times(a, w)) + Times(c, rest + Times(b, w))
  {
    assert (a + c * b) * w == a * w + (c * b) * w;
    assert (c * b) * w == c * (b * w);
    assert c * (rest + b * w) == c * rest + c * (b * w);
  }

  // The product is linear in its first vector.
  lemma {:induction false} DotAdds(sum: Vector, r: Vector, c: real, x: Vector, w: Vector, n: nat)
    requires n <= |sum| && n <= |r| && n <= |x| && n <= |w|
    requires forall k :: 0 <= k < n ==> sum[k] == r[k] + Times(c, x[k])
    ensures Dot(sum, w, n) == Dot(r, w, n) + Times(c, Dot(x, w, n))
  {
    hide Times;
    if n == 0 {
      ZeroTimes(c, 0.0);
    } else {
      DotAdds(sum, r, c, x, w, n - 1);
      DotAddsStep(Dot(sum, w, n - 1), Dot(r, w, n - 1), c, Dot(x, w, n - 1), r[n - 1], x[n - 1], w[n - 1]);
    }
  }

  // ----- The error of given weights from the sums -----

  // The terms of row r right of the diagonal, up to column j.
  ghost function UpperTo(w: Vector, m: Matrix, n: nat, r: nat, j: nat): real
    requires |w| == n && IsSquare(m, n) && r < j <= n
  {
    if j == r + 1 then 0.0 else UpperTo(w, m, n, r, j - 1) + 2.0 * Times(Times(w[r], w[j - 1]), m[r][j - 1])
  }

  // The quadratic form, from the upper triangle, of the first i rows.
  ghost function QuadTo(w: Vector, m: Matrix, n: nat, i: nat): real
    requires |w| == n && IsSquare(m, n) && i <= n
  {
    if i == 0 then 0.0
    else QuadTo(w, m, n, i - 1) + Times(Times(w[i - 1], w[i - 1]), m[i - 1][i - 1]) + UpperTo(w, m, n, i - 1, n)
  }

  // The sums of one observation more: every entry grows by a product.
  ghost predicate Grows(sum: Matrix, m: Matrix, x: Vector, n: nat) {
    && IsSquare(sum, n) && IsSquare(m, n) && |x| == n
    && forall i, j :: 0 <= i < n && 0 <= j < n ==> sum[i][j] == m[i][j] + Times(x[i], x[j])
  }

  lemma EntryGrows(a: real, b: real, m: real, x: real, z: real)
    ensures Times(Times(a, b), m + Times(x, z)) == Times(Times(a, b), m) + Times(Times(a, x), Times(b, z))
  {
    var g := a * b;
    assert g * (m + x * z) == g * m + g * (x * z);
    assert g * (x * z) == a * (b * (x * z));
    assert b * (x * z) == x * (b * z);
    assert a * (x * (b * z)) == (a * x) * (b * z);
  }

  lemma TimesSum(p: real, q: real, e: real)
    ensures Times(p, q + e) == Times(p, q) + Times(p, e)
  {
  }

  // A row grows by twice the products of its first term with the others.
  lemma {:induction false} UpperGrows(w: Vector, sum: Matrix, m: Matrix, x: Vector, n: nat, r: nat, j: nat)
    requires |w| == n && Grows(sum, m, x, n) && r < j <= n
    ensures UpperTo(w, sum, n, r, j)
            == UpperTo(w, m, n, r, j) + 2.0 * Times(Times(w[r], x[r]), Dot(w, x, j) - Dot(w, x, r + 1))
  {
    hide Times;
    var p := Times(w[r], x[r]);
    if j == r + 1 {
      ZeroTimes(p, Dot(w, x, j) - Dot(w, x, r + 1));
    } else {
      UpperGrows(w, sum, m, x, n, r, j - 1);
      EntryGrows(w[r], w[j - 1], m[r][j - 1], x[r], x[j - 1]);
      var d, e := Dot(w, x, j - 1) - Dot(w, x, r + 1), Times(w[j - 1], x[j - 1]);
      TimesSum(p, d, e);
      assert Dot(w, x, j) - Dot(w, x, r + 1) == d + e;
    }
  }

  lemma SquareStep(s: real, t: real, p: real)
    ensures Times(s - t, s - t) - Times(s - (t + p), s - (t + p)) == Times(p, p) + 2.0 * Times(p, s - (t + p))
  {
    var q := s - (t + p);
    assert s - t == q + p;
    assert (q + p) * (q + p) == q * q + 2.0 * (p * q) + p * p;
  }

  // Together the rows grow by the square of the prediction.
  lemma {:induction false} QuadGrows(w: Vector, sum: Matrix, m: Matrix, x: Vector, n: nat, i: nat)
    requires |w| == n && Grows(sum, m, x, n) && i <= n
    ensures var s, left := Dot(w, x, n), Dot(w, x, n) - Dot(w, x, i);
            QuadTo(w, sum, n, i) == QuadTo(w, m, n, i) + Times(s, s) - Times(left, left)
  {
    hide Times;
    var s := Dot(w, x, n);
    if i == 0 {
      assert s - Dot(w, x, 0) == s;
    } else {
      var r := i - 1;
      QuadGrows(w, sum, m, x, n, r);
      UpperGrows(w, sum, m, x, n, r, n);
      EntryGrows(w[r], w[r], m[r][r], x[r], x[r]);
      SquareStep(s, Dot(w, x, r), Times(w[r], x[r]));
      assert Dot(w, x, i) == Dot(w, x, r) + Times(w[r], x[r]);
    }
  }

  lemma {:induction false} UpperOfNothing(w: Vector, m: Matrix, n: nat, r: nat, j: nat)
    requires |w| == n && IsSquare(m, n) && r < j <= n && forall r, c :: 0 <= r < n && 0 <= c < n ==> m[r][c] == 0.0
    ensures UpperTo(w, m, n, r, j) == 0.0
  {
    if j > r + 1 {
      UpperOfNothing(w, m, n, r, j - 1);
      ZeroTimes(Times(w[r], w[j - 1]), 0.0);
    }
  }

  lemma {:induction false} QuadOfNothing(w: Vector, m: Matrix, n: nat, i: nat)
    requires |w| == n && IsSquare(m, n) && i <= n && forall r, c :: 0 <= r < n && 0 <= c < n ==> m[r][c] == 0.0
    ensures QuadTo(w, m, n, i) == 0.0
  {
    if i > 0 {
      QuadOfNothing(w, m, n, i - 1);
      UpperOfNothing(w, m, n, i - 1, n);
      ZeroTimes(Times(w[i - 1], w[i - 1]), 0.0);
    }
  }

  lemma DotOfNothing(w: Vector, v: Vector, n: nat)
    requires n <= |w| && n <= |v| && forall k :: 0 <= k < n ==> v[k] == 0.0
    ensures Dot(w, v, n) == 0.0
  {
    DotZeros(w, v, 0, n);
  }

  lemma MomentsGrow(data: Data, w: Vector, n: nat)
    requires OfSize(data, n) && |w| == n && data != []
    ensures Dot(w, Moments(data, n), n)
            == Dot(w, Moments(Front(data), n), n) + Times(Last(data).y, Dot(w, Last(data).x, n))
  {
    hide Times;
    var s := Last(data);
    var m, f := Moments(data, n), Moments(Front(data), n);
    forall k | 0 <= k < n ensures m[k] == f[k] + Times(s.y, s.x[k]) {
      TimesCommutes(s.y, s.x[k]);
    }
    DotAdds(m, f, s.y, s.x, w, n);
    DotCommutes(w, m, n);
    DotCommutes(w, f, n);
    DotCommutes(w, s.x, n);
  }

  lemma GramGrows(data: Data, n: nat)
    requires OfSize(data, n) && data != []
    ensures Grows(Gram(data, n), Gram(Front(data), n), Last(data).x, n)
  {
  }

  lemma SquareOfDifference(y: real, p: real)
    ensures Times(y - p, y - p) == Times(y, y) - 2.0 * Times(y, p) + Times(p, p)
  {
    assert (y - p) * (y - p) == y * y - 2.0 * (y * p) + p * p;
  }

  /** The squared error follows from the sums alone. */
  lemma {:induction false} ErrorFromSums(data: Data, w: Vector, n: nat)
    requires OfSize(data, n) && |w| == n
    ensures Error(data, w, n) == SumYY(data) - 2.0 * Dot(w, Moments(data, n), n) + QuadTo(w, Gram(data, n), n, n)
  {
    hide Times, Dot, QuadTo;
    if data == [] {
      QuadOfNothing(w, Gram(data, n), n, n);
      DotOfNothing(w, Moments(data, n), n);
    } else {
      var s := Last(data);
      ErrorFromSums(Front(data), w, n);
      GramGrows(data, n);
      QuadGrows(w, Gram(data, n), Gram(Front(data), n), s.x, n, n);
      ZeroTimes(Dot(w, s.x, n) - Dot(w, s.x, n), Dot(w, s.x, n) - Dot(w, s.x, n));
      MomentsGrow(data, w, n);
      SquareOfDifference(s.y, Dot(w, s.x, n));
    }
  }

  // ----- The least penalised error -----

  // The penalty leaves out the last weight, the constant term.
  ghost function Penalty(strength: real, w: Vector, n: nat): real
    requires |w| == n && n > 0
  {
    Times(strength, Dot(w, w, n - 1))
  }

  ghost function Objective(data: Data, strength: real, w: Vector, n: nat): real
    requires OfSize(data, n) && |w| == n && n > 0
  {
    Error(data, w, n) + Penalty(strength, w, n)
  }

  // The matrix of the normal equations.
  function RidgeEntry(xx: real, strength: real, n: nat, i: nat, j: nat): real {
    if i == j && i != n - 1 then xx + strength else xx
  }

  ghost function Ridge(data: Data, strength: real, n: nat): (m: Matrix)
    requires OfSize(data, n)
    ensures IsSquare(m, n)
  {
    seq(n, i requires 0 <= i < n => seq(n, j requires 0 <= j < n => RidgeEntry(XX(data, n, i, j), strength, n, i, j)))
  }

  ghost predicate NormalEquations(data: Data, strength: real, w: Vector, n: nat)
    requires OfSize(data, n) && |w| == n
  {
    Solves(Ridge(data, strength, n), w, Moments(data, n), n)
  }

  function Plus(w: Vector, d: Vector, n: nat): (v: Vector)
    requires |w| == n && |d| == n
    ensures |v| == n
  {
    seq(n, i requires 0 <= i < n => w[i] + d[i])
  }

  // The residuals, weighted by feature i.
  ghost function Rest(data: Data, w: Vector, n: nat, i: nat): real
    requires OfSize(data, n) && |w| == n && i < n
  {
    if data == [] then 0.0 else Rest(Front(data), w, n, i) + Times(Residual(Last(data), w, n), Last(data).x[i])
  }

  ghost function Rests(data: Data, w: Vector, n: nat): (v: Vector)
    requires OfSize(data, n) && |w| == n
    ensures |v| == n
  {
    seq(n, i requires 0 <= i < n => Rest(data, w, n, i))
  }

  lemma GramRowGrows(data: Data, w: Vector, n: nat, i: nat)
    requires OfSize(data, n) && |w| == n && i < n && data != []
    ensures Dot(GramRow(data, n, i), w, n)
            == Dot(GramRow(Front(data), n, i), w, n) + Times(Last(data).x[i], Dot(w, Last(data).x, n))
  {
    hide Times, Dot;
    var row, front, x := GramRow(data, n, i), GramRow(Front(data), n, i), Last(data).x;
    forall k | 0 <= k < n ensures row[k] == front[k] + Times(x[i], x[k]) {
    }
    DotAdds(row, front, x[i], x, w, n);
    DotCommutes(x, w, n);
  }

  lemma DifferenceTimes(y: real, p: real, x: real)
    ensures Times(y - p, x) == Times(x, y) - Times(x, p)
  {
  }

  lemma {:induction false} RestIs(data: Data, w: Vector, n: nat, i: nat)
    requires OfSize(data, n) && |w| == n && i < n
    ensures Rest(data, w, n, i) == XY(data, n, i) - Dot(GramRow(data, n, i), w, n)
  {
    hide Times, Dot;
    if data == [] {
      DotCommutes(GramRow(data, n, i), w, n);
      DotOfNothing(w, GramRow(data, n, i), n);
    } else {
      RestIs(Front(data), w, n, i);
      GramRowGrows(data, w, n, i);
      DifferenceTimes(Last(data).y, Dot(w, Last(data).x, n), Last(data).x[i]);
    }
  }

  // The products of the residuals with the predictions of d.
  ghost function Cross(data: Data, w: Vector, d: Vector, n: nat): real
    requires OfSize(data, n) && |w| == n && |d| == n
  {
    if data == [] then 0.0 else Cross(Front(data), w, d, n) + Times(Residual(Last(data), w, n), Dot(d, Last(data).x, n))
  }

  lemma {:induction false} CrossIs(data: Data, w: Vector, d: Vector, n: nat)
    requires OfSize(data, n) && |w| == n && |d| == n
    ensures Cross(data, w, d, n) == Dot(Rests(data, w, n), d, n)
  {
    hide Times, Dot;
    if data == [] {
      DotCommutes(Rests(data, w, n), d, n);
      DotOfNothing(d, Rests(data, w, n), n);
    } else {
      var s := Last(data);
      CrossIs(Front(data), w, d, n);
      forall k | 0 <= k < n
        ensures Rests(data, w, n)[k] == Rests(Front(data), w, n)[k] + Times(Residual(s, w, n), s.x[k])
      {
      }
      DotAdds(Rests(data, w, n), Rests(Front(data), w, n), Residual(s, w, n), s.x, d, n);
      DotCommutes(s.x, d, n);
    }
  }

  ghost function Predictions(data: Data, d: Vector, n: nat): real
    requires OfSize(data, n) && |d| == n
  {
    if data == [] then 0.0 else Predictions(Front(data), d, n) + Times(Dot(d, Last(data).x, n), Dot(d, Last(data).x, n))
  }

  lemma SquarePositive(a: real)
    ensures Times(a, a) >= 0.0
  {
  }

  lemma {:induction false} PredictionsPositive(data: Data, d: Vector, n: nat)
    requires OfSize(data, n) && |d| == n
    ensures Predictions(data, d, n) >= 0.0
  {
    hide Times, Dot;
    if data != [] {
      PredictionsPositive(Front(data), d, n);
      SquarePositive(Dot(d, Last(data).x, n));
    }
  }

  lemma {:induction false} DotPlus(w: Vector, d: Vector, x: Vector, n: nat, m: nat)
    requires |w| == n && |d| == n && m <= n && m <= |x|
    ensures Dot(Plus(w, d, n), x, m) == Dot(w, x, m) + Dot(d, x, m)
  {
    hide Times;
    if m > 0 {
      DotPlus(w, d, x, n, m - 1);
      SumTimes(w[m - 1], d[m - 1], x[m - 1]);
    }
  }

  lemma SumTimes(a: real, b: real, x: real)
    ensures Times(a + b, x) == Times(a, x) + Times(b, x)
  {
  }

  // Other weights: the error changes by a linear and a quadratic term.
  lemma {:induction false} ErrorShifts(data: Data, w: Vector, d: Vector, n: nat)
    requires OfSize(data, n) && |w| == n && |d| == n
    ensures Error(data, Plus(w, d, n), n) == Error(data, w, n) - 2.0 * Cross(data, w, d, n) + Predictions(data, d, n)
  {
    hide Times, Dot;
    if data != [] {
      var s := Last(data);
      ErrorShifts(Front(data), w, d, n);
      DotPlus(w, d, s.x, n, n);
      SquareOfDifference(Residual(s, w, n), Dot(d, s.x, n));
      assert Residual(s, Plus(w, d, n), n) == Residual(s, w, n) - Dot(d, s.x, n);
    }
  }

  lemma SquareOfSum(a: real, b: real)
    ensures Times(a + b, a + b) == Times(a, a) + 2.0 * Times(a, b) + Times(b, b)
  {
    assert (a + b) * (a + b) == a * a + 2.0 * (a * b) + b * b;
  }

  lemma {:induction false} NormShifts(w: Vector, d: Vector, n: nat, m: nat)
    requires |w| == n && |d| == n && m <= n
    ensures Dot(Plus(w, d, n), Plus(w, d, n), m) == Dot(w, w, m) + 2.0 * Dot(w, d, m) + Dot(d, d, m)
  {
    hide Times;
    if m > 0 {
      NormShifts(w, d, n, m - 1);
      SquareOfSum(w[m - 1], d[m - 1]);
    }
  }

  lemma {:induction false} RidgeRow(row: Vector, ridge: Vector, w: Vector, strength: real, n: nat, i: nat, m: nat)
    requires |row| == n && |ridge| == n && |w| == n && i < n && m <= n
    requires forall j :: 0 <= j < n ==> ridge[j] == RidgeEntry(row[j], strength, n, i, j)
    ensures Dot(ridge, w, m) == Dot(row, w, m) + if i < m && i != n - 1 then Times(strength, w[i]) else 0.0
  {
    hide Times;
    if m > 0 {
      RidgeRow(row, ridge, w, strength, n, i, m - 1);
      SumTimes(row[m - 1], strength, w[m - 1]);
    }
  }

  // The normal equations say what the residuals amount to: the penalised weights.
  lemma RestOfSolution(data: Data, strength: real, w: Vector, n: nat, i: nat)
    requires OfSize(data, n) && |w| == n && i < n && NormalEquations(data, strength, w, n)
    ensures Rest(data, w, n, i) == if i == n - 1 then 0.0 else Times(strength, w[i])
  {
    hide Times, Dot;
    var row, ridge := GramRow(data, n, i), Ridge(data, strength, n)[i];
    RestIs(data, w, n, i);
    assert Dot(ridge, w, n) == Moments(data, n)[i];
    RidgeRow(row, ridge, w, strength, n, i, n);
  }

  lemma ScaledStep(total: real, c: real, rest: real, w: real, d: real)
    requires total == Times(c, rest)
    ensures total + Times(Times(c, w), d) == Times(c, rest + Times(w, d))
  {
    assert (c * w) * d == c * (w * d);
    assert c * (rest + w * d) == c * rest + c * (w * d);
  }

  lemma {:induction false} ScaledDot(v: Vector, w: Vector, c: real, d: Vector, m: nat)
    requires m <= |v| && m <= |w| && m <= |d| && forall k :: 0 <= k < m ==> v[k] == Times(c, w[k])
    ensures Dot(v, d, m) == Times(c, Dot(w, d, m))
  {
    hide Times;
    if m == 0 {
      ZeroTimes(c, 0.0);
    } else {
      ScaledDot(v, w, c, d, m - 1);
      ScaledStep(Dot(v, d, m - 1), c, Dot(w, d, m - 1), w[m - 1], d[m - 1]);
    }
  }

  lemma CrossOfSolution(data: Data, strength: real, w: Vector, d: Vector, n: nat)
    requires OfSize(data, n) && |w| == n && |d| == n && n > 0 && NormalEquations(data, strength, w, n)
    ensures Cross(data, w, d, n) == Times(strength, Dot(w, d, n - 1))
  {
    hide Times, Dot;
    var rests := Rests(data, w, n);
    CrossIs(data, w, d, n);
    forall k | 0 <= k < n ensures rests[k] == if k == n - 1 then 0.0 else Times(strength, w[k]) {
      RestOfSolution(data, strength, w, n, k);
    }
    ScaledDot(rests, w, strength, d, n - 1);
    DotZeros(rests, d, n - 1, n);
  }

  lemma {:induction false} NormPositive(d: Vector, m: nat)
    requires m <= |d|
    ensures Dot(d, d, m) >= 0.0
  {
    if m > 0 {
      NormPositive(d, m - 1);
      SquarePositive(d[m - 1]);
    }
  }

  lemma PenaltyShifts(strength: real, a: real, b: real, c: real)
    requires strength >= 0.0 && c >= 0.0
    ensures Times(strength, a + 2.0 * b + c) >= Times(strength, a) + 2.0 * Times(strength, b)
  {
    assert strength * c >= 0.0;
    assert strength * (a + 2.0 * b + c) == strength * a + 2.0 * (strength * b) + strength * c;
  }

  /** Weights that solve the normal equations have the least squared error plus penalty of all weights. */
  lemma SolutionIsLeast(data: Data, strength: real, w: Vector, v: Vector, n: nat)
    requires OfSize(data, n) && |w| == n && |v| == n && n > 0 && strength >= 0.0
    requires NormalEquations(data, strength, w, n)
    ensures Objective(data, strength, w, n) <= Objective(data, strength, v, n)
  {
    hide Times, Dot, Error;
    var d := seq(n, i requires 0 <= i < n => v[i] - w[i]);
    assert Plus(w, d, n) == v;
    ErrorShifts(data, w, d, n);
    CrossOfSolution(data, strength, w, d, n);
    NormShifts(w, d, n, n - 1);
    PredictionsPositive(data, d, n);
    NormPositive(d, n - 1);
    PenaltyShifts(strength, Dot(w, w, n - 1), Dot(w, d, n - 1), Dot(d, d, n - 1));
  }
}
