/**
 Rating changes after a game of any number of players: every pair counts as a game of its own, the change
 is divided by the number of opponents. Over the reals; the expected score is a parameter.
 */
module Elo {
  const INITIAL_RATING := 1200
  const PROVISIONAL_GAMES := 10
  const K_PROVISIONAL := 32
  const K_ESTABLISHED := 20

  // What is expected of a rating against another one.
  type Expected = (int, int) -> real

  datatype Entry = Entry(uid: int, rating: int, games: int, score: int)

  function KFactor(games: int): int {
    if games < PROVISIONAL_GAMES then K_PROVISIONAL else K_ESTABLISHED
  }

  function Actual(score: int, other: int): real {
    if score > other then 1.0 else if score == other then 0.5 else 0.0
  }

  // How much better than expected the one did against the other.
  function Surplus(expected: Expected, a: Entry, b: Entry): real {
    Actual(a.score, b.score) - expected(a.rating, b.rating)
  }

  // The surplus of entry a against the first n entries other than itself.
  function TotalTo(expected: Expected, entries: seq<Entry>, a: Entry, n: nat): real
    requires n <= |entries|
  {
    if n == 0 then 0.0
    else
      TotalTo(expected, entries, a, n - 1)
      + if entries[n - 1].uid == a.uid then 0.0 else Surplus(expected, a, entries[n - 1])
  }

  // Rounds to the nearest integer, halves to the even one.
  function RoundTiesEven(x: real): (n: int)
    ensures x - 0.5 <= n as real <= x + 0.5
    ensures n as real == x - 0.5 || n as real == x + 0.5 ==> n % 2 == 0
  {
    var down := x.Floor;
    var rest := x - down as real;
    if rest < 0.5 || (rest == 0.5 && down % 2 == 0) then down else down + 1
  }

  // K times the surplus, shared among the opponents.
  function PerOpponent(k: int, total: real, opponents: int): real
    requires opponents > 0
  {
    k as real * total / opponents as real
  }

  // The change before rounding.
  function Exact(expected: Expected, entries: seq<Entry>, a: Entry): real
    requires |entries| >= 2
  {
    PerOpponent(KFactor(a.games), TotalTo(expected, entries, a, |entries|), |entries| - 1)
  }

  function Change(expected: Expected, entries: seq<Entry>, a: Entry): int {
    if |entries| < 2 then 0 else RoundTiesEven(Exact(expected, entries, a))
  }

  // The changes of the first n entries, by user.
  function ChangesTo(expected: Expected, entries: seq<Entry>, n: nat): map<int, int>
    requires n <= |entries|
  {
    if n == 0 then map[]
    else ChangesTo(expected, entries, n - 1)[entries[n - 1].uid := Change(expected, entries, entries[n - 1])]
  }

  method RatingChanges(expected: Expected, entries: seq<Entry>) returns (changes: map<int, int>)
    ensures changes == ChangesTo(expected, entries, |entries|)
  {
    changes := map[];
    var i := 0;
    while i < |entries|
      invariant 0 <= i <= |entries|
      invariant changes == ChangesTo(expected, entries, i)
    {
      var a := entries[i];
      if |entries| < 2 {
        changes := changes[a.uid := 0];
      } else {
        var total := 0.0;
        var j := 0;
        while j < |entries|
          invariant 0 <= j <= |entries|
          invariant total == TotalTo(expected, entries, a, j)
        {
          if entries[j].uid != a.uid {
            total := total + (Actual(a.score, entries[j].score) - expected(a.rating, entries[j].rating));
          }
          j := j + 1;
        }
        changes := changes[a.uid := RoundTiesEven(PerOpponent(KFactor(a.games), total, |entries| - 1))];
      }
      i := i + 1;
    }
  }

  // ----- What the changes obey -----

  // The two expectations of a pair are probabilities that make up one.
  ghost predicate IsExpectation(expected: Expected) {
    forall x, y :: 0.0 <= expected(x, y) <= 1.0 && expected(x, y) + expected(y, x) == 1.0
  }

  ghost predicate DistinctUsers(entries: seq<Entry>) {
    forall i, j :: 0 <= i < j < |entries| ==> entries[i].uid != entries[j].uid
  }

  /** Every user gets the change that is computed for the user's entry. */
  lemma {:induction false} ChangesByUser(expected: Expected, entries: seq<Entry>, n: nat, i: nat)
    requires DistinctUsers(entries) && i < n <= |entries|
    ensures entries[i].uid in ChangesTo(expected, entries, n)
    ensures ChangesTo(expected, entries, n)[entries[i].uid] == Change(expected, entries, entries[i])
  {
    if i < n - 1 {
      ChangesByUser(expected, entries, n - 1, i);
    }
  }

  // Entry i itself contributes nothing.
  lemma {:induction false} TotalBounded(expected: Expected, entries: seq<Entry>, i: nat, n: nat)
    requires IsExpectation(expected) && i < |entries| && n <= |entries|
    ensures var opponents := if i < n then n - 1 else n;
            -(opponents as real) <= TotalTo(expected, entries, entries[i], n) <= opponents as real
  {
    if n > 0 {
      TotalBounded(expected, entries, i, n - 1);
      assert 0.0 <= expected(entries[i].rating, entries[n - 1].rating) <= 1.0;
    }
  }

  lemma TimesOrdered(k: real, a: real, b: real)
    requires k >= 0.0 && a <= b
    ensures k * a <= k * b
  {
    assert k * (b - a) >= 0.0;
    assert k * (b - a) == k * b - k * a;
  }

  lemma TimesPositive(a: real, b: real)
    requires a > 0.0 && b > 0.0
    ensures a * b > 0.0
  {
  }

  lemma CancelFactor(a: real, b: real, n: real)
    requires n > 0.0 && a * n <= b * n
    ensures a <= b
  {
    if a > b {
      TimesPositive(a - b, n);
    }
  }

  lemma ShareAtMost(k: int, total: real, opponents: int)
    requires k > 0 && opponents > 0 && total <= opponents as real
    ensures PerOpponent(k, total, opponents) <= k as real
  {
    var n, c := opponents as real, k as real;
    assert PerOpponent(k, total, opponents) * n == c * total;
    TimesOrdered(c, total, n);
    CancelFactor(PerOpponent(k, total, opponents), c, n);
  }

  lemma ShareNegates(k: int, total: real, opponents: int)
    requires opponents > 0
    ensures PerOpponent(k, -total, opponents) == -PerOpponent(k, total, opponents)
  {
    assert k as real * -total == -(k as real * total);
  }

  lemma ShareBounded(k: int, total: real, opponents: int)
    requires k > 0 && opponents > 0 && -(opponents as real) <= total <= opponents as real
    ensures -(k as real) <= PerOpponent(k, total, opponents) <= k as real
  {
    hide PerOpponent;
    ShareAtMost(k, total, opponents);
    ShareAtMost(k, -total, opponents);
    ShareNegates(k, total, opponents);
  }

  lemma RoundKeepsBounds(x: real, k: int)
    requires -(k as real) <= x <= k as real
    ensures -k <= RoundTiesEven(x) <= k
  {
  }

  /** No game moves a rating by more than K, however many play. */
  lemma ChangeBounded(expected: Expected, entries: seq<Entry>, i: nat)
    requires IsExpectation(expected) && i < |entries|
    ensures -KFactor(entries[i].games) <= Change(expected, entries, entries[i]) <= KFactor(entries[i].games)
  {
    if |entries| >= 2 {
      var a := entries[i];
      TotalBounded(expected, entries, i, |entries|);
      ShareBounded(KFactor(a.games), TotalTo(expected, entries, a, |entries|), |entries| - 1);
      RoundKeepsBounds(Exact(expected, entries, a), KFactor(a.games));
    }
  }

  // ----- Zero sum -----

  // The totals of the first m entries against the first n.
  ghost function GridTotal(expected: Expected, entries: seq<Entry>, m: nat, n: nat): real
    requires m <= |entries| && n <= |entries|
  {
    if m == 0 then 0.0 else GridTotal(expected, entries, m - 1, n) + TotalTo(expected, entries, entries[m - 1], n)
  }

  // The surplus of the first m entries against entry n.
  ghost function ColumnTo(expected: Expected, entries: seq<Entry>, m: nat, n: nat): real
    requires m <= |entries| && n < |entries|
  {
    if m == 0 then 0.0
    else
      ColumnTo(expected, entries, m - 1, n)
      + if entries[n].uid == entries[m - 1].uid then 0.0 else Surplus(expected, entries[m - 1], entries[n])
  }

  lemma {:induction false} GridColumn(expected: Expected, entries: seq<Entry>, m: nat, n: nat)
    requires m <= |entries| && n < |entries|
    ensures GridTotal(expected, entries, m, n + 1)
            == GridTotal(expected, entries, m, n) + ColumnTo(expected, entries, m, n)
  {
    if m > 0 {
      GridColumn(expected, entries, m - 1, n);
    }
  }

  // What one wins the other loses.
  lemma {:induction false} ColumnMirrorsRow(expected: Expected, entries: seq<Entry>, m: nat, n: nat)
    requires IsExpectation(expected) && m <= |entries| && n < |entries|
    ensures ColumnTo(expected, entries, m, n) == -TotalTo(expected, entries, entries[n], m)
  {
    if m > 0 {
      ColumnMirrorsRow(expected, entries, m - 1, n);
      var a, b := entries[m - 1], entries[n];
      assert expected(a.rating, b.rating) + expected(b.rating, a.rating) == 1.0;
    }
  }

  lemma {:induction false} GridIsZero(expected: Expected, entries: seq<Entry>, n: nat)
    requires IsExpectation(expected) && n <= |entries|
    ensures GridTotal(expected, entries, n, n) == 0.0
  {
    if n > 0 {
      GridIsZero(expected, entries, n - 1);
      GridColumn(expected, entries, n - 1, n - 1);
      ColumnMirrorsRow(expected, entries, n - 1, n - 1);
    }
  }

  ghost function ExactSum(expected: Expected, entries: seq<Entry>, n: nat): real
    requires |entries| >= 2 && n <= |entries|
  {
    if n == 0 then 0.0 else ExactSum(expected, entries, n - 1) + Exact(expected, entries, entries[n - 1])
  }

  ghost function ChangeSum(expected: Expected, entries: seq<Entry>, n: nat): int
    requires n <= |entries|
  {
    if n == 0 then 0 else ChangeSum(expected, entries, n - 1) + Change(expected, entries, entries[n - 1])
  }

  lemma ShareAdds(k: int, a: real, b: real, opponents: int)
    requires opponents > 0
    ensures PerOpponent(k, a + b, opponents) == PerOpponent(k, a, opponents) + PerOpponent(k, b, opponents)
  {
    assert k as real * (a + b) == k as real * a + k as real * b;
  }

  lemma NothingShared(k: int, opponents: int)
    requires opponents > 0
    ensures PerOpponent(k, 0.0, opponents) == 0.0
  {
  }

  lemma {:induction false} ExactSumIs(expected: Expected, entries: seq<Entry>, n: nat, k: int)
    requires |entries| >= 2 && n <= |entries| && forall i :: 0 <= i < |entries| ==> KFactor(entries[i].games) == k
    ensures ExactSum(expected, entries, n) == PerOpponent(k, GridTotal(expected, entries, n, |entries|), |entries| - 1)
  {
    if n == 0 {
      NothingShared(k, |entries| - 1);
    } else {
      ExactSumIs(expected, entries, n - 1, k);
      ShareAdds(k, GridTotal(expected, entries, n - 1, |entries|),
                TotalTo(expected, entries, entries[n - 1], |entries|), |entries| - 1);
    }
  }

  lemma {:induction false} RoundingDrifts(expected: Expected, entries: seq<Entry>, n: nat)
    requires |entries| >= 2 && n <= |entries|
    ensures ExactSum(expected, entries, n) - n as real / 2.0 <= ChangeSum(expected, entries, n) as real
                                                           <= ExactSum(expected, entries, n) + n as real / 2.0
  {
    if n > 0 {
      RoundingDrifts(expected, entries, n - 1);
    }
  }

  /** Among players with the same K nothing is won or lost in sum: exactly before rounding, within n/2 after it. */
  lemma ChangesBalance(expected: Expected, entries: seq<Entry>, k: int)
    requires IsExpectation(expected) && |entries| >= 2
    requires forall i :: 0 <= i < |entries| ==> KFactor(entries[i].games) == k
    ensures ExactSum(expected, entries, |entries|) == 0.0
    ensures -|entries| <= 2 * ChangeSum(expected, entries, |entries|) <= |entries|
  {
    GridIsZero(expected, entries, |entries|);
    ExactSumIs(expected, entries, |entries|, k);
    NothingShared(k, |entries| - 1);
    RoundingDrifts(expected, entries, |entries|);
  }
}
