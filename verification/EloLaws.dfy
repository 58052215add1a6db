/** Who gains and who loses by a game: the best never lose, the last never gain, and more points never harm. */
module EloLaws {
  import opened Elo

  // Every result is possible: no expectation is certain.
  ghost predicate NothingCertain(expected: Expected) {
    forall x, y :: 0.0 < expected(x, y) < 1.0
  }

  ghost predicate Highest(entries: seq<Entry>, i: nat)
    requires i < |entries|
  {
    forall j :: 0 <= j < |entries| && j != i ==> entries[j].score < entries[i].score
  }

  ghost predicate Lowest(entries: seq<Entry>, i: nat)
    requires i < |entries|
  {
    forall j :: 0 <= j < |entries| && j != i ==> entries[j].score > entries[i].score
  }

  // ----- Signs -----

  lemma ShareSign(k: int, total: real, opponents: int)
    requires k > 0 && opponents > 0
    ensures total >= 0.0 ==> PerOpponent(k, total, opponents) >= 0.0
    ensures total > 0.0 ==> PerOpponent(k, total, opponents) > 0.0
  {
    var share, n, c := PerOpponent(k, total, opponents), opponents as real, k as real;
    assert share * n == c * total;
    if total >= 0.0 {
      TimesOrdered(c, 0.0, total);
      CancelFactor(0.0, share, n);
    }
    if total > 0.0 {
      TimesPositive(c, total);
    }
  }

  lemma ShareNegativeSign(k: int, total: real, opponents: int)
    requires k > 0 && opponents > 0
    ensures total <= 0.0 ==> PerOpponent(k, total, opponents) <= 0.0
    ensures total < 0.0 ==> PerOpponent(k, total, opponents) < 0.0
  {
    hide PerOpponent;
    ShareNegates(k, total, opponents);
    ShareSign(k, -total, opponents);
  }

  lemma RoundOrdered(x: real, y: real)
    requires x <= y
    ensures RoundTiesEven(x) <= RoundTiesEven(y)
  {
  }

  lemma RoundZero()
    ensures RoundTiesEven(0.0) == 0
  {
  }

  // ----- The best and the last -----

  lemma {:induction false} BestSurplus(expected: Expected, entries: seq<Entry>, i: nat, n: nat)
    requires IsExpectation(expected) && DistinctUsers(entries) && i < |entries| && n <= |entries|
    requires Highest(entries, i)
    ensures TotalTo(expected, entries, entries[i], n) >= 0.0
    ensures NothingCertain(expected) && (n > 1 || (n == 1 && i > 0)) ==>
              TotalTo(expected, entries, entries[i], n) > 0.0
  {
    if n > 0 {
      BestSurplus(expected, entries, i, n - 1);
      assert expected(entries[i].rating, entries[n - 1].rating) <= 1.0;
    }
  }

  lemma {:induction false} LastSurplus(expected: Expected, entries: seq<Entry>, i: nat, n: nat)
    requires IsExpectation(expected) && DistinctUsers(entries) && i < |entries| && n <= |entries|
    requires Lowest(entries, i)
    ensures TotalTo(expected, entries, entries[i], n) <= 0.0
    ensures NothingCertain(expected) && (n > 1 || (n == 1 && i > 0)) ==>
              TotalTo(expected, entries, entries[i], n) < 0.0
  {
    if n > 0 {
      LastSurplus(expected, entries, i, n - 1);
      assert expected(entries[i].rating, entries[n - 1].rating) >= 0.0;
    }
  }

  /** Whoever has more points than everybody else does not lose, and wins before rounding unless it was certain. */
  lemma BestNeverLose(expected: Expected, entries: seq<Entry>, i: nat)
    requires IsExpectation(expected) && DistinctUsers(entries) && |entries| >= 2 && i < |entries|
    requires Highest(entries, i)
    ensures Exact(expected, entries, entries[i]) >= 0.0 && Change(expected, entries, entries[i]) >= 0
    ensures NothingCertain(expected) ==> Exact(expected, entries, entries[i]) > 0.0
  {
    BestSurplus(expected, entries, i, |entries|);
    ShareSign(KFactor(entries[i].games), TotalTo(expected, entries, entries[i], |entries|), |entries| - 1);
    RoundOrdered(0.0, Exact(expected, entries, entries[i]));
    RoundZero();
  }

  /** Whoever has fewer points than everybody else does not win, and loses before rounding unless it was certain. */
  lemma LastNeverWin(expected: Expected, entries: seq<Entry>, i: nat)
    requires IsExpectation(expected) && DistinctUsers(entries) && |entries| >= 2 && i < |entries|
    requires Lowest(entries, i)
    ensures Exact(expected, entries, entries[i]) <= 0.0 && Change(expected, entries, entries[i]) <= 0
    ensures NothingCertain(expected) ==> Exact(expected, entries, entries[i]) < 0.0
  {
    LastSurplus(expected, entries, i, |entries|);
    ShareNegativeSign(KFactor(entries[i].games), TotalTo(expected, entries, entries[i], |entries|), |entries| - 1);
    RoundOrdered(Exact(expected, entries, entries[i]), 0.0);
    RoundZero();
  }

  // ----- More points -----

  lemma {:induction false} SurplusGrows(expected: Expected, entries: seq<Entry>, more: seq<Entry>, i: nat, n: nat)
    requires i < |entries| && n <= |entries| && |more| == |entries|
    requires more[i] == entries[i].(score := more[i].score) && more[i].score >= entries[i].score
    requires forall j :: 0 <= j < |entries| && j != i ==> more[j] == entries[j]
    ensures TotalTo(expected, entries, entries[i], n) <= TotalTo(expected, more, more[i], n)
  {
    if n > 0 {
      SurplusGrows(expected, entries, more, i, n - 1);
    }
  }

  lemma ShareOrdered(k: int, a: real, b: real, opponents: int)
    requires k > 0 && opponents > 0 && a <= b
    ensures PerOpponent(k, a, opponents) <= PerOpponent(k, b, opponents)
  {
    hide PerOpponent;
    ShareAdds(k, a, b - a, opponents);
    ShareSign(k, b - a, opponents);
    assert a + (b - a) == b;
  }

  /** With more points, and everything else as it was, nobody's change is smaller. */
  lemma MorePointsNeverHarm(expected: Expected, entries: seq<Entry>, i: nat, score: int)
    requires |entries| >= 2 && i < |entries| && score >= entries[i].score
    ensures var raised := entries[i].(score := score);
            && Exact(expected, entries, entries[i]) <= Exact(expected, entries[i := raised], raised)
            && Change(expected, entries, entries[i]) <= Change(expected, entries[i := raised], raised)
  {
    var more := entries[i := entries[i].(score := score)];
    SurplusGrows(expected, entries, more, i, |entries|);
    ShareOrdered(KFactor(entries[i].games), TotalTo(expected, entries, entries[i], |entries|),
                 TotalTo(expected, more, more[i], |entries|), |entries| - 1);
    RoundOrdered(Exact(expected, entries, entries[i]), Exact(expected, more, more[i]));
  }

  // ----- Two players -----

  /**
   Between two players the result less what was expected is multiplied by 32, by 20 from the tenth rated game on: one
   for a win, a half for a draw, nothing for a loss.
   */
  lemma TwoPlayers(expected: Expected, a: Entry, b: Entry)
    requires a.uid != b.uid
    ensures Exact(expected, [a, b], a)
            == (if a.games < 10 then 32.0 else 20.0)
               * ((if a.score > b.score then 1.0 else if a.score == b.score then 0.5 else 0.0)
                  - expected(a.rating, b.rating))
  {
    assert TotalTo(expected, [a, b], a, 0) == 0.0 && TotalTo(expected, [a, b], a, 1) == 0.0;
    assert TotalTo(expected, [a, b], a, 2) == Surplus(expected, a, b);
  }
}
