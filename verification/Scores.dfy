/**
 What a word and a placement score, by counting: face values of the letters, letter premiums under new tiles, and one
 doubling or tripling of the whole word for every new tile on a word premium.
 */
module Scores {
  import opened Results
  import opened Tiles
  import opened Bags
  import opened Grids
  import opened GameStates

  // ----- The printed tiles -----

  // Letter, points and number of tiles of every kind.
  const DISTRIBUTION: seq<(string, nat, nat)> :=
    [("", 0, 2), ("A", 1, 6), ("E", 1, 6), ("K", 1, 6), ("T", 1, 5), ("Á", 1, 4), ("L", 1, 4), ("N", 1, 4),
     ("R", 1, 4), ("I", 1, 3), ("M", 1, 3), ("O", 1, 3), ("S", 1, 3), ("B", 2, 3), ("D", 2, 3), ("G", 2, 3),
     ("Ó", 2, 3), ("É", 3, 3), ("H", 3, 2), ("SZ", 3, 2), ("V", 3, 2), ("F", 4, 2), ("GY", 4, 2), ("J", 4, 2),
     ("Ö", 4, 2), ("P", 4, 2), ("U", 4, 2), ("Ü", 4, 2), ("Z", 4, 2), ("C", 5, 1), ("Í", 5, 1), ("NY", 5, 1),
     ("CS", 7, 1), ("Ő", 7, 1), ("Ú", 7, 1), ("Ű", 7, 1), ("LY", 8, 1), ("ZS", 8, 1), ("TY", 10, 1)]

  lemma LetterAsPrinted(i: nat)
    requires i < KINDS
    ensures |DISTRIBUTION| == KINDS && |HUNGARIAN| == KINDS && DISTRIBUTION[i].0 == HUNGARIAN[i]
  {
    if i < 10 {
    } else if i < 20 {
    } else if i < 30 {
    } else {
    }
  }

  lemma NumbersAsPrinted(i: nat)
    requires i < KINDS
    ensures |DISTRIBUTION| == KINDS && DISTRIBUTION[i].1 == Value(Tile(i)) && DISTRIBUTION[i].2 == Count(Tile(i))
  {
    if i < 10 {
    } else if i < 20 {
    } else if i < 30 {
    } else {
    }
  }

  /** The kinds are in the order of the distribution, with its points, and the full set has its counts. */
  lemma KindsAsPrinted(i: nat)
    requires i < KINDS
    ensures |DISTRIBUTION| == KINDS && |HUNGARIAN| == KINDS
    ensures DISTRIBUTION[i] == (HUNGARIAN[i], Value(Tile(i)), FullSet()[Tile(i)])
  {
    LetterAsPrinted(i);
    NumbersAsPrinted(i);
    FullSetCount(Tile(i));
    hide Value, Count, FullSet;
  }

  // ----- The premium squares -----

  /** The layout is the same from all sides: mirrored up and down, left and right, and along the diagonal. */
  lemma PremiumsMirror(p: Pos)
    ensures PremiumAt(Pos(14 - p.r, p.c)) == PremiumAt(p)
    ensures PremiumAt(Pos(p.r, 14 - p.c)) == PremiumAt(p)
    ensures PremiumAt(Pos(p.c, p.r)) == PremiumAt(p)
  {
  }

  /** In the quarter of the rows and columns up to the centre these are the premium squares. */
  lemma PremiumsInQuarter(r: int, c: int)
    requires 0 <= r <= 7 && 0 <= c <= 7
    ensures PremiumAt(Pos(r, c)) == TripleWord <==> (r == 0 || r == 7) && (c == 0 || c == 7) && r + c < 14
    ensures PremiumAt(Pos(r, c)) == DoubleWord <==> r == c && 1 <= r <= 4
    ensures PremiumAt(Pos(r, c)) == TripleLetter <==> (r == 1 || r == 5) && (c == 1 || c == 5) && r + c > 2
    ensures PremiumAt(Pos(r, c)) == DoubleLetter <==>
              (r + c == 3 && r * c == 0) || (r + c == 8 && (r == 2 || r == 6)) || (r + c == 10 && (r == 3 || r == 7))
              || (r == 6 && c == 6)
    ensures PremiumAt(Pos(r, c)) == Star <==> r == 7 && c == 7
  {
  }

  // ----- A word -----

  // What a tile counts without any premium.
  function Face(cell: Cell): nat {
    if cell.isBlank then 0 else Value(cell.letter)
  }

  // What it counts in a word: twice or three times when it is new on a letter premium.
  ghost function Worth(g: Grid, added: set<Pos>, p: Pos): nat
    requires p in g
  {
    if p in added && PremiumAt(p) == DoubleLetter then 2 * Face(g[p])
    else if p in added && PremiumAt(p) == TripleLetter then 3 * Face(g[p])
    else Face(g[p])
  }

  // The sum over the first n cells of a run.
  ghost function WorthTo(g: Grid, added: set<Pos>, run: Run, n: nat): nat
    requires Filled(g, run) && run.start + n <= run.end + 1
  {
    if n == 0 then 0 else WorthTo(g, added, run, n - 1) + Worth(g, added, run.At(run.start + n - 1))
  }

  ghost function FacesTo(g: Grid, run: Run, n: nat): nat
    requires Filled(g, run) && run.start + n <= run.end + 1
  {
    if n == 0 then 0 else FacesTo(g, run, n - 1) + Face(g[run.At(run.start + n - 1)])
  }

  // The places of new tiles on these premiums among the first n cells of a run.
  ghost function NewOn(added: set<Pos>, run: Run, kinds: set<Premium>, n: nat): set<int> {
    set i | run.start <= i < run.start + n && run.At(i) in added && PremiumAt(run.At(i)) in kinds
  }

  function Power(base: nat, n: nat): nat {
    if n == 0 then 1 else base * Power(base, n - 1)
  }

  ghost function LengthOf(run: Run): nat
    requires run.start <= run.end
  {
    run.end - run.start + 1
  }

  lemma NewOnGrows(added: set<Pos>, run: Run, kinds: set<Premium>, n: nat)
    requires n > 0
    ensures var i := run.start + n - 1;
            |NewOn(added, run, kinds, n)|
            == |NewOn(added, run, kinds, n - 1)|
               + if run.At(i) in added && PremiumAt(run.At(i)) in kinds then 1 else 0
  {
    var i := run.start + n - 1;
    var before := NewOn(added, run, kinds, n - 1);
    assert i !in before;
    assert NewOn(added, run, kinds, n)
        == if run.At(i) in added && PremiumAt(run.At(i)) in kinds then before + {i} else before;
  }

  lemma TimesSwap(a: nat, b: nat)
    ensures a * b * 1 == a * b && a * b * 2 == (2 * a) * b && a * b * 3 == a * (3 * b)
  {
  }

  // One cell more.
  lemma MultiplierStep(added: set<Pos>, run: Run, n: nat, twos: nat, threes: nat)
    requires n > 0 && Multiplier(added, run, n - 1) == Power(2, twos) * Power(3, threes)
    ensures var p := run.At(run.start + n - 1);
            Multiplier(added, run, n)
            == Power(2, twos + if p in added && PremiumAt(p) in {DoubleWord, Star} then 1 else 0)
               * Power(3, threes + if p in added && PremiumAt(p) in {TripleWord} then 1 else 0)
  {
    TimesSwap(Power(2, twos), Power(3, threes));
    hide PremiumAt;
  }

  lemma {:induction false} MultiplierCounts(added: set<Pos>, run: Run, n: nat)
    ensures Multiplier(added, run, n)
            == Power(2, |NewOn(added, run, {DoubleWord, Star}, n)|) * Power(3, |NewOn(added, run, {TripleWord}, n)|)
  {
    if n == 0 {
      assert NewOn(added, run, {DoubleWord, Star}, n) == {} && NewOn(added, run, {TripleWord}, n) == {};
    } else {
      MultiplierCounts(added, run, n - 1);
      NewOnGrows(added, run, {DoubleWord, Star}, n);
      NewOnGrows(added, run, {TripleWord}, n);
      hide Multiplier, Power, NewOn, PremiumAt;
      MultiplierStep(added, run, n, |NewOn(added, run, {DoubleWord, Star}, n - 1)|,
                     |NewOn(added, run, {TripleWord}, n - 1)|);
    }
  }

  lemma {:induction false} LettersAdd(g: Grid, added: set<Pos>, run: Run, n: nat)
    requires Filled(g, run) && run.start + n <= run.end + 1
    ensures LetterScore(g, added, run, n) == WorthTo(g, added, run, n)
  {
    if n > 0 {
      LettersAdd(g, added, run, n - 1);
      assert run.At(run.start + n - 1) in g;
    }
  }

  /**
   A word scores the sum of its letters, with the letter premiums under new tiles, doubled for every new tile on a
   double-word square or the star and tripled for every new tile on a triple-word square.
   */
  lemma WordScore(letters: Alphabet, g: Grid, added: set<Pos>, run: Run)
    requires Filled(g, run) && run.start <= run.end
    ensures var n := LengthOf(run);
            Formed(letters, g, added, run).score
            == WorthTo(g, added, run, n) * (Power(2, |NewOn(added, run, {DoubleWord, Star}, n)|)
                                            * Power(3, |NewOn(added, run, {TripleWord}, n)|))
  {
    LettersAdd(g, added, run, LengthOf(run));
    MultiplierCounts(added, run, LengthOf(run));
  }

  lemma {:induction false} WorthWithoutNew(g: Grid, added: set<Pos>, run: Run, n: nat)
    requires Filled(g, run) && run.start + n <= run.end + 1
    requires forall i :: run.start <= i < run.start + n ==> run.At(i) !in added
    ensures WorthTo(g, added, run, n) == FacesTo(g, run, n)
  {
    if n > 0 {
      WorthWithoutNew(g, added, run, n - 1);
      assert run.At(run.start + n - 1) !in added;
    }
  }

  /** Without a new tile there is no premium: the word scores the sum of the face values. */
  lemma OldWordScore(letters: Alphabet, g: Grid, added: set<Pos>, run: Run)
    requires Filled(g, run) && run.start <= run.end && !Touches(run, added)
    ensures Formed(letters, g, added, run).score == FacesTo(g, run, LengthOf(run))
  {
    var n := LengthOf(run);
    WordScore(letters, g, added, run);
    WorthWithoutNew(g, added, run, n);
    assert NewOn(added, run, {DoubleWord, Star}, n) == {} && NewOn(added, run, {TripleWord}, n) == {};
  }

  lemma {:induction false} WorthDependsOnRun(g: Grid, added: set<Pos>, other: set<Pos>, run: Run, n: nat)
    requires Filled(g, run) && run.start + n <= run.end + 1
    requires forall i :: run.start <= i <= run.end ==> (run.At(i) in added <==> run.At(i) in other)
    ensures WorthTo(g, added, run, n) == WorthTo(g, other, run, n)
  {
    if n > 0 {
      WorthDependsOnRun(g, added, other, run, n - 1);
    }
  }

  /** Only the new tiles within the word matter to its score. */
  lemma ScoreDependsOnRun(letters: Alphabet, g: Grid, added: set<Pos>, other: set<Pos>, run: Run)
    requires Filled(g, run) && run.start <= run.end
    requires forall i :: run.start <= i <= run.end ==> (run.At(i) in added <==> run.At(i) in other)
    ensures Formed(letters, g, added, run).score == Formed(letters, g, other, run).score
  {
    var n := LengthOf(run);
    WordScore(letters, g, added, run);
    WordScore(letters, g, other, run);
    WorthDependsOnRun(g, added, other, run, n);
    assert NewOn(added, run, {DoubleWord, Star}, n) == NewOn(other, run, {DoubleWord, Star}, n);
    assert NewOn(added, run, {TripleWord}, n) == NewOn(other, run, {TripleWord}, n);
  }

  // ----- A placement -----

  // The sum of the words' scores, first word first.
  function ScoresFrom(formed: seq<FormedWord>): nat {
    if formed == [] then 0 else formed[0].score + ScoresFrom(formed[1..])
  }

  lemma {:induction false} TotalIsSum(formed: seq<FormedWord>)
    ensures TotalScore(formed) == ScoresFrom(formed)
  {
    if |formed| <= 1 {
      assert formed != [] ==> formed[..0] == [] && formed[1..] == [];
    } else {
      var n := |formed| - 1;
      TotalIsSum(formed[..n]);
      TotalIsSum(formed[1..]);
      assert formed[..n][1..] == formed[1..][..n - 1];
      TotalIsSum(formed[1..][..n - 1]);
    }
  }

  /** A placement scores the sum of its words, and fifty more exactly when it takes seven tiles. */
  lemma PlacementScore(formed: seq<FormedWord>, tileCount: nat)
    ensures PlacementTotal(formed, tileCount) == ScoresFrom(formed) + if tileCount == 7 then 50 else 0
  {
    TotalIsSum(formed);
  }
}
