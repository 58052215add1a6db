/**
 Mirroring the board and a placement in the main diagonal changes nothing that counts: the verdict, the
 total score and the words with their multiplicities stay. The duel bridge relies on this when it mirrors
 a vertical opening move.
 */
module BoardTranspose {
  import opened Results
  import opened Tiles
  import opened Grids
  import opened BoardLaws

  function Flip(p: Pos): Pos {
    Pos(p.c, p.r)
  }

  function FlipPlaced(p: Placed): Placed {
    Placed(p.col, p.row, p.letter, p.isBlank)
  }

  function FlipAll(placed: seq<Placed>): seq<Placed> {
    seq(|placed|, i requires 0 <= i < |placed| => FlipPlaced(placed[i]))
  }

  ghost function FlipGrid(g: Grid): (t: Grid)
    ensures forall p :: p in t <==> Flip(p) in g
    ensures forall p :: p in t ==> t[p] == g[Flip(p)]
  {
    map p | p in FlipSet(g.Keys) :: g[Flip(p)]
  }

  ghost function FlipSet(cells: set<Pos>): (t: set<Pos>)
    ensures forall p :: p in t <==> Flip(p) in cells
  {
    var t := set p | p in cells :: Flip(p);
    assert forall p :: Flip(p) in cells ==> p == Flip(Flip(p));
    t
  }

  function FlipRun(run: Run): Run {
    Run(!run.horizontal, run.fixed, run.start, run.end)
  }

  ghost function FlipRuns(runs: seq<Run>): seq<Run> {
    seq(|runs|, i requires 0 <= i < |runs| => FlipRun(runs[i]))
  }

  lemma PremiumFlips(p: Pos)
    ensures PremiumAt(Flip(p)) == PremiumAt(p)
  {
  }

  lemma FlipAllSnoc(placed: seq<Placed>)
    requires placed != []
    ensures FlipAll(placed)[..|placed| - 1] == FlipAll(placed[..|placed| - 1])
    ensures FlipAll(placed)[|placed| - 1] == FlipPlaced(placed[|placed| - 1])
  {
  }

  lemma NewCellsFlip(placed: seq<Placed>)
    ensures NewCells(FlipAll(placed)) == FlipSet(NewCells(placed))
  {
    forall p ensures p in NewCells(FlipAll(placed)) <==> Flip(p) in NewCells(placed) {
      if p in NewCells(FlipAll(placed)) {
        var i :| 0 <= i < |placed| && FlipAll(placed)[i].At() == p;
        assert placed[i].At() == Flip(p);
      }
      if Flip(p) in NewCells(placed) {
        var i :| 0 <= i < |placed| && placed[i].At() == Flip(p);
        assert FlipAll(placed)[i].At() == p;
      }
    }
  }

  lemma FlipUpdate(g: Grid, p: Pos, cell: Cell)
    ensures FlipGrid(g[p := cell]) == FlipGrid(g)[Flip(p) := cell]
  {
    assert forall q: Pos :: Flip(q) == p <==> q == Flip(p);
  }

  lemma {:induction false} WithFlips(g: Grid, placed: seq<Placed>)
    ensures With(FlipGrid(g), FlipAll(placed)) == FlipGrid(With(g, placed))
  {
    if placed != [] {
      var front, last := placed[..|placed| - 1], placed[|placed| - 1];
      WithFlips(g, front);
      FlipAllSnoc(placed);
      FlipUpdate(With(g, front), last.At(), last.AsCell());
    }
  }

  lemma {:induction false} LoFlips(g: Grid, h: bool, fixed: int, i: int)
    ensures Lo(FlipGrid(g), !h, fixed, i) == Lo(g, h, fixed, i)
    decreases i
  {
    if i > 0 && CellAt(h, fixed, i - 1) in g {
      LoFlips(g, h, fixed, i - 1);
    }
    assert Flip(CellAt(!h, fixed, i - 1)) == CellAt(h, fixed, i - 1);
  }

  lemma {:induction false} HiFlips(g: Grid, h: bool, fixed: int, i: int)
    ensures Hi(FlipGrid(g), !h, fixed, i) == Hi(g, h, fixed, i)
    decreases SIZE - i
  {
    if i < SIZE - 1 && CellAt(h, fixed, i + 1) in g {
      HiFlips(g, h, fixed, i + 1);
    }
    assert Flip(CellAt(!h, fixed, i + 1)) == CellAt(h, fixed, i + 1);
  }

  lemma {:induction false} ExtremesFlip(h: bool, placed: seq<Placed>)
    requires placed != []
    ensures Least(!h, FlipAll(placed)) == Least(h, placed)
    ensures Greatest(!h, FlipAll(placed)) == Greatest(h, placed)
  {
    FlipAllSnoc(placed);
    if |placed| > 1 {
      ExtremesFlip(h, placed[..|placed| - 1]);
    }
  }

  lemma CrossRunFlips(g: Grid, p: Placed, h: bool)
    ensures CrossRun(FlipGrid(g), FlipPlaced(p), !h) == FlipRun(CrossRun(g, p, h))
  {
    LoFlips(g, !h, Along(h, p), Across(h, p));
    HiFlips(g, !h, Along(h, p), Across(h, p));
  }

  lemma {:induction false} CrossRunsFlip(g: Grid, placed: seq<Placed>, h: bool)
    ensures CrossRuns(FlipGrid(g), FlipAll(placed), !h) == FlipRuns(CrossRuns(g, placed, h))
  {
    if placed != [] {
      FlipAllSnoc(placed);
      CrossRunsFlip(g, placed[..|placed| - 1], h);
      CrossRunFlips(g, placed[|placed| - 1], h);
    }
  }

  lemma FlipRunsConcat(a: seq<Run>, b: seq<Run>)
    ensures FlipRuns(a + b) == FlipRuns(a) + FlipRuns(b)
  {
  }

  lemma MainRunFlips(g: Grid, placed: seq<Placed>, h: bool)
    requires placed != []
    ensures MainRun(FlipGrid(g), FlipAll(placed), !h) == FlipRun(MainRun(g, placed, h))
  {
    ExtremesFlip(h, placed);
    var fixed := Across(h, placed[0]);
    LoFlips(g, h, fixed, Least(h, placed));
    HiFlips(g, h, fixed, Greatest(h, placed));
  }

  lemma IfWordFlips(run: Run)
    ensures FlipRuns(IfWord(run)) == IfWord(FlipRun(run))
  {
  }

  lemma FormedRunsFlip(g: Grid, placed: seq<Placed>, h: bool)
    requires placed != []
    ensures FormedRuns(FlipGrid(g), FlipAll(placed), !h) == FlipRuns(FormedRuns(g, placed, h))
  {
    hide MainRun, CrossRuns, FlipRuns, FlipRun, IfWord, FlipGrid, FlipAll;
    MainRunFlips(g, placed, h);
    CrossRunsFlip(g, placed, h);
    var main := MainRun(g, placed, h);
    IfWordFlips(main);
    FlipRunsConcat(IfWord(main), CrossRuns(g, placed, h));
  }

  // ----- Words and scores -----

  lemma {:induction false} SpellFlips(letters: Alphabet, g: Grid, run: Run, n: nat)
    ensures Spell(letters, FlipGrid(g), FlipRun(run), n) == Spell(letters, g, run, n)
  {
    if n > 0 {
      SpellFlips(letters, g, run, n - 1);
      var p := run.At(run.start + n - 1);
      assert FlipRun(run).At(run.start + n - 1) == Flip(p) && Flip(Flip(p)) == p;
    }
  }

  lemma TileScoreFlips(g: Grid, added: set<Pos>, p: Pos)
    ensures TileScore(FlipGrid(g), FlipSet(added), Flip(p)) == TileScore(g, added, p)
  {
    PremiumFlips(p);
    assert Flip(Flip(p)) == p;
  }

  lemma RunAtFlips(run: Run, i: int)
    ensures FlipRun(run).At(i) == Flip(run.At(i)) && Flip(Flip(run.At(i))) == run.At(i)
  {
  }

  lemma {:induction false} LetterScoreFlips(g: Grid, added: set<Pos>, run: Run, n: nat)
    ensures LetterScore(FlipGrid(g), FlipSet(added), FlipRun(run), n) == LetterScore(g, added, run, n)
  {
    if n > 0 {
      LetterScoreFlips(g, added, run, n - 1);
      RunAtFlips(run, run.start + n - 1);
      TileScoreFlips(g, added, run.At(run.start + n - 1));
    }
  }

  lemma {:induction false} MultiplierFlips(added: set<Pos>, run: Run, n: nat)
    ensures Multiplier(FlipSet(added), FlipRun(run), n) == Multiplier(added, run, n)
  {
    if n > 0 {
      hide FactorOf, PremiumAt, FlipRun;
      MultiplierFlips(added, run, n - 1);
      RunAtFlips(run, run.start + n - 1);
      FactorFlips(added, run.At(run.start + n - 1));
      FlippedBounds(run);
    }
  }

  lemma FactorFlips(added: set<Pos>, p: Pos)
    ensures FactorOf(Flip(p) in FlipSet(added), PremiumAt(Flip(p))) == FactorOf(p in added, PremiumAt(p))
  {
    PremiumFlips(p);
    assert Flip(Flip(p)) == p;
  }

  lemma FlippedBounds(run: Run)
    ensures FlipRun(run).start == run.start && FlipRun(run).end == run.end
  {
  }

  // The same word and score, wherever it lies.
  ghost predicate SameWord(a: FormedWord, b: FormedWord) {
    a.word == b.word && a.score == b.score
  }

  lemma FormedFlips(letters: Alphabet, g: Grid, added: set<Pos>, run: Run)
    requires run.start <= run.end
    ensures SameWord(Formed(letters, FlipGrid(g), FlipSet(added), FlipRun(run)), Formed(letters, g, added, run))
  {
    SpellFlips(letters, g, run, run.end - run.start + 1);
    LetterScoreFlips(g, added, run, run.end - run.start + 1);
    MultiplierFlips(added, run, run.end - run.start + 1);
  }

  lemma FilledFlips(g: Grid, run: Run)
    ensures Filled(FlipGrid(g), FlipRun(run)) <==> Filled(g, run)
  {
    forall i ensures FlipRun(run).At(i) in FlipGrid(g) <==> run.At(i) in g {
      assert Flip(FlipRun(run).At(i)) == run.At(i);
    }
  }

  lemma SplitsFlip(letters: Alphabet, g: Grid, added: set<Pos>, run: Run)
    ensures SplitsDigraph(letters, FlipGrid(g), FlipSet(added), FlipRun(run)) <==> SplitsDigraph(letters, g, added, run)
  {
    forall k
      ensures FlipRun(run).At(k) in FlipSet(added) <==> run.At(k) in added
      ensures LetterAt(FlipGrid(g), FlipRun(run).At(k)) == LetterAt(g, run.At(k))
    {
      assert Flip(FlipRun(run).At(k)) == run.At(k) && Flip(run.At(k)) == FlipRun(run).At(k);
    }
    forall k
      ensures NewSplitAt(letters, FlipGrid(g), FlipSet(added), FlipRun(run), k)
              <==> NewSplitAt(letters, g, added, run, k)
    {
    }
  }

  lemma AttachedFlips(g: Grid, placed: seq<Placed>, added: set<Pos>)
    ensures Attached(FlipGrid(g), FlipAll(placed), FlipSet(added)) <==> Attached(g, placed, added)
  {
    if i, q :| 0 <= i < |placed| && Adjacent(placed[i].At(), q) && q !in added && q in g {
      assert Adjacent(FlipAll(placed)[i].At(), Flip(q)) && Flip(Flip(q)) == q;
    }
    if i, q :| 0 <= i < |placed| && Adjacent(FlipAll(placed)[i].At(), q) && q !in FlipSet(added) && q in FlipGrid(g) {
      assert Adjacent(placed[i].At(), Flip(q));
    }
  }

  // ----- Verdicts -----

  ghost function Words(formed: seq<FormedWord>): multiset<string> {
    if formed == [] then multiset{} else Words(formed[..|formed| - 1]) + multiset{formed[|formed| - 1].word}
  }

  // The same error, or the same words (as a multiset) and the same total score.
  ghost predicate SameVerdict(a: Result<seq<FormedWord>, BoardError>, b: Result<seq<FormedWord>, BoardError>) {
    match (a, b)
    case (Err(e), Err(f)) => e == f
    case (Ok(x), Ok(y)) => TotalScore(x) == TotalScore(y) && Words(x) == Words(y)
    case _ => false
  }

  lemma {:induction false} PointwiseSame(x: seq<FormedWord>, y: seq<FormedWord>)
    requires |x| == |y| && forall i :: 0 <= i < |x| ==> SameWord(x[i], y[i])
    ensures TotalScore(x) == TotalScore(y) && Words(x) == Words(y)
  {
    if x != [] {
      PointwiseSame(x[..|x| - 1], y[..|y| - 1]);
    }
  }

  lemma SwappedSame(x: seq<FormedWord>, y: seq<FormedWord>)
    requires |x| == |y| == 2 && SameWord(x[0], y[1]) && SameWord(x[1], y[0])
    ensures TotalScore(x) == TotalScore(y) && Words(x) == Words(y)
  {
    assert x[..1][..0] == [] && y[..1][..0] == [];
    assert Words(x[..1]) == multiset{x[0].word} && Words(y[..1]) == multiset{y[0].word};
    assert Words(x) == multiset{x[0].word} + multiset{x[1].word};
  }

  // The defects and words of two placements correspond.
  lemma SameJudgement(x: seq<FormedWord>, y: seq<FormedWord>, gap: bool, loose: bool, splits: bool, unknown: bool)
    requires TotalScore(x) == TotalScore(y) && Words(x) == Words(y) && (x == [] <==> y == [])
    ensures SameVerdict(Judge(x, gap, loose, splits, unknown), Judge(y, gap, loose, splits, unknown))
  {
  }

  lemma FormedAllFlips(rules: Rules, g: Grid, added: set<Pos>, runs: seq<Run>)
    requires forall i :: 0 <= i < |runs| ==> runs[i].start <= runs[i].end
    ensures var x := FormedAll(rules.letters, FlipGrid(g), FlipSet(added), FlipRuns(runs));
            var y := FormedAll(rules.letters, g, added, runs);
            && TotalScore(x) == TotalScore(y) && Words(x) == Words(y) && (x == [] <==> y == [])
            && (SomeUnknown(rules, x) <==> SomeUnknown(rules, y))
  {
    var x := FormedAll(rules.letters, FlipGrid(g), FlipSet(added), FlipRuns(runs));
    var y := FormedAll(rules.letters, g, added, runs);
    forall k | 0 <= k < |runs| ensures SameWord(x[k], y[k]) {
      FormedFlips(rules.letters, g, added, runs[k]);
    }
    PointwiseSame(x, y);
  }

  lemma SomeRunSplitsFlips(letters: Alphabet, g: Grid, added: set<Pos>, runs: seq<Run>)
    ensures SomeRunSplits(letters, FlipGrid(g), FlipSet(added), FlipRuns(runs))
            <==> SomeRunSplits(letters, g, added, runs)
  {
    forall k | 0 <= k < |runs|
      ensures SplitsDigraph(letters, FlipGrid(g), FlipSet(added), FlipRuns(runs)[k])
              <==> SplitsDigraph(letters, g, added, runs[k])
    {
      SplitsFlip(letters, g, added, runs[k]);
    }
  }

  // Mirrored along with the reading direction, the word checks give the same verdict word by word.
  lemma WordsFlip(rules: Rules, after: Grid, empty: bool, placed: seq<Placed>, added: set<Pos>, h: bool,
                  skipDictionary: bool)
    requires placed != []
    ensures SameVerdict(ValidateWords(rules, FlipGrid(after), empty, FlipAll(placed), FlipSet(added),
                                      !h, skipDictionary),
                        ValidateWords(rules, after, empty, placed, added, h, skipDictionary))
  {
    var runs := FormedRuns(after, placed, h);
    FormedRunsFlip(after, placed, h);
    MainRunFlips(after, placed, h);
    FilledFlips(after, MainRun(after, placed, h));
    AttachedFlips(after, placed, added);
    FormedAllFlips(rules, after, added, runs);
    SomeRunSplitsFlips(rules.letters, after, added, runs);
    SameJudgement(FormedAll(rules.letters, FlipGrid(after), FlipSet(added), FlipRuns(runs)),
                  FormedAll(rules.letters, after, added, runs),
                  !Filled(after, MainRun(after, placed, h)), !empty && !Attached(after, placed, added),
                  SomeRunSplits(rules.letters, after, added, runs),
                  !skipDictionary && SomeUnknown(rules, FormedAll(rules.letters, after, added, runs)));
  }

  // A single tile between neighbours on both axes: reading along the column first only swaps the two words.
  lemma SingleSwaps(rules: Rules, after: Grid, empty: bool, placed: seq<Placed>, added: set<Pos>, skipDictionary: bool)
    requires |placed| == 1 && GridOk(after) && placed[0].At() in after
    requires HasRowNeighbour(after, placed[0].At()) && HasColNeighbour(after, placed[0].At())
    ensures SameVerdict(ValidateWords(rules, after, empty, placed, added, true, skipDictionary),
                        ValidateWords(rules, after, empty, placed, added, false, skipDictionary))
  {
    var p := placed[0];
    var row, col := CrossRun(after, p, false), CrossRun(after, p, true);
    assert placed == [p] && placed[..0] == [];
    assert CrossRuns(after, placed[..0], true) == [] && CrossRuns(after, placed[..0], false) == [];
    assert MainRun(after, placed, true) == row && MainRun(after, placed, false) == col;
    CrossIsMaximal(after, p, true);
    CrossIsMaximal(after, p, false);
    NeighbourOnRun(after, row, p.At());
    NeighbourOnRun(after, col, p.At());
    assert FormedRuns(after, placed, true) == [row, col];
    assert FormedRuns(after, placed, false) == [col, row];
    SwapJudged(rules, after, empty, placed, added, skipDictionary, row, col);
  }

  lemma NeighbourOnRun(g: Grid, run: Run, p: Pos)
    requires Maximal(g, run) && OnRun(run, p)
    requires if run.horizontal then HasRowNeighbour(g, p) else HasColNeighbour(g, p)
    ensures run.start < run.end
  {
    assert run.At(IndexIn(run, p) - 1) in g || run.At(IndexIn(run, p) + 1) in g;
  }

  lemma SwapJudged(rules: Rules, after: Grid, empty: bool, placed: seq<Placed>, added: set<Pos>, skipDictionary: bool,
                   row: Run, col: Run)
    requires |placed| == 1 && row.start < row.end && col.start < col.end
    requires MainRun(after, placed, true) == row && MainRun(after, placed, false) == col
    requires Filled(after, row) && Filled(after, col)
    requires FormedRuns(after, placed, true) == [row, col] && FormedRuns(after, placed, false) == [col, row]
    ensures SameVerdict(ValidateWords(rules, after, empty, placed, added, true, skipDictionary),
                        ValidateWords(rules, after, empty, placed, added, false, skipDictionary))
  {
    var x := FormedAll(rules.letters, after, added, [row, col]);
    var y := FormedAll(rules.letters, after, added, [col, row]);
    SwappedWords(rules, after, added, row, col);
    hide FormedAll, TotalScore, Words, SomeUnknown, SomeRunSplits, Attached;
    SameJudgement(x, y, false, !empty && !Attached(after, placed, added),
                  SomeRunSplits(rules.letters, after, added, [row, col]),
                  !skipDictionary && SomeUnknown(rules, x));
  }

  // The two words in the other order.
  lemma SwappedWords(rules: Rules, after: Grid, added: set<Pos>, row: Run, col: Run)
    requires row.start < row.end && col.start < col.end
    ensures var x := FormedAll(rules.letters, after, added, [row, col]);
            var y := FormedAll(rules.letters, after, added, [col, row]);
            && TotalScore(x) == TotalScore(y) && Words(x) == Words(y) && x != [] && y != []
            && (SomeUnknown(rules, x) <==> SomeUnknown(rules, y))
    ensures SomeRunSplits(rules.letters, after, added, [row, col])
            <==> SomeRunSplits(rules.letters, after, added, [col, row])
  {
    var x := FormedAll(rules.letters, after, added, [row, col]);
    var y := FormedAll(rules.letters, after, added, [col, row]);
    assert x[0] == y[1] && x[1] == y[0];
    SwappedSame(x, y);
    assert [row, col][0] == [col, row][1] && [row, col][1] == [col, row][0];
  }

  lemma {:induction false} FirstBadFlips(g: Grid, placed: seq<Placed>, i: nat)
    requires i <= |placed|
    ensures FirstBadPosition(FlipGrid(g), FlipAll(placed), i) == FirstBadPosition(g, placed, i)
    decreases |placed| - i
  {
    if i < |placed| {
      FirstBadFlips(g, placed, i + 1);
      NewCellsFlip(placed[..i]);
      assert FlipAll(placed)[..i] == FlipAll(placed[..i]);
      assert Flip(FlipAll(placed)[i].At()) == placed[i].At();
    }
  }

  lemma LinesFlip(placed: seq<Placed>)
    ensures SameRow(FlipAll(placed)) <==> SameCol(placed)
    ensures SameCol(FlipAll(placed)) <==> SameRow(placed)
  {
    forall i | 0 <= i < |placed|
      ensures FlipAll(placed)[i].row == placed[i].col && FlipAll(placed)[i].col == placed[i].row
    {
    }
    if SameRow(FlipAll(placed)) {
      forall i, j | 0 <= i < |placed| && 0 <= j < |placed| ensures placed[i].col == placed[j].col {
        assert FlipAll(placed)[i].row == FlipAll(placed)[j].row;
      }
    }
    if SameCol(FlipAll(placed)) {
      forall i, j | 0 <= i < |placed| && 0 <= j < |placed| ensures placed[i].row == placed[j].row {
        assert FlipAll(placed)[i].col == FlipAll(placed)[j].col;
      }
    }
  }

  lemma NeighboursFlip(g: Grid, p: Pos)
    ensures HasRowNeighbour(FlipGrid(g), Flip(p)) <==> HasColNeighbour(g, p)
    ensures HasColNeighbour(FlipGrid(g), Flip(p)) <==> HasRowNeighbour(g, p)
  {
    assert Flip(Pos(p.r, p.c - 1)) == Pos(p.c - 1, p.r) && Flip(Pos(p.r, p.c + 1)) == Pos(p.c + 1, p.r);
    assert Flip(Pos(p.r - 1, p.c)) == Pos(p.c, p.r - 1) && Flip(Pos(p.r + 1, p.c)) == Pos(p.c, p.r + 1);
  }

  lemma DirectionFlips(after: Grid, placed: seq<Placed>)
    requires placed != [] && (SameRow(placed) || SameCol(placed))
    requires forall i, j :: 0 <= i < j < |placed| ==> placed[i].At() != placed[j].At()
    requires |placed| == 1 ==> HasRowNeighbour(after, placed[0].At()) != HasColNeighbour(after, placed[0].At())
    ensures MainDirection(FlipGrid(after), FlipAll(placed)) == !MainDirection(after, placed)
  {
    LinesFlip(placed);
    NeighboursFlip(after, placed[0].At());
    if |placed| > 1 {
      assert placed[0].At() != placed[1].At();
    }
  }

  // The word checks in the direction each side chooses.
  lemma ChosenDirections(rules: Rules, g: Grid, empty: bool, placed: seq<Placed>, skipDictionary: bool)
    requires GridOk(g) && placed != [] && GoodPositions(g, placed) && (SameRow(placed) || SameCol(placed))
    requires |placed| == 1 ==>
               HasRowNeighbour(With(g, placed), placed[0].At()) || HasColNeighbour(With(g, placed), placed[0].At())
    ensures var after := With(g, placed);
            SameVerdict(ValidateWords(rules, FlipGrid(after), empty, FlipAll(placed), FlipSet(NewCells(placed)),
                                      MainDirection(FlipGrid(after), FlipAll(placed)), skipDictionary),
                        ValidateWords(rules, after, empty, placed, NewCells(placed), MainDirection(after, placed),
                                      skipDictionary))
  {
    var after := With(g, placed);
    WordsFlip(rules, after, empty, placed, NewCells(placed), MainDirection(after, placed), skipDictionary);
    if |placed| == 1 && HasRowNeighbour(after, placed[0].At()) && HasColNeighbour(after, placed[0].At()) {
      NeighboursFlip(after, placed[0].At());
      var flipped := FlipGrid(after);
      assert FlipAll(placed)[0].At() == Flip(placed[0].At()) && Flip(Flip(placed[0].At())) == placed[0].At();
      NewCellsAreIn(g, placed);
      AfterIsOk(g, placed);
      SingleSwaps(rules, flipped, empty, FlipAll(placed), FlipSet(NewCells(placed)), skipDictionary);
    } else {
      DirectionFlips(after, placed);
    }
  }

  lemma AfterIsOk(g: Grid, placed: seq<Placed>)
    requires GridOk(g) && GoodPositions(g, placed)
    ensures GridOk(With(g, placed)) && GridOk(FlipGrid(With(g, placed)))
  {
    WithKeys(g, placed);
    forall p | p in With(g, placed) ensures OnBoard(p) {
      assert p in g || p in NewCells(placed);
    }
  }

  lemma LayingFlips(g: Grid, placed: seq<Placed>)
    ensures LayingError(FlipGrid(g), FlipAll(placed)) == LayingError(g, placed)
  {
    FirstBadFlips(g, placed, 0);
    LinesFlip(placed);
  }

  lemma StartFlips(after: Grid, empty: bool, placed: seq<Placed>, added: set<Pos>)
    requires placed != []
    ensures StartError(FlipGrid(after), empty, FlipAll(placed), FlipSet(added))
            == StartError(after, empty, placed, added)
  {
    assert Flip(CENTER) == CENTER;
    assert FlipAll(placed)[0].At() == Flip(placed[0].At());
    NeighboursFlip(after, placed[0].At());
  }

  /** The mirrored placement on the mirrored board gets the same verdict, score and words. */
  lemma ValidateFlips(rules: Rules, g: Grid, empty: bool, placed: seq<Placed>, skipDictionary: bool)
    requires GridOk(g)
    ensures SameVerdict(Validate(rules, FlipGrid(g), empty, FlipAll(placed), skipDictionary),
                        Validate(rules, g, empty, placed, skipDictionary))
  {
    LayingFlips(g, placed);
    if LayingError(g, placed).None? {
      PositionsGood(g, placed);
      NewCellsFlip(placed);
      WithFlips(g, placed);
      StartFlips(With(g, placed), empty, placed, NewCells(placed));
      if StartError(With(g, placed), empty, placed, NewCells(placed)).None? {
        ChosenDirections(rules, g, empty, placed, skipDictionary);
      }
    }
  }
}
