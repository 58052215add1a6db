/**
 What the local checks of a placement guarantee globally: the formed words are exactly the touched runs,
 and the board stays one connected crossword around the centre without split digraphs.
 */
module BoardLaws {
  import opened Results
  import opened Tiles
  import opened Grids

  // ----- Putting tiles down -----

  ghost predicate GoodPositions(g: Grid, placed: seq<Placed>) {
    && (forall i :: 0 <= i < |placed| ==> OnBoard(placed[i].At()) && placed[i].At() !in g)
    && (forall i, j :: 0 <= i < j < |placed| ==> placed[i].At() != placed[j].At())
  }

  lemma {:induction false} WithKeys(g: Grid, placed: seq<Placed>)
    ensures With(g, placed).Keys == g.Keys + NewCells(placed)
    ensures forall p :: p in g && p !in NewCells(placed) ==> With(g, placed)[p] == g[p]
  {
    if placed != [] {
      var front, last := placed[..|placed| - 1], placed[|placed| - 1];
      WithKeys(g, front);
      NewCellsSplit(placed);
    }
  }

  lemma NewCellsSplit(placed: seq<Placed>)
    requires placed != []
    ensures NewCells(placed) == NewCells(placed[..|placed| - 1]) + {placed[|placed| - 1].At()}
  {
    forall p | p in NewCells(placed)
      ensures p in NewCells(placed[..|placed| - 1]) + {placed[|placed| - 1].At()}
    {
      var i :| 0 <= i < |placed| && placed[i].At() == p;
      if i < |placed| - 1 {
        assert placed[..|placed| - 1][i] == placed[i];
      }
    }
    forall p | p in NewCells(placed[..|placed| - 1]) ensures p in NewCells(placed) {
      var i :| 0 <= i < |placed| - 1 && placed[..|placed| - 1][i].At() == p;
      assert placed[i].At() == p;
    }
  }

  lemma {:induction false} WithValue(g: Grid, placed: seq<Placed>, i: nat)
    requires i < |placed| && GoodPositions(g, placed)
    ensures placed[i].At() in With(g, placed) && With(g, placed)[placed[i].At()] == placed[i].AsCell()
  {
    if i < |placed| - 1 {
      WithValue(g, placed[..|placed| - 1], i);
    }
  }

  lemma {:induction false} GoodPositionsFrom(g: Grid, placed: seq<Placed>, i: nat)
    requires i <= |placed|
    ensures FirstBadPosition(g, placed, i).None? <==>
              forall k :: i <= k < |placed| ==>
                OnBoard(placed[k].At()) && placed[k].At() !in g && placed[k].At() !in NewCells(placed[..k])
    decreases |placed| - i
  {
    if i < |placed| {
      GoodPositionsFrom(g, placed, i + 1);
    }
  }

  lemma PositionsGood(g: Grid, placed: seq<Placed>)
    ensures FirstBadPosition(g, placed, 0).None? <==> GoodPositions(g, placed)
  {
    GoodPositionsFrom(g, placed, 0);
    forall i, j | 0 <= i < j < |placed|
      ensures placed[i].At() == placed[j].At() ==> placed[j].At() in NewCells(placed[..j])
    {
      assert placed[..j][i] == placed[i];
    }
    forall k | 0 <= k < |placed| && placed[k].At() in NewCells(placed[..k])
      ensures exists i :: 0 <= i < k && placed[i].At() == placed[k].At()
    {
      var i :| 0 <= i < k && placed[..k][i].At() == placed[k].At();
      assert placed[i].At() == placed[k].At();
    }
  }

  // ----- Maximal runs -----

  // The maximal run through an occupied cell.
  ghost function RunThrough(g: Grid, horizontal: bool, p: Pos): Run {
    var fixed, i := if horizontal then p.r else p.c, if horizontal then p.c else p.r;
    Run(horizontal, fixed, Lo(g, horizontal, fixed, i), Hi(g, horizontal, fixed, i))
  }

  lemma RunThroughIsMaximal(g: Grid, horizontal: bool, p: Pos)
    requires GridOk(g) && p in g
    ensures Maximal(g, RunThrough(g, horizontal, p))
  {
    var run := RunThrough(g, horizontal, p);
    var i := if horizontal then p.c else p.r;
    assert OnBoard(p) && run.At(i) == p;
    assert !OnBoard(run.At(-1)) && !OnBoard(run.At(SIZE));
    forall k | run.start <= k <= run.end ensures run.At(k) in g {
    }
  }

  lemma MaximalUnique(g: Grid, a: Run, b: Run, i: int)
    requires Maximal(g, a) && Maximal(g, b) && a.horizontal == b.horizontal && a.fixed == b.fixed
    requires a.start <= i <= a.end && b.start <= i <= b.end
    ensures a == b
  {
    assert a.start < b.start ==> a.At(b.start - 1) in g;
    assert b.start < a.start ==> b.At(a.start - 1) in g;
    assert a.end < b.end ==> b.At(a.end + 1) in g;
    assert b.end < a.end ==> a.At(b.end + 1) in g;
  }

  // A cell of a run, as its index along it.
  ghost function IndexIn(run: Run, p: Pos): int {
    if run.horizontal then p.c else p.r
  }

  ghost predicate OnRun(run: Run, p: Pos) {
    run.At(IndexIn(run, p)) == p && run.start <= IndexIn(run, p) <= run.end
  }

  // ----- The formed words are the touched runs -----

  // The placement as the word search sees it: on occupied cells of one line without gaps.
  ghost predicate Laid(g: Grid, placed: seq<Placed>, horizontal: bool) {
    && GridOk(g) && placed != []
    && (forall i :: 0 <= i < |placed| ==> placed[i].At() in g)
    && (forall i, j :: 0 <= i < j < |placed| ==> placed[i].At() != placed[j].At())
    && (forall i :: 0 <= i < |placed| ==> Across(horizontal, placed[i]) == Across(horizontal, placed[0]))
    && Filled(g, MainRun(g, placed, horizontal))
  }

  lemma MainIsMaximal(g: Grid, placed: seq<Placed>, horizontal: bool)
    requires Laid(g, placed, horizontal)
    ensures var main := MainRun(g, placed, horizontal);
            Maximal(g, main) && forall i :: 0 <= i < |placed| ==> OnRun(main, placed[i].At())
  {
    var main := MainRun(g, placed, horizontal);
    assert OnBoard(placed[0].At());
    var i :| 0 <= i < |placed| && Along(horizontal, placed[i]) == Least(horizontal, placed);
    var j :| 0 <= j < |placed| && Along(horizontal, placed[j]) == Greatest(horizontal, placed);
    assert OnBoard(placed[i].At()) && OnBoard(placed[j].At());
    assert !OnBoard(main.At(-1)) && !OnBoard(main.At(SIZE));
  }

  lemma CrossIsMaximal(g: Grid, p: Placed, horizontal: bool)
    requires GridOk(g) && p.At() in g
    ensures Maximal(g, CrossRun(g, p, horizontal)) && OnRun(CrossRun(g, p, horizontal), p.At())
  {
    RunThroughIsMaximal(g, !horizontal, p.At());
  }

  lemma {:induction false} CrossRunsMembers(g: Grid, placed: seq<Placed>, horizontal: bool, run: Run)
    ensures run in CrossRuns(g, placed, horizontal) <==>
              run.start < run.end && exists k :: 0 <= k < |placed| && CrossRun(g, placed[k], horizontal) == run
  {
    if placed != [] {
      var front, last := placed[..|placed| - 1], placed[|placed| - 1];
      CrossRunsMembers(g, front, horizontal, run);
      if k :| 0 <= k < |placed| && CrossRun(g, placed[k], horizontal) == run {
        assert k < |placed| - 1 ==> front[k] == placed[k];
      }
    }
  }

  ghost predicate Distinct<T>(xs: seq<T>) {
    forall i, j :: 0 <= i < j < |xs| ==> xs[i] != xs[j]
  }

  lemma {:induction false} CrossRunsDistinct(g: Grid, placed: seq<Placed>, horizontal: bool)
    requires forall i, j :: 0 <= i < j < |placed| ==> Along(horizontal, placed[i]) != Along(horizontal, placed[j])
    ensures Distinct(CrossRuns(g, placed, horizontal))
  {
    if placed != [] {
      var front, last := placed[..|placed| - 1], placed[|placed| - 1];
      CrossRunsDistinct(g, front, horizontal);
      var lastRun := CrossRun(g, last, horizontal);
      CrossRunsMembers(g, front, horizontal, lastRun);
    }
  }

  lemma ListedIsTouched(g: Grid, placed: seq<Placed>, horizontal: bool, run: Run)
    requires Laid(g, placed, horizontal) && run in FormedRuns(g, placed, horizontal)
    ensures IsWordRun(g, run) && Touches(run, NewCells(placed))
  {
    var main := MainRun(g, placed, horizontal);
    MainIsMaximal(g, placed, horizontal);
    CrossRunsMembers(g, placed, horizontal, run);
    if run == main {
      assert OnRun(main, placed[0].At()) && placed[0].At() in NewCells(placed);
    } else {
      var k :| 0 <= k < |placed| && CrossRun(g, placed[k], horizontal) == run;
      CrossIsMaximal(g, placed[k], horizontal);
      assert OnRun(run, placed[k].At()) && placed[k].At() in NewCells(placed);
    }
  }

  lemma TouchedIsListed(g: Grid, placed: seq<Placed>, horizontal: bool, run: Run)
    requires Laid(g, placed, horizontal)
    requires IsWordRun(g, run) && Touches(run, NewCells(placed))
    ensures run in FormedRuns(g, placed, horizontal)
  {
    var main := MainRun(g, placed, horizontal);
    MainIsMaximal(g, placed, horizontal);
    CrossRunsMembers(g, placed, horizontal, run);
    var i :| run.start <= i <= run.end && run.At(i) in NewCells(placed);
    var k :| 0 <= k < |placed| && placed[k].At() == run.At(i);
    assert OnRun(main, placed[k].At());
    if run.horizontal == horizontal {
      MaximalUnique(g, run, main, i);
    } else {
      CrossIsMaximal(g, placed[k], horizontal);
      MaximalUnique(g, run, CrossRun(g, placed[k], horizontal), i);
    }
  }

  /** Every word run that contains a new cell is listed, and nothing else is. */
  lemma ListedIffTouched(g: Grid, placed: seq<Placed>, horizontal: bool)
    requires Laid(g, placed, horizontal)
    ensures forall run ::
              run in FormedRuns(g, placed, horizontal) <==> IsWordRun(g, run) && Touches(run, NewCells(placed))
  {
    forall run
      ensures run in FormedRuns(g, placed, horizontal) <==> IsWordRun(g, run) && Touches(run, NewCells(placed))
    {
      if run in FormedRuns(g, placed, horizontal) { ListedIsTouched(g, placed, horizontal, run); }
      if IsWordRun(g, run) && Touches(run, NewCells(placed)) { TouchedIsListed(g, placed, horizontal, run); }
    }
  }

  lemma ListedOnce(g: Grid, placed: seq<Placed>, horizontal: bool)
    requires Laid(g, placed, horizontal)
    ensures Distinct(FormedRuns(g, placed, horizontal))
  {
    forall i, j | 0 <= i < j < |placed| ensures Along(horizontal, placed[i]) != Along(horizontal, placed[j]) {
      assert Across(horizontal, placed[i]) == Across(horizontal, placed[j]);
      assert placed[i].At() != placed[j].At();
    }
    CrossRunsDistinct(g, placed, horizontal);
    var main := MainRun(g, placed, horizontal);
    CrossRunsMembers(g, placed, horizontal, main);
  }

  // ----- No split digraph, only dictionary words -----

  function Next(horizontal: bool, p: Pos): Pos {
    if horizontal then Pos(p.r, p.c + 1) else Pos(p.r + 1, p.c)
  }

  ghost predicate SplitPair(letters: Alphabet, g: Grid, horizontal: bool, p: Pos) {
    && p in g && Next(horizontal, p) in g
    && FormsDigraph(letters, Print(letters, LetterAt(g, p)), Print(letters, LetterAt(g, Next(horizontal, p))))
  }

  // No two neighbouring single letters, read left to right or top to bottom, spell a digraph.
  ghost predicate NoSplitPairs(letters: Alphabet, g: Grid) {
    forall horizontal, p :: !SplitPair(letters, g, horizontal, p)
  }

  ghost function RunText(letters: Alphabet, g: Grid, run: Run): string
    requires run.start <= run.end
  {
    Spell(letters, g, run, run.end - run.start + 1)
  }

  // Every maximal run of two or more cells spells a dictionary word.
  ghost predicate AllWords(rules: Rules, g: Grid) {
    forall run :: IsWordRun(g, run) ==> rules.isWord(RunText(rules.letters, g, run))
  }

  // A pair of neighbours lies in the word run through its first cell.
  lemma PairInRun(g: Grid, horizontal: bool, p: Pos)
    requires GridOk(g) && p in g && Next(horizontal, p) in g
    ensures var run := RunThrough(g, horizontal, p);
            IsWordRun(g, run) && run.start <= IndexIn(run, p) < run.end
            && run.At(IndexIn(run, p)) == p && run.At(IndexIn(run, p) + 1) == Next(horizontal, p)
  {
    RunThroughIsMaximal(g, horizontal, p);
    var run := RunThrough(g, horizontal, p);
    assert run.At(IndexIn(run, p) + 1) == Next(horizontal, p);
  }

  lemma {:induction false} SpellSame(letters: Alphabet, g: Grid, after: Grid, run: Run, n: nat)
    requires forall i :: run.start <= i < run.start + n ==> LetterAt(g, run.At(i)) == LetterAt(after, run.At(i))
    ensures Spell(letters, g, run, n) == Spell(letters, after, run, n)
  {
    if n > 0 {
      SpellSame(letters, g, after, run, n - 1);
    }
  }

  // ----- Which placements are accepted -----

  ghost predicate Between(a: Pos, q: Pos, b: Pos) {
    a.r <= q.r <= b.r && a.c <= q.c <= b.c
  }

  ghost predicate NoGap(after: Grid, placed: seq<Placed>) {
    forall i, j, q :: 0 <= i < |placed| && 0 <= j < |placed| && Between(placed[i].At(), q, placed[j].At()) ==>
      q in after
  }

  ghost predicate NoNewSplit(letters: Alphabet, after: Grid, added: set<Pos>) {
    forall horizontal, p :: SplitPair(letters, after, horizontal, p) ==> p !in added && Next(horizontal, p) !in added
  }

  ghost predicate NewWordsKnown(rules: Rules, after: Grid, added: set<Pos>) {
    forall run :: IsWordRun(after, run) && Touches(run, added) ==> rules.isWord(RunText(rules.letters, after, run))
  }

  // The tiles lie on free cells of one row or column with nothing missing between them.
  ghost predicate WellLaid(g: Grid, placed: seq<Placed>) {
    && placed != [] && GoodPositions(g, placed)
    && (SameRow(placed) || SameCol(placed))
    && NoGap(With(g, placed), placed)
  }

  // The first word covers the centre with two or more tiles; a later one touches what lies there.
  ghost predicate Anchored(g: Grid, empty: bool, placed: seq<Placed>) {
    if empty then CENTER in NewCells(placed) && |placed| >= 2
    else Attached(With(g, placed), placed, NewCells(placed))
  }

  /** The rules of a placement, stated on the resulting board without any search for words. */
  ghost predicate Legal(rules: Rules, g: Grid, empty: bool, placed: seq<Placed>, skipDictionary: bool) {
    && WellLaid(g, placed)
    && Anchored(g, empty, placed)
    && NoNewSplit(rules.letters, With(g, placed), NewCells(placed))
    && (skipDictionary || NewWordsKnown(rules, With(g, placed), NewCells(placed)))
  }

  lemma OneLine(placed: seq<Placed>, horizontal: bool)
    requires placed != []
    requires if horizontal then SameRow(placed) else SameCol(placed)
    ensures forall i :: 0 <= i < |placed| ==> Across(horizontal, placed[i]) == Across(horizontal, placed[0])
  {
  }

  lemma DirectionFits(after: Grid, placed: seq<Placed>)
    requires placed != [] && (SameRow(placed) || SameCol(placed))
    ensures if MainDirection(after, placed) then SameRow(placed) else SameCol(placed)
  {
  }

  // Nothing is missing between the tiles iff the main stretch is filled.
  lemma GapIffUnfilled(after: Grid, placed: seq<Placed>, horizontal: bool)
    requires placed != []
    requires forall i :: 0 <= i < |placed| ==> placed[i].At() in after
    requires forall i :: 0 <= i < |placed| ==> Across(horizontal, placed[i]) == Across(horizontal, placed[0])
    ensures NoGap(after, placed) <==> Filled(after, MainRun(after, placed, horizontal))
  {
    var main := MainRun(after, placed, horizontal);
    var lo :| 0 <= lo < |placed| && Along(horizontal, placed[lo]) == Least(horizontal, placed);
    var hi :| 0 <= hi < |placed| && Along(horizontal, placed[hi]) == Greatest(horizontal, placed);
    if NoGap(after, placed) {
      forall k | main.start <= k <= main.end ensures main.At(k) in after {
        if Least(horizontal, placed) <= k <= Greatest(horizontal, placed) {
          assert Between(placed[lo].At(), main.At(k), placed[hi].At());
        }
      }
    }
    if Filled(after, main) {
      forall i, j, q | 0 <= i < |placed| && 0 <= j < |placed| && Between(placed[i].At(), q, placed[j].At())
        ensures q in after
      {
        var k := if horizontal then q.c else q.r;
        assert Along(horizontal, placed[i]) <= k <= Along(horizontal, placed[j]);
        assert q == main.At(k);
      }
    }
  }

  lemma NewCellsAreIn(g: Grid, placed: seq<Placed>)
    ensures forall i :: 0 <= i < |placed| ==> placed[i].At() in NewCells(placed) && placed[i].At() in With(g, placed)
  {
    WithKeys(g, placed);
    forall i | 0 <= i < |placed| ensures placed[i].At() in NewCells(placed) {
    }
  }

  lemma GapInWellLaid(g: Grid, placed: seq<Placed>)
    requires placed != [] && (SameRow(placed) || SameCol(placed))
    ensures var after := With(g, placed);
            NoGap(after, placed) <==> Filled(after, MainRun(after, placed, MainDirection(after, placed)))
  {
    var after := With(g, placed);
    var h := MainDirection(after, placed);
    NewCellsAreIn(g, placed);
    DirectionFits(after, placed);
    OneLine(placed, h);
    GapIffUnfilled(after, placed, h);
  }

  lemma WellLaidIsLaid(g: Grid, placed: seq<Placed>)
    requires GridOk(g) && WellLaid(g, placed)
    ensures Laid(With(g, placed), placed, MainDirection(With(g, placed), placed))
  {
    var after := With(g, placed);
    WithKeys(g, placed);
    NewCellsAreIn(g, placed);
    assert GridOk(after) by {
      forall p | p in after ensures OnBoard(p) {
        assert p in g || p in NewCells(placed);
      }
    }
    DirectionFits(after, placed);
    OneLine(placed, MainDirection(after, placed));
    GapInWellLaid(g, placed);
  }

  lemma SplitRunHasPair(letters: Alphabet, after: Grid, added: set<Pos>, run: Run)
    requires Filled(after, run) && SplitsDigraph(letters, after, added, run)
    ensures !NoNewSplit(letters, after, added)
  {
    var i :| run.start <= i < run.end && NewSplitAt(letters, after, added, run, i);
    assert Next(run.horizontal, run.At(i)) == run.At(i + 1);
    assert SplitPair(letters, after, run.horizontal, run.At(i));
  }

  lemma PairSplitsRun(letters: Alphabet, after: Grid, added: set<Pos>, h: bool, p: Pos)
    requires GridOk(after) && SplitPair(letters, after, h, p) && (p in added || Next(h, p) in added)
    ensures var run := RunThrough(after, h, p);
            IsWordRun(after, run) && Touches(run, added) && SplitsDigraph(letters, after, added, run)
  {
    PairInRun(after, h, p);
    var run := RunThrough(after, h, p);
    var i := IndexIn(run, p);
    assert NewSplitAt(letters, after, added, run, i);
  }

  lemma NewPairRefused(letters: Alphabet, after: Grid, placed: seq<Placed>, horizontal: bool, h: bool, p: Pos)
    requires Laid(after, placed, horizontal)
    requires SplitPair(letters, after, h, p) && (p in NewCells(placed) || Next(h, p) in NewCells(placed))
    ensures SomeRunSplits(letters, after, NewCells(placed), FormedRuns(after, placed, horizontal))
  {
    var run, runs := RunThrough(after, h, p), FormedRuns(after, placed, horizontal);
    PairSplitsRun(letters, after, NewCells(placed), h, p);
    TouchedIsListed(after, placed, horizontal, run);
    var k :| 0 <= k < |runs| && runs[k] == run;
  }

  // A listed run splits a digraph iff some split pair has a new cell.
  lemma SplitIffNewPair(letters: Alphabet, after: Grid, placed: seq<Placed>, horizontal: bool)
    requires Laid(after, placed, horizontal)
    ensures SomeRunSplits(letters, after, NewCells(placed), FormedRuns(after, placed, horizontal))
            <==> !NoNewSplit(letters, after, NewCells(placed))
  {
    var runs := FormedRuns(after, placed, horizontal);
    var added := NewCells(placed);
    if k :| 0 <= k < |runs| && SplitsDigraph(letters, after, added, runs[k]) {
      ListedIsTouched(after, placed, horizontal, runs[k]);
      SplitRunHasPair(letters, after, added, runs[k]);
    }
    if h, p :| SplitPair(letters, after, h, p) && (p in added || Next(h, p) in added) {
      NewPairRefused(letters, after, placed, horizontal, h, p);
    }
  }

  // Some formed word is unknown iff some touched run spells no dictionary word.
  lemma UnknownIffNewWord(rules: Rules, after: Grid, placed: seq<Placed>, horizontal: bool)
    requires Laid(after, placed, horizontal)
    ensures var formed := FormedAll(rules.letters, after, NewCells(placed), FormedRuns(after, placed, horizontal));
            SomeUnknown(rules, formed) <==> !NewWordsKnown(rules, after, NewCells(placed))
  {
    hide CrossRuns, MainRun, NewCells, Maximal, Spell, LetterScore, Multiplier;
    var runs := FormedRuns(after, placed, horizontal);
    var formed := FormedAll(rules.letters, after, NewCells(placed), runs);
    if k :| 0 <= k < |formed| && !rules.isWord(formed[k].word) {
      ListedIsTouched(after, placed, horizontal, runs[k]);
      assert formed[k].word == RunText(rules.letters, after, runs[k]);
    }
    if run :|
      IsWordRun(after, run) && Touches(run, NewCells(placed)) && !rules.isWord(RunText(rules.letters, after, run)) {
      TouchedIsListed(after, placed, horizontal, run);
      var k :| 0 <= k < |runs| && runs[k] == run;
      assert formed[k].word == RunText(rules.letters, after, run);
    }
  }

  // A single tile is attached iff it has a neighbour.
  lemma SingleAttached(g: Grid, placed: seq<Placed>)
    requires |placed| == 1 && GoodPositions(g, placed)
    ensures Attached(With(g, placed), placed, NewCells(placed)) <==>
              HasRowNeighbour(With(g, placed), placed[0].At()) || HasColNeighbour(With(g, placed), placed[0].At())
  {
    var after, p := With(g, placed), placed[0].At();
    assert NewCells(placed) == {p};
    forall q | Adjacent(p, q) && q in after ensures Attached(after, placed, NewCells(placed)) {
      assert Adjacent(placed[0].At(), q) && q !in NewCells(placed);
    }
    assert Adjacent(p, Pos(p.r, p.c - 1)) && Adjacent(p, Pos(p.r, p.c + 1));
    assert Adjacent(p, Pos(p.r - 1, p.c)) && Adjacent(p, Pos(p.r + 1, p.c));
  }

  lemma TwoCellsApart(run: Run, p: Pos, q: Pos)
    requires OnRun(run, p) && OnRun(run, q) && p != q
    ensures run.start < run.end
  {
  }

  // An anchored placement always forms a word: the source's last geometric error cannot occur.
  lemma AnchoredFormsWord(g: Grid, empty: bool, placed: seq<Placed>)
    requires GridOk(g) && WellLaid(g, placed) && Anchored(g, empty, placed)
    ensures FormedRuns(With(g, placed), placed, MainDirection(With(g, placed), placed)) != []
  {
    WellLaidIsLaid(g, placed);
    if |placed| == 1 {
      SingleAttached(g, placed);
    }
    MainIsWord(With(g, placed), placed);
  }

  lemma MainIsWord(after: Grid, placed: seq<Placed>)
    requires placed != [] && Laid(after, placed, MainDirection(after, placed))
    requires |placed| >= 2 || HasRowNeighbour(after, placed[0].At()) || HasColNeighbour(after, placed[0].At())
    ensures var main := MainRun(after, placed, MainDirection(after, placed)); main.start < main.end
  {
    var h := MainDirection(after, placed);
    MainIsMaximal(after, placed, h);
    var main := MainRun(after, placed, h);
    assert OnRun(main, placed[0].At());
    if |placed| >= 2 {
      assert OnRun(main, placed[1].At());
      TwoCellsApart(main, placed[0].At(), placed[1].At());
    } else {
      SingleMainIsWord(after, placed);
    }
  }

  lemma SingleMainIsWord(after: Grid, placed: seq<Placed>)
    requires |placed| == 1 && Maximal(after, MainRun(after, placed, MainDirection(after, placed)))
    requires OnRun(MainRun(after, placed, MainDirection(after, placed)), placed[0].At())
    requires HasRowNeighbour(after, placed[0].At()) || HasColNeighbour(after, placed[0].At())
    ensures var main := MainRun(after, placed, MainDirection(after, placed)); main.start < main.end
  {
    var main := MainRun(after, placed, MainDirection(after, placed));
    var i := IndexIn(main, placed[0].At());
    assert main.At(i - 1) in after || main.At(i + 1) in after;
  }

  lemma JudgedOk(formed: seq<FormedWord>, gap: bool, loose: bool, splits: bool, unknown: bool)
    ensures Judge(formed, gap, loose, splits, unknown).Ok? <==> !gap && !loose && formed != [] && !splits && !unknown
  {
  }

  lemma WordsOkIffLegal(rules: Rules, g: Grid, empty: bool, placed: seq<Placed>, skipDictionary: bool)
    requires GridOk(g) && placed != [] && GoodPositions(g, placed) && (SameRow(placed) || SameCol(placed))
    requires empty ==> CENTER in NewCells(placed) && |placed| >= 2
    ensures var after := With(g, placed);
            ValidateWords(rules, after, empty, placed, NewCells(placed), MainDirection(after, placed),
                          skipDictionary).Ok?
            <==> Legal(rules, g, empty, placed, skipDictionary)
  {
    hide With, NewCells, MainDirection, FormedRuns, MainRun, Filled, Attached, SomeUnknown, SomeRunSplits, NoNewSplit;
    hide NewWordsKnown, GoodPositions, NoGap, Formed;
    var after, added := With(g, placed), NewCells(placed);
    var h := MainDirection(after, placed);
    var runs := FormedRuns(after, placed, h);
    var formed := FormedAll(rules.letters, after, added, runs);
    var gap, loose := !Filled(after, MainRun(after, placed, h)), !empty && !Attached(after, placed, added);
    JudgedOk(formed, gap, loose, SomeRunSplits(rules.letters, after, added, runs),
             !skipDictionary && SomeUnknown(rules, formed));
    assert gap <==> !WellLaid(g, placed) by { GapInWellLaid(g, placed); }
    if !gap && !loose {
      WellLaidIsLaid(g, placed);
      AnchoredFormsWord(g, empty, placed);
      SplitIffNewPair(rules.letters, after, placed, h);
      UnknownIffNewWord(rules, after, placed, h);
    }
  }

  /** The checks, with their direction choice and their scans for words, accept exactly the legal placements. */
  lemma ValidateIffLegal(rules: Rules, g: Grid, empty: bool, placed: seq<Placed>, skipDictionary: bool)
    requires GridOk(g)
    ensures Validate(rules, g, empty, placed, skipDictionary).Ok? <==> Legal(rules, g, empty, placed, skipDictionary)
  {
    PositionsGood(g, placed);
    if placed != [] && GoodPositions(g, placed) && (SameRow(placed) || SameCol(placed)) {
      if |placed| == 1 {
        SingleAttached(g, placed);
      }
      if empty ==> CENTER in NewCells(placed) && |placed| >= 2 {
        WordsOkIffLegal(rules, g, empty, placed, skipDictionary);
      }
    }
  }

  lemma OkIsFormedAll(rules: Rules, g: Grid, empty: bool, placed: seq<Placed>, skipDictionary: bool)
    requires Validate(rules, g, empty, placed, skipDictionary).Ok?
    ensures placed != []
    ensures Validate(rules, g, empty, placed, skipDictionary).value
            == FormedAll(rules.letters, With(g, placed), NewCells(placed),
                         FormedRuns(With(g, placed), placed, MainDirection(With(g, placed), placed)))
  {
  }

  /**
   The words a placement forms are exactly the maximal runs of two or more cells of the resulting board
   that contain a new cell, each listed once.
   */
  lemma FormedWordsAreTouchedRuns(rules: Rules, g: Grid, empty: bool, placed: seq<Placed>, skipDictionary: bool)
    returns (runs: seq<Run>)
    requires GridOk(g) && Validate(rules, g, empty, placed, skipDictionary).Ok?
    ensures forall run :: run in runs <==> IsWordRun(With(g, placed), run) && Touches(run, NewCells(placed))
    ensures Distinct(runs)
    ensures forall i :: 0 <= i < |runs| ==> runs[i].start <= runs[i].end
    ensures Validate(rules, g, empty, placed, skipDictionary).value
            == FormedAll(rules.letters, With(g, placed), NewCells(placed), runs)
  {
    OkIsFormedAll(rules, g, empty, placed, skipDictionary);
    ValidateIffLegal(rules, g, empty, placed, skipDictionary);
    var after := With(g, placed);
    var h := MainDirection(after, placed);
    WellLaidIsLaid(g, placed);
    ListedIffTouched(after, placed, h);
    ListedOnce(after, placed, h);
    runs := FormedRuns(after, placed, h);
  }

  // ----- One connected crossword around the centre -----

  ghost predicate IsPath(g: Grid, path: seq<Pos>) {
    && path != []
    && (forall i :: 0 <= i < |path| ==> path[i] in g)
    && (forall i :: 0 < i < |path| ==> Adjacent(path[i - 1], path[i]))
  }

  // There is a path of neighbouring tiles from the centre to p.
  ghost predicate Linked(g: Grid, p: Pos) {
    exists path :: IsPath(g, path) && path[0] == CENTER && path[|path| - 1] == p
  }

  ghost predicate Connected(g: Grid) {
    forall p :: p in g ==> Linked(g, p)
  }

  lemma LinkStep(g: Grid, p: Pos, q: Pos)
    requires Linked(g, p) && q in g && Adjacent(p, q)
    ensures Linked(g, q)
  {
    var path :| IsPath(g, path) && path[0] == CENTER && path[|path| - 1] == p;
    assert IsPath(g, path + [q]);
  }

  lemma LinkGrows(g: Grid, after: Grid, p: Pos)
    requires Linked(g, p) && g.Keys <= after.Keys
    ensures Linked(after, p)
  {
    var path :| IsPath(g, path) && path[0] == CENTER && path[|path| - 1] == p;
    assert forall i :: 0 <= i < |path| ==> path[i] in g.Keys;
    assert IsPath(after, path);
  }

  lemma {:induction false} LinkAlong(g: Grid, run: Run, i: int, j: int)
    requires Filled(g, run) && run.start <= i <= run.end && run.start <= j <= run.end && Linked(g, run.At(i))
    ensures Linked(g, run.At(j))
    decreases if i < j then j - i else i - j
  {
    if i < j {
      LinkStep(g, run.At(i), run.At(i + 1));
      LinkAlong(g, run, i + 1, j);
    } else if j < i {
      LinkStep(g, run.At(i), run.At(i - 1));
      LinkAlong(g, run, i - 1, j);
    }
  }

  // Some new cell of an anchored placement is linked to the centre.
  lemma SomeNewCellLinked(g: Grid, empty: bool, placed: seq<Placed>) returns (k: nat)
    requires Connected(g) && Anchored(g, empty, placed)
    ensures k < |placed| && Linked(With(g, placed), placed[k].At())
  {
    var after := With(g, placed);
    WithKeys(g, placed);
    NewCellsAreIn(g, placed);
    if empty {
      k :| 0 <= k < |placed| && placed[k].At() == CENTER;
      assert IsPath(after, [CENTER]);
    } else {
      var i, q :| 0 <= i < |placed| && Adjacent(placed[i].At(), q) && q !in NewCells(placed) && q in after;
      LinkGrows(g, after, q);
      LinkStep(after, q, placed[i].At());
      k := i;
    }
  }

  // Every cell is linked to the centre through the main stretch or the old board.
  lemma CellLinked(g: Grid, placed: seq<Placed>, main: Run, k: nat, p: Pos)
    requires GridOk(g) && Connected(g) && GoodPositions(g, placed) && p in With(g, placed)
    requires Maximal(With(g, placed), main) && forall i :: 0 <= i < |placed| ==> OnRun(main, placed[i].At())
    requires k < |placed| && Linked(With(g, placed), placed[k].At())
    ensures Linked(With(g, placed), p)
  {
    WithKeys(g, placed);
    var after := With(g, placed);
    hide With, Linked;
    if p in g {
      LinkGrows(g, after, p);
    } else {
      var i :| 0 <= i < |placed| && placed[i].At() == p;
      assert OnRun(main, placed[i].At()) && OnRun(main, placed[k].At());
      LinkAlong(after, main, IndexIn(main, placed[k].At()), IndexIn(main, p));
    }
  }

  /** A legal placement keeps the board one 4-connected component that contains the centre. */
  lemma ConnectedKept(g: Grid, empty: bool, placed: seq<Placed>)
    requires GridOk(g) && Connected(g) && WellLaid(g, placed) && Anchored(g, empty, placed)
    ensures GridOk(With(g, placed)) && Connected(With(g, placed)) && With(g, placed) != map[]
  {
    WithKeys(g, placed);
    var after := With(g, placed);
    var h := MainDirection(after, placed);
    var main := MainRun(after, placed, h);
    WellLaidIsLaid(g, placed);
    MainIsMaximal(after, placed, h);
    var k := SomeNewCellLinked(g, empty, placed);
    assert OnRun(main, placed[k].At());
    forall p | p in after ensures Linked(after, p) {
      CellLinked(g, placed, main, k, p);
    }
  }

  /** Only pairs with a new tile are checked, yet no split digraph ever appears on the board. */
  lemma NoSplitPairsKept(letters: Alphabet, g: Grid, placed: seq<Placed>)
    requires NoSplitPairs(letters, g) && NoNewSplit(letters, With(g, placed), NewCells(placed))
    ensures NoSplitPairs(letters, With(g, placed))
  {
    WithKeys(g, placed);
    var after := With(g, placed);
    forall h, p ensures !SplitPair(letters, after, h, p) {
      assert SplitPair(letters, after, h, p) ==> SplitPair(letters, g, h, p);
    }
  }

  // A word run without a new cell was a word run before, with the same text.
  lemma UntouchedRun(letters: Alphabet, g: Grid, placed: seq<Placed>, run: Run)
    requires IsWordRun(With(g, placed), run) && !Touches(run, NewCells(placed))
    ensures IsWordRun(g, run) && RunText(letters, g, run) == RunText(letters, With(g, placed), run)
  {
    WithKeys(g, placed);
    var after := With(g, placed);
    forall i | run.start <= i <= run.end ensures run.At(i) in g && after[run.At(i)] == g[run.At(i)] {
      assert run.At(i) in after;
    }
    SpellSame(letters, g, after, run, run.end - run.start + 1);
  }

  /** Only words with a new tile are looked up, yet every word on the board is in the dictionary. */
  lemma AllWordsKept(rules: Rules, g: Grid, placed: seq<Placed>)
    requires AllWords(rules, g) && NewWordsKnown(rules, With(g, placed), NewCells(placed))
    ensures AllWords(rules, With(g, placed))
  {
    var after := With(g, placed);
    forall run | IsWordRun(after, run) ensures rules.isWord(RunText(rules.letters, after, run)) {
      if !Touches(run, NewCells(placed)) {
        UntouchedRun(rules.letters, g, placed, run);
      }
    }
  }
}
