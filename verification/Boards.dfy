/** The board object: a 15x15 array of cells, and the checks of a placement as loops over it. */
module Boards {
  import opened Results
  import opened Tiles
  import opened Grids
  import opened BoardLaws
  import opened Saves

  // The mask of newly placed cells holds exactly these cells.
  ghost predicate Marks(mask: array2<bool>, added: set<Pos>)
    reads mask
  {
    && mask.Length0 == SIZE && mask.Length1 == SIZE
    && forall r, c :: 0 <= r < SIZE && 0 <= c < SIZE ==> (mask[r, c] <==> Pos(r, c) in added)
  }

  // The cells of a word, in order.
  lemma MaximalCells(g: Grid, run: Run)
    requires Maximal(g, run)
    ensures run.start <= run.end && |RunCells(run)| == run.end - run.start + 1
    ensures forall k :: 0 <= k < |RunCells(run)| ==> RunCells(run)[k] == run.At(run.start + k)
    ensures forall k :: 0 <= k < |RunCells(run)| ==> RunCells(run)[k] in g
  {
  }

  class Board {
    const cells: array2<Option<Cell>>
    var isEmpty: bool

    ghost predicate Valid() {
      cells.Length0 == SIZE && cells.Length1 == SIZE
    }

    function Contents(): (g: Grid)
      requires Valid()
      reads cells
      ensures GridOk(g)
    {
      map p | p in AllPositions() && cells[p.r, p.c].Some? :: cells[p.r, p.c].value
    }

    constructor ()
      ensures Valid() && fresh(cells)
      ensures Contents() == map[] && isEmpty
    {
      cells := new Option<Cell>[SIZE, SIZE]((_, _) => None);
      isEmpty := true;
    }

    method Copy() returns (copy: Board)
      requires Valid()
      ensures fresh(copy) && fresh(copy.cells) && copy.Valid()
      ensures copy.Contents() == Contents() && copy.isEmpty == isEmpty
    {
      copy := new Board();
      copy.isEmpty := isEmpty;
      forall r, c | 0 <= r < SIZE && 0 <= c < SIZE {
        copy.cells[r, c] := cells[r, c];
      }
    }

    function Get(row: int, col: int): (r: Option<Cell>)
      requires Valid()
      reads cells
      ensures r.Some? <==> Pos(row, col) in Contents()
      ensures r.Some? ==> r.value == Contents()[Pos(row, col)]
    {
      if 0 <= row < SIZE && 0 <= col < SIZE then cells[row, col] else None
    }

    predicate HasLetter(row: int, col: int)
      requires Valid()
      reads cells
    {
      Get(row, col).Some?
    }

    method Set(p: Placed)
      requires Valid() && OnBoard(p.At())
      modifies cells
      ensures Contents() == old(Contents())[p.At() := p.AsCell()]
    {
      cells[p.row, p.col] := Some(Cell(p.letter, p.isBlank));
    }

    // Puts the tiles down on the cells, without touching the emptiness flag.
    method Put(placed: seq<Placed>)
      requires Valid() && forall i :: 0 <= i < |placed| ==> OnBoard(placed[i].At())
      modifies cells
      ensures Contents() == With(old(Contents()), placed)
    {
      var i := 0;
      while i < |placed|
        invariant 0 <= i <= |placed|
        invariant Contents() == With(old(Contents()), placed[..i])
      {
        assert placed[..i + 1][..i] == placed[..i];
        Set(placed[i]);
        i := i + 1;
      }
      assert placed[..i] == placed;
    }

    method ApplyPlacement(placed: seq<Placed>)
      requires Valid() && forall i :: 0 <= i < |placed| ==> OnBoard(placed[i].At())
      modifies this, cells
      ensures Contents() == With(old(Contents()), placed) && !isEmpty
    {
      Put(placed);
      isEmpty := false;
    }

    // ----- Saving and restoring -----

    function ToJson(letters: Alphabet): SavedBoard
      requires Valid()
      reads cells
    {
      BoardToJson(letters, Contents())
    }

    // A board read from a saved one; it is empty when no cell could be read.
    constructor FromJson(letters: Alphabet, rows: SavedBoard)
      ensures Valid() && fresh(cells)
      ensures Contents() == BoardFromJson(letters, rows)
      ensures isEmpty <==> BoardFromJson(letters, rows) == map[]
    {
      cells := new Option<Cell>[SIZE, SIZE]((_, _) => None);
      isEmpty := true;
      new;
      var r := 0;
      while r < SIZE
        invariant 0 <= r <= SIZE
        invariant ReadUpTo(letters, rows, r, 0)
        invariant fresh(cells)
      {
        ReadRow(letters, rows, r);
        r := r + 1;
      }
      AllRead(letters, rows);
    }

    lemma AllRead(letters: Alphabet, rows: SavedBoard)
      requires Valid() && ReadUpTo(letters, rows, SIZE, 0)
      ensures Contents() == BoardFromJson(letters, rows)
      ensures isEmpty <==> BoardFromJson(letters, rows) == map[]
    {
      hide CellFromJson;
      assert isEmpty ==> BoardFromJson(letters, rows).Keys == {};
      if !isEmpty {
        var i, j :| 0 <= i < SIZE && 0 <= j < SIZE && cells[i, j].Some?;
        assert Pos(i, j) in Contents();
      }
    }

    // Everything before column c of row r has been read, nothing after it.
    ghost predicate ReadUpTo(letters: Alphabet, rows: SavedBoard, r: int, c: int)
      requires Valid()
      reads this, cells
    {
      && (forall i, j :: 0 <= i < SIZE && 0 <= j < SIZE ==>
            cells[i, j] == if i < r || (i == r && j < c) then CellFromJson(letters, rows, Pos(i, j)) else None)
      && (isEmpty <==> forall i, j :: 0 <= i < SIZE && 0 <= j < SIZE ==> cells[i, j].None?)
    }

    method ReadRow(letters: Alphabet, rows: SavedBoard, r: int)
      requires Valid() && 0 <= r < SIZE && ReadUpTo(letters, rows, r, 0)
      modifies this, cells
      ensures ReadUpTo(letters, rows, r + 1, 0)
    {
      var c := 0;
      while c < SIZE
        invariant 0 <= c <= SIZE
        invariant ReadUpTo(letters, rows, r, c)
      {
        var cell := CellFromJson(letters, rows, Pos(r, c));
        if cell.Some? {
          cells[r, c] := cell;
          isEmpty := false;
        }
        c := c + 1;
      }
    }

    // ----- Extracting words -----

    function At(horizontal: bool, fixed: int, i: int): (r: Option<Cell>)
      requires Valid() && 0 <= fixed < SIZE && 0 <= i < SIZE
      reads cells
      ensures r.Some? <==> CellAt(horizontal, fixed, i) in Contents()
    {
      if horizontal then cells[fixed, i] else cells[i, fixed]
    }

    method FindWordBounds(fixed: int, from: int, to: int, horizontal: bool) returns (start: int, end: int)
      requires Valid() && 0 <= fixed < SIZE && 0 <= from < SIZE && 0 <= to < SIZE
      ensures start == Lo(Contents(), horizontal, fixed, from)
      ensures end == Hi(Contents(), horizontal, fixed, to)
    {
      start, end := from, to;
      while start > 0 && At(horizontal, fixed, start - 1).Some?
        invariant 0 <= start < SIZE
        invariant Lo(Contents(), horizontal, fixed, start) == Lo(Contents(), horizontal, fixed, from)
      {
        start := start - 1;
      }
      while end < SIZE - 1 && At(horizontal, fixed, end + 1).Some?
        invariant 0 <= end < SIZE
        invariant Hi(Contents(), horizontal, fixed, end) == Hi(Contents(), horizontal, fixed, to)
      {
        end := end + 1;
      }
    }

    // Walks along a run and collects its text, its cells, its points and its word premiums.
    method ScanRun(letters: Alphabet, run: Run, mask: array2<bool>, ghost added: set<Pos>)
        returns (word: string, positions: seq<Pos>, letterScore: int, multiplier: int)
      requires Valid() && Marks(mask, added)
      requires 0 <= run.fixed < SIZE && 0 <= run.start <= run.end < SIZE && Filled(Contents(), run)
      ensures var n := run.end - run.start + 1;
              && word == Spell(letters, Contents(), run, n)
              && positions == seq(n, k => run.At(run.start + k))
              && letterScore == LetterScore(Contents(), added, run, n)
              && multiplier == Multiplier(added, run, n)
    {
      ghost var g := Contents();
      word, positions, letterScore, multiplier := "", [], 0, 1;
      assert Scanned(letters, g, added, run, 0, word, positions, letterScore, multiplier);
      hide Scanned;
      var n := 0;
      while run.start + n <= run.end
        invariant 0 <= n <= run.end - run.start + 1
        invariant Scanned(letters, g, added, run, n, word, positions, letterScore, multiplier)
      {
        var p := run.At(run.start + n);
        assert p in g;
        var cell := cells[p.r, p.c].value;
        ScannedGrows(letters, g, added, run, n, word, positions, letterScore, multiplier);
        word := word + Print(letters, cell.letter);
        positions := positions + [p];
        letterScore := letterScore + PointsOf(cell, mask[p.r, p.c], PremiumAt(p));
        multiplier := multiplier * FactorOf(mask[p.r, p.c], PremiumAt(p));
        n := n + 1;
      }
      ScannedAll(letters, g, added, run, n, word, positions, letterScore, multiplier);
    }

    method ExtractWord(letters: Alphabet, run: Run, mask: array2<bool>, ghost added: set<Pos>)
      returns (formed: FormedWord)
      requires Valid() && Marks(mask, added)
      requires 0 <= run.fixed < SIZE && 0 <= run.start <= run.end < SIZE && Filled(Contents(), run)
      ensures formed == Formed(letters, Contents(), added, run)
    {
      var word, positions, letterScore, multiplier := ScanRun(letters, run, mask, added);
      return FormedWord(word, positions, letterScore * multiplier);
    }

    // ----- Phases of the validation -----

    method ValidatePositions(placed: seq<Placed>) returns (error: Option<BoardError>)
      requires Valid()
      ensures error == FirstBadPosition(Contents(), placed, 0)
    {
      var seen: set<Pos> := {};
      var i := 0;
      while i < |placed|
        invariant 0 <= i <= |placed|
        invariant seen == NewCells(placed[..i])
        invariant FirstBadPosition(Contents(), placed, 0) == FirstBadPosition(Contents(), placed, i)
      {
        var p := placed[i].At();
        if !OnBoard(p) { return Some(OffBoard); }
        if cells[p.r, p.c].Some? { return Some(Occupied); }
        if p in seen { return Some(PlacedTwice); }
        NewCellsSplit(placed[..i + 1]);
        assert placed[..i + 1][..i] == placed[..i];
        seen := seen + {p};
        i := i + 1;
      }
      return None;
    }

    predicate CheckContinuity(run: Run)
      requires Valid() && 0 <= run.fixed < SIZE && 0 <= run.start && run.end < SIZE
      reads cells
      ensures CheckContinuity(run) <==> Filled(Contents(), run)
    {
      forall i | run.start <= i <= run.end :: HasLetter(run.At(i).r, run.At(i).c)
    }

    method CheckAdjacency(placed: seq<Placed>, mask: array2<bool>, ghost added: set<Pos>) returns (attached: bool)
      requires Valid() && Marks(mask, added)
      ensures attached <==> Attached(Contents(), placed, added)
    {
      for i := 0 to |placed|
        invariant forall k, q :: 0 <= k < i && Adjacent(placed[k].At(), q) ==> q in added || q !in Contents()
      {
        var p := placed[i].At();
        var around := [Pos(p.r - 1, p.c), Pos(p.r + 1, p.c), Pos(p.r, p.c - 1), Pos(p.r, p.c + 1)];
        for n := 0 to 4
          invariant forall k :: 0 <= k < n ==> around[k] in added || around[k] !in Contents()
        {
          var q := around[n];
          if OnBoard(q) && !mask[q.r, q.c] && HasLetter(q.r, q.c) {
            assert Adjacent(placed[i].At(), q);
            return true;
          }
        }
        assert forall q :: Adjacent(p, q) ==> q == around[0] || q == around[1] || q == around[2] || q == around[3];
      }
      return false;
    }

    // The word along this stretch, if it is one.
    method WordAlong(letters: Alphabet, run: Run, mask: array2<bool>, ghost added: set<Pos>)
      returns (formed: seq<FormedWord>)
      requires Valid() && Marks(mask, added) && Maximal(Contents(), run)
      ensures formed == FormedAll(letters, Contents(), added, IfWord(run))
    {
      if run.end > run.start {
        var word := ExtractWord(letters, run, mask, added);
        return [word];
      }
      return [];
    }

    method CollectWords(letters: Alphabet, placed: seq<Placed>, mask: array2<bool>, horizontal: bool, main: Run,
                        ghost added: set<Pos>)
      returns (formed: seq<FormedWord>)
      requires Valid() && Marks(mask, added)
      requires Laid(Contents(), placed, horizontal) && main == MainRun(Contents(), placed, horizontal)
      ensures formed == FormedAll(letters, Contents(), added, FormedRuns(Contents(), placed, horizontal))
    {
      hide FormedUpTo, CrossRuns, MainRun, Formed;
      ghost var g := Contents();
      formed := MainWord(letters, placed, mask, horizontal, main, added);
      FormedRunsUpTo(letters, g, placed, 0, horizontal, added);
      var i := 0;
      while i < |placed|
        invariant 0 <= i <= |placed|
        invariant formed == FormedUpTo(letters, g, placed, i, horizontal, added)
      {
        formed := AddCrossWord(letters, placed, i, mask, horizontal, added, formed);
        i := i + 1;
      }
      FormedUpToAll(letters, g, placed, horizontal, added);
    }

    method MainWord(letters: Alphabet, placed: seq<Placed>, mask: array2<bool>, horizontal: bool, main: Run,
                    ghost added: set<Pos>)
      returns (formed: seq<FormedWord>)
      requires Valid() && Marks(mask, added)
      requires Laid(Contents(), placed, horizontal) && main == MainRun(Contents(), placed, horizontal)
      ensures formed == FormedAll(letters, Contents(), added, IfWord(main))
    {
      MainIsMaximal(Contents(), placed, horizontal);
      formed := WordAlong(letters, main, mask, added);
    }

    // One more cross word, if the tile is part of one.
    method AddCrossWord(letters: Alphabet, placed: seq<Placed>, i: nat, mask: array2<bool>, horizontal: bool,
                        ghost added: set<Pos>,
                        before: seq<FormedWord>) returns (formed: seq<FormedWord>)
      requires Valid() && Marks(mask, added) && i < |placed| && placed[i].At() in Contents()
      requires before == FormedUpTo(letters, Contents(), placed, i, horizontal, added)
      ensures formed == FormedUpTo(letters, Contents(), placed, i + 1, horizontal, added)
    {
      var word := CrossWord(letters, placed[i], mask, horizontal, added);
      FormedRunsUpTo(letters, Contents(), placed, i + 1, horizontal, added);
      formed := before + word;
    }

    // The word across the main direction through one new tile.
    method CrossWord(letters: Alphabet, p: Placed, mask: array2<bool>, horizontal: bool, ghost added: set<Pos>)
      returns (formed: seq<FormedWord>)
      requires Valid() && Marks(mask, added) && p.At() in Contents()
      ensures formed == FormedAll(letters, Contents(), added, IfWord(CrossRun(Contents(), p, horizontal)))
    {
      CrossIsMaximal(Contents(), p, horizontal);
      var fixed, i := Along(horizontal, p), Across(horizontal, p);
      var start, end := FindWordBounds(fixed, i, i, !horizontal);
      formed := WordAlong(letters, Run(!horizontal, fixed, start, end), mask, added);
    }

    // The digraph that the neighbours at p and q spell, if one of them is new.
    method DigraphAt(letters: Alphabet, p: Pos, q: Pos, mask: array2<bool>, ghost run: Run, ghost added: set<Pos>,
                     ghost k: int)
      returns (digraph: Option<string>)
      requires Valid() && Marks(mask, added) && p == run.At(k) && q == run.At(k + 1)
      requires p in Contents() && q in Contents()
      ensures digraph == if NewSplitAt(letters, Contents(), added, run, k)
                         then Some(SpelledAt(letters, Contents(), run, k)) else None
    {
      ghost var g := Contents();
      assert OnBoard(p) && OnBoard(q);
      if mask[p.r, p.c] || mask[q.r, q.c] {
        var first := Print(letters, cells[p.r, p.c].value.letter);
        var second := Print(letters, cells[q.r, q.c].value.letter);
        if FormsDigraph(letters, first, second) {
          return Some(first + second);
        }
      }
      return None;
    }

    method SplitsIn(letters: Alphabet, positions: seq<Pos>, mask: array2<bool>, ghost run: Run, ghost added: set<Pos>)
      returns (digraph: Option<string>)
      requires Valid() && Marks(mask, added)
      requires Maximal(Contents(), run) && positions == RunCells(run)
      ensures digraph.Some? <==> SplitsDigraph(letters, Contents(), added, run)
      ensures digraph.Some? ==> FirstSplitIs(letters, Contents(), added, run, digraph.value)
    {
      hide Contents, Maximal, NewSplitAt, SpelledAt, RunCells;
      ghost var g := Contents();
      MaximalCells(g, run);
      var k := 0;
      while k < |positions| - 1
        invariant 0 <= k <= |positions| - 1
        invariant forall i :: run.start <= i < run.start + k ==> !NewSplitAt(letters, g, added, run, i)
      {
        digraph := DigraphAt(letters, positions[k], positions[k + 1], mask, run, added, run.start + k);
        if digraph.Some? {
          assert FirstSplitAt(letters, g, added, run, run.start + k);
          return digraph;
        }
        k := k + 1;
      }
      return None;
    }

    method FindSplitDigraph(letters: Alphabet, formed: seq<FormedWord>, mask: array2<bool>, ghost runs: seq<Run>,
                            ghost added: set<Pos>)
      returns (digraph: Option<string>)
      requires Valid() && Marks(mask, added)
      requires forall i :: 0 <= i < |runs| ==> runs[i].start <= runs[i].end && Maximal(Contents(), runs[i])
      requires formed == FormedAll(letters, Contents(), added, runs)
      ensures digraph.Some? <==> SomeRunSplits(letters, Contents(), added, runs)
      ensures digraph.Some? ==> FirstOfAll(letters, Contents(), added, runs, digraph.value)
    {
      for w := 0 to |formed|
        invariant forall k :: 0 <= k < w ==> !SplitsDigraph(letters, Contents(), added, runs[k])
      {
        digraph := SplitsIn(letters, formed[w].positions, mask, runs[w], added);
        if digraph.Some? { return digraph; }
      }
      return None;
    }

    // The words of a placement without gaps: formed, free of split digraphs, known.
    method JudgeWords(rules: Rules, placed: seq<Placed>, mask: array2<bool>, horizontal: bool, main: Run,
                      skipDictionary: bool, ghost added: set<Pos>)
      returns (result: Result<seq<FormedWord>, BoardError>)
      requires Valid() && Marks(mask, added)
      requires Laid(Contents(), placed, horizontal) && main == MainRun(Contents(), placed, horizontal)
      ensures var runs := FormedRuns(Contents(), placed, horizontal);
              var formed := FormedAll(rules.letters, Contents(), added, runs);
              result == Judge(formed, false, false, SomeRunSplits(rules.letters, Contents(), added, runs),
                              !skipDictionary && SomeUnknown(rules, formed))
    {
      ghost var runs := FormedRuns(Contents(), placed, horizontal);
      var formed := CollectWords(rules.letters, placed, mask, horizontal, main, added);
      if formed == [] {
        return Err(NoWord);
      }
      ListedIffTouched(Contents(), placed, horizontal);
      assert forall i :: 0 <= i < |runs| ==> runs[i] in runs;
      var digraph := FindSplitDigraph(rules.letters, formed, mask, runs, added);
      if digraph.Some? {
        return Err(SplitDigraph);
      }
      if !skipDictionary && SomeUnknown(rules, formed) {
        return Err(UnknownWord);
      }
      return Ok(formed);
    }

    // The word checks, on the board with the new tiles on it.
    method ValidateWords(rules: Rules, placed: seq<Placed>, mask: array2<bool>, horizontal: bool, skipDictionary: bool,
                         ghost added: set<Pos>)
      returns (result: Result<seq<FormedWord>, BoardError>)
      requires Valid() && Marks(mask, added) && placed != []
      requires forall i :: 0 <= i < |placed| ==> placed[i].At() in Contents()
      requires forall i, j :: 0 <= i < j < |placed| ==> placed[i].At() != placed[j].At()
      requires forall i :: 0 <= i < |placed| ==> Across(horizontal, placed[i]) == Across(horizontal, placed[0])
      ensures result == Grids.ValidateWords(rules, Contents(), isEmpty, placed, added, horizontal, skipDictionary)
    {
      var fixed := Across(horizontal, placed[0]);
      forall i | 0 <= i < |placed| ensures OnBoard(placed[i].At()) {
        assert placed[i].At() in Contents();
      }
      var start, end := FindWordBounds(fixed, Least(horizontal, placed), Greatest(horizontal, placed), horizontal);
      var main := Run(horizontal, fixed, start, end);
      if !CheckContinuity(main) {
        return Err(Gap);
      }
      if !isEmpty {
        var attached := CheckAdjacency(placed, mask, added);
        if !attached {
          return Err(NotAttached);
        }
      }
      result := JudgeWords(rules, placed, mask, horizontal, main, skipDictionary, added);
    }

    method MarkPositions(placed: seq<Placed>) returns (mask: array2<bool>)
      requires forall i :: 0 <= i < |placed| ==> OnBoard(placed[i].At())
      ensures fresh(mask) && Marks(mask, NewCells(placed))
    {
      mask := new bool[SIZE, SIZE]((_, _) => false);
      var i := 0;
      while i < |placed|
        invariant 0 <= i <= |placed|
        invariant Marks(mask, NewCells(placed[..i]))
      {
        NewCellsSplit(placed[..i + 1]);
        assert placed[..i + 1][..i] == placed[..i];
        mask[placed[i].row, placed[i].col] := true;
        i := i + 1;
      }
      assert placed[..i] == placed;
    }

    method ValidateFirstMove(placed: seq<Placed>, mask: array2<bool>, ghost added: set<Pos>)
      returns (error: Option<BoardError>)
      requires Marks(mask, added)
      ensures error
              == if CENTER !in added then Some(MissesCenter) else if |placed| < 2 then Some(FirstTooShort) else None
    {
      if !mask[CENTER.r, CENTER.c] { return Some(MissesCenter); }
      if |placed| < 2 { return Some(FirstTooShort); }
      return None;
    }

    // The reading direction of a single tile, and whether it has a neighbour (an empty board does not ask).
    function DetermineDirectionSingle(row: int, col: int): (r: (bool, bool))
      requires Valid()
      reads this, cells
      ensures r.1 <==>
                isEmpty || HasRowNeighbour(Contents(), Pos(row, col)) || HasColNeighbour(Contents(), Pos(row, col))
      ensures r.1 ==>
                (r.0 <==> HasRowNeighbour(Contents(), Pos(row, col)) || !HasColNeighbour(Contents(), Pos(row, col)))
    {
      var hasRow := HasLetter(row, col - 1) || HasLetter(row, col + 1);
      var hasCol := HasLetter(row - 1, col) || HasLetter(row + 1, col);
      if !isEmpty && !hasRow && !hasCol then (true, false) else (hasRow || !hasCol, true)
    }

    // The checks that follow the positions, on the copy that holds the new tiles.
    method ValidateTried(rules: Rules, placed: seq<Placed>, mask: array2<bool>, skipDictionary: bool,
                         ghost added: set<Pos>)
      returns (result: Result<seq<FormedWord>, BoardError>)
      requires Valid() && Marks(mask, added) && placed != [] && (SameRow(placed) || SameCol(placed))
      requires forall i :: 0 <= i < |placed| ==> placed[i].At() in Contents()
      requires forall i, j :: 0 <= i < j < |placed| ==> placed[i].At() != placed[j].At()
      ensures var start := StartError(Contents(), isEmpty, placed, added);
              result == if start.Some? then Err(start.value)
                        else Grids.ValidateWords(rules, Contents(), isEmpty, placed, added,
                                                 MainDirection(Contents(), placed), skipDictionary)
    {
      var horizontal := SameRow(placed);
      if isEmpty {
        var error := ValidateFirstMove(placed, mask, added);
        if error.Some? {
          return Err(error.value);
        }
      }
      if |placed| == 1 {
        var (direction, hasNeighbour) := DetermineDirectionSingle(placed[0].row, placed[0].col);
        horizontal := direction;
        if !isEmpty && !hasNeighbour {
          return Err(NoNeighbour);
        }
      }
      DirectionFits(Contents(), placed);
      OneLine(placed, horizontal);
      result := ValidateWords(rules, placed, mask, horizontal, skipDictionary, added);
    }

    /** Checks a placement; the board itself stays as it is, the tiles are tried on a copy. */
    method ValidatePlacement(rules: Rules, placed: seq<Placed>, skipDictionary: bool)
      returns (result: Result<seq<FormedWord>, BoardError>)
      requires Valid()
      ensures result == Validate(rules, Contents(), isEmpty, placed, skipDictionary)
    {
      if placed == [] {
        return Err(NothingPlaced);
      }
      var error := ValidatePositions(placed);
      if error.Some? {
        return Err(error.value);
      }
      PositionsGood(Contents(), placed);
      if !SameRow(placed) && !SameCol(placed) {
        return Err(NotInLine);
      }
      var mask := MarkPositions(placed);
      var temp := Copy();
      temp.Put(placed);
      NewCellsAreIn(Contents(), placed);
      result := temp.ValidateTried(rules, placed, mask, skipDictionary, NewCells(placed));
    }
  }

  // What has been collected of the first n cells of a run.
  ghost predicate Scanned(letters: Alphabet, g: Grid, added: set<Pos>, run: Run, n: nat,
                          word: string, positions: seq<Pos>, letterScore: int, multiplier: int) {
    && word == Spell(letters, g, run, n)
    && positions == seq(n, k => run.At(run.start + k))
    && letterScore == LetterScore(g, added, run, n)
    && multiplier == Multiplier(added, run, n)
  }

  lemma ScannedGrows(letters: Alphabet, g: Grid, added: set<Pos>, run: Run, n: nat,
                     word: string, positions: seq<Pos>, letterScore: int, multiplier: int)
    requires Scanned(letters, g, added, run, n, word, positions, letterScore, multiplier)
    requires run.At(run.start + n) in g
    ensures var p := run.At(run.start + n);
            Scanned(letters, g, added, run, n + 1, word + Print(letters, g[p].letter), positions + [p],
                    letterScore + PointsOf(g[p], p in added, PremiumAt(p)),
                    multiplier * FactorOf(p in added, PremiumAt(p)))
  {
  }

  lemma ScannedAll(letters: Alphabet, g: Grid, added: set<Pos>, run: Run, n: nat,
                   word: string, positions: seq<Pos>, letterScore: int, multiplier: int)
    requires Scanned(letters, g, added, run, n, word, positions, letterScore, multiplier)
    ensures word == Spell(letters, g, run, n) && positions == seq(n, k => run.At(run.start + k))
    ensures letterScore == LetterScore(g, added, run, n) && multiplier == Multiplier(added, run, n)
  {
  }

  lemma FormedAllConcat(letters: Alphabet, g: Grid, added: set<Pos>, a: seq<Run>, b: seq<Run>)
    requires forall i :: 0 <= i < |a| ==> a[i].start <= a[i].end
    requires forall i :: 0 <= i < |b| ==> b[i].start <= b[i].end
    ensures FormedAll(letters, g, added, a + b) == FormedAll(letters, g, added, a) + FormedAll(letters, g, added, b)
  {
  }

  // The main word and the cross words through the first n tiles.
  ghost function FormedUpTo(letters: Alphabet, g: Grid, placed: seq<Placed>, n: nat, horizontal: bool,
                            added: set<Pos>): seq<FormedWord>
    requires placed != [] && n <= |placed|
  {
    FormedAll(letters, g, added, IfWord(MainRun(g, placed, horizontal)) + CrossRuns(g, placed[..n], horizontal))
  }

  lemma CrossRunsStep(g: Grid, placed: seq<Placed>, n: nat, horizontal: bool)
    requires 0 < n <= |placed|
    ensures CrossRuns(g, placed[..n], horizontal)
            == CrossRuns(g, placed[..n - 1], horizontal) + IfWord(CrossRun(g, placed[n - 1], horizontal))
  {
    assert placed[..n][..n - 1] == placed[..n - 1];
  }

  lemma FormedRunsUpTo(letters: Alphabet, g: Grid, placed: seq<Placed>, n: nat, horizontal: bool, added: set<Pos>)
    requires placed != [] && n <= |placed|
    ensures FormedUpTo(letters, g, placed, n, horizontal, added) ==
            if n == 0 then FormedAll(letters, g, added, IfWord(MainRun(g, placed, horizontal)))
            else FormedUpTo(letters, g, placed, n - 1, horizontal, added)
                 + FormedAll(letters, g, added, IfWord(CrossRun(g, placed[n - 1], horizontal)))
  {
    if n == 0 {
      var main := IfWord(MainRun(g, placed, horizontal));
      assert main + CrossRuns(g, placed[..0], horizontal) == main;
    } else {
      FormedRunsStep(letters, g, placed, n, horizontal, added);
    }
  }

  lemma FormedRunsStep(letters: Alphabet, g: Grid, placed: seq<Placed>, n: nat, horizontal: bool, added: set<Pos>)
    requires 0 < n <= |placed|
    ensures FormedUpTo(letters, g, placed, n, horizontal, added) ==
            FormedUpTo(letters, g, placed, n - 1, horizontal, added)
            + FormedAll(letters, g, added, IfWord(CrossRun(g, placed[n - 1], horizontal)))
  {
    hide CrossRuns, FormedAll, MainRun, CrossRun, IfWord;
    CrossRunsStep(g, placed, n, horizontal);
    var main := IfWord(MainRun(g, placed, horizontal));
    var before := CrossRuns(g, placed[..n - 1], horizontal);
    var last := IfWord(CrossRun(g, placed[n - 1], horizontal));
    assert main + (before + last) == (main + before) + last;
    FormedAllConcat(letters, g, added, main + before, last);
  }

  lemma FormedUpToAll(letters: Alphabet, g: Grid, placed: seq<Placed>, horizontal: bool, added: set<Pos>)
    requires placed != []
    ensures FormedUpTo(letters, g, placed, |placed|, horizontal, added)
            == FormedAll(letters, g, added, FormedRuns(g, placed, horizontal))
  {
    assert placed[..|placed|] == placed;
  }
}
