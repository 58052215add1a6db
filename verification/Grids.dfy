/**
 The 15x15 board as a value: cells, premium squares, maximal runs, and what it means to check a placement.
 Positions are signed, as in the source, so that a placement off the board can be refused.
 */
module Grids {
  import opened Results
  import opened Tiles

  const SIZE := 15
  const CENTER := Pos(7, 7)

  datatype Pos = Pos(r: int, c: int)

  datatype Cell = Cell(letter: Tile, isBlank: bool) {
    // The tile that lies there: a blank stays a blank whatever letter it stands for.
    function HandTile(): Tile {
      if isBlank then BLANK else letter
    }
  }

  datatype Placed = Placed(row: int, col: int, letter: Tile, isBlank: bool) {
    function At(): Pos { Pos(row, col) }

    function AsCell(): Cell { Cell(letter, isBlank) }

    function HandTile(): Tile { AsCell().HandTile() }
  }

  type Grid = map<Pos, Cell>

  predicate OnBoard(p: Pos) {
    0 <= p.r < SIZE && 0 <= p.c < SIZE
  }

  function AllPositions(): (cells: set<Pos>)
    ensures forall p :: p in cells <==> OnBoard(p)
  {
    set r, c | 0 <= r < SIZE && 0 <= c < SIZE :: Pos(r, c)
  }

  ghost predicate GridOk(g: Grid) {
    forall p :: p in g ==> OnBoard(p)
  }

  // The board after the tiles have been put down, one by one.
  ghost function With(g: Grid, placed: seq<Placed>): Grid {
    if placed == [] then g
    else With(g, placed[..|placed| - 1])[placed[|placed| - 1].At() := placed[|placed| - 1].AsCell()]
  }

  ghost function NewCells(placed: seq<Placed>): set<Pos> {
    set i | 0 <= i < |placed| :: placed[i].At()
  }

  // ----- Premium squares -----

  datatype Premium = Plain | DoubleLetter | TripleLetter | DoubleWord | TripleWord | Star

  // One quarter of the layout, rows and columns 0 to 7.
  function Quarter(a: int, b: int): Premium {
    if (a, b) in {(0, 0), (0, 7), (7, 0)} then TripleWord
    else if (a, b) in {(1, 1), (2, 2), (3, 3), (4, 4)} then DoubleWord
    else if (a, b) in {(1, 5), (5, 1), (5, 5)} then TripleLetter
    else if (a, b) in {(0, 3), (3, 0), (2, 6), (6, 2), (3, 7), (7, 3), (6, 6)} then DoubleLetter
    else if (a, b) == (7, 7) then Star
    else Plain
  }

  function Mirror(x: int): int {
    if x <= 7 then x else 14 - x
  }

  function PremiumAt(p: Pos): Premium {
    if OnBoard(p) then Quarter(Mirror(p.r), Mirror(p.c)) else Plain
  }

  function LetterFactor(premium: Premium): nat {
    match premium
    case DoubleLetter => 2
    case TripleLetter => 3
    case _ => 1
  }

  function WordFactor(premium: Premium): nat {
    match premium
    case DoubleWord => 2
    case Star => 2
    case TripleWord => 3
    case _ => 1
  }

  // ----- Runs of neighbouring tiles -----

  // Cell i of the row (or column) `fixed`.
  function CellAt(horizontal: bool, fixed: int, i: int): Pos {
    if horizontal then Pos(fixed, i) else Pos(i, fixed)
  }

  datatype Run = Run(horizontal: bool, fixed: int, start: int, end: int) {
    function At(i: int): Pos {
      CellAt(horizontal, fixed, i)
    }
  }

  ghost predicate Filled(g: Grid, run: Run) {
    forall i :: run.start <= i <= run.end ==> run.At(i) in g
  }

  // A stretch of occupied cells that cannot be extended at either end.
  ghost predicate Maximal(g: Grid, run: Run) {
    && 0 <= run.fixed < SIZE && 0 <= run.start <= run.end < SIZE
    && Filled(g, run)
    && run.At(run.start - 1) !in g
    && run.At(run.end + 1) !in g
  }

  // A maximal run of two or more cells is a word of the board.
  ghost predicate IsWordRun(g: Grid, run: Run) {
    Maximal(g, run) && run.start < run.end
  }

  ghost predicate Touches(run: Run, cells: set<Pos>) {
    exists i :: run.start <= i <= run.end && run.At(i) in cells
  }

  // The first cell of the occupied stretch that ends at i.
  ghost function Lo(g: Grid, horizontal: bool, fixed: int, i: int): (lo: int)
    ensures 0 <= i ==> 0 <= lo
    ensures lo <= i
    ensures forall k :: lo <= k < i ==> CellAt(horizontal, fixed, k) in g
    ensures lo <= 0 || CellAt(horizontal, fixed, lo - 1) !in g
    decreases i
  {
    if i > 0 && CellAt(horizontal, fixed, i - 1) in g then Lo(g, horizontal, fixed, i - 1) else i
  }

  // The last cell of the occupied stretch that begins at i.
  ghost function Hi(g: Grid, horizontal: bool, fixed: int, i: int): (hi: int)
    ensures i < SIZE ==> hi < SIZE
    ensures i <= hi
    ensures forall k :: i < k <= hi ==> CellAt(horizontal, fixed, k) in g
    ensures hi >= SIZE - 1 || CellAt(horizontal, fixed, hi + 1) !in g
    decreases SIZE - i
  {
    if i < SIZE - 1 && CellAt(horizontal, fixed, i + 1) in g then Hi(g, horizontal, fixed, i + 1) else i
  }

  ghost function LetterAt(g: Grid, p: Pos): Tile {
    if p in g then g[p].letter else BLANK
  }

  // The text of the first n cells of a run.
  ghost function Spell(letters: Alphabet, g: Grid, run: Run, n: nat): string {
    if n == 0 then "" else Spell(letters, g, run, n - 1) + Print(letters, LetterAt(g, run.At(run.start + n - 1)))
  }

  // A tile counts its points, multiplied by the letter premium of a newly covered square; blanks count nothing.
  function PointsOf(cell: Cell, isNew: bool, premium: Premium): nat {
    if cell.isBlank then 0
    else if isNew then Value(cell.letter) * LetterFactor(premium)
    else Value(cell.letter)
  }

  function FactorOf(isNew: bool, premium: Premium): nat {
    if isNew then WordFactor(premium) else 1
  }

  ghost function TileScore(g: Grid, added: set<Pos>, p: Pos): nat {
    if p in g then PointsOf(g[p], p in added, PremiumAt(p)) else 0
  }

  ghost function LetterScore(g: Grid, added: set<Pos>, run: Run, n: nat): nat {
    if n == 0 then 0 else LetterScore(g, added, run, n - 1) + TileScore(g, added, run.At(run.start + n - 1))
  }

  ghost function Multiplier(added: set<Pos>, run: Run, n: nat): nat {
    if n == 0 then 1
    else
      var p := run.At(run.start + n - 1);
      Multiplier(added, run, n - 1) * FactorOf(p in added, PremiumAt(p))
  }

  function RunCells(run: Run): seq<Pos> {
    seq(if run.start <= run.end then run.end - run.start + 1 else 0, k => run.At(run.start + k))
  }

  datatype FormedWord = FormedWord(word: string, positions: seq<Pos>, score: nat)

  ghost function Formed(letters: Alphabet, g: Grid, added: set<Pos>, run: Run): FormedWord
    requires run.start <= run.end
  {
    var n := run.end - run.start + 1;
    FormedWord(Spell(letters, g, run, n), RunCells(run), LetterScore(g, added, run, n) * Multiplier(added, run, n))
  }

  ghost function FormedAll(letters: Alphabet, g: Grid, added: set<Pos>, runs: seq<Run>): seq<FormedWord>
    requires forall i :: 0 <= i < |runs| ==> runs[i].start <= runs[i].end
  {
    seq(|runs|, i requires 0 <= i < |runs| => Formed(letters, g, added, runs[i]))
  }

  function TotalScore(formed: seq<FormedWord>): nat {
    if formed == [] then 0 else TotalScore(formed[..|formed| - 1]) + formed[|formed| - 1].score
  }

  // ----- Checking a placement -----

  datatype BoardError =
    | NothingPlaced | OffBoard | Occupied | PlacedTwice | NotInLine
    | MissesCenter | FirstTooShort | NoNeighbour | Gap | NotAttached | NoWord | SplitDigraph | UnknownWord

  // The first tile, from index i on, that lies off the board, on a taken cell, or on an earlier tile.
  ghost function FirstBadPosition(g: Grid, placed: seq<Placed>, i: nat): Option<BoardError>
    requires i <= |placed|
    decreases |placed| - i
  {
    if i == |placed| then None
    else if !OnBoard(placed[i].At()) then Some(OffBoard)
    else if placed[i].At() in g then Some(Occupied)
    else if placed[i].At() in NewCells(placed[..i]) then Some(PlacedTwice)
    else FirstBadPosition(g, placed, i + 1)
  }

  predicate SameRow(placed: seq<Placed>) {
    forall i, j :: 0 <= i < |placed| && 0 <= j < |placed| ==> placed[i].row == placed[j].row
  }

  predicate SameCol(placed: seq<Placed>) {
    forall i, j :: 0 <= i < |placed| && 0 <= j < |placed| ==> placed[i].col == placed[j].col
  }

  ghost predicate HasRowNeighbour(g: Grid, p: Pos) {
    Pos(p.r, p.c - 1) in g || Pos(p.r, p.c + 1) in g
  }

  ghost predicate HasColNeighbour(g: Grid, p: Pos) {
    Pos(p.r - 1, p.c) in g || Pos(p.r + 1, p.c) in g
  }

  // A single tile reads along its row if it has a neighbour there (or none in its column).
  ghost predicate MainDirection(g: Grid, placed: seq<Placed>)
    requires placed != []
  {
    if |placed| == 1 then HasRowNeighbour(g, placed[0].At()) || !HasColNeighbour(g, placed[0].At())
    else SameRow(placed)
  }

  // The coordinate that varies along the main direction.
  function Along(horizontal: bool, p: Placed): int {
    if horizontal then p.col else p.row
  }

  function Across(horizontal: bool, p: Placed): int {
    if horizontal then p.row else p.col
  }

  function Least(horizontal: bool, placed: seq<Placed>): (m: int)
    requires placed != []
    ensures exists i :: 0 <= i < |placed| && Along(horizontal, placed[i]) == m
    ensures forall i :: 0 <= i < |placed| ==> m <= Along(horizontal, placed[i])
  {
    var last := Along(horizontal, placed[|placed| - 1]);
    if |placed| == 1 then last
    else
      var rest := Least(horizontal, placed[..|placed| - 1]);
      if last < rest then last else rest
  }

  function Greatest(horizontal: bool, placed: seq<Placed>): (m: int)
    requires placed != []
    ensures exists i :: 0 <= i < |placed| && Along(horizontal, placed[i]) == m
    ensures forall i :: 0 <= i < |placed| ==> Along(horizontal, placed[i]) <= m
  {
    var last := Along(horizontal, placed[|placed| - 1]);
    if |placed| == 1 then last
    else
      var rest := Greatest(horizontal, placed[..|placed| - 1]);
      if last > rest then last else rest
  }

  // The stretch along the main direction through all new tiles, extended over the tiles around it.
  ghost function MainRun(g: Grid, placed: seq<Placed>, horizontal: bool): Run
    requires placed != []
  {
    var fixed := Across(horizontal, placed[0]);
    Run(horizontal, fixed,
        Lo(g, horizontal, fixed, Least(horizontal, placed)), Hi(g, horizontal, fixed, Greatest(horizontal, placed)))
  }

  // The stretch across the main direction through one new tile.
  ghost function CrossRun(g: Grid, p: Placed, horizontal: bool): Run {
    var fixed := Along(horizontal, p);
    var i := Across(horizontal, p);
    Run(!horizontal, fixed, Lo(g, !horizontal, fixed, i), Hi(g, !horizontal, fixed, i))
  }

  ghost function CrossRuns(g: Grid, placed: seq<Placed>, horizontal: bool): (runs: seq<Run>)
    ensures forall k :: 0 <= k < |runs| ==> runs[k].start < runs[k].end
  {
    if placed == [] then []
    else CrossRuns(g, placed[..|placed| - 1], horizontal) + IfWord(CrossRun(g, placed[|placed| - 1], horizontal))
  }

  // A stretch counts as a word from two cells on.
  function IfWord(run: Run): (runs: seq<Run>)
    ensures forall k :: 0 <= k < |runs| ==> runs[k].start < runs[k].end
  {
    if run.end > run.start then [run] else []
  }

  ghost function FormedRuns(g: Grid, placed: seq<Placed>, horizontal: bool): (runs: seq<Run>)
    requires placed != []
    ensures forall k :: 0 <= k < |runs| ==> runs[k].start < runs[k].end
  {
    IfWord(MainRun(g, placed, horizontal)) + CrossRuns(g, placed, horizontal)
  }

  // Does a new tile lie next to a tile that was there before?
  ghost predicate Attached(g: Grid, placed: seq<Placed>, added: set<Pos>) {
    exists i, q :: 0 <= i < |placed| && Adjacent(placed[i].At(), q) && q !in added && q in g
  }

  ghost predicate Adjacent(p: Pos, q: Pos) {
    q in {Pos(p.r - 1, p.c), Pos(p.r + 1, p.c), Pos(p.r, p.c - 1), Pos(p.r, p.c + 1)}
  }

  // Neighbours k and k + 1 of the run are single letters that spell a digraph.
  ghost predicate SplitsAt(letters: Alphabet, g: Grid, run: Run, k: int) {
    FormsDigraph(letters, Print(letters, LetterAt(g, run.At(k))), Print(letters, LetterAt(g, run.At(k + 1))))
  }

  // Some pair of neighbours in the run, at least one of them new, spells a digraph.
  ghost predicate SplitsDigraph(letters: Alphabet, g: Grid, added: set<Pos>, run: Run) {
    exists k :: run.start <= k < run.end && NewSplitAt(letters, g, added, run, k)
  }

  ghost predicate NewSplitAt(letters: Alphabet, g: Grid, added: set<Pos>, run: Run, k: int) {
    (run.At(k) in added || run.At(k + 1) in added) && SplitsAt(letters, g, run, k)
  }

  ghost function SpelledAt(letters: Alphabet, g: Grid, run: Run, k: int): string {
    Print(letters, LetterAt(g, run.At(k))) + Print(letters, LetterAt(g, run.At(k + 1)))
  }

  ghost predicate FirstSplitAt(letters: Alphabet, g: Grid, added: set<Pos>, run: Run, k: int) {
    && run.start <= k < run.end && NewSplitAt(letters, g, added, run, k)
    && forall i :: run.start <= i < k ==> !NewSplitAt(letters, g, added, run, i)
  }

  // The two letters that make up the first new split digraph of a word.
  ghost predicate FirstSplitIs(letters: Alphabet, g: Grid, added: set<Pos>, run: Run, digraph: string) {
    exists k :: FirstSplitAt(letters, g, added, run, k) && digraph == SpelledAt(letters, g, run, k)
  }

  // The two letters that make up the first new split digraph of the first word that has one.
  ghost predicate FirstOfAll(letters: Alphabet, g: Grid, added: set<Pos>, runs: seq<Run>, digraph: string) {
    exists w :: 0 <= w < |runs| && FirstSplitIs(letters, g, added, runs[w], digraph)
                && forall k :: 0 <= k < w ==> !SplitsDigraph(letters, g, added, runs[k])
  }

  // The rules about where the tiles lie.
  ghost function LayingError(g: Grid, placed: seq<Placed>): Option<BoardError> {
    if placed == [] then Some(NothingPlaced)
    else if FirstBadPosition(g, placed, 0).Some? then FirstBadPosition(g, placed, 0)
    else if !SameRow(placed) && !SameCol(placed) then Some(NotInLine)
    else None
  }

  // The rules about the first word, and about a single tile.
  ghost function StartError(after: Grid, empty: bool, placed: seq<Placed>, added: set<Pos>): Option<BoardError>
    requires placed != []
  {
    if empty && CENTER !in added then Some(MissesCenter)
    else if empty && |placed| < 2 then Some(FirstTooShort)
    else if
      |placed| == 1 && !empty && !HasRowNeighbour(after, placed[0].At()) && !HasColNeighbour(after, placed[0].At())
    then Some(NoNeighbour)
    else None
  }

  /** The verdict on a placement: the words it forms, or the first rule it breaks. */
  ghost function Validate(rules: Rules, g: Grid, empty: bool, placed: seq<Placed>,
                          skipDictionary: bool): Result<seq<FormedWord>, BoardError>
  {
    var laying := LayingError(g, placed);
    if laying.Some? then Err(laying.value)
    else
      var added := NewCells(placed);
      var after := With(g, placed);
      var start := StartError(after, empty, placed, added);
      if start.Some? then Err(start.value)
      else ValidateWords(rules, after, empty, placed, added, MainDirection(after, placed), skipDictionary)
  }

  ghost function ValidateWords(rules: Rules, after: Grid, empty: bool, placed: seq<Placed>, added: set<Pos>,
                               horizontal: bool,
                               skipDictionary: bool): Result<seq<FormedWord>, BoardError>
    requires placed != []
  {
    var runs := FormedRuns(after, placed, horizontal);
    var formed := FormedAll(rules.letters, after, added, runs);
    Judge(formed,
          !Filled(after, MainRun(after, placed, horizontal)),
          !empty && !Attached(after, placed, added),
          SomeRunSplits(rules.letters, after, added, runs),
          !skipDictionary && SomeUnknown(rules, formed))
  }

  ghost predicate SomeRunSplits(letters: Alphabet, after: Grid, added: set<Pos>, runs: seq<Run>) {
    exists k :: 0 <= k < |runs| && SplitsDigraph(letters, after, added, runs[k])
  }

  predicate SomeUnknown(rules: Rules, formed: seq<FormedWord>) {
    exists k :: 0 <= k < |formed| && !rules.isWord(formed[k].word)
  }

  // The order in which the defects of a placement are reported.
  function Judge(formed: seq<FormedWord>, gap: bool, loose: bool, splits: bool,
                 unknown: bool): Result<seq<FormedWord>, BoardError>
  {
    if gap then Err(Gap)
    else if loose then Err(NotAttached)
    else if formed == [] then Err(NoWord)
    else if splits then Err(SplitDigraph)
    else if unknown then Err(UnknownWord)
    else Ok(formed)
  }
}
