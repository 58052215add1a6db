/**
 What is reported about a placement: the first defect in one fixed order, each defect stated on the board and the
 tiles alone. And what the words read, letter by letter.
 */
module Verdicts {
  import opened Results
  import opened Tiles
  import opened Grids
  import opened BoardLaws

  // ----- Defects -----

  ghost predicate OnTheBoard(p: Pos) {
    0 <= p.r <= 14 && 0 <= p.c <= 14
  }

  ghost predicate OnEarlierTile(placed: seq<Placed>, i: nat)
    requires i < |placed|
  {
    exists j :: 0 <= j < i && placed[j].At() == placed[i].At()
  }

  ghost predicate LiesWell(g: Grid, placed: seq<Placed>, i: nat)
    requires i < |placed|
  {
    OnTheBoard(placed[i].At()) && placed[i].At() !in g && !OnEarlierTile(placed, i)
  }

  // What is wrong with the place of a tile.
  ghost predicate BadPlace(g: Grid, placed: seq<Placed>, i: nat, e: BoardError)
    requires i < |placed|
  {
    match e
    case OffBoard => !OnTheBoard(placed[i].At())
    case Occupied => OnTheBoard(placed[i].At()) && placed[i].At() in g
    case PlacedTwice => OnTheBoard(placed[i].At()) && placed[i].At() !in g && OnEarlierTile(placed, i)
    case _ => false
  }

  // Side by side, not corner to corner.
  ghost predicate SideBySide(p: Pos, q: Pos) {
    (p.r == q.r && (p.c - q.c == 1 || q.c - p.c == 1)) || (p.c == q.c && (p.r - q.r == 1 || q.r - p.r == 1))
  }

  ghost predicate TouchesBoard(g: Grid, placed: seq<Placed>) {
    exists i, q :: 0 <= i < |placed| && q in g && SideBySide(placed[i].At(), q)
  }

  // Does the placement have this defect?
  ghost predicate Defect(rules: Rules, g: Grid, empty: bool, placed: seq<Placed>, skipDictionary: bool, e: BoardError) {
    match e
    case NothingPlaced => |placed| == 0
    case OffBoard => exists i :: 0 <= i < |placed| && BadPlace(g, placed, i, e) && AllWellBefore(g, placed, i)
    case Occupied => exists i :: 0 <= i < |placed| && BadPlace(g, placed, i, e) && AllWellBefore(g, placed, i)
    case PlacedTwice => exists i :: 0 <= i < |placed| && BadPlace(g, placed, i, e) && AllWellBefore(g, placed, i)
    case NotInLine =>
      && (exists i, j :: 0 <= i < |placed| && 0 <= j < |placed| && placed[i].row != placed[j].row)
      && (exists i, j :: 0 <= i < |placed| && 0 <= j < |placed| && placed[i].col != placed[j].col)
    case MissesCenter => empty && forall i :: 0 <= i < |placed| ==> placed[i].At() != Pos(7, 7)
    case FirstTooShort => empty && |placed| == 1
    case NoNeighbour => !empty && |placed| == 1 && !TouchesBoard(g, placed)
    case Gap => !NoGap(With(g, placed), placed)
    case NotAttached => !empty && !TouchesBoard(g, placed)
    case NoWord => false
    case SplitDigraph => !NoNewSplit(rules.letters, With(g, placed), NewCells(placed))
    case UnknownWord => !skipDictionary && !NewWordsKnown(rules, With(g, placed), NewCells(placed))
  }

  ghost predicate AllWellBefore(g: Grid, placed: seq<Placed>, i: nat)
    requires i <= |placed|
  {
    forall k :: 0 <= k < i ==> LiesWell(g, placed, k)
  }

  // The order in which defects are reported.
  function Rank(e: BoardError): nat {
    match e
    case NothingPlaced => 0
    case OffBoard => 1
    case Occupied => 1
    case PlacedTwice => 1
    case NotInLine => 2
    case MissesCenter => 3
    case FirstTooShort => 4
    case NoNeighbour => 5
    case Gap => 6
    case NotAttached => 7
    case NoWord => 8
    case SplitDigraph => 9
    case UnknownWord => 10
  }

  ghost predicate FirstDefect(rules: Rules, g: Grid, empty: bool, placed: seq<Placed>, skipDictionary: bool,
                              verdict: Result<seq<FormedWord>, BoardError>)
  {
    match verdict
    case Ok(_) => forall d :: !Defect(rules, g, empty, placed, skipDictionary, d)
    case Err(e) =>
      && Defect(rules, g, empty, placed, skipDictionary, e)
      && forall d :: Defect(rules, g, empty, placed, skipDictionary, d) ==> d == e || Rank(e) < Rank(d)
  }

  // ----- Places -----

  lemma EarlierIff(placed: seq<Placed>, i: nat)
    requires i < |placed|
    ensures placed[i].At() in NewCells(placed[..i]) <==> OnEarlierTile(placed, i)
  {
    if j :| 0 <= j < i && placed[..i][j].At() == placed[i].At() {
      assert placed[j].At() == placed[i].At();
    }
    if j :| 0 <= j < i && placed[j].At() == placed[i].At() {
      assert placed[..i][j].At() == placed[i].At();
    }
  }

  lemma {:induction false} FirstBadIs(g: Grid, placed: seq<Placed>, i: nat) returns (k: nat)
    requires i <= |placed| && AllWellBefore(g, placed, i)
    ensures var e := FirstBadPosition(g, placed, i);
            if e.None? then AllWellBefore(g, placed, |placed|)
            else k < |placed| && AllWellBefore(g, placed, k) && BadPlace(g, placed, k, e.value)
    decreases |placed| - i
  {
    k := i;
    if i < |placed| {
      EarlierIff(placed, i);
      if LiesWell(g, placed, i) {
        k := FirstBadIs(g, placed, i + 1);
      }
    }
  }

  // A tile has one fault of place at most, and there is one first tile with a fault.
  lemma OneBadPlace(g: Grid, placed: seq<Placed>, k: nat, e: BoardError, i: nat, d: BoardError)
    requires k < |placed| && i < |placed| && BadPlace(g, placed, k, e) && BadPlace(g, placed, i, d)
    requires AllWellBefore(g, placed, k) && AllWellBefore(g, placed, i)
    ensures i == k && d == e
  {
    assert !LiesWell(g, placed, k) && !LiesWell(g, placed, i);
  }

  lemma BadPlaceReported(rules: Rules, g: Grid, empty: bool, placed: seq<Placed>, skipDictionary: bool)
    requires placed != [] && FirstBadPosition(g, placed, 0).Some?
    ensures FirstDefect(rules, g, empty, placed, skipDictionary, Validate(rules, g, empty, placed, skipDictionary))
  {
    var k := FirstBadIs(g, placed, 0);
    var e := FirstBadPosition(g, placed, 0).value;
    assert Validate(rules, g, empty, placed, skipDictionary) == Err(e);
    hide Validate, With, NoGap, NoNewSplit, NewWordsKnown, AllWellBefore, BadPlace, FirstBadPosition;
    BadPlaceKind(g, placed, k, e);
    forall d | Defect(rules, g, empty, placed, skipDictionary, d) ensures d == e || Rank(e) < Rank(d) {
      if d in {OffBoard, Occupied, PlacedTwice} {
        var i :| 0 <= i < |placed| && BadPlace(g, placed, i, d) && AllWellBefore(g, placed, i);
        OneBadPlace(g, placed, k, e, i, d);
      }
    }
  }

  lemma BadPlaceKind(g: Grid, placed: seq<Placed>, i: nat, e: BoardError)
    requires i < |placed| && BadPlace(g, placed, i, e)
    ensures e in {OffBoard, Occupied, PlacedTwice}
  {
  }

  // ----- Line, start and neighbours -----

  lemma LineIff(placed: seq<Placed>)
    ensures !SameRow(placed) <==>
              exists i, j :: 0 <= i < |placed| && 0 <= j < |placed| && placed[i].row != placed[j].row
    ensures !SameCol(placed) <==>
              exists i, j :: 0 <= i < |placed| && 0 <= j < |placed| && placed[i].col != placed[j].col
  {
  }

  lemma CentreIff(placed: seq<Placed>)
    ensures CENTER !in NewCells(placed) <==> forall i :: 0 <= i < |placed| ==> placed[i].At() != Pos(7, 7)
  {
  }

  lemma AdjacentIff(p: Pos, q: Pos)
    ensures Adjacent(p, q) <==> SideBySide(p, q)
  {
  }

  // An old neighbour on the new board is a neighbour on the old one.
  lemma AttachedIff(g: Grid, placed: seq<Placed>)
    requires GoodPositions(g, placed)
    ensures Attached(With(g, placed), placed, NewCells(placed)) <==> TouchesBoard(g, placed)
  {
    WithKeys(g, placed);
    var added, after := NewCells(placed), With(g, placed);
    forall q ensures q !in added && q in after <==> q in g {
    }
    hide With, NewCells, GoodPositions, Adjacent, SideBySide;
    if i, q :| 0 <= i < |placed| && Adjacent(placed[i].At(), q) && q !in added && q in after {
      AdjacentIff(placed[i].At(), q);
      assert q in g && SideBySide(placed[i].At(), q);
    }
    if i, q :| 0 <= i < |placed| && q in g && SideBySide(placed[i].At(), q) {
      AdjacentIff(placed[i].At(), q);
      assert Adjacent(placed[i].At(), q) && q !in added && q in after;
    }
  }

  // ----- The order -----

  lemma NoBadPlace(g: Grid, placed: seq<Placed>)
    requires FirstBadPosition(g, placed, 0).None?
    ensures AllWellBefore(g, placed, |placed|) && GoodPositions(g, placed)
  {
    PositionsGood(g, placed);
    var k := FirstBadIs(g, placed, 0);
  }

  lemma NoBadPlaceDefect(rules: Rules, g: Grid, empty: bool, placed: seq<Placed>, skipDictionary: bool, d: BoardError)
    requires AllWellBefore(g, placed, |placed|) && d in {OffBoard, Occupied, PlacedTwice}
    ensures !Defect(rules, g, empty, placed, skipDictionary, d)
  {
    forall i | 0 <= i < |placed| ensures !BadPlace(g, placed, i, d) {
      assert LiesWell(g, placed, i);
    }
  }

  // The geometry before the words.
  lemma DefectOfStart(rules: Rules, g: Grid, empty: bool, placed: seq<Placed>, skipDictionary: bool)
    ensures Defect(rules, g, empty, placed, skipDictionary, NothingPlaced) <==> placed == []
    ensures Defect(rules, g, empty, placed, skipDictionary, NotInLine) <==> !SameRow(placed) && !SameCol(placed)
    ensures Defect(rules, g, empty, placed, skipDictionary, MissesCenter) <==> empty && CENTER !in NewCells(placed)
    ensures Defect(rules, g, empty, placed, skipDictionary, FirstTooShort) <==> empty && |placed| == 1
    ensures Defect(rules, g, empty, placed, skipDictionary, NoNeighbour)
            <==> !empty && |placed| == 1 && !TouchesBoard(g, placed)
    ensures !Defect(rules, g, empty, placed, skipDictionary, NoWord)
  {
    hide NewCells, SameRow, SameCol, TouchesBoard;
    LineIff(placed);
    CentreIff(placed);
  }

  // The line, the centre, the number and the neighbour of a single tile.
  lemma StartDefects(rules: Rules, g: Grid, empty: bool, placed: seq<Placed>, skipDictionary: bool)
    requires placed != [] && FirstBadPosition(g, placed, 0).None?
    ensures forall d :: Rank(d) <= 1 ==> !Defect(rules, g, empty, placed, skipDictionary, d)
    ensures Defect(rules, g, empty, placed, skipDictionary, NotInLine) <==> !SameRow(placed) && !SameCol(placed)
    ensures Defect(rules, g, empty, placed, skipDictionary, MissesCenter) <==> empty && CENTER !in NewCells(placed)
    ensures Defect(rules, g, empty, placed, skipDictionary, FirstTooShort) <==> empty && |placed| < 2
    ensures Defect(rules, g, empty, placed, skipDictionary, NoNeighbour)
            <==> !empty && |placed| == 1 && !HasRowNeighbour(With(g, placed), placed[0].At())
                 && !HasColNeighbour(With(g, placed), placed[0].At())
    ensures !Defect(rules, g, empty, placed, skipDictionary, NoWord)
    ensures GoodPositions(g, placed)
  {
    hide Defect, With, FirstBadPosition, NewCells, SameRow, SameCol, GoodPositions, TouchesBoard, Attached;
    hide HasRowNeighbour, HasColNeighbour, AllWellBefore;
    NoBadPlace(g, placed);
    DefectOfStart(rules, g, empty, placed, skipDictionary);
    if |placed| == 1 {
      SingleAttached(g, placed);
      AttachedIff(g, placed);
    }
    forall d | d in {OffBoard, Occupied, PlacedTwice} ensures !Defect(rules, g, empty, placed, skipDictionary, d) {
      NoBadPlaceDefect(rules, g, empty, placed, skipDictionary, d);
    }
  }

  lemma StartReported(rules: Rules, g: Grid, empty: bool, placed: seq<Placed>, skipDictionary: bool)
    requires placed != [] && FirstBadPosition(g, placed, 0).None?
    requires (!SameRow(placed) && !SameCol(placed))
             || StartError(With(g, placed), empty, placed, NewCells(placed)).Some?
    ensures FirstDefect(rules, g, empty, placed, skipDictionary, Validate(rules, g, empty, placed, skipDictionary))
  {
    StartDefects(rules, g, empty, placed, skipDictionary);
    hide With, FirstBadPosition, NewCells, SameRow, SameCol, GoodPositions, HasRowNeighbour, HasColNeighbour, Defect;
    hide ValidateWords;
  }

  // What the checks of gaps and of attachment find.
  lemma LayingDefects(rules: Rules, g: Grid, empty: bool, placed: seq<Placed>, skipDictionary: bool)
    requires placed != [] && GoodPositions(g, placed) && (SameRow(placed) || SameCol(placed))
    ensures var after, added := With(g, placed), NewCells(placed);
            && (Defect(rules, g, empty, placed, skipDictionary, Gap)
                <==> !Filled(after, MainRun(after, placed, MainDirection(after, placed))))
            && (Defect(rules, g, empty, placed, skipDictionary, NotAttached)
                <==> !empty && !Attached(after, placed, added))
            && (Defect(rules, g, empty, placed, skipDictionary, Gap) <==> !WellLaid(g, placed))
  {
    DefectOfLaying(rules, g, empty, placed, skipDictionary);
    hide With, NoGap, NewCells, SameRow, SameCol, GoodPositions, TouchesBoard, Attached, MainRun, Filled, MainDirection;
    hide Defect;
    AttachedIff(g, placed);
    GapInWellLaid(g, placed);
  }

  lemma DefectOfLaying(rules: Rules, g: Grid, empty: bool, placed: seq<Placed>, skipDictionary: bool)
    ensures Defect(rules, g, empty, placed, skipDictionary, Gap) <==> !NoGap(With(g, placed), placed)
    ensures Defect(rules, g, empty, placed, skipDictionary, NotAttached) <==> !empty && !TouchesBoard(g, placed)
  {
  }

  lemma WellLaidSome(g: Grid, placed: seq<Placed>)
    requires WellLaid(g, placed)
    ensures placed != []
  {
  }

  lemma WordsFormed(letters: Alphabet, g: Grid, empty: bool, placed: seq<Placed>)
    requires GridOk(g) && WellLaid(g, placed) && Anchored(g, empty, placed)
    ensures var after := With(g, placed);
            FormedAll(letters, after, NewCells(placed), FormedRuns(after, placed, MainDirection(after, placed))) != []
  {
    hide With, NewCells, Anchored, FormedRuns, MainDirection, Formed;
    AnchoredFormsWord(g, empty, placed);
  }

  lemma DefectOfWords(rules: Rules, g: Grid, empty: bool, placed: seq<Placed>, skipDictionary: bool)
    ensures Defect(rules, g, empty, placed, skipDictionary, SplitDigraph)
            <==> !NoNewSplit(rules.letters, With(g, placed), NewCells(placed))
    ensures Defect(rules, g, empty, placed, skipDictionary, UnknownWord)
            <==> !skipDictionary && !NewWordsKnown(rules, With(g, placed), NewCells(placed))
  {
  }

  // What the checks of the words find behind these.
  lemma WordDefects(rules: Rules, g: Grid, empty: bool, placed: seq<Placed>, skipDictionary: bool)
    requires GridOk(g) && WellLaid(g, placed) && Anchored(g, empty, placed)
    ensures var after, added := With(g, placed), NewCells(placed);
            var runs := FormedRuns(after, placed, MainDirection(after, placed));
            var formed := FormedAll(rules.letters, after, added, runs);
            && (Defect(rules, g, empty, placed, skipDictionary, SplitDigraph)
                <==> SomeRunSplits(rules.letters, after, added, runs))
            && (Defect(rules, g, empty, placed, skipDictionary, UnknownWord)
                <==> !skipDictionary && SomeUnknown(rules, formed))
  {
    WellLaidSome(g, placed);
    hide With, NoNewSplit, NewWordsKnown, NewCells, WellLaid, Anchored, FormedRuns, Laid, MainDirection, SomeRunSplits,
      SomeUnknown, FormedAll, GridOk, Defect;
    DefectOfWords(rules, g, empty, placed, skipDictionary);
    var after := With(g, placed);
    var h := MainDirection(after, placed);
    WellLaidIsLaid(g, placed);
    SplitIffNewPair(rules.letters, after, placed, h);
    UnknownIffNewWord(rules, after, placed, h);
  }

  lemma ValidateGoesOn(rules: Rules, g: Grid, empty: bool, placed: seq<Placed>, skipDictionary: bool)
    requires placed != [] && FirstBadPosition(g, placed, 0).None? && (SameRow(placed) || SameCol(placed))
    requires StartError(With(g, placed), empty, placed, NewCells(placed)).None?
    ensures var after, added := With(g, placed), NewCells(placed);
            var runs := FormedRuns(after, placed, MainDirection(after, placed));
            var formed := FormedAll(rules.letters, after, added, runs);
            Validate(rules, g, empty, placed, skipDictionary)
            == Judge(formed, !Filled(after, MainRun(after, placed, MainDirection(after, placed))),
                     !empty && !Attached(after, placed, added), SomeRunSplits(rules.letters, after, added, runs),
                     !skipDictionary && SomeUnknown(rules, formed))
  {
    hide With, FirstBadPosition, NewCells, SameRow, SameCol, StartError, Attached, FormedRuns, MainRun, Filled,
      MainDirection, SomeRunSplits, SomeUnknown, Formed, Judge;
  }

  // The start rules are met, so the placement is anchored when it is attached.
  lemma StartAnchors(g: Grid, empty: bool, placed: seq<Placed>)
    requires placed != [] && StartError(With(g, placed), empty, placed, NewCells(placed)).None?
    ensures Anchored(g, empty, placed) <==> empty || Attached(With(g, placed), placed, NewCells(placed))
  {
    hide With, NewCells, Attached, HasRowNeighbour, HasColNeighbour;
  }

  lemma WordsReported(rules: Rules, g: Grid, empty: bool, placed: seq<Placed>, skipDictionary: bool)
    requires GridOk(g) && placed != [] && FirstBadPosition(g, placed, 0).None? && (SameRow(placed) || SameCol(placed))
    requires StartError(With(g, placed), empty, placed, NewCells(placed)).None?
    ensures FirstDefect(rules, g, empty, placed, skipDictionary, Validate(rules, g, empty, placed, skipDictionary))
  {
    hide With, FirstBadPosition, NewCells, SameRow, SameCol, GoodPositions, HasRowNeighbour, HasColNeighbour, WellLaid,
      Anchored, Attached, FormedRuns, MainRun, Filled, MainDirection, SomeRunSplits, SomeUnknown, Formed, Defect,
      Validate, StartError, GridOk;
    StartDefects(rules, g, empty, placed, skipDictionary);
    StartAnchors(g, empty, placed);
    ValidateGoesOn(rules, g, empty, placed, skipDictionary);
    LayingDefects(rules, g, empty, placed, skipDictionary);
    NoStartDefect(rules, g, empty, placed, skipDictionary);
    if WellLaid(g, placed) && Anchored(g, empty, placed) {
      WordDefects(rules, g, empty, placed, skipDictionary);
      WordsFormed(rules.letters, g, empty, placed);
    }
  }

  lemma NoStartDefect(rules: Rules, g: Grid, empty: bool, placed: seq<Placed>, skipDictionary: bool)
    requires placed != [] && FirstBadPosition(g, placed, 0).None? && (SameRow(placed) || SameCol(placed))
    requires StartError(With(g, placed), empty, placed, NewCells(placed)).None?
    ensures forall d :: Rank(d) <= 5 ==> !Defect(rules, g, empty, placed, skipDictionary, d)
  {
    StartDefects(rules, g, empty, placed, skipDictionary);
    hide With, FirstBadPosition, NewCells, SameRow, SameCol, GoodPositions, HasRowNeighbour, HasColNeighbour, Defect;
  }

  /**
   A placement is accepted exactly when it has no defect; otherwise the first one is reported: of badly lying tiles
   the fault of the first, then line, centre, number, neighbour, gap, attachment, digraphs and dictionary.
   */
  lemma FirstDefectReported(rules: Rules, g: Grid, empty: bool, placed: seq<Placed>, skipDictionary: bool)
    requires GridOk(g)
    ensures FirstDefect(rules, g, empty, placed, skipDictionary, Validate(rules, g, empty, placed, skipDictionary))
  {
    if placed == [] {
    } else if FirstBadPosition(g, placed, 0).Some? {
      BadPlaceReported(rules, g, empty, placed, skipDictionary);
    } else if
      (!SameRow(placed) && !SameCol(placed)) || StartError(With(g, placed), empty, placed, NewCells(placed)).Some? {
      StartReported(rules, g, empty, placed, skipDictionary);
    } else {
      WordsReported(rules, g, empty, placed, skipDictionary);
    }
  }

  // ----- Reading -----

  // The letters from place i to the end of a run.
  ghost function TextFrom(letters: Alphabet, g: Grid, run: Run, i: int): string
    decreases run.end + 1 - i
  {
    if i > run.end then "" else Print(letters, LetterAt(g, run.At(i))) + TextFrom(letters, g, run, i + 1)
  }

  lemma Regroup(a: string, b: string, c: string)
    ensures a + b + c == a + (b + c)
  {
  }

  lemma {:induction false} SpellGoesOn(letters: Alphabet, g: Grid, run: Run, n: nat)
    requires run.start + n <= run.end + 1
    ensures Spell(letters, g, run, run.end + 1 - run.start)
            == Spell(letters, g, run, n) + TextFrom(letters, g, run, run.start + n)
    decreases run.end + 1 - run.start - n
  {
    if run.start + n <= run.end {
      SpellGoesOn(letters, g, run, n + 1);
      Regroup(Spell(letters, g, run, n), Print(letters, LetterAt(g, run.At(run.start + n))),
              TextFrom(letters, g, run, run.start + n + 1));
    } else {
      assert Spell(letters, g, run, n) + "" == Spell(letters, g, run, n);
    }
  }

  lemma CellsInOrder(run: Run, k: nat)
    requires k <= run.end - run.start
    ensures |RunCells(run)| == run.end - run.start + 1
    ensures RunCells(run)[k] == if run.horizontal then Pos(run.fixed, run.start + k) else Pos(run.start + k, run.fixed)
  {
    assert RunCells(run)[k] == run.At(run.start + k);
  }

  /** A word reads from its first cell to its last, along its row or column. */
  lemma WordReads(letters: Alphabet, g: Grid, added: set<Pos>, run: Run)
    requires run.start <= run.end
    ensures var word := Formed(letters, g, added, run);
            && word.word == TextFrom(letters, g, run, run.start) && |word.positions| == run.end - run.start + 1
            && forall k :: 0 <= k < |word.positions| ==>
                 word.positions[k] == if run.horizontal then Pos(run.fixed, run.start + k)
                                      else Pos(run.start + k, run.fixed)
  {
    SpellGoesOn(letters, g, run, 0);
    CellsInOrder(run, 0);
    hide Spell, LetterScore, Multiplier, RunCells;
    forall k | 0 <= k <= run.end - run.start
      ensures RunCells(run)[k] == if run.horizontal then Pos(run.fixed, run.start + k)
                                  else Pos(run.start + k, run.fixed)
    {
      CellsInOrder(run, k);
    }
  }

  // ----- The order of the words -----

  // The cells of a cross word lie at one coordinate along the main direction, so only one tile lies in it.
  lemma CrossOf(g: Grid, placed: seq<Placed>, horizontal: bool, i: nat, k: nat)
    requires Laid(g, placed, horizontal) && i < |placed| && k < |placed|
    requires placed[i].At() in RunCells(CrossRun(g, placed[k], horizontal))
    ensures i == k
  {
    var run := CrossRun(g, placed[k], horizontal);
    var n :| 0 <= n < |RunCells(run)| && RunCells(run)[n] == placed[i].At();
    assert run.At(run.start + n) == placed[i].At();
    assert placed[i].At() == placed[k].At();
  }

  // Cross words are listed in the order of the tiles they go through.
  lemma {:induction false} CrossRunsInOrder(g: Grid, placed: seq<Placed>, horizontal: bool, w: nat, v: nat)
    returns (i: nat, j: nat)
    requires w < v < |CrossRuns(g, placed, horizontal)|
    ensures i < j < |placed|
    ensures CrossRuns(g, placed, horizontal)[w] == CrossRun(g, placed[i], horizontal)
    ensures CrossRuns(g, placed, horizontal)[v] == CrossRun(g, placed[j], horizontal)
  {
    var front := placed[..|placed| - 1];
    var runs := CrossRuns(g, front, horizontal);
    if v < |runs| {
      i, j := CrossRunsInOrder(g, front, horizontal, w, v);
    } else {
      j := |placed| - 1;
      CrossRunsMembers(g, front, horizontal, runs[w]);
      i :| 0 <= i < |front| && CrossRun(g, front[i], horizontal) == runs[w];
    }
  }

  // The first word goes through all tiles.
  ghost predicate AllIn(word: FormedWord, placed: seq<Placed>) {
    forall i :: 0 <= i < |placed| ==> placed[i].At() in word.positions
  }

  // A tile in an earlier word is listed before a tile in a later one.
  ghost predicate TilesInOrder(earlier: FormedWord, later: FormedWord, placed: seq<Placed>) {
    forall i, j :: 0 <= i < |placed| && 0 <= j < |placed| ==>
      placed[i].At() in earlier.positions && placed[j].At() in later.positions ==> i < j
  }

  ghost predicate InRow(word: FormedWord, row: int) {
    forall k :: 0 <= k < |word.positions| ==> word.positions[k].r == row
  }

  ghost predicate InColumn(word: FormedWord, col: int) {
    forall k :: 0 <= k < |word.positions| ==> word.positions[k].c == col
  }

  lemma MainWordAll(letters: Alphabet, g: Grid, placed: seq<Placed>, horizontal: bool)
    requires Laid(g, placed, horizontal)
    requires MainRun(g, placed, horizontal).start <= MainRun(g, placed, horizontal).end
    ensures AllIn(Formed(letters, g, NewCells(placed), MainRun(g, placed, horizontal)), placed)
  {
    var main := MainRun(g, placed, horizontal);
    MainIsMaximal(g, placed, horizontal);
    forall i | 0 <= i < |placed| ensures placed[i].At() in RunCells(main) {
      assert OnRun(main, placed[i].At());
      assert RunCells(main)[IndexIn(main, placed[i].At()) - main.start] == placed[i].At();
    }
  }

  lemma CrossWordsInOrder(letters: Alphabet, g: Grid, placed: seq<Placed>, horizontal: bool, w: nat, v: nat)
    requires Laid(g, placed, horizontal) && w < v < |CrossRuns(g, placed, horizontal)|
    ensures var runs := CrossRuns(g, placed, horizontal);
            TilesInOrder(Formed(letters, g, NewCells(placed), runs[w]), Formed(letters, g, NewCells(placed), runs[v]),
                         placed)
  {
    var i, j := CrossRunsInOrder(g, placed, horizontal, w, v);
    var runs := CrossRuns(g, placed, horizontal);
    forall a, b | 0 <= a < |placed| && placed[a].At() in RunCells(runs[w])
                  && 0 <= b < |placed| && placed[b].At() in RunCells(runs[v])
      ensures a < b
    {
      CrossOf(g, placed, horizontal, a, i);
      CrossOf(g, placed, horizontal, b, j);
    }
  }

  lemma AcrossAndDown(letters: Alphabet, g: Grid, added: set<Pos>, run: Run)
    requires run.start <= run.end
    ensures if run.horizontal then InRow(Formed(letters, g, added, run), run.fixed)
            else InColumn(Formed(letters, g, added, run), run.fixed)
  {
    WordReads(letters, g, added, run);
  }

  lemma MainFirst(g: Grid, empty: bool, placed: seq<Placed>)
    requires GridOk(g) && WellLaid(g, placed) && Anchored(g, empty, placed)
    ensures var after, h := With(g, placed), MainDirection(With(g, placed), placed);
            && Laid(after, placed, h) && MainRun(after, placed, h).start < MainRun(after, placed, h).end
            && FormedRuns(after, placed, h) == [MainRun(after, placed, h)] + CrossRuns(after, placed, h)
  {
    WellLaidIsLaid(g, placed);
    if |placed| == 1 {
      SingleAttached(g, placed);
    }
    MainIsWord(With(g, placed), placed);
  }

  lemma OneCrossRun(g: Grid, placed: seq<Placed>, horizontal: bool)
    requires |placed| == 1
    ensures CrossRuns(g, placed, horizontal) == IfWord(CrossRun(g, placed[0], horizontal))
  {
    assert placed[..0] == [];
    assert CrossRuns(g, placed[..0], horizontal) == [];
  }

  // A single tile with a word in its row has a neighbour there.
  lemma SingleTileReadsAlong(g: Grid, placed: seq<Placed>)
    requires |placed| == 1 && CrossRuns(g, placed, MainDirection(g, placed)) != []
    ensures MainDirection(g, placed)
  {
    var h, at := MainDirection(g, placed), placed[0].At();
    OneCrossRun(g, placed, h);
    var run := CrossRun(g, placed[0], h);
    if !h {
      assert run.start < run.end;
      assert HasRowNeighbour(g, at) by {
        if run.start < at.c {
          assert CellAt(true, at.r, at.c - 1) in g;
        } else {
          assert CellAt(true, at.r, at.c + 1) in g;
        }
      }
      assert false;
    }
  }

  lemma SingleTileWords(letters: Alphabet, g: Grid, placed: seq<Placed>)
    requires |placed| == 1 && CrossRuns(g, placed, MainDirection(g, placed)) != []
    requires var main := MainRun(g, placed, MainDirection(g, placed)); main.start < main.end
    ensures var h, added := MainDirection(g, placed), NewCells(placed);
            && |CrossRuns(g, placed, h)| == 1
            && InRow(Formed(letters, g, added, MainRun(g, placed, h)), placed[0].row)
            && InColumn(Formed(letters, g, added, CrossRuns(g, placed, h)[0]), placed[0].col)
  {
    var h, added := MainDirection(g, placed), NewCells(placed);
    SingleTileReadsAlong(g, placed);
    OneCrossRun(g, placed, h);
    AcrossAndDown(letters, g, added, MainRun(g, placed, h));
    AcrossAndDown(letters, g, added, CrossRun(g, placed[0], h));
  }

  ghost predicate Ordered(formed: seq<FormedWord>, placed: seq<Placed>) {
    && formed != [] && AllIn(formed[0], placed)
    && (forall w, v :: 1 <= w < v < |formed| ==> TilesInOrder(formed[w], formed[v], placed))
    && (|placed| == 1 && |formed| > 1 ==>
          |formed| == 2 && InRow(formed[0], placed[0].row) && InColumn(formed[1], placed[0].col))
  }

  // The words of the cross runs, in their order.
  lemma CrossWords(letters: Alphabet, g: Grid, placed: seq<Placed>, horizontal: bool, w: nat, v: nat)
    requires Laid(g, placed, horizontal) && 1 <= w < v <= |CrossRuns(g, placed, horizontal)|
    ensures var cross := FormedAll(letters, g, NewCells(placed), CrossRuns(g, placed, horizontal));
            TilesInOrder(cross[w - 1], cross[v - 1], placed)
  {
    hide Laid, Formed, CrossRuns, TilesInOrder, NewCells;
    CrossWordsInOrder(letters, g, placed, horizontal, w - 1, v - 1);
  }

  lemma FormedMainFirst(letters: Alphabet, g: Grid, added: set<Pos>, main: Run, cross: seq<Run>)
    requires main.start <= main.end && forall i :: 0 <= i < |cross| ==> cross[i].start <= cross[i].end
    ensures FormedAll(letters, g, added, [main] + cross)
            == [Formed(letters, g, added, main)] + FormedAll(letters, g, added, cross)
  {
    hide Formed;
  }

  lemma FormedEach(letters: Alphabet, g: Grid, added: set<Pos>, runs: seq<Run>)
    requires forall i :: 0 <= i < |runs| ==> runs[i].start <= runs[i].end
    ensures |FormedAll(letters, g, added, runs)| == |runs|
    ensures runs != [] ==> FormedAll(letters, g, added, runs)[0] == Formed(letters, g, added, runs[0])
  {
  }

  lemma ListedInOrder(letters: Alphabet, g: Grid, placed: seq<Placed>)
    requires placed != [] && Laid(g, placed, MainDirection(g, placed))
    requires var main := MainRun(g, placed, MainDirection(g, placed)); main.start < main.end
    ensures Ordered(FormedAll(letters, g, NewCells(placed), FormedRuns(g, placed, MainDirection(g, placed))), placed)
  {
    hide Laid, Formed, MainRun, CrossRuns, MainDirection, TilesInOrder, AllIn, InRow, InColumn, NewCells, FormedAll;
    var h := MainDirection(g, placed);
    var main, cross := MainRun(g, placed, h), CrossRuns(g, placed, h);
    FormedMainFirst(letters, g, NewCells(placed), main, cross);
    MainWordAll(letters, g, placed, h);
    var words := FormedAll(letters, g, NewCells(placed), cross);
    FormedEach(letters, g, NewCells(placed), cross);
    if |placed| == 1 && cross != [] {
      SingleTileWords(letters, g, placed);
    }
    var formed := [Formed(letters, g, NewCells(placed), main)] + words;
    forall w, v | 1 <= w < v < |formed| ensures TilesInOrder(formed[w], formed[v], placed) {
      CrossWords(letters, g, placed, h, w, v);
    }
  }

  /**
   The words come in order: first the one through all tiles, then those across it in the order of the tiles; of a single
   tile's two words the one in its row comes first.
   */
  lemma WordsInOrder(rules: Rules, g: Grid, empty: bool, placed: seq<Placed>, skipDictionary: bool)
    requires GridOk(g) && Validate(rules, g, empty, placed, skipDictionary).Ok?
    ensures placed != [] && Ordered(Validate(rules, g, empty, placed, skipDictionary).value, placed)
  {
    OkIsFormedAll(rules, g, empty, placed, skipDictionary);
    ValidateIffLegal(rules, g, empty, placed, skipDictionary);
    MainFirst(g, empty, placed);
    hide Validate, Laid, FormedAll, MainRun, MainDirection, Ordered, With, FormedRuns, NewCells;
    ListedInOrder(rules.letters, With(g, placed), placed);
  }
}
