/**
 The order in which the tiles of a placement are listed: it does not matter to the verdict, the words and the
 points.
 */
module BoardOrder {
  import opened Results
  import opened Orders
  import opened Tiles
  import opened Grids
  import opened BoardLaws
  import opened BoardTranspose

  // ----- Where the tiles lie -----

  lemma SameMembers(x: seq<Placed>, y: seq<Placed>, i: nat) returns (j: nat)
    requires multiset(x) == multiset(y) && i < |x|
    ensures j < |y| && y[j] == x[i]
  {
    SameCounts(x, y, x[i]);
    j :| 0 <= j < |y| && y[j] == x[i];
  }

  lemma NewCellsIncluded(x: seq<Placed>, y: seq<Placed>)
    requires multiset(x) == multiset(y)
    ensures NewCells(x) <= NewCells(y)
  {
    forall p | p in NewCells(x) ensures p in NewCells(y) {
      var i :| 0 <= i < |x| && x[i].At() == p;
      var j := SameMembers(x, y, i);
    }
  }

  lemma NewCellsPermute(x: seq<Placed>, y: seq<Placed>)
    requires multiset(x) == multiset(y)
    ensures NewCells(x) == NewCells(y) && |x| == |y|
  {
    NewCellsIncluded(x, y);
    NewCellsIncluded(y, x);
    assert |multiset(x)| == |multiset(y)|;
  }

  // No tile is listed twice, so none is in another order.
  lemma NoTwins(x: seq<Placed>, y: seq<Placed>, i: nat, j: nat)
    requires multiset(x) == multiset(y) && NoRepeats(x) && i < j < |y|
    ensures y[i] != y[j]
  {
    CountsOnce(x, y[i]);
    DroppedCounts(y, i);
    assert Dropped(y, i)[j - 1] == y[j];
    assert multiset(Dropped(y, i))[y[j]] > 0;
  }

  lemma GoodPermutes(g: Grid, x: seq<Placed>, y: seq<Placed>)
    requires multiset(x) == multiset(y) && GoodPositions(g, x)
    ensures GoodPositions(g, y)
  {
    forall i | 0 <= i < |y| ensures OnBoard(y[i].At()) && y[i].At() !in g {
      var k := SameMembers(y, x, i);
    }
    forall i, j | 0 <= i < j < |y| ensures y[i].At() != y[j].At() {
      NoTwins(x, y, i, j);
      var k := SameMembers(y, x, i);
      var l := SameMembers(y, x, j);
    }
  }

  lemma WithPermutes(g: Grid, x: seq<Placed>, y: seq<Placed>)
    requires multiset(x) == multiset(y) && GoodPositions(g, x) && GoodPositions(g, y)
    ensures With(g, x) == With(g, y)
  {
    NewCellsPermute(x, y);
    WithKeys(g, x);
    WithKeys(g, y);
    forall p | p in NewCells(x) ensures With(g, x)[p] == With(g, y)[p] {
      var i :| 0 <= i < |x| && x[i].At() == p;
      var j := SameMembers(x, y, i);
      WithValue(g, x, i);
      WithValue(g, y, j);
    }
    assert With(g, x).Keys == With(g, y).Keys;
  }

  lemma LinesIncluded(x: seq<Placed>, y: seq<Placed>)
    requires multiset(x) == multiset(y)
    ensures SameRow(x) ==> SameRow(y)
    ensures SameCol(x) ==> SameCol(y)
  {
    forall i, j | 0 <= i < |y| && 0 <= j < |y|
      ensures (SameRow(x) ==> y[i].row == y[j].row) && (SameCol(x) ==> y[i].col == y[j].col)
    {
      var k := SameMembers(y, x, i);
      var l := SameMembers(y, x, j);
    }
  }

  lemma ExtremesOrdered(x: seq<Placed>, y: seq<Placed>, h: bool)
    requires multiset(x) == multiset(y) && x != [] && y != []
    ensures Least(h, y) <= Least(h, x) && Greatest(h, x) <= Greatest(h, y)
  {
    var i :| 0 <= i < |x| && Along(h, x[i]) == Least(h, x);
    var k := SameMembers(x, y, i);
    var j :| 0 <= j < |x| && Along(h, x[j]) == Greatest(h, x);
    var l := SameMembers(x, y, j);
  }

  lemma MainRunPermutes(g: Grid, x: seq<Placed>, y: seq<Placed>, h: bool)
    requires multiset(x) == multiset(y) && x != [] && y != [] && (if h then SameRow(x) else SameCol(x))
    ensures MainRun(g, x, h) == MainRun(g, y, h)
  {
    ExtremesOrdered(x, y, h);
    ExtremesOrdered(y, x, h);
    var k := SameMembers(y, x, 0);
    assert Across(h, x[k]) == Across(h, x[0]);
  }

  lemma OnlyTile(x: seq<Placed>, y: seq<Placed>)
    requires multiset(x) == multiset(y) && |x| == 1 && |y| == 1
    ensures x == y
  {
    var j := SameMembers(x, y, 0);
  }

  // ----- The words -----

  // The words across as a collection.
  ghost function CrossBag(g: Grid, x: seq<Placed>, h: bool): multiset<Run> {
    multiset(CrossRuns(g, x, h))
  }

  ghost function WordBag(g: Grid, p: Placed, h: bool): multiset<Run> {
    multiset(IfWord(CrossRun(g, p, h)))
  }

  lemma CrossBagSnoc(g: Grid, x: seq<Placed>, h: bool)
    requires x != []
    ensures CrossBag(g, x, h) == CrossBag(g, x[..|x| - 1], h) + WordBag(g, x[|x| - 1], h)
  {
    var front, last := CrossRuns(g, x[..|x| - 1], h), IfWord(CrossRun(g, x[|x| - 1], h));
    assert multiset(front + last) == multiset(front) + multiset(last);
  }

  lemma {:induction false} CrossBagDrops(g: Grid, x: seq<Placed>, h: bool, i: nat)
    requires i < |x|
    ensures CrossBag(g, x, h) == CrossBag(g, Dropped(x, i), h) + WordBag(g, x[i], h)
  {
    hide CrossBag, WordBag;
    var n := |x| - 1;
    DroppedFront(x, i);
    CrossBagSnoc(g, x, h);
    if i < n {
      CrossBagDrops(g, x[..n], h, i);
      CrossBagSnoc(g, Dropped(x, i), h);
    }
  }

  lemma {:induction false} CrossRunsPermute(g: Grid, x: seq<Placed>, y: seq<Placed>, h: bool)
    requires multiset(x) == multiset(y)
    ensures multiset(CrossRuns(g, x, h)) == multiset(CrossRuns(g, y, h))
    decreases |x|
  {
    if x == [] {
      assert |multiset(y)| == 0;
    } else {
      var i := DropSame(x, y);
      CrossRunsPermute(g, x[..|x| - 1], Dropped(y, i), h);
      CrossBagDrops(g, y, h, i);
      CrossBagSnoc(g, x, h);
    }
  }

  lemma {:induction false} FormedAllPermutes(letters: Alphabet, g: Grid, added: set<Pos>, a: seq<Run>, b: seq<Run>)
    requires multiset(a) == multiset(b)
    requires forall k :: 0 <= k < |a| ==> a[k].start <= a[k].end
    requires forall k :: 0 <= k < |b| ==> b[k].start <= b[k].end
    ensures multiset(FormedAll(letters, g, added, a)) == multiset(FormedAll(letters, g, added, b))
    decreases |a|
  {
    var x, y := FormedAll(letters, g, added, a), FormedAll(letters, g, added, b);
    assert |multiset(a)| == |multiset(b)|;
    if a != [] {
      var i := DropSame(a, b);
      var n := |a| - 1;
      FormedAllPermutes(letters, g, added, a[..n], Dropped(b, i));
      assert FormedAll(letters, g, added, a[..n]) == Dropped(x, n);
      assert FormedAll(letters, g, added, Dropped(b, i)) == Dropped(y, i);
      assert x[n] == y[i];
      SamePlusOne(x, n, y, i);
    }
  }

  lemma SamePlusOne<T>(x: seq<T>, n: nat, y: seq<T>, i: nat)
    requires n < |x| && i < |y| && x[n] == y[i] && multiset(Dropped(x, n)) == multiset(Dropped(y, i))
    ensures multiset(x) == multiset(y)
  {
    DroppedCounts(x, n);
    DroppedCounts(y, i);
    assert x[n] in multiset(x) && y[i] in multiset(y);
    assert multiset(x) == multiset(Dropped(x, n)) + multiset{x[n]};
    assert multiset(y) == multiset(Dropped(y, i)) + multiset{y[i]};
  }

  lemma {:induction false} TotalsDrop(x: seq<FormedWord>, i: nat)
    requires i < |x|
    ensures TotalScore(x) == TotalScore(Dropped(x, i)) + x[i].score
    ensures Words(x) == Words(Dropped(x, i)) + multiset{x[i].word}
  {
    var n := |x| - 1;
    DroppedFront(x, i);
    if i < n {
      TotalsDrop(x[..n], i);
    }
  }

  lemma {:induction false} TotalsPermute(x: seq<FormedWord>, y: seq<FormedWord>)
    requires multiset(x) == multiset(y)
    ensures TotalScore(x) == TotalScore(y) && Words(x) == Words(y)
    decreases |x|
  {
    assert |multiset(x)| == |multiset(y)|;
    if x != [] {
      var i := DropSame(x, y);
      TotalsPermute(x[..|x| - 1], Dropped(y, i));
      TotalsDrop(y, i);
    }
  }

  lemma RunsPermute(g: Grid, x: seq<Placed>, y: seq<Placed>, h: bool)
    requires multiset(x) == multiset(y) && x != [] && y != [] && (if h then SameRow(x) else SameCol(x))
    ensures multiset(FormedRuns(g, x, h)) == multiset(FormedRuns(g, y, h))
  {
    MainRunPermutes(g, x, y, h);
    CrossRunsPermute(g, x, y, h);
  }

  lemma UnknownIncluded(rules: Rules, x: seq<FormedWord>, y: seq<FormedWord>)
    requires multiset(x) == multiset(y) && SomeUnknown(rules, x)
    ensures SomeUnknown(rules, y)
  {
    var k :| 0 <= k < |x| && !rules.isWord(x[k].word);
    SameCounts(x, y, x[k]);
    var l :| 0 <= l < |y| && y[l] == x[k];
  }

  lemma SplitsIncluded(letters: Alphabet, g: Grid, added: set<Pos>, a: seq<Run>, b: seq<Run>)
    requires multiset(a) == multiset(b) && SomeRunSplits(letters, g, added, a)
    ensures SomeRunSplits(letters, g, added, b)
  {
    var k :| 0 <= k < |a| && SplitsDigraph(letters, g, added, a[k]);
    SameCounts(a, b, a[k]);
    var l :| 0 <= l < |b| && b[l] == a[k];
  }

  lemma AttachedIncluded(g: Grid, x: seq<Placed>, y: seq<Placed>, added: set<Pos>)
    requires multiset(x) == multiset(y) && Attached(g, x, added)
    ensures Attached(g, y, added)
  {
    var i, q :| 0 <= i < |x| && Adjacent(x[i].At(), q) && q !in added && q in g;
    var j := SameMembers(x, y, i);
    assert Adjacent(y[j].At(), q);
  }

  lemma WordsPermute(rules: Rules, after: Grid, empty: bool, x: seq<Placed>, y: seq<Placed>, added: set<Pos>, h: bool,
                     skipDictionary: bool)
    requires multiset(x) == multiset(y) && x != [] && y != [] && (if h then SameRow(x) else SameCol(x))
    ensures SameVerdict(ValidateWords(rules, after, empty, x, added, h, skipDictionary),
                        ValidateWords(rules, after, empty, y, added, h, skipDictionary))
  {
    var a, b := FormedRuns(after, x, h), FormedRuns(after, y, h);
    var u, v := FormedAll(rules.letters, after, added, a), FormedAll(rules.letters, after, added, b);
    RunsPermute(after, x, y, h);
    MainRunPermutes(after, x, y, h);
    FormedAllPermutes(rules.letters, after, added, a, b);
    TotalsPermute(u, v);
    assert |multiset(u)| == |multiset(v)|;
    var unknown := SomeUnknown(rules, u);
    assert unknown <==> SomeUnknown(rules, v) by {
      if unknown { UnknownIncluded(rules, u, v); }
      if SomeUnknown(rules, v) { UnknownIncluded(rules, v, u); }
    }
    var splits := SomeRunSplits(rules.letters, after, added, a);
    assert splits <==> SomeRunSplits(rules.letters, after, added, b) by {
      if splits { SplitsIncluded(rules.letters, after, added, a, b); }
      if SomeRunSplits(rules.letters, after, added, b) { SplitsIncluded(rules.letters, after, added, b, a); }
    }
    var attached := Attached(after, x, added);
    assert attached <==> Attached(after, y, added) by {
      if attached { AttachedIncluded(after, x, y, added); }
      if Attached(after, y, added) { AttachedIncluded(after, y, x, added); }
    }
    SameJudgement(u, v, !Filled(after, MainRun(after, x, h)), !empty && !attached, splits, !skipDictionary && unknown);
  }

  // ----- The verdict -----

  // Refused because some tile lies off the board, on a taken cell, or on another one.
  ghost predicate BadlyLaid(verdict: Result<seq<FormedWord>, BoardError>) {
    verdict.Err? && verdict.error in {OffBoard, Occupied, PlacedTwice}
  }

  lemma {:induction false} BadPositionKinds(g: Grid, placed: seq<Placed>, i: nat)
    requires i <= |placed|
    ensures FirstBadPosition(g, placed, i).Some? ==>
              FirstBadPosition(g, placed, i).value in {OffBoard, Occupied, PlacedTwice}
    decreases |placed| - i
  {
    if i < |placed| {
      BadPositionKinds(g, placed, i + 1);
    }
  }

  lemma JudgedElsewise(rules: Rules, after: Grid, empty: bool, placed: seq<Placed>, added: set<Pos>, h: bool,
                       skipDictionary: bool)
    requires placed != []
    ensures !BadlyLaid(ValidateWords(rules, after, empty, placed, added, h, skipDictionary))
  {
  }

  /** The verdict names a bad position exactly when there is one. */
  lemma BadlyLaidIff(rules: Rules, g: Grid, empty: bool, placed: seq<Placed>, skipDictionary: bool)
    ensures BadlyLaid(Validate(rules, g, empty, placed, skipDictionary)) <==> !GoodPositions(g, placed)
  {
    PositionsGood(g, placed);
    BadPositionKinds(g, placed, 0);
    if placed != [] {
      var after := With(g, placed);
      JudgedElsewise(rules, after, empty, placed, NewCells(placed), MainDirection(after, placed), skipDictionary);
    }
    hide ValidateWords, With, MainDirection, GoodPositions, FirstBadPosition, NewCells;
  }

  lemma GoodIsSame(rules: Rules, g: Grid, empty: bool, x: seq<Placed>, y: seq<Placed>, skipDictionary: bool)
    requires multiset(x) == multiset(y) && x != [] && y != [] && GoodPositions(g, x) && GoodPositions(g, y)
    ensures SameVerdict(Validate(rules, g, empty, x, skipDictionary), Validate(rules, g, empty, y, skipDictionary))
  {
    PositionsGood(g, x);
    PositionsGood(g, y);
    NewCellsPermute(x, y);
    WithPermutes(g, x, y);
    LinesIncluded(x, y);
    LinesIncluded(y, x);
    if |x| == 1 {
      OnlyTile(x, y);
    }
    if SameRow(x) || SameCol(x) {
      var after := With(g, x);
      assert MainDirection(after, x) == MainDirection(after, y);
      DirectionFits(after, x);
      WordsPermute(rules, after, empty, x, y, NewCells(x), MainDirection(after, x), skipDictionary);
    }
  }

  /**
   The order of the tiles does not matter: the same error, or the same words and points. Only when tiles lie badly
   may another one of them be reported.
   */
  lemma ValidatePermutes(rules: Rules, g: Grid, empty: bool, x: seq<Placed>, y: seq<Placed>, skipDictionary: bool)
    requires multiset(x) == multiset(y)
    ensures var u, v := Validate(rules, g, empty, x, skipDictionary), Validate(rules, g, empty, y, skipDictionary);
            if GoodPositions(g, x) then SameVerdict(u, v) else BadlyLaid(u) && BadlyLaid(v)
  {
    assert |multiset(x)| == |multiset(y)|;
    if GoodPositions(g, x) {
      GoodPermutes(g, x, y);
      if x != [] {
        GoodIsSame(rules, g, empty, x, y, skipDictionary);
      }
    } else {
      if GoodPositions(g, y) {
        GoodPermutes(g, y, x);
      }
      BadlyLaidIff(rules, g, empty, x, skipDictionary);
      BadlyLaidIff(rules, g, empty, y, skipDictionary);
    }
  }
}
