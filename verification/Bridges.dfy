/** What a robot may know of the tiles it does not see: the full set less the board less its own hand. */
module Bridges {
  import opened Results
  import opened Tiles
  import opened Bags
  import opened Grids
  import opened BoardLaws
  import opened BoardTranspose
  import opened BoardOrder
  import opened Boards
  import opened GameStates
  import opened GameLaws
  import opened Ledger
  import opened Runs
  import opened SaveLaws

  // Subtraction that stops at zero.
  function Monus(a: nat, b: nat): nat {
    if a >= b then a - b else 0
  }

  // The counts left after the first n cells of the board, and after some tiles of the hand.
  ghost predicate CountsLeft(counts: seq<nat>, g: Grid, n: nat, taken: multiset<Tile>) {
    && |counts| == KINDS
    && forall i :: 0 <= i < KINDS ==>
         counts[i] == Monus(Count(Tile(i)), TilesOn(g, n)[Tile(i)] + taken[Tile(i)])
  }

  lemma HandStep(hand: seq<Tile>, m: nat)
    requires m < |hand|
    ensures multiset(hand[..m + 1]) == multiset(hand[..m]) + multiset{hand[m]}
  {
    assert hand[..m + 1] == hand[..m] + [hand[m]];
  }

  // The count of each kind in the full set.
  method FullCounts() returns (counts: array<nat>)
    ensures fresh(counts) && CountsLeft(counts[..], map[], 0, multiset{})
  {
    counts := new nat[KINDS](i requires 0 <= i => Count(Tile(i)));
  }

  method TakeOff(counts: array<nat>, t: Tile)
    requires t.index < counts.Length
    modifies counts
    ensures counts[..] == TakenOff(old(counts[..]), t)
  {
    counts[t.index] := Monus(counts[t.index], 1);
  }

  function TakenOff(counts: seq<nat>, t: Tile): seq<nat>
    requires t.index < |counts|
  {
    counts[t.index := Monus(counts[t.index], 1)]
  }

  lemma CellTaken(counts: seq<nat>, g: Grid, n: nat)
    requires CountsLeft(counts, g, n, multiset{}) && (CellNo(n) in g ==> Known(g[CellNo(n)].letter))
    ensures CountsLeft(if CellNo(n) in g then TakenOff(counts, g[CellNo(n)].HandTile()) else counts,
                       g, n + 1, multiset{})
  {
  }

  method TakeOffCell(counts: array<nat>, board: Board, r: nat, c: nat)
    requires board.Valid() && r < SIZE && c < SIZE
    requires forall p :: p in board.Contents() ==> Known(board.Contents()[p].letter)
    requires CountsLeft(counts[..], board.Contents(), r * SIZE + c, multiset{})
    modifies counts
    ensures CountsLeft(counts[..], board.Contents(), r * SIZE + c + 1, multiset{})
  {
    hide TilesOn;
    assert CellNo(r * SIZE + c) == Pos(r, c);
    CellTaken(counts[..], board.Contents(), r * SIZE + c);
    var cell := board.Get(r, c);
    if cell.Some? {
      TakeOff(counts, cell.value.HandTile());
    }
  }

  method TakeOffRow(counts: array<nat>, board: Board, r: nat)
    requires board.Valid() && r < SIZE
    requires forall p :: p in board.Contents() ==> Known(board.Contents()[p].letter)
    requires CountsLeft(counts[..], board.Contents(), r * SIZE, multiset{})
    modifies counts
    ensures CountsLeft(counts[..], board.Contents(), (r + 1) * SIZE, multiset{})
  {
    hide TilesOn;
    ghost var g := board.Contents();
    var c := 0;
    while c < SIZE
      invariant 0 <= c <= SIZE
      invariant CountsLeft(counts[..], g, r * SIZE + c, multiset{})
    {
      TakeOffCell(counts, board, r, c);
      c := c + 1;
    }
  }

  method TakeOffBoard(counts: array<nat>, board: Board)
    requires board.Valid()
    requires forall p :: p in board.Contents() ==> Known(board.Contents()[p].letter)
    requires CountsLeft(counts[..], map[], 0, multiset{})
    modifies counts
    ensures CountsLeft(counts[..], board.Contents(), CELLS, multiset{})
  {
    ghost var g := board.Contents();
    var r := 0;
    while r < SIZE
      invariant 0 <= r <= SIZE
      invariant CountsLeft(counts[..], g, r * SIZE, multiset{})
    {
      TakeOffRow(counts, board, r);
      r := r + 1;
    }
  }

  method TakeOffHand(counts: array<nat>, hand: seq<Tile>, ghost g: Grid)
    requires AllKnown(hand) && CountsLeft(counts[..], g, CELLS, multiset{})
    modifies counts
    ensures CountsLeft(counts[..], g, CELLS, multiset(hand))
  {
    var m := 0;
    while m < |hand|
      invariant 0 <= m <= |hand|
      invariant CountsLeft(counts[..], g, CELLS, multiset(hand[..m]))
    {
      assert hand[m] in hand;
      HandStep(hand, m);
      TakeOff(counts, hand[m]);
      m := m + 1;
    }
    assert hand[..m] == hand;
  }

  ghost function Unseen(g: Grid, ownHand: seq<Tile>, t: Tile): nat {
    Monus(Count(t), BoardTiles(g)[t] + multiset(ownHand)[t])
  }

  method HonestUnseen(board: Board, ownHand: seq<Tile>) returns (counts: array<nat>)
    requires board.Valid() && AllKnown(ownHand)
    requires forall p :: p in board.Contents() ==> Known(board.Contents()[p].letter)
    ensures fresh(counts) && counts.Length == KINDS
    ensures forall i :: 0 <= i < KINDS ==> counts[i] == Unseen(board.Contents(), ownHand, Tile(i))
  {
    counts := FullCounts();
    TakeOffBoard(counts, board);
    TakeOffHand(counts, ownHand, board.Contents());
  }

  // The hands of all players but one.
  ghost function OtherHands(players: seq<Player>, seat: nat): multiset<Tile>
    requires seat < |players|
  {
    HandsOf(players[..seat] + players[seat + 1..])
  }

  ghost function Hidden(s: State, seat: nat): multiset<Tile>
    requires seat < |s.players|
  {
    multiset(s.bag) + OtherHands(s.players, seat)
  }

  lemma TotalAt(s: State, lost: multiset<Tile>, full: multiset<Tile>, t: Tile)
    requires Total(s) + lost == full
    ensures full[t] == multiset(s.bag)[t] + HandsOf(s.players)[t] + PendingTiles(s)[t] + BoardTiles(s.grid)[t] + lost[t]
  {
    assert full[t] == Total(s)[t] + lost[t];
  }

  lemma OthersAt(players: seq<Player>, seat: nat, t: Tile)
    requires seat < |players|
    ensures HandsOf(players)[t] == OtherHands(players, seat)[t] + multiset(players[seat].hand)[t]
  {
    HandsToRemove(players, seat, |players|);
    assert HandsOf(players) == OtherHands(players, seat) + multiset(players[seat].hand);
  }

  lemma HiddenAt(s: State, seat: nat, lost: multiset<Tile>, t: Tile)
    requires seat < |s.players|
    ensures (Hidden(s, seat) + PendingTiles(s) + lost)[t]
            == multiset(s.bag)[t] + OtherHands(s.players, seat)[t] + PendingTiles(s)[t] + lost[t]
  {
  }

  /**
   What a player works out from the board and the own hand is exactly what is hidden: the bag and the hands
   of the others, and besides only tiles of a pending placement and tiles that left the game.
   */
  lemma UnseenIsHidden(s: State, seat: nat, lost: multiset<Tile>, t: Tile)
    requires seat < |s.players| && Total(s) + lost == FullSet()
    ensures Unseen(s.grid, s.players[seat].hand, t) == (Hidden(s, seat) + PendingTiles(s) + lost)[t]
  {
    FullSetCount(t);
    TotalAt(s, lost, FullSet(), t);
    OthersAt(s.players, seat, t);
    HiddenAt(s, seat, lost, t);
  }

  /** In any run from a new game the unseen tiles are the bag, the others' hands, and what is pending or was lost. */
  lemma UnseenInRuns(rules: Rules, bag: seq<Tile>, challengeMode: bool, asyncMode: bool, puzzle: Option<Puzzle>,
                     actions: seq<Action>, seat: nat, t: Tile)
    requires multiset(bag) == FullSet()
    requires seat < |Play(rules, Opening(rules, bag, challengeMode, asyncMode, puzzle), actions).players|
    ensures var start := Opening(rules, bag, challengeMode, asyncMode, puzzle);
            var s := Play(rules, start, actions);
            Unseen(s.grid, s.players[seat].hand, t)
            == (Hidden(s, seat) + PendingTiles(s) + LostIn(rules, start, actions))[t]
  {
    var start := Opening(rules, bag, challengeMode, asyncMode, puzzle);
    NewGameTiles(rules, bag, challengeMode, asyncMode, puzzle);
    TilesConserved(rules, start, actions);
    UnseenIsHidden(Play(rules, start, actions), seat, LostIn(rules, start, actions), t);
  }

  /** It is the bag and the others' hands alone exactly when nothing is pending from the table and nothing was lost. */
  lemma UnseenIsBagAndHands(s: State, seat: nat, lost: multiset<Tile>)
    requires seat < |s.players| && Total(s) + lost == FullSet()
    ensures (forall t :: Unseen(s.grid, s.players[seat].hand, t) == Hidden(s, seat)[t])
            <==> PendingTiles(s) == multiset{} && lost == multiset{}
  {
    forall t
      ensures Unseen(s.grid, s.players[seat].hand, t) == Hidden(s, seat)[t] + PendingTiles(s)[t] + lost[t]
    {
      UnseenIsHidden(s, seat, lost, t);
    }
    if forall t :: Unseen(s.grid, s.players[seat].hand, t) == Hidden(s, seat)[t] {
      forall t ensures PendingTiles(s)[t] == 0 && lost[t] == 0 {
        assert Unseen(s.grid, s.players[seat].hand, t) == Hidden(s, seat)[t];
      }
    }
  }

  // ----- Moves of the other engine -----

  // By row, then by column.
  predicate CellBefore(a: Placed, b: Placed) {
    a.row < b.row || (a.row == b.row && a.col < b.col)
  }

  // Puts a tile behind all that do not come later.
  function InsertByCell(sorted: seq<Placed>, p: Placed): seq<Placed> {
    if sorted == [] || !CellBefore(p, sorted[|sorted| - 1]) then sorted + [p]
    else InsertByCell(sorted[..|sorted| - 1], p) + [sorted[|sorted| - 1]]
  }

  function SortByCell(tiles: seq<Placed>): seq<Placed> {
    if tiles == [] then [] else InsertByCell(SortByCell(tiles[..|tiles| - 1]), tiles[|tiles| - 1])
  }

  ghost predicate OrderedByCell(tiles: seq<Placed>) {
    forall i, j :: 0 <= i < j < |tiles| ==> !CellBefore(tiles[j], tiles[i])
  }

  lemma {:induction false} InsertByCellAdds(sorted: seq<Placed>, p: Placed)
    ensures multiset(InsertByCell(sorted, p)) == multiset(sorted) + multiset{p}
  {
    if sorted != [] && CellBefore(p, sorted[|sorted| - 1]) {
      var front, last := sorted[..|sorted| - 1], sorted[|sorted| - 1];
      assert sorted == front + [last];
      InsertByCellAdds(front, p);
    }
  }

  lemma InsertedByCell(sorted: seq<Placed>, p: Placed, x: Placed)
    requires x in InsertByCell(sorted, p)
    ensures x in sorted || x == p
  {
    InsertByCellAdds(sorted, p);
    assert x in multiset(InsertByCell(sorted, p));
  }

  lemma {:induction false} InsertByCellOrders(sorted: seq<Placed>, p: Placed)
    requires OrderedByCell(sorted)
    ensures OrderedByCell(InsertByCell(sorted, p))
  {
    if sorted != [] && CellBefore(p, sorted[|sorted| - 1]) {
      var front, last := sorted[..|sorted| - 1], sorted[|sorted| - 1];
      InsertByCellOrders(front, p);
      forall x | x in InsertByCell(front, p) ensures !CellBefore(last, x) {
        InsertedByCell(front, p, x);
      }
    }
  }

  lemma {:induction false} SortByCellIs(tiles: seq<Placed>)
    ensures OrderedByCell(SortByCell(tiles)) && multiset(SortByCell(tiles)) == multiset(tiles)
  {
    if tiles != [] {
      var front := tiles[..|tiles| - 1];
      assert tiles == front + [tiles[|tiles| - 1]];
      SortByCellIs(front);
      InsertByCellAdds(SortByCell(front), tiles[|tiles| - 1]);
      InsertByCellOrders(SortByCell(front), tiles[|tiles| - 1]);
    }
  }

  // A vertical opening move is mirrored into a horizontal one; then the tiles are sorted.
  function PlacedFromPlay(play: seq<Placed>, vertical: bool, boardIsEmpty: bool): seq<Placed> {
    SortByCell(if boardIsEmpty && vertical then FlipAll(play) else play)
  }

  lemma MirrorOnly(rules: Rules, g: Grid, play: seq<Placed>, vertical: bool, skipDictionary: bool)
    requires GridOk(g)
    ensures var mirrored := if g == map[] && vertical then FlipAll(play) else play;
            SameVerdict(Validate(rules, g, g == map[], mirrored, skipDictionary),
                        Validate(rules, g, g == map[], play, skipDictionary))
  {
    if g == map[] && vertical {
      assert FlipGrid(g) == g;
      ValidateFlips(rules, g, true, play, skipDictionary);
    }
  }

  /**
   Mirroring an opening move and sorting the tiles changes neither the verdict nor words and points. Only of
   tiles that lie badly another one may be reported.
   */
  lemma MirroringIsHarmless(rules: Rules, g: Grid, play: seq<Placed>, vertical: bool, skipDictionary: bool)
    requires GridOk(g)
    ensures var u := Validate(rules, g, g == map[], PlacedFromPlay(play, vertical, g == map[]), skipDictionary);
            var v := Validate(rules, g, g == map[], play, skipDictionary);
            if GoodPositions(g, play) then SameVerdict(u, v) else BadlyLaid(u) && BadlyLaid(v)
    ensures OrderedByCell(PlacedFromPlay(play, vertical, g == map[]))
  {
    var mirrored := if g == map[] && vertical then FlipAll(play) else play;
    var sorted := PlacedFromPlay(play, vertical, g == map[]);
    SortByCellIs(mirrored);
    MirrorOnly(rules, g, play, vertical, skipDictionary);
    BadlyLaidIff(rules, g, g == map[], play, skipDictionary);
    BadlyLaidIff(rules, g, g == map[], mirrored, skipDictionary);
    ValidatePermutes(rules, g, g == map[], mirrored, sorted, skipDictionary);
  }

  // Rows and columns exchanged.
  function Exchanged(play: seq<Placed>): seq<Placed> {
    seq(|play|, i requires 0 <= i < |play| => Placed(play[i].col, play[i].row, play[i].letter, play[i].isBlank))
  }

  /** Of a vertical opening move rows and columns are exchanged, any other is kept; then it goes row by row. */
  lemma LaidOut(play: seq<Placed>, vertical: bool, boardIsEmpty: bool)
    ensures var tiles := PlacedFromPlay(play, vertical, boardIsEmpty);
            && multiset(tiles) == multiset(if boardIsEmpty && vertical then Exchanged(play) else play)
            && forall i, j :: 0 <= i < j < |tiles| ==>
                 tiles[i].row < tiles[j].row || (tiles[i].row == tiles[j].row && tiles[i].col <= tiles[j].col)
  {
    assert FlipAll(play) == Exchanged(play);
    SortByCellIs(if boardIsEmpty && vertical then FlipAll(play) else play);
    hide SortByCell, FlipAll, Exchanged;
  }
}
