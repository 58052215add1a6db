/**
 The books of a game: where the hundred tiles are, how the scores follow from the move log, and why every
 game comes to an end.
 */
module Ledger {
  import opened Results
  import opened Tiles
  import opened Bags
  import opened Grids
  import opened BoardLaws
  import opened GameStates
  import opened GameLaws

  // ----- Where the tiles are -----

  // The tiles in the hands of the first n players.
  ghost function HandsTo(players: seq<Player>, n: nat): multiset<Tile>
    requires n <= |players|
  {
    if n == 0 then multiset{} else HandsTo(players, n - 1) + multiset(players[n - 1].hand)
  }

  ghost function HandsOf(players: seq<Player>): multiset<Tile> {
    HandsTo(players, |players|)
  }

  const CELLS := SIZE * SIZE

  // The n-th cell of the board, row by row.
  function CellNo(n: nat): Pos {
    Pos(n / SIZE, n % SIZE)
  }

  // The tiles on the first n cells; a blank counts as a blank.
  ghost function TilesOn(g: Grid, n: nat): multiset<Tile> {
    if n == 0 then multiset{}
    else TilesOn(g, n - 1) + (if CellNo(n - 1) in g then multiset{g[CellNo(n - 1)].HandTile()} else multiset{})
  }

  ghost function BoardTiles(g: Grid): multiset<Tile> {
    TilesOn(g, CELLS)
  }

  ghost function PendingTiles(s: State): multiset<Tile> {
    if s.pending.Some? then multiset(s.pending.value.removed) else multiset{}
  }

  ghost function TilesOff(s: State): multiset<Tile> {
    multiset(s.bag) + HandsOf(s.players) + PendingTiles(s)
  }

  // All tiles of the game: bag, hands, board and pending placement.
  ghost function Total(s: State): multiset<Tile> {
    TilesOff(s) + BoardTiles(s.grid)
  }

  lemma {:induction false} HandsToSame(a: seq<Player>, b: seq<Player>, n: nat)
    requires n <= |a| && n <= |b| && forall i :: 0 <= i < n ==> a[i].hand == b[i].hand
    ensures HandsTo(a, n) == HandsTo(b, n) && HandTotalTo(a, n) == HandTotalTo(b, n)
  {
    if n > 0 {
      HandsToSame(a, b, n - 1);
    }
  }

  // The same tiles added on both sides of a balance.
  lemma BalanceAdd(a: multiset<Tile>, b: multiset<Tile>, c: multiset<Tile>, d: multiset<Tile>, e: multiset<Tile>)
    requires a + b == c + d
    ensures (a + e) + b == (c + e) + d
  {
    forall x ensures ((a + e) + b)[x] == ((c + e) + d)[x] {
      assert (a + b)[x] == (c + d)[x];
    }
  }

  lemma {:induction false} HandsToUpdate(players: seq<Player>, i: nat, p: Player, n: nat)
    requires i < n <= |players|
    ensures HandsTo(players[i := p], n) + multiset(players[i].hand) == HandsTo(players, n) + multiset(p.hand)
  {
    if n - 1 == i {
      HandsToSame(players[i := p], players, n - 1);
    } else {
      HandsToUpdate(players, i, p, n - 1);
      BalanceAdd(HandsTo(players[i := p], n - 1), multiset(players[i].hand), HandsTo(players, n - 1), multiset(p.hand),
                 multiset(players[n - 1].hand));
    }
  }

  lemma HandsUpdate(players: seq<Player>, i: nat, p: Player)
    requires i < |players|
    ensures HandsOf(players[i := p]) + multiset(players[i].hand) == HandsOf(players) + multiset(p.hand)
  {
    HandsToUpdate(players, i, p, |players|);
  }

  lemma {:induction false} HandsToRemove(players: seq<Player>, i: nat, n: nat)
    requires i < n <= |players|
    ensures HandsTo(players[..i] + players[i + 1..], n - 1) + multiset(players[i].hand) == HandsTo(players, n)
  {
    var left := players[..i] + players[i + 1..];
    if n - 1 == i {
      HandsToSame(left, players, n - 1);
    } else {
      HandsToRemove(players, i, n - 1);
      assert left[n - 2] == players[n - 1];
      BalanceAdd(HandsTo(left, n - 2), multiset(players[i].hand), HandsTo(players, n - 1), multiset{},
                 multiset(players[n - 1].hand));
    }
  }

  lemma HandsSame(a: seq<Player>, b: seq<Player>)
    requires SameHands(a, b)
    ensures HandsOf(a) == HandsOf(b) && HandTotal(a) == HandTotal(b)
  {
    HandsToSame(a, b, |a|);
  }

  lemma CellNoIs(n: nat, p: Pos)
    requires OnBoard(p)
    ensures CellNo(n) == p <==> n == p.r * SIZE + p.c
  {
  }

  lemma {:induction false} TilesOnAdd(g: Grid, p: Pos, cell: Cell, n: nat)
    requires OnBoard(p) && p !in g
    ensures TilesOn(g[p := cell], n) ==
              TilesOn(g, n) + (if p.r * SIZE + p.c < n then multiset{cell.HandTile()} else multiset{})
  {
    if n > 0 {
      TilesOnAdd(g, p, cell, n - 1);
      CellNoIs(n - 1, p);
    }
  }

  lemma {:induction false} BoardTilesWith(g: Grid, placed: seq<Placed>)
    requires GoodPositions(g, placed)
    ensures BoardTiles(With(g, placed)) == BoardTiles(g) + multiset(HandTilesOf(placed))
  {
    if placed == [] {
      assert HandTilesOf(placed) == [];
    } else {
      var front, last := placed[..|placed| - 1], placed[|placed| - 1];
      BoardTilesWith(g, front);
      WithKeys(g, front);
      assert last.At() !in With(g, front);
      TilesOnAdd(With(g, front), last.At(), last.AsCell(), CELLS);
      assert HandTilesOf(placed) == HandTilesOf(front) + [last.HandTile()];
    }
  }

  // ----- Scores -----

  ghost function ScoreTo(players: seq<Player>, n: nat): int
    requires n <= |players|
  {
    if n == 0 then 0 else ScoreTo(players, n - 1) + players[n - 1].score
  }

  ghost function ScoreSum(players: seq<Player>): int {
    ScoreTo(players, |players|)
  }

  ghost function LogTo(log: seq<Entry>, n: nat): int
    requires n <= |log|
  {
    if n == 0 then 0 else LogTo(log, n - 1) + log[n - 1].score
  }

  ghost function LogTotal(log: seq<Entry>): int {
    LogTo(log, |log|)
  }

  lemma {:induction false} ScoreToSame(a: seq<Player>, b: seq<Player>, n: nat)
    requires n <= |a| && n <= |b| && forall i :: 0 <= i < n ==> a[i].score == b[i].score
    ensures ScoreTo(a, n) == ScoreTo(b, n)
  {
    if n > 0 {
      ScoreToSame(a, b, n - 1);
    }
  }

  lemma {:induction false} ScoreToUpdate(players: seq<Player>, i: nat, p: Player, n: nat)
    requires i < n <= |players|
    ensures ScoreTo(players[i := p], n) == ScoreTo(players, n) - players[i].score + p.score
  {
    if n - 1 == i {
      ScoreToSame(players[i := p], players, n - 1);
    } else {
      ScoreToUpdate(players, i, p, n - 1);
    }
  }

  lemma ScoreUpdate(players: seq<Player>, i: nat, p: Player)
    requires i < |players|
    ensures ScoreSum(players[i := p]) == ScoreSum(players) - players[i].score + p.score
  {
    ScoreToUpdate(players, i, p, |players|);
  }

  lemma {:induction false} ScoreToRemove(players: seq<Player>, i: nat, n: nat)
    requires i < n <= |players|
    ensures ScoreTo(players[..i] + players[i + 1..], n - 1) == ScoreTo(players, n) - players[i].score
  {
    var left := players[..i] + players[i + 1..];
    if n - 1 == i {
      ScoreToSame(left, players, n - 1);
    } else {
      ScoreToRemove(players, i, n - 1);
      assert left[n - 2] == players[n - 1];
    }
  }

  lemma {:induction false} SettleSum(players: seq<Player>, n: nat)
    requires n <= |players|
    ensures ScoreTo(Settle(players), n) == ScoreTo(players, n) - HandTotalTo(players, n)
  {
    if n > 0 {
      SettleSum(players, n - 1);
    }
  }

  lemma SettledSum(players: seq<Player>, finisher: Option<nat>)
    requires finisher.Some? ==> finisher.value < |players|
    ensures ScoreSum(Settled(players, finisher))
            == ScoreSum(players) - (if finisher.Some? then 0 else HandTotal(players))
    ensures HandsOf(Settled(players, finisher)) == HandsOf(players)
            && HandTotal(Settled(players, finisher)) == HandTotal(players)
  {
    SettleSum(players, |players|);
    SettledHands(players, finisher);
    HandsSame(players, Settled(players, finisher));
    if finisher.Some? {
      var paid := Settle(players);
      ScoreUpdate(paid, finisher.value,
                  paid[finisher.value].(score := paid[finisher.value].score + HandTotal(players)));
    }
  }

  lemma {:induction false} LogToSame(a: seq<Entry>, b: seq<Entry>, n: nat)
    requires n <= |a| && n <= |b| && a[..n] == b[..n]
    ensures LogTo(a, n) == LogTo(b, n)
  {
    if n > 0 {
      assert a[..n][..n - 1] == a[..n - 1] && b[..n][..n - 1] == b[..n - 1];
      assert a[n - 1] == a[..n][n - 1] && b[n - 1] == b[..n][n - 1];
      LogToSame(a, b, n - 1);
    }
  }

  lemma LogSnoc(log: seq<Entry>, e: Entry)
    ensures LogTotal(log + [e]) == LogTotal(log) + e.score
    ensures (log + [e])[..|log|] == log
  {
    LogToSame(log + [e], log, |log|);
  }

  // ----- What one step books -----

  // A completed turn adds one entry to the log: with points when tiles went to the board, without otherwise.
  ghost predicate QuietStep(s: State, next: State) {
    next.log == s.log && next.grid == s.grid && next.scoreless == s.scoreless && next.challengeMode == s.challengeMode
  }

  ghost predicate ScorelessStep(s: State, next: State) {
    && |next.log| == |s.log| + 1 && next.log[..|s.log|] == s.log
    && next.log[|s.log|].score == 0 && next.log[|s.log|].kind !in {PlaceMove, AcceptMove}
    && next.grid == s.grid && next.scoreless == s.scoreless + 1 && next.challengeMode == s.challengeMode
  }

  ghost predicate ScoringStep(s: State, next: State) {
    && |next.log| == |s.log| + 1 && next.log[..|s.log|] == s.log
    && next.log[|s.log|].kind in {PlaceMove, AcceptMove}
    && |BoardTiles(next.grid)| > |BoardTiles(s.grid)| && next.scoreless == 0 && next.challengeMode == s.challengeMode
  }

  ghost predicate TurnShape(s: State, next: State) {
    && (QuietStep(s, next) || ScorelessStep(s, next) || ScoringStep(s, next))
    && (s.finished ==> next.finished && QuietStep(s, next))
  }

  // What the players pay when the game ends otherwise than by a placement: the value left in their hands.
  ghost function Penalty(s: State, next: State): int {
    if !s.finished && next.finished && !ScoringStep(s, next) then HandTotal(next.players) else 0
  }

  ghost predicate Accounts(s: State, next: State, lost: multiset<Tile>, departed: int) {
    && Total(next) + lost == Total(s)
    && ScoreSum(next.players) + departed + Penalty(s, next)
       == ScoreSum(s.players) + LogTotal(next.log) - LogTotal(s.log)
    && TurnShape(s, next)
  }

  // Tiles are moved about between bag, hands and a pending placement; nothing is booked.
  ghost predicate Moved(s: State, next: State) {
    && QuietStep(s, next) && next.finished == s.finished
    && TilesOff(next) == TilesOff(s) && ScoreSum(next.players) == ScoreSum(s.players)
  }

  lemma MovedAccounts(s: State, next: State)
    requires Moved(s, next)
    ensures Accounts(s, next, multiset{}, 0)
  {
  }

  // One seat changes, the tiles only change places.
  lemma SeatMoved(s: State, next: State, i: nat, p: Player)
    requires i < |s.players| && next.players == s.players[i := p] && p.score == s.players[i].score
    requires QuietStep(s, next) && next.finished == s.finished
    requires multiset(next.bag) + multiset(p.hand) + PendingTiles(next)
             == multiset(s.bag) + multiset(s.players[i].hand) + PendingTiles(s)
    ensures Moved(s, next)
  {
    HandsUpdate(s.players, i, p);
    ScoreUpdate(s.players, i, p);
    SeatBalance(multiset(s.bag), multiset(next.bag), HandsOf(s.players), HandsOf(next.players),
                multiset(s.players[i].hand), multiset(p.hand), PendingTiles(s), PendingTiles(next));
  }

  lemma SeatBalance(bag: multiset<Tile>, bagAfter: multiset<Tile>, hands: multiset<Tile>, handsAfter: multiset<Tile>,
                    hand: multiset<Tile>, handAfter: multiset<Tile>, pending: multiset<Tile>,
                    pendingAfter: multiset<Tile>)
    requires handsAfter + hand == hands + handAfter
    requires bagAfter + handAfter + pendingAfter == bag + hand + pending
    ensures bagAfter + handsAfter + pendingAfter == bag + hands + pending
  {
    forall x
      ensures (bagAfter + handsAfter + pendingAfter)[x] == (bag + hands + pending)[x]
    {
      assert (handsAfter + hand)[x] == (hands + handAfter)[x];
      assert (bagAfter + handAfter + pendingAfter)[x] == (bag + hand + pending)[x];
    }
  }

  lemma EndGameTiles(s: State, finisher: Option<nat>)
    requires finisher.Some? ==> finisher.value < |s.players|
    ensures Total(EndGame(s, finisher)) + PendingTiles(s) == Total(s)
  {
    SettledSum(s.players, finisher);
  }

  lemma EndGameScores(s: State, finisher: Option<nat>)
    requires finisher.Some? ==> finisher.value < |s.players|
    ensures var ended := EndGame(s, finisher);
            && ScoreSum(ended.players) == ScoreSum(s.players) - (if finisher.Some? then 0 else HandTotal(s.players))
            && HandTotal(ended.players) == HandTotal(s.players)
  {
    SettledSum(s.players, finisher);
  }

  // The game ends without a placement, from a state that differs from s in moved (or lost) tiles only.
  lemma EndAccounts(s: State, moved: State, lost: multiset<Tile>)
    requires QuietStep(s, moved) && !s.finished && moved.pending.None?
    requires Total(moved) + lost == Total(s) && ScoreSum(moved.players) == ScoreSum(s.players)
    ensures Accounts(s, EndGame(moved, None), lost, 0)
  {
    EndGameTiles(moved, None);
    EndGameScores(moved, None);
  }

  // A completed turn without points.
  ghost predicate Scoreless(s: State, next: State) {
    && ScorelessStep(s, next) && Total(next) == Total(s)
    && ScoreSum(next.players) == ScoreSum(s.players) && LogTotal(next.log) == LogTotal(s.log)
    && next.finished == s.finished && next.pending.None?
  }

  lemma ScorelessAccounts(s: State, next: State)
    requires Scoreless(s, next) && !s.finished
    ensures Accounts(s, next, multiset{}, 0)
  {
  }

  lemma LastScorelessAccounts(s: State, next: State)
    requires Scoreless(s, next) && !s.finished
    ensures Accounts(s, EndGame(next, None), multiset{}, 0)
  {
    EndGameTiles(next, None);
    EndGameScores(next, None);
  }

  lemma RecordedScoreless(s: State, moved: State, idx: nat, kind: Kind)
    requires Moved(s, moved) && moved.pending.None? && idx < |moved.players| && kind !in {PlaceMove, AcceptMove}
    ensures Scoreless(s, Record(moved, idx, kind, 0).(scoreless := s.scoreless + 1))
  {
    LogSnoc(moved.log, Entry(|moved.log| + 1, moved.players[idx].name, kind, 0, moved.grid));
  }

  lemma NextTurnBooks(s: State, counted: State)
    requires Scoreless(s, counted) && NoPenalties(counted.players)
    ensures Scoreless(s, NextTurn(counted))
  {
    AdvanceWithoutPenalties(counted.players, counted.cur, counted.asyncMode, |counted.players|);
  }

  lemma ScorelessBooks(s: State, moved: State, idx: nat, kind: Kind)
    requires Moved(s, moved) && moved.pending.None? && !s.finished && NoPenalties(moved.players)
    requires idx < |moved.players| && kind !in {PlaceMove, AcceptMove}
    ensures Accounts(s, RegisterScoreless(Record(moved, idx, kind, 0)), multiset{}, 0)
    ensures Accounts(s, ScorelessTurn(Record(moved, idx, kind, 0)), multiset{}, 0)
    ensures moved.scoreless + 1 < SCORELESS_TURNS_LIMIT ==>
              Accounts(s, NextTurn(RegisterScoreless(Record(moved, idx, kind, 0))), multiset{}, 0)
  {
    var counted := Record(moved, idx, kind, 0).(scoreless := s.scoreless + 1);
    RecordedScoreless(s, moved, idx, kind);
    CountedBooks(s, Record(moved, idx, kind, 0), counted);
  }

  lemma CountedBooks(s: State, recorded: State, counted: State)
    requires recorded.scoreless == s.scoreless && counted == recorded.(scoreless := s.scoreless + 1)
    requires Scoreless(s, counted) && !s.finished && NoPenalties(counted.players)
    ensures Accounts(s, RegisterScoreless(recorded), multiset{}, 0)
    ensures Accounts(s, ScorelessTurn(recorded), multiset{}, 0)
    ensures s.scoreless + 1 < SCORELESS_TURNS_LIMIT
            ==> Accounts(s, NextTurn(RegisterScoreless(recorded)), multiset{}, 0)
  {
    if s.scoreless + 1 >= SCORELESS_TURNS_LIMIT {
      LastScorelessAccounts(s, counted);
      assert ScorelessTurn(recorded) == RegisterScoreless(recorded) == EndGame(counted, None);
    } else {
      NextTurnBooks(s, counted);
      ScorelessAccounts(s, counted);
      ScorelessAccounts(s, NextTurn(counted));
      assert RegisterScoreless(recorded) == counted;
    }
  }

  // ----- Placements -----

  // The refilled hand of the mover.
  lemma CommitHands(s: State, hand: seq<Tile>, timeouts: nat, tiles: seq<Placed>, score: int, kind: Kind)
    requires s.cur < |s.players|
    ensures HandsOf(Commit(s, s.cur, hand, timeouts, tiles, score, kind).players) + multiset(s.players[s.cur].hand)
            == HandsOf(s.players) + (multiset(hand) + multiset(Drawn(s.bag, Refill(hand))))
  {
    var p := s.players[s.cur];
    var drawn := Drawn(s.bag, Refill(hand));
    HandsUpdate(s.players, s.cur, p.(score := p.score + score, hand := hand + drawn, timeouts := timeouts));
    assert multiset(hand + drawn) == multiset(hand) + multiset(drawn);
  }

  lemma CommitTiles(s: State, hand: seq<Tile>, timeouts: nat, tiles: seq<Placed>, score: int, kind: Kind)
    requires s.cur < |s.players| && GoodPositions(s.grid, tiles)
    requires multiset(hand) + multiset(HandTilesOf(tiles)) == multiset(s.players[s.cur].hand) + PendingTiles(s)
    ensures Total(Commit(s, s.cur, hand, timeouts, tiles, score, kind)) == Total(s)
  {
    hide HandsTo, TilesOn, HandTilesOf, GoodPositions, With, Drawn, LeftAfter, Refill;
    var after := Commit(s, s.cur, hand, timeouts, tiles, score, kind);
    DrawSplits(s.bag, Refill(hand));
    CommitHands(s, hand, timeouts, tiles, score, kind);
    BoardTilesWith(s.grid, tiles);
    TilesMove(multiset(s.bag), multiset(LeftAfter(s.bag, Refill(hand))), multiset(Drawn(s.bag, Refill(hand))),
              HandsOf(s.players), HandsOf(after.players), multiset(s.players[s.cur].hand), multiset(hand),
              multiset(HandTilesOf(tiles)), PendingTiles(s), BoardTiles(s.grid));
  }

  // The balance of a placement: bag, hands, the mover's hand, placed and pending tiles, board.
  lemma TilesMove(bag: multiset<Tile>, left: multiset<Tile>, drawn: multiset<Tile>, hands: multiset<Tile>,
                  handsAfter: multiset<Tile>, before: multiset<Tile>, kept: multiset<Tile>, placed: multiset<Tile>,
                  pending: multiset<Tile>, board: multiset<Tile>)
    requires left + drawn == bag && kept + placed == before + pending
    requires handsAfter + before == hands + (kept + drawn)
    ensures left + handsAfter + multiset{} + (board + placed) == bag + hands + pending + board
  {
    forall x
      ensures (left + handsAfter + multiset{} + (board + placed))[x] == (bag + hands + pending + board)[x]
    {
      assert (left + drawn)[x] == bag[x] && (kept + placed)[x] == (before + pending)[x];
      assert (handsAfter + before)[x] == (hands + (kept + drawn))[x];
    }
  }

  lemma CommitScores(s: State, hand: seq<Tile>, timeouts: nat, tiles: seq<Placed>, score: int, kind: Kind)
    requires s.cur < |s.players|
    ensures var after := Commit(s, s.cur, hand, timeouts, tiles, score, kind);
            ScoreSum(after.players) == ScoreSum(s.players) + score && LogTotal(after.log) == LogTotal(s.log) + score
  {
    var p := s.players[s.cur];
    var after := Commit(s, s.cur, hand, timeouts, tiles, score, kind);
    ScoreUpdate(s.players, s.cur,
                p.(score := p.score + score, hand := hand + Drawn(s.bag, Refill(hand)), timeouts := timeouts));
    LogSnoc(s.log, after.log[|s.log|]);
  }

  lemma CommitShape(s: State, hand: seq<Tile>, timeouts: nat, tiles: seq<Placed>, score: int, kind: Kind)
    requires s.cur < |s.players| && tiles != [] && GoodPositions(s.grid, tiles) && kind in {PlaceMove, AcceptMove}
    ensures ScoringStep(s, Commit(s, s.cur, hand, timeouts, tiles, score, kind))
  {
    var after := Commit(s, s.cur, hand, timeouts, tiles, score, kind);
    BoardTilesWith(s.grid, tiles);
    assert |multiset(HandTilesOf(tiles))| == |tiles|;
    LogSnoc(s.log, after.log[|s.log|]);
  }

  // A placement has been booked.
  ghost predicate Booked(s: State, next: State) {
    && ScoringStep(s, next) && Total(next) == Total(s) && next.pending.None?
    && ScoreSum(next.players) - ScoreSum(s.players) == LogTotal(next.log) - LogTotal(s.log)
  }

  lemma BookedAccounts(s: State, next: State)
    requires Booked(s, next) && !s.finished
    ensures Accounts(s, next, multiset{}, 0)
  {
  }

  lemma CommitBooked(s: State, hand: seq<Tile>, timeouts: nat, tiles: seq<Placed>, score: int, kind: Kind)
    requires s.cur < |s.players| && tiles != [] && GoodPositions(s.grid, tiles) && kind in {PlaceMove, AcceptMove}
    requires multiset(hand) + multiset(HandTilesOf(tiles)) == multiset(s.players[s.cur].hand) + PendingTiles(s)
    ensures Booked(s, Commit(s, s.cur, hand, timeouts, tiles, score, kind))
  {
    CommitTiles(s, hand, timeouts, tiles, score, kind);
    CommitScores(s, hand, timeouts, tiles, score, kind);
    CommitShape(s, hand, timeouts, tiles, score, kind);
  }

  // After the placement is booked: the end of the game by playing out, or the next turn.
  lemma EndBooked(s: State, after: State, idx: nat)
    requires Booked(s, after) && idx < |after.players|
    ensures Booked(s, EndGame(after, Some(idx)))
  {
    EndGameTiles(after, Some(idx));
    EndGameScores(after, Some(idx));
  }

  lemma NextBooked(s: State, after: State)
    requires Booked(s, after) && NoPenalties(after.players)
    ensures Booked(s, NextTurn(after))
  {
    AdvanceWithoutPenalties(after.players, after.cur, after.asyncMode, |after.players|);
  }

  lemma AfterCommitBooked(s: State, after: State, idx: nat)
    requires Booked(s, after) && NoPenalties(after.players) && idx < |after.players|
    ensures Booked(s, AfterCommit(after, idx))
  {
    EndBooked(s, after, idx);
    NextBooked(s, after);
    hide Booked, EndGame, NextTurn;
  }

  lemma FinalizePlacementBooks(s: State, tiles: seq<Placed>, score: int)
    requires NoPenalties(s.players) && !s.finished && s.pending.None? && s.cur < |s.players|
    requires HasTiles(s.players[s.cur].hand, tiles) && tiles != [] && GoodPositions(s.grid, tiles)
    ensures Accounts(s, FinalizePlacement(s, tiles, score), multiset{}, 0)
  {
    var hand := RemoveTiles(s.players[s.cur].hand, tiles);
    var after := Commit(s, s.cur, hand, 0, tiles, score, PlaceMove);
    HasTilesIffIncluded(s.players[s.cur].hand, tiles);
    CommitBooked(s, hand, 0, tiles, score, PlaceMove);
    if s.puzzle.Some? {
      BookedAccounts(s, FinalizePlacement(s, tiles, score));
    } else {
      AfterCommitBooked(s, after, s.cur);
      BookedAccounts(s, AfterCommit(after, s.cur));
    }
  }

  // A pending placement, booked after the vote.
  lemma AcceptedBooked(rules: Rules, s: State)
    requires Inv(rules, s) && s.pending.Some?
    ensures var pc, p := s.pending.value, s.players[s.cur];
            var after := Commit(s, s.cur, p.hand, p.timeouts, pc.tiles, pc.score, AcceptMove);
            Booked(s, after) && NoPenalties(after.players)
  {
    var pc, p := s.pending.value, s.players[s.cur];
    ValidateIffLegal(rules, s.grid, s.boardEmpty, pc.tiles, true);
    CommitBooked(s, p.hand, p.timeouts, pc.tiles, pc.score, AcceptMove);
  }

  lemma FinalizeAcceptBooks(rules: Rules, s: State)
    requires Inv(rules, s) && s.pending.Some?
    ensures Accounts(s, FinalizeAccept(s), multiset{}, 0)
  {
    var pc, p := s.pending.value, s.players[s.cur];
    var after := Commit(s, s.cur, p.hand, p.timeouts, pc.tiles, pc.score, AcceptMove);
    AcceptedBooked(rules, s);
    assert pc.playerIdx == s.cur && !s.finished;
    hide Booked, AfterCommit, Accounts;
    AfterCommitBooked(s, after, s.cur);
    BookedAccounts(s, AfterCommit(after, s.cur));
  }

  lemma SuspendMoved(s: State, tiles: seq<Placed>, formed: seq<FormedWord>)
    requires s.pending.None? && s.cur < |s.players| && HasTiles(s.players[s.cur].hand, tiles)
    ensures Moved(s, Suspend(s, tiles, formed))
  {
    var p := s.players[s.cur];
    HasTilesIffIncluded(p.hand, tiles);
    SeatMoved(s, Suspend(s, tiles, formed), s.cur, p.(hand := RemoveTiles(p.hand, tiles)));
  }

  lemma PlaceTilesBooks(rules: Rules, s: State, id: string, tiles: seq<Placed>)
    requires Inv(rules, s) && PlaceTiles(rules, s, id, tiles).Ok?
    ensures Accounts(s, PlaceTiles(rules, s, id, tiles).value, multiset{}, 0)
  {
    var p := s.players[s.cur];
    var challenged := ChallengeApplies(s.challengeMode, s.players, s.cur);
    var formed := Validate(rules, s.grid, s.boardEmpty, tiles, challenged).value;
    if challenged {
      SuspendMoved(s, tiles, formed);
      MovedAccounts(s, Suspend(s, tiles, formed));
    } else {
      ValidateIffLegal(rules, s.grid, s.boardEmpty, tiles, false);
      FinalizePlacementBooks(s, tiles, PlacementTotal(formed, |tiles|));
    }
  }

  // ----- Votes -----

  lemma ReturnTilesMoved(s: State)
    requires s.pending.Some? && PendingSeated(s)
    ensures Moved(s, ReturnTiles(s))
  {
    var pc := s.pending.value;
    var p := s.players[pc.playerIdx];
    SeatMoved(s, ReturnTiles(s), pc.playerIdx, p.(hand := p.hand + pc.removed));
  }

  lemma FinalizeRejectBooks(rules: Rules, s: State)
    requires Inv(rules, s) && s.pending.Some?
    ensures Accounts(s, FinalizeReject(s), multiset{}, 0)
  {
    var pc := s.pending.value;
    var returned := ReturnTiles(s).(rejected := s.rejected + {multiset(pc.tiles)});
    ReturnTilesInv(rules, s);
    ReturnTilesMoved(s);
    assert Moved(s, returned);
    ScorelessBooks(s, returned, pc.playerIdx, RejectMove);
  }

  lemma ResolveBooks(rules: Rules, s: State)
    requires Inv(rules, s) && s.pending.Some?
    ensures Accounts(s, ResolveAndFinalize(s), multiset{}, 0)
  {
    FinalizeAcceptBooks(rules, s);
    FinalizeRejectBooks(rules, s);
  }

  lemma VotedBooks(s: State, votes: map<string, Vote>, next: State, lost: multiset<Tile>)
    requires s.pending.Some? && Accounts(s.(pending := Some(s.pending.value.(votes := votes))), next, lost, 0)
    ensures Accounts(s, next, lost, 0)
  {
  }

  lemma CastVoteBooks(rules: Rules, s: State, id: string, vote: Vote)
    requires Inv(rules, s) && CastVote(s, id, vote).Ok?
    ensures Accounts(s, CastVote(s, id, vote).value, multiset{}, 0)
  {
    CastVoteLeads(s, id, vote);
    var voted, next := Voted(s, id, vote), CastVote(s, id, vote).value;
    VotesInv(rules, s, s.pending.value.votes[id := vote]);
    if next == voted {
      MovedAccounts(s, voted);
    } else {
      ResolveBooks(rules, voted);
      VotedBooks(s, s.pending.value.votes[id := vote], next, multiset{});
    }
  }

  // ----- Exchange, pass, resignation, forced end -----

  lemma ExchangedMoved(s: State, indices: seq<int>, shuffled: seq<Tile>)
    requires s.cur < |s.players| && IsShuffleOf(s, indices, shuffled)
    ensures Moved(s, Exchanged(s, indices, shuffled))
  {
    var p := s.players[s.cur];
    SelectSplits(p.hand, indices);
    DrawSplits(s.bag, |indices|);
    var hand := Select(p.hand, indices, false) + Drawn(s.bag, |indices|);
    assert multiset(hand) == multiset(Select(p.hand, indices, false)) + multiset(Drawn(s.bag, |indices|));
    SeatMoved(s, Exchanged(s, indices, shuffled), s.cur, p.(hand := hand, timeouts := 0));
  }

  lemma ExchangeLeads(s: State, id: string, indices: seq<int>, shuffled: seq<Tile>)
    requires ExchangeTiles(s, id, indices, shuffled).Ok?
    ensures !s.finished && s.pending.None? && s.cur < |s.players|
    ensures ExchangeTiles(s, id, indices, shuffled).value
            == ScorelessTurn(Record(Exchanged(s, indices, shuffled), s.cur, ExchangeMove, 0))
  {
  }

  lemma ExchangeBooks(s: State, id: string, indices: seq<int>, shuffled: seq<Tile>)
    requires NoPenalties(s.players) && ExchangeTiles(s, id, indices, shuffled).Ok? && IsShuffleOf(s, indices, shuffled)
    ensures Accounts(s, ExchangeTiles(s, id, indices, shuffled).value, multiset{}, 0)
  {
    ExchangeLeads(s, id, indices, shuffled);
    ExchangedMoved(s, indices, shuffled);
    ScorelessBooks(s, Exchanged(s, indices, shuffled), s.cur, ExchangeMove);
  }

  lemma NotedMoved(s: State, timeout: bool)
    requires s.cur < |s.players|
    ensures Moved(s, Noted(s, timeout))
  {
    SeatMoved(s, Noted(s, timeout), s.cur, Noted(s, timeout).players[s.cur]);
  }

  lemma PassLeads(s: State, id: string, timeout: bool)
    requires PassTurn(s, id, timeout).Ok?
    ensures !s.finished && s.pending.None? && s.cur < |s.players|
    ensures PassTurn(s, id, timeout).value == ScorelessTurn(Record(Noted(s, timeout), s.cur, PassMove, 0))
  {
  }

  lemma PassTurnBooks(s: State, id: string, timeout: bool)
    requires NoPenalties(s.players) && PassTurn(s, id, timeout).Ok?
    ensures Accounts(s, PassTurn(s, id, timeout).value, multiset{}, 0)
  {
    PassLeads(s, id, timeout);
    NotedMoved(s, timeout);
    ScorelessBooks(s, Noted(s, timeout), s.cur, PassMove);
  }

  lemma MarkedTiles(s: State, idx: nat)
    requires idx < |s.players|
    ensures var marked := s.(players := s.players[idx := s.players[idx].(resigned := true)], pending := None);
            Total(marked) + PendingTiles(s) == Total(s) && ScoreSum(marked.players) == ScoreSum(s.players)
  {
    HandsSame(s.players, s.players[idx := s.players[idx].(resigned := true)]);
    ScoreUpdate(s.players, idx, s.players[idx].(resigned := true));
  }

  lemma ResignBooks(s: State, id: string)
    requires Resign(s, id).Ok?
    ensures Accounts(s, Resign(s, id).value, PendingTiles(s), 0)
    ensures QuietStep(s, Resign(s, id).value) && Resign(s, id).value.finished
  {
    var idx := SeatOf(s.players, id, 0).value;
    var marked := s.(players := s.players[idx := s.players[idx].(resigned := true)], pending := None);
    MarkedTiles(s, idx);
    EndAccounts(s, marked, PendingTiles(s));
    WinnersDoNotCount(s, EndGame(marked, None), Resign(s, id).value.winners, PendingTiles(s));
  }

  lemma WinnersDoNotCount(s: State, next: State, winners: seq<Player>, lost: multiset<Tile>)
    requires Accounts(s, next, lost, 0)
    ensures Accounts(s, next.(winners := winners), lost, 0)
  {
  }

  // A pass that is followed by a resignation within the same step.
  lemma PassThenEnd(s: State, passed: State, next: State)
    requires Accounts(s, passed, multiset{}, 0) && ScorelessStep(s, passed) && !passed.finished
    requires Accounts(passed, next, multiset{}, 0) && QuietStep(passed, next) && next.finished
    ensures Accounts(s, next, multiset{}, 0)
  {
    assert !s.finished;
  }

  lemma PassShape(s: State, id: string, timeout: bool)
    requires NoPenalties(s.players) && PassTurn(s, id, timeout).Ok? && !PassTurn(s, id, timeout).value.finished
    ensures Scoreless(s, PassTurn(s, id, timeout).value)
  {
    PassLeads(s, id, timeout);
    NotedMoved(s, timeout);
    var recorded := Record(Noted(s, timeout), s.cur, PassMove, 0);
    RecordedScoreless(s, Noted(s, timeout), s.cur, PassMove);
    assert s.scoreless + 1 < SCORELESS_TURNS_LIMIT;
    assert RegisterScoreless(recorded) == recorded.(scoreless := s.scoreless + 1);
    NextTurnBooks(s, recorded.(scoreless := s.scoreless + 1));
  }

  lemma ExpireLeads(s: State)
    requires ExpireTurn(s).Ok?
    ensures s.cur < |s.players| && PassTurn(s, s.players[s.cur].id, true).Ok?
    ensures var id := s.players[s.cur].id;
            var passed := PassTurn(s, id, true).value;
            ExpireTurn(s).value == passed
            || (!passed.finished && Resign(passed, id).Ok? && ExpireTurn(s).value == Resign(passed, id).value)
  {
  }

  lemma ExpireBooks(s: State)
    requires NoPenalties(s.players) && ExpireTurn(s).Ok?
    ensures Accounts(s, ExpireTurn(s).value, multiset{}, 0)
  {
    ExpireLeads(s);
    var id := s.players[s.cur].id;
    var passed := PassTurn(s, id, true).value;
    PassTurnBooks(s, id, true);
    if ExpireTurn(s).value != passed {
      PassShape(s, id, true);
      ResignBooks(passed, id);
      PassThenEnd(s, passed, Resign(passed, id).value);
    }
  }

  lemma ForceEndBooks(s: State)
    requires PendingSeated(s) && ForceEnd(s).Ok?
    ensures Accounts(s, ForceEnd(s).value, multiset{}, 0)
  {
    if s.pending.Some? {
      ReturnTilesMoved(s);
      EndAccounts(s, ReturnTiles(s), multiset{});
    } else {
      EndAccounts(s, s, multiset{});
    }
  }

  // ----- Lobby and connections -----

  lemma {:induction false} DealtTiles(players: seq<Player>, bag: seq<Tile>, n: nat)
    requires n <= |players| && forall i :: 0 <= i < n ==> players[i].hand == []
    ensures multiset(DealtHands(players, bag, n).1) + HandsOf(DealtHands(players, bag, n).0)
            == multiset(bag) + HandsOf(players)
    decreases n
  {
    if n > 0 {
      DealtTiles(players, bag, n - 1);
      DealtHandsFacts(players, bag, n - 1);
      var (dealt, left) := DealtHands(players, bag, n - 1);
      DealStep(dealt, left, n - 1);
    }
  }

  lemma DealStep(dealt: seq<Player>, left: seq<Tile>, i: nat)
    requires i < |dealt| && dealt[i].hand == []
    ensures multiset(LeftAfter(left, HAND_SIZE)) + HandsOf(dealt[i := dealt[i].(hand := Drawn(left, HAND_SIZE))])
            == multiset(left) + HandsOf(dealt)
  {
    DrawSplits(left, HAND_SIZE);
    HandsUpdate(dealt, i, dealt[i].(hand := Drawn(left, HAND_SIZE)));
    SeatBalance(multiset(left), multiset(LeftAfter(left, HAND_SIZE)), HandsOf(dealt),
                HandsOf(dealt[i := dealt[i].(hand := Drawn(left, HAND_SIZE))]),
                multiset(dealt[i].hand), multiset(Drawn(left, HAND_SIZE)), multiset{}, multiset{});
    assert multiset(left) + HandsOf(dealt) + multiset{} == multiset(left) + HandsOf(dealt);
  }

  lemma StartMoved(s: State)
    requires HandsAtMost(s) && s.pending.None? && Start(s).Ok?
    ensures Moved(s, Start(s).value)
  {
    DealtTiles(s.players, s.bag, |s.players|);
    DealtHandsFacts(s.players, s.bag, |s.players|);
    ScoreToSame(s.players, DealtHands(s.players, s.bag, |s.players|).0, |s.players|);
  }

  lemma HandsSnoc(players: seq<Player>, p: Player)
    ensures HandsOf(players + [p]) == HandsOf(players) + multiset(p.hand)
    ensures ScoreSum(players + [p]) == ScoreSum(players) + p.score
  {
    HandsToSame(players, players + [p], |players|);
    ScoreToSame(players, players + [p], |players|);
  }

  lemma JoinMoved(s: State, id: string, name: string, isBot: bool)
    requires AddPlayer(s, id, name, isBot).Ok?
    ensures Moved(s, AddPlayer(s, id, name, isBot).value)
  {
    var p := Player(id, name, [], 0, false, false, 0, false, isBot);
    HandsSnoc(s.players, p);
    assert multiset(p.hand) == multiset{};
  }

  lemma ConnectionMoved(s: State, a: Action)
    requires (a.Disconnect? && MarkDisconnected(s, a.id).Ok?)
             || (a.Reconnect? && ReplacePlayerSid(s, a.oldId, a.newId).Ok?)
    ensures Moved(s, if a.Disconnect? then MarkDisconnected(s, a.id).value
                  else ReplacePlayerSid(s, a.oldId, a.newId).value)
  {
    var idx := SeatOf(s.players, if a.Disconnect? then a.id else a.oldId, 0).value;
    var next := if a.Disconnect? then MarkDisconnected(s, a.id).value else ReplacePlayerSid(s, a.oldId, a.newId).value;
    SeatMoved(s, next, idx, next.players[idx]);
  }

  // ----- Any step -----

  // The pending tiles of a seat.
  ghost function PendingOf(s: State, idx: nat): multiset<Tile> {
    if s.pending.Some? && s.pending.value.playerIdx == idx then PendingTiles(s) else multiset{}
  }

  // The tiles that leave the game with a step: the hand of a leaving player, and a placement that was
  // pending when its player left or anyone gave up.
  ghost function Lost(rules: Rules, s: State, a: Action): multiset<Tile>
    requires PendingSeated(s)
  {
    if Attempt(rules, s, a).Err? then multiset{}
    else if a.Leave? then
      var idx := SeatOf(s.players, a.id, 0).value;
      multiset(s.players[idx].hand) + PendingOf(s, idx)
    else if a.GiveUp? then PendingTiles(s)
    else multiset{}
  }

  // The score that leaves with a player.
  ghost function Departed(rules: Rules, s: State, a: Action): int
    requires PendingSeated(s)
  {
    if a.Leave? && Attempt(rules, s, a).Ok? then s.players[SeatOf(s.players, a.id, 0).value].score else 0
  }

  lemma LeavePending(s: State, idx: nat)
    requires SeatsOk(s) && idx < |s.players|
    ensures PendingTiles(RemoveSeat(s, idx)) + PendingOf(s, idx) == PendingTiles(s)
  {
    RemovalSeats(s, idx);
  }

  lemma LeaveTiles(s: State, idx: nat)
    requires SeatsOk(s) && idx < |s.players|
    ensures Total(RemoveSeat(s, idx)) + (multiset(s.players[idx].hand) + PendingOf(s, idx)) == Total(s)
  {
    var next := RemoveSeat(s, idx);
    LeavePending(s, idx);
    HandsToRemove(s.players, idx, |s.players|);
    assert next.players == s.players[..idx] + s.players[idx + 1..];
    assert HandsOf(next.players) + multiset(s.players[idx].hand) == HandsOf(s.players);
    LeaveBalance(multiset(s.bag), HandsOf(next.players), multiset(s.players[idx].hand), HandsOf(s.players),
                 PendingTiles(next), PendingOf(s, idx), PendingTiles(s), BoardTiles(s.grid));
  }

  lemma LeaveBalance(bag: multiset<Tile>, handsAfter: multiset<Tile>, hand: multiset<Tile>, hands: multiset<Tile>,
                     pendingAfter: multiset<Tile>, dropped: multiset<Tile>, pending: multiset<Tile>,
                     board: multiset<Tile>)
    requires handsAfter + hand == hands && pendingAfter + dropped == pending
    ensures bag + handsAfter + pendingAfter + board + (hand + dropped) == bag + hands + pending + board
  {
  }

  lemma LeaveScores(s: State, idx: nat)
    requires SeatsOk(s) && idx < |s.players|
    ensures ScoreSum(RemoveSeat(s, idx).players) + s.players[idx].score == ScoreSum(s.players)
  {
    ScoreToRemove(s.players, idx, |s.players|);
    assert RemoveSeat(s, idx).players == s.players[..idx] + s.players[idx + 1..];
  }

  lemma LeaveShape(s: State, idx: nat)
    requires idx < |s.players|
    ensures QuietStep(s, RemoveSeat(s, idx)) && RemoveSeat(s, idx).finished == s.finished
  {
  }

  lemma LeaveBooks(s: State, idx: nat)
    requires SeatsOk(s) && idx < |s.players|
    ensures Accounts(s, RemoveSeat(s, idx), multiset(s.players[idx].hand) + PendingOf(s, idx), s.players[idx].score)
  {
    LeaveShape(s, idx);
    LeaveTiles(s, idx);
    LeaveScores(s, idx);
  }

  lemma SkipMoved(s: State)
    requires NoPenalties(s.players)
    ensures Moved(s, NextTurn(s))
  {
    AdvanceWithoutPenalties(s.players, s.cur, s.asyncMode, |s.players|);
  }

  // Joining, dealing, and withdrawing a placement.
  lemma TableSteps(rules: Rules, s: State, a: Action)
    requires Inv(rules, s) && Attempt(rules, s, a).Ok?
    requires a.Join? || a.Begin? || a.Withdraw?
    ensures Moved(s, Attempt(rules, s, a).value)
  {
    match a {
      case Join(id, name, isBot) => JoinMoved(s, id, name, isBot);
      case Begin => InvHands(rules, s); StartMoved(s);
      case Withdraw(_) => ReturnTilesMoved(s);
    }
  }

  lemma ConnectionSteps(rules: Rules, s: State, a: Action)
    requires Inv(rules, s) && Attempt(rules, s, a).Ok?
    requires a.Disconnect? || a.Reconnect? || a.SkipDisconnected?
    ensures Moved(s, Attempt(rules, s, a).value)
  {
    match a {
      case Disconnect(_) => ConnectionMoved(s, a);
      case Reconnect(_, _) => ConnectionMoved(s, a);
      case SkipDisconnected => SkipMoved(s);
    }
  }

  // Placements and votes.
  lemma PlacementSteps(rules: Rules, s: State, a: Action)
    requires Inv(rules, s) && Attempt(rules, s, a).Ok?
    requires a.Place? || a.CastVoteBy? || a.VoteTimeout? || a.ForceVerdict?
    ensures Accounts(s, Attempt(rules, s, a).value, multiset{}, 0)
  {
    match a {
      case Place(id, tiles) => PlaceTilesBooks(rules, s, id, tiles);
      case CastVoteBy(id, vote) => CastVoteBooks(rules, s, id, vote);
      case VoteTimeout => ResolveBooks(rules, s);
      case ForceVerdict(accept) =>
        FinalizeAcceptBooks(rules, s);
        FinalizeRejectBooks(rules, s);
    }
  }

  // Turns without a placement.
  lemma TurnSteps(rules: Rules, s: State, a: Action)
    requires Inv(rules, s) && Attempt(rules, s, a).Ok?
    requires a.Exchange? || a.Pass? || a.Expire? || a.ForceFinish?
    ensures Accounts(s, Attempt(rules, s, a).value, multiset{}, 0)
  {
    match a {
      case Exchange(id, indices, shuffled) => ExchangeBooks(s, id, indices, shuffled);
      case Pass(id, byAdmin) => PassTurnBooks(s, id, byAdmin && s.asyncMode);
      case Expire => ExpireBooks(s);
      case ForceFinish => ForceEndBooks(s);
    }
  }

  /** Every step keeps the books: tiles, scores, log and the end of the game. */
  lemma StepBooks(rules: Rules, s: State, a: Action)
    requires Inv(rules, s)
    ensures Accounts(s, Apply(rules, s, a), Lost(rules, s, a), Departed(rules, s, a))
  {
    if Attempt(rules, s, a).Err? {
      MovedAccounts(s, s);
    } else if a.Leave? {
      LeaveBooks(s, SeatOf(s.players, a.id, 0).value);
    } else if a.GiveUp? {
      ResignBooks(s, a.id);
    } else if a.Join? || a.Begin? || a.Withdraw? {
      TableSteps(rules, s, a);
      MovedAccounts(s, Attempt(rules, s, a).value);
    } else if a.Disconnect? || a.Reconnect? || a.SkipDisconnected? {
      ConnectionSteps(rules, s, a);
      MovedAccounts(s, Attempt(rules, s, a).value);
    } else if a.Place? || a.CastVoteBy? || a.VoteTimeout? || a.ForceVerdict? {
      PlacementSteps(rules, s, a);
    } else {
      TurnSteps(rules, s, a);
    }
  }
}
