/**
 The two-phase commit of a challenged placement: accepting it equals placing directly, withdrawing it is
 as if it had never been made, rejecting it costs one scoreless turn.
 */
module ChallengeLaws {
  import opened Results
  import opened Tiles
  import opened Bags
  import opened Grids
  import opened BoardLaws
  import opened GameStates
  import opened GameLaws

  // ----- Accepting -----

  // The log without the mark that a vote let a move pass.
  function PlainLog(log: seq<Entry>): (r: seq<Entry>)
    ensures |r| == |log|
  {
    seq(|log|, i requires 0 <= i < |log| => if log[i].kind == AcceptMove then log[i].(kind := PlaceMove) else log[i])
  }

  // The players differ at most in how many deadlines the one in seat i has missed.
  ghost predicate SameButTimeouts(x: seq<Player>, y: seq<Player>, i: nat) {
    |x| == |y| && forall k :: 0 <= k < |x| ==> if k == i then x[k].(timeouts := y[k].timeouts) == y[k] else x[k] == y[k]
  }

  // The same list of players, with p in the one where the other has q.
  ghost predicate SameRecords(x: seq<Player>, y: seq<Player>, p: Player, q: Player) {
    |x| == |y| && forall k :: 0 <= k < |x| ==> x[k] == y[k] || (x[k] == p && y[k] == q)
  }

  // The same state up to that count, in the players' list and among the winners, and up to the mark in the log.
  ghost predicate SameBut(x: State, y: State, i: nat) {
    && i < |x.players| && SameButTimeouts(x.players, y.players, i)
    && SameRecords(x.winners, y.winners, x.players[i], y.players[i])
    && PlainLog(x.log) == PlainLog(y.log)
    && x.(players := y.players, winners := y.winners, log := y.log) == y
  }

  lemma ConnectedAlike(x: seq<Player>, y: seq<Player>, i: nat)
    requires SameButTimeouts(x, y, i)
    ensures SomeoneConnected(x) <==> SomeoneConnected(y)
  {
    if k :| 0 <= k < |x| && !x[k].disconnected {
      assert !y[k].disconnected;
    }
    if k :| 0 <= k < |y| && !y[k].disconnected {
      assert !x[k].disconnected;
    }
  }

  lemma {:induction false} AdvanceAlike(x: seq<Player>, y: seq<Player>, i: nat, cur: nat, asyncMode: bool, steps: nat)
    requires SameButTimeouts(x, y, i) && i < |x|
    ensures var u, v := Advance(x, cur, asyncMode, steps), Advance(y, cur, asyncMode, steps);
            && u.1 == v.1 && SameButTimeouts(u.0, v.0, i)
            && u.0[i].timeouts == x[i].timeouts && v.0[i].timeouts == y[i].timeouts
    decreases steps
  {
    if steps > 0 {
      var k := (cur + 1) % |x|;
      ConnectedAlike(x, y, i);
      AdvanceAlike(x, y, i, k, asyncMode, steps - 1);
      var u, v := x[k := x[k].(skipNextTurn := false)], y[k := y[k].(skipNextTurn := false)];
      assert x[k] == if k == i then y[k].(timeouts := x[k].timeouts) else y[k];
      AdvanceAlike(u, v, i, k, asyncMode, steps - 1);
    }
  }

  lemma {:induction false} TotalsAlike(x: seq<Player>, y: seq<Player>, i: nat, n: nat)
    requires SameButTimeouts(x, y, i) && n <= |x|
    ensures HandTotalTo(x, n) == HandTotalTo(y, n) && TopScoreTo(x, n) == TopScoreTo(y, n)
  {
    if n > 0 {
      TotalsAlike(x, y, i, n - 1);
      assert x[n - 1].hand == y[n - 1].hand && x[n - 1].score == y[n - 1].score;
      assert x[0].score == y[0].score;
    }
  }

  lemma {:induction false} WinnersAlike(x: seq<Player>, y: seq<Player>, i: nat, score: int, n: nat)
    requires SameButTimeouts(x, y, i) && i < |x| && n <= |x|
    ensures SameRecords(WithScoreTo(x, score, n), WithScoreTo(y, score, n), x[i], y[i])
  {
    if n > 0 {
      WinnersAlike(x, y, i, score, n - 1);
      assert x[n - 1].score == y[n - 1].score;
    }
  }

  lemma SettledAlike(x: seq<Player>, y: seq<Player>, i: nat)
    requires SameButTimeouts(x, y, i) && i < |x|
    ensures var u, v := Settled(x, Some(i)), Settled(y, Some(i));
            && SameButTimeouts(u, v, i) && u[i].timeouts == x[i].timeouts && v[i].timeouts == y[i].timeouts
  {
    TotalsAlike(x, y, i, |x|);
    forall k | 0 <= k < |x| ensures x[k].hand == y[k].hand && x[k].score == y[k].score {
      assert if k == i then x[k].(timeouts := y[k].timeouts) == y[k] else x[k] == y[k];
    }
  }

  // Ending the game keeps two such states alike.
  lemma EndGameAlike(x: State, y: State, i: nat)
    requires SameBut(x, y, i)
    ensures var u, v := EndGame(x, Some(i)), EndGame(y, Some(i));
            && SameBut(u, v, i) && u.players[i].timeouts == x.players[i].timeouts
            && v.players[i].timeouts == y.players[i].timeouts
  {
    SettledAlike(x.players, y.players, i);
    var u, v := Settled(x.players, Some(i)), Settled(y.players, Some(i));
    TotalsAlike(u, v, i, |u|);
    hide Settled, SameButTimeouts, SameRecords, TopScoreTo, WithScoreTo;
    WinnersAlike(u, v, i, TopScore(u), |u|);
  }

  // So does passing the turn on.
  lemma NextTurnAlike(x: State, y: State, i: nat)
    requires SameBut(x, y, i) && x.winners == y.winners
    ensures var u, v := NextTurn(x), NextTurn(y);
            && SameBut(u, v, i) && u.players[i].timeouts == x.players[i].timeouts
            && v.players[i].timeouts == y.players[i].timeouts
  {
    assert x.(players := y.players, winners := y.winners, log := y.log).cur == y.cur;
    assert x.(players := y.players, winners := y.winners, log := y.log).asyncMode == y.asyncMode;
    assert |x.players| == |y.players|;
    AdvanceAlike(x.players, y.players, i, x.cur, x.asyncMode, |x.players|);
    hide Advance, SameButTimeouts;
    assert NextTurn(x).winners == NextTurn(y).winners;
  }

  lemma AfterCommitAlike(x: State, y: State, i: nat)
    requires SameBut(x, y, i) && x.winners == y.winners
    ensures var u, v := AfterCommit(x, i), AfterCommit(y, i);
            && SameBut(u, v, i) && u.players[i].timeouts == x.players[i].timeouts
            && v.players[i].timeouts == y.players[i].timeouts
  {
    assert x.players[i].hand == y.players[i].hand;
    assert x.(players := y.players, winners := y.winners, log := y.log).bag == y.bag;
    EndGameAlike(x, y, i);
    NextTurnAlike(x, y, i);
    hide EndGame, NextTurn, SameBut;
  }

  lemma PlainLogSnoc(log: seq<Entry>, e: Entry)
    ensures PlainLog(log + [e]) == PlainLog(log) + [if e.kind == AcceptMove then e.(kind := PlaceMove) else e]
  {
  }

  // The two ways of booking a placement: after a vote, and directly.
  ghost function AfterVote(s: State, tiles: seq<Placed>, formed: seq<FormedWord>): State
    requires s.cur < |s.players|
  {
    var p := s.players[s.cur];
    Commit(Suspend(s, tiles, formed), s.cur, RemoveTiles(p.hand, tiles), p.timeouts, tiles,
           PlacementTotal(formed, |tiles|), AcceptMove)
  }

  ghost function AfterPlacing(s: State, tiles: seq<Placed>, formed: seq<FormedWord>): State
    requires s.cur < |s.players|
  {
    var p := s.players[s.cur];
    Commit(s, s.cur, RemoveTiles(p.hand, tiles), 0, tiles, PlacementTotal(formed, |tiles|), PlaceMove)
  }

  lemma LogsAgree(s: State, tiles: seq<Placed>, formed: seq<FormedWord>)
    requires s.cur < |s.players|
    ensures PlainLog(AfterVote(s, tiles, formed).log) == PlainLog(AfterPlacing(s, tiles, formed).log)
  {
    var entry := Entry(|s.log| + 1, s.players[s.cur].name, PlaceMove, PlacementTotal(formed, |tiles|),
                       With(s.grid, tiles));
    PlainLogSnoc(s.log, entry);
    PlainLogSnoc(s.log, entry.(kind := AcceptMove));
  }

  // Before the turn passes on, both ways have booked the same, but only placing directly clears the count.
  lemma CommitsAgree(s: State, tiles: seq<Placed>, formed: seq<FormedWord>)
    requires s.cur < |s.players|
    ensures SameBut(AfterVote(s, tiles, formed), AfterPlacing(s, tiles, formed), s.cur)
    ensures AfterVote(s, tiles, formed).winners == AfterPlacing(s, tiles, formed).winners
    ensures AfterVote(s, tiles, formed).players[s.cur].timeouts == s.players[s.cur].timeouts
    ensures AfterPlacing(s, tiles, formed).players[s.cur].timeouts == 0
  {
    LogsAgree(s, tiles, formed);
  }

  /**
   A challenged placement that is then accepted leads to the same board, scores, hands, bag, next player,
   scoreless count and end of the game as placing directly, exactly when the game is not a daily puzzle. Only
   the placer's count of missed deadlines differs, which an accepted vote does not clear, and the mark in the log.
   */
  lemma AcceptEqualsDirect(s: State, tiles: seq<Placed>, formed: seq<FormedWord>)
    requires s.cur < |s.players| && s.pending.None? && s.puzzle in {None, Some(Puzzle(None))}
    ensures var accepted := FinalizeAccept(Suspend(s, tiles, formed));
            var direct := FinalizePlacement(s, tiles, PlacementTotal(formed, |tiles|));
            && (SameBut(accepted, direct, s.cur) <==> s.puzzle.None?)
            && s.cur < |accepted.players| && accepted.players[s.cur].timeouts == s.players[s.cur].timeouts
            && s.cur < |direct.players| && direct.players[s.cur].timeouts == 0
  {
    CommitsAgree(s, tiles, formed);
    AfterCommitAlike(AfterVote(s, tiles, formed), AfterPlacing(s, tiles, formed), s.cur);
    VoteKeepsPuzzle(s, tiles, formed);
  }

  lemma VoteKeepsPuzzle(s: State, tiles: seq<Placed>, formed: seq<FormedWord>)
    requires s.cur < |s.players|
    ensures FinalizeAccept(Suspend(s, tiles, formed)) == AfterCommit(AfterVote(s, tiles, formed), s.cur)
    ensures FinalizeAccept(Suspend(s, tiles, formed)).puzzle == s.puzzle
  {
  }

  ghost function Unmarked(s: State): State {
    s.(log := PlainLog(s.log))
  }

  /** Up to the mark in the log the two ways are equal outright iff the placer has missed no deadline, either. */
  lemma AcceptEqualsOutright(s: State, tiles: seq<Placed>, formed: seq<FormedWord>)
    requires s.cur < |s.players| && s.pending.None? && s.puzzle in {None, Some(Puzzle(None))}
    ensures Unmarked(FinalizeAccept(Suspend(s, tiles, formed)))
            == Unmarked(FinalizePlacement(s, tiles, PlacementTotal(formed, |tiles|)))
            <==> s.puzzle.None? && s.players[s.cur].timeouts == 0
  {
    var accepted := FinalizeAccept(Suspend(s, tiles, formed));
    var direct := FinalizePlacement(s, tiles, PlacementTotal(formed, |tiles|));
    AcceptEqualsDirect(s, tiles, formed);
    VoteKeepsPuzzle(s, tiles, formed);
    hide FinalizeAccept, Suspend;
    if s.puzzle.None? && s.players[s.cur].timeouts == 0 {
      assert accepted.players == direct.players;
      assert accepted.winners == direct.winners;
    } else if Unmarked(accepted) == Unmarked(direct) {
      assert Unmarked(accepted).players == accepted.players && Unmarked(direct).players == direct.players;
      assert Unmarked(accepted).puzzle == accepted.puzzle && Unmarked(direct).puzzle == direct.puzzle;
    }
  }

  // A daily puzzle with voting and a second human at the table, on the empty board.
  ghost function PuzzleTable(): State {
    var solver := Player("p", "p", [Tile(19), Tile(19), Tile(1)], 0, false, false, 0, false, false);
    var guest := Player("q", "q", [], 0, false, false, 0, false, false);
    State([solver, guest], map[], true, [], 0, true, false, [], Some(Puzzle(None)), false, 0, 0, true, None, [], {})
  }

  // SZ twice, through the centre.
  function PuzzleTiles(): seq<Placed> {
    [Placed(7, 7, Tile(19), false), Placed(7, 8, Tile(19), false)]
  }

  lemma PuzzleHand()
    ensures HasTiles(PuzzleTable().players[0].hand, PuzzleTiles())
    ensures RemoveTiles(PuzzleTable().players[0].hand, PuzzleTiles()) == [Tile(1)]
  {
    var hand, tiles := PuzzleTable().players[0].hand, PuzzleTiles();
    assert tiles[1..] == [tiles[1]] && tiles[1..][1..] == [];
    assert RemoveFirst(hand, Tile(19)) == [Tile(19), Tile(1)];
    assert RemoveFirst([Tile(19), Tile(1)], Tile(19)) == [Tile(1)];
    assert RemoveTiles(hand, tiles) == RemoveTiles([Tile(19), Tile(1)], tiles[1..]);
    assert HasTiles([Tile(19), Tile(1)], tiles[1..]);
  }

  lemma PuzzleBoard()
    ensures With(map[], PuzzleTiles()) == map[Pos(7, 7) := Cell(Tile(19), false), Pos(7, 8) := Cell(Tile(19), false)]
  {
    var tiles := PuzzleTiles();
    assert tiles[..1] == [tiles[0]] && tiles[..1][..0] == [];
  }

  lemma PuzzleCells()
    ensures |PuzzleTiles()| == 2 && SameRow(PuzzleTiles()) && GoodPositions(map[], PuzzleTiles())
    ensures PuzzleTiles()[0].At() == Pos(7, 7) && PuzzleTiles()[1].At() == Pos(7, 8)
    ensures Pos(7, 7) in With(map[], PuzzleTiles()) && Pos(7, 8) in With(map[], PuzzleTiles())
  {
    PuzzleBoard();
    hide With;
  }

  lemma PuzzleLaid()
    ensures WellLaid(map[], PuzzleTiles()) && Anchored(map[], true, PuzzleTiles())
  {
    PuzzleCells();
    hide With, PuzzleTiles, GoodPositions, SameRow;
    var tiles, after := PuzzleTiles(), With(map[], PuzzleTiles());
    forall i, j, q | 0 <= i < 2 && 0 <= j < 2 && Between(tiles[i].At(), q, tiles[j].At()) ensures q in after {
      assert q == Pos(7, 7) || q == Pos(7, 8);
    }
    assert tiles[0].At() == CENTER;
  }

  // A letter of two characters splits no digraph.
  lemma PuzzleUnsplit()
    ensures NoNewSplit(HUNGARIAN, With(map[], PuzzleTiles()), NewCells(PuzzleTiles()))
  {
    PuzzleBoard();
    assert |Print(HUNGARIAN, Tile(19))| == 2;
    hide With, Print, PuzzleTiles, NewCells;
  }

  // The placement is legal by the rules, so its check succeeds.
  lemma PuzzleLegal(isWord: string -> bool)
    ensures Legal(Rules(HUNGARIAN, isWord), map[], true, PuzzleTiles(), true)
  {
    hide WellLaid, Anchored, NoNewSplit;
    PuzzleLaid();
    PuzzleUnsplit();
  }

  /**
   In a daily puzzle with voting the two ways differ: placing directly ends the puzzle, an accepted vote plays
   on. The table is a proper state of a game, and the placement one that it accepts.
   */
  lemma PuzzleIsTheException(isWord: string -> bool) returns (formed: seq<FormedWord>)
    ensures Inv(Rules(HUNGARIAN, isWord), PuzzleTable())
    ensures PlaceTiles(Rules(HUNGARIAN, isWord), PuzzleTable(), "p", PuzzleTiles())
            == Ok(Suspend(PuzzleTable(), PuzzleTiles(), formed))
    ensures FinalizePlacement(PuzzleTable(), PuzzleTiles(), PlacementTotal(formed, 2)).finished
    ensures !FinalizeAccept(Suspend(PuzzleTable(), PuzzleTiles(), formed)).finished
  {
    var rules, s := Rules(HUNGARIAN, isWord), PuzzleTable();
    PuzzleLegal(isWord);
    PuzzleHand();
    PuzzleInv(rules);
    hide RemoveTiles, HasTiles, PuzzleTiles, Inv, Validate, Legal;
    formed := PlaceSuspends(rules, s, PuzzleTiles());
    AcceptedPlaysOn(s, PuzzleTiles(), formed);
    hide Suspend, FinalizeAccept;
  }

  // The same table in a correspondence game with voting, whose player to move has missed a deadline.
  ghost function LateTable(): State {
    var s := PuzzleTable();
    s.(puzzle := None, asyncMode := true, players := s.players[0 := s.players[0].(timeouts := 1)])
  }

  /**
   In a correspondence game with voting the count of missed deadlines tells the two ways apart. The table is a
   proper state of a game, and the placement one that it accepts.
   */
  lemma MissedDeadlineIsTheException(isWord: string -> bool) returns (formed: seq<FormedWord>)
    ensures Inv(Rules(HUNGARIAN, isWord), LateTable())
    ensures PlaceTiles(Rules(HUNGARIAN, isWord), LateTable(), "p", PuzzleTiles())
            == Ok(Suspend(LateTable(), PuzzleTiles(), formed))
    ensures Unmarked(FinalizeAccept(Suspend(LateTable(), PuzzleTiles(), formed)))
            != Unmarked(FinalizePlacement(LateTable(), PuzzleTiles(), PlacementTotal(formed, 2)))
  {
    var rules, s := Rules(HUNGARIAN, isWord), LateTable();
    PuzzleLegal(isWord);
    PuzzleHand();
    LateInv(rules);
    assert |PuzzleTiles()| == 2;
    hide RemoveTiles, HasTiles, PuzzleTiles, Inv, Validate, Legal;
    formed := PlaceSuspends(rules, s, PuzzleTiles());
    AcceptEqualsOutright(s, PuzzleTiles(), formed);
    hide Suspend, FinalizeAccept, FinalizePlacement, Unmarked;
  }

  lemma LateInv(rules: Rules)
    ensures Inv(rules, LateTable())
  {
  }

  // With a second human at the table a legal placement waits for the vote.
  lemma PlaceSuspends(rules: Rules, s: State, tiles: seq<Placed>) returns (formed: seq<FormedWord>)
    requires s.cur == 0 && |s.players| == 2 && !s.finished && s.pending.None? && s.challengeMode && !s.players[1].isBot
    requires HasTiles(s.players[0].hand, tiles) && GridOk(s.grid) && Legal(rules, s.grid, s.boardEmpty, tiles, true)
    ensures PlaceTiles(rules, s, s.players[0].id, tiles) == Ok(Suspend(s, tiles, formed))
  {
    ValidateIffLegal(rules, s.grid, s.boardEmpty, tiles, true);
    hide Validate, Legal, HasTiles, Suspend;
    formed := Validate(rules, s.grid, s.boardEmpty, tiles, true).value;
    assert ChallengeApplies(s.challengeMode, s.players, 0) by {
      assert !s.players[1].isBot;
    }
  }

  lemma AcceptedPlaysOn(s: State, tiles: seq<Placed>, formed: seq<FormedWord>)
    requires s.cur < |s.players| && !s.finished && RemoveTiles(s.players[s.cur].hand, tiles) != []
    ensures !FinalizeAccept(Suspend(s, tiles, formed)).finished
  {
  }

  lemma PuzzleInv(rules: Rules)
    ensures Inv(rules, PuzzleTable())
  {
  }

  // ----- Withdrawing and rejecting -----

  // The state with the placer's hand in another order.
  ghost predicate SameButHandOrder(s: State, t: State) {
    && s.cur < |s.players| && |t.players| == |s.players|
    && multiset(t.players[s.cur].hand) == multiset(s.players[s.cur].hand)
    && t == s.(players := s.players[s.cur := s.players[s.cur].(hand := t.players[s.cur].hand)])
  }

  /** Taking a pending placement back restores everything; only the order within the placer's hand may differ. */
  lemma WithdrawUndoes(s: State, tiles: seq<Placed>, formed: seq<FormedWord>)
    requires s.cur < |s.players| && s.pending.None? && HasTiles(s.players[s.cur].hand, tiles)
    ensures WithdrawPending(Suspend(s, tiles, formed), s.players[s.cur].id)
            == Ok(ReturnTiles(Suspend(s, tiles, formed)))
    ensures SameButHandOrder(s, ReturnTiles(Suspend(s, tiles, formed)))
  {
    HasTilesIffIncluded(s.players[s.cur].hand, tiles);
    var p := s.players[s.cur];
    var hand := RemoveTiles(p.hand, tiles) + HandTilesOf(tiles);
    assert multiset(hand) == multiset(RemoveTiles(p.hand, tiles)) + multiset(HandTilesOf(tiles));
    assert ReturnTiles(Suspend(s, tiles, formed)).players == s.players[s.cur := p.(hand := hand)];
  }

  // The state with a rejected placement taken back, logged and counted.
  ghost function RejectedState(s: State): State
    requires s.pending.Some? && PendingSeated(s)
  {
    var pc := s.pending.value;
    var entry := Entry(|s.log| + 1, s.players[pc.playerIdx].name, RejectMove, 0, s.grid);
    ReturnTiles(s).(rejected := s.rejected + {multiset(pc.tiles)}, log := s.log + [entry], scoreless := s.scoreless + 1)
  }

  lemma RejectLeads(s: State)
    requires s.pending.Some? && PendingSeated(s)
    ensures FinalizeReject(s)
            == if s.scoreless + 1 >= SCORELESS_TURNS_LIMIT then EndGame(RejectedState(s), None)
               else if s.players[s.pending.value.playerIdx].disconnected then NextTurn(RejectedState(s))
               else RejectedState(s)
  {
    hide EndGame, NextTurn, ReturnTiles;
    var pc := s.pending.value;
    var back := ReturnTiles(s);
    BackFields(s);
    var recorded := Record(back.(rejected := s.rejected + {multiset(pc.tiles)}), pc.playerIdx, RejectMove, 0);
    assert recorded.(scoreless := s.scoreless + 1) == RejectedState(s);
  }

  lemma BackFields(s: State)
    requires s.pending.Some? && PendingSeated(s)
    ensures var back := ReturnTiles(s);
            && |back.players| == |s.players| && back.log == s.log && back.grid == s.grid && back.bag == s.bag
            && back.scoreless == s.scoreless && back.finished == s.finished && back.rejected == s.rejected
            && forall i :: 0 <= i < |s.players| ==>
                 back.players[i].name == s.players[i].name && back.players[i].disconnected == s.players[i].disconnected
  {
  }

  lemma SuspendedReject(s: State, tiles: seq<Placed>, formed: seq<FormedWord>)
    requires s.cur < |s.players|
    ensures var pending := Suspend(s, tiles, formed);
            var back := ReturnTiles(pending);
            var entry := Entry(|s.log| + 1, s.players[s.cur].name, RejectMove, 0, s.grid);
            && RejectedState(pending)
               == back.(rejected := s.rejected + {multiset(tiles)}, log := s.log + [entry],
                        scoreless := s.scoreless + 1)
            && pending.pending.Some? && pending.pending.value.playerIdx == s.cur && pending.scoreless == s.scoreless
            && |pending.players| == |s.players|
            && pending.players[s.cur].disconnected == s.players[s.cur].disconnected
            && back.grid == s.grid && back.bag == s.bag && back.finished == s.finished
  {
    BackFields(Suspend(s, tiles, formed));
    hide ReturnTiles, RemoveTiles;
  }

  // The next state after a rejection: the tiles are back in the hand, one turn without points is counted and logged,
  // and the placer moves again, unless that turn ends the game or the placer is away.
  ghost predicate CostsOneTurn(s: State, tiles: seq<Placed>, formed: seq<FormedWord>, next: State)
    requires s.cur < |s.players|
  {
    var back := ReturnTiles(Suspend(s, tiles, formed));
    var entry := Entry(|s.log| + 1, s.players[s.cur].name, RejectMove, 0, s.grid);
    var counted := back.(rejected := s.rejected + {multiset(tiles)}, log := s.log + [entry],
                         scoreless := s.scoreless + 1);
    && SameButHandOrder(s, back)
    && next.scoreless == s.scoreless + 1 && next.grid == s.grid && next.bag == s.bag
    && next.log == s.log + [entry]
    && (next.finished <==> s.scoreless + 1 >= SCORELESS_TURNS_LIMIT)
    && (!next.finished && !s.players[s.cur].disconnected ==> next == counted)
    && (!next.finished && s.players[s.cur].disconnected ==> next == NextTurn(counted))
    && (next.finished ==> next == EndGame(counted, None))
  }

  /** A rejected placement costs one turn without points and nothing else. */
  lemma RejectCostsOneTurn(s: State, tiles: seq<Placed>, formed: seq<FormedWord>)
    requires s.cur < |s.players| && s.pending.None? && HasTiles(s.players[s.cur].hand, tiles) && !s.finished
    ensures CostsOneTurn(s, tiles, formed, FinalizeReject(Suspend(s, tiles, formed)))
  {
    hide FinalizeReject, SameButHandOrder, HasTiles, Settled, Advance, ReturnTiles, Suspend, RejectedState;
    WithdrawUndoes(s, tiles, formed);
    SuspendedReject(s, tiles, formed);
    RejectLeads(Suspend(s, tiles, formed));
  }

  // ----- The vote -----

  ghost function Rejecting(votes: map<string, Vote>, voters: set<string>): set<string> {
    set id | id in voters && id in votes && votes[id] == Reject
  }

  /** A placement stands unless more than half of the voters reject it; silence counts as consent. */
  lemma AcceptedUnlessMajorityRejects(votes: map<string, Vote>, voters: set<string>)
    ensures ResolveVotes(votes, voters) <==> 2 * |Rejecting(votes, voters)| <= |voters|
  {
    var accepting := set id | id in voters && !(id in votes && votes[id] == Reject);
    assert accepting + Rejecting(votes, voters) == voters;
    assert accepting !! Rejecting(votes, voters);
    assert |accepting + Rejecting(votes, voters)| == |accepting| + |Rejecting(votes, voters)|;
  }
}
