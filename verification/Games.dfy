/** The game object. Every method leads to the state that the operation of the same name describes. */
module Games {
  import opened Results
  import opened Tiles
  import opened Bags
  import opened Grids
  import opened BoardLaws
  import opened Boards
  import opened GameStates
  import opened Challenges
  import opened GameLaws
  import opened Saves

  lemma {:induction false} RemoveFirstAt(hand: seq<Tile>, t: Tile, i: nat)
    requires i <= |hand| && t !in hand[..i] && (i < |hand| ==> hand[i] == t)
    ensures RemoveFirst(hand, t) == if i < |hand| then hand[..i] + hand[i + 1..] else hand
  {
    if i > 0 {
      assert hand[0] == hand[..i][0];
      assert hand[1..][..i - 1] == hand[..i][1..];
      RemoveFirstAt(hand[1..], t, i - 1);
      assert hand == [hand[0]] + hand[1..];
    }
  }

  // Takes the first such tile out of a hand.
  method TakeTile(hand: seq<Tile>, t: Tile) returns (found: bool, rest: seq<Tile>)
    ensures found <==> t in hand
    ensures rest == RemoveFirst(hand, t)
  {
    var i := 0;
    while i < |hand| && hand[i] != t
      invariant 0 <= i <= |hand| && t !in hand[..i]
    {
      i := i + 1;
    }
    RemoveFirstAt(hand, t, i);
    found := i < |hand|;
    rest := if found then hand[..i] + hand[i + 1..] else hand;
  }

  method ValidateHand(hand: seq<Tile>, tiles: seq<Placed>) returns (ok: bool)
    ensures ok <==> HasTiles(hand, tiles)
  {
    var left := hand;
    var i := 0;
    while i < |tiles|
      invariant 0 <= i <= |tiles|
      invariant HasTiles(hand, tiles) <==> HasTiles(left, tiles[i..])
    {
      assert tiles[i..][0] == tiles[i] && tiles[i..][1..] == tiles[i + 1..];
      var found, rest := TakeTile(left, tiles[i].HandTile());
      if !found {
        return false;
      }
      left := rest;
      i := i + 1;
    }
    return true;
  }

  // Takes the placed tiles out of a hand; also returns them as they left it.
  method RemoveTilesFromHand(hand: seq<Tile>, tiles: seq<Placed>) returns (left: seq<Tile>, removed: seq<Tile>)
    ensures left == RemoveTiles(hand, tiles)
    ensures removed == HandTilesOf(tiles)
  {
    left, removed := hand, [];
    var i := 0;
    while i < |tiles|
      invariant 0 <= i <= |tiles|
      invariant RemoveTiles(left, tiles[i..]) == RemoveTiles(hand, tiles)
      invariant removed == HandTilesOf(tiles[..i])
    {
      assert tiles[i..][0] == tiles[i] && tiles[i..][1..] == tiles[i + 1..];
      assert HandTilesOf(tiles[..i + 1]) == HandTilesOf(tiles[..i]) + [tiles[i].HandTile()];
      var target := tiles[i].HandTile();
      var found, rest := TakeTile(left, target);
      left := rest;
      removed := removed + [target];
      i := i + 1;
    }
    assert tiles[..i] == tiles;
  }

  // Nothing speaks against the exchange.
  ghost predicate ExchangeAllowed(s: State, id: string, indices: seq<int>) {
    && !s.finished && s.pending.None? && s.puzzle.None? && s.cur < |s.players| && s.players[s.cur].id == id
    && |s.bag| >= 7 && |s.bag| >= |indices| && indices != [] && NoDuplicates(indices)
    && forall k :: 0 <= k < |indices| ==> 0 <= indices[k] < |s.players[s.cur].hand|
  }

  lemma ExchangeGoesThrough(s: State, id: string, indices: seq<int>, shuffled: seq<Tile>)
    requires ExchangeAllowed(s, id, indices)
    ensures ExchangeTiles(s, id, indices, shuffled)
            == Ok(ScorelessTurn(Record(Exchanged(s, indices, shuffled), s.cur, ExchangeMove, 0)))
  {
  }

  class Game {
    const rules: Rules
    const board: Board
    const bag: TileBag
    const asyncMode: bool
    const challengeMode: bool
    var players: seq<Player>
    var cur: nat
    var started: bool
    var finished: bool
    var winners: seq<Player>
    var puzzle: Option<Puzzle>
    var scoreless: nat
    var turnNumber: int
    var pending: Challenge?
    var log: seq<Entry>
    var rejected: set<multiset<Placed>>

    ghost function Frame(): set<object>
      reads this
    {
      {this, board, board.cells, bag} + (if pending == null then {} else {pending})
    }

    ghost function Snapshot(): State
      requires board.Valid()
      reads this, board, board.cells, bag, pending
    {
      State(players, board.Contents(), board.isEmpty, bag.tiles, cur, started, finished, winners, puzzle, asyncMode,
            scoreless, turnNumber, challengeMode, if pending == null then None else Some(pending.Value()),
            log, rejected)
    }

    ghost predicate Valid()
      reads this, board, board.cells, bag, pending
    {
      board.Valid() && Inv(rules, Snapshot())
    }

    constructor (rules: Rules, challengeMode: bool, asyncMode: bool, puzzle: Option<Puzzle>)
      ensures Valid() && fresh(board) && fresh(board.cells) && fresh(bag) && pending == null
      ensures Snapshot() == NewGame(bag.tiles, challengeMode, asyncMode, puzzle)
      ensures multiset(bag.tiles) == FullSet()
    {
      this.rules, this.challengeMode, this.asyncMode, this.puzzle := rules, challengeMode, asyncMode, puzzle;
      board := new Board();
      bag := new TileBag();
      players, cur, started, finished, winners := [], 0, false, false, [];
      scoreless, turnNumber, pending, log, rejected := 0, 0, null, [], {};
      new;
      assert Snapshot() == NewGame(bag.tiles, challengeMode, asyncMode, puzzle);
      NewGameInv(rules, bag.tiles, challengeMode, asyncMode, puzzle);
    }

    // ----- Saving and restoring -----

    method ToSaveDict() returns (data: SaveRecord)
      requires board.Valid()
      ensures data == Saves.ToSaveDict(rules.letters, Snapshot())
    {
      var waiting := if pending == null then None else Some(pending.Value());
      var saved := SavePlayers(rules.letters, players, waiting);
      return SaveRecord(challengeMode, started, finished, cur, turnNumber, scoreless, asyncMode,
                        board.ToJson(rules.letters), board.isEmpty, TilesToJson(rules.letters, bag.tiles), saved,
                        NamesOf(winners));
    }

    constructor FromSaveDict(rules: Rules, data: SaveRecord)
      ensures board.Valid() && fresh(board) && fresh(board.cells) && fresh(bag) && pending == null
              && this.rules == rules
      ensures Snapshot() == Saves.FromSaveDict(rules.letters, data)
    {
      this.rules, challengeMode, asyncMode, puzzle := rules, data.challengeMode, data.asyncMode, None;
      started, finished, turnNumber := data.started, data.finished, data.turnNumber;
      cur, scoreless := AtLeastZero(data.cur), AtLeastZero(data.scoreless);
      pending, log, rejected := null, [], {};
      var restored := RestoreBoard(rules.letters, data);
      board := restored;
      var filled := RestoreBag(rules.letters, data.bag);
      bag := filled;
      var seated := RestorePlayers(rules.letters, data.players);
      players := seated;
      winners := Named(seated, data.winnerNames);
    }

    // ----- Helpers -----

    method RecordMove(idx: nat, kind: Kind, score: int)
      requires board.Valid() && idx < |players|
      modifies this`log
      ensures Snapshot() == Record(old(Snapshot()), idx, kind, score)
    {
      log := log + [Entry(|log| + 1, players[idx].name, kind, score, board.Contents())];
    }

    // Moves the turn pointer on, over disconnected players and penalised ones, who thereby serve their penalty.
    method AdvanceTurn()
      modifies this`players, this`cur
      ensures (players, cur) == Advance(old(players), old(cur), asyncMode, |old(players)|)
    {
      ghost var target := Advance(players, cur, asyncMode, |players|);
      var n := |players|;
      var steps := n;
      while steps > 0
        invariant 0 <= steps <= n == |players|
        invariant Advance(players, cur, asyncMode, steps) == target
      {
        cur := (cur + 1) % n;
        if players[cur].disconnected && !asyncMode {
          if !SomeoneConnected(players) {
            break;
          }
        } else if players[cur].skipNextTurn {
          players := players[cur := players[cur].(skipNextTurn := false)];
        } else {
          break;
        }
        steps := steps - 1;
      }
    }

    method NextTurn()
      requires board.Valid()
      modifies this`players, this`cur, this`turnNumber
      ensures Snapshot() == GameStates.NextTurn(old(Snapshot()))
    {
      AdvanceTurn();
      turnNumber := turnNumber + 1;
    }

    // Everyone pays for the tiles left in hand; the total is returned.
    method SettleHands() returns (remaining: nat)
      modifies this`players
      ensures players == Settle(old(players)) && remaining == HandTotal(old(players))
    {
      remaining := 0;
      var i := 0;
      while i < |players|
        invariant 0 <= i <= |players| == |old(players)|
        invariant forall k :: 0 <= k < i ==> players[k] == Settle(old(players))[k]
        invariant forall k :: i <= k < |players| ==> players[k] == old(players)[k]
        invariant remaining == HandTotalTo(old(players), i)
      {
        var handValue := HandValue(players[i].hand);
        players := players[i := players[i].(score := players[i].score - handValue)];
        remaining := remaining + handValue;
        i := i + 1;
      }
    }

    method SettleScores(finisher: Option<nat>)
      requires finisher.Some? ==> finisher.value < |players|
      modifies this`players
      ensures players == Settled(old(players), finisher)
    {
      var remaining := SettleHands();
      if finisher.Some? {
        var f := finisher.value;
        players := players[f := players[f].(score := players[f].score + remaining)];
      }
    }

    method EndGame(finisher: Option<nat>)
      requires board.Valid() && (finisher.Some? ==> finisher.value < |players|)
      modifies this`finished, this`pending, this`players, this`winners
      ensures Snapshot() == GameStates.EndGame(old(Snapshot()), finisher)
      ensures pending == null
    {
      finished := true;
      pending := null;
      SettleScores(finisher);
      winners := WithScore(players, TopScore(players));
    }

    // Counts a turn without points; says whether it ended the game.
    method RegisterScorelessTurn() returns (ended: bool)
      requires board.Valid()
      modifies this`scoreless, this`finished, this`pending, this`players, this`winners
      ensures Snapshot() == RegisterScoreless(old(Snapshot()))
      ensures ended <==> old(scoreless) + 1 >= SCORELESS_TURNS_LIMIT
      ensures ended ==> pending == null
      ensures !ended ==> pending == old(pending)
    {
      scoreless := scoreless + 1;
      if scoreless >= SCORELESS_TURNS_LIMIT {
        EndGame(None);
        return true;
      }
      return false;
    }

    method FinishScoreless()
      requires board.Valid()
      modifies this
      ensures Snapshot() == ScorelessTurn(old(Snapshot()))
      ensures pending == null || pending == old(pending)
    {
      var ended := RegisterScorelessTurn();
      if !ended {
        NextTurn();
      }
    }

    // ----- Placements -----

    // Score and hand of a placement that counts.
    method BookScore(idx: nat, hand: seq<Tile>, timeouts: nat, score: int)
      requires idx < |players| && |hand| <= HAND_SIZE
      modifies this`players, bag
      ensures bag.tiles == LeftAfter(old(bag.tiles), Refill(hand))
      ensures players == old(players)[idx := Refilled(old(players)[idx], hand, old(bag.tiles), timeouts, score)]
    {
      var newTiles := bag.Draw(HAND_SIZE - |hand|);
      var p := players[idx];
      players := players[idx := p.(score := p.score + score, hand := hand + newTiles, timeouts := timeouts)];
    }

    // Board, score, hand and log of a placement that counts.
    method BookPlacement(idx: nat, hand: seq<Tile>, timeouts: nat, tiles: seq<Placed>, score: int, kind: Kind)
      requires board.Valid() && idx < |players| && |hand| <= HAND_SIZE
      requires forall i :: 0 <= i < |tiles| ==> OnBoard(tiles[i].At())
      modifies this, board, board.cells, bag
      ensures Snapshot() == Commit(old(Snapshot()), idx, hand, timeouts, tiles, score, kind)
      ensures pending == null
    {
      ghost var s := Snapshot();
      pending := null;
      rejected := {};
      scoreless := 0;
      board.ApplyPlacement(tiles);
      BookScore(idx, hand, timeouts, score);
      assert Snapshot() == Booked(s, idx, hand, timeouts, tiles, score);
      RecordMove(idx, kind, score);
    }

    method PassOnOrEnd(idx: nat)
      requires board.Valid() && idx < |players| && pending == null
      modifies this
      ensures Snapshot() == AfterCommit(old(Snapshot()), idx)
      ensures pending == null
    {
      if players[idx].hand == [] && bag.tiles == [] {
        EndGame(Some(idx));
      } else {
        NextTurn();
      }
    }

    method FinalizePlacement(tiles: seq<Placed>, score: int)
      requires board.Valid() && cur < |players| && pending == null
      requires |RemoveTiles(players[cur].hand, tiles)| <= HAND_SIZE
      requires forall i :: 0 <= i < |tiles| ==> OnBoard(tiles[i].At())
      modifies this, board, board.cells, bag
      ensures Snapshot() == GameStates.FinalizePlacement(old(Snapshot()), tiles, score)
      ensures pending == null
    {
      var idx := cur;
      var hand, removed := RemoveTilesFromHand(players[idx].hand, tiles);
      BookPlacement(idx, hand, 0, tiles, score, PlaceMove);
      if puzzle.Some? {
        finished := true;
        winners := [players[idx]];
        puzzle := Some(Puzzle(Some(score)));
      } else {
        PassOnOrEnd(idx);
      }
    }

    method Suspend(tiles: seq<Placed>, formed: seq<FormedWord>)
      requires board.Valid() && cur < |players| && pending == null
      modifies this
      ensures Snapshot() == GameStates.Suspend(old(Snapshot()), tiles, formed)
      ensures pending != null && fresh(pending)
    {
      var hand, removed := RemoveTilesFromHand(players[cur].hand, tiles);
      players := players[cur := players[cur].(hand := hand)];
      pending := new Challenge(tiles, formed, PlacementTotal(formed, |tiles|), cur, removed);
    }

    method PlaceTiles(id: string, tiles: seq<Placed>) returns (result: Result<int, Refusal>)
      requires Valid()
      modifies Frame()
      ensures Valid() && fresh(Frame() - old(Frame()))
      ensures match GameStates.PlaceTiles(rules, old(Snapshot()), id, tiles)
              case Ok(next) => result.Ok? && Snapshot() == next
              case Err(refusal) => result == Err(refusal) && Snapshot() == old(Snapshot())
    {
      ghost var s := Snapshot();
      if finished { return Err(GameOver); }
      if pending != null { return Err(VotePending); }
      if cur >= |players| || players[cur].id != id { return Err(NotYourTurn); }
      var ok := ValidateHand(players[cur].hand, tiles);
      if !ok { return Err(MissingTile); }
      var challenged := ChallengeApplies(challengeMode, players, cur);
      var checked := board.ValidatePlacement(rules, tiles, challenged);
      if checked.Err? { return Err(IllegalPlacement(checked.error)); }
      var formed := checked.value;
      var total := PlacementTotal(formed, |tiles|);
      PlaceTilesInv(rules, s, id, tiles);
      PlacementFits(rules, s, tiles, challenged);
      if challenged {
        Suspend(tiles, formed);
      } else {
        FinalizePlacement(tiles, total);
      }
      return Ok(total);
    }

    // ----- Votes on a pending placement -----

    function VoterIds(): set<string>
      requires pending != null && pending.playerIdx < |players|
      reads this, pending
    {
      VotersOf(players, players[pending.playerIdx].id)
    }

    // The placer's tiles go back to the hand.
    method ReturnTiles()
      requires board.Valid() && pending != null && pending.playerIdx < |players|
      modifies this
      ensures Snapshot() == GameStates.ReturnTiles(old(Snapshot()))
      ensures pending == null
    {
      var idx := pending.playerIdx;
      players := players[idx := players[idx].(hand := players[idx].hand + pending.removed)];
      pending := null;
    }

    method FinalizeAccept()
      requires board.Valid() && pending != null && pending.playerIdx < |players|
               && |players[pending.playerIdx].hand| <= HAND_SIZE
      requires forall i :: 0 <= i < |pending.tiles| ==> OnBoard(pending.tiles[i].At())
      modifies this, board, board.cells, bag
      ensures Snapshot() == GameStates.FinalizeAccept(old(Snapshot()))
      ensures pending == null
    {
      var pc := pending;
      var idx := pc.playerIdx;
      BookPlacement(idx, players[idx].hand, players[idx].timeouts, pc.tiles, pc.score, AcceptMove);
      PassOnOrEnd(idx);
    }

    method FinalizeReject()
      requires board.Valid() && pending != null && pending.playerIdx < |players|
      modifies this
      ensures Snapshot() == GameStates.FinalizeReject(old(Snapshot()))
      ensures pending == null
    {
      var idx, tiles, away := pending.playerIdx, pending.tiles, players[pending.playerIdx].disconnected;
      ReturnTiles();
      rejected := rejected + {multiset(tiles)};
      RecordMove(idx, RejectMove, 0);
      var ended := RegisterScorelessTurn();
      if !ended && away {
        NextTurn();
      }
    }

    method ResolveAndFinalize() returns (result: VoteResult)
      requires Valid() && pending != null
      modifies this, board, board.cells, bag
      ensures Valid() && pending == null
      ensures Snapshot() == GameStates.ResolveAndFinalize(old(Snapshot())) && result == Verdict(old(Snapshot()))
    {
      ResolveInv(rules, Snapshot());
      PendingFits(rules, Snapshot());
      if ResolveVotes(pending.votes, VoterIds()) {
        FinalizeAccept();
        result := Accepted;
      } else {
        FinalizeReject();
        result := Rejected;
      }
    }

    method CastVote(id: string, vote: Vote) returns (result: Result<VoteResult, Refusal>)
      requires Valid()
      modifies Frame()
      ensures Valid() && fresh(Frame() - old(Frame()))
      ensures match GameStates.CastVote(old(Snapshot()), id, vote)
              case Ok(next) => Snapshot() == next && result == Ok(VoteOutcome(old(Snapshot()), id, vote))
              case Err(refusal) => Snapshot() == old(Snapshot()) && result == Err(refusal)
    {
      if pending == null { return Err(NoPending); }
      if players[pending.playerIdx].id == id { return Err(OwnPlacement); }
      var voters := VoterIds();
      if id !in voters { return Err(NotAVoter); }
      if id in pending.votes { return Err(AlreadyVoted); }
      VotesInv(rules, Snapshot(), pending.votes[id := vote]);
      hide Inv;
      pending.AddVote(id, vote);
      if AllVoted(pending.votes, voters) {
        var verdict := ResolveAndFinalize();
        return Ok(verdict);
      }
      return Ok(Recorded);
    }

    method WithdrawPending(id: string) returns (error: Option<Refusal>)
      requires Valid()
      modifies Frame()
      ensures Valid() && fresh(Frame() - old(Frame()))
      ensures Follows(GameStates.WithdrawPending(old(Snapshot()), id), old(Snapshot()), Snapshot(), error)
    {
      if pending == null { return Some(NoPending); }
      if players[pending.playerIdx].id != id { return Some(NotThePlacer); }
      if pending.votes != map[] { return Some(AlreadyVotedOn); }
      ReturnTilesInv(rules, Snapshot());
      ReturnTiles();
      return None;
    }

    // The time to vote is over.
    method AcceptPending() returns (result: Result<VoteResult, Refusal>)
      requires Valid()
      modifies Frame()
      ensures Valid() && fresh(Frame() - old(Frame()))
      ensures match GameStates.AcceptPending(old(Snapshot()))
              case Ok(next) => Snapshot() == next && result == Ok(Verdict(old(Snapshot())))
              case Err(refusal) => Snapshot() == old(Snapshot()) && result == Err(refusal)
    {
      if pending == null { return Err(NoPending); }
      var verdict := ResolveAndFinalize();
      return Ok(verdict);
    }

    method ForceResolvePending(accept: bool) returns (error: Option<Refusal>)
      requires Valid()
      modifies Frame()
      ensures Valid() && fresh(Frame() - old(Frame()))
      ensures Follows(GameStates.ForceResolvePending(old(Snapshot()), accept), old(Snapshot()), Snapshot(), error)
    {
      if pending == null { return Some(NoPending); }
      if accept {
        FinalizeAcceptInv(rules, Snapshot());
        PendingFits(rules, Snapshot());
        FinalizeAccept();
      } else {
        FinalizeRejectInv(rules, Snapshot());
        FinalizeReject();
      }
      return None;
    }

    // ----- Exchange, pass, resignation, forced end -----

    method ExchangeTiles(id: string, indices: seq<int>) returns (error: Option<Refusal>)
      requires Valid()
      modifies Frame()
      ensures Valid() && fresh(Frame() - old(Frame()))
      ensures Follows(GameStates.ExchangeTiles(old(Snapshot()), id, indices, bag.tiles), old(Snapshot()), Snapshot(),
                      error)
      ensures error.None? ==> IsShuffleOf(old(Snapshot()), indices, bag.tiles)
    {
      if finished { return Some(GameOver); }
      if pending != null { return Some(VotePending); }
      if puzzle.Some? { return Some(PuzzleGame); }
      if cur >= |players| || players[cur].id != id { return Some(NotYourTurn); }
      if |bag.tiles| < 7 || |bag.tiles| < |indices| { return Some(BagTooSmall); }
      if indices == [] { return Some(NothingSelected); }
      if !NoDuplicates(indices) { return Some(DuplicateIndex); }
      var hand := players[cur].hand;
      if exists k | 0 <= k < |indices| :: !(0 <= indices[k] < |hand|) { return Some(BadIndex); }

      CarryOutExchange(id, indices);
      return None;
    }

    method CarryOutExchange(id: string, indices: seq<int>)
      requires Valid() && ExchangeAllowed(Snapshot(), id, indices)
      modifies Frame()
      ensures Valid() && fresh(Frame() - old(Frame()))
      ensures GameStates.ExchangeTiles(old(Snapshot()), id, indices, bag.tiles) == Ok(Snapshot())
      ensures IsShuffleOf(old(Snapshot()), indices, bag.tiles)
    {
      ghost var s := Snapshot();
      SwapTiles(indices);
      RecordMove(cur, ExchangeMove, 0);
      FinishScoreless();
      ExchangeGoesThrough(s, id, indices, bag.tiles);
      ExchangeTilesInv(rules, s, id, indices, bag.tiles);
    }

    // New tiles are drawn first, then the given ones are mixed into the bag.
    method SwapTiles(indices: seq<int>)
      requires board.Valid() && cur < |players| && NoDuplicates(indices) && |indices| <= |bag.tiles|
      requires forall k :: 0 <= k < |indices| ==> 0 <= indices[k] < |players[cur].hand|
      modifies this`players, bag
      ensures Snapshot() == Exchanged(old(Snapshot()), indices, bag.tiles)
      ensures IsShuffleOf(old(Snapshot()), indices, bag.tiles)
    {
      var hand := players[cur].hand;
      var kept, given := SplitHand(hand, indices);
      ExchangeCounts(hand, indices, bag.tiles);
      var newTiles := bag.Draw(|given|);
      bag.PutBack(given);
      players := players[cur := players[cur].(hand := kept + newTiles, timeouts := 0)];
    }

    method NoteTimeout(timeout: bool)
      requires board.Valid() && cur < |players|
      modifies this`players
      ensures Snapshot() == Noted(old(Snapshot()), timeout)
    {
      if timeout {
        players := players[cur := players[cur].(timeouts := players[cur].timeouts + 1)];
      } else {
        players := players[cur := players[cur].(timeouts := 0)];
      }
    }

    method PassTurn(id: string, timeout: bool) returns (error: Option<Refusal>)
      requires Valid()
      modifies this
      ensures Valid() && (pending == null || pending == old(pending))
      ensures Follows(GameStates.PassTurn(old(Snapshot()), id, timeout), old(Snapshot()), Snapshot(), error)
    {
      ghost var s := Snapshot();
      if finished { return Some(GameOver); }
      if pending != null { return Some(VotePending); }
      if puzzle.Some? { return Some(PuzzleGame); }
      if cur >= |players| || players[cur].id != id { return Some(NotYourTurn); }
      NoteTimeout(timeout);
      RecordMove(cur, PassMove, 0);
      FinishScoreless();
      PassTurnInv(rules, s, id, timeout);
      return None;
    }

    method Resign(id: string) returns (error: Option<Refusal>)
      requires Valid()
      modifies this
      ensures Valid() && (pending == null || pending == old(pending))
      ensures Follows(GameStates.Resign(old(Snapshot()), id), old(Snapshot()), Snapshot(), error)
    {
      ghost var s := Snapshot();
      if !started { return Some(NotStarted); }
      if finished { return Some(GameOver); }
      var seat := SeatOf(players, id, 0);
      if seat.None? { return Some(NotAPlayer); }
      ResignInv(rules, s, id);
      MarkResigned(seat.value);
      EndGame(None);
      CrownStaying();
      return None;
    }

    method MarkResigned(idx: nat)
      requires board.Valid() && idx < |players|
      modifies this`players, this`pending
      ensures Snapshot() == GivenUp(old(Snapshot()), idx) && pending == null
    {
      players := players[idx := players[idx].(resigned := true)];
      pending := null;
    }

    method CrownStaying()
      requires board.Valid()
      modifies this`winners
      ensures Snapshot() == Crowned(old(Snapshot()))
    {
      var staying := NotResigned(players);
      if staying != [] {
        winners := WithScore(staying, TopScore(staying));
      }
    }

    method ExpireTurn() returns (happened: bool)
      requires Valid()
      modifies this
      ensures Valid() && (pending == null || pending == old(pending))
      ensures happened <==> GameStates.ExpireTurn(old(Snapshot())).Ok?
      ensures Snapshot() == if happened then GameStates.ExpireTurn(old(Snapshot())).value else old(Snapshot())
    {
      if !asyncMode || !started || finished || pending != null || cur >= |players| { return false; }
      var id := players[cur].id;
      var refused := PassTurn(id, true);
      if refused.None? && !finished {
        var seat := SeatOf(players, id, 0);
        if seat.Some? && players[seat.value].timeouts >= MAX_TIMEOUTS {
          var ignored := Resign(id);
        }
      }
      return refused.None?;
    }

    method ForceEnd() returns (ended: bool)
      requires Valid()
      modifies this
      ensures Valid() && (pending == null || pending == old(pending))
      ensures ended <==> GameStates.ForceEnd(old(Snapshot())).Ok?
      ensures Snapshot() == if ended then GameStates.ForceEnd(old(Snapshot())).value else old(Snapshot())
    {
      if !started || finished { return false; }
      ForceEndInv(rules, Snapshot());
      if pending != null {
        ReturnTiles();
      }
      EndGame(None);
      return true;
    }

    // ----- Lobby and connections -----

    method AddPlayer(id: string, name: string, isBot: bool) returns (error: Option<Refusal>)
      requires Valid()
      modifies this`players
      ensures Valid()
      ensures Follows(GameStates.AddPlayer(old(Snapshot()), id, name, isBot), old(Snapshot()), Snapshot(), error)
    {
      if SeatOf(players, id, 0).Some? { return Some(AlreadyJoined); }
      if |players| >= MAX_PLAYERS { return Some(RoomFull); }
      if started { return Some(AlreadyStarted); }
      AddPlayerInv(rules, Snapshot(), id, name, isBot);
      players := players + [Player(id, name, [], 0, false, false, 0, false, isBot)];
      return None;
    }

    method Start() returns (error: Option<Refusal>)
      requires Valid()
      modifies this`started, this`players, bag
      ensures Valid()
      ensures Follows(GameStates.Start(old(Snapshot())), old(Snapshot()), Snapshot(), error)
    {
      if players == [] { return Some(NoPlayers); }
      if started { return Some(AlreadyStarted); }
      StartInv(rules, Snapshot());
      started := true;
      DealHands();
      return None;
    }

    method DealHands()
      modifies this`players, bag
      ensures (players, bag.tiles) == DealtHands(old(players), old(bag.tiles), |old(players)|)
    {
      var i := 0;
      while i < |players|
        invariant 0 <= i <= |players| == |old(players)|
        invariant (players, bag.tiles) == DealtHands(old(players), old(bag.tiles), i)
      {
        var hand := bag.Draw(HAND_SIZE);
        players := players[i := players[i].(hand := hand)];
        i := i + 1;
      }
    }

    method MarkDisconnected(id: string) returns (error: Option<Refusal>)
      requires Valid()
      modifies this`players
      ensures Valid()
      ensures Follows(GameStates.MarkDisconnected(old(Snapshot()), id), old(Snapshot()), Snapshot(), error)
    {
      var seat := SeatOf(players, id, 0);
      if seat.None? { return Some(NotAPlayer); }
      MarkDisconnectedInv(rules, Snapshot(), id);
      players := players[seat.value := players[seat.value].(disconnected := true)];
      return None;
    }

    method ReplacePlayerSid(oldId: string, newId: string) returns (error: Option<Refusal>)
      requires Valid()
      modifies Frame()
      ensures Valid() && pending == old(pending)
      ensures Follows(GameStates.ReplacePlayerSid(old(Snapshot()), oldId, newId), old(Snapshot()), Snapshot(), error)
    {
      var seat := SeatOf(players, oldId, 0);
      if seat.None? { return Some(NotAPlayer); }
      ReplacePlayerSidInv(rules, Snapshot(), oldId, newId);
      Reseat(seat.value, oldId, newId);
      return None;
    }

    // The seat, the vote and the winners' records take the new id.
    method Reseat(seat: nat, oldId: string, newId: string)
      requires board.Valid() && SeatOf(players, oldId, 0) == Some(seat)
      modifies this, pending
      ensures pending == old(pending)
      ensures GameStates.ReplacePlayerSid(old(Snapshot()), oldId, newId) == Ok(Snapshot())
    {
      players := players[seat := players[seat].(id := newId, disconnected := false)];
      if pending != null {
        pending.UpdatePlayerSid(oldId, newId);
      }
      RenameWinners(oldId, newId);
    }

    method RenameWinners(oldId: string, newId: string)
      modifies this`winners
      ensures winners == Renamed(old(winners), oldId, newId)
    {
      var i := 0;
      while i < |winners|
        invariant 0 <= i <= |winners| == |old(winners)|
        invariant forall k :: 0 <= k < i ==> winners[k] == Renamed(old(winners), oldId, newId)[k]
        invariant forall k :: i <= k < |winners| ==> winners[k] == old(winners)[k]
      {
        if winners[i].id == oldId {
          winners := winners[i := winners[i].(id := newId, disconnected := false)];
        }
        i := i + 1;
      }
    }

    // Says whether the game now waits for a turn of the next player.
    method RemovePlayer(id: string) returns (needsTurn: bool)
      requires Valid()
      modifies Frame()
      ensures Valid() && (pending == null || pending == old(pending))
      ensures needsTurn <==> RemovalNeedsTurn(old(Snapshot()), id)
      ensures Snapshot()
              == match GameStates.RemovePlayer(old(Snapshot()), id) case Ok(next) => next case Err(_) => old(Snapshot())
    {
      var seat := SeatOf(players, id, 0);
      if seat.None? { return false; }
      RemoveSeatInv(rules, Snapshot(), seat.value);
      needsTurn := VacateSeat(seat.value);
    }

    method VacateSeat(idx: nat) returns (needsTurn: bool)
      requires board.Valid() && idx < |players|
      modifies this`players, this`cur, this`pending, pending
      ensures pending == null || pending == old(pending)
      ensures needsTurn <==> |old(players)| > 1 && idx == old(cur) && started && !finished
      ensures Snapshot() == RemoveSeat(old(Snapshot()), idx)
    {
      if pending != null && pending.playerIdx == idx {
        pending := null;
      }
      players := players[..idx] + players[idx + 1..];
      needsTurn := ShiftPointer(idx);
      if players != [] && pending != null && idx < pending.playerIdx {
        pending.playerIdx := pending.playerIdx - 1;
      }
    }

    // The turn pointer after the given seat is gone.
    method ShiftPointer(idx: nat) returns (needsTurn: bool)
      modifies this`cur
      ensures cur == PointerAfterRemoval(old(cur), idx, |players|)
      ensures needsTurn <==> players != [] && idx == old(cur) && started && !finished
    {
      needsTurn := false;
      if players == [] {
        cur := 0;
      } else if idx < cur {
        cur := cur - 1;
      } else if idx == cur {
        if cur >= |players| {
          cur := 0;
        }
        needsTurn := started && !finished;
      }
    }

    method SkipDisconnectedCurrent() returns (skipped: bool)
      requires Valid()
      modifies this
      ensures Valid() && pending == old(pending)
      ensures skipped <==> GameStates.SkipDisconnectedCurrent(old(Snapshot())).Ok?
      ensures Snapshot()
              == if skipped then GameStates.SkipDisconnectedCurrent(old(Snapshot())).value else old(Snapshot())
    {
      if !started || finished || pending != null || asyncMode || cur >= |players| { return false; }
      if !players[cur].disconnected || !SomeoneConnected(players) { return false; }
      NextTurnInv(rules, Snapshot());
      NextTurn();
      return true;
    }
  }

  method SavePlayers(letters: Alphabet, players: seq<Player>, pending: Option<Pending>)
    returns (saved: seq<SavedPlayer>)
    ensures |saved| == |players|
    ensures forall k :: 0 <= k < |players| ==> saved[k] == PlayerToJson(letters, players[k], ReturnedTo(pending, k))
  {
    saved := [];
    var i := 0;
    while i < |players|
      invariant 0 <= i <= |players| && |saved| == i
      invariant forall k :: 0 <= k < i ==> saved[k] == PlayerToJson(letters, players[k], ReturnedTo(pending, k))
    {
      saved := saved + [PlayerToJson(letters, players[i], ReturnedTo(pending, i))];
      i := i + 1;
    }
  }

  method RestoreBoard(letters: Alphabet, data: SaveRecord) returns (board: Board)
    ensures fresh(board) && fresh(board.cells) && board.Valid()
    ensures board.Contents() == BoardFromJson(letters, data.board) && board.isEmpty == data.boardEmpty
  {
    board := new Board.FromJson(letters, data.board);
    board.isEmpty := data.boardEmpty;
  }

  method RestoreBag(letters: Alphabet, texts: seq<string>) returns (bag: TileBag)
    ensures fresh(bag) && bag.tiles == TilesFromJson(letters, texts)
  {
    bag := new TileBag();
    bag.tiles := TilesFromJson(letters, texts);
  }

  method RestorePlayers(letters: Alphabet, saved: seq<SavedPlayer>) returns (players: seq<Player>)
    ensures players == PlayersFromJson(letters, saved)
  {
    players := [];
    var i := 0;
    while i < |saved|
      invariant 0 <= i <= |saved| && |players| == i
      invariant forall k :: 0 <= k < i ==> players[k] == PlayerFromJson(letters, saved[k])
    {
      players := players + [PlayerFromJson(letters, saved[i])];
      i := i + 1;
    }
  }

  // What a caller sees of an operation that may be refused.
  ghost predicate Follows(outcome: Outcome, before: State, after: State, error: Option<Refusal>) {
    match outcome
    case Ok(next) => after == next && error.None?
    case Err(refusal) => after == before && error == Some(refusal)
  }

  ghost function VoteOutcome(s: State, id: string, vote: Vote): VoteResult
    requires s.pending.Some? && PendingSeated(s)
  {
    var voted := Voted(s, id, vote);
    if AllVoted(voted.pending.value.votes, VotersOf(s.players, s.players[s.pending.value.playerIdx].id))
    then Verdict(voted) else Recorded
  }

  // The tiles of a hand that stay and those that are given back, walking through the hand from its end.
  method SplitHand(hand: seq<Tile>, indices: seq<int>) returns (kept: seq<Tile>, given: seq<Tile>)
    ensures kept == Select(hand, indices, false)
    ensures given == Select(hand, indices, true)
  {
    kept, given := [], [];
    var i := |hand|;
    assert hand[..i] == hand;
    while i > 0
      invariant 0 <= i <= |hand|
      invariant Select(hand[..i], indices, false) + kept == Select(hand, indices, false)
      invariant Select(hand[..i], indices, true) + given == Select(hand, indices, true)
    {
      i := i - 1;
      assert hand[..i + 1][..i] == hand[..i];
      if i in indices {
        given := [hand[i]] + given;
      } else {
        kept := [hand[i]] + kept;
      }
    }
  }

  // A pending placement can be booked at any time.
  lemma PendingFits(rules: Rules, s: State)
    requires Inv(rules, s) && s.pending.Some?
    ensures |s.players[s.pending.value.playerIdx].hand| <= HAND_SIZE
    ensures forall i :: 0 <= i < |s.pending.value.tiles| ==> OnBoard(s.pending.value.tiles[i].At())
  {
    InvHands(rules, s);
    ValidateIffLegal(rules, s.grid, s.boardEmpty, s.pending.value.tiles, true);
  }

  // An accepted placement lies on the board, and what stays in the hand is at most a full hand.
  lemma PlacementFits(rules: Rules, s: State, tiles: seq<Placed>, skipDictionary: bool)
    requires Inv(rules, s) && s.cur < |s.players| && HasTiles(s.players[s.cur].hand, tiles)
    requires Validate(rules, s.grid, s.boardEmpty, tiles, skipDictionary).Ok?
    ensures |RemoveTiles(s.players[s.cur].hand, tiles)| <= HAND_SIZE
    ensures forall i :: 0 <= i < |tiles| ==> OnBoard(tiles[i].At())
  {
    HasTilesIffIncluded(s.players[s.cur].hand, tiles);
    ValidateIffLegal(rules, s.grid, s.boardEmpty, tiles, skipDictionary);
    assert Load(s, s.cur) <= HAND_SIZE;
  }
}
