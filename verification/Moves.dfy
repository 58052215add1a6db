/**
 What the accepted actions change, and that they change nothing else: hands and bag tile by tile, the log entry by
 entry, missed deadlines, seats and connections.
 */
module Moves {
  import opened Results
  import opened Tiles
  import opened Bags
  import opened Grids
  import opened GameStates
  import opened GameLaws
  import opened Authority
  import opened Endings

  // ----- Dealing -----

  // The hands of the last player first.
  function HandsBack(players: seq<Player>): seq<Tile> {
    if players == [] then [] else HandsBack(players[1..]) + players[0].hand
  }

  lemma {:induction false} HandsBackSnoc(players: seq<Player>, p: Player)
    ensures HandsBack(players + [p]) == p.hand + HandsBack(players)
  {
    if players == [] {
      assert [p][1..] == [];
    } else {
      assert (players + [p])[1..] == players[1..] + [p];
      HandsBackSnoc(players[1..], p);
      Regroup(p.hand, HandsBack(players[1..]), players[0].hand);
    }
  }

  lemma Regroup(a: seq<Tile>, b: seq<Tile>, c: seq<Tile>)
    ensures a + b + c == a + (b + c)
  {
  }

  lemma {:induction false} DealtFrom(players: seq<Player>, bag: seq<Tile>, n: nat)
    requires n <= |players|
    ensures bag == DealtHands(players, bag, n).1 + HandsBack(DealtHands(players, bag, n).0[..n])
  {
    if n == 0 {
      assert HandsBack(players[..0]) == [];
    } else {
      DealtFrom(players, bag, n - 1);
      var (before, rest) := DealtHands(players, bag, n - 1);
      DealtOneMore(before, rest, n);
    }
  }

  lemma DealtOneMore(before: seq<Player>, rest: seq<Tile>, n: nat)
    requires 0 < n <= |before|
    ensures var drawn := Drawn(rest, HAND_SIZE);
            rest + HandsBack(before[..n - 1])
            == LeftAfter(rest, HAND_SIZE) + HandsBack(before[n - 1 := before[n - 1].(hand := drawn)][..n])
  {
    var drawn := Drawn(rest, HAND_SIZE);
    var p := before[n - 1].(hand := drawn);
    DrawSplits(rest, HAND_SIZE);
    assert before[n - 1 := p][..n] == before[..n - 1] + [p];
    hide Drawn, LeftAfter;
    HandsBackSnoc(before[..n - 1], p);
    Regroup(LeftAfter(rest, HAND_SIZE), drawn, HandsBack(before[..n - 1]));
  }

  lemma {:induction false} DealtEach(players: seq<Player>, bag: seq<Tile>, n: nat)
    requires n <= |players|
    ensures var (dealt, left) := DealtHands(players, bag, n);
            && (forall i :: 0 <= i < |players| ==> dealt[i] == players[i].(hand := dealt[i].hand))
            && (forall i :: 0 <= i < n ==> |dealt[i].hand| <= 7 && (left != [] ==> |dealt[i].hand| == 7))
  {
    if n > 0 {
      var (before, rest) := DealtHands(players, bag, n - 1);
      DealtEach(players, bag, n - 1);
      DrawSplits(rest, HAND_SIZE);
    }
  }

  /** At the start everyone, in seat order, draws seven tiles from the end of the bag; nothing else happens. */
  lemma StartDeals(s: State)
    requires Start(s).Ok?
    ensures var t := Start(s).value;
            && t == s.(started := true, bag := t.bag, players := t.players) && |t.players| == |s.players|
            && s.bag == t.bag + HandsBack(t.players)
            && forall i :: 0 <= i < |s.players| ==>
                 && t.players[i] == s.players[i].(hand := t.players[i].hand)
                 && |t.players[i].hand| <= 7 && (t.bag != [] ==> |t.players[i].hand| == 7)
  {
    DealtFrom(s.players, s.bag, |s.players|);
    DealtEach(s.players, s.bag, |s.players|);
    var t := Start(s).value;
    assert t.players[..|s.players|] == t.players;
  }

  // ----- Exchanging -----

  // The tiles whose place, from i on, is (not) among the indices, in hand order.
  function PickFrom(hand: seq<Tile>, indices: seq<int>, selected: bool, i: nat): seq<Tile>
    requires i <= |hand|
    decreases |hand| - i
  {
    if i == |hand| then []
    else (if (i in indices) == selected then [hand[i]] else []) + PickFrom(hand, indices, selected, i + 1)
  }

  lemma {:induction false} SelectGoesOn(hand: seq<Tile>, indices: seq<int>, selected: bool, n: nat)
    requires n <= |hand|
    ensures Select(hand, indices, selected)
            == Select(hand[..n], indices, selected) + PickFrom(hand, indices, selected, n)
    decreases |hand| - n
  {
    if n == |hand| {
      assert hand[..n] == hand && Select(hand, indices, selected) + [] == Select(hand, indices, selected);
    } else {
      SelectGoesOn(hand, indices, selected, n + 1);
      assert hand[..n + 1][..n] == hand[..n];
      Regroup(Select(hand[..n], indices, selected), if (n in indices) == selected then [hand[n]] else [],
              PickFrom(hand, indices, selected, n + 1));
    }
  }

  /** The tiles given away are those at the selected places, the others stay, both in hand order. */
  lemma SelectPicks(hand: seq<Tile>, indices: seq<int>, selected: bool)
    ensures Select(hand, indices, selected) == PickFrom(hand, indices, selected, 0)
  {
    SelectGoesOn(hand, indices, selected, 0);
    assert hand[..0] == [] && [] + PickFrom(hand, indices, selected, 0) == PickFrom(hand, indices, selected, 0);
  }

  // ----- The log -----

  // One entry more, about the player to move, with the board as it is then.
  ghost predicate OneEntry(s: State, t: State, kind: Kind, score: int) {
    s.cur < |s.players| && t.log == s.log + [Entry(|s.log| + 1, s.players[s.cur].name, kind, score, t.grid)]
  }

  lemma EndGameLog(s: State, finisher: Option<nat>)
    requires finisher.Some? ==> finisher.value < |s.players|
    ensures EndGame(s, finisher).log == s.log && EndGame(s, finisher).grid == s.grid
  {
  }

  lemma ScorelessLog(s: State)
    ensures ScorelessTurn(s).log == s.log && ScorelessTurn(s).grid == s.grid
  {
    hide EndGame, Advance;
    EndGameLog(s.(scoreless := s.scoreless + 1), None);
  }

  lemma AfterCommitLog(s: State, idx: nat)
    requires idx < |s.players|
    ensures AfterCommit(s, idx).log == s.log && AfterCommit(s, idx).grid == s.grid
  {
    hide Advance, Settled, WithScore;
  }

  lemma PlacementLog(s: State, tiles: seq<Placed>, score: int)
    requires s.cur < |s.players|
    ensures var t := FinalizePlacement(s, tiles, score);
            t.grid == With(s.grid, tiles) && OneEntry(s, t, PlaceMove, score)
  {
    hide RemoveTiles, AfterCommit, With;
    var after := Commit(s, s.cur, RemoveTiles(s.players[s.cur].hand, tiles), 0, tiles, score, PlaceMove);
    AfterCommitLog(after, s.cur);
  }

  // A placement waits when the other humans are asked, and is carried out and logged otherwise.
  lemma {:induction false} PlaceLogs(rules: Rules, s: State, id: string, tiles: seq<Placed>)
    requires PlaceTiles(rules, s, id, tiles).Ok?
    ensures s.cur < |s.players| && Validate(rules, s.grid, s.boardEmpty, tiles, IsAsked(s)).Ok?
    ensures var t := PlaceTiles(rules, s, id, tiles).value;
            var formed := Validate(rules, s.grid, s.boardEmpty, tiles, IsAsked(s)).value;
            if IsAsked(s) then t == Suspend(s, tiles, formed)
            else t.grid == With(s.grid, tiles) && OneEntry(s, t, PlaceMove, PlacementTotal(formed, |tiles|))
  {
    assert ChallengeApplies(s.challengeMode, s.players, s.cur) <==> IsAsked(s);
    hide Validate, HasTiles, Suspend, FinalizePlacement, OneEntry, IsAsked, ChallengeApplies, With;
    if !IsAsked(s) {
      PlacementLog(s, tiles, PlacementTotal(Validate(rules, s.grid, s.boardEmpty, tiles, false).value, |tiles|));
    }
  }

  lemma {:induction false} TurnLogs(rules: Rules, s: State, a: Action)
    requires PendingSeated(s) && Attempt(rules, s, a).Ok? && (a.Exchange? || a.Pass?)
    ensures OneEntry(s, Apply(rules, s, a), if a.Exchange? then ExchangeMove else PassMove, 0)
    ensures Apply(rules, s, a).grid == s.grid
  {
    hide ScorelessTurn;
    match a
    case Exchange(id, indices, shuffled) =>
      ScorelessLog(Record(Exchanged(s, indices, shuffled), s.cur, ExchangeMove, 0));
    case Pass(id, byAdmin) =>
      ScorelessLog(Record(Noted(s, byAdmin && s.asyncMode), s.cur, PassMove, 0));
  }

  // ----- Hands, bag and counters of the player to move -----

  // The turn has passed: only the mover's record, the bag and what is listed have changed.
  ghost predicate OnlyMoverChanges(s: State, t: State) {
    && s.cur < |s.players| && |t.players| == |s.players| && !t.finished && t.turnNumber == s.turnNumber + 1
    && t.winners == s.winners && t.puzzle == s.puzzle && t.started == s.started && t.pending.None?
    && forall i :: 0 <= i < |s.players| && i != s.cur ==> t.players[i] == s.players[i]
  }

  // How many tiles a hand of this size is given from a bag of that size.
  function Given(handSize: nat, bagSize: nat): nat {
    var wanted := if handSize <= 7 then 7 - handSize else 0;
    if wanted <= bagSize then wanted else bagSize
  }

  lemma {:induction false} CommitIs(s: State, idx: nat, hand: seq<Tile>, timeouts: nat, tiles: seq<Placed>,
                                    score: int, kind: Kind)
    requires idx < |s.players|
    ensures var t := Commit(s, idx, hand, timeouts, tiles, score, kind);
            var n := Given(|hand|, |s.bag|);
            && t.bag == s.bag[..|s.bag| - n] && t.players == s.players[idx := t.players[idx]]
            && t.players[idx] == s.players[idx].(score := s.players[idx].score + score, timeouts := timeouts,
                                                 hand := hand + s.bag[|s.bag| - n..])
            && t.scoreless == 0 && t.rejected == {} && t.pending.None? && !t.boardEmpty && t.cur == s.cur
            && t.turnNumber == s.turnNumber && t.finished == s.finished && t.winners == s.winners
            && t.puzzle == s.puzzle && t.started == s.started && t.asyncMode == s.asyncMode
  {
    hide With;
  }

  lemma TurnPasses(s: State, idx: nat)
    requires idx < |s.players| && NoPenalties(s.players) && !AfterCommit(s, idx).finished
    ensures var t := AfterCommit(s, idx);
            t == s.(cur := t.cur, turnNumber := s.turnNumber + 1)
  {
    AdvanceWithoutPenalties(s.players, s.cur, s.asyncMode, |s.players|);
    hide Advance, Settled, WithScore;
  }

  /**
   A placement that is carried out while the game goes on: the tiles leave the hand, it is filled up to seven from the
   end of the bag, the points are booked, counters are cleared, and nobody else is touched.
   */
  lemma {:induction false} PlacementMoves(s: State, tiles: seq<Placed>, score: int)
    requires s.cur < |s.players| && HasTiles(s.players[s.cur].hand, tiles) && NoPenalties(s.players)
    requires !FinalizePlacement(s, tiles, score).finished
    ensures var t, p := FinalizePlacement(s, tiles, score), s.players[s.cur];
            && |p.hand| >= |tiles| && OnlyMoverChanges(s, t)
            && var n := Given(|p.hand| - |tiles|, |s.bag|);
               && t.bag == s.bag[..|s.bag| - n]
               && multiset(t.players[s.cur].hand) + AsInHand(tiles)
                  == multiset(p.hand) + multiset(s.bag[|s.bag| - n..])
               && t.players[s.cur] == p.(score := p.score + score, timeouts := 0, hand := t.players[s.cur].hand)
               && t.scoreless == 0 && t.rejected == {} && !t.boardEmpty
  {
    var p := s.players[s.cur];
    var hand := RemoveTiles(p.hand, tiles);
    HasTilesIffIncluded(p.hand, tiles);
    InHandIs(tiles);
    var after := Commit(s, s.cur, hand, 0, tiles, score, PlaceMove);
    CommitIs(s, s.cur, hand, 0, tiles, score, PlaceMove);
    hide Commit, AfterCommit, HasTiles, RemoveTiles, AsInHand, HandTilesOf;
    assert NoPenalties(after.players);
    TurnPasses(after, s.cur);
    assert multiset(hand + s.bag[|after.bag|..]) == multiset(hand) + multiset(s.bag[|after.bag|..]);
  }

  /** The placement that solves a daily puzzle ends it: its own points are the result, the solver is the winner. */
  lemma {:induction false} SolvingEnds(s: State, tiles: seq<Placed>, score: int)
    requires s.cur < |s.players| && HasTiles(s.players[s.cur].hand, tiles) && s.puzzle.Some?
    ensures var t, p := FinalizePlacement(s, tiles, score), s.players[s.cur];
            && t.finished && t.puzzle == Some(Puzzle(Some(score))) && t.cur == s.cur && t.turnNumber == s.turnNumber
            && |t.players| == |s.players| && t.winners == [t.players[s.cur]]
            && t.players[s.cur] == p.(score := p.score + score, timeouts := 0, hand := t.players[s.cur].hand)
            && forall i :: 0 <= i < |s.players| && i != s.cur ==> t.players[i] == s.players[i]
  {
    CommitIs(s, s.cur, RemoveTiles(s.players[s.cur].hand, tiles), 0, tiles, score, PlaceMove);
    hide Commit, HasTiles, RemoveTiles;
  }

  /**
   An exchange while the game goes on: the selected tiles are replaced by as many from the end of the bag, drawn before
   they are mixed in; the count of missed deadlines is cleared, and nobody else is touched.
   */
  lemma {:induction false} ExchangeMoves(s: State, id: string, indices: seq<int>, shuffled: seq<Tile>)
    requires ExchangeTiles(s, id, indices, shuffled).Ok? && IsShuffleOf(s, indices, shuffled) && NoPenalties(s.players)
    requires !s.finished && s.scoreless < 5
    ensures var t := ExchangeTiles(s, id, indices, shuffled).value;
            && OnlyMoverChanges(s, t) && |indices| <= |s.bag|
            && var p, n := s.players[s.cur], |s.bag| - |indices|;
               && t.players[s.cur] == p.(timeouts := 0, hand := PickFrom(p.hand, indices, false, 0) + s.bag[n..])
               && multiset(t.bag) == multiset(s.bag[..n]) + multiset(PickFrom(p.hand, indices, true, 0))
               && t.scoreless == s.scoreless + 1 && t.grid == s.grid && t.rejected == s.rejected
  {
    ExchangedIs(s, indices, shuffled);
    hide Exchanged, PickFrom, ScorelessTurn, IsShuffleOf;
    PassesOn(Record(Exchanged(s, indices, shuffled), s.cur, ExchangeMove, 0));
  }

  lemma {:induction false} ExchangedIs(s: State, indices: seq<int>, shuffled: seq<Tile>)
    requires s.cur < |s.players| && |indices| <= |s.bag| && IsShuffleOf(s, indices, shuffled) && NoPenalties(s.players)
    ensures var t, p, n := Exchanged(s, indices, shuffled), s.players[s.cur], |s.bag| - |indices|;
            var after := p.(timeouts := 0, hand := PickFrom(p.hand, indices, false, 0) + s.bag[n..]);
            && t == s.(players := s.players[s.cur := after], bag := shuffled) && NoPenalties(t.players)
            && multiset(shuffled) == multiset(s.bag[..n]) + multiset(PickFrom(p.hand, indices, true, 0))
  {
    SelectPicks(s.players[s.cur].hand, indices, false);
    SelectPicks(s.players[s.cur].hand, indices, true);
    hide Select, PickFrom;
  }

  lemma PassesOn(s: State)
    requires NoPenalties(s.players) && !s.finished && s.scoreless < 5
    ensures var t := ScorelessTurn(s);
            t == s.(cur := t.cur, turnNumber := s.turnNumber + 1, scoreless := s.scoreless + 1)
  {
    AdvanceWithoutPenalties(s.players, s.cur, s.asyncMode, |s.players|);
  }

  /**
   A pass while the game goes on: a missed deadline is counted, a pass of one's own clears the count, and nothing else
   of anybody changes.
   */
  lemma {:induction false} PassMoves(s: State, id: string, timeout: bool)
    requires PassTurn(s, id, timeout).Ok? && NoPenalties(s.players) && !s.finished && s.scoreless < 5
    ensures var t := PassTurn(s, id, timeout).value;
            && OnlyMoverChanges(s, t)
            && var p := s.players[s.cur];
               && t.players[s.cur] == p.(timeouts := if timeout then p.timeouts + 1 else 0)
               && t.bag == s.bag && t.scoreless == s.scoreless + 1 && t.grid == s.grid && t.rejected == s.rejected
  {
    var noted := Record(Noted(s, timeout), s.cur, PassMove, 0);
    hide ScorelessTurn;
    assert NoPenalties(noted.players);
    PassesOn(noted);
  }

  // ----- Votes -----

  // Every human at the table but the placer has voted.
  ghost predicate AllHaveVoted(s: State, votes: map<string, Vote>)
    requires s.pending.Some? && PendingSeated(s)
  {
    forall i :: 0 <= i < |s.players| && !s.players[i].isBot && s.players[i].id != PlacerId(s) ==>
      s.players[i].id in votes
  }

  /** A vote is recorded under its voter; it decides exactly when all the others have voted. */
  lemma {:induction false} LastVoteDecides(s: State, id: string, vote: Vote)
    requires PendingSeated(s) && CastVote(s, id, vote).Ok?
    ensures s.pending.Some?
    ensures var t, votes := CastVote(s, id, vote).value, s.pending.value.votes[id := vote];
            if AllHaveVoted(s, votes) then t.pending.None?
            else t == s.(pending := Some(s.pending.value.(votes := votes)))
  {
    var voted := Voted(s, id, vote);
    VerdictEndsWaiting(voted);
    assert AllVoted(voted.pending.value.votes, VotersOf(s.players, PlacerId(s)))
      <==> AllHaveVoted(s, s.pending.value.votes[id := vote]) by {
      VotersAre(s, voted.pending.value.votes);
    }
    hide FinalizeAccept, FinalizeReject, AllVoted, VotersOf, AllHaveVoted;
  }

  lemma VotersAre(s: State, votes: map<string, Vote>)
    requires s.pending.Some? && PendingSeated(s)
    ensures AllVoted(votes, VotersOf(s.players, PlacerId(s))) <==> AllHaveVoted(s, votes)
  {
    var voters := VotersOf(s.players, PlacerId(s));
    if AllVoted(votes, voters) {
      forall i | 0 <= i < |s.players| && !s.players[i].isBot && s.players[i].id != PlacerId(s)
        ensures s.players[i].id in votes
      {
        assert s.players[i].id in voters;
      }
    }
    if AllHaveVoted(s, votes) {
      forall id | id in voters ensures id in votes {
        var i :| 0 <= i < |s.players| && s.players[i].id != PlacerId(s) && !s.players[i].isBot && s.players[i].id == id;
      }
    }
  }

  lemma VerdictEndsWaiting(w: State)
    requires w.pending.Some? && PendingSeated(w)
    ensures FinalizeAccept(w).pending.None? && FinalizeReject(w).pending.None?
  {
  }

  // ----- Seats and connections -----

  // The first seat with the id.
  ghost predicate FirstWith(players: seq<Player>, id: string, i: nat) {
    i < |players| && players[i].id == id && forall k :: 0 <= k < i ==> players[k].id != id
  }

  lemma {:induction false} SeatOfIsFirst(players: seq<Player>, id: string, from: nat, i: nat)
    requires FirstWith(players, id, i) && from <= i
    ensures SeatOf(players, id, from) == Some(i)
    decreases i - from
  {
    if from < i {
      SeatOfIsFirst(players, id, from + 1, i);
    }
  }

  /** Who joins gets the last seat, with nothing in hand and no points. */
  lemma JoinSeats(s: State, id: string, name: string, isBot: bool)
    requires AddPlayer(s, id, name, isBot).Ok?
    ensures var t := AddPlayer(s, id, name, isBot).value;
            && |t.players| == |s.players| + 1 && t.players[..|s.players|] == s.players
            && t == s.(players := t.players)
            && var p := t.players[|s.players|];
               && p.id == id && p.name == name && p.isBot == isBot && p.hand == [] && p.score == 0 && p.timeouts == 0
               && !p.skipNextTurn && !p.disconnected && !p.resigned
  {
  }

  /** Losing the connection marks one seat, coming back gives it the new id; nobody else is touched. */
  lemma ConnectionsChange(s: State, id: string, newId: string, i: nat)
    requires FirstWith(s.players, id, i)
    ensures MarkDisconnected(s, id) == Ok(s.(players := s.players[i := s.players[i].(disconnected := true)]))
    ensures var t := ReplacePlayerSid(s, id, newId);
            && t.Ok? && t.value.players == s.players[i := s.players[i].(id := newId, disconnected := false)]
            && (s.pending.None? ==> t.value == s.(players := t.value.players, winners := t.value.winners))
  {
    SeatOfIsFirst(s.players, id, 0, i);
  }

  /** The vote of a player who comes back under a new id moves along, no other vote changes. */
  lemma VotesMove(s: State, id: string, newId: string)
    requires s.pending.Some? && ReplacePlayerSid(s, id, newId).Ok?
    ensures var t, votes := ReplacePlayerSid(s, id, newId).value, s.pending.value.votes;
            && t.pending.Some? && t.pending.value == s.pending.value.(votes := t.pending.value.votes)
            && (id !in votes ==> t.pending.value.votes == votes)
            && (id in votes ==> newId in t.pending.value.votes && t.pending.value.votes[newId] == votes[id])
            && (id in votes && id != newId ==> id !in t.pending.value.votes)
            && forall v :: v != id && v != newId ==>
                 && (v in t.pending.value.votes <==> v in votes)
                 && (v in votes ==> t.pending.value.votes[v] == votes[v])
  {
    hide SeatOf, Renamed;
  }

  /** The winners' records take the new id, too. */
  lemma WinnersRenamed(s: State, id: string, newId: string, k: nat)
    requires ReplacePlayerSid(s, id, newId).Ok? && k < |s.winners|
    ensures var t := ReplacePlayerSid(s, id, newId).value;
            && |t.winners| == |s.winners|
            && t.winners[k] == if s.winners[k].id == id then s.winners[k].(id := newId, disconnected := false)
                               else s.winners[k]
  {
    hide SeatOf, MovedVote;
  }

  /** The game waits for the leaver to move iff that is the player to move of a running game, and others stay. */
  lemma LeaverIsAwaited(s: State, id: string, i: nat)
    requires FirstWith(s.players, id, i)
    ensures RemovalNeedsTurn(s, id) <==> s.started && !s.finished && s.cur == i && |s.players| >= 2
  {
    SeatOfIsFirst(s.players, id, 0, i);
  }
}
