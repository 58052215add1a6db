/**
 What every operation of a game keeps. The invariant holds in a new game, and no action of a player, a
 voter, an administrator or the clock breaks it, in whatever order they come.
 */
module GameLaws {
  import opened Results
  import opened Tiles
  import opened Bags
  import opened Grids
  import opened BoardLaws
  import opened GameStates

  // ----- Hands -----

  lemma {:induction false} RemoveFirstSplits(hand: seq<Tile>, t: Tile)
    requires t in hand
    ensures multiset(RemoveFirst(hand, t)) + multiset{t} == multiset(hand)
    ensures |RemoveFirst(hand, t)| == |hand| - 1
  {
    assert hand == [hand[0]] + hand[1..];
    if hand[0] != t {
      RemoveFirstSplits(hand[1..], t);
    }
  }

  lemma HandTilesStep(tiles: seq<Placed>)
    requires tiles != []
    ensures HandTilesOf(tiles) == [tiles[0].HandTile()] + HandTilesOf(tiles[1..])
    ensures multiset(HandTilesOf(tiles)) == multiset{tiles[0].HandTile()} + multiset(HandTilesOf(tiles[1..]))
  {
    assert HandTilesOf(tiles) == [tiles[0].HandTile()] + HandTilesOf(tiles[1..]);
  }

  lemma MonusAdd(a: multiset<Tile>, b: multiset<Tile>, t: Tile)
    ensures a <= b <==> a + multiset{t} <= b + multiset{t}
  {
    if a + multiset{t} <= b + multiset{t} {
      forall x ensures a[x] <= b[x] {
        assert (a + multiset{t})[x] <= (b + multiset{t})[x];
      }
    }
  }

  /** Taking the tiles out one by one works exactly when the hand holds them all, with their multiplicities. */
  lemma {:induction false} HasTilesIffIncluded(hand: seq<Tile>, tiles: seq<Placed>)
    ensures HasTiles(hand, tiles) <==> multiset(HandTilesOf(tiles)) <= multiset(hand)
    ensures HasTiles(hand, tiles) ==>
              && multiset(RemoveTiles(hand, tiles)) + multiset(HandTilesOf(tiles)) == multiset(hand)
              && |RemoveTiles(hand, tiles)| == |hand| - |tiles|
    decreases |tiles|
  {
    if tiles != [] {
      var t := tiles[0].HandTile();
      HandTilesStep(tiles);
      if t in hand {
        RemoveFirstSplits(hand, t);
        HasTilesIffIncluded(RemoveFirst(hand, t), tiles[1..]);
        MonusAdd(multiset(HandTilesOf(tiles[1..])), multiset(RemoveFirst(hand, t)), t);
      } else {
        assert multiset(HandTilesOf(tiles))[t] > 0 && multiset(hand)[t] == 0;
      }
    }
  }

  // ----- The invariant -----

  // The tiles of a seat: the hand, and what is pending from it.
  ghost function Load(s: State, i: nat): nat
    requires i < |s.players|
  {
    |s.players[i].hand| + (if s.pending.Some? && s.pending.value.playerIdx == i then |s.pending.value.removed| else 0)
  }

  // The turn pointer is in range and a pending placement belongs to the player to move.
  ghost predicate SeatsOk(s: State) {
    && |s.players| <= MAX_PLAYERS
    && (s.players == [] ==> s.cur == 0 && s.pending.None?)
    && (s.players != [] ==> s.cur < |s.players|)
    && (s.pending.Some? ==> s.pending.value.playerIdx == s.cur)
  }

  ghost predicate NoAcceptedVote(log: seq<Entry>) {
    forall i :: 0 <= i < |log| ==> log[i].kind != AcceptMove
  }

  // A connected crossword around the centre without split digraphs; unless a vote let a word pass, every
  // word of the board is in the dictionary.
  ghost predicate BoardOk(rules: Rules, s: State) {
    && GridOk(s.grid) && Connected(s.grid) && NoSplitPairs(rules.letters, s.grid)
    && (s.boardEmpty <==> s.grid == map[])
    && (NoAcceptedVote(s.log) ==> AllWords(rules, s.grid))
    && (!s.challengeMode ==> NoAcceptedVote(s.log))
  }

  ghost predicate HandsAtMost(s: State) {
    forall i :: 0 <= i < |s.players| ==> |s.players[i].hand| <= HAND_SIZE && (!s.started ==> s.players[i].hand == [])
  }

  // At most seven tiles a seat, and exactly seven while the game runs and the bag has tiles.
  ghost predicate HandsOk(s: State) {
    forall i :: 0 <= i < |s.players| ==>
      && Load(s, i) <= HAND_SIZE
      && (s.started && !s.finished && s.bag != [] ==> Load(s, i) == HAND_SIZE)
      && (!s.started ==> s.players[i].hand == [])
  }

  // A pending placement stays a legal one, its score and its tiles are as they were checked.
  ghost predicate PendingOk(rules: Rules, s: State) {
    s.pending.Some? ==>
      var pc := s.pending.value;
      && s.started && !s.finished && s.challengeMode
      && pc.removed == HandTilesOf(pc.tiles)
      && Validate(rules, s.grid, s.boardEmpty, pc.tiles, true) == Ok(pc.formed)
      && pc.score == PlacementTotal(pc.formed, |pc.tiles|)
  }

  ghost predicate CountOk(s: State) {
    s.scoreless <= SCORELESS_TURNS_LIMIT && (!s.finished ==> s.scoreless < SCORELESS_TURNS_LIMIT)
  }

  ghost predicate NoPenalties(players: seq<Player>) {
    forall i :: 0 <= i < |players| ==> !players[i].skipNextTurn
  }

  ghost predicate Inv(rules: Rules, s: State) {
    && SeatsOk(s) && BoardOk(rules, s) && HandsOk(s) && PendingOk(rules, s) && CountOk(s) && NoPenalties(s.players)
  }

  /** A new game satisfies the invariant. */
  lemma NewGameInv(rules: Rules, bag: seq<Tile>, challengeMode: bool, asyncMode: bool, puzzle: Option<Puzzle>)
    ensures Inv(rules, NewGame(bag, challengeMode, asyncMode, puzzle))
  {
  }

  // ----- The building blocks -----

  lemma {:induction false} AdvanceWithoutPenalties(players: seq<Player>, cur: nat, asyncMode: bool, steps: nat)
    requires NoPenalties(players) && (players != [] || steps == 0)
    ensures Advance(players, cur, asyncMode, steps).0 == players
    decreases steps
  {
    if steps > 0 {
      AdvanceWithoutPenalties(players, (cur + 1) % |players|, asyncMode, steps - 1);
    }
  }

  lemma NextTurnInv(rules: Rules, s: State)
    requires Inv(rules, s) && s.pending.None?
    ensures Inv(rules, NextTurn(s)) && NextTurn(s).players == s.players
  {
    AdvanceWithoutPenalties(s.players, s.cur, s.asyncMode, |s.players|);
  }

  // Only names, scores, connections and time-outs of the players differ.
  ghost predicate SameHands(a: seq<Player>, b: seq<Player>) {
    |a| == |b| && forall i :: 0 <= i < |a| ==> a[i].hand == b[i].hand && a[i].skipNextTurn == b[i].skipNextTurn
  }

  lemma SameHandsInv(rules: Rules, s: State, players: seq<Player>)
    requires Inv(rules, s) && SameHands(s.players, players)
    ensures Inv(rules, s.(players := players))
  {
    var after := s.(players := players);
    forall i | 0 <= i < |players| ensures Load(after, i) == Load(s, i) && !players[i].skipNextTurn {
      assert !s.players[i].skipNextTurn;
    }
  }

  lemma SettledHands(players: seq<Player>, finisher: Option<nat>)
    requires finisher.Some? ==> finisher.value < |players|
    ensures SameHands(players, Settled(players, finisher))
  {
  }

  // A game without a pending placement may end at any time.
  lemma FinishedInv(rules: Rules, s: State)
    requires SeatsOk(s) && BoardOk(rules, s) && HandsAtMost(s) && NoPenalties(s.players) && s.pending.None?
    requires s.finished && s.scoreless <= SCORELESS_TURNS_LIMIT
    ensures Inv(rules, s)
  {
  }

  // The invariant does not depend on who won.
  lemma WinnersInv(rules: Rules, s: State, winners: seq<Player>)
    requires Inv(rules, s)
    ensures Inv(rules, s.(winners := winners))
  {
    var after := s.(winners := winners);
    forall i | 0 <= i < |s.players| ensures Load(after, i) == Load(s, i) {
    }
  }

  lemma EndGameInv(rules: Rules, s: State, finisher: Option<nat>)
    requires SeatsOk(s.(pending := None)) && BoardOk(rules, s) && HandsAtMost(s) && NoPenalties(s.players)
    requires s.scoreless <= SCORELESS_TURNS_LIMIT
    requires finisher.Some? ==> finisher.value < |s.players|
    ensures Inv(rules, EndGame(s, finisher))
  {
    var bare := s.(finished := true, pending := None);
    var players := Settled(s.players, finisher);
    FinishedInv(rules, bare);
    SettledHands(s.players, finisher);
    hide Inv, Settled, SameHands;
    SameHandsInv(rules, bare, players);
    WinnersInv(rules, bare.(players := players), WithScore(players, TopScore(players)));
  }

  lemma InvHands(rules: Rules, s: State)
    requires Inv(rules, s)
    ensures HandsAtMost(s) && SeatsOk(s.(pending := None))
  {
    forall i | 0 <= i < |s.players|
      ensures |s.players[i].hand| <= HAND_SIZE && (!s.started ==> s.players[i].hand == [])
    {
      assert Load(s, i) <= HAND_SIZE;
    }
  }

  lemma RecordInv(rules: Rules, s: State, idx: nat, kind: Kind, score: int)
    requires Inv(rules, s) && idx < |s.players| && kind != AcceptMove
    ensures Inv(rules, Record(s, idx, kind, score))
  {
    var after := Record(s, idx, kind, score);
    if NoAcceptedVote(after.log) {
      forall i | 0 <= i < |s.log| ensures s.log[i].kind != AcceptMove {
        assert after.log[i] == s.log[i];
      }
    }
  }

  lemma RegisterScorelessInv(rules: Rules, s: State)
    requires Inv(rules, s) && s.pending.None? && !s.finished
    ensures Inv(rules, RegisterScoreless(s))
  {
    InvHands(rules, s);
    var counted := s.(scoreless := s.scoreless + 1);
    if counted.scoreless >= SCORELESS_TURNS_LIMIT {
      EndGameInv(rules, counted, None);
    }
  }

  lemma ScorelessTurnInv(rules: Rules, s: State)
    requires Inv(rules, s) && s.pending.None? && !s.finished
    ensures Inv(rules, ScorelessTurn(s))
  {
    RegisterScorelessInv(rules, s);
    if s.scoreless + 1 < SCORELESS_TURNS_LIMIT {
      NextTurnInv(rules, RegisterScoreless(s));
    }
  }

  // What an accepted placement does to the board.
  lemma PlacementKeepsBoard(rules: Rules, s: State, tiles: seq<Placed>, skipDictionary: bool)
    requires BoardOk(rules, s) && Validate(rules, s.grid, s.boardEmpty, tiles, skipDictionary).Ok?
    ensures var after := With(s.grid, tiles);
            && GridOk(after) && Connected(after) && NoSplitPairs(rules.letters, after) && after != map[]
            && (!skipDictionary && NoAcceptedVote(s.log) ==> AllWords(rules, after))
  {
    ValidateIffLegal(rules, s.grid, s.boardEmpty, tiles, skipDictionary);
    ConnectedKept(s.grid, s.boardEmpty, tiles);
    NoSplitPairsKept(rules.letters, s.grid, tiles);
    if !skipDictionary && NoAcceptedVote(s.log) {
      AllWordsKept(rules, s.grid, tiles);
    }
  }

  lemma RefillFills(hand: seq<Tile>, bag: seq<Tile>)
    requires |hand| <= HAND_SIZE
    ensures |hand + Drawn(bag, Refill(hand))| <= HAND_SIZE
    ensures LeftAfter(bag, Refill(hand)) != [] ==> |hand + Drawn(bag, Refill(hand))| == HAND_SIZE && bag != []
  {
    DrawSplits(bag, Refill(hand));
  }

  // The board after a placement is booked; only an accepted vote may have let an unknown word pass.
  lemma CommitBoard(rules: Rules, s: State, hand: seq<Tile>, timeouts: nat, tiles: seq<Placed>, score: int, kind: Kind)
    requires BoardOk(rules, s) && s.cur < |s.players|
    requires Validate(rules, s.grid, s.boardEmpty, tiles, kind == AcceptMove).Ok?
    requires kind == AcceptMove ==> s.challengeMode
    ensures BoardOk(rules, Commit(s, s.cur, hand, timeouts, tiles, score, kind))
  {
    var after := Commit(s, s.cur, hand, timeouts, tiles, score, kind);
    PlacementKeepsBoard(rules, s, tiles, kind == AcceptMove);
    hide Validate, With, AllWords, NoSplitPairs, Connected;
    assert after.log[|s.log|].kind == kind;
    if NoAcceptedVote(after.log) {
      forall i | 0 <= i < |s.log| ensures s.log[i].kind != AcceptMove {
        assert after.log[i] == s.log[i];
      }
    }
  }

  // The mover's hand is filled up, the other hands stay.
  lemma CommitHands(s: State, hand: seq<Tile>, timeouts: nat, tiles: seq<Placed>, score: int, kind: Kind)
    requires SeatsOk(s) && HandsOk(s) && NoPenalties(s.players)
    requires s.started && !s.finished && s.cur < |s.players| && |hand| <= HAND_SIZE
    ensures var after := Commit(s, s.cur, hand, timeouts, tiles, score, kind);
            HandsOk(after) && NoPenalties(after.players)
  {
    var after := Commit(s, s.cur, hand, timeouts, tiles, score, kind);
    RefillFills(hand, s.bag);
    forall i | 0 <= i < |after.players| && i != s.cur
      ensures after.players[i] == s.players[i] && Load(after, i) == Load(s, i)
    {
    }
  }

  lemma CommitInv(rules: Rules, s: State, hand: seq<Tile>, timeouts: nat, tiles: seq<Placed>, score: int, kind: Kind)
    requires Inv(rules, s) && s.started && !s.finished && s.cur < |s.players| && |hand| <= HAND_SIZE
    requires Validate(rules, s.grid, s.boardEmpty, tiles, kind == AcceptMove).Ok?
    requires kind == AcceptMove ==> s.challengeMode
    ensures Inv(rules, Commit(s, s.cur, hand, timeouts, tiles, score, kind))
  {
    CommitBoard(rules, s, hand, timeouts, tiles, score, kind);
    CommitHands(s, hand, timeouts, tiles, score, kind);
    hide BoardOk, HandsOk, Validate, NoPenalties;
  }

  lemma AfterCommitInv(rules: Rules, s: State, idx: nat)
    requires Inv(rules, s) && s.pending.None? && idx < |s.players|
    ensures Inv(rules, AfterCommit(s, idx))
  {
    InvHands(rules, s);
    if s.players[idx].hand == [] && s.bag == [] {
      EndGameInv(rules, s, Some(idx));
    } else {
      NextTurnInv(rules, s);
    }
  }

  lemma ReturnTilesInv(rules: Rules, s: State)
    requires Inv(rules, s) && s.pending.Some?
    ensures Inv(rules, ReturnTiles(s))
  {
    var after := ReturnTiles(s);
    forall i | 0 <= i < |after.players|
      ensures Load(after, i) == Load(s, i) && after.players[i].skipNextTurn == s.players[i].skipNextTurn
    {
    }
  }

  // ----- The operations -----

  lemma PlaceTilesInv(rules: Rules, s: State, id: string, tiles: seq<Placed>)
    requires Inv(rules, s) && PlaceTiles(rules, s, id, tiles).Ok?
    ensures Inv(rules, PlaceTiles(rules, s, id, tiles).value)
  {
    var p := s.players[s.cur];
    var challenged := ChallengeApplies(s.challengeMode, s.players, s.cur);
    var formed := Validate(rules, s.grid, s.boardEmpty, tiles, challenged).value;
    HasTilesIffIncluded(p.hand, tiles);
    assert tiles != [];
    assert Load(s, s.cur) == |p.hand|;
    if challenged {
      SuspendInv(rules, s, tiles, formed);
    } else {
      FinalizePlacementInv(rules, s, tiles, PlacementTotal(formed, |tiles|));
    }
  }

  lemma SuspendInv(rules: Rules, s: State, tiles: seq<Placed>, formed: seq<FormedWord>)
    requires Inv(rules, s) && s.started && !s.finished && s.challengeMode && s.pending.None? && s.cur < |s.players|
    requires HasTiles(s.players[s.cur].hand, tiles) && Validate(rules, s.grid, s.boardEmpty, tiles, true) == Ok(formed)
    ensures Inv(rules, Suspend(s, tiles, formed))
  {
    HasTilesIffIncluded(s.players[s.cur].hand, tiles);
    var after := Suspend(s, tiles, formed);
    forall i | 0 <= i < |after.players|
      ensures Load(after, i) == Load(s, i) && after.players[i].skipNextTurn == s.players[i].skipNextTurn
    {
    }
  }

  lemma FinalizePlacementInv(rules: Rules, s: State, tiles: seq<Placed>, score: int)
    requires Inv(rules, s) && s.started && !s.finished && s.pending.None? && s.cur < |s.players|
    requires HasTiles(s.players[s.cur].hand, tiles) && Validate(rules, s.grid, s.boardEmpty, tiles, false).Ok?
    ensures Inv(rules, FinalizePlacement(s, tiles, score))
  {
    var hand := RemoveTiles(s.players[s.cur].hand, tiles);
    HasTilesIffIncluded(s.players[s.cur].hand, tiles);
    assert Load(s, s.cur) == |s.players[s.cur].hand|;
    CommitInv(rules, s, hand, 0, tiles, score, PlaceMove);
    var after := Commit(s, s.cur, hand, 0, tiles, score, PlaceMove);
    if s.puzzle.Some? {
      var ended := FinalizePlacement(s, tiles, score);
      forall i | 0 <= i < |ended.players| ensures Load(ended, i) == Load(after, i) {
      }
    } else {
      AfterCommitInv(rules, after, s.cur);
    }
  }

  lemma FinalizeAcceptInv(rules: Rules, s: State)
    requires Inv(rules, s) && s.pending.Some?
    ensures Inv(rules, FinalizeAccept(s))
  {
    var pc := s.pending.value;
    var p := s.players[pc.playerIdx];
    assert Load(s, pc.playerIdx) <= HAND_SIZE;
    CommitInv(rules, s, p.hand, p.timeouts, pc.tiles, pc.score, AcceptMove);
    AfterCommitInv(rules, Commit(s, pc.playerIdx, p.hand, p.timeouts, pc.tiles, pc.score, AcceptMove), pc.playerIdx);
  }

  lemma FinalizeRejectInv(rules: Rules, s: State)
    requires Inv(rules, s) && s.pending.Some?
    ensures Inv(rules, FinalizeReject(s))
  {
    var pc := s.pending.value;
    ReturnTilesInv(rules, s);
    var returned := ReturnTiles(s).(rejected := s.rejected + {multiset(pc.tiles)});
    assert Inv(rules, returned) by {
      forall i | 0 <= i < |returned.players| ensures Load(returned, i) == Load(ReturnTiles(s), i) {
      }
    }
    RecordInv(rules, returned, pc.playerIdx, RejectMove, 0);
    var recorded := Record(returned, pc.playerIdx, RejectMove, 0);
    RegisterScorelessInv(rules, recorded);
    if s.scoreless + 1 < SCORELESS_TURNS_LIMIT && s.players[pc.playerIdx].disconnected {
      NextTurnInv(rules, RegisterScoreless(recorded));
    }
  }

  lemma ResolveInv(rules: Rules, s: State)
    requires Inv(rules, s) && s.pending.Some?
    ensures Inv(rules, ResolveAndFinalize(s))
  {
    FinalizeAcceptInv(rules, s);
    FinalizeRejectInv(rules, s);
  }

  lemma VotesInv(rules: Rules, s: State, votes: map<string, Vote>)
    requires Inv(rules, s) && s.pending.Some?
    ensures Inv(rules, s.(pending := Some(s.pending.value.(votes := votes))))
  {
    var voted := s.(pending := Some(s.pending.value.(votes := votes)));
    forall i | 0 <= i < |voted.players| ensures Load(voted, i) == Load(s, i) {
    }
  }

  lemma CastVoteLeads(s: State, id: string, vote: Vote)
    requires PendingSeated(s) && CastVote(s, id, vote).Ok?
    ensures s.pending.Some?
    ensures CastVote(s, id, vote).value in {Voted(s, id, vote), ResolveAndFinalize(Voted(s, id, vote))}
  {
  }

  lemma CastVoteInv(rules: Rules, s: State, id: string, vote: Vote)
    requires Inv(rules, s) && CastVote(s, id, vote).Ok?
    ensures Inv(rules, CastVote(s, id, vote).value)
  {
    CastVoteLeads(s, id, vote);
    var voted, next := Voted(s, id, vote), CastVote(s, id, vote).value;
    VotesInv(rules, s, s.pending.value.votes[id := vote]);
    if next != voted {
      ResolveInv(rules, voted);
    }
  }

  lemma JoinOne(kept: seq<Tile>, given: seq<Tile>, hand: seq<Tile>, t: Tile)
    requires multiset(kept) + multiset(given) == multiset(hand)
    ensures multiset(kept + [t]) + multiset(given) == multiset(hand + [t])
    ensures multiset(kept) + multiset(given + [t]) == multiset(hand + [t])
  {
    assert multiset(kept + [t]) == multiset(kept) + multiset{t};
    assert multiset(given + [t]) == multiset(given) + multiset{t};
    assert multiset(hand + [t]) == multiset(hand) + multiset{t};
  }

  lemma {:induction false} SelectSplits(hand: seq<Tile>, indices: seq<int>)
    ensures multiset(Select(hand, indices, false)) + multiset(Select(hand, indices, true)) == multiset(hand)
  {
    if hand != [] {
      var n := |hand| - 1;
      var front := hand[..n];
      SelectSplits(front, indices);
      SelectsOne(hand, indices);
      assert hand == front + [hand[n]];
      JoinOne(Select(front, indices, false), Select(front, indices, true), front, hand[n]);
    }
  }

  lemma SelectSizes(hand: seq<Tile>, indices: seq<int>)
    ensures |Select(hand, indices, false)| + |Select(hand, indices, true)| == |hand|
  {
    SelectSplits(hand, indices);
    assert |multiset(Select(hand, indices, false)) + multiset(Select(hand, indices, true))| == |multiset(hand)|;
  }

  // The last tile of a hand goes to one side or the other.
  lemma SelectsOne(hand: seq<Tile>, indices: seq<int>)
    requires hand != []
    ensures var n, selected := |hand| - 1, |hand| - 1 in indices;
            && Select(hand, indices, selected) == Select(hand[..n], indices, selected) + [hand[n]]
            && Select(hand, indices, !selected) == Select(hand[..n], indices, !selected)
  {
  }

  ghost function IndexSet(indices: seq<int>, n: nat): set<int> {
    set i | 0 <= i < n && i in indices
  }

  lemma {:induction false} SelectCounts(hand: seq<Tile>, indices: seq<int>)
    ensures |Select(hand, indices, true)| == |IndexSet(indices, |hand|)|
  {
    if hand != [] {
      var n := |hand| - 1;
      SelectCounts(hand[..n], indices);
      assert IndexSet(indices, |hand|) == IndexSet(indices, n) + (if n in indices then {n} else {});
    } else {
      assert IndexSet(indices, 0) == {};
    }
  }

  lemma {:induction false} DistinctSetSize(indices: seq<int>, n: nat)
    requires NoDuplicates(indices) && forall k :: 0 <= k < |indices| ==> 0 <= indices[k] < n
    ensures |IndexSet(indices, n)| == |indices|
  {
    if indices == [] {
      assert IndexSet(indices, n) == {};
    } else {
      var front, last := indices[..|indices| - 1], indices[|indices| - 1];
      DistinctSetSize(front, n);
      assert indices == front + [last];
      assert IndexSet(indices, n) == IndexSet(front, n) + {last};
      assert last !in front;
    }
  }

  // As many tiles are given back as are drawn.
  lemma ExchangeCounts(hand: seq<Tile>, indices: seq<int>, bag: seq<Tile>)
    requires NoDuplicates(indices) && (forall k :: 0 <= k < |indices| ==> 0 <= indices[k] < |hand|)
             && |indices| <= |bag|
    ensures |Select(hand, indices, true)| == |indices|
    ensures |Select(hand, indices, false) + Drawn(bag, |indices|)| == |hand|
  {
    SelectCounts(hand, indices);
    DistinctSetSize(indices, |hand|);
    SelectSplits(hand, indices);
    SelectSizes(hand, indices);
    DrawSplits(bag, |indices|);
  }

  lemma ExchangeTilesInv(rules: Rules, s: State, id: string, indices: seq<int>, shuffled: seq<Tile>)
    requires Inv(rules, s) && ExchangeTiles(s, id, indices, shuffled).Ok?
    ensures Inv(rules, ExchangeTiles(s, id, indices, shuffled).value)
  {
    ExchangedInv(rules, s, indices, shuffled);
    var exchanged := Exchanged(s, indices, shuffled);
    RecordInv(rules, exchanged, s.cur, ExchangeMove, 0);
    ScorelessTurnInv(rules, Record(exchanged, s.cur, ExchangeMove, 0));
  }

  lemma ExchangedInv(rules: Rules, s: State, indices: seq<int>, shuffled: seq<Tile>)
    requires Inv(rules, s) && s.pending.None? && s.cur < |s.players| && NoDuplicates(indices) && indices != []
    requires forall k :: 0 <= k < |indices| ==> 0 <= indices[k] < |s.players[s.cur].hand|
    requires |indices| <= |s.bag|
    ensures Inv(rules, Exchanged(s, indices, shuffled))
  {
    var p := s.players[s.cur];
    ExchangeCounts(p.hand, indices, s.bag);
    var exchanged := Exchanged(s, indices, shuffled);
    forall i | 0 <= i < |exchanged.players|
      ensures Load(exchanged, i) == Load(s, i) && exchanged.players[i].skipNextTurn == s.players[i].skipNextTurn
    {
    }
    assert 0 <= indices[0] < |p.hand|;
  }

  lemma PassTurnInv(rules: Rules, s: State, id: string, timeout: bool)
    requires Inv(rules, s) && PassTurn(s, id, timeout).Ok?
    ensures Inv(rules, PassTurn(s, id, timeout).value)
  {
    var noted := Noted(s, timeout);
    SameHandsInv(rules, s, noted.players);
    RecordInv(rules, noted, s.cur, PassMove, 0);
    ScorelessTurnInv(rules, Record(noted, s.cur, PassMove, 0));
  }

  lemma GivenUpFits(rules: Rules, s: State, idx: nat)
    requires Inv(rules, s) && idx < |s.players|
    ensures var t := GivenUp(s, idx);
            && SeatsOk(t) && BoardOk(rules, t) && HandsAtMost(t) && NoPenalties(t.players)
            && t.scoreless <= SCORELESS_TURNS_LIMIT
  {
    var players := s.players[idx := s.players[idx].(resigned := true)];
    SameHandsInv(rules, s, players);
    InvHands(rules, s.(players := players));
  }

  lemma ResignInv(rules: Rules, s: State, id: string)
    requires Inv(rules, s) && Resign(s, id).Ok?
    ensures Inv(rules, Resign(s, id).value)
  {
    var idx := SeatOf(s.players, id, 0).value;
    GivenUpFits(rules, s, idx);
    hide Inv;
    var ended := EndGame(GivenUp(s, idx), None);
    EndGameInv(rules, GivenUp(s, idx), None);
    WinnersInv(rules, ended, Crowned(ended).winners);
    assert ended.(winners := ended.winners) == ended;
  }

  lemma ExpireTurnInv(rules: Rules, s: State)
    requires Inv(rules, s) && ExpireTurn(s).Ok?
    ensures Inv(rules, ExpireTurn(s).value)
  {
    var id := s.players[s.cur].id;
    PassTurnInv(rules, s, id, true);
    var passed := PassTurn(s, id, true).value;
    if Resign(passed, id).Ok? {
      ResignInv(rules, passed, id);
    }
  }

  lemma ForceEndInv(rules: Rules, s: State)
    requires Inv(rules, s) && ForceEnd(s).Ok?
    ensures Inv(rules, ForceEnd(s).value)
  {
    if s.pending.Some? {
      ReturnTilesInv(rules, s);
    }
    var returned := if s.pending.Some? then ReturnTiles(s) else s;
    InvHands(rules, returned);
    EndGameInv(rules, returned, None);
  }

  lemma {:induction false} DealtHandsFacts(players: seq<Player>, bag: seq<Tile>, n: nat)
    requires n <= |players|
    ensures var (dealt, left) := DealtHands(players, bag, n);
            && |dealt| == |players|
            && (forall i :: 0 <= i < |players| ==> dealt[i] == players[i].(hand := dealt[i].hand))
            && (forall i :: 0 <= i < n ==>
                  |dealt[i].hand| <= HAND_SIZE && (left != [] ==> |dealt[i].hand| == HAND_SIZE))
            && (forall i :: n <= i < |players| ==> dealt[i] == players[i])
    decreases n
  {
    if n > 0 {
      DealtHandsFacts(players, bag, n - 1);
      DrawSplits(DealtHands(players, bag, n - 1).1, HAND_SIZE);
    }
  }

  lemma StartInv(rules: Rules, s: State)
    requires Inv(rules, s) && Start(s).Ok?
    ensures Inv(rules, Start(s).value)
  {
    DealtHandsFacts(s.players, s.bag, |s.players|);
  }

  lemma AddPlayerInv(rules: Rules, s: State, id: string, name: string, isBot: bool)
    requires Inv(rules, s) && AddPlayer(s, id, name, isBot).Ok?
    ensures Inv(rules, AddPlayer(s, id, name, isBot).value)
  {
    var after := AddPlayer(s, id, name, isBot).value;
    forall i | 0 <= i < |s.players| ensures Load(after, i) == Load(s, i) && after.players[i] == s.players[i] {
    }
  }

  lemma MarkDisconnectedInv(rules: Rules, s: State, id: string)
    requires Inv(rules, s) && MarkDisconnected(s, id).Ok?
    ensures Inv(rules, MarkDisconnected(s, id).value)
  {
    SameHandsInv(rules, s, MarkDisconnected(s, id).value.players);
  }

  lemma ReplacePlayerSidInv(rules: Rules, s: State, oldId: string, newId: string)
    requires Inv(rules, s) && ReplacePlayerSid(s, oldId, newId).Ok?
    ensures Inv(rules, ReplacePlayerSid(s, oldId, newId).value)
  {
    var after := ReplacePlayerSid(s, oldId, newId).value;
    SameHandsInv(rules, s, after.players);
    if s.pending.Some? {
      VotesInv(rules, s.(players := after.players), MovedVote(s.pending.value.votes, oldId, newId));
    }
  }

  // Which seat a remaining player had before.
  ghost function SeatBefore(idx: nat, i: nat): nat {
    if i < idx then i else i + 1
  }

  lemma RemovalShifts(s: State, idx: nat)
    requires SeatsOk(s) && idx < |s.players|
    ensures |RemoveSeat(s, idx).players| == |s.players| - 1
    ensures forall i :: 0 <= i < |s.players| - 1 ==> RemoveSeat(s, idx).players[i] == s.players[SeatBefore(idx, i)]
  {
  }

  lemma RemovalSeats(s: State, idx: nat)
    requires SeatsOk(s) && idx < |s.players|
    ensures SeatsOk(RemoveSeat(s, idx))
    ensures RemoveSeat(s, idx).pending.Some? ==>
              && s.pending.Some? && SeatBefore(idx, RemoveSeat(s, idx).cur) == s.cur
              && RemoveSeat(s, idx).pending.value == s.pending.value.(playerIdx := RemoveSeat(s, idx).cur)
    ensures RemoveSeat(s, idx).pending.None? <==> s.pending.None? || s.cur == idx
  {
  }

  lemma RemovalLoads(s: State, idx: nat, i: nat)
    requires SeatsOk(s) && idx < |s.players| && i < |s.players| - 1
    ensures |RemoveSeat(s, idx).players| == |s.players| - 1
    ensures Load(RemoveSeat(s, idx), i) == Load(s, SeatBefore(idx, i))
    ensures RemoveSeat(s, idx).players[i] == s.players[SeatBefore(idx, i)]
  {
    RemovalShifts(s, idx);
    RemovalSeats(s, idx);
  }

  // The turn stays with its player; when that one leaves, it passes to the following seat.
  lemma RemovalPointer(s: State, idx: nat)
    requires SeatsOk(s) && idx < |s.players|
    ensures idx != s.cur ==> SeatBefore(idx, RemoveSeat(s, idx).cur) == s.cur
    ensures idx == s.cur && |s.players| > 1 ==>
              SeatBefore(idx, RemoveSeat(s, idx).cur) == if s.cur + 1 < |s.players| then s.cur + 1 else 0
  {
  }

  /** Whoever leaves, the invariant holds, the others keep their order, and the turn stays with its player. */
  lemma RemoveSeatInv(rules: Rules, s: State, idx: nat)
    requires Inv(rules, s) && idx < |s.players|
    ensures Inv(rules, RemoveSeat(s, idx))
    ensures |RemoveSeat(s, idx).players| == |s.players| - 1
    ensures forall i :: 0 <= i < |s.players| - 1 ==> RemoveSeat(s, idx).players[i] == s.players[SeatBefore(idx, i)]
    ensures idx != s.cur ==> SeatBefore(idx, RemoveSeat(s, idx).cur) == s.cur
    ensures idx == s.cur && |s.players| > 1 ==>
              SeatBefore(idx, RemoveSeat(s, idx).cur) == if s.cur + 1 < |s.players| then s.cur + 1 else 0
  {
    RemovalPointer(s, idx);
    RemovalSeats(s, idx);
    RemovalShifts(s, idx);
    forall i: nat | i < |s.players| - 1
      ensures Load(RemoveSeat(s, idx), i) == Load(s, SeatBefore(idx, i))
    {
      RemovalLoads(s, idx, i);
    }
  }

  // The lobby and the connections.
  lemma SeatActionInv(rules: Rules, s: State, a: Action)
    requires Inv(rules, s) && Attempt(rules, s, a).Ok?
    requires a.Join? || a.Begin? || a.Disconnect? || a.Reconnect? || a.Leave? || a.SkipDisconnected?
    ensures Inv(rules, Apply(rules, s, a))
  {
    match a
    case Join(id, name, isBot) => AddPlayerInv(rules, s, id, name, isBot);
    case Begin => StartInv(rules, s);
    case Disconnect(id) => MarkDisconnectedInv(rules, s, id);
    case Reconnect(oldId, newId) => ReplacePlayerSidInv(rules, s, oldId, newId);
    case Leave(id) => RemoveSeatInv(rules, s, SeatOf(s.players, id, 0).value);
    case SkipDisconnected => NextTurnInv(rules, s);
  }

  // Placements, and what becomes of pending ones.
  lemma PlacementActionInv(rules: Rules, s: State, a: Action)
    requires Inv(rules, s) && Attempt(rules, s, a).Ok?
    requires a.Place? || a.CastVoteBy? || a.Withdraw? || a.VoteTimeout? || a.ForceVerdict?
    ensures Inv(rules, Apply(rules, s, a))
  {
    match a
    case Place(id, tiles) => PlaceTilesInv(rules, s, id, tiles);
    case CastVoteBy(id, vote) => CastVoteInv(rules, s, id, vote);
    case Withdraw(id) => ReturnTilesInv(rules, s);
    case VoteTimeout => ResolveInv(rules, s);
    case ForceVerdict(accept) =>
      if accept {
        FinalizeAcceptInv(rules, s);
      } else {
        FinalizeRejectInv(rules, s);
      }
  }

  // Turns without a placement, resignation and the forced end.
  lemma TurnActionInv(rules: Rules, s: State, a: Action)
    requires Inv(rules, s) && Attempt(rules, s, a).Ok?
    requires a.Exchange? || a.Pass? || a.Expire? || a.GiveUp? || a.ForceFinish?
    ensures Inv(rules, Apply(rules, s, a))
  {
    hide Inv, ExchangeTiles, PassTurn, ExpireTurn, Resign, ForceEnd;
    match a
    case Exchange(id, indices, shuffled) => ExchangeTilesInv(rules, s, id, indices, shuffled);
    case Pass(id, byAdmin) => PassTurnInv(rules, s, id, byAdmin && s.asyncMode);
    case Expire => ExpireTurnInv(rules, s);
    case GiveUp(id) => ResignInv(rules, s, id);
    case ForceFinish => ForceEndInv(rules, s);
  }

  /** No action, whoever takes it and whenever it comes, breaks the invariant. */
  lemma ApplyInv(rules: Rules, s: State, a: Action)
    requires Inv(rules, s)
    ensures Inv(rules, Apply(rules, s, a))
  {
    assert PendingSeated(s);
    hide Inv;
    if Attempt(rules, s, a).Ok? {
      hide Attempt;
      if a.Exchange? || a.Pass? || a.Expire? || a.GiveUp? || a.ForceFinish? {
        TurnActionInv(rules, s, a);
      } else if a.Place? || a.CastVoteBy? || a.Withdraw? || a.VoteTimeout? || a.ForceVerdict? {
        PlacementActionInv(rules, s, a);
      } else {
        SeatActionInv(rules, s, a);
      }
    }
  }

  // ----- Whole runs -----

  /** The state a run of actions leads to from a state that satisfies the invariant. */
  ghost function Play(rules: Rules, s: State, actions: seq<Action>): (t: State)
    requires Inv(rules, s)
    ensures Inv(rules, t)
  {
    if actions == [] then s
    else
      var before := Play(rules, s, actions[..|actions| - 1]);
      ApplyInv(rules, before, actions[|actions| - 1]);
      Apply(rules, before, actions[|actions| - 1])
  }
}
