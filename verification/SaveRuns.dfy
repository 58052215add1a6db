/** Saving and restoring in whole runs: every game that is played with the letters of the alphabet comes back. */
module SaveRuns {
  import opened Results
  import opened Tiles
  import opened Bags
  import opened Grids
  import opened GameStates
  import opened GameLaws
  import opened Ledger
  import opened Runs
  import opened Saves
  import opened SaveLaws
  import opened Turns
  import opened Winners

  // The letters laid down, also those chosen for blanks, are letters of the distribution.
  predicate KnownLetters(tiles: seq<Placed>) {
    forall i :: 0 <= i < |tiles| ==> Known(tiles[i].letter)
  }

  ghost predicate KnownGrid(g: Grid) {
    forall p :: p in g ==> Known(g[p].letter)
  }

  // So is every letter on the board or about to come there.
  ghost predicate Lettered(s: State) {
    KnownGrid(s.grid) && (s.pending.Some? ==> KnownLetters(s.pending.value.tiles))
  }

  lemma {:induction false} WithKnown(g: Grid, tiles: seq<Placed>)
    requires KnownGrid(g) && KnownLetters(tiles)
    ensures KnownGrid(With(g, tiles))
  {
    if tiles != [] {
      WithKnown(g, tiles[..|tiles| - 1]);
    }
  }

  // Nothing comes on the board, and nothing new is pending.
  ghost predicate SameBoard(s: State, next: State) {
    && next.grid == s.grid
    && (next.pending.Some? ==> s.pending.Some? && next.pending.value.tiles == s.pending.value.tiles)
  }

  lemma LeaveKeepsBoard(s: State, idx: nat)
    requires idx < |s.players|
    ensures SameBoard(s, RemoveSeat(s, idx))
  {
  }

  lemma ReconnectKeepsBoard(s: State, oldId: string, newId: string)
    requires ReplacePlayerSid(s, oldId, newId).Ok?
    ensures SameBoard(s, ReplacePlayerSid(s, oldId, newId).value)
  {
    hide SeatOf, Renamed, MovedVote;
  }

  lemma ConnectionKeepsBoard(rules: Rules, s: State, a: Action)
    requires PendingSeated(s) && Attempt(rules, s, a).Ok? && (a.Disconnect? || a.Reconnect? || a.Leave?)
    ensures SameBoard(s, Apply(rules, s, a))
  {
    hide ReplacePlayerSid, RemoveSeat;
    match a
    case Disconnect(_) =>
    case Reconnect(oldId, newId) => ReconnectKeepsBoard(s, oldId, newId);
    case Leave(id) => LeaveKeepsBoard(s, SeatOf(s.players, id, 0).value);
  }

  lemma RoomKeepsBoard(rules: Rules, s: State, a: Action)
    requires PendingSeated(s) && (a.Join? || a.Begin? || a.SkipDisconnected? || a.Withdraw?)
    ensures SameBoard(s, Apply(rules, s, a))
  {
    hide Advance, DealtHands, SeatOf;
  }

  lemma ScorelessKeepsBoard(s: State)
    ensures SameBoard(s, ScorelessTurn(s))
  {
    hide Advance, Settled, WithScore;
  }

  lemma PassKeepsBoard(s: State, id: string, timeout: bool)
    requires PassTurn(s, id, timeout).Ok?
    ensures SameBoard(s, PassTurn(s, id, timeout).value)
  {
    ScorelessKeepsBoard(Record(Noted(s, timeout), s.cur, PassMove, 0));
    hide ScorelessTurn;
  }

  lemma ExchangeKeepsBoard(s: State, id: string, indices: seq<int>, shuffled: seq<Tile>)
    requires ExchangeTiles(s, id, indices, shuffled).Ok?
    ensures SameBoard(s, ExchangeTiles(s, id, indices, shuffled).value)
  {
    ScorelessKeepsBoard(Record(Exchanged(s, indices, shuffled), s.cur, ExchangeMove, 0));
    hide ScorelessTurn;
  }

  lemma ResignKeepsBoard(s: State, id: string)
    requires Resign(s, id).Ok?
    ensures SameBoard(s, Resign(s, id).value)
  {
    hide Settled, WithScore, NotResigned;
  }

  lemma ExpireKeepsBoard(s: State)
    requires ExpireTurn(s).Ok?
    ensures SameBoard(s, ExpireTurn(s).value)
  {
    hide PassTurn, Resign;
    var id := s.players[s.cur].id;
    PassKeepsBoard(s, id, true);
    var passed := PassTurn(s, id, true).value;
    if Resign(passed, id).Ok? {
      ResignKeepsBoard(passed, id);
    }
  }

  lemma TurnKeepsBoard(rules: Rules, s: State, a: Action)
    requires PendingSeated(s) && Attempt(rules, s, a).Ok?
    requires a.Exchange? || a.Pass? || a.Expire? || a.GiveUp? || a.ForceFinish?
    ensures SameBoard(s, Apply(rules, s, a))
  {
    hide ExchangeTiles, PassTurn, ExpireTurn, Resign, Settled, WithScore;
    match a
    case Exchange(id, indices, shuffled) => ExchangeKeepsBoard(s, id, indices, shuffled);
    case Pass(id, byAdmin) => PassKeepsBoard(s, id, byAdmin && s.asyncMode);
    case Expire => ExpireKeepsBoard(s);
    case GiveUp(id) => ResignKeepsBoard(s, id);
    case ForceFinish =>
  }

  // After the placement is booked, nothing more comes on the board.
  lemma CommitLettered(s: State, idx: nat, hand: seq<Tile>, timeouts: nat, tiles: seq<Placed>, score: int, kind: Kind)
    requires KnownGrid(s.grid) && KnownLetters(tiles) && idx < |s.players|
    ensures Lettered(Commit(s, idx, hand, timeouts, tiles, score, kind))
    ensures Lettered(AfterCommit(Commit(s, idx, hand, timeouts, tiles, score, kind), idx))
  {
    hide KnownGrid, With, Advance, Settled, WithScore;
    WithKnown(s.grid, tiles);
  }

  lemma PlaceLettered(rules: Rules, s: State, id: string, tiles: seq<Placed>)
    requires Lettered(s) && KnownLetters(tiles) && PlaceTiles(rules, s, id, tiles).Ok?
    ensures Lettered(PlaceTiles(rules, s, id, tiles).value)
  {
    hide KnownGrid, Validate, HasTiles, RemoveTiles, Commit, AfterCommit;
    var formed := Validate(rules, s.grid, s.boardEmpty, tiles,
                           ChallengeApplies(s.challengeMode, s.players, s.cur)).value;
    CommitLettered(s, s.cur, RemoveTiles(s.players[s.cur].hand, tiles), 0, tiles, PlacementTotal(formed, |tiles|),
                   PlaceMove);
  }

  lemma VerdictLettered(s: State)
    requires Lettered(s) && s.pending.Some? && PendingSeated(s)
    ensures Lettered(FinalizeAccept(s)) && Lettered(FinalizeReject(s))
  {
    hide KnownGrid, Commit, AfterCommit, Advance, Settled, WithScore;
    var pc := s.pending.value;
    var p := s.players[pc.playerIdx];
    CommitLettered(s, pc.playerIdx, p.hand, p.timeouts, pc.tiles, pc.score, AcceptMove);
  }

  lemma VoteLettered(s: State, id: string, vote: Vote)
    requires Lettered(s) && PendingSeated(s) && CastVote(s, id, vote).Ok?
    ensures Lettered(CastVote(s, id, vote).value)
  {
    CastVoteLeads(s, id, vote);
    VerdictLettered(Voted(s, id, vote));
    hide CastVote, FinalizeAccept, FinalizeReject;
  }

  lemma StepLettered(rules: Rules, s: State, a: Action)
    requires PendingSeated(s) && Lettered(s) && (a.Place? ==> KnownLetters(a.tiles))
    ensures Lettered(Apply(rules, s, a))
  {
    hide PlaceTiles, CastVote, FinalizeAccept, FinalizeReject, KnownGrid, KnownLetters;
    if a.Place? {
      if PlaceTiles(rules, s, a.id, a.tiles).Ok? {
        PlaceLettered(rules, s, a.id, a.tiles);
      }
    } else if a.CastVoteBy? {
      if CastVote(s, a.id, a.vote).Ok? {
        VoteLettered(s, a.id, a.vote);
      }
    } else if a.VoteTimeout? || a.ForceVerdict? {
      if s.pending.Some? {
        VerdictLettered(s);
      }
    } else {
      if a.Exchange? || a.Pass? || a.Expire? || a.GiveUp? || a.ForceFinish? {
        if Attempt(rules, s, a).Ok? {
          TurnKeepsBoard(rules, s, a);
        }
      } else if a.Disconnect? || a.Reconnect? || a.Leave? {
        if Attempt(rules, s, a).Ok? {
          ConnectionKeepsBoard(rules, s, a);
        }
      } else {
        RoomKeepsBoard(rules, s, a);
      }
    }
  }

  // All placements of the run use letters of the distribution.
  predicate UsesKnownLetters(actions: seq<Action>) {
    forall n :: 0 <= n < |actions| && actions[n].Place? ==> KnownLetters(actions[n].tiles)
  }

  lemma {:induction false} RunLettered(rules: Rules, s: State, actions: seq<Action>)
    requires Inv(rules, s) && Lettered(s) && UsesKnownLetters(actions)
    ensures Lettered(Play(rules, s, actions))
  {
    hide Lettered, Apply;
    if actions != [] {
      RunLettered(rules, s, Front(actions));
      StepLettered(rules, Play(rules, s, Front(actions)), Last(actions));
    }
  }

  /** In every run from a new game whose placements use letters of the distribution, all its tiles can be saved. */
  lemma KnownInRuns(rules: Rules, bag: seq<Tile>, challengeMode: bool, asyncMode: bool, puzzle: Option<Puzzle>,
                    actions: seq<Action>)
    requires multiset(bag) == FullSet() && UsesKnownLetters(actions)
    ensures KnownTiles(Play(rules, Opening(rules, bag, challengeMode, asyncMode, puzzle), actions))
  {
    var s := Opening(rules, bag, challengeMode, asyncMode, puzzle);
    NewGameTiles(rules, bag, challengeMode, asyncMode, puzzle);
    TilesConserved(rules, s, actions);
    RunLettered(rules, s, actions);
    hide Total, Lettered;
    AmongTheHundred(Play(rules, s, actions), LostIn(rules, s, actions));
  }

  lemma AmongTheHundred(s: State, lost: multiset<Tile>)
    requires Total(s) + lost == FullSet() && Lettered(s) && GridOk(s.grid)
    ensures KnownTiles(s)
  {
    assert Total(s) <= Total(s) + lost;
    GameTilesAreKnown(s);
  }

  /**
   So every such game is read back from its record as it was written, with a pending placement taken back; the
   winners, too, as long as nobody leaves the finished game and the players' names are different.
   */
  lemma SavedInRuns(rules: Rules, bag: seq<Tile>, challengeMode: bool, asyncMode: bool, puzzle: Option<Puzzle>,
                    actions: seq<Action>)
    requires IsAlphabet(rules.letters) && multiset(bag) == FullSet() && UsesKnownLetters(actions)
    ensures var s := Opening(rules, bag, challengeMode, asyncMode, puzzle);
            var t := Play(rules, s, actions);
            var read := FromSaveDict(rules.letters, ToSaveDict(rules.letters, t));
            && read == Restored(t)
            && (StaysTogether(rules, s, actions) && AllDifferent(NamesOf(t.players)) ==>
                  NamesOf(read.winners) == NamesOf(t.winners))
  {
    var s := Opening(rules, bag, challengeMode, asyncMode, puzzle);
    KnownInRuns(rules, bag, challengeMode, asyncMode, puzzle, actions);
    SaveRoundTrip(rules.letters, Play(rules, s, actions));
    if StaysTogether(rules, s, actions) {
      WinnersSurviveRuns(rules, bag, challengeMode, asyncMode, puzzle, actions);
    }
  }

  // ----- Who is there after resuming -----

  // A bot is there; a human is iff the name has joined, under the id of the one who joined. The rest is as it was.
  ghost predicate BackAtTable(p: Player, q: Player, joined: map<string, string>) {
    && (q.disconnected <==> !p.isBot && p.name !in joined)
    && q.id == (if !p.isBot && p.name in joined then joined[p.name] else p.id)
    && q == p.(id := q.id, disconnected := q.disconnected)
  }

  lemma SkipFindsSomebody(s: State)
    requires NoPenalties(s.players) && HumanPresent(s.players) && s.cur < |s.players| && s.pending.None?
    ensures var t := OrSame(SkipDisconnectedCurrent(s), s);
            && t == s.(cur := t.cur, turnNumber := t.turnNumber) && t.cur < |t.players|
            && (s.started && !s.finished && !s.asyncMode ==> !t.players[t.cur].disconnected)
  {
    assert SomeoneConnected(s.players);
    if SkipDisconnectedCurrent(s).Ok? {
      AdvanceWithoutPenalties(s.players, s.cur, s.asyncMode, |s.players|);
      var k := NextTurnIsNearest(s.players, s.cur, s.asyncMode);
      hide Advance, SeatAfter;
    }
  }

  /**
   After resuming a game the humans who joined are there under their new ids, the others are away, all else is as it
   was restored; and in a running game it is the turn of somebody who is there.
   */
  lemma ResumedTable(s: State, joined: map<string, string>)
    requires NoPenalties(s.players) && s.pending.None? && Resumed(s, joined, s.log).Some?
    ensures var t := Resumed(s, joined, s.log).value;
            && t == s.(players := t.players, cur := t.cur, turnNumber := t.turnNumber) && |t.players| == |s.players|
            && (forall i :: 0 <= i < |s.players| ==> BackAtTable(s.players[i], t.players[i], joined))
            && t.cur < |t.players|
            && (s.started && !s.finished && !s.asyncMode ==> !t.players[t.cur].disconnected)
  {
    var players := AllRejoined(s.players, joined);
    assert forall i :: 0 <= i < |s.players| ==> BackAtTable(s.players[i], players[i], joined);
    var seated := s.(players := players, cur := if s.cur >= |players| then 0 else s.cur);
    SkipFindsSomebody(seated);
  }
}
