/**
 Missed deadlines are counted in correspondence games only. So in the games that vote, which are no correspondence
 games, an accepted placement leads to exactly what placing directly would have led to.
 */
module Deadlines {
  import opened Results
  import opened Tiles
  import opened Bags
  import opened Grids
  import opened GameStates
  import opened GameLaws
  import opened Runs
  import opened ChallengeLaws
  import opened VoteRuns

  ghost predicate OnTime(players: seq<Player>) {
    forall i :: 0 <= i < |players| ==> players[i].timeouts == 0
  }

  // No correspondence game, no daily puzzle, and nobody has missed a deadline.
  ghost predicate Punctual(s: State) {
    !s.asyncMode && s.puzzle.None? && OnTime(s.players)
  }

  lemma {:induction false} AdvanceOnTime(players: seq<Player>, cur: nat, asyncMode: bool, steps: nat)
    requires OnTime(players) && (players != [] || steps == 0)
    ensures OnTime(Advance(players, cur, asyncMode, steps).0)
    decreases steps
  {
    if steps > 0 {
      var idx := (cur + 1) % |players|;
      AdvanceOnTime(players, idx, asyncMode, steps - 1);
      AdvanceOnTime(players[idx := players[idx].(skipNextTurn := false)], idx, asyncMode, steps - 1);
    }
  }

  lemma NextTurnPunctual(s: State)
    requires Punctual(s)
    ensures Punctual(NextTurn(s))
  {
    AdvanceOnTime(s.players, s.cur, s.asyncMode, |s.players|);
  }

  lemma EndGamePunctual(s: State, finisher: Option<nat>)
    requires Punctual(s) && (finisher.Some? ==> finisher.value < |s.players|)
    ensures Punctual(EndGame(s, finisher)) && Punctual(Crowned(EndGame(s, finisher)))
  {
  }

  lemma ScorelessPunctual(s: State)
    requires Punctual(s)
    ensures Punctual(RegisterScoreless(s)) && Punctual(ScorelessTurn(s))
  {
    hide EndGame, NextTurn;
    var counted := s.(scoreless := s.scoreless + 1);
    EndGamePunctual(counted, None);
    NextTurnPunctual(counted);
  }

  lemma CommitPunctual(s: State, idx: nat, hand: seq<Tile>, tiles: seq<Placed>, score: int, kind: Kind)
    requires Punctual(s) && idx < |s.players|
    ensures Punctual(Commit(s, idx, hand, 0, tiles, score, kind))
    ensures Punctual(AfterCommit(Commit(s, idx, hand, 0, tiles, score, kind), idx))
  {
    hide EndGame, NextTurn;
    var after := Commit(s, idx, hand, 0, tiles, score, kind);
    assert Punctual(after);
    EndGamePunctual(after, Some(idx));
    NextTurnPunctual(after);
  }

  lemma PlacePunctual(rules: Rules, s: State, id: string, tiles: seq<Placed>)
    requires Punctual(s) && PlaceTiles(rules, s, id, tiles).Ok?
    ensures Punctual(PlaceTiles(rules, s, id, tiles).value)
  {
    hide AfterCommit, Commit, Validate, HasTiles, RemoveTiles;
    var formed := Validate(rules, s.grid, s.boardEmpty, tiles,
                           ChallengeApplies(s.challengeMode, s.players, s.cur)).value;
    var hand := RemoveTiles(s.players[s.cur].hand, tiles);
    CommitPunctual(s, s.cur, hand, tiles, PlacementTotal(formed, |tiles|), PlaceMove);
  }

  lemma AcceptPunctual(s: State)
    requires Punctual(s) && s.pending.Some? && PendingSeated(s)
    ensures Punctual(FinalizeAccept(s))
  {
    var pc := s.pending.value;
    CommitPunctual(s, pc.playerIdx, s.players[pc.playerIdx].hand, pc.tiles, pc.score, AcceptMove);
    hide AfterCommit, Commit;
  }

  lemma RejectPunctual(s: State)
    requires Punctual(s) && s.pending.Some? && PendingSeated(s)
    ensures Punctual(FinalizeReject(s)) && Punctual(ReturnTiles(s))
  {
    hide EndGame, NextTurn;
    var pc := s.pending.value;
    var returned := ReturnTiles(s).(rejected := s.rejected + {multiset(pc.tiles)});
    var recorded := Record(returned, pc.playerIdx, RejectMove, 0);
    assert Punctual(recorded);
    ScorelessPunctual(recorded);
    NextTurnPunctual(RegisterScoreless(recorded));
  }

  lemma VotePunctual(s: State, id: string, vote: Vote)
    requires Punctual(s) && PendingSeated(s) && CastVote(s, id, vote).Ok?
    ensures Punctual(CastVote(s, id, vote).value)
  {
    CastVoteLeads(s, id, vote);
    AcceptPunctual(Voted(s, id, vote));
    RejectPunctual(Voted(s, id, vote));
    hide CastVote, FinalizeAccept, FinalizeReject;
  }

  lemma ResignPunctual(s: State, id: string)
    requires Punctual(s) && Resign(s, id).Ok?
    ensures Punctual(Resign(s, id).value)
  {
    hide EndGame, Crowned;
    EndGamePunctual(GivenUp(s, SeatOf(s.players, id, 0).value), None);
  }

  lemma ForceEndPunctual(s: State)
    requires Punctual(s) && PendingSeated(s) && ForceEnd(s).Ok?
    ensures Punctual(ForceEnd(s).value)
  {
    hide EndGame, Crowned;
    EndGamePunctual(if s.pending.Some? then ReturnTiles(s) else s, None);
  }

  lemma TurnPunctual(rules: Rules, s: State, a: Action)
    requires Punctual(s) && PendingSeated(s) && Attempt(rules, s, a).Ok?
    requires a.Exchange? || a.Pass? || a.Expire?
    ensures Punctual(Apply(rules, s, a))
  {
    hide ScorelessTurn;
    match a
    case Exchange(id, indices, shuffled) =>
      ScorelessPunctual(Record(Exchanged(s, indices, shuffled), s.cur, ExchangeMove, 0));
    case Pass(id, byAdmin) => ScorelessPunctual(Record(Noted(s, false), s.cur, PassMove, 0));
    case Expire => assert false;
  }

  lemma RoomPunctual(rules: Rules, s: State, a: Action)
    requires Punctual(s) && PendingSeated(s) && Attempt(rules, s, a).Ok?
    requires a.Join? || a.Begin? || a.Disconnect? || a.Reconnect? || a.Leave? || a.SkipDisconnected?
    ensures Punctual(Apply(rules, s, a))
  {
    hide NextTurn, DealtHands, SeatOf, Renamed, MovedVote, PointerAfterRemoval;
    DealtHandsFacts(s.players, s.bag, |s.players|);
    NextTurnPunctual(s);
  }

  /** Outside correspondence games no action counts a missed deadline. */
  lemma StaysPunctual(rules: Rules, s: State, a: Action)
    requires Punctual(s) && PendingSeated(s)
    ensures Punctual(Apply(rules, s, a))
  {
    if Attempt(rules, s, a).Ok? {
      hide PlaceTiles, CastVote, FinalizeAccept, FinalizeReject, ReturnTiles, Resign, ForceEnd, Punctual;
      match a
      case Place(id, tiles) => PlacePunctual(rules, s, id, tiles);
      case CastVoteBy(id, vote) => VotePunctual(s, id, vote);
      case Withdraw(_) => RejectPunctual(s);
      case VoteTimeout => AcceptPunctual(s); RejectPunctual(s);
      case ForceVerdict(_) => AcceptPunctual(s); RejectPunctual(s);
      case GiveUp(id) => ResignPunctual(s, id);
      case ForceFinish => ForceEndPunctual(s);
      case Exchange(_, _, _) => TurnPunctual(rules, s, a);
      case Pass(_, _) => TurnPunctual(rules, s, a);
      case Expire => TurnPunctual(rules, s, a);
      case _ => RoomPunctual(rules, s, a);
    }
  }

  /** In every run of a game that is no correspondence game nobody ever has a missed deadline. */
  lemma {:induction false} RunsPunctual(rules: Rules, s: State, actions: seq<Action>)
    requires Inv(rules, s) && Punctual(s)
    ensures Punctual(Play(rules, s, actions))
  {
    hide Punctual, Apply;
    if actions != [] {
      RunsPunctual(rules, s, Front(actions));
      StaysPunctual(rules, Play(rules, s, Front(actions)), Last(actions));
    }
  }

  // The placement waits during these actions, and the next one accepts it.
  ghost predicate AcceptedBy(rules: Rules, s: State, tiles: seq<Placed>, formed: seq<FormedWord>,
                             actions: seq<Action>, a: Action)
  {
    && Decided(rules, s, tiles, formed, actions, a) && Decides(a)
    && var w := Play(rules, Suspend(s, tiles, formed), actions);
       w.pending.Some? && Approves(w, a)
  }

  /**
   In every game with voting as the server builds them (no correspondence game, no daily puzzle), played on from any
   state without missed deadlines, as a new game is: whenever a placement has to wait, and whatever happens until it
   is accepted, the state after the verdict is the one that placing directly at that moment leads to; only the log
   marks the vote.
   */
  lemma AcceptedIsPlaced(rules: Rules, start: State, before: seq<Action>, id: string, tiles: seq<Placed>,
                         formed: seq<FormedWord>, actions: seq<Action>, a: Action)
    requires Inv(rules, start) && Punctual(start)
    requires var s := Play(rules, start, before);
             && s.cur < |s.players| && PlaceTiles(rules, s, id, tiles) == Ok(Suspend(s, tiles, formed))
             && AcceptedBy(rules, s, tiles, formed, actions, a)
    ensures var s := Play(rules, start, before);
            var t := Play(rules, s, Around(actions));
            && t.cur < |t.players|
            && Unmarked(Apply(rules, Play(rules, Suspend(s, tiles, formed), actions), a))
               == Unmarked(FinalizePlacement(t, tiles, PlacementTotal(formed, |tiles|)))
  {
    var s := Play(rules, start, before);
    RunsPunctual(rules, start, before);
    RunsPunctual(rules, s, Around(actions));
    AcceptedAsPlaced(rules, s, tiles, formed, actions, a);
  }

  /** A new game that is neither a correspondence game nor a daily puzzle is such a state. */
  lemma OpeningPunctual(rules: Rules, bag: seq<Tile>, challengeMode: bool)
    ensures Punctual(Opening(rules, bag, challengeMode, false, None))
  {
  }
}
