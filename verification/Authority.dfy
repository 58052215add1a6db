/**
 Who may do what and when. Every action is accepted exactly when its conditions hold, stated without the checks that
 are made one after the other; a refusal names the first ground in one fixed order, and changes nothing.
 */
module Authority {
  import opened Results
  import opened Tiles
  import opened Bags
  import opened Grids
  import opened BoardLaws
  import opened GameStates
  import opened GameLaws

  // ----- Grounds of a refusal -----

  ghost predicate Seated(players: seq<Player>, id: string) {
    exists i :: 0 <= i < |players| && players[i].id == id
  }

  // It is not this player's turn.
  ghost predicate NotTheirTurn(s: State, id: string) {
    s.cur >= |s.players| || s.players[s.cur].id != id
  }

  ghost function PlacerId(s: State): string
    requires s.pending.Some? && PendingSeated(s)
  {
    s.players[s.pending.value.playerIdx].id
  }

  // A human at the table other than the placer.
  ghost predicate MayVote(s: State, id: string)
    requires s.pending.Some? && PendingSeated(s)
  {
    id != PlacerId(s) && exists i :: 0 <= i < |s.players| && s.players[i].id == id && !s.players[i].isBot
  }

  // The other humans are asked in a game with voting.
  ghost predicate IsAsked(s: State) {
    s.challengeMode && exists i :: 0 <= i < |s.players| && i != s.cur && !s.players[i].isBot
  }

  // The tiles as they come out of the hand: a blank is a blank, whatever it stands for.
  ghost function AsInHand(tiles: seq<Placed>): multiset<Tile> {
    multiset(seq(|tiles|, i requires 0 <= i < |tiles| => if tiles[i].isBlank then BLANK else tiles[i].letter))
  }

  // The hand has all these tiles, and the rules allow the placement.
  ghost predicate PlacementGround(rules: Rules, s: State, id: string, tiles: seq<Placed>, r: Refusal) {
    match r
    case GameOver => s.finished
    case VotePending => s.pending.Some?
    case NotYourTurn => NotTheirTurn(s, id)
    case MissingTile => s.cur < |s.players| && !(AsInHand(tiles) <= multiset(s.players[s.cur].hand))
    case IllegalPlacement(_) => !Legal(rules, s.grid, s.boardEmpty, tiles, IsAsked(s))
    case _ => false
  }

  ghost predicate ExchangeGround(s: State, id: string, indices: seq<int>, shuffled: seq<Tile>, r: Refusal) {
    match r
    case NothingToDo => !IsShuffleOf(s, indices, shuffled)
    case GameOver => s.finished
    case VotePending => s.pending.Some?
    case PuzzleGame => s.puzzle.Some?
    case NotYourTurn => NotTheirTurn(s, id)
    case BagTooSmall => |s.bag| < 7 || |s.bag| < |indices|
    case NothingSelected => indices == []
    case DuplicateIndex => exists i, j :: 0 <= i < j < |indices| && indices[i] == indices[j]
    case BadIndex =>
      s.cur < |s.players| && exists k :: 0 <= k < |indices| && !(0 <= indices[k] < |s.players[s.cur].hand|)
    case _ => false
  }

  ghost predicate PassGround(s: State, id: string, r: Refusal) {
    match r
    case GameOver => s.finished
    case VotePending => s.pending.Some?
    case PuzzleGame => s.puzzle.Some?
    case NotYourTurn => NotTheirTurn(s, id)
    case _ => false
  }

  ghost predicate VoteGround(s: State, id: string, r: Refusal)
    requires PendingSeated(s)
  {
    match r
    case NoPending => s.pending.None?
    case OwnPlacement => s.pending.Some? && id == PlacerId(s)
    case NotAVoter => s.pending.Some? && !MayVote(s, id)
    case AlreadyVoted => s.pending.Some? && id in s.pending.value.votes
    case _ => false
  }

  ghost predicate WithdrawGround(s: State, id: string, r: Refusal)
    requires PendingSeated(s)
  {
    match r
    case NoPending => s.pending.None?
    case NotThePlacer => s.pending.Some? && id != PlacerId(s)
    case AlreadyVotedOn => s.pending.Some? && exists voter :: voter in s.pending.value.votes
    case _ => false
  }

  // Does this speak against the action?
  ghost predicate Ground(rules: Rules, s: State, a: Action, r: Refusal)
    requires PendingSeated(s)
  {
    match a
    case Place(id, tiles) => PlacementGround(rules, s, id, tiles, r)
    case Exchange(id, indices, shuffled) => ExchangeGround(s, id, indices, shuffled, r)
    case Pass(id, _) => PassGround(s, id, r)
    case CastVoteBy(id, _) => VoteGround(s, id, r)
    case Withdraw(id) => WithdrawGround(s, id, r)
    case VoteTimeout => r.NoPending? && s.pending.None?
    case ForceVerdict(_) => r.NoPending? && s.pending.None?
    case GiveUp(id) =>
      (r.NotStarted? && !s.started) || (r.GameOver? && s.finished) || (r.NotAPlayer? && !Seated(s.players, id))
    case Expire =>
      || (r.NothingToDo? && !(s.asyncMode && s.started && !s.finished && s.pending.None? && s.cur < |s.players|))
      || (r.PuzzleGame? && s.puzzle.Some?)
    case ForceFinish => r.NothingToDo? && (!s.started || s.finished)
    case Join(id, _, _) =>
      || (r.AlreadyJoined? && Seated(s.players, id))
      || (r.RoomFull? && |s.players| >= 4)
      || (r.AlreadyStarted? && s.started)
    case Begin => (r.NoPlayers? && |s.players| == 0) || (r.AlreadyStarted? && s.started)
    case Disconnect(id) => r.NotAPlayer? && !Seated(s.players, id)
    case Reconnect(oldId, _) => r.NotAPlayer? && !Seated(s.players, oldId)
    case Leave(id) => r.NotAPlayer? && !Seated(s.players, id)
    case SkipDisconnected =>
      r.NothingToDo? &&
      !(&& s.started && !s.finished && s.pending.None? && !s.asyncMode
        && s.cur < |s.players| && s.players[s.cur].disconnected
        && exists i :: 0 <= i < |s.players| && !s.players[i].disconnected)
  }

  // The order in which grounds are reported.
  function Rank(r: Refusal): nat {
    match r
    case NothingToDo => 0
    case NoPlayers => 1
    case AlreadyJoined => 2
    case RoomFull => 3
    case AlreadyStarted => 4
    case NotStarted => 5
    case GameOver => 6
    case NoPending => 7
    case VotePending => 8
    case PuzzleGame => 9
    case NotYourTurn => 10
    case OwnPlacement => 11
    case NotAVoter => 12
    case AlreadyVoted => 13
    case NotThePlacer => 14
    case AlreadyVotedOn => 15
    case MissingTile => 16
    case BagTooSmall => 17
    case NothingSelected => 18
    case DuplicateIndex => 19
    case BadIndex => 20
    case NotAPlayer => 21
    case IllegalPlacement(_) => 22
  }

  // The first ground against the action, or none.
  ghost predicate Judged(rules: Rules, s: State, a: Action, outcome: Outcome)
    requires PendingSeated(s)
  {
    match outcome
    case Ok(_) => forall r :: !Ground(rules, s, a, r)
    case Err(e) => Ground(rules, s, a, e) && forall r :: Ground(rules, s, a, r) ==> Rank(e) <= Rank(r)
  }

  lemma SeatedIff(players: seq<Player>, id: string)
    ensures SeatOf(players, id, 0).Some? <==> Seated(players, id)
  {
  }

  lemma InHandIs(tiles: seq<Placed>)
    ensures multiset(HandTilesOf(tiles)) == AsInHand(tiles)
  {
    assert HandTilesOf(tiles)
        == seq(|tiles|, i requires 0 <= i < |tiles| => if tiles[i].isBlank then BLANK else tiles[i].letter);
  }

  // What the checks of a placement amount to.
  lemma PlacementChecks(rules: Rules, s: State, tiles: seq<Placed>)
    requires GridOk(s.grid) && s.cur < |s.players|
    ensures HasTiles(s.players[s.cur].hand, tiles) <==> AsInHand(tiles) <= multiset(s.players[s.cur].hand)
    ensures ChallengeApplies(s.challengeMode, s.players, s.cur) <==> IsAsked(s)
    ensures Validate(rules, s.grid, s.boardEmpty, tiles, ChallengeApplies(s.challengeMode, s.players, s.cur)).Ok?
            <==> Legal(rules, s.grid, s.boardEmpty, tiles, IsAsked(s))
  {
    HasTilesIffIncluded(s.players[s.cur].hand, tiles);
    InHandIs(tiles);
    ValidateIffLegal(rules, s.grid, s.boardEmpty, tiles, IsAsked(s));
    hide HasTiles, Validate, Legal, HandTilesOf, AsInHand;
  }

  lemma PlaceJudged(rules: Rules, s: State, id: string, tiles: seq<Placed>)
    requires PendingSeated(s) && GridOk(s.grid)
    ensures Judged(rules, s, Place(id, tiles), Attempt(rules, s, Place(id, tiles)))
  {
    hide HasTiles, Validate, Legal, AsInHand, Suspend, FinalizePlacement, ChallengeApplies, IsAsked, GridOk;
    if s.cur < |s.players| {
      PlacementChecks(rules, s, tiles);
    }
  }

  lemma ExchangeJudged(rules: Rules, s: State, id: string, indices: seq<int>, shuffled: seq<Tile>)
    requires PendingSeated(s)
    ensures Judged(rules, s, Exchange(id, indices, shuffled), Attempt(rules, s, Exchange(id, indices, shuffled)))
  {
    hide IsShuffleOf, ScorelessTurn, Record, Exchanged;
  }

  lemma PassJudged(rules: Rules, s: State, id: string, byAdmin: bool)
    requires PendingSeated(s)
    ensures Judged(rules, s, Pass(id, byAdmin), Attempt(rules, s, Pass(id, byAdmin)))
  {
    hide ScorelessTurn, Record, Noted;
  }

  lemma VoteJudged(rules: Rules, s: State, id: string, vote: Vote)
    requires PendingSeated(s)
    ensures Judged(rules, s, CastVoteBy(id, vote), Attempt(rules, s, CastVoteBy(id, vote)))
  {
    hide ResolveAndFinalize, AllVoted;
  }

  lemma WithdrawJudged(rules: Rules, s: State, id: string)
    requires PendingSeated(s)
    ensures Judged(rules, s, Withdraw(id), Attempt(rules, s, Withdraw(id)))
  {
    if s.pending.Some? {
      assert s.pending.value.votes != map[] <==> exists voter :: voter in s.pending.value.votes;
    }
    hide ReturnTiles;
  }

  lemma ClockJudged(rules: Rules, s: State, a: Action)
    requires PendingSeated(s) && (a.VoteTimeout? || a.ForceVerdict? || a.Expire? || a.ForceFinish? || a.GiveUp?)
    ensures Judged(rules, s, a, Attempt(rules, s, a))
  {
    hide ResolveAndFinalize, FinalizeAccept, FinalizeReject, ScorelessTurn, Record, Noted, EndGame, Crowned;
  }

  lemma RoomJudged(rules: Rules, s: State, a: Action)
    requires PendingSeated(s)
    requires a.Join? || a.Begin? || a.Disconnect? || a.Reconnect? || a.Leave? || a.SkipDisconnected?
    ensures Judged(rules, s, a, Attempt(rules, s, a))
  {
    hide DealtHands, RemoveSeat, NextTurn;
  }

  /**
   Every action, whoever takes it and whenever it comes, is accepted exactly when nothing speaks against it, and
   otherwise refused for the first of the grounds.
   */
  lemma EveryActionJudged(rules: Rules, s: State, a: Action)
    requires PendingSeated(s) && GridOk(s.grid)
    ensures Judged(rules, s, a, Attempt(rules, s, a))
  {
    hide Judged, Attempt;
    match a
    case Place(id, tiles) => PlaceJudged(rules, s, id, tiles);
    case Exchange(id, indices, shuffled) => ExchangeJudged(rules, s, id, indices, shuffled);
    case Pass(id, byAdmin) => PassJudged(rules, s, id, byAdmin);
    case CastVoteBy(id, vote) => VoteJudged(rules, s, id, vote);
    case Withdraw(id) => WithdrawJudged(rules, s, id);
    case Join(_, _, _) => RoomJudged(rules, s, a);
    case Begin => RoomJudged(rules, s, a);
    case Disconnect(_) => RoomJudged(rules, s, a);
    case Reconnect(_, _) => RoomJudged(rules, s, a);
    case Leave(_) => RoomJudged(rules, s, a);
    case SkipDisconnected => RoomJudged(rules, s, a);
    case _ => ClockJudged(rules, s, a);
  }

  // ----- Nobody acts for somebody else -----

  // A move for the player to move by someone else, a vote by someone who has none, a withdrawal by someone else than
  // the placer.
  ghost predicate Meddles(s: State, a: Action)
    requires PendingSeated(s)
  {
    match a
    case Place(id, _) => NotTheirTurn(s, id)
    case Exchange(id, _, _) => NotTheirTurn(s, id)
    case Pass(id, _) => NotTheirTurn(s, id)
    case CastVoteBy(id, _) => s.pending.None? || !MayVote(s, id) || id in s.pending.value.votes
    case Withdraw(id) => s.pending.None? || id != PlacerId(s)
    case GiveUp(id) => !Seated(s.players, id)
    case _ => false
  }

  /** Whoever meddles changes nothing. */
  lemma MeddlingChangesNothing(rules: Rules, s: State, a: Action)
    requires PendingSeated(s) && GridOk(s.grid) && Meddles(s, a)
    ensures Attempt(rules, s, a).Err? && Apply(rules, s, a) == s
  {
    EveryActionJudged(rules, s, a);
    hide Attempt, GridOk;
    assert exists r :: Ground(rules, s, a, r) by {
      MeddlingHasGround(rules, s, a);
    }
  }

  lemma MeddlingHasGround(rules: Rules, s: State, a: Action)
    requires PendingSeated(s) && Meddles(s, a)
    ensures exists r :: Ground(rules, s, a, r)
  {
    match a
    case Place(_, _) => assert Ground(rules, s, a, NotYourTurn);
    case Exchange(_, _, _) => assert Ground(rules, s, a, NotYourTurn);
    case Pass(_, _) => assert Ground(rules, s, a, NotYourTurn);
    case CastVoteBy(id, _) =>
      var r := if s.pending.None? then NoPending else if !MayVote(s, id) then NotAVoter else AlreadyVoted;
      assert Ground(rules, s, a, r);
    case Withdraw(id) =>
      var r := if s.pending.None? then NoPending else NotThePlacer;
      assert Ground(rules, s, a, r);
    case GiveUp(_) => assert Ground(rules, s, a, NotAPlayer);
  }
}
