/**
 The state of a game as a value and every public operation as a function from state to state, or to the
 reason it is refused. A shuffle is handed in as the bag it results in.
 */
module GameStates {
  import opened Results
  import opened Tiles
  import opened Bags
  import opened Grids

  const HAND_SIZE := 7
  const BONUS_ALL_TILES := 50
  const SCORELESS_TURNS_LIMIT := 6
  const MAX_TIMEOUTS := 3
  const MAX_PLAYERS := 4

  datatype Player = Player(id: string, name: string, hand: seq<Tile>, score: int, skipNextTurn: bool,
                           disconnected: bool, timeouts: nat, resigned: bool, isBot: bool)

  datatype Vote = Accept | Reject

  // A placement that waits for the votes of the other players.
  datatype Pending = Pending(tiles: seq<Placed>, formed: seq<FormedWord>, score: int, playerIdx: nat,
                             removed: seq<Tile>, votes: map<string, Vote>)

  datatype Kind = PlaceMove | AcceptMove | RejectMove | ExchangeMove | PassMove

  datatype Entry = Entry(number: nat, player: string, kind: Kind, score: int, board: Grid)

  // A daily puzzle: one player, one placement; the score is that placement's.
  datatype Puzzle = Puzzle(score: Option<int>)

  datatype State = State(
    players: seq<Player>, grid: Grid, boardEmpty: bool, bag: seq<Tile>, cur: nat,
    started: bool, finished: bool, winners: seq<Player>, puzzle: Option<Puzzle>, asyncMode: bool,
    scoreless: nat, turnNumber: int, challengeMode: bool, pending: Option<Pending>, log: seq<Entry>,
    rejected: set<multiset<Placed>>)

  datatype Refusal =
    | GameOver | VotePending | NotYourTurn | MissingTile | IllegalPlacement(error: BoardError)
    | NoPending | OwnPlacement | NotAVoter | AlreadyVoted | NotThePlacer | AlreadyVotedOn
    | PuzzleGame | BagTooSmall | NothingSelected | DuplicateIndex | BadIndex
    | NotStarted | AlreadyStarted | NotAPlayer | NoPlayers | AlreadyJoined | RoomFull | NothingToDo

  type Outcome = Result<State, Refusal>

  ghost function NewGame(bag: seq<Tile>, challengeMode: bool, asyncMode: bool, puzzle: Option<Puzzle>): State {
    State([], map[], true, bag, 0, false, false, [], puzzle, asyncMode, 0, 0, challengeMode, None, [], {})
  }

  // ----- Players and hands -----

  // The seat of the first player with this id, from seat `from` on.
  function SeatOf(players: seq<Player>, id: string, from: nat): (r: Option<nat>)
    requires from <= |players|
    ensures r.Some? ==> from <= r.value < |players| && players[r.value].id == id
    ensures r.None? ==> forall i :: from <= i < |players| ==> players[i].id != id
    decreases |players| - from
  {
    if from == |players| then None
    else if players[from].id == id then Some(from)
    else SeatOf(players, id, from + 1)
  }

  function RemoveFirst(hand: seq<Tile>, t: Tile): seq<Tile> {
    if hand == [] then []
    else if hand[0] == t then hand[1..]
    else [hand[0]] + RemoveFirst(hand[1..], t)
  }

  // Can the tiles be taken out of the hand one after the other?
  predicate HasTiles(hand: seq<Tile>, tiles: seq<Placed>)
    decreases |tiles|
  {
    tiles == [] || (tiles[0].HandTile() in hand && HasTiles(RemoveFirst(hand, tiles[0].HandTile()), tiles[1..]))
  }

  function RemoveTiles(hand: seq<Tile>, tiles: seq<Placed>): seq<Tile>
    decreases |tiles|
  {
    if tiles == [] then hand else RemoveTiles(RemoveFirst(hand, tiles[0].HandTile()), tiles[1..])
  }

  function HandTilesOf(tiles: seq<Placed>): seq<Tile> {
    seq(|tiles|, i requires 0 <= i < |tiles| => tiles[i].HandTile())
  }

  // The points of the first n tiles of a hand.
  function HandValueTo(hand: seq<Tile>, n: nat): nat
    requires n <= |hand|
  {
    if n == 0 then 0 else HandValueTo(hand, n - 1) + Value(hand[n - 1])
  }

  function HandValue(hand: seq<Tile>): nat {
    HandValueTo(hand, |hand|)
  }

  // How many tiles fill up a hand.
  function Refill(hand: seq<Tile>): nat {
    if |hand| <= HAND_SIZE then HAND_SIZE - |hand| else 0
  }

  // ----- The turn pointer and the end of the game -----

  predicate SomeoneConnected(players: seq<Player>) {
    exists i :: 0 <= i < |players| && !players[i].disconnected
  }

  // At most `steps` steps forward: over disconnected players (if anyone is connected) and penalised ones.
  function Advance(players: seq<Player>, cur: nat, asyncMode: bool, steps: nat): (r: (seq<Player>, nat))
    requires players != [] || steps == 0
    ensures |r.0| == |players|
    ensures steps > 0 ==> r.1 < |players|
    decreases steps
  {
    if steps == 0 then (players, cur)
    else
      var idx := (cur + 1) % |players|;
      if players[idx].disconnected && !asyncMode then
        if SomeoneConnected(players) then Advance(players, idx, asyncMode, steps - 1) else (players, idx)
      else if players[idx].skipNextTurn then
        Advance(players[idx := players[idx].(skipNextTurn := false)], idx, asyncMode, steps - 1)
      else (players, idx)
  }

  ghost function NextTurn(s: State): State {
    var r := Advance(s.players, s.cur, s.asyncMode, |s.players|);
    s.(players := r.0, cur := r.1, turnNumber := s.turnNumber + 1)
  }

  // Everyone pays for the tiles left in hand.
  function Settle(players: seq<Player>): (r: seq<Player>)
    ensures |r| == |players|
  {
    seq(|players|, i requires 0 <= i < |players| => players[i].(score := players[i].score - HandValue(players[i].hand)))
  }

  function HandTotalTo(players: seq<Player>, n: nat): nat
    requires n <= |players|
  {
    if n == 0 then 0 else HandTotalTo(players, n - 1) + HandValue(players[n - 1].hand)
  }

  // The points of all tiles left in hands.
  function HandTotal(players: seq<Player>): nat {
    HandTotalTo(players, |players|)
  }

  function TopScoreTo(players: seq<Player>, n: nat): int
    requires n <= |players|
  {
    if n == 0 then 0
    else if n == 1 then players[0].score
    else if players[n - 1].score > TopScoreTo(players, n - 1) then players[n - 1].score
    else TopScoreTo(players, n - 1)
  }

  // The highest score (0 when there is nobody).
  function TopScore(players: seq<Player>): int {
    TopScoreTo(players, |players|)
  }

  function WithScoreTo(players: seq<Player>, score: int, n: nat): seq<Player>
    requires n <= |players|
  {
    if n == 0 then []
    else WithScoreTo(players, score, n - 1) + (if players[n - 1].score == score then [players[n - 1]] else [])
  }

  function WithScore(players: seq<Player>, score: int): seq<Player> {
    WithScoreTo(players, score, |players|)
  }

  function NotResignedTo(players: seq<Player>, n: nat): seq<Player>
    requires n <= |players|
  {
    if n == 0 then []
    else NotResignedTo(players, n - 1) + (if players[n - 1].resigned then [] else [players[n - 1]])
  }

  function NotResigned(players: seq<Player>): seq<Player> {
    NotResignedTo(players, |players|)
  }

  // The one who played out gets what the others have left.
  function Settled(players: seq<Player>, finisher: Option<nat>): (r: seq<Player>)
    requires finisher.Some? ==> finisher.value < |players|
    ensures |r| == |players|
  {
    var paid := Settle(players);
    if finisher.Some? then
      paid[finisher.value := paid[finisher.value].(score := paid[finisher.value].score + HandTotal(players))]
    else paid
  }

  ghost function EndGame(s: State, finisher: Option<nat>): State
    requires finisher.Some? ==> finisher.value < |s.players|
  {
    var players := Settled(s.players, finisher);
    s.(finished := true, pending := None, players := players, winners := WithScore(players, TopScore(players)))
  }

  ghost function Record(s: State, idx: nat, kind: Kind, score: int): State
    requires idx < |s.players|
  {
    s.(log := s.log + [Entry(|s.log| + 1, s.players[idx].name, kind, score, s.grid)])
  }

  // Counts a turn without points; the sixth in a row ends the game.
  ghost function RegisterScoreless(s: State): State {
    var counted := s.(scoreless := s.scoreless + 1);
    if counted.scoreless >= SCORELESS_TURNS_LIMIT then EndGame(counted, None) else counted
  }

  ghost function ScorelessTurn(s: State): State {
    if s.scoreless + 1 >= SCORELESS_TURNS_LIMIT then RegisterScoreless(s) else NextTurn(RegisterScoreless(s))
  }

  // ----- Placements -----

  predicate ChallengeApplies(challengeMode: bool, players: seq<Player>, placer: nat) {
    challengeMode && exists i :: 0 <= i < |players| && i != placer && !players[i].isBot
  }

  function PlacementTotal(formed: seq<FormedWord>, tileCount: nat): int {
    TotalScore(formed) + (if tileCount == HAND_SIZE then BONUS_ALL_TILES else 0)
  }

  // A player after a placement that counts: the score is booked and the hand filled up.
  function Refilled(p: Player, hand: seq<Tile>, bag: seq<Tile>, timeouts: nat, score: int): Player {
    p.(score := p.score + score, hand := hand + Drawn(bag, Refill(hand)), timeouts := timeouts)
  }

  // The tiles go to the board for good.
  ghost function Booked(s: State, idx: nat, hand: seq<Tile>, timeouts: nat, tiles: seq<Placed>, score: int): State
    requires idx < |s.players|
  {
    s.(grid := With(s.grid, tiles), boardEmpty := false, rejected := {}, pending := None, scoreless := 0,
       players := s.players[idx := Refilled(s.players[idx], hand, s.bag, timeouts, score)],
       bag := LeftAfter(s.bag, Refill(hand)))
  }

  ghost function Commit(s: State, idx: nat, hand: seq<Tile>, timeouts: nat, tiles: seq<Placed>, score: int,
                        kind: Kind): State
    requires idx < |s.players|
  {
    Record(Booked(s, idx, hand, timeouts, tiles, score), idx, kind, score)
  }

  ghost function AfterCommit(s: State, idx: nat): State
    requires idx < |s.players|
  {
    if s.players[idx].hand == [] && s.bag == [] then EndGame(s, Some(idx)) else NextTurn(s)
  }

  ghost function FinalizePlacement(s: State, tiles: seq<Placed>, score: int): State
    requires s.cur < |s.players|
  {
    var hand := RemoveTiles(s.players[s.cur].hand, tiles);
    var after := Commit(s, s.cur, hand, 0, tiles, score, PlaceMove);
    if s.puzzle.Some? then
      after.(finished := true, winners := [after.players[s.cur]], puzzle := Some(Puzzle(Some(score))))
    else AfterCommit(after, s.cur)
  }

  ghost function Suspend(s: State, tiles: seq<Placed>, formed: seq<FormedWord>): State
    requires s.cur < |s.players|
  {
    var p := s.players[s.cur];
    s.(players := s.players[s.cur := p.(hand := RemoveTiles(p.hand, tiles))],
       pending := Some(Pending(tiles, formed, PlacementTotal(formed, |tiles|), s.cur, HandTilesOf(tiles), map[])))
  }

  ghost function PlaceTiles(rules: Rules, s: State, id: string, tiles: seq<Placed>): Outcome {
    if s.finished then Err(GameOver)
    else if s.pending.Some? then Err(VotePending)
    else if s.cur >= |s.players| || s.players[s.cur].id != id then Err(NotYourTurn)
    else if !HasTiles(s.players[s.cur].hand, tiles) then Err(MissingTile)
    else
      var challenged := ChallengeApplies(s.challengeMode, s.players, s.cur);
      match Validate(rules, s.grid, s.boardEmpty, tiles, challenged)
      case Err(error) => Err(IllegalPlacement(error))
      case Ok(formed) =>
        if challenged then Ok(Suspend(s, tiles, formed))
        else Ok(FinalizePlacement(s, tiles, PlacementTotal(formed, |tiles|)))
  }

  // ----- Votes on a pending placement -----

  ghost predicate PendingSeated(s: State) {
    s.pending.Some? ==> s.pending.value.playerIdx < |s.players|
  }

  // Every other human player may vote.
  function VotersOf(players: seq<Player>, placer: string): set<string> {
    set i | 0 <= i < |players| && players[i].id != placer && !players[i].isBot :: players[i].id
  }

  predicate AllVoted(votes: map<string, Vote>, voters: set<string>) {
    forall id :: id in voters ==> id in votes
  }

  // Half of the voters suffices; a missing vote counts as acceptance.
  function ResolveVotes(votes: map<string, Vote>, voters: set<string>): bool {
    var accepting := set id | id in voters && !(id in votes && votes[id] == Reject);
    |voters| == 0 || |accepting| * 2 >= |voters|
  }

  ghost function FinalizeAccept(s: State): State
    requires s.pending.Some? && PendingSeated(s)
  {
    var pc := s.pending.value;
    var p := s.players[pc.playerIdx];
    AfterCommit(Commit(s, pc.playerIdx, p.hand, p.timeouts, pc.tiles, pc.score, AcceptMove), pc.playerIdx)
  }

  // The placer takes the tiles back.
  ghost function ReturnTiles(s: State): State
    requires s.pending.Some? && PendingSeated(s)
  {
    var pc := s.pending.value;
    var p := s.players[pc.playerIdx];
    s.(players := s.players[pc.playerIdx := p.(hand := p.hand + pc.removed)], pending := None)
  }

  ghost function FinalizeReject(s: State): State
    requires s.pending.Some? && PendingSeated(s)
  {
    var pc := s.pending.value;
    var returned := ReturnTiles(s).(rejected := s.rejected + {multiset(pc.tiles)});
    var counted := RegisterScoreless(Record(returned, pc.playerIdx, RejectMove, 0));
    if s.scoreless + 1 >= SCORELESS_TURNS_LIMIT then counted
    else if s.players[pc.playerIdx].disconnected then NextTurn(counted)
    else counted
  }

  datatype VoteResult = Recorded | Accepted | Rejected

  ghost function Verdict(s: State): VoteResult
    requires s.pending.Some? && PendingSeated(s)
  {
    var pc := s.pending.value;
    if ResolveVotes(pc.votes, VotersOf(s.players, s.players[pc.playerIdx].id)) then Accepted else Rejected
  }

  ghost function ResolveAndFinalize(s: State): State
    requires s.pending.Some? && PendingSeated(s)
  {
    if Verdict(s) == Accepted then FinalizeAccept(s) else FinalizeReject(s)
  }

  ghost function Voted(s: State, id: string, vote: Vote): State
    requires s.pending.Some?
  {
    s.(pending := Some(s.pending.value.(votes := s.pending.value.votes[id := vote])))
  }

  ghost function CastVote(s: State, id: string, vote: Vote): Outcome
    requires PendingSeated(s)
  {
    if s.pending.None? then Err(NoPending)
    else
      var pc := s.pending.value;
      var placer := s.players[pc.playerIdx].id;
      var voters := VotersOf(s.players, placer);
      if placer == id then Err(OwnPlacement)
      else if id !in voters then Err(NotAVoter)
      else if id in pc.votes then Err(AlreadyVoted)
      else
        var voted := Voted(s, id, vote);
        Ok(if AllVoted(voted.pending.value.votes, voters) then ResolveAndFinalize(voted) else voted)
  }

  ghost function WithdrawPending(s: State, id: string): Outcome
    requires PendingSeated(s)
  {
    if s.pending.None? then Err(NoPending)
    else if s.players[s.pending.value.playerIdx].id != id then Err(NotThePlacer)
    else if s.pending.value.votes != map[] then Err(AlreadyVotedOn)
    else Ok(ReturnTiles(s))
  }

  // The time to vote is over.
  ghost function AcceptPending(s: State): Outcome
    requires PendingSeated(s)
  {
    if s.pending.None? then Err(NoPending) else Ok(ResolveAndFinalize(s))
  }

  ghost function ForceResolvePending(s: State, accept: bool): Outcome
    requires PendingSeated(s)
  {
    if s.pending.None? then Err(NoPending) else if accept then Ok(FinalizeAccept(s)) else Ok(FinalizeReject(s))
  }

  // ----- Exchange, pass, resignation, forced end -----

  // The tiles of a hand whose indices are (not) selected, in hand order.
  function Select(hand: seq<Tile>, indices: seq<int>, selected: bool): seq<Tile> {
    if hand == [] then []
    else
      var n := |hand| - 1;
      Select(hand[..n], indices, selected) + (if (n in indices) == selected then [hand[n]] else [])
  }

  predicate NoDuplicates(indices: seq<int>) {
    forall i, j :: 0 <= i < j < |indices| ==> indices[i] != indices[j]
  }

  // `shuffled` is the bag after the returned tiles have been mixed in.
  ghost function ExchangeTiles(s: State, id: string, indices: seq<int>, shuffled: seq<Tile>): Outcome {
    if s.finished then Err(GameOver)
    else if s.pending.Some? then Err(VotePending)
    else if s.puzzle.Some? then Err(PuzzleGame)
    else if s.cur >= |s.players| || s.players[s.cur].id != id then Err(NotYourTurn)
    else if |s.bag| < 7 || |s.bag| < |indices| then Err(BagTooSmall)
    else if indices == [] then Err(NothingSelected)
    else if !NoDuplicates(indices) then Err(DuplicateIndex)
    else if exists k :: 0 <= k < |indices| && !(0 <= indices[k] < |s.players[s.cur].hand|) then Err(BadIndex)
    else
      Ok(ScorelessTurn(Record(Exchanged(s, indices, shuffled), s.cur, ExchangeMove, 0)))
  }

  ghost function Exchanged(s: State, indices: seq<int>, shuffled: seq<Tile>): State
    requires s.cur < |s.players|
  {
    var p := s.players[s.cur];
    var hand := Select(p.hand, indices, false) + Drawn(s.bag, |indices|);
    s.(players := s.players[s.cur := p.(hand := hand, timeouts := 0)], bag := shuffled)
  }

  // What `shuffled` must be a permutation of.
  ghost predicate IsShuffleOf(s: State, indices: seq<int>, shuffled: seq<Tile>) {
    s.cur < |s.players| ==>
      multiset(shuffled)
      == multiset(LeftAfter(s.bag, |indices|)) + multiset(Select(s.players[s.cur].hand, indices, true))
  }

  ghost function PassTurn(s: State, id: string, timeout: bool): Outcome {
    if s.finished then Err(GameOver)
    else if s.pending.Some? then Err(VotePending)
    else if s.puzzle.Some? then Err(PuzzleGame)
    else if s.cur >= |s.players| || s.players[s.cur].id != id then Err(NotYourTurn)
    else
      Ok(ScorelessTurn(Record(Noted(s, timeout), s.cur, PassMove, 0)))
  }

  // A missed deadline is counted, a pass of one's own clears the count.
  ghost function Noted(s: State, timeout: bool): State
    requires s.cur < |s.players|
  {
    var p := s.players[s.cur];
    s.(players := s.players[s.cur := p.(timeouts := if timeout then p.timeouts + 1 else 0)])
  }

  ghost function GivenUp(s: State, idx: nat): State
    requires idx < |s.players|
  {
    s.(players := s.players[idx := s.players[idx].(resigned := true)], pending := None)
  }

  // Those who resigned do not win, unless all did.
  ghost function Crowned(s: State): State {
    var staying := NotResigned(s.players);
    if staying == [] then s else s.(winners := WithScore(staying, TopScore(staying)))
  }

  ghost function Resign(s: State, id: string): Outcome {
    if !s.started then Err(NotStarted)
    else if s.finished then Err(GameOver)
    else if SeatOf(s.players, id, 0).None? then Err(NotAPlayer)
    else Ok(Crowned(EndGame(GivenUp(s, SeatOf(s.players, id, 0).value), None)))
  }

  // The deadline of a correspondence game has passed: a pass, and resignation after the third in a row.
  ghost function ExpireTurn(s: State): Outcome {
    if !s.asyncMode || !s.started || s.finished || s.pending.Some? || s.cur >= |s.players| then Err(NothingToDo)
    else
      var id := s.players[s.cur].id;
      match PassTurn(s, id, true)
      case Err(refusal) => Err(refusal)
      case Ok(passed) =>
        var seat := SeatOf(passed.players, id, 0);
        if !passed.finished && seat.Some? && passed.players[seat.value].timeouts >= MAX_TIMEOUTS
        then match Resign(passed, id) case Ok(resigned) => Ok(resigned) case Err(_) => Ok(passed)
        else Ok(passed)
  }

  ghost function ForceEnd(s: State): Outcome
    requires PendingSeated(s)
  {
    if !s.started || s.finished then Err(NothingToDo)
    else Ok(EndGame(if s.pending.Some? then ReturnTiles(s) else s, None))
  }

  // ----- Lobby and connections -----

  ghost function AddPlayer(s: State, id: string, name: string, isBot: bool): Outcome {
    if SeatOf(s.players, id, 0).Some? then Err(AlreadyJoined)
    else if |s.players| >= MAX_PLAYERS then Err(RoomFull)
    else if s.started then Err(AlreadyStarted)
    else Ok(s.(players := s.players + [Player(id, name, [], 0, false, false, 0, false, isBot)]))
  }

  // The first n players draw their hands, in order.
  function DealtHands(players: seq<Player>, bag: seq<Tile>, n: nat): (r: (seq<Player>, seq<Tile>))
    requires n <= |players|
    ensures |r.0| == |players|
    decreases n
  {
    if n == 0 then (players, bag)
    else
      var (dealt, left) := DealtHands(players, bag, n - 1);
      (dealt[n - 1 := dealt[n - 1].(hand := Drawn(left, HAND_SIZE))], LeftAfter(left, HAND_SIZE))
  }

  ghost function Start(s: State): Outcome {
    if s.players == [] then Err(NoPlayers)
    else if s.started then Err(AlreadyStarted)
    else
      var (dealt, left) := DealtHands(s.players, s.bag, |s.players|);
      Ok(s.(started := true, players := dealt, bag := left))
  }

  ghost function MarkDisconnected(s: State, id: string): Outcome {
    match SeatOf(s.players, id, 0)
    case None => Err(NotAPlayer)
    case Some(idx) => Ok(s.(players := s.players[idx := s.players[idx].(disconnected := true)]))
  }

  function MovedVote(votes: map<string, Vote>, oldId: string, newId: string): map<string, Vote> {
    if oldId in votes then (votes - {oldId})[newId := votes[oldId]] else votes
  }

  function Renamed(players: seq<Player>, oldId: string, newId: string): (r: seq<Player>)
    ensures |r| == |players|
  {
    seq(|players|, i requires 0 <= i < |players| =>
      if players[i].id == oldId then players[i].(id := newId, disconnected := false) else players[i])
  }

  ghost function ReplacePlayerSid(s: State, oldId: string, newId: string): Outcome {
    match SeatOf(s.players, oldId, 0)
    case None => Err(NotAPlayer)
    case Some(idx) =>
      Ok(s.(players := s.players[idx := s.players[idx].(id := newId, disconnected := false)],
            pending := if s.pending.None? then None
                       else Some(s.pending.value.(votes := MovedVote(s.pending.value.votes, oldId, newId))),
            winners := Renamed(s.winners, oldId, newId)))
  }

  ghost function RemovePlayer(s: State, id: string): Outcome {
    match SeatOf(s.players, id, 0)
    case None => Err(NotAPlayer)
    case Some(idx) => Ok(RemoveSeat(s, idx))
  }

  // The turn pointer stays with its player, or passes to the next seat when that player leaves.
  function PointerAfterRemoval(cur: nat, idx: nat, count: nat): nat {
    if count == 0 then 0
    else if idx < cur then cur - 1
    else if idx == cur && cur >= count then 0
    else cur
  }

  ghost function RemoveSeat(s: State, idx: nat): State
    requires idx < |s.players|
  {
    var left := s.players[..idx] + s.players[idx + 1..];
    var kept := if s.pending.Some? && s.pending.value.playerIdx == idx then None else s.pending;
    s.(players := left,
       cur := PointerAfterRemoval(s.cur, idx, |left|),
       pending := if left != [] && kept.Some? && idx < kept.value.playerIdx
                  then Some(kept.value.(playerIdx := kept.value.playerIdx - 1)) else kept)
  }

  // Does the game wait for the leaver to move?
  ghost predicate RemovalNeedsTurn(s: State, id: string) {
    var seat := SeatOf(s.players, id, 0);
    seat.Some? && |s.players| > 1 && seat.value == s.cur && s.started && !s.finished
  }

  ghost function SkipDisconnectedCurrent(s: State): Outcome {
    if !s.started || s.finished || s.pending.Some? || s.asyncMode || s.cur >= |s.players| then Err(NothingToDo)
    else if !s.players[s.cur].disconnected || !SomeoneConnected(s.players) then Err(NothingToDo)
    else Ok(NextTurn(s))
  }

  // ----- Runs -----

  // A turn skipped by an administrator counts as a missed deadline in a correspondence game.
  datatype Action =
    | Join(id: string, name: string, isBot: bool)
    | Begin
    | Disconnect(id: string)
    | Reconnect(oldId: string, newId: string)
    | Leave(id: string)
    | SkipDisconnected
    | Place(id: string, tiles: seq<Placed>)
    | CastVoteBy(id: string, vote: Vote)
    | Withdraw(id: string)
    | VoteTimeout
    | Exchange(id: string, indices: seq<int>, shuffled: seq<Tile>)
    | Pass(id: string, byAdmin: bool)
    | Expire
    | GiveUp(id: string)
    | ForceVerdict(accept: bool)
    | ForceFinish

  ghost function Attempt(rules: Rules, s: State, a: Action): Outcome
    requires PendingSeated(s)
  {
    match a
    case Join(id, name, isBot) => AddPlayer(s, id, name, isBot)
    case Begin => Start(s)
    case Disconnect(id) => MarkDisconnected(s, id)
    case Reconnect(oldId, newId) => ReplacePlayerSid(s, oldId, newId)
    case Leave(id) => RemovePlayer(s, id)
    case SkipDisconnected => SkipDisconnectedCurrent(s)
    case Place(id, tiles) => PlaceTiles(rules, s, id, tiles)
    case CastVoteBy(id, vote) => CastVote(s, id, vote)
    case Withdraw(id) => WithdrawPending(s, id)
    case VoteTimeout => AcceptPending(s)
    case Exchange(id, indices, shuffled) =>
      if IsShuffleOf(s, indices, shuffled) then ExchangeTiles(s, id, indices, shuffled) else Err(NothingToDo)
    case Pass(id, byAdmin) => PassTurn(s, id, byAdmin && s.asyncMode)
    case Expire => ExpireTurn(s)
    case GiveUp(id) => Resign(s, id)
    case ForceVerdict(accept) => ForceResolvePending(s, accept)
    case ForceFinish => ForceEnd(s)
  }

  // A refused action changes nothing.
  ghost function Apply(rules: Rules, s: State, a: Action): State
    requires PendingSeated(s)
  {
    match Attempt(rules, s, a)
    case Ok(next) => next
    case Err(_) => s
  }
}
