/**
 How a game ends: when it does, what everyone pays and gets, and that those with the most points win, without those
 who gave up.
 */
module Endings {
  import opened Results
  import opened Tiles
  import opened Bags
  import opened Grids
  import opened GameStates
  import opened GameLaws
  import opened Runs

  // ----- What everyone pays -----

  // The points of tiles, first tile first.
  function PointsFrom(tiles: seq<Tile>): nat {
    if tiles == [] then 0 else Value(tiles[0]) + PointsFrom(tiles[1..])
  }

  function HandsFrom(players: seq<Player>): nat {
    if players == [] then 0 else PointsFrom(players[0].hand) + HandsFrom(players[1..])
  }

  lemma {:induction false} PointsSnoc(tiles: seq<Tile>, t: Tile)
    ensures PointsFrom(tiles + [t]) == PointsFrom(tiles) + Value(t)
  {
    if tiles == [] {
      assert [t][1..] == [];
    } else {
      assert (tiles + [t])[1..] == tiles[1..] + [t];
      PointsSnoc(tiles[1..], t);
    }
  }

  lemma {:induction false} HandValueIs(hand: seq<Tile>, n: nat)
    requires n <= |hand|
    ensures HandValueTo(hand, n) == PointsFrom(hand[..n])
  {
    if n > 0 {
      HandValueIs(hand, n - 1);
      PointsSnoc(hand[..n - 1], hand[n - 1]);
      assert hand[..n] == hand[..n - 1] + [hand[n - 1]];
    }
  }

  lemma {:induction false} HandsSnoc(players: seq<Player>, p: Player)
    ensures HandsFrom(players + [p]) == HandsFrom(players) + PointsFrom(p.hand)
  {
    if players == [] {
      assert [p][1..] == [];
    } else {
      assert (players + [p])[1..] == players[1..] + [p];
      HandsSnoc(players[1..], p);
    }
  }

  lemma HandWorth(hand: seq<Tile>)
    ensures HandValue(hand) == PointsFrom(hand)
  {
    HandValueIs(hand, |hand|);
    assert hand[..|hand|] == hand;
  }

  lemma {:induction false} HandTotalIs(players: seq<Player>, n: nat)
    requires n <= |players|
    ensures HandTotalTo(players, n) == HandsFrom(players[..n])
  {
    if n > 0 {
      HandTotalIs(players, n - 1);
      HandWorth(players[n - 1].hand);
      HandsSnoc(players[..n - 1], players[n - 1]);
      assert players[..n] == players[..n - 1] + [players[n - 1]];
    }
  }

  lemma HandsWorth(players: seq<Player>)
    ensures HandTotal(players) == HandsFrom(players)
  {
    HandTotalIs(players, |players|);
    assert players[..|players|] == players;
  }

  lemma PaysAt(players: seq<Player>, i: nat)
    requires i < |players|
    ensures Settle(players)[i] == players[i].(score := players[i].score - HandValue(players[i].hand))
  {
  }

  lemma SettledAt(players: seq<Player>, finisher: Option<nat>, i: nat)
    requires (finisher.Some? ==> finisher.value < |players|) && i < |players|
    ensures Settled(players, finisher)[i]
            == Settle(players)[i].(score := Settle(players)[i].score
                                            + if finisher == Some(i) then HandTotal(players) else 0)
  {
    hide Settle, HandTotal;
    assert Settle(players)[i].(score := Settle(players)[i].score) == Settle(players)[i];
  }

  /** At the end everyone pays for the tiles left in hand; whoever played out gets what all paid together. */
  lemma EveryonePays(players: seq<Player>, finisher: Option<nat>, i: nat)
    requires (finisher.Some? ==> finisher.value < |players|) && i < |players|
    ensures Settled(players, finisher)[i]
            == players[i].(score := players[i].score - PointsFrom(players[i].hand)
                                    + if finisher == Some(i) then HandsFrom(players) else 0)
  {
    hide Settle, Settled, HandValue, HandTotal, PointsFrom, HandsFrom;
    HandWorth(players[i].hand);
    HandsWorth(players);
    PaysAt(players, i);
    SettledAt(players, finisher, i);
  }

  // ----- Who wins -----

  // Those who win: the ones among them that nobody of them beats.
  ghost predicate Best(winners: seq<Player>, players: seq<Player>) {
    forall p :: p in winners <==> p in players && forall q :: q in players ==> q.score <= p.score
  }

  lemma {:induction false} TopIsHighest(players: seq<Player>, n: nat)
    requires 0 < n <= |players|
    ensures forall i :: 0 <= i < n ==> players[i].score <= TopScoreTo(players, n)
    ensures exists i :: 0 <= i < n && players[i].score == TopScoreTo(players, n)
  {
    if n > 1 {
      TopIsHighest(players, n - 1);
      assert players[n - 1].score <= TopScoreTo(players, n);
    } else {
      assert players[0].score == TopScoreTo(players, 1);
    }
  }

  lemma {:induction false} WithScoreIn(players: seq<Player>, score: int, n: nat, p: Player)
    requires n <= |players|
    ensures p in WithScoreTo(players, score, n) <==> p in players[..n] && p.score == score
  {
    if n > 0 {
      WithScoreIn(players, score, n - 1, p);
      assert players[..n] == players[..n - 1] + [players[n - 1]];
    }
  }

  lemma BestHaveTop(players: seq<Player>)
    ensures Best(WithScore(players, TopScore(players)), players)
  {
    forall p ensures p in WithScore(players, TopScore(players)) <==>
                       p in players && forall q :: q in players ==> q.score <= p.score
    {
      WithScoreIn(players, TopScore(players), |players|, p);
      assert players[..|players|] == players;
      if p in players {
        TopIsHighest(players, |players|);
        var i :| 0 <= i < |players| && players[i].score == TopScore(players);
        assert players[i] in players;
      }
    }
  }

  lemma {:induction false} NotResignedIn(players: seq<Player>, n: nat, p: Player)
    requires n <= |players|
    ensures p in NotResignedTo(players, n) <==> p in players[..n] && !p.resigned
  {
    if n > 0 {
      NotResignedIn(players, n - 1, p);
      assert players[..n] == players[..n - 1] + [players[n - 1]];
    }
  }

  // Who may win: those who have not given up, or all if all have.
  ghost predicate Contends(players: seq<Player>, p: Player) {
    p in players && (!p.resigned || forall q :: q in players ==> q.resigned)
  }

  // The winners are the ones among those who may win whom nobody of them beats.
  ghost predicate Champions(s: State) {
    forall p :: p in s.winners <==>
      Contends(s.players, p) && forall q :: Contends(s.players, q) ==> q.score <= p.score
  }

  ghost predicate NobodyResigned(players: seq<Player>) {
    forall i :: 0 <= i < |players| ==> !players[i].resigned
  }

  /** An ending without resignation: those with the most points after the settlement win. */
  lemma EndGameChampions(s: State, finisher: Option<nat>)
    requires finisher.Some? ==> finisher.value < |s.players|
    ensures Best(EndGame(s, finisher).winners, EndGame(s, finisher).players)
    ensures NobodyResigned(s.players) ==> Champions(EndGame(s, finisher))
  {
    var t := EndGame(s, finisher);
    BestHaveTop(t.players);
    if NobodyResigned(s.players) {
      forall p ensures Contends(t.players, p) <==> p in t.players {
        if p in t.players {
          var i :| 0 <= i < |t.players| && t.players[i] == p;
          assert t.players[i].resigned == s.players[i].resigned;
        }
      }
    }
  }

  /** With resignations those with the most points among the others win; if all have resigned, among all. */
  lemma CrownedChampions(s: State, finisher: Option<nat>)
    requires finisher.Some? ==> finisher.value < |s.players|
    ensures Champions(Crowned(EndGame(s, finisher)))
  {
    var t := EndGame(s, finisher);
    var staying := NotResigned(t.players);
    BestHaveTop(t.players);
    BestHaveTop(staying);
    assert t.players[..|t.players|] == t.players;
    forall p ensures p in staying <==> p in t.players && !p.resigned {
      NotResignedIn(t.players, |t.players|, p);
    }
    if staying == [] {
      assert forall q :: q in t.players ==> q.resigned;
    } else {
      assert staying[0] in staying;
    }
    assert forall p :: Contends(t.players, p) <==> if staying == [] then p in t.players else p in staying;
  }

  // ----- Every ending -----

  lemma {:induction false} AdvanceResigned(players: seq<Player>, cur: nat, asyncMode: bool, steps: nat)
    requires NobodyResigned(players) && (players != [] || steps == 0)
    ensures NobodyResigned(Advance(players, cur, asyncMode, steps).0)
    decreases steps
  {
    if steps > 0 {
      var idx := (cur + 1) % |players|;
      AdvanceResigned(players, idx, asyncMode, steps - 1);
      AdvanceResigned(players[idx := players[idx].(skipNextTurn := false)], idx, asyncMode, steps - 1);
    }
  }

  // The game goes on with everybody, or its winners are right.
  ghost predicate RightlyDecided(s: State) {
    if s.finished then Champions(s) else NobodyResigned(s.players)
  }

  lemma NextTurnDecided(s: State)
    requires !s.finished && NobodyResigned(s.players)
    ensures RightlyDecided(NextTurn(s))
  {
    AdvanceResigned(s.players, s.cur, s.asyncMode, |s.players|);
  }

  lemma ScorelessDecided(s: State)
    requires !s.finished && NobodyResigned(s.players)
    ensures RightlyDecided(RegisterScoreless(s)) && RightlyDecided(ScorelessTurn(s))
  {
    hide EndGame, NextTurn, Champions;
    EndGameChampions(s.(scoreless := s.scoreless + 1), None);
    NextTurnDecided(s.(scoreless := s.scoreless + 1));
    assert EndGame(s.(scoreless := s.scoreless + 1), None).finished by {
      EndGameEnds(s.(scoreless := s.scoreless + 1), None);
    }
  }

  lemma EndGameEnds(s: State, finisher: Option<nat>)
    requires finisher.Some? ==> finisher.value < |s.players|
    ensures EndGame(s, finisher).finished && Crowned(EndGame(s, finisher)).finished
  {
  }

  lemma CommitDecided(s: State, idx: nat, hand: seq<Tile>, timeouts: nat, tiles: seq<Placed>, score: int, kind: Kind)
    requires !s.finished && NobodyResigned(s.players) && idx < |s.players|
    ensures RightlyDecided(AfterCommit(Commit(s, idx, hand, timeouts, tiles, score, kind), idx))
  {
    hide EndGame, NextTurn, Champions;
    var after := Commit(s, idx, hand, timeouts, tiles, score, kind);
    assert !after.finished && NobodyResigned(after.players);
    EndGameChampions(after, Some(idx));
    EndGameEnds(after, Some(idx));
    NextTurnDecided(after);
  }

  lemma AcceptDecided(s: State)
    requires !s.finished && NobodyResigned(s.players) && s.pending.Some? && PendingSeated(s)
    ensures RightlyDecided(FinalizeAccept(s))
  {
    hide Commit, AfterCommit, RightlyDecided;
    var pc := s.pending.value;
    var p := s.players[pc.playerIdx];
    CommitDecided(s, pc.playerIdx, p.hand, p.timeouts, pc.tiles, pc.score, AcceptMove);
  }

  lemma RejectDecided(s: State)
    requires !s.finished && NobodyResigned(s.players) && s.pending.Some? && PendingSeated(s)
    ensures RightlyDecided(FinalizeReject(s)) && RightlyDecided(ReturnTiles(s))
  {
    hide EndGame, NextTurn, Champions;
    var pc := s.pending.value;
    var returned := ReturnTiles(s).(rejected := s.rejected + {multiset(pc.tiles)});
    var recorded := Record(returned, pc.playerIdx, RejectMove, 0);
    assert !recorded.finished && NobodyResigned(recorded.players);
    ScorelessDecided(recorded);
    EndGameEnds(recorded.(scoreless := recorded.scoreless + 1), None);
    NextTurnDecided(recorded.(scoreless := recorded.scoreless + 1));
  }

  lemma VoteDecided(s: State, id: string, vote: Vote)
    requires !s.finished && NobodyResigned(s.players) && PendingSeated(s) && CastVote(s, id, vote).Ok?
    ensures RightlyDecided(CastVote(s, id, vote).value)
  {
    CastVoteLeads(s, id, vote);
    AcceptDecided(Voted(s, id, vote));
    RejectDecided(Voted(s, id, vote));
    hide CastVote, FinalizeAccept, FinalizeReject, Champions;
  }

  // A placement that is carried out; the solver of a daily puzzle wins it.
  lemma PlaceDecided(rules: Rules, s: State, id: string, tiles: seq<Placed>)
    requires !s.finished && NobodyResigned(s.players) && PlaceTiles(rules, s, id, tiles).Ok?
    ensures var t := PlaceTiles(rules, s, id, tiles).value;
            if s.puzzle.Some? && t.finished then s.cur < |t.players| && t.winners == [t.players[s.cur]]
            else RightlyDecided(t)
  {
    hide Validate, HasTiles, RemoveTiles, AfterCommit, Champions;
    var formed := Validate(rules, s.grid, s.boardEmpty, tiles,
                           ChallengeApplies(s.challengeMode, s.players, s.cur)).value;
    CommitDecided(s, s.cur, RemoveTiles(s.players[s.cur].hand, tiles), 0, tiles, PlacementTotal(formed, |tiles|),
                  PlaceMove);
  }

  lemma PassDecided(s: State, id: string, timeout: bool)
    requires !s.finished && NobodyResigned(s.players) && PassTurn(s, id, timeout).Ok?
    ensures RightlyDecided(PassTurn(s, id, timeout).value)
  {
    hide ScorelessTurn, RightlyDecided;
    ScorelessDecided(Record(Noted(s, timeout), s.cur, PassMove, 0));
  }

  lemma ExchangeDecided(s: State, id: string, indices: seq<int>, shuffled: seq<Tile>)
    requires !s.finished && NobodyResigned(s.players) && ExchangeTiles(s, id, indices, shuffled).Ok?
    ensures RightlyDecided(ExchangeTiles(s, id, indices, shuffled).value)
  {
    hide ScorelessTurn, RightlyDecided;
    ScorelessDecided(Record(Exchanged(s, indices, shuffled), s.cur, ExchangeMove, 0));
  }

  lemma ResignDecided(s: State, id: string)
    requires Resign(s, id).Ok?
    ensures Resign(s, id).value.finished && RightlyDecided(Resign(s, id).value)
  {
    hide EndGame, Crowned, Champions;
    CrownedChampions(GivenUp(s, SeatOf(s.players, id, 0).value), None);
    EndGameEnds(GivenUp(s, SeatOf(s.players, id, 0).value), None);
  }

  lemma ExpireDecided(s: State)
    requires !s.finished && NobodyResigned(s.players) && ExpireTurn(s).Ok?
    ensures RightlyDecided(ExpireTurn(s).value)
  {
    hide PassTurn, Resign, RightlyDecided;
    var id := s.players[s.cur].id;
    PassDecided(s, id, true);
    var passed := PassTurn(s, id, true).value;
    if Resign(passed, id).Ok? {
      ResignDecided(passed, id);
    }
  }

  lemma ForceEndDecided(s: State)
    requires !s.finished && NobodyResigned(s.players) && PendingSeated(s) && ForceEnd(s).Ok?
    ensures ForceEnd(s).value.finished && RightlyDecided(ForceEnd(s).value)
  {
    hide EndGame, Champions;
    EndGameChampions(if s.pending.Some? then ReturnTiles(s) else s, None);
    EndGameEnds(if s.pending.Some? then ReturnTiles(s) else s, None);
  }

  lemma RoomDecided(rules: Rules, s: State, a: Action)
    requires !s.finished && NobodyResigned(s.players) && PendingSeated(s) && Attempt(rules, s, a).Ok?
    requires a.Join? || a.Begin? || a.Disconnect? || a.Reconnect? || a.Leave? || a.SkipDisconnected?
    ensures RightlyDecided(Apply(rules, s, a))
  {
    hide NextTurn, DealtHands, SeatOf, Renamed, MovedVote, PointerAfterRemoval, Champions;
    DealtHandsFacts(s.players, s.bag, |s.players|);
    NextTurnDecided(s);
  }

  /**
   Whatever action ends a game, those with the most points after the settlement win it, without those who gave up
   (unless all did); only the solver of a daily puzzle wins without comparison. Until then nobody has given up.
   */
  lemma EndingCrowns(rules: Rules, s: State, a: Action)
    requires PendingSeated(s) && !s.finished && NobodyResigned(s.players)
    ensures var t := Apply(rules, s, a);
            if a.Place? && s.puzzle.Some? && t.finished then s.cur < |t.players| && t.winners == [t.players[s.cur]]
            else RightlyDecided(t)
  {
    if Attempt(rules, s, a).Ok? {
      hide PlaceTiles, CastVote, FinalizeAccept, FinalizeReject, ReturnTiles, Resign, ForceEnd, RightlyDecided,
        PassTurn, ExchangeTiles, ExpireTurn;
      match a
      case Place(id, tiles) => PlaceDecided(rules, s, id, tiles);
      case CastVoteBy(id, vote) => VoteDecided(s, id, vote);
      case Withdraw(_) => RejectDecided(s);
      case VoteTimeout => AcceptDecided(s); RejectDecided(s);
      case ForceVerdict(_) => AcceptDecided(s); RejectDecided(s);
      case GiveUp(id) => ResignDecided(s, id);
      case ForceFinish => ForceEndDecided(s);
      case Exchange(id, indices, shuffled) => ExchangeDecided(s, id, indices, shuffled);
      case Pass(id, byAdmin) => PassDecided(s, id, byAdmin && s.asyncMode);
      case Expire => ExpireDecided(s);
      case _ => RoomDecided(rules, s, a);
    }
  }

  /** In every run of a new game nobody has given up as long as the game goes on. */
  lemma {:induction false} NobodyResignedYet(rules: Rules, s: State, actions: seq<Action>)
    requires Inv(rules, s) && !s.finished && NobodyResigned(s.players)
    ensures Play(rules, s, actions).finished || NobodyResigned(Play(rules, s, actions).players)
  {
    hide Apply, NobodyResigned, Champions;
    if actions != [] {
      var before := Play(rules, s, Front(actions));
      NobodyResignedYet(rules, s, Front(actions));
      if before.finished {
        EndsOnce(rules, s, Front(actions));
        EndsOnce(rules, s, actions);
      } else {
        EndingCrowns(rules, before, Last(actions));
      }
    }
  }

  // ----- When a game ends -----

  // How many tiles are in a hand after it has been filled up from the bag.
  lemma FilledUp(hand: seq<Tile>, bag: seq<Tile>)
    ensures hand + Drawn(bag, Refill(hand)) == [] && LeftAfter(bag, Refill(hand)) == [] <==> hand == [] && bag == []
  {
    DrawSplits(bag, Refill(hand));
  }

  lemma CommitEnds(s: State, idx: nat, hand: seq<Tile>, timeouts: nat, tiles: seq<Placed>, score: int, kind: Kind)
    requires !s.finished && idx < |s.players|
    ensures AfterCommit(Commit(s, idx, hand, timeouts, tiles, score, kind), idx).finished <==> hand == [] && s.bag == []
  {
    FilledUp(hand, s.bag);
    hide Refill, Drawn, LeftAfter, Settled, Advance, WithScore;
  }

  /**
   A placement that is carried out ends the game exactly when it solves a daily puzzle, or when it takes the whole
   hand while the bag is empty.
   */
  lemma PlacingEndsIff(s: State, tiles: seq<Placed>, score: int)
    requires !s.finished && s.cur < |s.players| && HasTiles(s.players[s.cur].hand, tiles)
    ensures FinalizePlacement(s, tiles, score).finished
            <==> s.puzzle.Some? || (|tiles| == |s.players[s.cur].hand| && s.bag == [])
  {
    HasTilesIffIncluded(s.players[s.cur].hand, tiles);
    CommitEnds(s, s.cur, RemoveTiles(s.players[s.cur].hand, tiles), 0, tiles, score, PlaceMove);
    hide AfterCommit, HasTiles, RemoveTiles, Commit;
  }

  /** An accepted placement ends the game exactly when it took the whole hand while the bag is empty. */
  lemma AcceptingEndsIff(s: State)
    requires !s.finished && s.pending.Some? && PendingSeated(s)
    ensures FinalizeAccept(s).finished <==> s.players[s.pending.value.playerIdx].hand == [] && s.bag == []
  {
    var pc := s.pending.value;
    var p := s.players[pc.playerIdx];
    CommitEnds(s, pc.playerIdx, p.hand, p.timeouts, pc.tiles, pc.score, AcceptMove);
    hide AfterCommit, Commit;
  }

  /** A turn without points ends the game exactly when it is the sixth in a row. */
  lemma SixthScorelessEnds(s: State)
    requires !s.finished && s.scoreless < 6
    ensures ScorelessTurn(s).finished <==> s.scoreless == 5
    ensures ScorelessTurn(s).scoreless == s.scoreless + 1
  {
    hide Settled, Advance, WithScore;
  }

  /** Exchanges, passes and rejected placements are such turns. */
  lemma ScorelessActions(s: State, id: string, indices: seq<int>, shuffled: seq<Tile>, timeout: bool)
    requires !s.finished && s.scoreless < 6 && PendingSeated(s)
    ensures var t := ExchangeTiles(s, id, indices, shuffled);
            t.Ok? ==> t.value.scoreless == s.scoreless + 1 && (t.value.finished <==> s.scoreless == 5)
    ensures var t := PassTurn(s, id, timeout);
            t.Ok? ==> t.value.scoreless == s.scoreless + 1 && (t.value.finished <==> s.scoreless == 5)
    ensures s.pending.Some? ==>
              FinalizeReject(s).scoreless == s.scoreless + 1 && (FinalizeReject(s).finished <==> s.scoreless == 5)
  {
    hide Select, Settled, Advance, WithScore, ScorelessTurn;
    if ExchangeTiles(s, id, indices, shuffled).Ok? {
      SixthScorelessEnds(Record(Exchanged(s, indices, shuffled), s.cur, ExchangeMove, 0));
    }
    if PassTurn(s, id, timeout).Ok? {
      SixthScorelessEnds(Record(Noted(s, timeout), s.cur, PassMove, 0));
    }
  }

  // ----- Deadlines -----

  // The only player with the id.
  ghost predicate OnlySeat(players: seq<Player>, seat: nat)
    requires seat < |players|
  {
    forall i :: 0 <= i < |players| && players[i].id == players[seat].id ==> i == seat
  }

  // A pass for a missed deadline, when the game goes on.
  lemma MissedPass(rules: Rules, s: State)
    requires Inv(rules, s) && ExpireTurn(s).Ok? && s.scoreless < 5
    ensures s.cur < |s.players|
    ensures var p := s.players[s.cur];
            var passed := PassTurn(s, p.id, true);
            && passed.Ok? && !passed.value.finished && passed.value.started
            && passed.value.players == s.players[s.cur := p.(timeouts := p.timeouts + 1)]
  {
    MissNoted(s);
    hide Inv, NoPenalties, Advance, EndGame, Noted, Record, ScorelessTurn;
    GoesOn(Record(Noted(s, true), s.cur, PassMove, 0));
  }

  lemma MissNoted(s: State)
    requires NoPenalties(s.players) && s.cur < |s.players|
    ensures var t := Record(Noted(s, true), s.cur, PassMove, 0);
            && t.players == s.players[s.cur := s.players[s.cur].(timeouts := s.players[s.cur].timeouts + 1)]
            && NoPenalties(t.players) && t.started == s.started && t.finished == s.finished
            && t.scoreless == s.scoreless
  {
  }

  lemma GoesOn(s: State)
    requires NoPenalties(s.players) && !s.finished && s.scoreless < 5
    ensures var t := ScorelessTurn(s);
            t.players == s.players && !t.finished && t.started == s.started
  {
    AdvanceWithoutPenalties(s.players, s.cur, s.asyncMode, |s.players|);
  }

  lemma {:induction false} SeatIsOnly(players: seq<Player>, seat: nat, from: nat)
    requires seat < |players| && from <= seat && OnlySeat(players, seat)
    ensures SeatOf(players, players[seat].id, from) == Some(seat)
    decreases seat - from
  {
    if from < seat {
      SeatIsOnly(players, seat, from + 1);
    }
  }

  // Giving up ends the game, and who gives up does not win while others stay.
  lemma ResignLoses(s: State, seat: nat)
    requires s.started && !s.finished && seat < |s.players| && OnlySeat(s.players, seat)
    ensures var t := Resign(s, s.players[seat].id);
            && t.Ok? && t.value.finished && |t.value.players| == |s.players| && t.value.players[seat].resigned
            && (forall i :: 0 <= i < |s.players| && i != seat ==>
                  t.value.players[i].resigned == s.players[i].resigned)
            && ((exists i :: 0 <= i < |s.players| && i != seat && !s.players[i].resigned) ==>
                  forall w :: w in t.value.winners ==> !w.resigned)
  {
    SeatIsOnly(s.players, seat, 0);
    var given := GivenUp(s, seat);
    var t := Crowned(EndGame(given, None));
    CrownedChampions(given, None);
    EndGameEnds(given, None);
    ResignedKept(given, None);
    hide Crowned, EndGame, SeatOf, OnlySeat;
    if i :| 0 <= i < |s.players| && i != seat && !s.players[i].resigned {
      assert t.players[i] in t.players && !t.players[i].resigned;
    }
  }

  lemma ResignedKept(s: State, finisher: Option<nat>)
    requires finisher.Some? ==> finisher.value < |s.players|
    ensures var t := Crowned(EndGame(s, finisher));
            && |t.players| == |s.players|
            && forall i :: 0 <= i < |s.players| ==> t.players[i].resigned == s.players[i].resigned
  {
    hide WithScore, NotResigned;
  }

  /**
   A missed deadline is a turn without points. Unless it is the sixth of them, the third missed deadline in a row, and
   no earlier one, ends the game; then the player has given up and does not win.
   */
  lemma ThirdMissEnds(rules: Rules, s: State)
    requires Inv(rules, s) && ExpireTurn(s).Ok? && s.scoreless < 5
    requires NobodyResigned(s.players) && OnlySeat(s.players, s.cur)
    ensures var t, p := ExpireTurn(s).value, s.players[s.cur];
            && |t.players| == |s.players| && t.players[s.cur].timeouts == p.timeouts + 1
            && (t.finished <==> p.timeouts + 1 >= 3) && (t.players[s.cur].resigned <==> t.finished)
            && (t.finished && |s.players| > 1 ==> forall w :: w in t.winners ==> !w.resigned)
  {
    var p := s.players[s.cur];
    MissedPass(rules, s);
    var passed := PassTurn(s, p.id, true).value;
    assert OnlySeat(passed.players, s.cur);
    SeatIsOnly(passed.players, s.cur, 0);
    hide PassTurn, Resign, OnlySeat, SeatOf;
    if p.timeouts + 1 >= 3 {
      ResignLoses(passed, s.cur);
      TimeoutsKept(passed, p.id, s.cur);
      if |s.players| > 1 {
        var other := if s.cur == 0 then 1 else 0;
        assert !passed.players[other].resigned;
      }
    }
  }

  lemma TimeoutsKept(s: State, id: string, i: nat)
    requires i < |s.players| && Resign(s, id).Ok?
    ensures |Resign(s, id).value.players| == |s.players|
    ensures Resign(s, id).value.players[i].timeouts == s.players[i].timeouts
  {
    hide WithScore, NotResigned, SeatOf;
  }
}
