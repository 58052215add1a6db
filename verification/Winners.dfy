/** Who won, by name: the winners of a finished game are seated players, and come back from a saved game. */
module Winners {
  import opened Results
  import opened Tiles
  import opened Bags
  import opened Grids
  import opened GameStates
  import opened GameLaws
  import opened Saves
  import opened SaveLaws
  import opened Runs

  // xs is part of ys, in the same order.
  ghost predicate PartOf(xs: seq<string>, ys: seq<string>) {
    xs == [] ||
    (ys != [] &&
     var n, m := |xs| - 1, |ys| - 1;
     ((xs[n] == ys[m] && PartOf(xs[..n], ys[..m])) || PartOf(xs, ys[..m])))
  }

  ghost predicate AllDifferent(names: seq<string>) {
    forall i, j :: 0 <= i < j < |names| ==> names[i] != names[j]
  }

  lemma {:induction false} PartOfElements(xs: seq<string>, ys: seq<string>)
    requires PartOf(xs, ys)
    ensures forall x :: x in xs ==> x in ys
  {
    if xs != [] {
      var n, m := |xs| - 1, |ys| - 1;
      assert xs == xs[..n] + [xs[n]] && ys == ys[..m] + [ys[m]];
      if xs[n] == ys[m] && PartOf(xs[..n], ys[..m]) {
        PartOfElements(xs[..n], ys[..m]);
      } else {
        PartOfElements(xs, ys[..m]);
      }
    }
  }

  lemma PartOfGrow(xs: seq<string>, ys: seq<string>, y: string)
    requires PartOf(xs, ys)
    ensures PartOf(xs, ys + [y]) && PartOf(xs + [y], ys + [y])
  {
    assert (xs + [y])[..|xs|] == xs && (ys + [y])[..|ys|] == ys;
  }

  lemma NamesSnoc(players: seq<Player>, p: Player)
    ensures NamesOf(players + [p]) == NamesOf(players) + [p.name]
  {
  }

  lemma NamesStep(players: seq<Player>, n: nat)
    requires 0 < n <= |players|
    ensures NamesOf(players)[..n] == NamesOf(players)[..n - 1] + [players[n - 1].name]
  {
  }

  // One more player is kept or left out.
  lemma KeepOrSkip(players: seq<Player>, kept: seq<Player>, n: nat)
    requires 0 < n <= |players| && PartOf(NamesOf(kept), NamesOf(players)[..n - 1])
    ensures PartOf(NamesOf(kept + [players[n - 1]]), NamesOf(players)[..n])
    ensures PartOf(NamesOf(kept + []), NamesOf(players)[..n])
  {
    NamesStep(players, n);
    NamesSnoc(kept, players[n - 1]);
    PartOfGrow(NamesOf(kept), NamesOf(players)[..n - 1], players[n - 1].name);
    assert kept + [] == kept;
  }

  // Picking the players with one of the names gives back just these names.
  lemma {:induction false} NamedPicks(players: seq<Player>, all: seq<string>, names: seq<string>, n: nat)
    requires n <= |players| && AllDifferent(NamesOf(players))
    requires PartOf(names, NamesOf(players)[..n])
    requires forall i :: 0 <= i < n ==> (players[i].name in all <==> players[i].name in names)
    ensures NamesOf(NamedTo(players, all, n)) == names
  {
    if n > 0 {
      var ys := NamesOf(players)[..n - 1];
      var last := players[n - 1].name;
      NamesStep(players, n);
      assert (ys + [last])[..n - 1] == ys;
      forall i | 0 <= i < n - 1 ensures players[i].name != last {
        assert NamesOf(players)[i] != NamesOf(players)[n - 1];
      }
      var before := NamedTo(players, all, n - 1);
      if names != [] && names[|names| - 1] == last && PartOf(names[..|names| - 1], ys) {
        var front := names[..|names| - 1];
        assert names == front + [last];
        NamedPicks(players, all, front, n - 1);
        NamesSnoc(before, players[n - 1]);
      } else {
        PartOfElements(names, ys);
        assert last !in ys;
        NamedPicks(players, all, names, n - 1);
        assert before + [] == before;
      }
    }
  }

  lemma {:induction false} NamedArePart(players: seq<Player>, names: seq<string>, n: nat)
    requires n <= |players|
    ensures PartOf(NamesOf(NamedTo(players, names, n)), NamesOf(players)[..n])
  {
    if n > 0 {
      NamedArePart(players, names, n - 1);
      KeepOrSkip(players, NamedTo(players, names, n - 1), n);
    }
  }

  /**
   With different names, the restored winners are the saved ones exactly when these are still seated, in seat
   order.
   */
  lemma WinnersSurvive(s: State)
    requires PendingSeated(s) && AllDifferent(NamesOf(s.players))
    ensures NamesOf(Restored(s).winners) == NamesOf(s.winners) <==> PartOf(NamesOf(s.winners), NamesOf(s.players))
  {
    var players := Restored(s).players;
    assert NamesOf(players) == NamesOf(s.players);
    assert NamesOf(players)[..|players|] == NamesOf(players);
    NamedArePart(players, NamesOf(s.winners), |players|);
    if PartOf(NamesOf(s.winners), NamesOf(s.players)) {
      NamedPicks(players, NamesOf(s.winners), NamesOf(s.winners), |players|);
    }
  }

  lemma {:induction false} BestArePart(players: seq<Player>, score: int, n: nat)
    requires n <= |players|
    ensures PartOf(NamesOf(WithScoreTo(players, score, n)), NamesOf(players)[..n])
  {
    if n > 0 {
      BestArePart(players, score, n - 1);
      KeepOrSkip(players, WithScoreTo(players, score, n - 1), n);
    }
  }

  lemma {:induction false} StayingArePart(players: seq<Player>, n: nat)
    requires n <= |players|
    ensures PartOf(NamesOf(NotResignedTo(players, n)), NamesOf(players)[..n])
  {
    if n > 0 {
      StayingArePart(players, n - 1);
      KeepOrSkip(players, NotResignedTo(players, n - 1), n);
    }
  }

  lemma {:induction false} PartOfTransitive(xs: seq<string>, ys: seq<string>, zs: seq<string>)
    requires PartOf(xs, ys) && PartOf(ys, zs)
    ensures PartOf(xs, zs)
    decreases |zs|
  {
    if xs != [] {
      var n, m, k := |xs| - 1, |ys| - 1, |zs| - 1;
      if ys[m] == zs[k] && PartOf(ys[..m], zs[..k]) {
        if xs[n] == ys[m] && PartOf(xs[..n], ys[..m]) {
          PartOfTransitive(xs[..n], ys[..m], zs[..k]);
        } else {
          PartOfTransitive(xs, ys[..m], zs[..k]);
        }
      } else {
        PartOfTransitive(xs, ys, zs[..k]);
      }
    }
  }

  /** However a game ends, the winners are seated players. */
  lemma EndSeatsWinners(s: State, finisher: Option<nat>)
    requires finisher.Some? ==> finisher.value < |s.players|
    ensures var t := EndGame(s, finisher);
            && PartOf(NamesOf(t.winners), NamesOf(t.players))
            && PartOf(NamesOf(Crowned(t).winners), NamesOf(Crowned(t).players))
  {
    var players := EndGame(s, finisher).players;
    assert NamesOf(players)[..|players|] == NamesOf(players);
    BestArePart(players, TopScore(players), |players|);
    var staying := NotResigned(players);
    if staying != [] {
      assert NamesOf(staying)[..|staying|] == NamesOf(staying);
      BestArePart(staying, TopScore(staying), |staying|);
      StayingArePart(players, |players|);
      PartOfTransitive(NamesOf(WithScore(staying, TopScore(staying))), NamesOf(staying), NamesOf(players));
    }
  }

  // ----- In every run -----

  // Before the end there are no winners; after it they are seated.
  ghost predicate WinnersSeated(s: State) {
    if s.finished then PartOf(NamesOf(s.winners), NamesOf(s.players)) else s.winners == []
  }

  // Winners by name, seats by name, and the end are as before.
  ghost predicate SameNames(s: State, t: State) {
    && NamesOf(t.players) == NamesOf(s.players) && NamesOf(t.winners) == NamesOf(s.winners)
    && t.finished == s.finished
  }

  lemma SameNamesSeated(s: State, t: State)
    requires WinnersSeated(s) && SameNames(s, t)
    ensures WinnersSeated(t)
  {
    assert |NamesOf(t.winners)| == |NamesOf(s.winners)|;
  }

  lemma {:induction false} AdvanceNames(players: seq<Player>, cur: nat, asyncMode: bool, steps: nat)
    requires players != [] || steps == 0
    ensures NamesOf(Advance(players, cur, asyncMode, steps).0) == NamesOf(players)
    decreases steps
  {
    if steps > 0 {
      var idx := (cur + 1) % |players|;
      AdvanceNames(players, idx, asyncMode, steps - 1);
      var freed := players[idx := players[idx].(skipNextTurn := false)];
      AdvanceNames(freed, idx, asyncMode, steps - 1);
      assert NamesOf(freed) == NamesOf(players);
    }
  }

  lemma NextTurnNames(s: State)
    ensures SameNames(s, NextTurn(s))
  {
    AdvanceNames(s.players, s.cur, s.asyncMode, |s.players|);
  }

  lemma AfterCommitSeats(s: State, idx: nat)
    requires idx < |s.players| && !s.finished && s.winners == []
    ensures WinnersSeated(AfterCommit(s, idx))
  {
    EndSeatsWinners(s, Some(idx));
    NextTurnNames(s);
    SameNamesSeated(s, NextTurn(s));
  }

  lemma SeatNames(players: seq<Player>, i: nat, p: Player)
    requires i < |players| && p.name == players[i].name
    ensures NamesOf(players[i := p]) == NamesOf(players)
  {
  }

  lemma ReturnNames(s: State)
    requires s.pending.Some? && PendingSeated(s)
    ensures SameNames(s, ReturnTiles(s))
  {
    var pc := s.pending.value;
    var p := s.players[pc.playerIdx];
    SeatNames(s.players, pc.playerIdx, p.(hand := p.hand + pc.removed));
  }

  lemma {:induction false} DealtNames(players: seq<Player>, bag: seq<Tile>, n: nat)
    requires n <= |players|
    ensures NamesOf(DealtHands(players, bag, n).0) == NamesOf(players)
  {
    if n > 0 {
      DealtNames(players, bag, n - 1);
      var (dealt, left) := DealtHands(players, bag, n - 1);
      SeatNames(dealt, n - 1, dealt[n - 1].(hand := Drawn(left, HAND_SIZE)));
    }
  }

  lemma OnePart(players: seq<Player>, i: nat, n: nat)
    requires i < n <= |players|
    ensures PartOf([players[i].name], NamesOf(players)[..n])
  {
    NamesStep(players, n);
    var ys := NamesOf(players)[..n - 1];
    if i == n - 1 {
      assert [] + [players[i].name] == [players[i].name];
      PartOfGrow([], ys, players[i].name);
    } else {
      OnePart(players, i, n - 1);
      PartOfGrow([players[i].name], ys, players[n - 1].name);
    }
  }

  // A scoreless turn goes on or ends the game.
  lemma ScorelessSeats(s: State)
    requires !s.finished && s.winners == []
    ensures WinnersSeated(RegisterScoreless(s)) && WinnersSeated(ScorelessTurn(s))
  {
    EndSeatsWinners(s.(scoreless := s.scoreless + 1), None);
    NextTurnNames(RegisterScoreless(s));
    SameNamesSeated(RegisterScoreless(s), NextTurn(RegisterScoreless(s)));
  }

  lemma AcceptSeats(s: State)
    requires s.pending.Some? && PendingSeated(s) && !s.finished && s.winners == []
    ensures WinnersSeated(FinalizeAccept(s))
  {
    var pc := s.pending.value;
    var p := s.players[pc.playerIdx];
    AfterCommitSeats(Commit(s, pc.playerIdx, p.hand, p.timeouts, pc.tiles, pc.score, AcceptMove), pc.playerIdx);
  }

  lemma RejectSeats(s: State)
    requires s.pending.Some? && PendingSeated(s) && !s.finished && s.winners == []
    ensures WinnersSeated(FinalizeReject(s))
  {
    var pc := s.pending.value;
    var noted := Record(ReturnTiles(s).(rejected := s.rejected + {multiset(pc.tiles)}), pc.playerIdx, RejectMove, 0);
    ScorelessSeats(noted);
    NextTurnNames(RegisterScoreless(noted));
    SameNamesSeated(RegisterScoreless(noted), NextTurn(RegisterScoreless(noted)));
  }

  lemma PlacementSeats(s: State, tiles: seq<Placed>, score: int)
    requires s.cur < |s.players| && !s.finished && s.winners == []
    ensures WinnersSeated(FinalizePlacement(s, tiles, score))
  {
    var after := Commit(s, s.cur, RemoveTiles(s.players[s.cur].hand, tiles), 0, tiles, score, PlaceMove);
    if s.puzzle.Some? {
      OnePart(after.players, s.cur, |after.players|);
      assert NamesOf(after.players)[..|after.players|] == NamesOf(after.players);
      assert NamesOf([after.players[s.cur]]) == [after.players[s.cur].name];
    } else {
      AfterCommitSeats(after, s.cur);
    }
  }

  lemma ResignSeats(s: State, id: string)
    requires WinnersSeated(s)
    ensures WinnersSeated(OrSame(Resign(s, id), s))
  {
    if Resign(s, id).Ok? {
      EndSeatsWinners(GivenUp(s, SeatOf(s.players, id, 0).value), None);
    }
  }

  lemma PassSeats(s: State, id: string, timeout: bool)
    requires WinnersSeated(s)
    ensures WinnersSeated(OrSame(PassTurn(s, id, timeout), s))
  {
    if PassTurn(s, id, timeout).Ok? {
      ScorelessSeats(Record(Noted(s, timeout), s.cur, PassMove, 0));
    }
  }

  lemma ExpireSeats(s: State)
    requires WinnersSeated(s)
    ensures WinnersSeated(OrSame(ExpireTurn(s), s))
  {
    if ExpireTurn(s).Ok? {
      var id := s.players[s.cur].id;
      PassSeats(s, id, true);
      ResignSeats(PassTurn(s, id, true).value, id);
    }
  }

  lemma ExchangeSeats(s: State, id: string, indices: seq<int>, shuffled: seq<Tile>)
    requires WinnersSeated(s)
    ensures WinnersSeated(OrSame(ExchangeTiles(s, id, indices, shuffled), s))
  {
    if ExchangeTiles(s, id, indices, shuffled).Ok? {
      ScorelessSeats(Record(Exchanged(s, indices, shuffled), s.cur, ExchangeMove, 0));
    }
  }

  lemma PlaceSeats(rules: Rules, s: State, id: string, tiles: seq<Placed>)
    requires WinnersSeated(s)
    ensures WinnersSeated(OrSame(PlaceTiles(rules, s, id, tiles), s))
  {
    var outcome := PlaceTiles(rules, s, id, tiles);
    if outcome.Ok? {
      var formed := Validate(rules, s.grid, s.boardEmpty, tiles,
                             ChallengeApplies(s.challengeMode, s.players, s.cur)).value;
      PlacementSeats(s, tiles, PlacementTotal(formed, |tiles|));
    }
  }

  lemma VoteSeats(s: State, id: string, vote: Vote)
    requires PendingSeated(s) && WinnersSeated(s) && (s.pending.Some? ==> !s.finished)
    ensures WinnersSeated(OrSame(CastVote(s, id, vote), s))
  {
    if CastVote(s, id, vote).Ok? {
      AcceptSeats(Voted(s, id, vote));
      RejectSeats(Voted(s, id, vote));
    }
  }

  // Votes, verdicts and withdrawals.
  lemma PendingSeats(s: State, id: string, accept: bool)
    requires PendingSeated(s) && WinnersSeated(s) && (s.pending.Some? ==> !s.finished)
    ensures WinnersSeated(OrSame(WithdrawPending(s, id), s)) && WinnersSeated(OrSame(AcceptPending(s), s))
    ensures WinnersSeated(OrSame(ForceResolvePending(s, accept), s))
  {
    if s.pending.Some? {
      ReturnNames(s);
      SameNamesSeated(s, ReturnTiles(s));
      AcceptSeats(s);
      RejectSeats(s);
    }
  }

  lemma ForceEndSeats(s: State)
    requires PendingSeated(s) && WinnersSeated(s)
    ensures WinnersSeated(OrSame(ForceEnd(s), s))
  {
    EndSeatsWinners(if s.pending.Some? then ReturnTiles(s) else s, None);
  }

  // Joining, dealing and connections.
  lemma LobbySeats(s: State, id: string, name: string, isBot: bool)
    requires WinnersSeated(s)
    ensures WinnersSeated(OrSame(AddPlayer(s, id, name, isBot), s)) && WinnersSeated(OrSame(Start(s), s))
  {
    var p := Player(id, name, [], 0, false, false, 0, false, isBot);
    NamesSnoc(s.players, p);
    if s.finished {
      PartOfGrow(NamesOf(s.winners), NamesOf(s.players), name);
    }
    DealtNames(s.players, s.bag, |s.players|);
  }

  lemma ConnectionSeats(s: State, id: string, newId: string)
    requires WinnersSeated(s)
    ensures WinnersSeated(OrSame(MarkDisconnected(s, id), s))
            && WinnersSeated(OrSame(ReplacePlayerSid(s, id, newId), s))
    ensures WinnersSeated(OrSame(SkipDisconnectedCurrent(s), s))
  {
    var seat := SeatOf(s.players, id, 0);
    if seat.Some? {
      var i := seat.value;
      SeatNames(s.players, i, s.players[i].(disconnected := true));
      SeatNames(s.players, i, s.players[i].(id := newId, disconnected := false));
      assert NamesOf(Renamed(s.winners, id, newId)) == NamesOf(s.winners);
    }
    NextTurnNames(s);
    SameNamesSeated(s, NextTurn(s));
  }

  lemma LeaveSeats(s: State, id: string)
    requires WinnersSeated(s) && !s.finished
    ensures WinnersSeated(OrSame(RemovePlayer(s, id), s))
  {
  }

  lemma PendingUnfinished(rules: Rules, s: State)
    requires Inv(rules, s)
    ensures PendingSeated(s) && (s.pending.Some? ==> !s.finished)
  {
  }

  lemma RoomStepSeats(rules: Rules, s: State, a: Action)
    requires PendingSeated(s) && WinnersSeated(s) && !(a.Leave? && s.finished)
    requires a.Join? || a.Begin? || a.Disconnect? || a.Reconnect? || a.Leave? || a.SkipDisconnected?
    ensures WinnersSeated(Apply(rules, s, a))
  {
    match a
    case Join(id, name, isBot) => LobbySeats(s, id, name, isBot);
    case Begin => LobbySeats(s, "", "", false);
    case Disconnect(id) => ConnectionSeats(s, id, id);
    case Reconnect(oldId, newId) => ConnectionSeats(s, oldId, newId);
    case Leave(id) => LeaveSeats(s, id);
    case SkipDisconnected => ConnectionSeats(s, "", "");
  }

  lemma PlacementStepSeats(rules: Rules, s: State, a: Action)
    requires PendingSeated(s) && WinnersSeated(s) && (s.pending.Some? ==> !s.finished)
    requires a.Place? || a.CastVoteBy? || a.Withdraw? || a.VoteTimeout? || a.ForceVerdict?
    ensures WinnersSeated(Apply(rules, s, a))
  {
    match a
    case Place(id, tiles) => PlaceSeats(rules, s, id, tiles);
    case CastVoteBy(id, vote) => VoteSeats(s, id, vote);
    case Withdraw(id) => PendingSeats(s, id, true);
    case VoteTimeout => PendingSeats(s, "", true);
    case ForceVerdict(accept) => PendingSeats(s, "", accept);
  }

  lemma TurnStepSeats(rules: Rules, s: State, a: Action)
    requires PendingSeated(s) && WinnersSeated(s)
    requires a.Exchange? || a.Pass? || a.Expire? || a.GiveUp? || a.ForceFinish?
    ensures WinnersSeated(Apply(rules, s, a))
  {
    match a
    case Exchange(id, indices, shuffled) => ExchangeSeats(s, id, indices, shuffled);
    case Pass(id, byAdmin) => PassSeats(s, id, byAdmin && s.asyncMode);
    case Expire => ExpireSeats(s);
    case GiveUp(id) => ResignSeats(s, id);
    case ForceFinish => ForceEndSeats(s);
  }

  /** No action but leaving a finished game takes a winner's seat away. */
  lemma StepSeatsWinners(rules: Rules, s: State, a: Action)
    requires Inv(rules, s) && WinnersSeated(s) && !(a.Leave? && s.finished)
    ensures WinnersSeated(Apply(rules, s, a))
  {
    PendingUnfinished(rules, s);
    if a.Join? || a.Begin? || a.Disconnect? || a.Reconnect? || a.Leave? || a.SkipDisconnected? {
      RoomStepSeats(rules, s, a);
    } else if a.Place? || a.CastVoteBy? || a.Withdraw? || a.VoteTimeout? || a.ForceVerdict? {
      PlacementStepSeats(rules, s, a);
    } else {
      TurnStepSeats(rules, s, a);
    }
  }

  // Nobody leaves a finished game.
  ghost predicate StaysTogether(rules: Rules, s: State, actions: seq<Action>)
    requires Inv(rules, s)
  {
    forall n :: 0 <= n < |actions| && actions[n].Leave? ==> !Play(rules, s, actions[..n]).finished
  }

  /** In every run in which nobody leaves a finished game, the winners are seated, in seat order. */
  lemma {:induction false} WinnersStaySeated(rules: Rules, s: State, actions: seq<Action>)
    requires Inv(rules, s) && WinnersSeated(s) && StaysTogether(rules, s, actions)
    ensures WinnersSeated(Play(rules, s, actions))
  {
    hide WinnersSeated, Inv, Apply;
    if actions != [] {
      var front := Front(actions);
      forall n | 0 <= n < |front| ensures front[..n] == actions[..n] && front[n] == actions[n] {
      }
      WinnersStaySeated(rules, s, front);
      StepSeatsWinners(rules, Play(rules, s, front), Last(actions));
    }
  }

  /** So in such a run from a new game, with different names, the winners survive saving and restoring. */
  lemma WinnersSurviveRuns(rules: Rules, bag: seq<Tile>, challengeMode: bool, asyncMode: bool, puzzle: Option<Puzzle>,
                           actions: seq<Action>)
    requires StaysTogether(rules, Opening(rules, bag, challengeMode, asyncMode, puzzle), actions)
    ensures var t := Play(rules, Opening(rules, bag, challengeMode, asyncMode, puzzle), actions);
            AllDifferent(NamesOf(t.players)) ==> NamesOf(Restored(t).winners) == NamesOf(t.winners)
  {
    var s := Opening(rules, bag, challengeMode, asyncMode, puzzle);
    WinnersStaySeated(rules, s, actions);
    var t := Play(rules, s, actions);
    assert t.winners == [] ==> NamesOf(t.winners) == [];
    if AllDifferent(NamesOf(t.players)) {
      WinnersSurvive(t);
    }
  }
}
