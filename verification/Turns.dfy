/**
 The turn pointer: it lands on the nearest connected player, so nobody who stays connected is passed over,
 whoever else leaves the game.
 */
module Turns {
  import opened Results
  import opened Tiles
  import opened Grids
  import opened GameStates
  import opened GameLaws

  // Seat k places after `cur`, for at most one round.
  function SeatAfter(cur: nat, k: nat, n: nat): (seat: nat)
    requires cur < n && k <= n
    ensures seat < n
  {
    if cur + k < n then cur + k else cur + k - n
  }

  lemma SeatStep(cur: nat, k: nat, n: nat)
    requires cur < n && k < n
    ensures (SeatAfter(cur, k, n) + 1) % n == SeatAfter(cur, k + 1, n)
  {
    var next := SeatAfter(cur, k, n) + 1;
    if next == n {
      RemainderUnique(1, 0, n, next);
    } else {
      RemainderUnique(0, next, n, next);
    }
  }

  lemma RemainderUnique(q: int, r: int, n: int, x: int)
    requires n > 0 && 0 <= r < n && x == q * n + r
    ensures x % n == r
  {
    var d := x / n - q;
    assert d * n == r - x % n;
    assert d >= 1 ==> d * n >= n;
    assert d <= -1 ==> d * n <= -n;
  }

  // The next k - 1 seats are away, seat k is not (or nobody is connected, or absence does not matter).
  ghost predicate Nearest(players: seq<Player>, cur: nat, asyncMode: bool, k: nat)
    requires cur < |players|
  {
    var n := |players|;
    if asyncMode || !SomeoneConnected(players) then k == 1
    else
      && 1 <= k <= n
      && !players[SeatAfter(cur, k, n)].disconnected
      && forall j :: 1 <= j < k ==> players[SeatAfter(cur, j, n)].disconnected
  }

  // After j seats that are all away the search goes on from there.
  lemma {:induction false} SearchFrom(players: seq<Player>, cur: nat, j: nat) returns (k: nat)
    requires players != [] && NoPenalties(players) && SomeoneConnected(players) && cur < |players| && j <= |players|
    requires forall i :: 1 <= i <= j ==> players[SeatAfter(cur, i, |players|)].disconnected
    ensures Nearest(players, cur, false, k)
    ensures Advance(players, SeatAfter(cur, j, |players|), false, |players| - j).1 == SeatAfter(cur, k, |players|)
    decreases |players| - j
  {
    var n := |players|;
    if j == n {
      k := 0;
      EverySeatVisited(players, cur);
      assert false;
    } else {
      SeatStep(cur, j, n);
      if players[SeatAfter(cur, j + 1, n)].disconnected {
        k := SearchFrom(players, cur, j + 1);
      } else {
        k := j + 1;
      }
    }
  }

  // n steps visit every seat.
  lemma EverySeatVisited(players: seq<Player>, cur: nat)
    requires players != [] && cur < |players|
    requires forall i :: 1 <= i <= |players| ==> players[SeatAfter(cur, i, |players|)].disconnected
    ensures !SomeoneConnected(players)
  {
    forall seat | 0 <= seat < |players| ensures players[seat].disconnected {
      var k := Distance(cur, seat, |players|);
      DistanceReaches(cur, seat, |players|);
      assert players[SeatAfter(cur, k, |players|)].disconnected;
    }
  }

  // How many steps from `cur` to `seat`, at least one.
  function Distance(cur: nat, seat: nat, n: nat): nat
    requires cur < n && seat < n
  {
    if seat > cur then seat - cur else seat + n - cur
  }

  lemma DistanceReaches(cur: nat, seat: nat, n: nat)
    requires cur < n && seat < n
    ensures 1 <= Distance(cur, seat, n) <= n && SeatAfter(cur, Distance(cur, seat, n), n) == seat
  {
  }

  lemma NextSeat(players: seq<Player>, cur: nat, asyncMode: bool)
    requires players != [] && NoPenalties(players) && cur < |players| && (asyncMode || !SomeoneConnected(players))
    ensures Advance(players, cur, asyncMode, |players|).1 == SeatAfter(cur, 1, |players|)
  {
    SeatStep(cur, 0, |players|);
    hide SeatAfter;
  }

  /** Without penalties the turn passes to the nearest following connected player. */
  lemma NextTurnIsNearest(players: seq<Player>, cur: nat, asyncMode: bool) returns (k: nat)
    requires players != [] && NoPenalties(players) && cur < |players|
    ensures Nearest(players, cur, asyncMode, k)
    ensures Advance(players, cur, asyncMode, |players|).1 == SeatAfter(cur, k, |players|)
  {
    if asyncMode || !SomeoneConnected(players) {
      k := 1;
      NextSeat(players, cur, asyncMode);
    } else {
      k := SearchFrom(players, cur, 0);
    }
  }

  // ----- Penalties -----

  // The search ends here: at a player who is there and has no turn to sit out, or at once when nobody is there.
  ghost predicate Stops(players: seq<Player>, seat: nat, asyncMode: bool)
    requires seat < |players|
  {
    if asyncMode || !players[seat].disconnected then !players[seat].skipNextTurn else !SomeoneConnected(players)
  }

  // Those who are there within the next `reach` seats have sat out their turn.
  ghost function Served(players: seq<Player>, cur: nat, asyncMode: bool, reach: nat): seq<Player>
    requires cur < |players|
  {
    seq(|players|, i requires 0 <= i < |players| =>
      if Distance(cur, i, |players|) <= reach && (asyncMode || !players[i].disconnected)
      then players[i].(skipNextTurn := false) else players[i])
  }

  lemma ServedConnected(players: seq<Player>, cur: nat, asyncMode: bool, reach: nat)
    requires cur < |players|
    ensures SomeoneConnected(Served(players, cur, asyncMode, reach)) <==> SomeoneConnected(players)
  {
    var served := Served(players, cur, asyncMode, reach);
    assert forall i :: 0 <= i < |players| ==> served[i].disconnected == players[i].disconnected;
  }

  lemma ServedOneMore(players: seq<Player>, cur: nat, asyncMode: bool, j: nat)
    requires cur < |players| && j < |players|
    ensures var n := |players|;
            var idx, served := SeatAfter(cur, j + 1, n), Served(players, cur, asyncMode, j);
            && served[idx] == players[idx]
            && Served(players, cur, asyncMode, j + 1)
               == if asyncMode || !players[idx].disconnected
                  then served[idx := players[idx].(skipNextTurn := false)] else served
  {
    var n := |players|;
    var idx := SeatAfter(cur, j + 1, n);
    forall i | 0 <= i < n ensures Distance(cur, i, n) == j + 1 <==> i == idx {
      DistanceReaches(cur, i, n);
    }
  }

  // Where the search ends, nothing changes.
  lemma StopsThere(players: seq<Player>, cur: nat, asyncMode: bool, j: nat)
    requires cur < |players| && j < |players|
    requires Stops(players, SeatAfter(cur, j + 1, |players|), asyncMode)
    ensures var n := |players|;
            && Served(players, cur, asyncMode, j + 1) == Served(players, cur, asyncMode, j)
            && Advance(Served(players, cur, asyncMode, j), SeatAfter(cur, j, n), asyncMode, n - j)
               == (Served(players, cur, asyncMode, j), SeatAfter(cur, j + 1, n))
  {
    var n := |players|;
    var idx, served := SeatAfter(cur, j + 1, n), Served(players, cur, asyncMode, j);
    SeatStep(cur, j, n);
    ServedOneMore(players, cur, asyncMode, j);
    ServedConnected(players, cur, asyncMode, j);
    hide Served, SeatAfter;
    if asyncMode || !players[idx].disconnected {
      assert players[idx].(skipNextTurn := false) == players[idx];
      assert served[idx := players[idx]] == served;
    }
  }

  // Elsewhere the search goes on from the next seat.
  lemma PassesThere(players: seq<Player>, cur: nat, asyncMode: bool, j: nat)
    requires cur < |players| && j < |players|
    requires !Stops(players, SeatAfter(cur, j + 1, |players|), asyncMode)
    ensures var n := |players|;
            Advance(Served(players, cur, asyncMode, j), SeatAfter(cur, j, n), asyncMode, n - j)
            == Advance(Served(players, cur, asyncMode, j + 1), SeatAfter(cur, j + 1, n), asyncMode, n - (j + 1))
  {
    SeatStep(cur, j, |players|);
    ServedOneMore(players, cur, asyncMode, j);
    ServedConnected(players, cur, asyncMode, j);
    hide Served, SeatAfter;
  }

  lemma PassedOneMore(players: seq<Player>, cur: nat, asyncMode: bool, j: nat)
    requires cur < |players| && j < |players| && !Stops(players, SeatAfter(cur, j + 1, |players|), asyncMode)
    requires forall seat :: 0 <= seat < |players| && Distance(cur, seat, |players|) <= j ==>
               !Stops(players, seat, asyncMode)
    ensures forall seat :: 0 <= seat < |players| && Distance(cur, seat, |players|) <= j + 1 ==>
              !Stops(players, seat, asyncMode)
  {
    forall seat | 0 <= seat < |players| && Distance(cur, seat, |players|) <= j + 1
      ensures !Stops(players, seat, asyncMode)
    {
      DistanceReaches(cur, seat, |players|);
    }
  }

  lemma {:induction false} ServesFrom(players: seq<Player>, cur: nat, asyncMode: bool, j: nat) returns (k: nat)
    requires players != [] && cur < |players| && j <= |players|
    requires forall seat :: 0 <= seat < |players| && Distance(cur, seat, |players|) <= j ==>
               !Stops(players, seat, asyncMode)
    ensures PenaltiesServed(players, cur, asyncMode, k,
                            Advance(Served(players, cur, asyncMode, j), SeatAfter(cur, j, |players|), asyncMode,
                                    |players| - j))
    decreases |players| - j
  {
    hide Served, SeatAfter, Stops;
    if j == |players| {
      k := j;
    } else if Stops(players, SeatAfter(cur, j + 1, |players|), asyncMode) {
      k := j + 1;
      StopsThere(players, cur, asyncMode, j);
    } else {
      PassesThere(players, cur, asyncMode, j);
      PassedOneMore(players, cur, asyncMode, j);
      k := ServesFrom(players, cur, asyncMode, j + 1);
    }
  }

  // The search passed over the seats before seat k, and ended there or after a whole round.
  ghost predicate PenaltiesServed(players: seq<Player>, cur: nat, asyncMode: bool, k: nat, r: (seq<Player>, nat))
    requires cur < |players|
  {
    var n := |players|;
    && 1 <= k <= n && r.1 == SeatAfter(cur, k, n) && r.0 == Served(players, cur, asyncMode, k)
    && (forall seat :: 0 <= seat < n && Distance(cur, seat, n) < k ==> !Stops(players, seat, asyncMode))
    && (k < n ==> Stops(players, SeatAfter(cur, k, n), asyncMode))
  }

  lemma PenaltiesAreServed(players: seq<Player>, cur: nat, asyncMode: bool) returns (k: nat)
    requires cur < |players|
    ensures PenaltiesServed(players, cur, asyncMode, k, Advance(players, cur, asyncMode, |players|))
  {
    assert Served(players, cur, asyncMode, 0) == players;
    k := ServesFrom(players, cur, asyncMode, 0);
  }

  /**
   With penalties: the turn passes to the first following seat where the search ends, or back after a whole round, and
   exactly those who were there and were passed over have sat out their turn. Nothing else changes.
   */
  lemma TurnsServePenalties(s: State) returns (k: nat)
    requires s.cur < |s.players|
    ensures var t := NextTurn(s);
            && PenaltiesServed(s.players, s.cur, s.asyncMode, k, (t.players, t.cur))
            && t == s.(players := t.players, cur := t.cur, turnNumber := s.turnNumber + 1)
  {
    k := PenaltiesAreServed(s.players, s.cur, s.asyncMode);
  }

  // A step of k seats towards a seat at distance d >= k.
  lemma StepsAdd(cur: nat, k: nat, seat: nat, n: nat)
    requires cur < n && seat < n && 1 <= k < Distance(cur, seat, n)
    ensures Distance(SeatAfter(cur, k, n), seat, n) == Distance(cur, seat, n) - k
  {
  }

  lemma NotPassedOver(players: seq<Player>, cur: nat, asyncMode: bool, k: nat, d: nat)
    requires cur < |players| && Nearest(players, cur, asyncMode, k)
    requires 1 <= d <= |players| && (asyncMode || !players[SeatAfter(cur, d, |players|)].disconnected)
    ensures k <= d
  {
  }

  /** Every turn brings a connected player's seat closer, or makes it the current one. */
  lemma NextTurnApproaches(players: seq<Player>, cur: nat, asyncMode: bool, seat: nat)
    requires players != [] && NoPenalties(players) && cur < |players| && seat < |players|
    requires asyncMode || !players[seat].disconnected
    ensures var next := Advance(players, cur, asyncMode, |players|).1;
            next < |players| && (next == seat || Distance(next, seat, |players|) < Distance(cur, seat, |players|))
  {
    var n := |players|;
    var d := Distance(cur, seat, n);
    var k := NextTurnIsNearest(players, cur, asyncMode);
    DistanceReaches(cur, seat, n);
    NotPassedOver(players, cur, asyncMode, k, d);
    if k < d {
      StepsAdd(cur, k, seat, n);
    }
  }

  // ----- Steps of a game -----

  // What the search for the next player looks at.
  ghost predicate SameConnections(a: seq<Player>, b: seq<Player>) {
    |a| == |b| && forall i :: 0 <= i < |a| ==> a[i].disconnected == b[i].disconnected
  }

  lemma {:induction false} AdvanceSame(a: seq<Player>, b: seq<Player>, cur: nat, asyncMode: bool, steps: nat)
    requires SameConnections(a, b) && NoPenalties(a) && NoPenalties(b) && (a != [] || steps == 0)
    ensures Advance(a, cur, asyncMode, steps).1 == Advance(b, cur, asyncMode, steps).1
    decreases steps
  {
    if steps > 0 {
      assert SomeoneConnected(a) <==> SomeoneConnected(b) by {
        if i :| 0 <= i < |a| && !a[i].disconnected { assert !b[i].disconnected; }
        if i :| 0 <= i < |b| && !b[i].disconnected { assert !a[i].disconnected; }
      }
      AdvanceSame(a, b, (cur + 1) % |a|, asyncMode, steps - 1);
    }
  }

  ghost predicate SameNames(a: seq<Player>, b: seq<Player>) {
    |a| == |b| && forall i :: 0 <= i < |a| ==> a[i].name == b[i].name
  }

  // The turn stays where it is, or passes on by the search, which is counted as a turn.
  ghost predicate PointerStep(s: State, next: State) {
    && SameNames(s.players, next.players) && next.asyncMode == s.asyncMode && next.started
    && (|| (next.cur == s.cur && next.turnNumber == s.turnNumber)
        || (next.turnNumber == s.turnNumber + 1 && next.cur == Advance(s.players, s.cur, s.asyncMode, |s.players|).1))
  }

  // The players are the same up to hands, scores and the like.
  ghost predicate SameTable(s: State, t: State) {
    && SameConnections(s.players, t.players) && SameNames(s.players, t.players)
    && NoPenalties(s.players) && NoPenalties(t.players)
    && t.cur == s.cur && t.asyncMode == s.asyncMode && t.turnNumber == s.turnNumber && t.started == s.started
  }

  lemma NextTurnSteps(s: State, t: State)
    requires SameTable(s, t) && s.started
    ensures PointerStep(s, NextTurn(t))
  {
    AdvanceSame(s.players, t.players, s.cur, s.asyncMode, |s.players|);
    AdvanceWithoutPenalties(t.players, t.cur, t.asyncMode, |t.players|);
  }

  lemma EndGameSteps(s: State, t: State, finisher: Option<nat>)
    requires SameTable(s, t) && s.started && (finisher.Some? ==> finisher.value < |t.players|)
    ensures PointerStep(s, EndGame(t, finisher)) && PointerStep(s, Crowned(EndGame(t, finisher)))
  {
  }

  lemma ScorelessSteps(s: State, t: State)
    requires SameTable(s, t) && s.started
    ensures PointerStep(s, ScorelessTurn(t))
  {
    var counted := t.(scoreless := t.scoreless + 1);
    assert SameTable(s, counted);
    hide SameTable, PointerStep, EndGame, NextTurn;
    EndGameSteps(s, counted, None);
    NextTurnSteps(s, counted);
  }

  lemma CommitSteps(s: State, idx: nat, hand: seq<Tile>, timeouts: nat, tiles: seq<Placed>, score: int, kind: Kind)
    requires s.started && NoPenalties(s.players) && idx < |s.players|
    ensures SameTable(s, Commit(s, idx, hand, timeouts, tiles, score, kind))
    ensures PointerStep(s, AfterCommit(Commit(s, idx, hand, timeouts, tiles, score, kind), idx))
  {
    var t := Commit(s, idx, hand, timeouts, tiles, score, kind);
    EndGameSteps(s, t, Some(idx));
    NextTurnSteps(s, t);
  }

  lemma PlaceSteps(rules: Rules, s: State, id: string, tiles: seq<Placed>)
    requires s.started && NoPenalties(s.players) && PlaceTiles(rules, s, id, tiles).Ok?
    ensures PointerStep(s, PlaceTiles(rules, s, id, tiles).value)
  {
    hide Validate, HasTiles, RemoveTiles, AfterCommit, Commit;
    var formed := Validate(rules, s.grid, s.boardEmpty, tiles,
                           ChallengeApplies(s.challengeMode, s.players, s.cur)).value;
    CommitSteps(s, s.cur, RemoveTiles(s.players[s.cur].hand, tiles), 0, tiles, PlacementTotal(formed, |tiles|),
                PlaceMove);
  }

  lemma AcceptSteps(s: State)
    requires s.started && NoPenalties(s.players) && s.pending.Some? && PendingSeated(s)
    ensures PointerStep(s, FinalizeAccept(s))
  {
    hide PointerStep, Commit, AfterCommit;
    var pc := s.pending.value;
    var p := s.players[pc.playerIdx];
    CommitSteps(s, pc.playerIdx, p.hand, p.timeouts, pc.tiles, pc.score, AcceptMove);
  }

  lemma RejectSteps(s: State)
    requires s.started && NoPenalties(s.players) && s.pending.Some? && PendingSeated(s)
    ensures PointerStep(s, FinalizeReject(s))
  {
    var pc := s.pending.value;
    var returned := ReturnTiles(s).(rejected := s.rejected + {multiset(pc.tiles)});
    var counted := Record(returned, pc.playerIdx, RejectMove, 0).(scoreless := s.scoreless + 1);
    EndGameSteps(s, counted, None);
    NextTurnSteps(s, counted);
    hide SameTable, PointerStep, EndGame, NextTurn;
  }

  lemma CastVoteSteps(s: State, id: string, vote: Vote)
    requires s.started && NoPenalties(s.players) && PendingSeated(s) && CastVote(s, id, vote).Ok?
    ensures PointerStep(s, CastVote(s, id, vote).value)
  {
    var voted := Voted(s, id, vote);
    CastVoteLeads(s, id, vote);
    AcceptSteps(voted);
    RejectSteps(voted);
    hide CastVote, FinalizeAccept, FinalizeReject, Advance;
  }

  lemma ExchangeSteps(s: State, id: string, indices: seq<int>, shuffled: seq<Tile>)
    requires s.started && NoPenalties(s.players) && ExchangeTiles(s, id, indices, shuffled).Ok?
    ensures PointerStep(s, ExchangeTiles(s, id, indices, shuffled).value)
  {
    ScorelessSteps(s, Record(Exchanged(s, indices, shuffled), s.cur, ExchangeMove, 0));
  }

  lemma PassSteps(s: State, id: string, timeout: bool)
    requires s.started && NoPenalties(s.players) && PassTurn(s, id, timeout).Ok?
    ensures PointerStep(s, PassTurn(s, id, timeout).value)
  {
    ScorelessSteps(s, Record(Noted(s, timeout), s.cur, PassMove, 0));
  }

  lemma ResignSteps(s: State, id: string)
    requires s.started && NoPenalties(s.players) && Resign(s, id).Ok?
    ensures PointerStep(s, Resign(s, id).value)
    ensures Resign(s, id).value.cur == s.cur && Resign(s, id).value.turnNumber == s.turnNumber
  {
    EndGameSteps(s, GivenUp(s, SeatOf(s.players, id, 0).value), None);
  }

  lemma ExpireSteps(rules: Rules, s: State)
    requires Inv(rules, s) && s.started && ExpireTurn(s).Ok?
    ensures PointerStep(s, ExpireTurn(s).value)
  {
    var id := s.players[s.cur].id;
    PassSteps(s, id, true);
    PassTurnInv(rules, s, id, true);
    var passed := PassTurn(s, id, true).value;
    if Resign(passed, id).Ok? {
      ResignSteps(passed, id);
    }
  }

  lemma ForceEndSteps(s: State)
    requires s.started && NoPenalties(s.players) && PendingSeated(s) && ForceEnd(s).Ok?
    ensures PointerStep(s, ForceEnd(s).value)
  {
    EndGameSteps(s, if s.pending.Some? then ReturnTiles(s) else s, None);
  }

  lemma PlacementActionSteps(rules: Rules, s: State, a: Action)
    requires s.started && PendingSeated(s) && NoPenalties(s.players) && Attempt(rules, s, a).Ok?
    requires a.Place? || a.CastVoteBy? || a.VoteTimeout? || a.ForceVerdict?
    ensures PointerStep(s, Apply(rules, s, a))
  {
    hide Advance, NextTurn, PlaceTiles, CastVote, FinalizeAccept, FinalizeReject;
    match a
    case Place(id, tiles) => PlaceSteps(rules, s, id, tiles);
    case CastVoteBy(id, vote) => CastVoteSteps(s, id, vote);
    case VoteTimeout => AcceptSteps(s); RejectSteps(s);
    case ForceVerdict(_) => AcceptSteps(s); RejectSteps(s);
  }

  lemma TurnActionSteps(rules: Rules, s: State, a: Action)
    requires Inv(rules, s) && s.started && Attempt(rules, s, a).Ok?
    requires a.Exchange? || a.Pass? || a.Expire? || a.GiveUp? || a.ForceFinish?
    ensures PointerStep(s, Apply(rules, s, a))
  {
    hide Advance, NextTurn, EndGame, ExchangeTiles, PassTurn, Resign, ExpireTurn, ForceEnd;
    match a
    case Exchange(id, indices, shuffled) => ExchangeSteps(s, id, indices, shuffled);
    case Pass(id, byAdmin) => PassSteps(s, id, byAdmin && s.asyncMode);
    case Expire => ExpireSteps(rules, s);
    case GiveUp(id) => ResignSteps(s, id);
    case ForceFinish => ForceEndSteps(s);
  }

  lemma SeatActionSteps(rules: Rules, s: State, a: Action)
    requires PendingSeated(s) && NoPenalties(s.players) && s.started && Attempt(rules, s, a).Ok?
    requires a.Join? || a.Begin? || a.Disconnect? || a.Reconnect? || a.SkipDisconnected? || a.Withdraw?
    ensures PointerStep(s, Apply(rules, s, a))
  {
    hide Advance;
    if a.SkipDisconnected? {
      NextTurnSteps(s, s);
    }
  }

  // ----- Leaving -----

  // The seat of the player who leaves.
  ghost function Leaver(s: State, a: Action): Option<nat> {
    if a.Leave? then SeatOf(s.players, a.id, 0) else None
  }

  // Where the player from this seat sits after an action.
  ghost function SeatThen(s: State, a: Action, seat: nat): nat {
    if Leaver(s, a).Some? && Leaver(s, a).value < seat then seat - 1 else seat
  }

  // The turn stays with its player, who may have moved up a seat; it passes to the next seat if that player left.
  ghost predicate LeaveStep(s: State, idx: nat, next: State)
    requires idx < |s.players|
  {
    && |next.players| == |s.players| - 1 && next.asyncMode == s.asyncMode && next.started == s.started
    && next.turnNumber == s.turnNumber
    && (forall i :: 0 <= i < |next.players| ==> next.players[i] == s.players[SeatBefore(idx, i)])
    && (idx != s.cur ==> SeatBefore(idx, next.cur) == s.cur)
    && (idx == s.cur && next.players != [] ==>
          SeatBefore(idx, next.cur) == if s.cur + 1 < |s.players| then s.cur + 1 else 0)
  }

  /**
   Once a game has started, the turn pointer moves only by turns, and by each turn as the search says; when
   someone leaves, it stays with its player.
   */
  lemma ActionSteps(rules: Rules, s: State, a: Action)
    requires Inv(rules, s) && s.started
    ensures if Leaver(s, a).Some? then LeaveStep(s, Leaver(s, a).value, Apply(rules, s, a))
            else PointerStep(s, Apply(rules, s, a))
  {
    if Leaver(s, a).Some? {
      RemoveSeatInv(rules, s, Leaver(s, a).value);
    } else if Attempt(rules, s, a).Ok? {
      if a.Place? || a.CastVoteBy? || a.VoteTimeout? || a.ForceVerdict? {
        PlacementActionSteps(rules, s, a);
      } else if a.Exchange? || a.Pass? || a.Expire? || a.GiveUp? || a.ForceFinish? {
        TurnActionSteps(rules, s, a);
      } else {
        SeatActionSteps(rules, s, a);
      }
    }
  }

  // ----- Runs of a game -----

  // Where the player from this seat sits after a run.
  ghost function SeatIn(rules: Rules, s: State, actions: seq<Action>, seat: nat): nat
    requires Inv(rules, s)
  {
    if actions == [] then seat
    else
      var front := actions[..|actions| - 1];
      SeatThen(Play(rules, s, front), actions[|actions| - 1], SeatIn(rules, s, front, seat))
  }

  // The player from this seat never leaves.
  ghost predicate Stays(rules: Rules, s: State, actions: seq<Action>, seat: nat)
    requires Inv(rules, s)
  {
    && seat < |s.players|
    && forall n :: 0 <= n < |actions| ==>
         Leaver(Play(rules, s, actions[..n]), actions[n]) != Some(SeatIn(rules, s, actions[..n], seat))
  }

  // The player from this seat is connected after each action.
  ghost predicate StaysConnected(rules: Rules, s: State, actions: seq<Action>, seat: nat)
    requires Inv(rules, s)
  {
    && Stays(rules, s, actions, seat)
    && forall n :: 0 <= n <= |actions| ==> Here(Play(rules, s, actions[..n]), SeatIn(rules, s, actions[..n], seat))
  }

  // In a correspondence game nobody needs to be connected.
  ghost predicate Here(s: State, seat: nat) {
    seat < |s.players| && (s.asyncMode || !s.players[seat].disconnected)
  }

  // The player from this seat is to move after some part of the run.
  ghost predicate GetsTurn(rules: Rules, s: State, actions: seq<Action>, seat: nat)
    requires Inv(rules, s)
  {
    exists n :: 0 <= n <= |actions| && Play(rules, s, actions[..n]).cur == SeatIn(rules, s, actions[..n], seat)
  }

  // A player who stays is the same one at every seat.
  lemma SameOccupant(s: State, a: Action, next: State, seat: nat)
    requires seat < |s.players| && Leaver(s, a) != Some(seat)
    requires if Leaver(s, a).Some? then LeaveStep(s, Leaver(s, a).value, next) else PointerStep(s, next)
    ensures SeatThen(s, a, seat) < |next.players|
    ensures next.players[SeatThen(s, a, seat)].name == s.players[seat].name
  {
    if Leaver(s, a).Some? {
      assert SeatBefore(Leaver(s, a).value, SeatThen(s, a, seat)) == seat;
    }
  }

  lemma StaysFront(rules: Rules, s: State, actions: seq<Action>, seat: nat)
    requires Inv(rules, s) && Stays(rules, s, actions, seat) && actions != []
    ensures Stays(rules, s, actions[..|actions| - 1], seat)
  {
    hide Inv, Apply, Leaver, SeatIn;
    var front := actions[..|actions| - 1];
    forall n | 0 <= n < |front| ensures front[..n] == actions[..n] && front[n] == actions[n] {
    }
  }

  lemma WaitsFront(rules: Rules, s: State, actions: seq<Action>, seat: nat)
    requires Inv(rules, s) && StaysConnected(rules, s, actions, seat) && actions != []
    requires !GetsTurn(rules, s, actions, seat)
    ensures var front := actions[..|actions| - 1];
            && StaysConnected(rules, s, front, seat) && !GetsTurn(rules, s, front, seat)
            && Here(Play(rules, s, front), SeatIn(rules, s, front, seat))
            && Play(rules, s, front).cur != SeatIn(rules, s, front, seat)
            && Leaver(Play(rules, s, front), actions[|actions| - 1]) != Some(SeatIn(rules, s, front, seat))
            && Play(rules, s, actions).cur != SeatIn(rules, s, actions, seat)
  {
    hide Inv, Apply, Leaver, Here, Stays;
    var front := actions[..|actions| - 1];
    StaysFront(rules, s, actions, seat);
    assert Leaver(Play(rules, s, front), actions[|actions| - 1]) != Some(SeatIn(rules, s, front, seat)) by {
      assert Stays(rules, s, actions, seat);
      StaysLast(rules, s, actions, seat);
    }
    forall n | 0 <= n <= |front| ensures front[..n] == actions[..n] {
    }
    assert actions[..|actions|] == actions;
  }

  lemma StaysLast(rules: Rules, s: State, actions: seq<Action>, seat: nat)
    requires Inv(rules, s) && Stays(rules, s, actions, seat) && actions != []
    ensures var n := |actions| - 1;
            Leaver(Play(rules, s, actions[..n]), actions[n]) != Some(SeatIn(rules, s, actions[..n], seat))
  {
  }

  /** Following the seats follows the player: in a started game the name at the seat is always the same. */
  lemma {:induction false} SeatFollowsPlayer(rules: Rules, s: State, actions: seq<Action>, seat: nat)
    requires Inv(rules, s) && s.started && Stays(rules, s, actions, seat)
    ensures var t := Play(rules, s, actions);
            && t.started && SeatIn(rules, s, actions, seat) < |t.players| <= |s.players|
            && t.players[SeatIn(rules, s, actions, seat)].name == s.players[seat].name
  {
    if actions != [] {
      var n := |actions| - 1;
      StaysFront(rules, s, actions, seat);
      SeatFollowsPlayer(rules, s, actions[..n], seat);
      ActionSteps(rules, Play(rules, s, actions[..n]), actions[n]);
      hide Apply, Inv;
      var before := Play(rules, s, actions[..n]);
      SameOccupant(before, actions[n], Play(rules, s, actions), SeatIn(rules, s, actions[..n], seat));
    }
  }

  lemma StepApproaches(s: State, next: State, seat: nat)
    requires PointerStep(s, next) && Here(s, seat) && next.cur != seat && NoPenalties(s.players)
             && s.cur < |s.players|
    requires next.cur < |next.players|
    ensures next.turnNumber + Distance(next.cur, seat, |next.players|)
            <= s.turnNumber + Distance(s.cur, seat, |s.players|)
  {
    NextTurnApproaches(s.players, s.cur, s.asyncMode, seat);
  }

  // Who leaves brings nobody farther from the turn.
  lemma LeaveApproaches(s: State, idx: nat, next: State, seat: nat)
    requires idx < |s.players| && LeaveStep(s, idx, next) && seat < |s.players| && idx != seat
    requires s.cur < |s.players| && next.cur < |next.players| && s.cur != seat
    ensures var place := if idx < seat then seat - 1 else seat;
            next.cur == place || Distance(next.cur, place, |next.players|) <= Distance(s.cur, seat, |s.players|)
  {
  }

  // What a player has still to wait for, in turns.
  ghost function Deadline(s: State, seat: nat): int
    requires s.cur < |s.players| && seat < |s.players|
  {
    s.turnNumber + Distance(s.cur, seat, |s.players|)
  }

  // One action while the player waits.
  lemma WaitingStep(rules: Rules, s: State, a: Action, seat: nat)
    requires Inv(rules, s) && s.started && Here(s, seat) && s.cur != seat && Leaver(s, a) != Some(seat)
    ensures var next, place := Apply(rules, s, a), SeatThen(s, a, seat);
            && s.cur < |s.players| && next.cur < |next.players| && place < |next.players|
            && (next.cur == place || Deadline(next, place) <= Deadline(s, seat))
  {
    var next := Apply(rules, s, a);
    ActionSteps(rules, s, a);
    ApplyInv(rules, s, a);
    SameOccupant(s, a, next, seat);
    hide Apply, BoardOk, HandsOk, PendingOk;
    if Leaver(s, a).Some? {
      LeaveApproaches(s, Leaver(s, a).value, next, seat);
    } else if next.cur != seat {
      StepApproaches(s, next, seat);
    }
  }

  lemma {:induction false} WaitingShrinks(rules: Rules, s: State, actions: seq<Action>, seat: nat)
    requires Inv(rules, s) && s.started && StaysConnected(rules, s, actions, seat)
    requires !GetsTurn(rules, s, actions, seat)
    ensures var t, place := Play(rules, s, actions), SeatIn(rules, s, actions, seat);
            && place < |t.players| && s.cur < |s.players| && t.cur < |t.players|
            && Deadline(t, place) <= Deadline(s, seat)
  {
    SeatsInRange(rules, s, actions, seat);
    if actions != [] {
      var front := actions[..|actions| - 1];
      WaitsFront(rules, s, actions, seat);
      hide Inv, Apply, StaysConnected, Stays, GetsTurn, Here;
      WaitingShrinks(rules, s, front, seat);
      FollowedStarted(rules, s, front, seat);
      WaitingStep(rules, Play(rules, s, front), actions[|actions| - 1], SeatIn(rules, s, front, seat));
    }
  }

  lemma SeatsInRange(rules: Rules, s: State, actions: seq<Action>, seat: nat)
    requires Inv(rules, s) && StaysConnected(rules, s, actions, seat)
    ensures seat < |s.players| && s.cur < |s.players|
  {
  }

  lemma FollowedStarted(rules: Rules, s: State, actions: seq<Action>, seat: nat)
    requires Inv(rules, s) && s.started && StaysConnected(rules, s, actions, seat)
    ensures Play(rules, s, actions).started
  {
    SeatFollowsPlayer(rules, s, actions, seat);
  }

  /**
   In every run of a started game, whoever else leaves, a player who stays and is connected gets the turn before
   as many turns have passed as there were players.
   */
  lemma NobodyIsPassedOver(rules: Rules, s: State, actions: seq<Action>, seat: nat)
    requires Inv(rules, s) && s.started && StaysConnected(rules, s, actions, seat)
    requires Play(rules, s, actions).turnNumber - s.turnNumber >= |s.players|
    ensures GetsTurn(rules, s, actions, seat)
  {
    if !GetsTurn(rules, s, actions, seat) {
      WaitingShrinks(rules, s, actions, seat);
      DistanceReaches(s.cur, seat, |s.players|);
      var t := Play(rules, s, actions);
      DistanceReaches(t.cur, SeatIn(rules, s, actions, seat), |t.players|);
    }
  }
}
