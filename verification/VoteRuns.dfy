/**
 A placement that waits for votes, from placing to the verdict: votes come in, players lose their connection,
 come back under new ids or leave. All that commutes with placing, so the verdict leads to what it would have
 led to had the placement been made at that moment.
 */
module VoteRuns {
  import opened Results
  import opened Tiles
  import opened Bags
  import opened Grids
  import opened GameStates
  import opened GameLaws
  import opened Runs
  import opened ChallengeLaws

  // ----- Votes -----

  ghost function WithVotes(s: State, votes: map<string, Vote>): State
    requires s.pending.Some?
  {
    s.(pending := Some(s.pending.value.(votes := votes)))
  }

  // What a verdict or a withdrawal does does not depend on who voted how.
  lemma VotesForgotten(s: State, votes: map<string, Vote>)
    requires s.pending.Some? && PendingSeated(s)
    ensures FinalizeAccept(WithVotes(s, votes)) == FinalizeAccept(s)
    ensures FinalizeReject(WithVotes(s, votes)) == FinalizeReject(s)
    ensures ReturnTiles(WithVotes(s, votes)) == ReturnTiles(s)
  {
    AcceptForgets(s, votes);
    assert ReturnTiles(WithVotes(s, votes)) == ReturnTiles(s);
    RejectLeads(s);
    RejectLeads(WithVotes(s, votes));
    hide FinalizeReject, FinalizeAccept, EndGame, NextTurn, ReturnTiles;
  }

  lemma AcceptForgets(s: State, votes: map<string, Vote>)
    requires s.pending.Some? && PendingSeated(s)
    ensures FinalizeAccept(WithVotes(s, votes)) == FinalizeAccept(s)
  {
    hide AfterCommit, Refilled;
    var pc := s.pending.value;
    var p := s.players[pc.playerIdx];
    assert Booked(WithVotes(s, votes), pc.playerIdx, p.hand, p.timeouts, pc.tiles, pc.score)
        == Booked(s, pc.playerIdx, p.hand, p.timeouts, pc.tiles, pc.score);
  }

  // ----- While a placement waits -----

  // Connections and seats, not moves.
  predicate AroundTable(a: Action) {
    a.Disconnect? || a.Reconnect? || a.Leave?
  }

  function Around(actions: seq<Action>): seq<Action> {
    if actions == [] then []
    else Around(Front(actions)) + if AroundTable(Last(actions)) then [Last(actions)] else []
  }

  // The placement that the player to move may make is legal and has to wait.
  ghost predicate Challenged(rules: Rules, s: State, tiles: seq<Placed>, formed: seq<FormedWord>) {
    && Inv(rules, s) && s.started && !s.finished && s.pending.None? && s.cur < |s.players|
    && HasTiles(s.players[s.cur].hand, tiles) && Inv(rules, Suspend(s, tiles, formed))
  }

  ghost predicate StillPending(rules: Rules, s: State, actions: seq<Action>)
    requires Inv(rules, s)
  {
    forall n :: 0 <= n <= |actions| ==> Play(rules, s, actions[..n]).pending.Some?
  }

  lemma PlacingChallenges(rules: Rules, s: State, id: string, tiles: seq<Placed>, formed: seq<FormedWord>)
    requires Inv(rules, s) && s.cur < |s.players| && PlaceTiles(rules, s, id, tiles) == Ok(Suspend(s, tiles, formed))
    ensures Challenged(rules, s, tiles, formed)
  {
    PlaceTilesInv(rules, s, id, tiles);
  }

  // One seat is emptied, another one's player replaced, in either order.
  lemma SeatsCommute(players: seq<Player>, cur: nat, idx: nat, p: Player)
    requires cur < |players| && idx < |players| && idx != cur
    ensures var left, at := players[..idx] + players[idx + 1..], if idx < cur then cur - 1 else cur;
            var replaced := players[cur := p];
            && at == PointerAfterRemoval(cur, idx, |left|) && at < |left| && left[at] == players[cur]
            && replaced[..idx] + replaced[idx + 1..] == left[at := p]
  {
  }

  // The seat whose placement waits stays, so seats and placements may change in either order.
  lemma LeaveCommutes(s: State, idx: nat, tiles: seq<Placed>, formed: seq<FormedWord>, votes: map<string, Vote>)
    requires SeatsOk(s) && s.pending.None? && s.cur < |s.players| && idx < |s.players| && idx != s.cur
    ensures var t := RemoveSeat(s, idx);
            && t.pending.None? && t.cur < |t.players| && t.players[t.cur] == s.players[s.cur]
            && RemoveSeat(WithVotes(Suspend(s, tiles, formed), votes), idx)
               == WithVotes(Suspend(t, tiles, formed), votes)
  {
    hide RemoveTiles, PlacementTotal, HandTilesOf, PointerAfterRemoval;
    SeatsCommute(s.players, s.cur, idx, s.players[s.cur].(hand := RemoveTiles(s.players[s.cur].hand, tiles)));
  }

  // A hand and a connection change in either order.
  lemma ConnectionCommutes(players: seq<Player>, cur: nat, hand: seq<Tile>, idx: nat, id: string, away: bool)
    requires cur < |players| && idx < |players|
    ensures var x := players[idx := players[idx].(id := id, disconnected := away)];
            var y := players[cur := players[cur].(hand := hand)];
            && x[cur].hand == players[cur].hand
            && x[cur := x[cur].(hand := hand)] == y[idx := y[idx].(id := id, disconnected := away)]
  {
  }

  lemma DisconnectCommutes(s: State, id: string, tiles: seq<Placed>, formed: seq<FormedWord>, votes: map<string, Vote>)
    requires s.cur < |s.players| && s.pending.None?
    ensures var w := WithVotes(Suspend(s, tiles, formed), votes);
            var t := if MarkDisconnected(s, id).Ok? then MarkDisconnected(s, id).value else s;
            && t.pending.None? && t.cur < |t.players| && t.players[t.cur].hand == s.players[s.cur].hand
            && (MarkDisconnected(w, id).Ok? <==> MarkDisconnected(s, id).Ok?)
            && (MarkDisconnected(w, id).Ok? ==>
                  MarkDisconnected(w, id).value == WithVotes(Suspend(t, tiles, formed), votes))
  {
    var w := WithVotes(Suspend(s, tiles, formed), votes);
    hide RemoveTiles, PlacementTotal, HandTilesOf, SeatOf;
    SameSeat(s.players, w.players, id, 0);
    if SeatOf(s.players, id, 0).Some? {
      var idx := SeatOf(s.players, id, 0).value;
      ConnectionCommutes(s.players, s.cur, w.players[s.cur].hand, idx, s.players[idx].id, true);
    }
  }

  lemma ReconnectCommutes(s: State, oldId: string, newId: string, tiles: seq<Placed>, formed: seq<FormedWord>,
                          votes: map<string, Vote>)
    requires s.cur < |s.players| && s.pending.None?
    ensures var w := WithVotes(Suspend(s, tiles, formed), votes);
            var t := if ReplacePlayerSid(s, oldId, newId).Ok? then ReplacePlayerSid(s, oldId, newId).value else s;
            && t.pending.None? && t.cur < |t.players| && t.players[t.cur].hand == s.players[s.cur].hand
            && (ReplacePlayerSid(w, oldId, newId).Ok? <==> ReplacePlayerSid(s, oldId, newId).Ok?)
            && (ReplacePlayerSid(w, oldId, newId).Ok? ==>
                  ReplacePlayerSid(w, oldId, newId).value
                  == WithVotes(Suspend(t, tiles, formed), MovedVote(votes, oldId, newId)))
  {
    var w := WithVotes(Suspend(s, tiles, formed), votes);
    hide RemoveTiles, PlacementTotal, HandTilesOf, SeatOf, Renamed, MovedVote;
    SameSeat(s.players, w.players, oldId, 0);
    if SeatOf(s.players, oldId, 0).Some? {
      ConnectionCommutes(s.players, s.cur, w.players[s.cur].hand, SeatOf(s.players, oldId, 0).value, newId, false);
    }
  }

  lemma {:induction false} SameSeat(x: seq<Player>, y: seq<Player>, id: string, from: nat)
    requires |x| == |y| && from <= |x| && forall i :: 0 <= i < |x| ==> x[i].id == y[i].id
    ensures SeatOf(x, id, from) == SeatOf(y, id, from)
    decreases |x| - from
  {
    if from < |x| {
      SameSeat(x, y, id, from + 1);
    }
  }

  lemma LeaveStays(w: State, idx: nat)
    requires w.pending.Some? && idx < |w.players| && RemoveSeat(w, idx).pending.Some?
    ensures idx != w.pending.value.playerIdx
  {
  }

  // What an action around the table leaves alone.
  ghost predicate SameMove(s: State, t: State) {
    && s.cur < |s.players| && t.cur < |t.players| && t.players[t.cur].hand == s.players[s.cur].hand
    && t.pending.None? && t.started == s.started && t.finished == s.finished && t.puzzle == s.puzzle
  }

  lemma LeaveStep(rules: Rules, s: State, tiles: seq<Placed>, formed: seq<FormedWord>, votes: map<string, Vote>,
                  id: string)
    requires SeatsOk(s) && s.pending.None? && s.cur < |s.players|
    requires PendingSeated(WithVotes(Suspend(s, tiles, formed), votes))
    requires Apply(rules, WithVotes(Suspend(s, tiles, formed), votes), Leave(id)).pending.Some?
    ensures var t := Apply(rules, s, Leave(id));
            && SameMove(s, t)
            && Apply(rules, WithVotes(Suspend(s, tiles, formed), votes), Leave(id))
               == WithVotes(Suspend(t, tiles, formed), votes)
  {
    var w := WithVotes(Suspend(s, tiles, formed), votes);
    SameSeat(s.players, w.players, id, 0);
    hide RemoveTiles, PlacementTotal, HandTilesOf, SeatOf;
    if SeatOf(s.players, id, 0).Some? {
      LeaveStays(w, SeatOf(s.players, id, 0).value);
      LeaveCommutes(s, SeatOf(s.players, id, 0).value, tiles, formed, votes);
    }
  }

  // One action around the table while the placement waits.
  lemma AroundStep(rules: Rules, s: State, tiles: seq<Placed>, formed: seq<FormedWord>, votes: map<string, Vote>,
                   a: Action)
    returns (after: map<string, Vote>)
    requires SeatsOk(s) && s.pending.None? && s.cur < |s.players| && AroundTable(a)
    requires PendingSeated(WithVotes(Suspend(s, tiles, formed), votes))
    requires Apply(rules, WithVotes(Suspend(s, tiles, formed), votes), a).pending.Some?
    ensures var t := Apply(rules, s, a);
            && SameMove(s, t)
            && Apply(rules, WithVotes(Suspend(s, tiles, formed), votes), a)
               == WithVotes(Suspend(t, tiles, formed), after)
  {
    after := votes;
    hide Suspend, WithVotes, RemoveSeat;
    match a
    case Disconnect(id) => DisconnectCommutes(s, id, tiles, formed, votes);
    case Reconnect(oldId, newId) =>
      ReconnectCommutes(s, oldId, newId, tiles, formed, votes);
      if ReplacePlayerSid(s, oldId, newId).Ok? {
        after := MovedVote(votes, oldId, newId);
      }
    case Leave(id) => LeaveStep(rules, s, tiles, formed, votes, id);
  }

  lemma VerdictEnds(w: State)
    requires w.pending.Some? && PendingSeated(w)
    ensures FinalizeAccept(w).pending.None? && FinalizeReject(w).pending.None?
  {
  }

  lemma VoteStep(w: State, id: string, vote: Vote)
    requires w.pending.Some? && PendingSeated(w) && CastVote(w, id, vote).Ok?
    requires CastVote(w, id, vote).value.pending.Some?
    ensures CastVote(w, id, vote).value == WithVotes(w, w.pending.value.votes[id := vote])
  {
    CastVoteLeads(w, id, vote);
    VerdictEnds(Voted(w, id, vote));
    hide CastVote, FinalizeAccept, FinalizeReject;
  }

  // What ends the waiting when it is not refused.
  lemma EndingStep(rules: Rules, w: State, a: Action)
    requires w.pending.Some? && PendingSeated(w)
    requires a.Withdraw? || a.VoteTimeout? || a.ForceVerdict? || a.GiveUp? || a.ForceFinish?
    requires Apply(rules, w, a).pending.Some?
    ensures Apply(rules, w, a) == w
  {
    VerdictEnds(w);
    hide FinalizeAccept, FinalizeReject;
  }

  // Nobody joins or moves.
  lemma RefusedStep(rules: Rules, w: State, a: Action)
    requires w.pending.Some? && PendingSeated(w) && w.started && !w.finished
    requires a.Join? || a.Begin? || a.SkipDisconnected? || a.Place? || a.Exchange? || a.Pass? || a.Expire?
    ensures Apply(rules, w, a) == w
  {
  }

  // Any action but those around the table is refused, records a vote, or ends the waiting.
  lemma OtherStep(rules: Rules, w: State, a: Action) returns (after: map<string, Vote>)
    requires w.pending.Some? && PendingSeated(w) && w.started && !w.finished && !AroundTable(a)
    requires Apply(rules, w, a).pending.Some?
    ensures Apply(rules, w, a) == WithVotes(w, after)
  {
    after := w.pending.value.votes;
    assert WithVotes(w, after) == w;
    if a.CastVoteBy? {
      hide CastVote;
      if CastVote(w, a.id, a.vote).Ok? {
        VoteStep(w, a.id, a.vote);
        after := after[a.id := a.vote];
      }
    } else {
      hide Apply;
      if a.Withdraw? || a.VoteTimeout? || a.ForceVerdict? || a.GiveUp? || a.ForceFinish? {
        EndingStep(rules, w, a);
      } else {
        RefusedStep(rules, w, a);
      }
    }
  }

  // ----- The run from placing to the verdict -----

  lemma SuspendedIs(s: State, tiles: seq<Placed>, formed: seq<FormedWord>, votes: map<string, Vote>)
    requires s.cur < |s.players|
    ensures var w := WithVotes(Suspend(s, tiles, formed), votes);
            && w.pending.Some? && PendingSeated(w) && w.started == s.started && w.finished == s.finished
    ensures WithVotes(Suspend(s, tiles, formed), map[]) == Suspend(s, tiles, formed)
    ensures forall other :: WithVotes(WithVotes(Suspend(s, tiles, formed), votes), other)
                            == WithVotes(Suspend(s, tiles, formed), other)
  {
  }

  // One action, of whatever kind, while the placement waits.
  lemma WaitingStep(rules: Rules, s: State, tiles: seq<Placed>, formed: seq<FormedWord>, votes: map<string, Vote>,
                    a: Action)
    returns (after: map<string, Vote>)
    requires SeatsOk(s) && s.pending.None? && s.cur < |s.players| && s.started && !s.finished
    requires PendingSeated(WithVotes(Suspend(s, tiles, formed), votes))
    requires Apply(rules, WithVotes(Suspend(s, tiles, formed), votes), a).pending.Some?
    ensures var t := if AroundTable(a) then Apply(rules, s, a) else s;
            && SameMove(s, t)
            && Apply(rules, WithVotes(Suspend(s, tiles, formed), votes), a)
               == WithVotes(Suspend(t, tiles, formed), after)
  {
    SuspendedIs(s, tiles, formed, votes);
    hide Apply, Suspend, WithVotes;
    if AroundTable(a) {
      after := AroundStep(rules, s, tiles, formed, votes, a);
    } else {
      after := OtherStep(rules, WithVotes(Suspend(s, tiles, formed), votes), a);
    }
  }

  lemma PendingFront(rules: Rules, s: State, actions: seq<Action>)
    requires Inv(rules, s) && StillPending(rules, s, actions) && actions != []
    ensures StillPending(rules, s, Front(actions))
    ensures Play(rules, s, actions).pending.Some?
  {
    hide Play;
    forall n | 0 <= n <= |Front(actions)| ensures Front(actions)[..n] == actions[..n] {
    }
    assert actions[..|actions|] == actions;
  }

  lemma AroundSnoc(rules: Rules, s: State, actions: seq<Action>)
    requires Inv(rules, s) && actions != []
    ensures Play(rules, s, Around(actions))
            == if AroundTable(Last(actions)) then Apply(rules, Play(rules, s, Around(Front(actions))), Last(actions))
               else Play(rules, s, Around(Front(actions)))
  {
    hide Apply, Inv;
    var front, last := Around(Front(actions)), Last(actions);
    if AroundTable(last) {
      assert (front + [last])[..|front|] == front;
    } else {
      assert front + [] == front;
    }
  }

  /**
   While a placement waits, whatever anybody does, the state is what it would be had the placement been made after
   all that happened around the table, up to the votes.
   */
  lemma {:induction false} WaitingCommutes(rules: Rules, s: State, tiles: seq<Placed>, formed: seq<FormedWord>,
                                           actions: seq<Action>)
    returns (votes: map<string, Vote>)
    requires Challenged(rules, s, tiles, formed) && StillPending(rules, Suspend(s, tiles, formed), actions)
    ensures var t := Play(rules, s, Around(actions));
            && SameMove(s, t)
            && Play(rules, Suspend(s, tiles, formed), actions) == WithVotes(Suspend(t, tiles, formed), votes)
  {
    votes := map[];
    SuspendedIs(s, tiles, formed, votes);
    if actions != [] {
      var w := Suspend(s, tiles, formed);
      PendingFront(rules, w, actions);
      AroundSnoc(rules, s, actions);
      ghost var before := Play(rules, s, Around(Front(actions)));
      hide Apply, Suspend, WithVotes, StillPending, HasTiles, PendingOk, BoardOk, HandsOk, SeatsOk;
      votes := WaitingCommutes(rules, s, tiles, formed, Front(actions));
      SuspendedIs(before, tiles, formed, votes);
      assert Play(rules, w, actions) == Apply(rules, Play(rules, w, Front(actions)), Last(actions));
      votes := WaitingStep(rules, before, tiles, formed, votes, Last(actions));
    }
  }

  // ----- The verdict -----

  // The last vote, the end of the time to vote, or an administrator.
  predicate Decides(a: Action) {
    a.CastVoteBy? || a.VoteTimeout? || a.ForceVerdict?
  }

  ghost function VotersIn(w: State): set<string>
    requires w.pending.Some? && PendingSeated(w)
  {
    VotersOf(w.players, w.players[w.pending.value.playerIdx].id)
  }

  ghost predicate Approves(w: State, a: Action)
    requires w.pending.Some? && PendingSeated(w) && Decides(a)
  {
    var votes := w.pending.value.votes;
    if a.ForceVerdict? then a.accept
    else 2 * |Rejecting(if a.CastVoteBy? then votes[a.id := a.vote] else votes, VotersIn(w))| <= |VotersIn(w)|
  }

  // The placement waits up to some point of a run, and is decided by the next action.
  ghost predicate Decided(rules: Rules, s: State, tiles: seq<Placed>, formed: seq<FormedWord>, actions: seq<Action>,
                          a: Action)
  {
    && Challenged(rules, s, tiles, formed) && StillPending(rules, Suspend(s, tiles, formed), actions)
    && Apply(rules, Play(rules, Suspend(s, tiles, formed), actions), a).pending.None?
  }

  lemma LastVoteLeads(w: State, id: string, vote: Vote)
    requires PendingSeated(w) && CastVote(w, id, vote).Ok? && CastVote(w, id, vote).value.pending.None?
    ensures w.pending.Some?
    ensures CastVote(w, id, vote).value
            == if ResolveVotes(w.pending.value.votes[id := vote], VotersIn(w)) then FinalizeAccept(w)
               else FinalizeReject(w)
  {
    CastVoteLeads(w, id, vote);
    VotedIs(w, id, vote);
    VotesForgotten(w, w.pending.value.votes[id := vote]);
    hide CastVote, FinalizeAccept, FinalizeReject, ResolveVotes;
  }

  lemma VerdictLeads(rules: Rules, w: State, a: Action)
    requires w.pending.Some? && PendingSeated(w) && Decides(a) && Apply(rules, w, a).pending.None?
    ensures Apply(rules, w, a) == if Approves(w, a) then FinalizeAccept(w) else FinalizeReject(w)
  {
    var votes := w.pending.value.votes;
    hide CastVote, FinalizeAccept, FinalizeReject, ResolveVotes;
    if a.CastVoteBy? {
      LastVoteLeads(w, a.id, a.vote);
      AcceptedUnlessMajorityRejects(votes[a.id := a.vote], VotersIn(w));
    } else {
      AcceptedUnlessMajorityRejects(votes, VotersIn(w));
    }
  }

  lemma VotedIs(w: State, id: string, vote: Vote)
    requires w.pending.Some?
    ensures Voted(w, id, vote) == WithVotes(w, w.pending.value.votes[id := vote])
  {
  }

  // The verdict is that on a placement made just now.
  lemma VerdictNow(rules: Rules, s: State, tiles: seq<Placed>, formed: seq<FormedWord>, actions: seq<Action>, a: Action)
    requires Decided(rules, s, tiles, formed, actions, a) && Decides(a)
    ensures var w, t := Play(rules, Suspend(s, tiles, formed), actions), Play(rules, s, Around(actions));
            && SameMove(s, t) && w.pending.Some?
            && Apply(rules, w, a) == if Approves(w, a) then FinalizeAccept(Suspend(t, tiles, formed))
                                     else FinalizeReject(Suspend(t, tiles, formed))
  {
    var votes := WaitingCommutes(rules, s, tiles, formed, actions);
    var w, t := Play(rules, Suspend(s, tiles, formed), actions), Play(rules, s, Around(actions));
    SuspendedIs(t, tiles, formed, votes);
    SuspendedIs(t, tiles, formed, map[]);
    VotesForgotten(Suspend(t, tiles, formed), votes);
    hide Apply, FinalizeAccept, FinalizeReject, Suspend, WithVotes, Approves;
    VerdictLeads(rules, w, a);
  }

  /**
   However the votes come in and whoever comes, goes or loses the connection meanwhile: a placement that is accepted
   in the end leads to what placing directly at that moment would have led to, up to the placer's missed deadlines
   exactly when the game is no daily puzzle, and outright exactly when there are none.
   */
  lemma AcceptedAsPlaced(rules: Rules, s: State, tiles: seq<Placed>, formed: seq<FormedWord>, actions: seq<Action>,
                         a: Action)
    requires Decided(rules, s, tiles, formed, actions, a) && Decides(a) && s.puzzle in {None, Some(Puzzle(None))}
    ensures var w, t := Play(rules, Suspend(s, tiles, formed), actions), Play(rules, s, Around(actions));
            && w.pending.Some? && SameMove(s, t)
            && (Approves(w, a) ==>
                  var next, direct := Apply(rules, w, a), FinalizePlacement(t, tiles, PlacementTotal(formed, |tiles|));
                  && (SameBut(next, direct, t.cur) <==> s.puzzle.None?)
                  && (Unmarked(next) == Unmarked(direct) <==> s.puzzle.None? && t.players[t.cur].timeouts == 0))
  {
    var t := Play(rules, s, Around(actions));
    VerdictNow(rules, s, tiles, formed, actions, a);
    AcceptEqualsDirect(t, tiles, formed);
    AcceptEqualsOutright(t, tiles, formed);
  }

  /** However the votes come in, a placement that is rejected in the end costs the placer one turn at that moment. */
  lemma RejectedCostsOneTurn(rules: Rules, s: State, tiles: seq<Placed>, formed: seq<FormedWord>, actions: seq<Action>,
                             a: Action)
    requires Decided(rules, s, tiles, formed, actions, a) && Decides(a)
    ensures var w, t := Play(rules, Suspend(s, tiles, formed), actions), Play(rules, s, Around(actions));
            && w.pending.Some? && SameMove(s, t)
            && (!Approves(w, a) ==> CostsOneTurn(t, tiles, formed, Apply(rules, w, a)))
  {
    VerdictNow(rules, s, tiles, formed, actions, a);
    RejectCostsOneTurn(Play(rules, s, Around(actions)), tiles, formed);
  }

  /** A placement withdrawn before the first vote leaves what happened around the table and nothing else. */
  lemma WithdrawnLeavesNothing(rules: Rules, s: State, tiles: seq<Placed>, formed: seq<FormedWord>,
                               actions: seq<Action>, id: string)
    requires Decided(rules, s, tiles, formed, actions, Withdraw(id))
    ensures var t := Play(rules, s, Around(actions));
            SameMove(s, t)
            && SameButHandOrder(t, Apply(rules, Play(rules, Suspend(s, tiles, formed), actions), Withdraw(id)))
  {
    var votes := WaitingCommutes(rules, s, tiles, formed, actions);
    var w, t := Play(rules, Suspend(s, tiles, formed), actions), Play(rules, s, Around(actions));
    SuspendedIs(t, tiles, formed, votes);
    SuspendedIs(t, tiles, formed, map[]);
    VotesForgotten(Suspend(t, tiles, formed), votes);
    WithdrawUndoes(t, tiles, formed);
    hide ReturnTiles, Suspend, WithVotes, SameButHandOrder, Apply, HasTiles;
    WithdrawLeads(rules, w, id);
  }

  lemma WithdrawLeads(rules: Rules, w: State, id: string)
    requires w.pending.Some? && PendingSeated(w) && Apply(rules, w, Withdraw(id)).pending.None?
    ensures Apply(rules, w, Withdraw(id)) == ReturnTiles(w)
  {
  }
}
