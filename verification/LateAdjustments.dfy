/**
 A manual adjustment that enters the history before games, because the clock has gone back: exactly when the stored
 ratings stay right.
 */
module LateAdjustments {
  import opened Results
  import opened Orders
  import opened Elo
  import opened Ratings
  import opened RatingOrder
  import opened Rosters
  import opened RatingLaws
  import opened Timelines
  import opened LateGames
  import opened SameTime

  // The book y is x with one user's rating moved.
  ghost predicate MovedOnly(x: Book, y: Book, uid: int, delta: int) {
    uid in x.users && y == x.(users := x.users[uid := MovedBy(x.users[uid], delta)])
  }

  // The event rates the user.
  ghost predicate Rates(x: Book, e: Event, uid: int) {
    e.Played? && |Ranked(x.users, e.people)| >= 2 && EntryOf(Ranked(x.users, e.people), uid).Some?
  }

  ghost predicate NeverRates(expected: Expected, b: Book, later: seq<Event>, uid: int) {
    forall k :: 0 <= k < |later| ==> !Rates(Replay(expected, b, later[..k]), later[k], uid)
  }

  lemma RankedApart(x: Book, y: Book, uid: int, delta: int, people: seq<Person>)
    requires MovedOnly(x, y, uid, delta)
    ensures |Ranked(y.users, people)| == |Ranked(x.users, people)|
    ensures EntryOf(Ranked(x.users, people), uid).None? ==> Ranked(y.users, people) == Ranked(x.users, people)
    ensures EntryOf(Ranked(x.users, people), uid).Some? ==>
              && EntryOf(Ranked(y.users, people), uid).Some?
              && EntryOf(Ranked(y.users, people), uid).value.rating
                 == EntryOf(Ranked(x.users, people), uid).value.rating + delta
  {
    var u, v := Ranked(x.users, people), Ranked(y.users, people);
    assert x.users.Keys == y.users.Keys;
    RankedAligned(x.users, y.users, people, |people|);
    RankedFacts(x.users, people, |people|);
    RankedFacts(y.users, people, |people|);
    EntryAligned(u, v, |u|, uid);
    if EntryOf(u, uid).Some? {
      EntryIn(u, uid, EntryOf(u, uid).value);
      EntryIn(v, uid, EntryOf(v, uid).value);
    } else {
      forall i | 0 <= i < |u| ensures u[i] == v[i] {
        if u[i].uid == uid {
          EntryIn(u, uid, u[i]);
        }
      }
    }
  }

  lemma {:induction false} RatedApart(expected: Expected, users: map<int, Standing>, ranked: seq<Entry>, n: nat,
                                      uid: int, s: Standing)
    requires n <= |ranked| && forall i :: 0 <= i < n ==> ranked[i].uid != uid
    ensures RatedTo(expected, users[uid := s], ranked, n) == RatedTo(expected, users, ranked, n)[uid := s]
    ensures uid in users ==>
              uid in RatedTo(expected, users, ranked, n) && RatedTo(expected, users, ranked, n)[uid] == users[uid]
  {
    if n > 0 {
      RatedApart(expected, users, ranked, n - 1, uid, s);
      var a, before := ranked[n - 1], RatedTo(expected, users, ranked, n - 1);
      var after := Standing(a.rating + Change(expected, ranked, a), a.games + 1);
      assert before[uid := s][a.uid := after] == before[a.uid := after][uid := s];
    }
  }

  // An event that does not rate the user does not tell.
  lemma ApartStep(expected: Expected, x: Book, y: Book, uid: int, delta: int, e: Event)
    requires MovedOnly(x, y, uid, delta) && !Rates(x, e, uid)
    ensures MovedOnly(Step(expected, x, e), Step(expected, y, e), uid, delta)
  {
    if e.Played? {
      var ranked := Ranked(x.users, e.people);
      RankedApart(x, y, uid, delta, e.people);
      if |ranked| >= 2 {
        RankedFacts(x.users, e.people, |e.people|);
        forall i | 0 <= i < |ranked| ensures ranked[i].uid != uid {
          EntryIn(ranked, uid, ranked[i]);
        }
        RatedApart(expected, x.users, ranked, |ranked|, uid, MovedBy(x.users[uid], delta));
      }
    } else if e.uid in x.users {
      var u := x.users;
      assert Step(expected, x, e).users == u[e.uid := MovedBy(u[e.uid], e.delta)];
      assert Step(expected, y, e).users
          == Step(expected, x, e).users[uid := MovedBy(Step(expected, x, e).users[uid], delta)];
    }
  }

  lemma NeverFront(expected: Expected, b: Book, later: seq<Event>, uid: int)
    requires later != [] && NeverRates(expected, b, later, uid)
    ensures NeverRates(expected, b, later[..|later| - 1], uid)
    ensures !Rates(Replay(expected, b, later[..|later| - 1]), later[|later| - 1], uid)
  {
    hide Rates, Replay;
    var front := later[..|later| - 1];
    forall k | 0 <= k < |front| ensures front[..k] == later[..k] && front[k] == later[k] {
    }
  }

  /** Through events that do not rate the user, the two books differ by the adjustment alone. */
  lemma {:induction false} ApartReplay(expected: Expected, x: Book, y: Book, uid: int, delta: int, later: seq<Event>)
    requires MovedOnly(x, y, uid, delta) && NeverRates(expected, x, later, uid)
    ensures MovedOnly(Replay(expected, x, later), Replay(expected, y, later), uid, delta)
  {
    hide MovedOnly, NeverRates, Rates, Step;
    if later != [] {
      var n := |later| - 1;
      NeverFront(expected, x, later, uid);
      ApartReplay(expected, x, y, uid, delta, later[..n]);
      ApartStep(expected, Replay(expected, x, later[..n]), Replay(expected, y, later[..n]), uid, delta, later[n]);
    }
  }

  // The first game behind the adjustment that rates the user notes another rating.
  lemma RatingTells(expected: Expected, x: Book, y: Book, uid: int, delta: int, e: Event)
    requires MovedOnly(x, y, uid, delta) && Rates(x, e, uid) && delta != 0
    ensures PairAt(Step(expected, x, e).pairs, e.id, uid) != PairAt(Step(expected, y, e).pairs, e.id, uid)
  {
    RankedApart(x, y, uid, delta, e.people);
    RatePairAt(expected, x, e.id, e.people, e.id, uid);
    RatePairAt(expected, y, e.id, e.people, e.id, uid);
  }

  // What is noted for the user is the same with the adjustment before.
  ghost predicate SameNotes(x: Book, y: Book, uid: int) {
    forall id :: PairAt(x.pairs, id, uid) == PairAt(y.pairs, id, uid)
  }

  lemma NotesTellAt(expected: Expected, x: Book, y: Book, uid: int, delta: int, later: seq<Event>, k: nat)
    requires MovedOnly(x, y, uid, delta) && delta != 0 && DistinctGames(later) && k < |later|
    requires NeverRates(expected, x, later[..k], uid)
    requires SameNotes(Replay(expected, x, later), Replay(expected, y, later), uid)
    ensures !Rates(Replay(expected, x, later[..k]), later[k], uid)
  {
    var u, v := Replay(expected, x, later[..k]), Replay(expected, y, later[..k]);
    ApartReplay(expected, x, y, uid, delta, later[..k]);
    if Rates(u, later[k], uid) {
      RatingTells(expected, u, v, uid, delta, later[k]);
      NotedInTheEnd(expected, x, later, k, uid);
      NotedInTheEnd(expected, y, later, k, uid);
      assert false;
    }
  }

  lemma {:induction false} SameNotesUnrated(expected: Expected, x: Book, y: Book, uid: int, delta: int,
                                            later: seq<Event>, k: nat)
    requires MovedOnly(x, y, uid, delta) && delta != 0 && DistinctGames(later) && k <= |later|
    requires SameNotes(Replay(expected, x, later), Replay(expected, y, later), uid)
    ensures NeverRates(expected, x, later[..k], uid)
  {
    hide Rates, MovedOnly, DistinctGames, SameNotes, Replay;
    if k > 0 {
      SameNotesUnrated(expected, x, y, uid, delta, later, k - 1);
      NotesTellAt(expected, x, y, uid, delta, later, k - 1);
      forall i | 0 <= i < k ensures !Rates(Replay(expected, x, later[..k][..i]), later[..k][i], uid) {
        assert later[..k][..i] == later[..i];
        if i < k - 1 {
          assert later[..k - 1][..i] == later[..i] && later[..k - 1][i] == later[i];
        }
      }
    }
  }

  // ----- The tables -----

  function AdjustmentNow(t: Tables, uid: int, rating: int, now: int): Event
    requires uid in t.users
  {
    Adjusted(now, |t.adjustments|, uid, rating - t.users[uid].rating)
  }

  // Every event is before or behind a new adjustment.
  lemma AdjustmentSide(t: Tables, p: Event, x: Event)
    requires Sound(t) && x in EventsOf(t) && p.Adjusted? && p.id == |t.adjustments|
    ensures Earlier(x, p) || Earlier(p, x)
  {
    if x in GameEvents(t.games) {
      GameEventsIn(t.games, x);
    }
  }

  // The timeline with and without the adjustment.
  lemma AdjustmentSplits(t: Tables, uid: int, rating: int, now: int)
    requires Sound(t) && SetRating(t, uid, rating, now).Ok?
    ensures var p := AdjustmentNow(t, uid, rating, now);
            var lo, hi := Ahead(TimelineOf(t), p), Behind(TimelineOf(t), p);
            && TimelineOf(t) == lo + hi && TimelineOf(SetRating(t, uid, rating, now).value) == lo + [p] + hi
            && DistinctGames(hi)
  {
    var p, u := AdjustmentNow(t, uid, rating, now), SetRating(t, uid, rating, now).value;
    var events := EventsOf(t);
    assert AdjustmentEvents(u.adjustments) == AdjustmentEvents(t.adjustments) + [p];
    assert EventsOf(u) == events + [p] + [] && events + [] == events;
    forall x | x in events ensures Earlier(x, p) || Earlier(p, x) {
      AdjustmentSide(t, p, x);
    }
    var lo, hi := TimelineSplits(events, p, []);
    SplitFilters(lo, hi, p);
    TimelineDistinct(t);
    DistinctParts(lo, hi);
  }

  lemma AdjustedUsers(t: Tables, uid: int, rating: int, now: int)
    requires SetRating(t, uid, rating, now).Ok?
    ensures var p, u := AdjustmentNow(t, uid, rating, now), SetRating(t, uid, rating, now).value;
            && u.users == t.users[uid := MovedBy(t.users[uid], p.delta)] && u.games == t.games
            && p.delta != 0 && Newcomers(u.users) == Newcomers(t.users)
  {
  }

  // The replay without the adjustment and with it.
  lemma AdjustedAround(expected: Expected, t: Tables, uid: int, rating: int, now: int)
    requires Sound(t) && SetRating(t, uid, rating, now).Ok?
    ensures var p, u := AdjustmentNow(t, uid, rating, now), SetRating(t, uid, rating, now).value;
            var b, later := BookAhead(expected, t, p), Behind(TimelineOf(t), p);
            && MovedOnly(b, Step(expected, b, p), uid, p.delta)
            && Computed(expected, t) == Replay(expected, b, later)
            && Computed(expected, u) == Replay(expected, Step(expected, b, p), later)
  {
    var p, start := AdjustmentNow(t, uid, rating, now), Book(Newcomers(t.users), map[]);
    AdjustmentSplits(t, uid, rating, now);
    AdjustedUsers(t, uid, rating, now);
    assert start.users.Keys == t.users.Keys;
    hide Ahead, Behind, TimelineOf, Replay, Sound, MovedOnly, Step, DistinctGames, SetRating, Newcomers;
    ReplayThrough(expected, start, Ahead(TimelineOf(t), p), p, Behind(TimelineOf(t), p));
    ReplayKeys(expected, start, Ahead(TimelineOf(t), p));
    AdjustMoves(expected, BookAhead(expected, t, p), p);
  }

  lemma AdjustMoves(expected: Expected, b: Book, p: Event)
    requires p.Adjusted? && p.uid in b.users
    ensures MovedOnly(b, Step(expected, b, p), p.uid, p.delta)
  {
  }

  // A game that counts, ended after this time and rated the user.
  ghost predicate RatedSince(t: Tables, uid: int, now: int) {
    exists i :: 0 <= i < |t.games| && Counts(t.games[i]) && t.games[i].time > now && RatedIn(t.games[i], uid)
  }

  // The rows of a right cache show in which games the user was rated.
  lemma RatedInIff(expected: Expected, t: Tables, i: nat, uid: int)
    requires Consistent(expected, t) && Sound(t) && i < |t.games|
    ensures RatedIn(t.games[i], uid) <==> PairAt(Computed(expected, t).pairs, t.games[i].id, uid).Some?
  {
    forall k | 0 <= k < |t.games[i].rows| && t.games[i].rows[k].uid == Some(uid)
      ensures t.games[i].rows[k].rated == PairAt(Computed(expected, t).pairs, t.games[i].id, uid)
    {
      StampAt(expected, t, i, k);
    }
    if PairAt(Computed(expected, t).pairs, t.games[i].id, uid).Some? {
      NotedHasRow(expected, t, t.games[i].id, uid);
      var j, k :| 0 <= j < |t.games| && t.games[j].id == t.games[i].id && 0 <= k < |t.games[j].rows|
                  && t.games[j].rows[k].uid == Some(uid);
      assert j == i;
    }
  }

  // An event rates the user exactly when something is noted with it in the end.
  lemma RatesIffNoted(expected: Expected, b: Book, lo: seq<Event>, later: seq<Event>, k: nat, uid: int)
    requires b.pairs == map[] && DistinctGames(lo + later) && k < |later| && later[k].Played?
    ensures Rates(Replay(expected, b, lo + later[..k]), later[k], uid)
            <==> PairAt(Replay(expected, b, lo + later).pairs, later[k].id, uid).Some?
  {
    var before, e := lo + later[..k], later[k];
    assert before == (lo + later)[..|lo| + k] && (lo + later)[|lo| + k] == e;
    forall x | x in before && x.Played? ensures x.id != e.id {
      var i :| 0 <= i < |before| && before[i] == x;
      assert (lo + later)[i] == x;
    }
    OnlyPlayedRated(expected, b, before, (e.id, uid));
    hide Replay, Rates, DistinctGames, Step;
    RatesNotes(expected, Replay(expected, b, before), e, uid);
    NotedInTheEnd(expected, b, lo + later, |lo| + k, uid);
  }

  lemma RatesPlayed(x: Book, e: Event, uid: int)
    requires Rates(x, e, uid)
    ensures e.Played?
  {
  }

  lemma RatesNotes(expected: Expected, x: Book, e: Event, uid: int)
    requires e.Played? && PairAt(x.pairs, e.id, uid).None?
    ensures Rates(x, e, uid) <==> PairAt(Step(expected, x, e).pairs, e.id, uid).Some?
  {
    RatePairAt(expected, x, e.id, e.people, e.id, uid);
  }

  // Nothing is rated behind the adjustment for this user exactly when the tables show no such game.
  lemma NeverIffNotSince(expected: Expected, t: Tables, uid: int, rating: int, now: int)
    requires Consistent(expected, t) && Sound(t) && SetRating(t, uid, rating, now).Ok?
    ensures var p := AdjustmentNow(t, uid, rating, now);
            NeverRates(expected, BookAhead(expected, t, p), Behind(TimelineOf(t), p), uid)
            <==> !RatedSince(t, uid, now)
  {
    var p := AdjustmentNow(t, uid, rating, now);
    var b, later := BookAhead(expected, t, p), Behind(TimelineOf(t), p);
    if RatedSince(t, uid, now) {
      var i :| 0 <= i < |t.games| && Counts(t.games[i]) && t.games[i].time > now && RatedIn(t.games[i], uid);
      var k := PlaceBehind(expected, t, uid, rating, now, i);
      assert Rates(Replay(expected, b, later[..k]), later[k], uid);
    } else {
      forall k | 0 <= k < |later| ensures !Rates(Replay(expected, b, later[..k]), later[k], uid) {
        if Rates(Replay(expected, b, later[..k]), later[k], uid) {
          RatedBehind(expected, t, uid, rating, now, k);
        }
      }
    }
  }

  // Event k behind the adjustment rates the user exactly when something is noted with it in the tables.
  lemma BehindRates(expected: Expected, t: Tables, uid: int, rating: int, now: int, k: nat)
    requires Sound(t) && SetRating(t, uid, rating, now).Ok?
    requires var later := Behind(TimelineOf(t), AdjustmentNow(t, uid, rating, now));
             k < |later| && later[k].Played?
    ensures var p := AdjustmentNow(t, uid, rating, now);
            var later := Behind(TimelineOf(t), p);
            Rates(Replay(expected, BookAhead(expected, t, p), later[..k]), later[k], uid)
            <==> PairAt(Computed(expected, t).pairs, later[k].id, uid).Some?
  {
    var p, start := AdjustmentNow(t, uid, rating, now), Book(Newcomers(t.users), map[]);
    var lo, later := Ahead(TimelineOf(t), p), Behind(TimelineOf(t), p);
    AdjustmentSplits(t, uid, rating, now);
    TimelineDistinct(t);
    ReplayConcat(expected, start, lo, later[..k]);
    hide Ahead, Behind, TimelineOf, Replay, Rates, DistinctGames, Sound;
    RatesIffNoted(expected, start, lo, later, k, uid);
  }

  lemma PlaceBehind(expected: Expected, t: Tables, uid: int, rating: int, now: int, i: nat) returns (k: nat)
    requires Consistent(expected, t) && Sound(t) && SetRating(t, uid, rating, now).Ok?
    requires i < |t.games| && Counts(t.games[i]) && t.games[i].time > now && RatedIn(t.games[i], uid)
    ensures var p := AdjustmentNow(t, uid, rating, now);
            var later := Behind(TimelineOf(t), p);
            k < |later| && Rates(Replay(expected, BookAhead(expected, t, p), later[..k]), later[k], uid)
  {
    var p, e := AdjustmentNow(t, uid, rating, now), GameEvent(t.games[i]);
    var lo, later := Ahead(TimelineOf(t), p), Behind(TimelineOf(t), p);
    GameEventsIn(t.games, e);
    SortedIn(EventsOf(t), e);
    AdjustmentSplits(t, uid, rating, now);
    SidesOf(TimelineOf(t), p);
    RatedInIff(expected, t, i, uid);
    assert !Earlier(e, p);
    hide Ahead, Behind, TimelineOf, Replay, Rates, Sound, Consistent, RatedIn;
    assert e in lo + later && e !in lo;
    k :| 0 <= k < |later| && later[k] == e;
    BehindRates(expected, t, uid, rating, now, k);
  }

  lemma RatedBehind(expected: Expected, t: Tables, uid: int, rating: int, now: int, k: nat)
    requires Consistent(expected, t) && Sound(t) && SetRating(t, uid, rating, now).Ok?
    requires var p := AdjustmentNow(t, uid, rating, now);
             var later := Behind(TimelineOf(t), p);
             k < |later| && Rates(Replay(expected, BookAhead(expected, t, p), later[..k]), later[k], uid)
    ensures RatedSince(t, uid, now)
  {
    var p := AdjustmentNow(t, uid, rating, now);
    var lo, later := Ahead(TimelineOf(t), p), Behind(TimelineOf(t), p);
    var e := later[k];
    RatesPlayed(Replay(expected, BookAhead(expected, t, p), later[..k]), e, uid);
    AdjustmentSplits(t, uid, rating, now);
    SidesOf(TimelineOf(t), p);
    BehindRates(expected, t, uid, rating, now, k);
    hide Ahead, Behind, TimelineOf, Replay, Rates, Consistent, RatedIn, Computed;
    assert e in lo + later;
    var i := GameOf(t, e);
    RatedInIff(expected, t, i, uid);
  }

  // In right caches with the same rows the same is noted.
  lemma SameRowsSameNotes(expected: Expected, t: Tables, u: Tables, uid: int)
    requires Consistent(expected, t) && Consistent(expected, u) && u.games == t.games
    ensures SameNotes(Computed(expected, t), Computed(expected, u), uid)
  {
    forall id ensures PairAt(Computed(expected, t).pairs, id, uid) == PairAt(Computed(expected, u).pairs, id, uid) {
      if HasRow(t, id, uid) {
        var i, k :| 0 <= i < |t.games| && t.games[i].id == id && 0 <= k < |t.games[i].rows|
                    && t.games[i].rows[k].uid == Some(uid);
        StampAt(expected, t, i, k);
        StampAt(expected, u, i, k);
      } else {
        if PairAt(Computed(expected, t).pairs, id, uid).Some? {
          NotedHasRow(expected, t, id, uid);
        }
        if PairAt(Computed(expected, u).pairs, id, uid).Some? {
          NotedHasRow(expected, u, id, uid);
          assert HasRow(t, id, uid);
        }
      }
    }
  }

  // Equal books stamp the same: only the standings have to be compared when the pairs did not change.
  lemma SamePairsConsistent(expected: Expected, t: Tables, u: Tables)
    requires Consistent(expected, t) && u.games == t.games
    requires Computed(expected, u).pairs == Computed(expected, t).pairs && Computed(expected, u).users == u.users
    ensures Consistent(expected, u)
  {
    assert StampGames(Computed(expected, t).pairs, t.games) == Recomputed(expected, t).games;
  }

  lemma AllUnrated(expected: Expected, x: Book, y: Book, uid: int, delta: int, later: seq<Event>)
    requires MovedOnly(x, y, uid, delta) && delta != 0 && DistinctGames(later)
    requires SameNotes(Replay(expected, x, later), Replay(expected, y, later), uid)
    ensures NeverRates(expected, x, later, uid)
  {
    SameNotesUnrated(expected, x, y, uid, delta, later, |later|);
    assert later[..|later|] == later;
  }

  // Tables whose histories differ by an adjustment.
  lemma MovedIff(expected: Expected, t: Tables, u: Tables, x: Book, y: Book, uid: int, delta: int, later: seq<Event>)
    requires Consistent(expected, t) && u.games == t.games && delta != 0 && DistinctGames(later)
    requires uid in t.users && u.users == t.users[uid := MovedBy(t.users[uid], delta)]
    requires Computed(expected, t) == Replay(expected, x, later) && Computed(expected, u) == Replay(expected, y, later)
    requires MovedOnly(x, y, uid, delta)
    ensures Consistent(expected, u) <==> NeverRates(expected, x, later, uid)
  {
    assert Computed(expected, t).users == t.users;
    hide NeverRates, DistinctGames, Replay, Computed, Recomputed;
    if NeverRates(expected, x, later, uid) {
      ApartReplay(expected, x, y, uid, delta, later);
      SamePairsConsistent(expected, t, u);
    }
    if Consistent(expected, u) {
      SameRowsSameNotes(expected, t, u, uid);
      AllUnrated(expected, x, y, uid, delta, later);
    }
  }

  /**
   An adjustment at any time leaves the cache right exactly when the user was not rated in a game that ended later:
   such a game was rated without the adjustment, which the replay puts before it.
   */
  lemma SetRatingIff(expected: Expected, t: Tables, uid: int, rating: int, now: int)
    requires Consistent(expected, t) && Sound(t) && SetRating(t, uid, rating, now).Ok?
    ensures Consistent(expected, SetRating(t, uid, rating, now).value) <==> !RatedSince(t, uid, now)
  {
    var p, u := AdjustmentNow(t, uid, rating, now), SetRating(t, uid, rating, now).value;
    var b, later := BookAhead(expected, t, p), Behind(TimelineOf(t), p);
    NeverIffNotSince(expected, t, uid, rating, now);
    AdjustedAround(expected, t, uid, rating, now);
    AdjustmentSplits(t, uid, rating, now);
    AdjustedUsers(t, uid, rating, now);
    hide SetRating, NeverRates, RatedSince, Replay, Step, DistinctGames, Behind, BookAhead, Computed, Consistent;
    hide MovedOnly, Sound, TimelineOf;
    MovedIff(expected, t, u, b, Step(expected, b, p), uid, p.delta, later);
  }
}
