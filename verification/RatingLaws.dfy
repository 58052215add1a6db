/**
 The stored ratings are a cache of the replay: whatever is done, the table of users and the ratings noted
 with every game equal those computed from nothing. So undoing an operation restores all ratings.
 */
module RatingLaws {
  import opened Results
  import opened Orders
  import opened Elo
  import opened Ratings
  import opened RatingOrder
  import opened Rosters

  /** The cache is right: computing everything anew changes nothing. */
  ghost predicate Consistent(expected: Expected, t: Tables) {
    Recomputed(expected, t) == t
  }

  // Ids are different and given out in order, a game has one row for a name; nobody has the user id 0.
  ghost predicate Sound(t: Tables) {
    && 0 !in t.users
    && (forall i :: 0 <= i < |t.games| ==> t.games[i].id < t.nextId && DistinctRows(t.games[i].rows))
    && (forall i, j :: 0 <= i < j < |t.games| ==> t.games[i].id != t.games[j].id)
    && (forall i :: 0 <= i < |t.adjustments| ==> t.adjustments[i].id < |t.adjustments|)
  }

  // ----- The timeline -----

  ghost predicate Ascending(events: seq<Event>) {
    forall i, j :: 0 <= i < j < |events| ==> !Earlier(events[j], events[i])
  }

  lemma {:induction false} InsertAdds(sorted: seq<Event>, e: Event)
    ensures multiset(Insert(sorted, e)) == multiset(sorted) + multiset{e}
  {
    if sorted != [] && Earlier(e, sorted[|sorted| - 1]) {
      var front, last := sorted[..|sorted| - 1], sorted[|sorted| - 1];
      assert sorted == front + [last];
      InsertAdds(front, e);
    }
  }

  lemma InsertedIn(sorted: seq<Event>, e: Event, x: Event)
    requires x in Insert(sorted, e)
    ensures x in sorted || x == e
  {
    InsertAdds(sorted, e);
    assert x in multiset(Insert(sorted, e));
  }

  lemma {:induction false} InsertKeepsOrder(sorted: seq<Event>, e: Event)
    requires Ascending(sorted)
    ensures Ascending(Insert(sorted, e))
  {
    if sorted != [] && Earlier(e, sorted[|sorted| - 1]) {
      var front, last := sorted[..|sorted| - 1], sorted[|sorted| - 1];
      InsertKeepsOrder(front, e);
      forall x | x in Insert(front, e) ensures !Earlier(last, x) {
        InsertedIn(front, e, x);
      }
    }
  }

  /** The timeline holds exactly the events, in order of time; at the same time games come before adjustments. */
  lemma {:induction false} SortIsChronological(events: seq<Event>)
    ensures Ascending(Sort(events)) && multiset(Sort(events)) == multiset(events)
  {
    if events != [] {
      var front := events[..|events| - 1];
      assert events == front + [events[|events| - 1]];
      SortIsChronological(front);
      InsertKeepsOrder(Sort(front), events[|events| - 1]);
      InsertAdds(Sort(front), events[|events| - 1]);
    }
  }

  // The event comes after all others.
  ghost predicate Latest(e: Event, events: seq<Event>) {
    forall x :: x in events ==> Earlier(x, e)
  }

  lemma InsertBeforeLatest(sorted: seq<Event>, x: Event, e: Event)
    requires Earlier(x, e)
    ensures Insert(sorted + [e], x) == Insert(sorted, x) + [e]
  {
    assert (sorted + [e])[..|sorted|] == sorted;
  }

  lemma SortedIn(events: seq<Event>, x: Event)
    ensures x in Sort(events) <==> x in events
  {
    SortIsChronological(events);
    assert x in Sort(events) <==> x in multiset(Sort(events));
    assert x in events <==> x in multiset(events);
  }

  /** Wherever the latest event stands in the tables, it comes last in the timeline. */
  lemma {:induction false} LatestComesLast(a: seq<Event>, e: Event, b: seq<Event>)
    requires Latest(e, a + b)
    ensures Sort(a + [e] + b) == Sort(a + b) + [e]
    decreases |b|
  {
    if b == [] {
      assert a + [e] + b == a + [e] && (a + [e])[..|a|] == a && a + b == a;
      if a != [] {
        var last := Sort(a)[|Sort(a)| - 1];
        SortIsChronological(a);
        SortedIn(a, last);
        assert last in a + b;
      }
    } else {
      var front, last := b[..|b| - 1], b[|b| - 1];
      assert (a + [e] + b)[..|a + [e] + b| - 1] == a + [e] + front && (a + b)[..|a + b| - 1] == a + front;
      assert last in a + b;
      assert forall x :: x in a + front ==> x in a + b;
      LatestComesLast(a, e, front);
      InsertBeforeLatest(Sort(a + front), last, e);
    }
  }

  // ----- What the replay depends on -----

  // The stored ratings play no role in the replay.
  ghost predicate SameHistory(t: Tables, u: Tables) {
    && t.users.Keys == u.users.Keys && t.adjustments == u.adjustments && t.nextId == u.nextId
    && |t.games| == |u.games|
    && forall i :: 0 <= i < |t.games| ==> SameGame(t.games[i], u.games[i])
  }

  ghost predicate SameGame(g: GameRow, h: GameRow) {
    && g.(rows := []) == h.(rows := [])
    && |g.rows| == |h.rows|
    && forall i :: 0 <= i < |g.rows| ==> g.rows[i].(rated := None) == h.rows[i].(rated := None)
  }

  lemma SameGameEvent(g: GameRow, h: GameRow)
    requires SameGame(g, h)
    ensures Counts(g) == Counts(h) && GameEvent(g) == GameEvent(h)
  {
    forall i | 0 <= i < |g.rows| ensures PeopleOf(g.rows, g.flags)[i] == PeopleOf(h.rows, h.flags)[i] {
      assert g.rows[i].(rated := None) == h.rows[i].(rated := None);
    }
  }

  lemma {:induction false} SameGameEvents(games: seq<GameRow>, others: seq<GameRow>)
    requires |games| == |others| && forall i :: 0 <= i < |games| ==> SameGame(games[i], others[i])
    ensures GameEvents(games) == GameEvents(others)
  {
    if games != [] {
      var n := |games| - 1;
      SameGameEvents(games[..n], others[..n]);
      SameGameEvent(games[n], others[n]);
    }
  }

  lemma StampedAlike(pairs: Pairs, g: GameRow, h: GameRow)
    requires SameGame(g, h)
    ensures g.(rows := StampRows(pairs, g.id, g.rows)) == h.(rows := StampRows(pairs, h.id, h.rows))
  {
    assert g.(rows := []).id == h.(rows := []).id;
    forall i | 0 <= i < |g.rows| ensures StampRow(pairs, g.id, g.rows[i]) == StampRow(pairs, h.id, h.rows[i]) {
      assert g.rows[i].(rated := None) == h.rows[i].(rated := None);
    }
    assert StampRows(pairs, g.id, g.rows) == StampRows(pairs, h.id, h.rows);
    assert g.(rows := StampRows(pairs, g.id, g.rows)) == g.(rows := []).(rows := StampRows(pairs, g.id, g.rows));
  }

  /** Tables with the same history are computed to the same ratings. */
  lemma SameHistorySameRatings(expected: Expected, t: Tables, u: Tables)
    requires SameHistory(t, u)
    ensures Computed(expected, t) == Computed(expected, u)
    ensures Recomputed(expected, t) == Recomputed(expected, u)
  {
    SameGameEvents(t.games, u.games);
    assert Newcomers(t.users) == Newcomers(u.users);
    var pairs := Computed(expected, t).pairs;
    forall i | 0 <= i < |t.games| ensures StampGames(pairs, t.games)[i] == StampGames(pairs, u.games)[i] {
      StampedAlike(pairs, t.games[i], u.games[i]);
    }
    assert StampGames(pairs, t.games) == StampGames(pairs, u.games);
  }

  lemma {:induction false} RatedKeys(expected: Expected, users: map<int, Standing>, ranked: seq<Entry>, n: nat)
    requires n <= |ranked| && forall i :: 0 <= i < n ==> ranked[i].uid in users
    ensures RatedTo(expected, users, ranked, n).Keys == users.Keys
  {
    if n > 0 {
      RatedKeys(expected, users, ranked, n - 1);
    }
  }

  lemma StepKeys(expected: Expected, b: Book, e: Event)
    ensures Step(expected, b, e).users.Keys == b.users.Keys
  {
    if e.Played? {
      var ranked := Ranked(b.users, e.people);
      RankedFacts(b.users, e.people, |e.people|);
      RatedKeys(expected, b.users, ranked, |ranked|);
    }
  }

  lemma {:induction false} ReplayKeys(expected: Expected, b: Book, events: seq<Event>)
    ensures Replay(expected, b, events).users.Keys == b.users.Keys
  {
    if events != [] {
      ReplayKeys(expected, b, events[..|events| - 1]);
      StepKeys(expected, Replay(expected, b, events[..|events| - 1]), events[|events| - 1]);
    }
  }

  lemma RecomputedSameHistory(expected: Expected, t: Tables)
    ensures SameHistory(Recomputed(expected, t), t)
  {
    ReplayKeys(expected, Book(Newcomers(t.users), map[]), TimelineOf(t));
    assert Newcomers(t.users).Keys == t.users.Keys;
  }

  /** After everything has been computed anew, the cache is right, whatever it was before. */
  lemma RecomputedIsConsistent(expected: Expected, t: Tables)
    ensures Consistent(expected, Recomputed(expected, t))
  {
    RecomputedSameHistory(expected, t);
    SameHistorySameRatings(expected, Recomputed(expected, t), t);
  }

  // ----- Only games of the timeline are rated -----

  lemma {:induction false} PairsKeys(expected: Expected, pairs: Pairs, id: nat, ranked: seq<Entry>, n: nat,
                                     key: (nat, int))
    requires n <= |ranked|
    ensures key in PairsTo(expected, pairs, id, ranked, n) <==>
              key in pairs || (key.0 == id && exists i :: 0 <= i < n && ranked[i].uid == key.1)
    ensures key.0 != id && key in pairs ==> PairsTo(expected, pairs, id, ranked, n)[key] == pairs[key]
  {
    if n > 0 {
      PairsKeys(expected, pairs, id, ranked, n - 1, key);
      assert key == (id, ranked[n - 1].uid) <==> key.0 == id && key.1 == ranked[n - 1].uid;
      if i :| 0 <= i < n && ranked[i].uid == key.1 {
        assert i == n - 1 || i < n - 1;
      }
    }
  }

  lemma RateOther(expected: Expected, b: Book, id: nat, ranked: seq<Entry>, key: (nat, int))
    requires key.0 != id
    ensures key in Rate(expected, b, id, ranked).pairs <==> key in b.pairs
    ensures key in b.pairs ==> Rate(expected, b, id, ranked).pairs[key] == b.pairs[key]
  {
    PairsKeys(expected, b.pairs, id, ranked, |ranked|, key);
  }

  lemma {:induction false} OnlyPlayedRated(expected: Expected, b: Book, events: seq<Event>, key: (nat, int))
    requires key !in b.pairs && forall e :: e in events && e.Played? ==> e.id != key.0
    ensures key !in Replay(expected, b, events).pairs
  {
    if events != [] {
      var front, last := events[..|events| - 1], events[|events| - 1];
      assert last in events && forall e :: e in front ==> e in events;
      OnlyPlayedRated(expected, b, front, key);
      if last.Played? {
        var before := Replay(expected, b, front);
        RateOther(expected, before, last.id, Ranked(before.users, last.people), key);
      }
    }
  }

  lemma {:induction false} GameEventsIn(games: seq<GameRow>, e: Event)
    ensures e in GameEvents(games) <==> exists i :: 0 <= i < |games| && Counts(games[i]) && e == GameEvent(games[i])
  {
    if games != [] {
      var n := |games| - 1;
      GameEventsIn(games[..n], e);
      if i :| 0 <= i < |games| && Counts(games[i]) && e == GameEvent(games[i]) {
        assert i < n ==> games[..n][i] == games[i];
      }
      if i :| 0 <= i < n && Counts(games[..n][i]) && e == GameEvent(games[..n][i]) {
        assert games[i] == games[..n][i];
      }
    }
  }

  // A game that does not count has no event, and so no ratings.
  lemma UncountedUnrated(expected: Expected, t: Tables, id: nat, key: (nat, int))
    requires key.0 == id && forall i :: 0 <= i < |t.games| && Counts(t.games[i]) ==> t.games[i].id != id
    ensures key !in Computed(expected, t).pairs
  {
    forall e | e in TimelineOf(t) && e.Played? ensures e.id != id {
      SortedIn(EventsOf(t), e);
      GameEventsIn(t.games, e);
    }
    OnlyPlayedRated(expected, Book(Newcomers(t.users), map[]), TimelineOf(t), key);
  }

  // ----- Storing a game -----

  lemma StampIs(expected: Expected, t: Tables, i: nat)
    requires Consistent(expected, t) && i < |t.games|
    ensures StampRows(Computed(expected, t).pairs, t.games[i].id, t.games[i].rows) == t.games[i].rows
    ensures Computed(expected, t).users == t.users
  {
    assert Recomputed(expected, t).games[i] == t.games[i];
  }

  // The game a room's data goes to has not been rated.
  lemma SlotUnrated(expected: Expected, t: Tables, room: string)
    requires Consistent(expected, t) && Sound(t)
    ensures Unrated(SlotGame(t, room).rows)
    ensures forall i :: 0 <= i < |t.games| && i != Slot(t, room) ==> t.games[i].id != SlotGame(t, room).id
    ensures forall u :: PairAt(Computed(expected, t).pairs, SlotGame(t, room).id, u).None?
  {
    var i, g := Slot(t, room), SlotGame(t, room);
    forall u ensures PairAt(Computed(expected, t).pairs, g.id, u).None? {
      UncountedUnrated(expected, t, g.id, (g.id, u));
    }
    if i < |t.games| {
      StampIs(expected, t, i);
      forall k | 0 <= k < |g.rows| ensures g.rows[k].rated.None? {
        assert StampRows(Computed(expected, t).pairs, g.id, g.rows)[k] == g.rows[k];
      }
    }
  }

  lemma {:induction false} GameEventsConcat(a: seq<GameRow>, b: seq<GameRow>)
    ensures GameEvents(a + b) == GameEvents(a) + GameEvents(b)
  {
    if b == [] {
      assert a + b == a;
    } else {
      var n := |b| - 1;
      assert (a + b)[..|a + b| - 1] == a + b[..n];
      GameEventsConcat(a, b[..n]);
    }
  }

  // The events before and after the place of a game that does not count.
  lemma EventsAround(games: seq<GameRow>, i: nat, g: GameRow)
    requires i < |games| && !Counts(games[i])
    ensures GameEvents(games) == GameEvents(games[..i]) + GameEvents(games[i + 1..])
    ensures GameEvents(games[i := g])
            == GameEvents(games[..i]) + (if Counts(g) then [GameEvent(g)] else []) + GameEvents(games[i + 1..])
  {
    assert games == games[..i] + [games[i]] + games[i + 1..];
    assert games[i := g] == games[..i] + [g] + games[i + 1..];
    GameEventsConcat(games[..i] + [games[i]], games[i + 1..]);
    GameEventsConcat(games[..i], [games[i]]);
    GameEventsConcat(games[..i] + [g], games[i + 1..]);
    GameEventsConcat(games[..i], [g]);
    SingleEvent(games[i]);
    SingleEvent(g);
  }

  lemma SingleEvent(g: GameRow)
    ensures GameEvents([g]) == if Counts(g) then [GameEvent(g)] else []
  {
    assert GameEvents([g][..0]) == [];
  }

  // Storing a game adds its event, if it counts, somewhere among the others.
  lemma EventsPut(t: Tables, room: string, g: GameRow) returns (a: seq<Event>, b: seq<Event>)
    ensures EventsOf(t) == a + b
    ensures EventsOf(PutGame(t, room, g)) == a + (if Counts(g) then [GameEvent(g)] else []) + b
  {
    var i, adjusted := Slot(t, room), AdjustmentEvents(t.adjustments);
    if i < |t.games| {
      EventsAround(t.games, i, g);
      a, b := GameEvents(t.games[..i]), GameEvents(t.games[i + 1..]) + adjusted;
    } else {
      GameEventsConcat(t.games, [g]);
      SingleEvent(g);
      a, b := GameEvents(t.games), adjusted;
    }
  }

  lemma TimelineSame(t: Tables, room: string, g: GameRow)
    requires !Counts(g)
    ensures TimelineOf(PutGame(t, room, g)) == TimelineOf(t)
  {
    var a, b := EventsPut(t, room, g);
    assert a + [] + b == a + b;
  }

  lemma ReplaySnoc(expected: Expected, b: Book, events: seq<Event>, e: Event)
    ensures Replay(expected, b, events + [e]) == Step(expected, Replay(expected, b, events), e)
  {
    assert (events + [e])[..|events|] == events;
  }

  // Stamping does not depend on the pairs of other games.
  lemma StampSame(pairs: Pairs, others: Pairs, id: nat, rows: seq<Row>)
    requires forall u :: PairAt(pairs, id, u) == PairAt(others, id, u)
    ensures StampRows(pairs, id, rows) == StampRows(others, id, rows)
  {
  }

  lemma StampNone(pairs: Pairs, id: nat, rows: seq<Row>)
    requires Unrated(rows) && forall u :: PairAt(pairs, id, u).None?
    ensures StampRows(pairs, id, rows) == rows
  {
    forall i | 0 <= i < |rows| ensures StampRow(pairs, id, rows[i]) == rows[i] {
      assert rows[i].rated.None?;
    }
  }

  /** Storing a game that does not count leaves the cache right. */
  lemma StoreKeepsConsistent(expected: Expected, t: Tables, room: string, g: GameRow)
    requires Consistent(expected, t) && Sound(t)
    requires !Counts(g) && g.id == SlotGame(t, room).id && Unrated(g.rows)
    ensures Consistent(expected, PutGame(t, room, g))
  {
    var after := PutGame(t, room, g);
    TimelineSame(t, room, g);
    SlotUnrated(expected, t, room);
    var b := Computed(expected, t);
    assert Computed(expected, after) == b && b.users == t.users;
    forall i | 0 <= i < |after.games|
      ensures StampRows(b.pairs, after.games[i].id, after.games[i].rows) == after.games[i].rows
    {
      if i == Slot(t, room) {
        StampNone(b.pairs, g.id, g.rows);
      } else {
        StampIs(expected, t, i);
      }
    }
    assert StampGames(b.pairs, after.games) == after.games;
  }

  // ----- Finishing a game -----

  lemma {:induction false} RegisteredAlike(users: map<int, Standing>, people: seq<Person>, n: nat)
    requires 0 !in users && n <= |people|
    ensures RankedTo(users, Registered(people), n) == RankedTo(users, people, n)
  {
    if n > 0 {
      RegisteredAlike(users, people, n - 1);
    }
  }

  // The pairs of a game are the same whatever the pairs of other games are.
  lemma {:induction false} PairsAgree(expected: Expected, pairs: Pairs, id: nat, ranked: seq<Entry>, n: nat, u: int)
    requires n <= |ranked| && PairAt(pairs, id, u).None?
    ensures PairAt(PairsTo(expected, pairs, id, ranked, n), id, u)
            == PairAt(PairsTo(expected, map[], id, ranked, n), id, u)
  {
    if n > 0 {
      PairsAgree(expected, pairs, id, ranked, n - 1, u);
    }
  }

  // Writing the pairs into unrated rows is what stamping does.
  lemma MarkIsStamp(pairs: Pairs, others: Pairs, id: nat, rows: seq<Row>)
    requires Unrated(rows)
    requires forall u :: PairAt(pairs, id, u) == PairAt(others, id, u)
    ensures StampRows(pairs, id, MarkRows(others, id, rows)) == MarkRows(others, id, rows)
  {
    forall i | 0 <= i < |rows|
      ensures StampRow(pairs, id, MarkRow(others, id, rows[i])) == MarkRow(others, id, rows[i])
    {
      assert rows[i].rated.None?;
    }
  }

  lemma ApplySameHistory(expected: Expected, t: Tables, id: nat, people: seq<Person>)
    ensures SameHistory(ApplyRatings(expected, t, id, people), t)
  {
    var ranked := Ranked(t.users, Registered(people));
    RankedFacts(t.users, Registered(people), |people|);
    RatedKeys(expected, t.users, ranked, |ranked|);
  }

  /**
   Rating a finished game on the spot leaves the cache right when the replay of the history with this game rates
   it after everything else.
   */
  lemma SpotKeepsConsistent(expected: Expected, t: Tables, room: string, g: GameRow, people: seq<Person>)
    requires Consistent(expected, t) && Sound(t) && g.id == SlotGame(t, room).id && Unrated(g.rows)
    requires Computed(expected, PutGame(t, room, g))
             == Rate(expected, Book(t.users, Computed(expected, t).pairs), g.id, Ranked(t.users, people))
    ensures Consistent(expected, ApplyRatings(expected, PutGame(t, room, g), g.id, people))
  {
    var stored := PutGame(t, room, g);
    var after := ApplyRatings(expected, stored, g.id, people);
    var ranked := Ranked(t.users, people);
    RegisteredAlike(t.users, people, |people|);
    ApplySameHistory(expected, stored, g.id, people);
    SameHistorySameRatings(expected, after, stored);
    var b := Computed(expected, after);
    assert b.users == after.users;
    forall i | 0 <= i < |after.games|
      ensures StampRows(b.pairs, after.games[i].id, after.games[i].rows) == after.games[i].rows
    {
      RatedGame(expected, t, room, g, ranked, i);
    }
    assert StampGames(b.pairs, after.games) == after.games;
  }

  // The stamps of each game after the new one has been rated.
  lemma RatedGame(expected: Expected, t: Tables, room: string, g: GameRow, ranked: seq<Entry>, i: nat)
    requires Consistent(expected, t) && Sound(t)
    requires g.id == SlotGame(t, room).id && Unrated(g.rows)
    requires i < |PutGame(t, room, g).games|
    ensures var pairs := Rate(expected, Book(t.users, Computed(expected, t).pairs), g.id, ranked).pairs;
            var spot := Rate(expected, Book(t.users, map[]), g.id, ranked).pairs;
            var h := MarkGames(spot, g.id, PutGame(t, room, g).games)[i];
            StampRows(pairs, h.id, h.rows) == h.rows
  {
    var pairs := Computed(expected, t).pairs;
    var rated := Rate(expected, Book(t.users, pairs), g.id, ranked).pairs;
    var spot := Rate(expected, Book(t.users, map[]), g.id, ranked).pairs;
    SlotUnrated(expected, t, room);
    if i == Slot(t, room) {
      forall u ensures PairAt(rated, g.id, u) == PairAt(spot, g.id, u) {
        PairsAgree(expected, pairs, g.id, ranked, |ranked|, u);
      }
      MarkIsStamp(rated, spot, g.id, g.rows);
    } else {
      var h := t.games[i];
      forall u ensures PairAt(rated, h.id, u) == PairAt(pairs, h.id, u) {
        RateOther(expected, Book(t.users, pairs), g.id, ranked, (h.id, u));
      }
      StampSame(rated, pairs, h.id, h.rows);
      StampIs(expected, t, i);
    }
  }
}
