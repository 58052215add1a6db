/** The rating tables as an object. Every method leads to the tables that the operation of the same name describes. */
module Databases {
  import opened Results
  import opened Elo
  import opened Ratings
  import opened RatingOrder
  import opened RatingLaws

  lemma {:induction false} InsertAt(sorted: seq<Event>, e: Event, at: nat)
    requires at <= |sorted| && (at > 0 ==> !Earlier(e, sorted[at - 1]))
    requires forall k :: at <= k < |sorted| ==> Earlier(e, sorted[k])
    ensures Insert(sorted, e) == sorted[..at] + [e] + sorted[at..]
  {
    if at < |sorted| {
      InsertAt(sorted[..|sorted| - 1], e, at);
    }
  }

  method InsertEvent(sorted: seq<Event>, e: Event) returns (result: seq<Event>)
    ensures result == Insert(sorted, e)
  {
    var at := |sorted|;
    while at > 0 && Earlier(e, sorted[at - 1])
      invariant 0 <= at <= |sorted|
      invariant forall k :: at <= k < |sorted| ==> Earlier(e, sorted[k])
    {
      at := at - 1;
    }
    InsertAt(sorted, e, at);
    result := sorted[..at] + [e] + sorted[at..];
  }

  method SortEvents(events: seq<Event>) returns (sorted: seq<Event>)
    ensures sorted == Sort(events)
  {
    sorted := [];
    var i := 0;
    while i < |events|
      invariant 0 <= i <= |events|
      invariant sorted == Sort(events[..i])
    {
      assert events[..i + 1][..i] == events[..i];
      sorted := InsertEvent(sorted, events[i]);
      i := i + 1;
    }
    assert events[..i] == events;
  }

  method RankPeople(users: map<int, Standing>, people: seq<Person>) returns (ranked: seq<Entry>)
    ensures ranked == Ranked(users, people)
  {
    ranked := [];
    var n := 0;
    while n < |people|
      invariant 0 <= n <= |people|
      invariant ranked == RankedTo(users, people, n)
    {
      var p := people[n];
      if p.uid.Some? && p.uid.value in users && !Ranks(ranked, p.uid.value) {
        var score := if p.resigned then RESIGNED_SCORE else p.score;
        ranked := ranked + [Entry(p.uid.value, users[p.uid.value].rating, users[p.uid.value].games, score)];
      }
      n := n + 1;
    }
  }

  // The ranked get their changes; with fewer than two of them nothing happens.
  method RateAll(expected: Expected, b: Book, id: nat, ranked: seq<Entry>) returns (rated: Book)
    requires DistinctUsers(ranked)
    ensures rated == Rate(expected, b, id, ranked)
  {
    if |ranked| < 2 {
      return b;
    }
    var changes := RatingChanges(expected, ranked);
    var users, pairs := b.users, b.pairs;
    var n := 0;
    while n < |ranked|
      invariant 0 <= n <= |ranked|
      invariant users == RatedTo(expected, b.users, ranked, n)
      invariant pairs == PairsTo(expected, b.pairs, id, ranked, n)
    {
      var a := ranked[n];
      ChangesByUser(expected, ranked, |ranked|, n);
      var after := a.rating + changes[a.uid];
      users := users[a.uid := Standing(after, a.games + 1)];
      pairs := pairs[(id, a.uid) := (a.rating, after)];
      n := n + 1;
    }
    return Book(users, pairs);
  }

  class Database {
    const expected: Expected
    var users: map<int, Standing>
    var games: seq<GameRow>
    var adjustments: seq<Adjustment>
    var nextId: nat

    function Contents(): Tables
      reads this
    {
      Tables(users, games, adjustments, nextId)
    }

    constructor (expected: Expected)
      ensures Contents() == Tables(map[], [], [], 1) && this.expected == expected
    {
      this.expected, users, games, adjustments, nextId := expected, map[], [], [], 1;
    }

    // ----- The replay -----

    method Timeline() returns (events: seq<Event>)
      ensures events == TimelineOf(Contents())
    {
      var gathered: seq<Event> := [];
      var i := 0;
      while i < |games|
        invariant 0 <= i <= |games|
        invariant gathered == GameEvents(games[..i])
      {
        assert games[..i + 1][..i] == games[..i];
        if Counts(games[i]) {
          gathered := gathered + [GameEvent(games[i])];
        }
        i := i + 1;
      }
      assert games[..i] == games;
      var j := 0;
      while j < |adjustments|
        invariant 0 <= j <= |adjustments|
        invariant gathered == GameEvents(games) + AdjustmentEvents(adjustments[..j])
      {
        gathered := gathered + [AdjustmentEvent(adjustments[j])];
        j := j + 1;
      }
      assert adjustments[..j] == adjustments;
      events := SortEvents(gathered);
    }

    method ComputeRatings() returns (b: Book)
      ensures b == Computed(expected, Contents())
    {
      var events := Timeline();
      b := Book(Newcomers(users), map[]);
      ghost var start := b;
      var i := 0;
      while i < |events|
        invariant 0 <= i <= |events|
        invariant b == Replay(expected, start, events[..i])
      {
        assert events[..i + 1][..i] == events[..i];
        match events[i] {
          case Adjusted(_, _, uid, delta) =>
            if uid in b.users {
              var s := b.users[uid];
              b := b.(users := b.users[uid := Standing(s.rating + delta, s.games)]);
            }
          case Played(_, id, people) =>
            var ranked := RankPeople(b.users, people);
            RankedFacts(b.users, people, |people|);
            b := RateAll(expected, b, id, ranked);
        }
        i := i + 1;
      }
      assert events[..i] == events;
    }

    method RecomputeRatings()
      modifies this`users, this`games
      ensures Contents() == Recomputed(expected, old(Contents()))
    {
      var b := ComputeRatings();
      users := b.users;
      StampAll(b.pairs);
    }

    method StampAll(pairs: Pairs)
      modifies this`games
      ensures games == StampGames(pairs, old(games))
    {
      var i := 0;
      while i < |games|
        invariant 0 <= i <= |games| == |old(games)|
        invariant forall k :: 0 <= k < i ==> games[k] == StampGames(pairs, old(games))[k]
        invariant forall k :: i <= k < |games| ==> games[k] == old(games)[k]
      {
        games := games[i := games[i].(rows := StampRows(pairs, games[i].id, games[i].rows))];
        i := i + 1;
      }
    }

    // ----- Storing and finishing games -----

    method UpsertRows(rows: seq<Row>, people: seq<Person>) returns (result: seq<Row>)
      ensures result == UpsertTo(rows, people, |people|)
    {
      result := rows;
      var n := 0;
      while n < |people|
        invariant 0 <= n <= |people|
        invariant result == UpsertTo(rows, people, n)
      {
        result := UpsertRow(result, people[n]);
        n := n + 1;
      }
    }

    // Stores a game in the slot of its room and returns its id.
    method Store(room: string, status: Status, flags: map<string, bool>, people: seq<Person>, hasBots: bool, now: int)
      returns (id: nat)
      modifies this`games, this`nextId
      ensures id == SlotGame(old(Contents()), room).id
      ensures Contents() == PutGame(old(Contents()), room,
                                    Stored(old(Contents()), room, status, flags, people, hasBots, now))
    {
      var existing := FindActive(games, room, 0);
      if existing.Some? {
        var g := games[existing.value];
        id := g.id;
        var rows := UpsertRows(g.rows, people);
        games := games[existing.value := GameRow(id, room, status, now, hasBots, flags, rows)];
      } else {
        id := nextId;
        var rows := UpsertRows([], people);
        games := games + [GameRow(id, room, status, now, hasBots, flags, rows)];
        nextId := nextId + 1;
      }
    }

    method SaveGame(room: string, flags: map<string, bool>, people: seq<Person>, hasBots: bool, now: int)
      returns (id: nat)
      modifies this`games, this`nextId
      ensures Contents() == Ratings.SaveGame(old(Contents()), room, flags, people, hasBots, now)
      ensures id == SlotGame(old(Contents()), room).id
    {
      id := Store(room, Active, flags, people, hasBots, now);
    }

    method ApplyRatings(id: nat, people: seq<Person>)
      modifies this`users, this`games
      ensures Contents() == Ratings.ApplyRatings(expected, old(Contents()), id, people)
    {
      var ranked := RankPeople(users, Registered(people));
      RankedFacts(users, Registered(people), |people|);
      var b := RateAll(expected, Book(users, map[]), id, ranked);
      users := b.users;
      MarkAll(b.pairs, id);
    }

    method MarkAll(pairs: Pairs, id: nat)
      modifies this`games
      ensures games == MarkGames(pairs, id, old(games))
    {
      var i := 0;
      while i < |games|
        invariant 0 <= i <= |games| == |old(games)|
        invariant forall k :: 0 <= k < i ==> games[k] == MarkGames(pairs, id, old(games))[k]
        invariant forall k :: i <= k < |games| ==> games[k] == old(games)[k]
      {
        if games[i].id == id {
          games := games[i := games[i].(rows := MarkRows(pairs, id, games[i].rows))];
        }
        i := i + 1;
      }
    }

    method FinishGame(room: string, flags: map<string, bool>, people: seq<Person>, hasBots: bool, now: int)
      returns (id: nat)
      modifies this`users, this`games, this`nextId
      ensures Contents() == Ratings.FinishGame(expected, old(Contents()), room, flags, people, hasBots, now)
      ensures id == SlotGame(old(Contents()), room).id
    {
      id := Store(room, Finished, flags, people, hasBots, now);
      if !hasBots {
        ApplyRatings(id, people);
      }
    }

    // ----- Administration -----

    method SetRating(uid: int, rating: int, now: int) returns (error: Option<Refusal>)
      modifies this`users, this`adjustments
      ensures Follows(Ratings.SetRating(old(Contents()), uid, rating, now), old(Contents()), Contents(), error)
    {
      if !(MIN_RATING <= rating <= MAX_RATING) { return Some(OutOfRange); }
      if uid !in users { return Some(NotFound); }
      var current := users[uid].rating;
      if current == rating { return Some(Unchanged); }
      users := users[uid := users[uid].(rating := rating)];
      adjustments := adjustments + [Adjustment(|adjustments|, uid, current, rating, now)];
      return None;
    }

    method ChangeStatus(id: nat, from: Status, to: Status) returns (error: Option<Refusal>)
      modifies this`users, this`games
      ensures Follows(Ratings.ChangeStatus(expected, old(Contents()), id, from, to), old(Contents()), Contents(), error)
    {
      var i := FindGame(games, id, 0);
      if i.None? { return Some(NotFound); }
      if games[i.value].status != from { return Some(WrongStatus); }
      games := games[i.value := games[i.value].(status := to)];
      RecomputeRatings();
      return None;
    }

    method VoidGame(id: nat) returns (error: Option<Refusal>)
      modifies this`users, this`games
      ensures Follows(Ratings.VoidGame(expected, old(Contents()), id), old(Contents()), Contents(), error)
    {
      error := ChangeStatus(id, Finished, Voided);
    }

    method UnvoidGame(id: nat) returns (error: Option<Refusal>)
      modifies this`users, this`games
      ensures Follows(Ratings.UnvoidGame(expected, old(Contents()), id), old(Contents()), Contents(), error)
    {
      error := ChangeStatus(id, Voided, Finished);
    }

    method DeleteGame(id: nat, confirm: bool, live: set<nat>) returns (error: Option<Refusal>)
      modifies this`users, this`games
      ensures Follows(Ratings.DeleteGame(expected, old(Contents()), id, confirm, live), old(Contents()), Contents(),
                      error)
    {
      var i := FindGame(games, id, 0);
      if i.None? { return Some(NotFound); }
      if id in live { return Some(GameIsLive); }
      var status := games[i.value].status;
      if status == Finished && !confirm { return Some(NeedsConfirmation); }
      games := games[..i.value] + games[i.value + 1..];
      if status == Finished || status == Voided {
        RecomputeRatings();
      }
      return None;
    }
  }

  // What a caller sees of an operation that may be refused.
  ghost predicate Follows(outcome: Outcome, before: Tables, after: Tables, error: Option<Refusal>) {
    match outcome
    case Ok(next) => after == next && error.None?
    case Err(refusal) => after == before && error == Some(refusal)
  }
}
