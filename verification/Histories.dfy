/**
 What the tables say about the ratings, told from the tables alone: which games and adjustments the history lists,
 who of a game is ranked, and that a game that is voided counts as little as one that was deleted.
 */
module Histories {
  import opened Results
  import opened Orders
  import opened Elo
  import opened Ratings
  import opened RatingOrder
  import opened Rosters
  import opened RatingLaws
  import opened RatingRuns

  // ----- What the history lists -----

  // Finished, and no bot played.
  ghost predicate Rateable(g: GameRow) {
    g.status == Finished && g.hasBots == false
  }

  // The person of a row: name, user and score as stored, resigned as the state of the game says.
  ghost predicate StoredAs(p: Person, g: GameRow, row: Row) {
    && p.name == row.name && p.uid == row.uid && p.score == row.score
    && (p.resigned <==> row.name in g.flags && g.flags[row.name])
  }

  ghost predicate Tells(e: Event, g: GameRow)
    requires e.Played?
  {
    && e.time == g.time && e.id == g.id && |e.people| == |g.rows|
    && forall k :: 0 <= k < |g.rows| ==> StoredAs(e.people[k], g, g.rows[k])
  }

  lemma TellsEvent(e: Event, g: GameRow)
    requires e.Played?
    ensures Tells(e, g) <==> e == GameEvent(g)
  {
    if Tells(e, g) {
      forall k | 0 <= k < |g.rows| ensures e.people[k] == PeopleOf(g.rows, g.flags)[k] {
        assert StoredAs(e.people[k], g, g.rows[k]);
      }
      assert e.people == PeopleOf(g.rows, g.flags);
    }
  }

  /** A game is listed exactly when it is stored, finished and played without bots, with its rows as they are. */
  lemma GamesListed(t: Tables, e: Event)
    requires e.Played?
    ensures e in TimelineOf(t) <==>
              exists i :: 0 <= i < |t.games| && Rateable(t.games[i]) && Tells(e, t.games[i])
  {
    SortedIn(EventsOf(t), e);
    GameEventsIn(t.games, e);
    forall i | 0 <= i < |t.games| ensures Tells(e, t.games[i]) <==> e == GameEvent(t.games[i]) {
      TellsEvent(e, t.games[i]);
    }
    hide TimelineOf, GameEvents, Tells, GameEvent;
    assert e !in AdjustmentEvents(t.adjustments);
  }

  lemma AdjustmentEventsIn(adjustments: seq<Adjustment>, e: Event)
    requires e.Adjusted?
    ensures e in AdjustmentEvents(adjustments) <==>
              exists i :: 0 <= i < |adjustments| && MadeBy(e, adjustments[i])
  {
    var events := AdjustmentEvents(adjustments);
    forall i | 0 <= i < |adjustments| ensures MadeBy(e, adjustments[i]) <==> events[i] == e {
    }
  }

  /** Every adjustment is listed, with the difference it made. */
  lemma AdjustmentsListed(t: Tables, e: Event)
    requires e.Adjusted?
    ensures e in TimelineOf(t) <==>
              exists i :: 0 <= i < |t.adjustments| && MadeBy(e, t.adjustments[i])
  {
    SortedIn(EventsOf(t), e);
    GameEventsIn(t.games, e);
    AdjustmentEventsIn(t.adjustments, e);
    assert e !in GameEvents(t.games);
    hide GameEvents, AdjustmentEvents, MadeBy;
  }

  ghost predicate MadeBy(e: Event, a: Adjustment)
    requires e.Adjusted?
  {
    e.time == a.time && e.id == a.id && e.uid == a.uid && a.before + e.delta == a.after
  }

  // By time, at the same time games before adjustments, and then by id.
  ghost predicate NotAfter(a: Event, b: Event) {
    || a.time < b.time
    || (a.time == b.time && a.Played? && b.Adjusted?)
    || (a.time == b.time && (a.Played? <==> b.Played?) && a.id <= b.id)
  }

  /** The history is in order. */
  lemma HistoryInOrder(t: Tables, i: nat, j: nat)
    requires i < j < |TimelineOf(t)|
    ensures NotAfter(TimelineOf(t)[i], TimelineOf(t)[j])
  {
    SortIsChronological(EventsOf(t));
  }

  // ----- What does not count -----

  /** A game that is not finished, or that bots played in, could as well not be there. */
  lemma UncountedCanGo(expected: Expected, t: Tables, i: nat)
    requires i < |t.games| && !Rateable(t.games[i])
    ensures Computed(expected, Without(t, i)) == Computed(expected, t)
  {
    EventsWithout(t, i);
  }

  // Nobody has a rating out of this game.
  ghost predicate WithoutNotes(rows: seq<Row>, noted: seq<Row>) {
    |rows| == |noted| && forall k :: 0 <= k < |noted| ==> noted[k] == rows[k].(rated := None)
  }

  lemma UnratedRows(expected: Expected, t: Tables, i: nat)
    requires Sound(t) && i < |t.games| && !Rateable(t.games[i])
    ensures WithoutNotes(t.games[i].rows, Recomputed(expected, t).games[i].rows)
  {
    forall key: (nat, int) | key.0 == t.games[i].id ensures key !in Computed(expected, t).pairs {
      UncountedUnrated(expected, t, t.games[i].id, key);
    }
  }

  lemma StampedWithout(pairs: Pairs, games: seq<GameRow>, i: nat)
    requires i < |games|
    ensures StampGames(pairs, games[..i] + games[i + 1..])
            == StampGames(pairs, games)[..i] + StampGames(pairs, games)[i + 1..]
  {
  }

  /**
   A voided game counts as little as one that was deleted: all ratings, and what is noted with every other game, are
   those after deleting it, and nobody has a rating out of it.
   */
  lemma VoidedLikeDeleted(expected: Expected, t: Tables, id: nat) returns (i: nat)
    requires Sound(t) && VoidGame(expected, t, id).Ok?
    ensures i < |t.games| && t.games[i].id == id && t.games[i].status == Finished
    ensures var v := VoidGame(expected, t, id).value;
            && i < |v.games|
            && DeleteGame(expected, t, id, true, {}) == Ok(Without(v, i))
            && v.games[i].(rows := []) == t.games[i].(rows := [], status := Voided)
            && WithoutNotes(t.games[i].rows, v.games[i].rows)
  {
    i := FindGame(t.games, id, 0).value;
    var voided := WithStatus(t, i, Voided);
    UncountedCanGo(expected, voided, i);
    assert Without(voided, i) == Without(t, i);
    StampedWithout(Computed(expected, voided).pairs, voided.games, i);
    UnratedRows(expected, voided, i);
  }

  /** With no game that counts and no adjustment everybody is a newcomer. */
  lemma WithoutHistory(expected: Expected, t: Tables, uid: int)
    requires uid in t.users && t.adjustments == [] && forall i :: 0 <= i < |t.games| ==> !Rateable(t.games[i])
    ensures uid in Recomputed(expected, t).users && Recomputed(expected, t).users[uid] == Standing(1200, 0)
  {
    if TimelineOf(t) != [] {
      var e := TimelineOf(t)[0];
      if e.Played? {
        GamesListed(t, e);
      } else {
        AdjustmentsListed(t, e);
      }
      assert false;
    }
  }

  // ----- Who is ranked -----

  // The first of the people who is this user.
  ghost predicate FirstAs(people: seq<Person>, uid: int, k: nat) {
    k < |people| && people[k].uid == Some(uid) && forall j :: 0 <= j < k ==> people[j].uid != Some(uid)
  }

  // The entry of a person: with the present standing; who resigned comes behind everybody.
  ghost predicate EnteredAs(users: map<int, Standing>, p: Person, a: Entry) {
    && a.uid in users && a.rating == users[a.uid].rating && a.games == users[a.uid].games
    && (if p.resigned then a.score == -1_000_000_000 else a.score == p.score)
  }

  ghost predicate RankedBy(users: map<int, Standing>, people: seq<Person>, n: nat, a: Entry) {
    exists k :: 0 <= k < n && FirstAs(people, a.uid, k) && EnteredAs(users, people[k], a)
  }

  lemma {:induction false} RanksUsers(users: map<int, Standing>, people: seq<Person>, n: nat, uid: int)
    requires n <= |people|
    ensures Ranks(RankedTo(users, people, n), uid)
            <==> uid in users && exists k :: 0 <= k < n && people[k].uid == Some(uid)
  {
    if n > 0 {
      RanksUsers(users, people, n - 1, uid);
      var before := RankedTo(users, people, n - 1);
      if Ranks(before, uid) {
        var i :| 0 <= i < |before| && before[i].uid == uid;
        assert RankedTo(users, people, n)[i].uid == uid;
      } else if people[n - 1].uid == Some(uid) && uid in users {
        assert RankedTo(users, people, n)[|before|].uid == uid;
      }
    }
  }

  lemma RankedBySnoc(users: map<int, Standing>, people: seq<Person>, n: nat, a: Entry)
    requires 0 < n <= |people|
    ensures RankedBy(users, people, n, a)
            <==> RankedBy(users, people, n - 1, a)
                 || (FirstAs(people, a.uid, n - 1) && EnteredAs(users, people[n - 1], a))
  {
    hide FirstAs, EnteredAs;
  }

  lemma EnteredIs(users: map<int, Standing>, p: Person, a: Entry)
    requires p.uid == Some(a.uid)
    ensures EnteredAs(users, p, a) <==> IsRanked(users, p) && a == RankedEntry(users, p)
  {
  }

  lemma LastRanked(users: map<int, Standing>, people: seq<Person>, n: nat, a: Entry)
    requires 0 < n <= |people|
    ensures a in RankedTo(users, people, n)
            <==> a in RankedTo(users, people, n - 1)
                 || (FirstAs(people, a.uid, n - 1) && EnteredAs(users, people[n - 1], a))
  {
    var p := people[n - 1];
    if p.uid == Some(a.uid) {
      RanksUsers(users, people, n - 1, a.uid);
      EnteredIs(users, p, a);
      hide EnteredAs, Ranks;
    } else {
      hide EnteredAs, Ranks;
    }
  }

  lemma {:induction false} RankedToIs(users: map<int, Standing>, people: seq<Person>, n: nat, a: Entry)
    requires n <= |people|
    ensures a in RankedTo(users, people, n) <==> RankedBy(users, people, n, a)
  {
    if n > 0 {
      RankedToIs(users, people, n - 1, a);
      LastRanked(users, people, n, a);
      RankedBySnoc(users, people, n, a);
      hide RankedBy, RankedTo;
    }
  }

  /**
   Ranked are the registered users among the people, each once and as first listed, with the standing of the moment.
   */
  lemma RankedAreUsers(users: map<int, Standing>, people: seq<Person>, a: Entry)
    ensures a in Ranked(users, people) <==> RankedBy(users, people, |people|, a)
    ensures DistinctUsers(Ranked(users, people))
  {
    RankedToIs(users, people, |people|, a);
    RankedFacts(users, people, |people|);
  }

  // The id 0 that a guest plays under is nobody's.
  lemma FirstRegistered(people: seq<Person>, uid: int, k: nat)
    ensures FirstAs(Registered(people), uid, k) <==> uid != 0 && FirstAs(people, uid, k)
  {
    forall j | 0 <= j < |people|
      ensures Registered(people)[j].uid == Some(uid) <==> uid != 0 && people[j].uid == Some(uid)
    {
    }
  }

  /** At the end of a game the same are ranked, without guests, who play under the id 0. */
  lemma GuestsUnranked(users: map<int, Standing>, people: seq<Person>, a: Entry)
    ensures a in Ranked(users, Registered(people)) <==> a.uid != 0 && a in Ranked(users, people)
  {
    RankedAreUsers(users, people, a);
    RankedAreUsers(users, Registered(people), a);
    forall k: nat ensures FirstAs(Registered(people), a.uid, k) <==> a.uid != 0 && FirstAs(people, a.uid, k) {
      FirstRegistered(people, a.uid, k);
    }
    hide FirstAs, Ranked, DistinctUsers;
  }

  // ----- What the administration may do -----

  // The game with this id, whose status is one of these.
  ghost predicate Has(t: Tables, id: nat, statuses: set<Status>) {
    exists i :: 0 <= i < |t.games| && t.games[i].id == id && t.games[i].status in statuses
  }

  lemma FoundIs(t: Tables, id: nat, status: Status)
    requires Sound(t)
    ensures var i := FindGame(t.games, id, 0);
            Has(t, id, {status}) <==> i.Some? && t.games[i.value].status == status
  {
    var i := FindGame(t.games, id, 0);
    if j :| 0 <= j < |t.games| && t.games[j].id == id && t.games[j].status in {status} {
      assert i.Some? && i.value == j;
    }
    if i.Some? && t.games[i.value].status == status {
      assert t.games[i.value].status in {status};
    }
  }

  /**
   Exactly finished games can be voided and exactly voided ones restored; a game can be deleted unless it is being
   played, a finished one only when that is confirmed.
   */
  lemma StatusChangesIff(expected: Expected, t: Tables, id: nat, confirm: bool, live: set<nat>)
    requires Sound(t)
    ensures VoidGame(expected, t, id).Ok? <==> Has(t, id, {Finished})
    ensures UnvoidGame(expected, t, id).Ok? <==> Has(t, id, {Voided})
    ensures DeleteGame(expected, t, id, confirm, live).Ok?
            <==> id !in live && (Has(t, id, {Active}) || Has(t, id, {Voided}) || (confirm && Has(t, id, {Finished})))
  {
    FoundIs(t, id, Active);
    FoundIs(t, id, Finished);
    FoundIs(t, id, Voided);
    hide Has, Sound, Recomputed, Without, WithStatus;
  }

  /** A rating can be set for a user, between 100 and 4000, to another value; that and the record of it is all. */
  lemma SettingIff(t: Tables, uid: int, rating: int, now: int)
    ensures SetRating(t, uid, rating, now).Ok?
            <==> 100 <= rating <= 4000 && uid in t.users && t.users[uid].rating != rating
    ensures SetRating(t, uid, rating, now).Ok? ==>
              var u := SetRating(t, uid, rating, now).value;
              && u.games == t.games && u.nextId == t.nextId && u.users.Keys == t.users.Keys
              && u.users[uid] == Standing(rating, t.users[uid].games)
              && (forall other :: other in t.users && other != uid ==> u.users[other] == t.users[other])
              && |u.adjustments| == |t.adjustments| + 1 && u.adjustments[..|t.adjustments|] == t.adjustments
              && var a := u.adjustments[|t.adjustments|];
                 a.uid == uid && a.before == t.users[uid].rating && a.after == rating && a.time == now
  {
  }

  // ----- Storing games -----

  // The first active game of the room, or the place behind all games when the room has none.
  ghost predicate PlaceOfRoom(t: Tables, room: string, i: nat) {
    && i <= |t.games|
    && (forall j :: 0 <= j < i ==> !(t.games[j].room == room && t.games[j].status == Active))
    && (i < |t.games| ==> t.games[i].room == room && t.games[i].status == Active)
  }

  // The row of a name: with the data of the person of that name, who keeps a known user id, or as it was.
  function RowThen(name: string, person: Option<Person>, before: Option<Row>): Option<Row> {
    match (person, before)
    case (None, row) => row
    case (Some(p), None) => Some(Row(name, p.uid, p.score, None))
    case (Some(p), Some(row)) => Some(Row(name, if p.uid.Some? then p.uid else row.uid, p.score, row.rated))
  }

  ghost predicate RowsEntered(before: seq<Row>, people: seq<Person>, after: seq<Row>) {
    forall name :: RowOf(after, name) == RowThen(name, PersonTo(people, |people|, name), RowOf(before, name))
  }

  lemma EntersRows(before: seq<Row>, people: seq<Person>)
    requires DistinctRows(before) && DistinctNames(people)
    ensures RowsEntered(before, people, UpsertTo(before, people, |people|))
  {
    var after := UpsertTo(before, people, |people|);
    forall name ensures RowOf(after, name) == RowThen(name, PersonTo(people, |people|, name), RowOf(before, name)) {
      UpsertAllIs(before, people, |people|, name);
    }
  }

  // Game i of the room is stored with these data, and all else is as it was.
  ghost predicate StoredAt(t: Tables, u: Tables, i: nat, room: string, status: Status, flags: map<string, bool>,
                           people: seq<Person>, hasBots: bool, now: int)
  {
    && i <= |t.games| && |u.games| == (if i < |t.games| then |t.games| else |t.games| + 1)
    && u.users == t.users && u.adjustments == t.adjustments
    && u.nextId == (if i < |t.games| then t.nextId else t.nextId + 1)
    && (forall j :: 0 <= j < |t.games| && j != i ==> u.games[j] == t.games[j])
    && var g := u.games[i];
       && g.id == (if i < |t.games| then t.games[i].id else t.nextId)
       && g.room == room && g.status == status && g.time == now && g.flags == flags && g.hasBots == hasBots
       && RowsEntered(if i < |t.games| then t.games[i].rows else [], people, g.rows)
  }

  lemma {:induction false} NoneBefore(games: seq<GameRow>, room: string, from: nat, j: nat)
    requires from <= j < |games| && (var i := FindActive(games, room, from); i.Some? ==> j < i.value)
    ensures !(games[j].room == room && games[j].status == Active)
    decreases |games| - from
  {
    if from < j {
      NoneBefore(games, room, from + 1, j);
    }
  }

  lemma PutStores(t: Tables, room: string, status: Status, flags: map<string, bool>, people: seq<Person>,
                  hasBots: bool, now: int)
    returns (i: nat)
    requires Sound(t) && DistinctNames(people)
    ensures PlaceOfRoom(t, room, i)
    ensures StoredAt(t, PutGame(t, room, Stored(t, room, status, flags, people, hasBots, now)), i, room, status, flags,
                     people, hasBots, now)
  {
    i := Slot(t, room);
    forall j | 0 <= j < i ensures !(t.games[j].room == room && t.games[j].status == Active) {
      NoneBefore(t.games, room, 0, j);
    }
    EntersRows(SlotGame(t, room).rows, people);
    hide RowsEntered, UpsertTo;
  }

  /** Saving a game stores it as active in the place of its room, and changes nothing else. */
  lemma SavingStores(t: Tables, room: string, flags: map<string, bool>, people: seq<Person>, hasBots: bool, now: int)
    returns (i: nat)
    requires Sound(t) && DistinctNames(people)
    ensures PlaceOfRoom(t, room, i)
    ensures StoredAt(t, SaveGame(t, room, flags, people, hasBots, now), i, room, Active, flags, people, hasBots, now)
  {
    i := PutStores(t, room, Active, flags, people, hasBots, now);
  }

  /** Finishing a game stores it as finished in the place of its room, and beyond that changes ratings only. */
  lemma FinishingStores(expected: Expected, t: Tables, room: string, flags: map<string, bool>, people: seq<Person>,
                        hasBots: bool, now: int)
    returns (i: nat, stored: Tables)
    requires Sound(t) && DistinctNames(people)
    ensures PlaceOfRoom(t, room, i)
    ensures StoredAt(t, stored, i, room, Finished, flags, people, hasBots, now)
    ensures SameHistory(FinishGame(expected, t, room, flags, people, hasBots, now), stored)
    ensures hasBots ==> FinishGame(expected, t, room, flags, people, hasBots, now) == stored
  {
    i := PutStores(t, room, Finished, flags, people, hasBots, now);
    var g := Stored(t, room, Finished, flags, people, hasBots, now);
    stored := PutGame(t, room, g);
    hide StoredAt, Stored, PutGame, PlaceOfRoom;
    if !hasBots {
      ApplySameHistory(expected, stored, g.id, people);
    }
  }
}
