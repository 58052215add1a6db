/** Any sequence of operations on the rating tables: the cache stays right, and a voided game can be restored. */
module RatingRuns {
  import opened Results
  import opened Elo
  import opened Ratings
  import opened RatingOrder
  import opened Rosters
  import opened RatingLaws
  import opened Timelines
  import opened LateGames
  import opened SameTime
  import opened LateAdjustments

  // ----- Removing a game that has not been finished -----

  lemma EventsWithout(t: Tables, i: nat)
    requires i < |t.games| && !Counts(t.games[i])
    ensures EventsOf(Without(t, i)) == EventsOf(t)
  {
    EventsAround(t.games, i, t.games[i]);
    GameEventsConcat(t.games[..i], t.games[i + 1..]);
  }

  lemma RemainingStamped(expected: Expected, t: Tables, i: nat, j: nat)
    requires Consistent(expected, t) && i < |t.games| && j < |Without(t, i).games|
    ensures StampGames(Computed(expected, t).pairs, Without(t, i).games)[j] == Without(t, i).games[j]
  {
    StampIs(expected, t, if j < i then j else j + 1);
  }

  lemma RemovalKeepsConsistent(expected: Expected, t: Tables, i: nat)
    requires Consistent(expected, t) && i < |t.games| && !Counts(t.games[i])
    ensures Consistent(expected, Without(t, i))
  {
    var u := Without(t, i);
    EventsWithout(t, i);
    var b := Computed(expected, t);
    forall j | 0 <= j < |u.games| ensures StampGames(b.pairs, u.games)[j] == u.games[j] {
      RemainingStamped(expected, t, i, j);
    }
    assert StampGames(b.pairs, u.games) == u.games;
    assert b.users == t.users;
  }

  // ----- New users -----

  // A user id nobody has played or been adjusted under.
  ghost predicate Stranger(t: Tables, uid: int) {
    && uid != 0 && uid !in t.users
    && (forall i, j :: 0 <= i < |t.games| && 0 <= j < |t.games[i].rows| ==> t.games[i].rows[j].uid != Some(uid))
    && (forall i :: 0 <= i < |t.adjustments| ==> t.adjustments[i].uid != uid)
  }

  function Register(t: Tables, uid: int): Tables {
    t.(users := t.users[uid := Standing(INITIAL_RATING, 0)])
  }

  ghost predicate Mentions(e: Event, uid: int) {
    match e
    case Played(_, _, people) => exists i :: 0 <= i < |people| && people[i].uid == Some(uid)
    case Adjusted(_, _, u, _) => u == uid
  }

  lemma {:induction false} RankedWithStranger(users: map<int, Standing>, people: seq<Person>, n: nat, uid: int,
                                              s: Standing)
    requires n <= |people| && forall i :: 0 <= i < n ==> people[i].uid != Some(uid)
    ensures RankedTo(users[uid := s], people, n) == RankedTo(users, people, n)
    ensures !Ranks(RankedTo(users, people, n), uid)
  {
    if n > 0 {
      RankedWithStranger(users, people, n - 1, uid, s);
    }
  }

  lemma {:induction false} RatedWithStranger(expected: Expected, users: map<int, Standing>, ranked: seq<Entry>, n: nat,
                                             uid: int, s: Standing)
    requires n <= |ranked| && !Ranks(ranked, uid)
    ensures RatedTo(expected, users[uid := s], ranked, n) == RatedTo(expected, users, ranked, n)[uid := s]
  {
    if n > 0 {
      RatedWithStranger(expected, users, ranked, n - 1, uid, s);
      var before := RatedTo(expected, users, ranked, n - 1);
      var a := ranked[n - 1];
      assert a.uid != uid;
      assert before[uid := s][a.uid := Standing(a.rating + Change(expected, ranked, a), a.games + 1)]
          == before[a.uid := Standing(a.rating + Change(expected, ranked, a), a.games + 1)][uid := s];
    }
  }

  // The book with one more user.
  function Joined(b: Book, uid: int, s: Standing): Book {
    b.(users := b.users[uid := s])
  }

  lemma StepWithStranger(expected: Expected, b: Book, e: Event, uid: int, s: Standing)
    requires !Mentions(e, uid)
    ensures Step(expected, Joined(b, uid, s), e) == Joined(Step(expected, b, e), uid, s)
  {
    match e
    case Played(_, _, people) =>
      RankedWithStranger(b.users, people, |people|, uid, s);
      var ranked := Ranked(b.users, people);
      RatedWithStranger(expected, b.users, ranked, |ranked|, uid, s);
    case Adjusted(_, _, u, delta) =>
      if u in b.users {
        var moved := b.users[u].(rating := b.users[u].rating + delta);
        assert b.users[uid := s][u := moved] == b.users[u := moved][uid := s];
      }
  }

  lemma {:induction false} ReplayWithStranger(expected: Expected, b: Book, events: seq<Event>, uid: int, s: Standing)
    requires forall e :: e in events ==> !Mentions(e, uid)
    ensures Replay(expected, Joined(b, uid, s), events) == Joined(Replay(expected, b, events), uid, s)
  {
    if events != [] {
      var front, last := events[..|events| - 1], events[|events| - 1];
      assert last in events && forall e :: e in front ==> e in events;
      ReplayWithStranger(expected, b, front, uid, s);
      StepWithStranger(expected, Replay(expected, b, front), last, uid, s);
    }
  }

  lemma StrangerUnmentioned(t: Tables, uid: int, e: Event)
    requires Stranger(t, uid) && e in TimelineOf(t)
    ensures !Mentions(e, uid)
  {
    SortedIn(EventsOf(t), e);
    if e in GameEvents(t.games) {
      GameEventsIn(t.games, e);
      var i :| 0 <= i < |t.games| && Counts(t.games[i]) && e == GameEvent(t.games[i]);
      forall j | 0 <= j < |e.people| ensures e.people[j].uid != Some(uid) {
        assert e.people[j].uid == t.games[i].rows[j].uid;
      }
    }
  }

  /** A new user starts where the replay starts everybody. */
  lemma RegisterKeepsConsistent(expected: Expected, t: Tables, uid: int)
    requires Consistent(expected, t) && Stranger(t, uid)
    ensures Consistent(expected, Register(t, uid))
  {
    var u, s := Register(t, uid), Standing(INITIAL_RATING, 0);
    forall e | e in TimelineOf(t) ensures !Mentions(e, uid) {
      StrangerUnmentioned(t, uid, e);
    }
    assert Newcomers(u.users) == Newcomers(t.users)[uid := s];
    ReplayWithStranger(expected, Book(Newcomers(t.users), map[]), TimelineOf(t), uid, s);
    assert Computed(expected, t).users == t.users;
    SamePairsConsistent(expected, t, u);
  }

  // ----- Sequences of operations -----

  datatype Op =
    | Registers(uid: int)
    | Saves(room: string, flags: map<string, bool>, people: seq<Person>, hasBots: bool, now: int)
    | Finishes(room: string, flags: map<string, bool>, people: seq<Person>, hasBots: bool, now: int)
    | Sets(uid: int, rating: int, now: int)
    | Voids(id: nat)
    | Unvoids(id: nat)
    | Deletes(id: nat, confirm: bool, live: set<nat>)

  function OrSame(outcome: Outcome, t: Tables): Tables {
    match outcome
    case Ok(u) => u
    case Err(_) => t
  }

  function Perform(expected: Expected, t: Tables, op: Op): Tables {
    match op
    case Registers(uid) => Register(t, uid)
    case Saves(room, flags, people, hasBots, now) => SaveGame(t, room, flags, people, hasBots, now)
    case Finishes(room, flags, people, hasBots, now) => FinishGame(expected, t, room, flags, people, hasBots, now)
    case Sets(uid, rating, now) => OrSame(SetRating(t, uid, rating, now), t)
    case Voids(id) => OrSame(VoidGame(expected, t, id), t)
    case Unvoids(id) => OrSame(UnvoidGame(expected, t, id), t)
    case Deletes(id, confirm, live) => OrSame(DeleteGame(expected, t, id, confirm, live), t)
  }

  // A user id is new, and a roster is that of the stored game.
  ghost predicate Proper(t: Tables, op: Op) {
    match op
    case Registers(uid) => Stranger(t, uid)
    case Finishes(room, flags, people, hasBots, _) => hasBots || Matching(SlotGame(t, room).rows, people, flags)
    case _ => true
  }

  // What stands behind the operation's event in the history does not depend on it.
  ghost predicate Undisturbed(expected: Expected, t: Tables, op: Op) {
    match op
    case Finishes(room, _, people, hasBots, now) =>
      hasBots || HarmlessNow(expected, t, SlotGame(t, room).id, people, now)
    case Sets(uid, rating, now) => SetRating(t, uid, rating, now).Err? || !RatedSince(t, uid, now)
    case _ => true
  }

  ghost predicate AllFit(expected: Expected, t: Tables, ops: seq<Op>)
    decreases |ops|
  {
    ops == [] || (Proper(t, ops[0]) && Undisturbed(expected, t, ops[0])
                  && AllFit(expected, Perform(expected, t, ops[0]), ops[1..]))
  }

  function PerformAll(expected: Expected, t: Tables, ops: seq<Op>): Tables
    decreases |ops|
  {
    if ops == [] then t else PerformAll(expected, Perform(expected, t, ops[0]), ops[1..])
  }

  lemma PutKeepsSound(t: Tables, room: string, g: GameRow)
    requires Sound(t) && g.id == SlotGame(t, room).id && DistinctRows(g.rows)
    ensures Sound(PutGame(t, room, g))
  {
  }

  lemma StoredDistinct(t: Tables, room: string, people: seq<Person>)
    requires Sound(t)
    ensures DistinctRows(UpsertTo(SlotGame(t, room).rows, people, |people|))
  {
    SlotDistinct(t, room);
    UpsertDistinct(SlotGame(t, room).rows, people, |people|);
  }

  lemma HistorySound(t: Tables, u: Tables)
    requires SameHistory(t, u) && Sound(u)
    ensures Sound(t)
  {
    forall i | 0 <= i < |t.games| ensures t.games[i].id == u.games[i].id && DistinctRows(t.games[i].rows) {
      assert SameGame(t.games[i], u.games[i]);
      assert t.games[i].(rows := []).id == u.games[i].(rows := []).id;
      forall k | 0 <= k < |t.games[i].rows| ensures t.games[i].rows[k].name == u.games[i].rows[k].name {
        assert t.games[i].rows[k].(rated := None).name == u.games[i].rows[k].(rated := None).name;
      }
    }
  }

  lemma RecomputedSound(expected: Expected, t: Tables)
    requires Sound(t)
    ensures Sound(Recomputed(expected, t))
  {
    RecomputedSameHistory(expected, t);
    HistorySound(Recomputed(expected, t), t);
  }

  lemma PerformKeepsSound(expected: Expected, t: Tables, op: Op)
    requires Sound(t) && Proper(t, op)
    ensures Sound(Perform(expected, t, op))
  {
    match op
    case Registers(uid) =>
    case Saves(room, flags, people, hasBots, now) =>
      StoredDistinct(t, room, people);
      PutKeepsSound(t, room, Stored(t, room, Active, flags, people, hasBots, now));
    case Finishes(room, flags, people, hasBots, now) =>
      var g := Stored(t, room, Finished, flags, people, hasBots, now);
      StoredDistinct(t, room, people);
      PutKeepsSound(t, room, g);
      ApplySameHistory(expected, PutGame(t, room, g), g.id, people);
      HistorySound(ApplyRatings(expected, PutGame(t, room, g), g.id, people), PutGame(t, room, g));
    case Sets(uid, rating, now) =>
    case Voids(id) => StatusKeepsSound(expected, t, id, Finished, Voided);
    case Unvoids(id) => StatusKeepsSound(expected, t, id, Voided, Finished);
    case Deletes(id, confirm, live) => DeleteKeepsSound(expected, t, id, confirm, live);
  }

  lemma WithoutSound(t: Tables, i: nat)
    requires Sound(t) && i < |t.games|
    ensures Sound(Without(t, i))
  {
  }

  lemma DeleteKeepsSound(expected: Expected, t: Tables, id: nat, confirm: bool, live: set<nat>)
    requires Sound(t)
    ensures Sound(OrSame(DeleteGame(expected, t, id, confirm, live), t))
  {
    var i := FindGame(t.games, id, 0);
    if i.Some? {
      WithoutSound(t, i.value);
      hide Sound, Recomputed, Without;
      RecomputedSound(expected, Without(t, i.value));
    }
  }

  lemma StatusKeepsSound(expected: Expected, t: Tables, id: nat, from: Status, to: Status)
    requires Sound(t)
    ensures Sound(OrSame(ChangeStatus(expected, t, id, from, to), t))
  {
    var i := FindGame(t.games, id, 0);
    if i.Some? {
      RecomputedSound(expected, WithStatus(t, i.value, to));
    }
  }

  lemma StoredKeepsConsistent(expected: Expected, t: Tables, room: string, g: GameRow, people: seq<Person>)
    requires Consistent(expected, t) && Sound(t) && !Counts(g) && g.id == SlotGame(t, room).id
    requires g.rows == UpsertTo(SlotGame(t, room).rows, people, |people|)
    ensures Consistent(expected, PutGame(t, room, g))
  {
    SlotUnrated(expected, t, room);
    UpsertUnrated(SlotGame(t, room).rows, people, |people|);
    StoreKeepsConsistent(expected, t, room, g);
  }

  lemma RatingOpIff(expected: Expected, t: Tables, op: Op)
    requires Consistent(expected, t) && Sound(t) && Proper(t, op) && (op.Finishes? || op.Sets?)
    ensures Consistent(expected, Perform(expected, t, op)) <==> Undisturbed(expected, t, op)
  {
    match op
    case Finishes(room, flags, people, hasBots, now) =>
      if hasBots {
        StoredKeepsConsistent(expected, t, room, Stored(t, room, Finished, flags, people, hasBots, now), people);
      } else {
        FinishAnywhereIff(expected, t, room, flags, people, now);
      }
    case Sets(uid, rating, now) =>
      if SetRating(t, uid, rating, now).Ok? {
        SetRatingIff(expected, t, uid, rating, now);
      }
  }

  /** An operation leaves the cache right exactly when nothing behind its event depends on it. */
  lemma PerformIff(expected: Expected, t: Tables, op: Op)
    requires Consistent(expected, t) && Sound(t) && Proper(t, op)
    ensures Consistent(expected, Perform(expected, t, op)) <==> Undisturbed(expected, t, op)
  {
    match op
    case Registers(uid) => RegisterKeepsConsistent(expected, t, uid);
    case Saves(room, flags, people, hasBots, now) =>
      StoredKeepsConsistent(expected, t, room, Stored(t, room, Active, flags, people, hasBots, now), people);
    case Finishes(_, _, _, _, _) => RatingOpIff(expected, t, op);
    case Sets(_, _, _) => RatingOpIff(expected, t, op);
    case Voids(id) => StatusKeepsConsistent(expected, t, id, Finished, Voided);
    case Unvoids(id) => StatusKeepsConsistent(expected, t, id, Voided, Finished);
    case Deletes(id, confirm, live) =>
      DeleteKeepsConsistent(expected, t, id, confirm, live);
  }

  lemma DeleteKeepsConsistent(expected: Expected, t: Tables, id: nat, confirm: bool, live: set<nat>)
    requires Consistent(expected, t)
    ensures Consistent(expected, OrSame(DeleteGame(expected, t, id, confirm, live), t))
  {
    var i := FindGame(t.games, id, 0);
    if i.Some? && t.games[i.value].status == Active {
      RemovalKeepsConsistent(expected, t, i.value);
    } else if i.Some? {
      RecomputedIsConsistent(expected, Without(t, i.value));
    }
  }

  lemma StatusKeepsConsistent(expected: Expected, t: Tables, id: nat, from: Status, to: Status)
    requires Consistent(expected, t)
    ensures Consistent(expected, OrSame(ChangeStatus(expected, t, id, from, to), t))
  {
    var i := FindGame(t.games, id, 0);
    if i.Some? {
      RecomputedIsConsistent(expected, WithStatus(t, i.value, to));
    }
  }

  // The event comes last in the history, up to adjustments of the same time that cancel each other.
  ghost predicate InOrder(t: Tables, op: Op) {
    match op
    case Finishes(room, _, people, _, now) =>
      UpTo(t, now) && IdsBelow(t, now, SlotGame(t, room).id) && Unmoved(t, people, now)
    case Sets(_, _, now) => UpTo(t, now)
    case _ => true
  }

  /** As long as the clock does not go back, and no adjustment shares the second of a game, nothing is disturbed. */
  lemma InOrderUndisturbed(expected: Expected, t: Tables, op: Op)
    requires Consistent(expected, t) && Sound(t) && Proper(t, op) && InOrder(t, op)
    ensures Undisturbed(expected, t, op)
  {
    if op.Finishes? && !op.hasBots {
      FinishIff(expected, t, op.room, op.flags, op.people, op.now);
      FinishAnywhereIff(expected, t, op.room, op.flags, op.people, op.now);
    }
  }

  const EMPTY := Tables(map[], [], [], 1)

  /**
   After any sequence of finished games, adjustments, voids, restorations and deletions that do not come before
   something that depends on them, the stored ratings and the ratings noted with every game are those computed from
   nothing.
   */
  lemma {:induction false} AlwaysConsistent(expected: Expected, t: Tables, ops: seq<Op>)
    requires Consistent(expected, t) && Sound(t) && AllFit(expected, t, ops)
    ensures Consistent(expected, PerformAll(expected, t, ops)) && Sound(PerformAll(expected, t, ops))
    decreases |ops|
  {
    if ops != [] {
      PerformIff(expected, t, ops[0]);
      PerformKeepsSound(expected, t, ops[0]);
      AlwaysConsistent(expected, Perform(expected, t, ops[0]), ops[1..]);
    }
  }

  lemma EmptyIsConsistent(expected: Expected)
    ensures Consistent(expected, EMPTY) && Sound(EMPTY)
  {
    assert Newcomers(EMPTY.users) == map[];
    assert EventsOf(EMPTY) == [];
  }

  /** In every state reached from empty tables the cache is right. */
  lemma ReachedConsistent(expected: Expected, ops: seq<Op>)
    requires AllFit(expected, EMPTY, ops)
    ensures Consistent(expected, PerformAll(expected, EMPTY, ops))
  {
    EmptyIsConsistent(expected);
    AlwaysConsistent(expected, EMPTY, ops);
  }

  // ----- Undoing -----

  lemma {:induction false} FindGameSame(games: seq<GameRow>, others: seq<GameRow>, id: nat, from: nat)
    requires |games| == |others| && from <= |games| && forall i :: 0 <= i < |games| ==> games[i].id == others[i].id
    ensures FindGame(games, id, from) == FindGame(others, id, from)
    decreases |games| - from
  {
    if from < |games| {
      FindGameSame(games, others, id, from + 1);
    }
  }

  /** Voiding a game and restoring it gives back every rating, every count and every noted pair. */
  lemma VoidThenUnvoid(expected: Expected, t: Tables, id: nat)
    requires Consistent(expected, t) && VoidGame(expected, t, id).Ok?
    ensures UnvoidGame(expected, VoidGame(expected, t, id).value, id) == Ok(t)
  {
    var i := FindGame(t.games, id, 0).value;
    var voided := WithStatus(t, i, Voided);
    var v := Recomputed(expected, voided);
    RecomputedSameHistory(expected, voided);
    forall j | 0 <= j < |t.games| ensures v.games[j].id == t.games[j].id && SameGame(v.games[j], voided.games[j]) {
      assert SameGame(v.games[j], voided.games[j]);
      assert v.games[j].(rows := []).id == voided.games[j].(rows := []).id;
    }
    FindGameSame(v.games, t.games, id, 0);
    assert v.games[i].(rows := []).status == voided.games[i].(rows := []).status;
    var back := WithStatus(v, i, Finished);
    RestoredHistory(t, v, i);
    SameHistorySameRatings(expected, back, t);
  }

  lemma RestoredHistory(t: Tables, v: Tables, i: nat)
    requires i < |t.games| && t.games[i].status == Finished && SameHistory(v, WithStatus(t, i, Voided))
    ensures SameHistory(WithStatus(v, i, Finished), t)
  {
    var voided, back := WithStatus(t, i, Voided), WithStatus(v, i, Finished);
    forall j | 0 <= j < |t.games| ensures SameGame(back.games[j], t.games[j]) {
      assert SameGame(v.games[j], voided.games[j]);
      assert v.games[j].(rows := []).(status := Finished) == voided.games[j].(rows := []).(status := Finished);
    }
  }

  // ----- What happens at the same time -----

  lemma {:induction false} RanksThose(users: map<int, Standing>, people: seq<Person>, n: nat, k: nat)
    requires k < n <= |people| && people[k].uid.Some? && people[k].uid.value in users
    ensures Ranks(RankedTo(users, people, n), people[k].uid.value)
  {
    if k < n - 1 {
      RanksThose(users, people, n - 1, k);
      var before := RankedTo(users, people, n - 1);
      var i :| 0 <= i < |before| && before[i].uid == people[k].uid.value;
      assert RankedTo(users, people, n)[i] == before[i];
    } else {
      var ranked := RankedTo(users, people, n);
      assert Ranks(RankedTo(users, people, n - 1), people[k].uid.value)
          || ranked[|ranked| - 1].uid == people[k].uid.value;
    }
  }

  lemma NetSnoc(adjustments: seq<Adjustment>, a: Adjustment, uid: int, now: int)
    ensures NetAt(adjustments + [a], uid, now)
            == NetAt(adjustments, uid, now) + if a.uid == uid && a.time == now then a.after - a.before else 0
  {
    assert (adjustments + [a])[..|adjustments|] == adjustments;
  }

  // After an adjustment a player of the game has been moved in sum.
  lemma AdjustedMoved(t: Tables, uid: int, rating: int, now: int, people: seq<Person>, k: nat)
    requires NetAt(t.adjustments, uid, now) == 0 && SetRating(t, uid, rating, now).Ok?
    requires k < |people| && people[k].uid == Some(uid)
    ensures !Unmoved(SetRating(t, uid, rating, now).value, people, now)
    ensures |Ranked(SetRating(t, uid, rating, now).value.users, people)| == |Ranked(t.users, people)|
  {
    var u := SetRating(t, uid, rating, now).value;
    var ranked := Ranked(u.users, people);
    NetSnoc(t.adjustments, Adjustment(|t.adjustments|, uid, t.users[uid].rating, rating, now), uid, now);
    RankedAligned(t.users, u.users, people, |people|);
    RanksThose(u.users, people, |people|, k);
    var i :| 0 <= i < |ranked| && ranked[i].uid == uid;
    assert ranked[i] in ranked && NetAt(u.adjustments, ranked[i].uid, now) != 0;
  }

  lemma AdjustedSound(t: Tables, uid: int, rating: int, now: int, room: string)
    requires Sound(t) && UpTo(t, now) && IdsBelow(t, now, SlotGame(t, room).id)
    requires SetRating(t, uid, rating, now).Ok?
    ensures var u := SetRating(t, uid, rating, now).value;
            Sound(u) && UpTo(u, now) && SlotGame(u, room) == SlotGame(t, room) && IdsBelow(u, now, SlotGame(u, room).id)
  {
  }

  /**
   An adjustment that nothing cancels, followed at the same time by a rated game of that user, breaks the cache:
   the replay takes the game first, and so finds another rating before it than the one noted on the spot.
   */
  lemma SameTimeBreaksCache(expected: Expected, t: Tables, uid: int, rating: int, now: int,
                            room: string, flags: map<string, bool>, people: seq<Person>, k: nat)
    requires Consistent(expected, t) && Sound(t) && UpTo(t, now) && IdsBelow(t, now, SlotGame(t, room).id)
    requires NetAt(t.adjustments, uid, now) == 0 && SetRating(t, uid, rating, now).Ok?
    requires Matching(SlotGame(t, room).rows, people, flags)
    requires k < |people| && people[k].uid == Some(uid) && |Ranked(t.users, people)| >= 2
    ensures var u := SetRating(t, uid, rating, now).value;
            Consistent(expected, u) && !Consistent(expected, FinishGame(expected, u, room, flags, people, false, now))
  {
    var u := SetRating(t, uid, rating, now).value;
    SetRatingIff(expected, t, uid, rating, now);
    AdjustedMoved(t, uid, rating, now, people, k);
    AdjustedSound(t, uid, rating, now, room);
    hide Consistent, FinishGame, Unmoved, Sound, UpTo, IdsBelow, SlotGame, SetRating, Matching, RankedTo;
    FinishIff(expected, u, room, flags, people, now);
  }
}
