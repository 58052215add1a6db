/**
 Finishing a game at the time of other events, in terms of the stored tables: of adjustments, which come behind it
 in the history, and of a game with a larger id.
 */
module SameTime {
  import opened Results
  import opened Orders
  import opened Elo
  import opened Ratings
  import opened RatingOrder
  import opened Rosters
  import opened RatingLaws
  import opened Timelines
  import opened GameTies
  import opened LateGames

  // ----- Nothing later than now -----

  // No event is later than now.
  ghost predicate UpTo(t: Tables, now: int) {
    && (forall i :: 0 <= i < |t.games| && Counts(t.games[i]) ==> t.games[i].time <= now)
    && (forall i :: 0 <= i < |t.adjustments| ==> t.adjustments[i].time <= now)
  }

  // The games that count and ended now have smaller ids.
  ghost predicate IdsBelow(t: Tables, now: int, id: nat) {
    forall i :: 0 <= i < |t.games| && Counts(t.games[i]) && t.games[i].time == now ==> t.games[i].id < id
  }

  // By how much the adjustments of a time move a user's rating in sum.
  function NetAt(adjustments: seq<Adjustment>, uid: int, now: int): int {
    if adjustments == [] then 0
    else
      var n := |adjustments| - 1;
      NetAt(adjustments[..n], uid, now)
      + (if adjustments[n].uid == uid && adjustments[n].time == now
         then adjustments[n].after - adjustments[n].before else 0)
  }

  ghost function Delta(e: Event, uid: int, now: int): int {
    if e.Adjusted? && e.uid == uid && e.time == now then e.delta else 0
  }

  ghost function NetOf(events: seq<Event>, uid: int, now: int): int {
    if events == [] then 0
    else NetOf(events[..|events| - 1], uid, now) + Delta(events[|events| - 1], uid, now)
  }

  lemma {:induction false} NetConcat(a: seq<Event>, b: seq<Event>, uid: int, now: int)
    ensures NetOf(a + b, uid, now) == NetOf(a, uid, now) + NetOf(b, uid, now)
  {
    if b == [] {
      assert a + b == a;
    } else {
      assert (a + b)[..|a + b| - 1] == a + b[..|b| - 1];
      NetConcat(a, b[..|b| - 1], uid, now);
    }
  }

  lemma NetOne(e: Event, uid: int, now: int)
    ensures NetOf([e], uid, now) == Delta(e, uid, now)
  {
    assert [e][..0] == [];
  }

  lemma {:induction false} NetInsert(sorted: seq<Event>, e: Event, uid: int, now: int)
    ensures NetOf(Insert(sorted, e), uid, now) == NetOf(sorted, uid, now) + Delta(e, uid, now)
  {
    if sorted != [] && Earlier(e, sorted[|sorted| - 1]) {
      var front, last := sorted[..|sorted| - 1], sorted[|sorted| - 1];
      NetInsert(front, e, uid, now);
      NetConcat(Insert(front, e), [last], uid, now);
      NetOne(last, uid, now);
    } else {
      NetConcat(sorted, [e], uid, now);
      NetOne(e, uid, now);
    }
  }

  lemma {:induction false} NetSorted(events: seq<Event>, uid: int, now: int)
    ensures NetOf(Sort(events), uid, now) == NetOf(events, uid, now)
  {
    if events != [] {
      var front := events[..|events| - 1];
      NetSorted(front, uid, now);
      NetInsert(Sort(front), events[|events| - 1], uid, now);
    }
  }

  lemma {:induction false} NetNone(events: seq<Event>, uid: int, now: int)
    requires forall e :: e in events ==> Delta(e, uid, now) == 0
    ensures NetOf(events, uid, now) == 0
  {
    if events != [] {
      assert forall e :: e in events[..|events| - 1] ==> e in events;
      NetNone(events[..|events| - 1], uid, now);
    }
  }

  lemma {:induction false} NetAdjusted(adjustments: seq<Adjustment>, uid: int, now: int)
    ensures NetOf(AdjustmentEvents(adjustments), uid, now) == NetAt(adjustments, uid, now)
  {
    if adjustments != [] {
      var n := |adjustments| - 1;
      NetAdjusted(adjustments[..n], uid, now);
      assert AdjustmentEvents(adjustments)[..n] == AdjustmentEvents(adjustments[..n]);
    }
  }

  // The events of the tables move a user's rating at a time by what the adjustments say.
  lemma NetOfTimeline(t: Tables, uid: int, now: int)
    ensures NetOf(TimelineOf(t), uid, now) == NetAt(t.adjustments, uid, now)
  {
    forall e | e in GameEvents(t.games) ensures Delta(e, uid, now) == 0 {
      GameEventsIn(t.games, e);
    }
    NetNone(GameEvents(t.games), uid, now);
    NetAdjusted(t.adjustments, uid, now);
    NetConcat(GameEvents(t.games), AdjustmentEvents(t.adjustments), uid, now);
    NetSorted(EventsOf(t), uid, now);
  }

  // ----- A game finished at the time of adjustments -----

  // Only adjustments of one time.
  ghost predicate AdjustedAt(events: seq<Event>, now: int) {
    forall e :: e in events ==> e.Adjusted? && e.time == now
  }

  function MovedBy(s: Standing, net: int): Standing {
    s.(rating := s.rating + net)
  }

  lemma {:induction false} AdjustReplay(expected: Expected, b: Book, events: seq<Event>, now: int, uid: int)
    requires AdjustedAt(events, now)
    ensures var r := Replay(expected, b, events);
            && r.pairs == b.pairs && (uid in r.users <==> uid in b.users)
            && (uid in b.users ==> r.users[uid] == MovedBy(b.users[uid], NetOf(events, uid, now)))
  {
    if events != [] {
      var front, last := events[..|events| - 1], events[|events| - 1];
      assert last in events && forall e :: e in front ==> e in events;
      AdjustReplay(expected, b, front, now, uid);
    }
  }

  // Nobody who is rated in the game was moved in sum by adjustments of this time.
  ghost predicate Unmoved(t: Tables, people: seq<Person>, now: int) {
    forall a :: a in Ranked(t.users, people) ==> NetAt(t.adjustments, a.uid, now) == 0
  }

  lemma Comparable(t: Tables, g: GameRow, x: Event)
    requires UpTo(t, g.time) && IdsBelow(t, g.time, g.id) && x in EventsOf(t)
    ensures if x.Adjusted? && x.time == g.time then Earlier(GameEvent(g), x) else Earlier(x, GameEvent(g))
  {
    if x in GameEvents(t.games) {
      GameEventsIn(t.games, x);
    }
  }

  // What stands behind a game after everything else is an adjustment of its time.
  lemma BehindIsAdjusted(t: Tables, g: GameRow, p: Event, x: Event)
    requires UpTo(t, g.time) && IdsBelow(t, g.time, g.id) && x in TimelineOf(t)
    requires p.Played? && p.time == g.time && p.id == g.id
    ensures if x.Adjusted? && x.time == g.time then Earlier(p, x) else Earlier(x, p)
  {
    SortedIn(EventsOf(t), x);
    Comparable(t, g, x);
  }

  // The moves of a time are all in the part behind.
  lemma NetBehind(t: Tables, lo: seq<Event>, hi: seq<Event>, uid: int, now: int)
    requires TimelineOf(t) == lo + hi && forall x :: x in lo ==> !(x.Adjusted? && x.time == now)
    ensures NetOf(hi, uid, now) == NetAt(t.adjustments, uid, now)
  {
    NetNone(lo, uid, now);
    NetConcat(lo, hi, uid, now);
    NetOfTimeline(t, uid, now);
  }

  // Only the adjustments of this time stand behind the game.
  lemma BehindAdjusted(t: Tables, room: string, g: GameRow, people: seq<Person>)
    requires Sound(t) && Counts(g) && g.id == SlotGame(t, room).id
    requires UpTo(t, g.time) && IdsBelow(t, g.time, g.id)
    ensures var later := Behind(TimelineOf(t), Played(g.time, g.id, people));
            AdjustedAt(later, g.time) && forall uid :: NetOf(later, uid, g.time) == NetAt(t.adjustments, uid, g.time)
  {
    var p := Played(g.time, g.id, people);
    var lo, hi := Ahead(TimelineOf(t), p), Behind(TimelineOf(t), p);
    SplitsAt(t, room, g, people);
    SidesOf(TimelineOf(t), p);
    hide Ahead, Behind, TimelineOf, Sound, UpTo, IdsBelow, SlotGame, NetAt, NetOf;
    forall x | x in hi ensures x.Adjusted? && x.time == g.time {
      assert x in lo + hi;
      BehindIsAdjusted(t, g, p, x);
    }
    forall x | x in lo ensures !(x.Adjusted? && x.time == g.time) {
      assert x in lo + hi;
      BehindIsAdjusted(t, g, p, x);
    }
    forall uid ensures NetOf(hi, uid, g.time) == NetAt(t.adjustments, uid, g.time) {
      NetBehind(t, lo, hi, uid, g.time);
    }
  }

  lemma {:induction false} SidesOf(events: seq<Event>, p: Event)
    ensures forall x :: x in Ahead(events, p) ==> Earlier(x, p)
    ensures forall x :: x in Behind(events, p) ==> Earlier(p, x)
  {
    if events != [] {
      SidesOf(events[..|events| - 1], p);
    }
  }

  // Adjustments behind a game are harmless when they move none of its rated players in sum.
  lemma AdjustedHarmless(expected: Expected, b: Book, users: map<int, Standing>, people: seq<Person>,
                         later: seq<Event>, adjustments: seq<Adjustment>, now: int)
    requires AdjustedAt(later, now) && forall uid :: NetOf(later, uid, now) == NetAt(adjustments, uid, now)
    requires users == Replay(expected, b, later).users
    ensures Harmless(expected, b, people, later)
            <==> |Ranked(users, people)| < 2
                 || forall a :: a in Ranked(users, people) ==> NetAt(adjustments, a.uid, now) == 0
  {
    var rated, ranked, x := Ranked(b.users, people), Ranked(users, people), Replay(expected, b, later);
    ReplayKeys(expected, b, later);
    RankedAligned(b.users, users, people, |people|);
    RankedFacts(b.users, people, |people|);
    assert AllUnmindful(expected, b, rated, later) by {
      assert forall k :: 0 <= k < |later| ==> later[k] in later;
    }
    forall i | 0 <= i < |rated|
      ensures rated[i].uid == ranked[i].uid
      ensures x.users[rated[i].uid].rating == rated[i].rating <==> NetAt(adjustments, ranked[i].uid, now) == 0
    {
      AdjustReplay(expected, b, later, now, rated[i].uid);
    }
    hide AllUnmindful, Replay, NetAt, RankedTo;
    if Returned(b, x, rated) {
      forall a | a in ranked ensures NetAt(adjustments, a.uid, now) == 0 {
        var i :| 0 <= i < |ranked| && ranked[i] == a;
        assert rated[i] in rated;
      }
    }
    if forall a :: a in ranked ==> NetAt(adjustments, a.uid, now) == 0 {
      forall a | a in rated ensures a.uid in x.users && x.users[a.uid].rating == a.rating {
        var i :| 0 <= i < |rated| && rated[i] == a;
        assert ranked[i] in ranked;
      }
    }
  }

  /**
   A game finished after all other games leaves the cache right exactly when fewer than two of its people are
   rated, or the adjustments of the same time move none of the rated ones in sum.
   */
  lemma FinishIff(expected: Expected, t: Tables, room: string, flags: map<string, bool>, people: seq<Person>, now: int)
    requires Consistent(expected, t) && Sound(t) && UpTo(t, now) && IdsBelow(t, now, SlotGame(t, room).id)
    requires Matching(SlotGame(t, room).rows, people, flags)
    ensures Consistent(expected, FinishGame(expected, t, room, flags, people, false, now))
            <==> |Ranked(t.users, people)| < 2 || Unmoved(t, people, now)
  {
    var g := Stored(t, room, Finished, flags, people, false, now);
    var p := Played(now, g.id, people);
    SlotDistinct(t, room);
    MatchingPeople(SlotGame(t, room).rows, people, flags);
    FinishAnywhereIff(expected, t, room, flags, people, now);
    BehindAdjusted(t, room, g, people);
    ReplayAround(expected, t, room, g, people);
    hide Replay, Harmless, FinishGame, Matching, Sound, NetAt, NetOf, RankedTo;
    var later := Behind(TimelineOf(t), p);
    AdjustedHarmless(expected, BookAhead(expected, t, p), t.users, people, later, t.adjustments, now);
  }

  // ----- A game finished after one with a larger id of the same time -----

  // Game j ended now and counts, with a larger id; everything else comes before the game with this id.
  ghost predicate Overtaken(t: Tables, j: nat, id: nat, now: int) {
    && j < |t.games| && Counts(t.games[j]) && t.games[j].time == now && id < t.games[j].id
    && (forall i :: 0 <= i < |t.games| && i != j && Counts(t.games[i]) ==>
          t.games[i].time < now || (t.games[i].time == now && t.games[i].id < id))
    && (forall i :: 0 <= i < |t.adjustments| ==> t.adjustments[i].time < now)
  }

  lemma OthersEarlier(t: Tables, j: nat, g: GameRow, x: Event)
    requires Overtaken(t, j, g.id, g.time) && x in EventsOf(t) && x != GameEvent(t.games[j])
    ensures Earlier(x, GameEvent(g))
  {
    if x in GameEvents(t.games) {
      GameEventsIn(t.games, x);
    }
  }

  // What comes after the game that was finished second is the one that was finished first.
  lemma LaterIsOvertaken(t: Tables, j: nat, g: GameRow, p: Event, x: Event)
    requires Overtaken(t, j, g.id, g.time) && x in TimelineOf(t) && p.Played? && p.time == g.time && p.id == g.id
    ensures x == GameEvent(t.games[j]) || Earlier(x, p)
  {
    SortedIn(EventsOf(t), x);
    if x != GameEvent(t.games[j]) {
      OthersEarlier(t, j, g, x);
    }
  }

  lemma SamePlace(events: seq<Event>, i: nat, j: nat)
    requires DistinctGames(events) && i <= j < |events| && events[i].Played? && events[i] == events[j]
    ensures i == j
  {
  }

  lemma OnlyOne(events: seq<Event>, e: Event)
    requires e.Played? && DistinctGames(events) && e in events && forall x :: x in events ==> x == e
    ensures events == [e]
  {
    assert events[0] in events && events[|events| - 1] in events;
    SamePlace(events, 0, |events| - 1);
  }

  // Only the game that was finished first stands behind the other one.
  lemma BehindOvertaken(t: Tables, room: string, g: GameRow, people: seq<Person>, j: nat)
    requires Sound(t) && Counts(g) && g.id == SlotGame(t, room).id && Overtaken(t, j, g.id, g.time)
    ensures Behind(TimelineOf(t), Played(g.time, g.id, people)) == [GameEvent(t.games[j])]
    ensures Absent(Ahead(TimelineOf(t), Played(g.time, g.id, people)), t.games[j].id)
  {
    var p, last := Played(g.time, g.id, people), GameEvent(t.games[j]);
    SplitsAt(t, room, g, people);
    SidesOf(TimelineOf(t), p);
    TimelineDistinct(t);
    OvertakenStands(t, j);
    forall x | x in TimelineOf(t) ensures x == last || Earlier(x, p) {
      LaterIsOvertaken(t, j, g, p, x);
    }
    assert !Earlier(last, p);
    hide Ahead, Behind, TimelineOf, Sound, SlotGame, Overtaken, GameEvent;
    OnlyBehind(Ahead(TimelineOf(t), p), Behind(TimelineOf(t), p), p, last);
    assert last.id == t.games[j].id by {
      GameEventId(t.games[j]);
    }
  }

  lemma GameEventId(g: GameRow)
    ensures GameEvent(g).Played? && GameEvent(g).id == g.id
  {
  }

  lemma OvertakenStands(t: Tables, j: nat)
    requires j < |t.games| && Counts(t.games[j])
    ensures GameEvent(t.games[j]) in TimelineOf(t)
  {
    GameEventsIn(t.games, GameEvent(t.games[j]));
    SortedIn(EventsOf(t), GameEvent(t.games[j]));
  }

  // One event that is not ahead is all there is behind.
  lemma OnlyBehind(lo: seq<Event>, hi: seq<Event>, p: Event, last: Event)
    requires DistinctGames(lo + hi) && last in lo + hi && last.Played? && !Earlier(last, p)
    requires (forall x :: x in lo ==> Earlier(x, p)) && (forall x :: x in hi ==> Earlier(p, x))
    requires forall x :: x in lo + hi ==> x == last || Earlier(x, p)
    ensures hi == [last] && Absent(lo, last.id)
  {
    DistinctParts(lo, hi);
    assert last !in lo;
    forall x | x in hi ensures x == last {
      assert x in lo + hi;
    }
    OnlyOne(hi, last);
    assert hi[0] == last;
  }

  // The book before both games.
  ghost predicate Before(expected: Expected, t: Tables, j: nat, b: Book) {
    && j < |t.games|
    && Computed(expected, t) == RateGame(expected, b, t.games[j].id, PeopleOf(t.games[j].rows, t.games[j].flags))
    && forall uid :: PairAt(b.pairs, t.games[j].id, uid).None?
  }

  lemma BookBefore(expected: Expected, t: Tables, room: string, g: GameRow, people: seq<Person>, j: nat)
    requires Consistent(expected, t) && Sound(t) && Counts(g) && g.id == SlotGame(t, room).id
    requires Overtaken(t, j, g.id, g.time) && SamePeople(PeopleOf(g.rows, g.flags), people)
    ensures var p := Played(g.time, g.id, people);
            && Before(expected, t, j, BookAhead(expected, t, p))
            && Behind(TimelineOf(t), p) == [GameEvent(t.games[j])]
  {
    var p, h := Played(g.time, g.id, people), t.games[j];
    var b, start := BookAhead(expected, t, p), Book(Newcomers(t.users), map[]);
    BehindOvertaken(t, room, g, people, j);
    ReplayAround(expected, t, room, g, people);
    ReplayOne(expected, b, GameEvent(h));
    forall uid ensures PairAt(b.pairs, h.id, uid).None? {
      OnlyPlayedRated(expected, start, Ahead(TimelineOf(t), p), (h.id, uid));
    }
  }

  lemma ReplayOne(expected: Expected, b: Book, e: Event)
    ensures Replay(expected, b, [e]) == Step(expected, b, e)
  {
    ReplaySnoc(expected, b, [], e);
    assert [] + [e] == [e];
  }

  // The user was rated in the game.
  ghost predicate RatedIn(h: GameRow, uid: int) {
    exists k :: 0 <= k < |h.rows| && h.rows[k].uid == Some(uid) && h.rows[k].rated.Some?
  }

  // The game left the user's rating as it was.
  ghost predicate KeptIn(h: GameRow, uid: int) {
    forall k :: 0 <= k < |h.rows| && h.rows[k].uid == Some(uid) && h.rows[k].rated.Some? ==>
      h.rows[k].rated.value.0 == h.rows[k].rated.value.1
  }

  // The entry before the last rated game.
  function OneGameFewer(a: Entry): Entry {
    a.(games := a.games - 1)
  }

  // Whoever of the people was rated in the game h neither won nor lost there, nor does now.
  ghost predicate Settled(expected: Expected, t: Tables, h: GameRow, people: seq<Person>) {
    forall a :: a in Ranked(t.users, people) && RatedIn(h, a.uid) ==>
      KeptIn(h, a.uid) && Change(expected, Ranked(t.users, people), OneGameFewer(a)) == 0
  }

  // What the rows of the game finished first say of a user.
  lemma NotesOf(expected: Expected, t: Tables, j: nat, b: Book, uid: int)
    requires Consistent(expected, t) && Before(expected, t, j, b)
    ensures var h := t.games[j];
            var ranked := Ranked(b.users, PeopleOf(h.rows, h.flags));
            && (RatedIn(h, uid) <==> |ranked| >= 2 && EntryOf(ranked, uid).Some?)
            && (RatedIn(h, uid) ==> (KeptIn(h, uid) <==> Change(expected, ranked, EntryOf(ranked, uid).value) == 0))
  {
    var h := t.games[j];
    var people := PeopleOf(h.rows, h.flags);
    var ranked := Ranked(b.users, people);
    RatePairAt(expected, b, h.id, people, h.id, uid);
    forall k | 0 <= k < |h.rows| && h.rows[k].uid == Some(uid)
      ensures h.rows[k].rated == PairAt(Computed(expected, t).pairs, h.id, uid)
    {
      StampAt(expected, t, j, k);
    }
    if |ranked| >= 2 && EntryOf(ranked, uid).Some? {
      RankedFacts(b.users, people, |people|);
      EntryIn(ranked, uid, EntryOf(ranked, uid).value);
      var k := RowOfRanked(b.users, h, people, EntryOf(ranked, uid).value);
    }
  }

  // A player of both games, before the first and after it.
  lemma SharedAlike(expected: Expected, b: Book, id: nat, h: seq<Person>, p: seq<Person>, uid: int)
    requires |Ranked(b.users, h)| >= 2
    requires EntryOf(Ranked(b.users, h), uid).Some? && EntryOf(Ranked(b.users, p), uid).Some?
    ensures var x, y := Ranked(b.users, p), Ranked(RateGame(expected, b, id, h).users, p);
            var e, f := EntryOf(x, uid), EntryOf(y, uid);
            && f.Some? && f.value in y && e.value in x && f.value.uid == uid
            && (SameButGames(x, y) ==> Change(expected, x, e.value) == Change(expected, y, OneGameFewer(f.value)))
  {
    var after := RateGame(expected, b, id, h);
    var x, y := Ranked(b.users, p), Ranked(after.users, p);
    RankedAgain(expected, b, id, h, p, uid);
    GameAt(expected, b, id, h, uid);
    RateAt(expected, after, id, p, uid);
    RateAt(expected, b, id, p, uid);
    RankedFacts(b.users, p, |p|);
    RankedFacts(after.users, p, |p|);
    var e, f := EntryOf(x, uid).value, EntryOf(y, uid).value;
    EntryIn(x, uid, e);
    EntryIn(y, uid, f);
    if SameButGames(x, y) {
      var i :| 0 <= i < |x| && x[i] == e;
      EntryIn(y, uid, y[i]);
      assert AlikeButGames(x[i], y[i]);
      ChangeSame(expected, x, y, e, OneGameFewer(f));
    }
  }

  // The condition on the tables, read at one player of both games.
  lemma SettledAt(expected: Expected, t: Tables, j: nat, b: Book, people: seq<Person>, uid: int)
    requires Consistent(expected, t) && Before(expected, t, j, b)
    requires var others := PeopleOf(t.games[j].rows, t.games[j].flags);
             && |Ranked(b.users, others)| >= 2
             && EntryOf(Ranked(b.users, others), uid).Some? && EntryOf(Ranked(b.users, people), uid).Some?
    ensures var others := PeopleOf(t.games[j].rows, t.games[j].flags);
            var f := EntryOf(Ranked(t.users, people), uid);
            && f.Some? && f.value in Ranked(t.users, people) && f.value.uid == uid && RatedIn(t.games[j], uid)
            && (KeptIn(t.games[j], uid)
                <==> Change(expected, Ranked(b.users, others), EntryOf(Ranked(b.users, others), uid).value) == 0)
            && (SameButGames(Ranked(b.users, people), Ranked(t.users, people)) ==>
                  Change(expected, Ranked(b.users, people), EntryOf(Ranked(b.users, people), uid).value)
                  == Change(expected, Ranked(t.users, people), OneGameFewer(f.value)))
  {
    assert Computed(expected, t).users == t.users;
    SharedAlike(expected, b, t.games[j].id, PeopleOf(t.games[j].rows, t.games[j].flags), people, uid);
    NotesOf(expected, t, j, b, uid);
  }

  lemma SettledIff(expected: Expected, t: Tables, j: nat, b: Book, people: seq<Person>)
    requires Consistent(expected, t) && Before(expected, t, j, b) && |Ranked(t.users, people)| >= 2
    ensures Settled(expected, t, t.games[j], people)
            <==> Exchangeable(expected, b.users, PeopleOf(t.games[j].rows, t.games[j].flags), people)
  {
    var h := t.games[j];
    var others := PeopleOf(h.rows, h.flags);
    assert Computed(expected, t).users == t.users;
    RankedAgain(expected, b, h.id, others, people, 0);
    RankedFacts(b.users, others, |others|);
    RankedFacts(b.users, people, |people|);
    RankedFacts(t.users, people, |people|);
    hide RateGame, Change, Computed, RatedIn, KeptIn, EntryOf, RankedTo;
    if |Ranked(b.users, others)| < 2 {
      forall a | a in Ranked(t.users, people) ensures !RatedIn(h, a.uid) {
        NotesOf(expected, t, j, b, a.uid);
      }
    } else if Settled(expected, t, h, people) {
      forall a | a in Ranked(b.users, others) && EntryOf(Ranked(b.users, people), a.uid).Some?
        ensures Change(expected, Ranked(b.users, others), a) == 0
      {
        EntryIn(Ranked(b.users, others), a.uid, a);
        SettledAt(expected, t, j, b, people, a.uid);
      }
      RatingsKept(expected, b, h.id, others, people);
      forall a | a in Ranked(b.users, people) && EntryOf(Ranked(b.users, others), a.uid).Some?
        ensures Change(expected, Ranked(b.users, people), a) == 0
      {
        EntryIn(Ranked(b.users, people), a.uid, a);
        SettledAt(expected, t, j, b, people, a.uid);
      }
    } else if Independent(expected, b.users, others, people) {
      RatingsKept(expected, b, h.id, others, people);
      forall a | a in Ranked(t.users, people) && RatedIn(h, a.uid)
        ensures KeptIn(h, a.uid) && Change(expected, Ranked(t.users, people), OneGameFewer(a)) == 0
      {
        IndependentAt(expected, t, j, b, people, a);
      }
    }
  }

  lemma IndependentAt(expected: Expected, t: Tables, j: nat, b: Book, people: seq<Person>, a: Entry)
    requires Consistent(expected, t) && Before(expected, t, j, b)
    requires Independent(expected, b.users, PeopleOf(t.games[j].rows, t.games[j].flags), people)
    requires SameButGames(Ranked(b.users, people), Ranked(t.users, people))
    requires a in Ranked(t.users, people) && RatedIn(t.games[j], a.uid)
    ensures KeptIn(t.games[j], a.uid) && Change(expected, Ranked(t.users, people), OneGameFewer(a)) == 0
  {
    var others, uid := PeopleOf(t.games[j].rows, t.games[j].flags), a.uid;
    assert Computed(expected, t).users == t.users;
    RankedFacts(t.users, people, |people|);
    EntryIn(Ranked(t.users, people), uid, a);
    NotesOf(expected, t, j, b, uid);
    RankedAgain(expected, b, t.games[j].id, others, people, uid);
    RankedFacts(b.users, others, |others|);
    EntryIn(Ranked(b.users, others), uid, EntryOf(Ranked(b.users, others), uid).value);
    RankedFacts(b.users, people, |people|);
    EntryIn(Ranked(b.users, people), uid, EntryOf(Ranked(b.users, people), uid).value);
    SettledAt(expected, t, j, b, people, uid);
  }

  // One later game is harmless when the two can be exchanged.
  lemma OneGameHarmless(expected: Expected, b: Book, id: nat, people: seq<Person>, h: GameRow)
    requires id != h.id
    ensures Harmless(expected, b, people, [GameEvent(h)])
            <==> Exchangeable(expected, b.users, PeopleOf(h.rows, h.flags), people)
  {
    var others := PeopleOf(h.rows, h.flags);
    RatedBehindIff(expected, b, id, people, [GameEvent(h)]);
    ReplayOne(expected, b, GameEvent(h));
    ReplayOne(expected, RateGame(expected, b, id, people), GameEvent(h));
    GamesCommute(expected, b, h.id, others, id, people);
    hide RateGame, Harmless, Exchangeable, Replay;
  }

  /**
   A game finished at the time of one with a larger id leaves the cache right exactly when fewer than two of its
   people are rated, or those of them who were rated in the other game neither won nor lost there, nor do now.
   */
  lemma TieIff(expected: Expected, t: Tables, room: string, flags: map<string, bool>, people: seq<Person>, now: int,
               j: nat)
    requires Consistent(expected, t) && Sound(t) && Overtaken(t, j, SlotGame(t, room).id, now)
    requires Matching(SlotGame(t, room).rows, people, flags)
    ensures Consistent(expected, FinishGame(expected, t, room, flags, people, false, now))
            <==> |Ranked(t.users, people)| < 2 || Settled(expected, t, t.games[j], people)
  {
    var g := Stored(t, room, Finished, flags, people, false, now);
    var p, h := Played(now, g.id, people), t.games[j];
    var b := BookAhead(expected, t, p);
    SlotDistinct(t, room);
    MatchingPeople(SlotGame(t, room).rows, people, flags);
    FinishAnywhereIff(expected, t, room, flags, people, now);
    BookBefore(expected, t, room, g, people, j);
    OneGameHarmless(expected, b, g.id, people, h);
    assert Computed(expected, t).users == t.users;
    RankedAgain(expected, b, h.id, PeopleOf(h.rows, h.flags), people, 0);
    hide FinishGame, Matching, Sound, RateGame, Settled, Independent, Harmless, Overtaken, RankedTo, BookAhead;
    if |Ranked(t.users, people)| >= 2 {
      SettledIff(expected, t, j, b, people);
    }
  }
}
