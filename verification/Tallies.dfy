/**
 The ratings add up: in a right cache every rating is 1200 plus the differences that the tables note with games and
 adjustments, and every count is the number of games that note one; a game notes one for everybody it rates.
 */
module Tallies {
  import opened Results
  import opened Elo
  import opened Ratings
  import opened RatingOrder
  import opened Rosters
  import opened RatingLaws
  import opened Timelines
  import opened SameTime
  import opened LateGames
  import opened LateAdjustments
  import opened Histories

  // ----- What an event brings a user -----

  function Plus(a: Standing, b: Standing): Standing {
    Standing(a.rating + b.rating, a.games + b.games)
  }

  // What a noted pair adds to the rating and to the number of games.
  function Gain(pair: Option<(int, int)>): Standing {
    match pair
    case Some(p) => Standing(p.1 - p.0, 1)
    case None => Standing(0, 0)
  }

  ghost function Brings(pairs: Pairs, e: Event, uid: int): Standing {
    match e
    case Played(_, id, _) => Gain(PairAt(pairs, id, uid))
    case Adjusted(_, _, user, delta) => Standing(if user == uid then delta else 0, 0)
  }

  ghost function Sum(pairs: Pairs, events: seq<Event>, uid: int): Standing {
    if events == [] then Standing(0, 0)
    else Plus(Sum(pairs, events[..|events| - 1], uid), Brings(pairs, events[|events| - 1], uid))
  }

  lemma {:induction false} SumConcat(pairs: Pairs, a: seq<Event>, b: seq<Event>, uid: int)
    ensures Sum(pairs, a + b, uid) == Plus(Sum(pairs, a, uid), Sum(pairs, b, uid))
  {
    if b == [] {
      assert a + b == a;
    } else {
      assert (a + b)[..|a + b| - 1] == a + b[..|b| - 1];
      SumConcat(pairs, a, b[..|b| - 1], uid);
    }
  }

  lemma SumOne(pairs: Pairs, e: Event, uid: int)
    ensures Sum(pairs, [e], uid) == Brings(pairs, e, uid)
  {
    assert [e][..0] == [];
  }

  lemma SumSnoc(pairs: Pairs, front: seq<Event>, last: Event, uid: int)
    ensures Sum(pairs, front + [last], uid) == Plus(Sum(pairs, front, uid), Brings(pairs, last, uid))
  {
    SumConcat(pairs, front, [last], uid);
    SumOne(pairs, last, uid);
  }

  lemma {:induction false} SumInsert(pairs: Pairs, sorted: seq<Event>, e: Event, uid: int)
    ensures Sum(pairs, Insert(sorted, e), uid) == Plus(Sum(pairs, sorted, uid), Brings(pairs, e, uid))
  {
    hide Sum, Brings, Earlier;
    if sorted == [] || !Earlier(e, sorted[|sorted| - 1]) {
      SumSnoc(pairs, sorted, e, uid);
    } else {
      var front, last := sorted[..|sorted| - 1], sorted[|sorted| - 1];
      SumInsert(pairs, front, e, uid);
      SumSnoc(pairs, Insert(front, e), last, uid);
      SumSnoc(pairs, front, last, uid);
      assert sorted == front + [last];
    }
  }

  // The order of the events does not matter to the sum.
  lemma {:induction false} SumSorted(pairs: Pairs, events: seq<Event>, uid: int)
    ensures Sum(pairs, Sort(events), uid) == Sum(pairs, events, uid)
  {
    if events != [] {
      var front := events[..|events| - 1];
      SumSorted(pairs, front, uid);
      SumInsert(pairs, Sort(front), events[|events| - 1], uid);
    }
  }

  lemma {:induction false} SumSame(pairs: Pairs, others: Pairs, events: seq<Event>, uid: int)
    requires forall e :: e in events && e.Played? ==> PairAt(pairs, e.id, uid) == PairAt(others, e.id, uid)
    ensures Sum(pairs, events, uid) == Sum(others, events, uid)
  {
    if events != [] {
      assert forall e :: e in events[..|events| - 1] ==> e in events;
      SumSame(pairs, others, events[..|events| - 1], uid);
      assert events[|events| - 1] in events;
    }
  }

  // ----- The replay adds up -----

  lemma StepBrings(expected: Expected, b: Book, e: Event, uid: int)
    requires uid in b.users && (e.Played? ==> PairAt(b.pairs, e.id, uid).None?)
    ensures var after := Step(expected, b, e);
            uid in after.users && after.users[uid] == Plus(b.users[uid], Brings(after.pairs, e, uid))
  {
    if e.Played? {
      RateAt(expected, b, e.id, e.people, uid);
      RatePairAt(expected, b, e.id, e.people, e.id, uid);
    }
  }

  lemma StepKeepsPairs(expected: Expected, b: Book, e: Event, id: nat, uid: int)
    requires e.Played? ==> e.id != id
    ensures PairAt(Step(expected, b, e).pairs, id, uid) == PairAt(b.pairs, id, uid)
  {
    if e.Played? {
      RatePairAt(expected, b, e.id, e.people, id, uid);
    }
  }

  // Who is among the users, with the sum of what the events brought.
  ghost predicate AddedUp(b: Book, after: Book, events: seq<Event>, uid: int) {
    && uid in b.users && uid in after.users
    && after.users[uid] == Plus(b.users[uid], Sum(after.pairs, events, uid))
  }

  // What earlier games noted stays.
  lemma FrontKept(expected: Expected, before: Book, front: seq<Event>, last: Event, uid: int)
    requires last.Played? ==> forall e :: e in front && e.Played? ==> e.id != last.id
    ensures Sum(Step(expected, before, last).pairs, front, uid) == Sum(before.pairs, front, uid)
  {
    hide Step, Sum;
    var after := Step(expected, before, last);
    forall e | e in front && e.Played? ensures PairAt(after.pairs, e.id, uid) == PairAt(before.pairs, e.id, uid) {
      StepKeepsPairs(expected, before, last, e.id, uid);
    }
    SumSame(after.pairs, before.pairs, front, uid);
  }

  lemma AddedOneMore(expected: Expected, b: Book, before: Book, front: seq<Event>, last: Event, uid: int)
    requires AddedUp(b, before, front, uid)
    requires last.Played? ==>
               PairAt(before.pairs, last.id, uid).None? && forall e :: e in front && e.Played? ==> e.id != last.id
    ensures AddedUp(b, Step(expected, before, last), front + [last], uid)
  {
    hide Step, Brings, Sum, PairAt;
    StepBrings(expected, before, last, uid);
    FrontKept(expected, before, front, last, uid);
    SumSnoc(Step(expected, before, last).pairs, front, last, uid);
  }

  lemma {:induction false} ReplaySums(expected: Expected, b: Book, events: seq<Event>, uid: int)
    requires DistinctGames(events) && uid in b.users && b.pairs == map[]
    ensures AddedUp(b, Replay(expected, b, events), events, uid)
  {
    if events != [] {
      var front, last := events[..|events| - 1], events[|events| - 1];
      FrontApart(events);
      ReplaySums(expected, b, front, uid);
      hide AddedUp, DistinctGames, Step;
      if last.Played? {
        OnlyPlayedRated(expected, b, front, (last.id, uid));
      }
      AddedOneMore(expected, b, Replay(expected, b, front), front, last, uid);
      assert front + [last] == events;
    }
  }

  lemma FrontApart(events: seq<Event>)
    requires events != [] && DistinctGames(events)
    ensures DistinctGames(events[..|events| - 1])
    ensures forall e :: e in events[..|events| - 1] && e.Played? && events[|events| - 1].Played? ==>
              e.id != events[|events| - 1].id
  {
  }

  // ----- The tables add up -----

  // What the adjustments of a user add up to.
  function AdjustedBy(adjustments: seq<Adjustment>, uid: int): int {
    if adjustments == [] then 0
    else
      var a := adjustments[|adjustments| - 1];
      AdjustedBy(adjustments[..|adjustments| - 1], uid) + if a.uid == uid then a.after - a.before else 0
  }

  // What a game notes for a user.
  ghost function NotedFor(g: GameRow, uid: int): Option<(int, int)> {
    if k :| 0 <= k < |g.rows| && g.rows[k].uid == Some(uid) && g.rows[k].rated.Some? then g.rows[k].rated else None
  }

  // What the games note for a user, added up, and how many do.
  ghost function NotedBy(games: seq<GameRow>, uid: int): Standing {
    if games == [] then Standing(0, 0)
    else Plus(NotedBy(games[..|games| - 1], uid), Gain(NotedFor(games[|games| - 1], uid)))
  }

  lemma {:induction false} AdjustmentsSum(pairs: Pairs, adjustments: seq<Adjustment>, uid: int)
    ensures Sum(pairs, AdjustmentEvents(adjustments), uid) == Standing(AdjustedBy(adjustments, uid), 0)
  {
    if adjustments != [] {
      var n := |adjustments| - 1;
      AdjustmentsSum(pairs, adjustments[..n], uid);
      assert AdjustmentEvents(adjustments)[..n] == AdjustmentEvents(adjustments[..n]);
    }
  }

  // The rows of the games show what is noted, and nothing is noted with games that do not count.
  ghost predicate ShowNotes(games: seq<GameRow>, pairs: Pairs, uid: int) {
    forall i :: 0 <= i < |games| ==>
      && NotedFor(games[i], uid) == PairAt(pairs, games[i].id, uid)
      && (!Counts(games[i]) ==> NotedFor(games[i], uid) == None)
  }

  lemma {:induction false} GamesSum(pairs: Pairs, games: seq<GameRow>, uid: int)
    requires ShowNotes(games, pairs, uid)
    ensures Sum(pairs, GameEvents(games), uid) == NotedBy(games, uid)
  {
    if games != [] {
      var n := |games| - 1;
      assert games[n] == games[n] && ShowNotes(games[..n], pairs, uid);
      GamesSum(pairs, games[..n], uid);
      SingleEvent(games[n]);
      SumConcat(pairs, GameEvents(games[..n]), if Counts(games[n]) then [GameEvent(games[n])] else [], uid);
      SumOne(pairs, GameEvent(games[n]), uid);
    }
  }

  lemma RowsShowNotes(expected: Expected, t: Tables, uid: int)
    requires Consistent(expected, t) && Sound(t)
    ensures ShowNotes(t.games, Computed(expected, t).pairs, uid)
  {
    var pairs := Computed(expected, t).pairs;
    forall i | 0 <= i < |t.games|
      ensures NotedFor(t.games[i], uid) == PairAt(pairs, t.games[i].id, uid)
      ensures !Counts(t.games[i]) ==> NotedFor(t.games[i], uid) == None
    {
      NotedForIs(expected, t, i, uid);
    }
  }

  lemma NotedForIs(expected: Expected, t: Tables, i: nat, uid: int)
    requires Consistent(expected, t) && Sound(t) && i < |t.games|
    ensures NotedFor(t.games[i], uid) == PairAt(Computed(expected, t).pairs, t.games[i].id, uid)
    ensures !Counts(t.games[i]) ==> NotedFor(t.games[i], uid) == None
  {
    RatedInIff(expected, t, i, uid);
    var g := t.games[i];
    forall k | 0 <= k < |g.rows| && g.rows[k].uid == Some(uid)
      ensures g.rows[k].rated == PairAt(Computed(expected, t).pairs, g.id, uid)
    {
      StampAt(expected, t, i, k);
    }
    if !Counts(g) {
      UncountedUnrated(expected, t, g.id, (g.id, uid));
    }
    hide Consistent, Computed;
  }

  /** Every rating is 1200 plus what adjustments and games brought, every count the number of games that noted some. */
  lemma RatingsAddUp(expected: Expected, t: Tables, uid: int)
    requires Consistent(expected, t) && Sound(t) && uid in t.users
    ensures t.users[uid].rating == 1200 + AdjustedBy(t.adjustments, uid) + NotedBy(t.games, uid).rating
    ensures t.users[uid].games == NotedBy(t.games, uid).games
  {
    var b := Computed(expected, t);
    assert b.users == t.users;
    TimelineDistinct(t);
    ReplaySums(expected, Book(Newcomers(t.users), map[]), TimelineOf(t), uid);
    SumSorted(b.pairs, EventsOf(t), uid);
    SumConcat(b.pairs, GameEvents(t.games), AdjustmentEvents(t.adjustments), uid);
    RowsShowNotes(expected, t, uid);
    hide ShowNotes, Consistent;
    GamesSum(b.pairs, t.games, uid);
    AdjustmentsSum(b.pairs, t.adjustments, uid);
  }

  // ----- Who is rated -----

  ghost predicate IsUser(t: Tables, uid: Option<int>) {
    uid.Some? && uid.value in t.users
  }

  // Two of the people are ranked exactly when they are different users.
  lemma TwoRanked(users: map<int, Standing>, people: seq<Person>, uid: int)
    requires Ranks(Ranked(users, people), uid)
    ensures |Ranked(users, people)| >= 2
            <==> exists m :: 0 <= m < |people| && IsRanked(users, people[m]) && people[m].uid != Some(uid)
  {
    var ranked := Ranked(users, people);
    var i :| 0 <= i < |ranked| && ranked[i].uid == uid;
    if |ranked| >= 2 {
      var j := if i == 0 then 1 else 0;
      RankedFacts(users, people, |people|);
      RanksUsers(users, people, |people|, ranked[j].uid);
      assert ranked[j].uid != uid;
    }
    if m :| 0 <= m < |people| && IsRanked(users, people[m]) && people[m].uid != Some(uid) {
      RanksUsers(users, people, |people|, people[m].uid.value);
      var j :| 0 <= j < |ranked| && ranked[j].uid == people[m].uid.value;
      assert i != j;
    }
  }

  lemma RatesIs(x: Book, e: Event, uid: int)
    requires e.Played?
    ensures Rates(x, e, uid) <==>
              && uid in x.users && (exists k :: 0 <= k < |e.people| && e.people[k].uid == Some(uid))
              && exists m :: 0 <= m < |e.people| && IsRanked(x.users, e.people[m]) && e.people[m].uid != Some(uid)
  {
    var ranked := Ranked(x.users, e.people);
    RankedFacts(x.users, e.people, |e.people|);
    RanksUsers(x.users, e.people, |e.people|, uid);
    if EntryOf(ranked, uid).Some? {
      EntryIn(ranked, uid, EntryOf(ranked, uid).value);
    }
    if Ranks(ranked, uid) {
      var i :| 0 <= i < |ranked| && ranked[i].uid == uid;
      EntryIn(ranked, uid, ranked[i]);
      TwoRanked(x.users, e.people, uid);
    }
  }

  // Somebody else among the rows is a user too.
  ghost predicate HasOpponent(t: Tables, g: GameRow, uid: int) {
    exists m :: 0 <= m < |g.rows| && IsUser(t, g.rows[m].uid) && g.rows[m].uid != Some(uid)
  }

  lemma PlayedRates(expected: Expected, t: Tables, i: nat, k: nat, uid: int, x: Book)
    requires i < |t.games| && k < |t.games[i].rows| && t.games[i].rows[k].uid == Some(uid)
    requires x.users.Keys == t.users.Keys
    ensures Rates(x, GameEvent(t.games[i]), uid) <==> uid in t.users && HasOpponent(t, t.games[i], uid)
  {
    var g, e := t.games[i], GameEvent(t.games[i]);
    RatesIs(x, e, uid);
    hide Rates;
    assert |e.people| == |g.rows| && forall m :: 0 <= m < |g.rows| ==> e.people[m].uid == g.rows[m].uid;
    assert e.people[k].uid == Some(uid);
    assert forall m :: 0 <= m < |g.rows| ==> (IsRanked(x.users, e.people[m]) <==> IsUser(t, g.rows[m].uid));
  }

  // Where a game that counts stands in the history.
  lemma PlaceOf(t: Tables, i: nat) returns (n: nat)
    requires Sound(t) && i < |t.games| && Rateable(t.games[i])
    ensures DistinctGames(TimelineOf(t)) && n < |TimelineOf(t)| && TimelineOf(t)[n] == GameEvent(t.games[i])
  {
    TimelineDistinct(t);
    SortedIn(EventsOf(t), GameEvent(t.games[i]));
    GameEventsIn(t.games, GameEvent(t.games[i]));
    hide DistinctGames, GameEvent;
    n :| 0 <= n < |TimelineOf(t)| && TimelineOf(t)[n] == GameEvent(t.games[i]);
  }

  // A game rates a user when it comes exactly when something is noted with it in the end.
  lemma RatesThen(expected: Expected, start: Book, events: seq<Event>, n: nat, uid: int)
    requires start.pairs == map[] && DistinctGames(events) && n < |events| && events[n].Played?
    ensures Rates(Replay(expected, start, events[..n]), events[n], uid)
            <==> PairAt(Replay(expected, start, events).pairs, events[n].id, uid).Some?
  {
    assert [] + events == events && [] + events[..n] == events[..n];
    hide DistinctGames, Rates, Replay;
    RatesIffNoted(expected, start, [], events, n, uid);
  }

  lemma NotedIff(expected: Expected, t: Tables, i: nat, k: nat, uid: int)
    requires Sound(t) && i < |t.games| && k < |t.games[i].rows| && t.games[i].rows[k].uid == Some(uid)
    requires Rateable(t.games[i])
    ensures PairAt(Computed(expected, t).pairs, t.games[i].id, uid).Some?
            <==> uid in t.users && HasOpponent(t, t.games[i], uid)
  {
    hide TimelineOf, Replay, Rates, HasOpponent, Sound, DistinctGames, PairAt;
    var start := Book(Newcomers(t.users), map[]);
    var n := PlaceOf(t, i);
    var before := TimelineOf(t)[..n];
    RatesThen(expected, start, TimelineOf(t), n, uid);
    ReplayKeys(expected, start, before);
    assert Newcomers(t.users).Keys == t.users.Keys;
    PlayedRates(expected, t, i, k, uid, Replay(expected, start, before));
  }

  /**
   In a right cache a row notes ratings exactly when the game was finished without bots, the row is that of a
   registered user, and another registered user played.
   */
  lemma RatedIff(expected: Expected, t: Tables, i: nat, k: nat)
    requires Consistent(expected, t) && Sound(t) && i < |t.games| && k < |t.games[i].rows|
    ensures var g := t.games[i];
            g.rows[k].rated.Some?
            <==> Rateable(g) && IsUser(t, g.rows[k].uid) && HasOpponent(t, g, g.rows[k].uid.value)
  {
    var g := t.games[i];
    StampIs(expected, t, i);
    assert StampRow(Computed(expected, t).pairs, g.id, g.rows[k]) == g.rows[k];
    if g.rows[k].uid.Some? {
      var uid := g.rows[k].uid.value;
      if Rateable(g) {
        NotedIff(expected, t, i, k, uid);
      } else {
        UncountedUnrated(expected, t, g.id, (g.id, uid));
      }
    }
  }
}
