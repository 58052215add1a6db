/**
 An event that enters the history before others: a game that is finished at the time of later ones, or when the
 clock has gone back. It was rated on the spot with the ratings of that moment; the replay puts it into its place
 and goes on with everything behind it. Here is exactly when both agree, whatever stands behind.
 */
module LateGames {
  import opened Results
  import opened Orders
  import opened Elo
  import opened Ratings
  import opened RatingOrder
  import opened Rosters
  import opened RatingLaws
  import opened Timelines
  import opened GameTies

  // ----- The history before and behind an event -----

  function Ahead(events: seq<Event>, p: Event): seq<Event> {
    if events == [] then []
    else Ahead(events[..|events| - 1], p) + if Earlier(events[|events| - 1], p) then [events[|events| - 1]] else []
  }

  function Behind(events: seq<Event>, p: Event): seq<Event> {
    if events == [] then []
    else Behind(events[..|events| - 1], p) + if Earlier(p, events[|events| - 1]) then [events[|events| - 1]] else []
  }

  lemma FilterSnoc(events: seq<Event>, e: Event, p: Event)
    ensures Ahead(events + [e], p) == Ahead(events, p) + if Earlier(e, p) then [e] else []
    ensures Behind(events + [e], p) == Behind(events, p) + if Earlier(p, e) then [e] else []
  {
    assert (events + [e])[..|events|] == events;
  }

  lemma {:induction false} AllAhead(lo: seq<Event>, p: Event)
    requires forall x :: x in lo ==> Earlier(x, p)
    ensures Ahead(lo, p) == lo && Behind(lo, p) == []
  {
    if lo != [] {
      var front, last := lo[..|lo| - 1], lo[|lo| - 1];
      assert lo == front + [last] && last in lo;
      hide Ahead, Behind;
      AllAhead(front, p);
      FilterSnoc(front, last, p);
    }
  }

  lemma {:induction false} SplitFilters(lo: seq<Event>, hi: seq<Event>, p: Event)
    requires (forall x :: x in lo ==> Earlier(x, p)) && (forall x :: x in hi ==> Earlier(p, x))
    ensures Ahead(lo + hi, p) == lo && Behind(lo + hi, p) == hi
  {
    hide Ahead, Behind;
    AllAhead(lo, p);
    if hi == [] {
      assert lo + hi == lo;
    } else {
      var front, last := hi[..|hi| - 1], hi[|hi| - 1];
      assert hi == front + [last] && last in hi && lo + hi == lo + front + [last];
      SplitFilters(lo, front, p);
      FilterSnoc(lo + front, last, p);
    }
  }

  // ----- A game rated before a list of events instead of after it -----

  function OneGameMore(a: Entry): Entry {
    a.(games := a.games + 1)
  }

  // A later event does not tell whether the rated game came before: in a game, whoever is rated in both was not
  // moved by the first one and is moved by the second one as much with one more game.
  ghost predicate Unmindful(expected: Expected, x: Book, rated: seq<Entry>, e: Event) {
    e.Played? && |Ranked(x.users, e.people)| >= 2 ==>
      var ranked := Ranked(x.users, e.people);
      forall a :: a in ranked && EntryOf(rated, a.uid).Some? ==>
        && Change(expected, rated, EntryOf(rated, a.uid).value) == 0
        && Change(expected, ranked, OneGameMore(a)) == Change(expected, ranked, a)
  }

  ghost predicate AllUnmindful(expected: Expected, b: Book, rated: seq<Entry>, later: seq<Event>) {
    forall k :: 0 <= k < |later| ==> Unmindful(expected, Replay(expected, b, later[..k]), rated, later[k])
  }

  // The book y is x with the game rated before.
  ghost predicate RatedFirst(expected: Expected, x: Book, y: Book, id: nat, rated: seq<Entry>) {
    && (forall uid :: UserShifted(expected, x, y, rated, uid))
    && (forall other, uid :: other != id ==> PairAt(y.pairs, other, uid) == PairAt(x.pairs, other, uid))
  }

  ghost predicate UserShifted(expected: Expected, x: Book, y: Book, rated: seq<Entry>, uid: int) {
    var e := EntryOf(rated, uid);
    && (uid in y.users <==> uid in x.users)
    && (uid in x.users ==>
          y.users[uid] == if e.Some? then Standing(x.users[uid].rating + Change(expected, rated, e.value),
                                                   x.users[uid].games + 1)
                          else x.users[uid])
  }

  lemma RatedNow(expected: Expected, b: Book, id: nat, people: seq<Person>)
    requires |Ranked(b.users, people)| >= 2
    ensures RatedFirst(expected, b, RateGame(expected, b, id, people), id, Ranked(b.users, people))
  {
    var rated, r := Ranked(b.users, people), RateGame(expected, b, id, people);
    forall uid ensures UserShifted(expected, b, r, rated, uid) {
      GameAt(expected, b, id, people, uid);
    }
    forall other, uid | other != id ensures PairAt(r.pairs, other, uid) == PairAt(b.pairs, other, uid) {
      RatePairAt(expected, b, id, people, other, uid);
    }
  }

  lemma ShiftedKeys(expected: Expected, x: Book, y: Book, id: nat, rated: seq<Entry>)
    requires RatedFirst(expected, x, y, id, rated)
    ensures x.users.Keys == y.users.Keys
  {
    forall uid ensures uid in x.users <==> uid in y.users {
      assert UserShifted(expected, x, y, rated, uid);
    }
  }

  // When those rated in both were not moved, the ranked of a later game have the same ratings in both books.
  lemma RankedShifted(expected: Expected, x: Book, y: Book, id: nat, rated: seq<Entry>, h: seq<Person>)
    requires RatedFirst(expected, x, y, id, rated)
    requires forall a :: a in Ranked(x.users, h) && EntryOf(rated, a.uid).Some? ==>
               Change(expected, rated, EntryOf(rated, a.uid).value) == 0
    ensures SameButGames(Ranked(x.users, h), Ranked(y.users, h))
  {
    var u, v := Ranked(x.users, h), Ranked(y.users, h);
    ShiftedKeys(expected, x, y, id, rated);
    RankedAligned(x.users, y.users, h, |h|);
    RankedFacts(x.users, h, |h|);
    RankedFacts(y.users, h, |h|);
    hide EntryOf, Change;
    forall i | 0 <= i < |u| ensures AlikeButGames(u[i], v[i]) {
      assert UserShifted(expected, x, y, rated, u[i].uid);
      assert u[i] in u;
    }
  }

  // One event more, which does not tell.
  lemma ShiftedStep(expected: Expected, x: Book, y: Book, id: nat, rated: seq<Entry>, e: Event)
    requires RatedFirst(expected, x, y, id, rated) && Unmindful(expected, x, rated, e)
    ensures RatedFirst(expected, Step(expected, x, e), Step(expected, y, e), id, rated)
  {
    ShiftedKeys(expected, x, y, id, rated);
    if e.Adjusted? {
      forall uid ensures UserShifted(expected, Step(expected, x, e), Step(expected, y, e), rated, uid) {
        assert UserShifted(expected, x, y, rated, uid) && UserShifted(expected, x, y, rated, e.uid);
      }
    } else {
      RankedAligned(x.users, y.users, e.people, |e.people|);
      if |Ranked(x.users, e.people)| >= 2 {
        GameShifted(expected, x, y, id, rated, e.id, e.people);
      }
    }
  }

  lemma GameShifted(expected: Expected, x: Book, y: Book, id: nat, rated: seq<Entry>, other: nat, h: seq<Person>)
    requires RatedFirst(expected, x, y, id, rated) && Unmindful(expected, x, rated, Played(0, other, h))
    requires |Ranked(x.users, h)| >= 2 && |Ranked(y.users, h)| >= 2
    ensures RatedFirst(expected, RateGame(expected, x, other, h), RateGame(expected, y, other, h), id, rated)
  {
    RankedShifted(expected, x, y, id, rated, h);
    var u, v := RateGame(expected, x, other, h), RateGame(expected, y, other, h);
    forall uid ensures UserShifted(expected, u, v, rated, uid) {
      GameAtBoth(expected, x, y, id, rated, other, h, uid);
    }
    forall third, uid | third != id ensures PairAt(v.pairs, third, uid) == PairAt(u.pairs, third, uid) {
      EntriesShifted(expected, x, y, id, rated, h, uid);
      RatePairAt(expected, x, other, h, third, uid);
      RatePairAt(expected, y, other, h, third, uid);
    }
  }

  // The entries of a user in a later game, in both books.
  lemma EntriesShifted(expected: Expected, x: Book, y: Book, id: nat, rated: seq<Entry>, h: seq<Person>, uid: int)
    requires RatedFirst(expected, x, y, id, rated) && SameButGames(Ranked(x.users, h), Ranked(y.users, h))
    ensures var u, v := Ranked(x.users, h), Ranked(y.users, h);
            var a, c := EntryOf(u, uid), EntryOf(v, uid);
            && (a.Some? <==> c.Some?)
            && (a.Some? ==>
                  && a.value in u && AlikeButGames(a.value, c.value) && a.value.uid == uid
                  && c.value.games == a.value.games + (if EntryOf(rated, uid).Some? then 1 else 0)
                  && Change(expected, v, c.value)
                     == Change(expected, u, if EntryOf(rated, uid).Some? then OneGameMore(a.value) else a.value))
  {
    var u, v := Ranked(x.users, h), Ranked(y.users, h);
    RankedFacts(x.users, h, |h|);
    RankedFacts(y.users, h, |h|);
    ShiftedKeys(expected, x, y, id, rated);
    RankedAligned(x.users, y.users, h, |h|);
    EntryAligned(u, v, |u|, uid);
    if EntryOf(u, uid).Some? {
      var a, c := EntryOf(u, uid).value, EntryOf(v, uid).value;
      EntryIn(u, uid, a);
      EntryIn(v, uid, c);
      assert UserShifted(expected, x, y, rated, uid);
      var i :| 0 <= i < |u| && u[i] == a;
      EntryIn(v, uid, v[i]);
      assert AlikeButGames(u[i], v[i]);
      ChangeSame(expected, u, v, if EntryOf(rated, uid).Some? then OneGameMore(a) else a, c);
    }
  }

  lemma GameAtBoth(expected: Expected, x: Book, y: Book, id: nat, rated: seq<Entry>, other: nat, h: seq<Person>,
                   uid: int)
    requires RatedFirst(expected, x, y, id, rated) && Unmindful(expected, x, rated, Played(0, other, h))
    requires |Ranked(x.users, h)| >= 2 && SameButGames(Ranked(x.users, h), Ranked(y.users, h))
    ensures UserShifted(expected, RateGame(expected, x, other, h), RateGame(expected, y, other, h), rated, uid)
  {
    GameAt(expected, x, other, h, uid);
    GameAt(expected, y, other, h, uid);
    EntriesShifted(expected, x, y, id, rated, h, uid);
    assert UserShifted(expected, x, y, rated, uid);
    hide RateGame, Change;
  }

  lemma UnmindfulFront(expected: Expected, b: Book, rated: seq<Entry>, later: seq<Event>)
    requires later != [] && AllUnmindful(expected, b, rated, later)
    ensures var n := |later| - 1;
            && AllUnmindful(expected, b, rated, later[..n])
            && Unmindful(expected, Replay(expected, b, later[..n]), rated, later[n])
  {
    hide Unmindful, Replay;
    var front := later[..|later| - 1];
    forall k | 0 <= k < |front| ensures Unmindful(expected, Replay(expected, b, front[..k]), rated, front[k]) {
      assert front[..k] == later[..k] && front[k] == later[k];
    }
  }

  /** Through events that do not tell, the two books differ by the rated game alone. */
  lemma {:induction false} ShiftedReplay(expected: Expected, x: Book, y: Book, id: nat, rated: seq<Entry>,
                                         later: seq<Event>)
    requires RatedFirst(expected, x, y, id, rated) && AllUnmindful(expected, x, rated, later)
    ensures RatedFirst(expected, Replay(expected, x, later), Replay(expected, y, later), id, rated)
  {
    hide RatedFirst, AllUnmindful, Unmindful, Step;
    if later != [] {
      var n := |later| - 1;
      UnmindfulFront(expected, x, rated, later);
      ShiftedReplay(expected, x, y, id, rated, later[..n]);
      ShiftedStep(expected, Replay(expected, x, later[..n]), Replay(expected, y, later[..n]), id, rated, later[n]);
    }
  }

  // Who is rated again later was not moved by the rated game.
  lemma {:induction false} CountsOrKept(expected: Expected, b: Book, rated: seq<Entry>, later: seq<Event>, uid: int)
    requires AllUnmindful(expected, b, rated, later) && uid in b.users && EntryOf(rated, uid).Some?
    ensures var x := Replay(expected, b, later);
            && uid in x.users && x.users[uid].games >= b.users[uid].games
            && (x.users[uid].games > b.users[uid].games ==>
                  Change(expected, rated, EntryOf(rated, uid).value) == 0)
  {
    if later != [] {
      var n := |later| - 1;
      UnmindfulFront(expected, b, rated, later);
      CountsOrKept(expected, b, rated, later[..n], uid);
      CountsStep(expected, Replay(expected, b, later[..n]), rated, later[n], uid);
    }
  }

  lemma CountsStep(expected: Expected, x: Book, rated: seq<Entry>, e: Event, uid: int)
    requires Unmindful(expected, x, rated, e) && uid in x.users && EntryOf(rated, uid).Some?
    ensures var y := Step(expected, x, e);
            && uid in y.users && y.users[uid].games >= x.users[uid].games
            && (y.users[uid].games > x.users[uid].games ==>
                  Change(expected, rated, EntryOf(rated, uid).value) == 0)
  {
    if e.Played? {
      var ranked := Ranked(x.users, e.people);
      RateAt(expected, x, e.id, e.people, uid);
      RankedFacts(x.users, e.people, |e.people|);
      if EntryOf(ranked, uid).Some? {
        EntryIn(ranked, uid, EntryOf(ranked, uid).value);
      }
    }
  }

  // The game with this id is not among the events.
  ghost predicate Absent(events: seq<Event>, id: nat) {
    forall e :: e in events && e.Played? ==> e.id != id
  }

  ghost predicate DistinctGames(events: seq<Event>) {
    forall i, j :: 0 <= i < j < |events| && events[i].Played? && events[j].Played? ==> events[i].id != events[j].id
  }

  // Of two parts with different games, neither has the other's.
  lemma DistinctParts(lo: seq<Event>, hi: seq<Event>)
    requires DistinctGames(lo + hi)
    ensures DistinctGames(hi)
    ensures forall k :: 0 <= k < |hi| && hi[k].Played? ==> Absent(lo, hi[k].id)
  {
    forall i, j | 0 <= i < j < |hi| && hi[i].Played? && hi[j].Played? ensures hi[i].id != hi[j].id {
      assert (lo + hi)[|lo| + i] == hi[i] && (lo + hi)[|lo| + j] == hi[j];
    }
    forall k | 0 <= k < |hi| && hi[k].Played? ensures Absent(lo, hi[k].id) {
      forall x | x in lo && x.Played? ensures x.id != hi[k].id {
        var i :| 0 <= i < |lo| && lo[i] == x;
        assert (lo + hi)[i] == x && (lo + hi)[|lo| + k] == hi[k];
      }
    }
  }

  // What is noted with a game stays.
  lemma {:induction false} PairStays(expected: Expected, b: Book, events: seq<Event>, id: nat, uid: int)
    requires Absent(events, id)
    ensures PairAt(Replay(expected, b, events).pairs, id, uid) == PairAt(b.pairs, id, uid)
  {
    if events != [] {
      var front, last := events[..|events| - 1], events[|events| - 1];
      assert last in events && forall e :: e in front ==> e in events;
      PairStays(expected, b, front, id, uid);
      if last.Played? {
        RatePairAt(expected, Replay(expected, b, front), last.id, last.people, id, uid);
      }
    }
  }

  // The later events move none of the ranked in sum.
  ghost predicate Returned(b: Book, x: Book, rated: seq<Entry>) {
    forall a :: a in rated ==> a.uid in x.users && x.users[a.uid].rating == a.rating
  }

  lemma RankedReturned(b: Book, x: Book, people: seq<Person>)
    requires b.users.Keys == x.users.Keys && Returned(b, x, Ranked(b.users, people))
    ensures SameButGames(Ranked(b.users, people), Ranked(x.users, people))
  {
    var u, v := Ranked(b.users, people), Ranked(x.users, people);
    RankedAligned(b.users, x.users, people, |people|);
    RankedFacts(b.users, people, |people|);
    RankedFacts(x.users, people, |people|);
    forall i | 0 <= i < |u| ensures AlikeButGames(u[i], v[i]) {
      assert u[i] in u;
    }
  }

  // The conditions under which the game may be rated behind the later events.
  ghost predicate Forgiving(expected: Expected, b: Book, people: seq<Person>, later: seq<Event>) {
    var rated := Ranked(b.users, people);
    |rated| >= 2 && AllUnmindful(expected, b, rated, later) && Returned(b, Replay(expected, b, later), rated)
  }

  // The change on the spot is the one the replay finds.
  lemma SpotChange(expected: Expected, b: Book, id: nat, people: seq<Person>, later: seq<Event>, uid: int)
    requires Forgiving(expected, b, people, later)
    ensures var rated, x := Ranked(b.users, people), Replay(expected, b, later);
            var spot := Ranked(x.users, people);
            var e, f := EntryOf(rated, uid), EntryOf(spot, uid);
            && |spot| == |rated| && (e.Some? <==> f.Some?)
            && (e.Some? ==> f.value.rating == e.value.rating
                            && Change(expected, spot, f.value) == Change(expected, rated, e.value))
  {
    var rated, x := Ranked(b.users, people), Replay(expected, b, later);
    var spot := Ranked(x.users, people);
    ReplayKeys(expected, b, later);
    RankedReturned(b, x, people);
    RankedFacts(b.users, people, |people|);
    RankedFacts(x.users, people, |people|);
    EntryAligned(rated, spot, |rated|, uid);
    if EntryOf(rated, uid).Some? {
      var e, f := EntryOf(rated, uid).value, EntryOf(spot, uid).value;
      EntryIn(rated, uid, e);
      EntryIn(spot, uid, f);
      var i :| 0 <= i < |rated| && rated[i] == e;
      EntryIn(spot, uid, spot[i]);
      assert AlikeButGames(rated[i], spot[i]);
      CountsOrKept(expected, b, rated, later, uid);
      if f.games == e.games {
        ChangeSame(expected, rated, spot, e, f);
      } else {
        ZeroStaysZero(expected, rated, spot, e, f);
      }
    }
  }

  lemma LateUser(expected: Expected, b: Book, id: nat, people: seq<Person>, later: seq<Event>, uid: int)
    requires Forgiving(expected, b, people, later)
    requires RatedFirst(expected, Replay(expected, b, later),
                        Replay(expected, RateGame(expected, b, id, people), later), id, Ranked(b.users, people))
    ensures var spot := RateGame(expected, Replay(expected, b, later), id, people).users;
            var y := Replay(expected, RateGame(expected, b, id, people), later).users;
            (uid in spot <==> uid in y) && (uid in spot ==> spot[uid] == y[uid])
  {
    var rated, x := Ranked(b.users, people), Replay(expected, b, later);
    var y := Replay(expected, RateGame(expected, b, id, people), later);
    SpotChange(expected, b, id, people, later, uid);
    hide Replay, Change, Forgiving, RankedTo;
    assert UserShifted(expected, x, y, rated, uid);
    GameAt(expected, x, id, people, uid);
    hide RateGame;
  }

  lemma LatePair(expected: Expected, b: Book, id: nat, people: seq<Person>, later: seq<Event>, other: nat, uid: int)
    requires Forgiving(expected, b, people, later) && Absent(later, id)
    requires RatedFirst(expected, Replay(expected, b, later),
                        Replay(expected, RateGame(expected, b, id, people), later), id, Ranked(b.users, people))
    ensures PairAt(RateGame(expected, Replay(expected, b, later), id, people).pairs, other, uid)
            == PairAt(Replay(expected, RateGame(expected, b, id, people), later).pairs, other, uid)
  {
    var x, first := Replay(expected, b, later), RateGame(expected, b, id, people);
    SpotChange(expected, b, id, people, later, uid);
    hide Replay, Change, Forgiving, RankedTo;
    RatePairAt(expected, x, id, people, other, uid);
    if other == id {
      RatePairAt(expected, b, id, people, id, uid);
      PairStays(expected, b, later, id, uid);
      PairStays(expected, first, later, id, uid);
    }
  }

  lemma LateAgrees(expected: Expected, b: Book, id: nat, people: seq<Person>, later: seq<Event>)
    requires Absent(later, id) && Forgiving(expected, b, people, later)
    ensures RateGame(expected, Replay(expected, b, later), id, people)
            == Replay(expected, RateGame(expected, b, id, people), later)
  {
    var first := RateGame(expected, b, id, people);
    var y, spot := Replay(expected, first, later), RateGame(expected, Replay(expected, b, later), id, people);
    RatedNow(expected, b, id, people);
    ShiftedReplay(expected, b, first, id, Ranked(b.users, people), later);
    hide Replay, RateGame, Forgiving, RatedFirst, Absent;
    forall uid
      ensures (uid in spot.users <==> uid in y.users) && (uid in spot.users ==> spot.users[uid] == y.users[uid])
    {
      LateUser(expected, b, id, people, later, uid);
    }
    assert spot.users == y.users;
    forall other, uid ensures PairAt(spot.pairs, other, uid) == PairAt(y.pairs, other, uid) {
      LatePair(expected, b, id, people, later, other, uid);
    }
    SameBooks(spot, y);
  }

  // ----- When both agree -----

  // What is noted with a later game tells whether the rated game came before.
  lemma NotesTell(expected: Expected, x: Book, y: Book, id: nat, rated: seq<Entry>, e: Event)
    requires RatedFirst(expected, x, y, id, rated) && e.Played?
    requires forall uid ::
               PairAt(Step(expected, x, e).pairs, e.id, uid) == PairAt(Step(expected, y, e).pairs, e.id, uid)
    ensures Unmindful(expected, x, rated, e)
  {
    var u, v := Ranked(x.users, e.people), Ranked(y.users, e.people);
    ShiftedKeys(expected, x, y, id, rated);
    RankedAligned(x.users, y.users, e.people, |e.people|);
    RankedFacts(x.users, e.people, |e.people|);
    if |u| >= 2 {
      forall a | a in u && EntryOf(rated, a.uid).Some?
        ensures Change(expected, rated, EntryOf(rated, a.uid).value) == 0
      {
        NoteTells(expected, x, y, id, rated, e, a);
      }
      RankedShifted(expected, x, y, id, rated, e.people);
      forall a | a in u && EntryOf(rated, a.uid).Some?
        ensures Change(expected, u, OneGameMore(a)) == Change(expected, u, a)
      {
        NoteTells(expected, x, y, id, rated, e, a);
        EntryIn(u, a.uid, a);
        EntriesShifted(expected, x, y, id, rated, e.people, a.uid);
      }
    }
  }

  // The same is noted for one user of both games.
  lemma NoteTells(expected: Expected, x: Book, y: Book, id: nat, rated: seq<Entry>, e: Event, a: Entry)
    requires RatedFirst(expected, x, y, id, rated) && e.Played? && a in Ranked(x.users, e.people)
    requires |Ranked(x.users, e.people)| >= 2 && EntryOf(rated, a.uid).Some?
    requires PairAt(Step(expected, x, e).pairs, e.id, a.uid) == PairAt(Step(expected, y, e).pairs, e.id, a.uid)
    ensures var u, v := Ranked(x.users, e.people), Ranked(y.users, e.people);
            && Change(expected, rated, EntryOf(rated, a.uid).value) == 0
            && EntryOf(v, a.uid).Some? && Change(expected, v, EntryOf(v, a.uid).value) == Change(expected, u, a)
  {
    var u, v, uid := Ranked(x.users, e.people), Ranked(y.users, e.people), a.uid;
    ShiftedKeys(expected, x, y, id, rated);
    RankedAligned(x.users, y.users, e.people, |e.people|);
    RankedFacts(x.users, e.people, |e.people|);
    RankedFacts(y.users, e.people, |e.people|);
    EntryAligned(u, v, |u|, uid);
    EntryIn(u, uid, a);
    EntryIn(v, uid, EntryOf(v, uid).value);
    assert UserShifted(expected, x, y, rated, uid);
    RatePairAt(expected, x, e.id, e.people, e.id, uid);
    RatePairAt(expected, y, e.id, e.people, e.id, uid);
  }

  // What is noted with the k-th event is what is noted in the end.
  lemma NotedInTheEnd(expected: Expected, b: Book, later: seq<Event>, k: nat, uid: int)
    requires k < |later| && later[k].Played? && DistinctGames(later)
    ensures PairAt(Replay(expected, b, later).pairs, later[k].id, uid)
            == PairAt(Step(expected, Replay(expected, b, later[..k]), later[k]).pairs, later[k].id, uid)
  {
    var head, rest := later[..k + 1], later[k + 1..];
    assert later == head + rest && head == later[..k] + [later[k]];
    ReplayConcat(expected, b, head, rest);
    ReplaySnoc(expected, b, later[..k], later[k]);
    forall e | e in rest && e.Played? ensures e.id != later[k].id {
      var i :| 0 <= i < |rest| && rest[i] == e;
      assert later[k + 1 + i] == e;
    }
    PairStays(expected, Replay(expected, b, head), rest, later[k].id, uid);
  }

  lemma AgreeingNotes(expected: Expected, b: Book, id: nat, people: seq<Person>, later: seq<Event>, k: nat, uid: int)
    requires Absent(later, id) && DistinctGames(later) && k < |later| && later[k].Played?
    requires RateGame(expected, Replay(expected, b, later), id, people)
             == Replay(expected, RateGame(expected, b, id, people), later)
    ensures var x := Replay(expected, b, later[..k]);
            var y := Replay(expected, RateGame(expected, b, id, people), later[..k]);
            var other := later[k].id;
            PairAt(Step(expected, x, later[k]).pairs, other, uid)
            == PairAt(Step(expected, y, later[k]).pairs, other, uid)
  {
    hide RateGame, Step, Replay;
    NotedInTheEnd(expected, b, later, k, uid);
    NotedInTheEnd(expected, RateGame(expected, b, id, people), later, k, uid);
    assert later[k] in later;
    OtherGameNoted(expected, Replay(expected, b, later), id, people, later[k].id, uid);
  }

  // When both orders lead to the same book, no later event tells.
  lemma {:induction false} AgreeingUnmindful(expected: Expected, b: Book, id: nat, people: seq<Person>,
                                             later: seq<Event>, k: nat)
    requires Absent(later, id) && DistinctGames(later) && |Ranked(b.users, people)| >= 2 && k <= |later|
    requires RateGame(expected, Replay(expected, b, later), id, people)
             == Replay(expected, RateGame(expected, b, id, people), later)
    ensures AllUnmindful(expected, b, Ranked(b.users, people), later[..k])
  {
    hide RateGame, Step, Absent, DistinctGames;
    if k > 0 {
      var rated, first, e := Ranked(b.users, people), RateGame(expected, b, id, people), later[k - 1];
      AgreeingUnmindful(expected, b, id, people, later, k - 1);
      RatedNow(expected, b, id, people);
      ShiftedReplay(expected, b, first, id, rated, later[..k - 1]);
      var x, y := Replay(expected, b, later[..k - 1]), Replay(expected, first, later[..k - 1]);
      if e.Played? {
        forall uid
          ensures PairAt(Step(expected, x, e).pairs, e.id, uid) == PairAt(Step(expected, y, e).pairs, e.id, uid)
        {
          AgreeingNotes(expected, b, id, people, later, k - 1, uid);
        }
        NotesTell(expected, x, y, id, rated, e);
      }
      assert later[..k][..k - 1] == later[..k - 1];
      UnmindfulSnoc(expected, b, rated, later[..k]);
    }
  }

  lemma OtherGameNoted(expected: Expected, b: Book, id: nat, people: seq<Person>, other: nat, uid: int)
    requires other != id
    ensures PairAt(RateGame(expected, b, id, people).pairs, other, uid) == PairAt(b.pairs, other, uid)
  {
    RatePairAt(expected, b, id, people, other, uid);
  }

  lemma UnmindfulSnoc(expected: Expected, b: Book, rated: seq<Entry>, later: seq<Event>)
    requires later != []
    requires AllUnmindful(expected, b, rated, later[..|later| - 1])
    requires Unmindful(expected, Replay(expected, b, later[..|later| - 1]), rated, later[|later| - 1])
    ensures AllUnmindful(expected, b, rated, later)
  {
    hide Unmindful, Replay;
    var front := later[..|later| - 1];
    forall k | 0 <= k < |later| ensures Unmindful(expected, Replay(expected, b, later[..k]), rated, later[k]) {
      if k < |front| {
        assert Unmindful(expected, Replay(expected, b, front[..k]), rated, front[k]);
        assert front[..k] == later[..k];
      } else {
        assert front == later[..k];
      }
    }
  }

  lemma AgreeingReturned(expected: Expected, b: Book, id: nat, people: seq<Person>, later: seq<Event>, a: Entry)
    requires Absent(later, id) && |Ranked(b.users, people)| >= 2 && a in Ranked(b.users, people)
    requires RateGame(expected, Replay(expected, b, later), id, people)
             == Replay(expected, RateGame(expected, b, id, people), later)
    ensures var x := Replay(expected, b, later).users;
            a.uid in x && x[a.uid].rating == a.rating
  {
    var rated, x := Ranked(b.users, people), Replay(expected, b, later);
    ReplayKeys(expected, b, later);
    RankedFacts(b.users, people, |people|);
    RankedFacts(x.users, people, |people|);
    RankedAligned(b.users, x.users, people, |people|);
    EntryAligned(rated, Ranked(x.users, people), |rated|, a.uid);
    EntryIn(rated, a.uid, a);
    EntryIn(Ranked(x.users, people), a.uid, EntryOf(Ranked(x.users, people), a.uid).value);
    RatePairAt(expected, b, id, people, id, a.uid);
    RatePairAt(expected, x, id, people, id, a.uid);
    PairStays(expected, RateGame(expected, b, id, people), later, id, a.uid);
  }

  // Fewer than two of the people are rated, or those who are come back to their ratings, and no later event tells.
  ghost predicate Harmless(expected: Expected, b: Book, people: seq<Person>, later: seq<Event>) {
    |Ranked(b.users, people)| < 2 || Forgiving(expected, b, people, later)
  }

  /** A game may be rated behind later events exactly when it is harmless. */
  lemma RatedBehindIff(expected: Expected, b: Book, id: nat, people: seq<Person>, later: seq<Event>)
    requires Absent(later, id) && DistinctGames(later)
    ensures RateGame(expected, Replay(expected, b, later), id, people)
            == Replay(expected, RateGame(expected, b, id, people), later)
            <==> Harmless(expected, b, people, later)
  {
    var rated, x := Ranked(b.users, people), Replay(expected, b, later);
    ReplayKeys(expected, b, later);
    RankedAligned(b.users, x.users, people, |people|);
    if |rated| >= 2 {
      hide AllUnmindful, Replay;
      if Harmless(expected, b, people, later) {
        LateAgrees(expected, b, id, people, later);
      } else if RateGame(expected, x, id, people) == Replay(expected, RateGame(expected, b, id, people), later) {
        AgreeingUnmindful(expected, b, id, people, later, |later|);
        assert later[..|later|] == later;
        forall a | a in rated ensures a.uid in x.users && x.users[a.uid].rating == a.rating {
          AgreeingReturned(expected, b, id, people, later, a);
        }
      }
    }
  }

  // ----- The tables -----

  // No game with this id has the user among its people.
  ghost predicate NotAmong(events: seq<Event>, id: nat, uid: int) {
    forall e :: e in events && e.Played? && e.id == id ==>
      forall k :: 0 <= k < |e.people| ==> e.people[k].uid != Some(uid)
  }

  // Nothing is noted with a game for who did not play it.
  lemma {:induction false} OnlyPlayersNoted(expected: Expected, b: Book, events: seq<Event>, id: nat, uid: int)
    requires PairAt(b.pairs, id, uid).None? && NotAmong(events, id, uid)
    ensures PairAt(Replay(expected, b, events).pairs, id, uid).None?
  {
    if events != [] {
      var front, last := events[..|events| - 1], events[|events| - 1];
      assert last in events && forall e :: e in front ==> e in events;
      OnlyPlayersNoted(expected, b, front, id, uid);
      if last.Played? {
        var x := Replay(expected, b, front);
        RatePairAt(expected, x, last.id, last.people, id, uid);
        if last.id == id && EntryOf(Ranked(x.users, last.people), uid).Some? {
          RankedFacts(x.users, last.people, |last.people|);
          EntryIn(Ranked(x.users, last.people), uid, EntryOf(Ranked(x.users, last.people), uid).value);
          RankedPlays(x.users, last.people, |last.people|, EntryOf(Ranked(x.users, last.people), uid).value);
          assert false;
        }
      }
    }
  }

  // The tables have a row for the user in a game with this id.
  ghost predicate HasRow(t: Tables, id: nat, uid: int) {
    exists i, k :: 0 <= i < |t.games| && t.games[i].id == id && 0 <= k < |t.games[i].rows|
                   && t.games[i].rows[k].uid == Some(uid)
  }

  lemma NotedHasRow(expected: Expected, t: Tables, id: nat, uid: int)
    requires PairAt(Computed(expected, t).pairs, id, uid).Some?
    ensures HasRow(t, id, uid)
  {
    if !HasRow(t, id, uid) {
      forall e | e in TimelineOf(t) && e.Played? && e.id == id
        ensures forall k :: 0 <= k < |e.people| ==> e.people[k].uid != Some(uid)
      {
        SortedIn(EventsOf(t), e);
        GameEventsIn(t.games, e);
        var i :| 0 <= i < |t.games| && Counts(t.games[i]) && e == GameEvent(t.games[i]);
        forall k | 0 <= k < |e.people| ensures e.people[k].uid != Some(uid) {
          assert t.games[i].rows[k].uid == e.people[k].uid;
        }
      }
      OnlyPlayersNoted(expected, Book(Newcomers(t.users), map[]), TimelineOf(t), id, uid);
    }
  }

  // The book on the spot: the game is rated with the ratings of the moment.
  ghost function Spot(expected: Expected, t: Tables, id: nat, people: seq<Person>): Book {
    Rate(expected, Book(t.users, Computed(expected, t).pairs), id, Ranked(t.users, people))
  }

  lemma SpotHasRow(expected: Expected, t: Tables, room: string, g: GameRow, people: seq<Person>, id: nat, uid: int)
    requires Consistent(expected, t) && Sound(t) && g.id == SlotGame(t, room).id
    requires SamePeople(PeopleOf(g.rows, g.flags), people)
    requires PairAt(Spot(expected, t, g.id, people).pairs, id, uid).Some?
    ensures HasRow(PutGame(t, room, g), id, uid)
  {
    var i, stored := Slot(t, room), PutGame(t, room, g);
    var ranked := Ranked(t.users, people);
    assert stored.games[i] == g;
    RatePairAt(expected, Book(t.users, Computed(expected, t).pairs), g.id, people, id, uid);
    if id == g.id && EntryOf(ranked, uid).Some? {
      RankedFacts(t.users, people, |people|);
      EntryIn(ranked, uid, EntryOf(ranked, uid).value);
      var k := RowOfRanked(t.users, g, people, EntryOf(ranked, uid).value);
    } else {
      NotedHasRow(expected, t, id, uid);
      var j, k :| 0 <= j < |t.games| && t.games[j].id == id && 0 <= k < |t.games[j].rows|
                  && t.games[j].rows[k].uid == Some(uid);
      SlotUnrated(expected, t, room);
      assert id != g.id;
      assert stored.games[j] == t.games[j];
    }
  }

  // A right cache after the game shows both what the replay notes and what was noted on the spot.
  lemma RowShowsBoth(expected: Expected, t: Tables, room: string, g: GameRow, people: seq<Person>, id: nat, uid: int)
    requires Consistent(expected, t) && Sound(t) && g.id == SlotGame(t, room).id && Unrated(g.rows)
    requires Consistent(expected, ApplyRatings(expected, PutGame(t, room, g), g.id, people))
    requires HasRow(PutGame(t, room, g), id, uid)
    ensures PairAt(Computed(expected, PutGame(t, room, g)).pairs, id, uid)
            == PairAt(Spot(expected, t, g.id, people).pairs, id, uid)
  {
    var stored := PutGame(t, room, g);
    var after := ApplyRatings(expected, stored, g.id, people);
    var i, k :| 0 <= i < |stored.games| && stored.games[i].id == id && 0 <= k < |stored.games[i].rows|
                && stored.games[i].rows[k].uid == Some(uid);
    RegisteredAlike(t.users, people, |people|);
    ApplySameHistory(expected, stored, g.id, people);
    SameHistorySameRatings(expected, after, stored);
    RatedGame(expected, t, room, g, Ranked(t.users, people), i);
    StampIs(expected, after, i);
    var h := after.games[i];
    assert StampRow(Computed(expected, after).pairs, h.id, h.rows[k]) == h.rows[k];
    assert StampRow(Spot(expected, t, g.id, people).pairs, h.id, h.rows[k]) == h.rows[k];
  }

  /** Rating a game on the spot leaves the cache right exactly when the replay makes the same book. */
  lemma ConsistentIffSpot(expected: Expected, t: Tables, room: string, g: GameRow, people: seq<Person>)
    requires Consistent(expected, t) && Sound(t) && g.id == SlotGame(t, room).id && Unrated(g.rows)
    requires SamePeople(PeopleOf(g.rows, g.flags), people)
    ensures Consistent(expected, ApplyRatings(expected, PutGame(t, room, g), g.id, people))
            <==> Computed(expected, PutGame(t, room, g)) == Spot(expected, t, g.id, people)
  {
    var stored := PutGame(t, room, g);
    var after := ApplyRatings(expected, stored, g.id, people);
    var replayed, spot := Computed(expected, stored), Spot(expected, t, g.id, people);
    if replayed == spot {
      SpotKeepsConsistent(expected, t, room, g, people);
    } else if Consistent(expected, after) {
      RegisteredAlike(t.users, people, |people|);
      ApplySameHistory(expected, stored, g.id, people);
      SameHistorySameRatings(expected, after, stored);
      assert replayed.users == after.users;
      assert after.users == spot.users;
      forall id, uid ensures PairAt(replayed.pairs, id, uid) == PairAt(spot.pairs, id, uid) {
        if HasRow(stored, id, uid) {
          RowShowsBoth(expected, t, room, g, people, id, uid);
        } else if PairAt(spot.pairs, id, uid).Some? {
          SpotHasRow(expected, t, room, g, people, id, uid);
        } else if PairAt(replayed.pairs, id, uid).Some? {
          NotedHasRow(expected, stored, id, uid);
        }
      }
      SameBooks(replayed, spot);
    }
  }

  // ----- A game finished at any time -----

  // How often an event stands in the history of the games.
  ghost function Occurrences(games: seq<GameRow>, e: Event): nat {
    multiset(GameEvents(games))[e]
  }

  lemma OccurrencesSnoc(games: seq<GameRow>, e: Event)
    requires games != []
    ensures var n := |games| - 1;
            Occurrences(games, e)
            == Occurrences(games[..n], e) + if Counts(games[n]) && e == GameEvent(games[n]) then 1 else 0
  {
  }

  lemma NoOccurrence(games: seq<GameRow>, e: Event)
    requires e !in GameEvents(games)
    ensures Occurrences(games, e) == 0
  {
    assert e !in multiset(GameEvents(games));
  }

  lemma {:induction false} EventOnce(games: seq<GameRow>, e: Event)
    requires forall i, j :: 0 <= i < j < |games| ==> games[i].id != games[j].id
    ensures Occurrences(games, e) <= 1
  {
    hide Occurrences, GameEvents;
    if games == [] {
      NothingOccurs(e);
    } else {
      var n := |games| - 1;
      EventOnce(games[..n], e);
      OccurrencesSnoc(games, e);
      GameEventsIn(games[..n], e);
      if Counts(games[n]) && e == GameEvent(games[n]) {
        NoOccurrence(games[..n], e);
      }
    }
  }

  lemma NothingOccurs(e: Event)
    ensures Occurrences([], e) == 0
  {
  }

  lemma TwiceCounted(events: seq<Event>, i: nat, j: nat)
    requires i < j < |events| && events[i] == events[j]
    ensures multiset(events)[events[i]] >= 2
  {
    var head, rest := events[..j], events[j..];
    assert events == head + rest;
    assert head[i] in multiset(head) && rest[0] in multiset(rest);
    assert multiset(events) == multiset(head) + multiset(rest);
  }

  // In the timeline a game stands once.
  lemma TimelineDistinct(t: Tables)
    requires Sound(t)
    ensures DistinctGames(TimelineOf(t))
  {
    var events := TimelineOf(t);
    SortIsChronological(EventsOf(t));
    forall i, j | 0 <= i < j < |events| && events[i].Played? && events[j].Played?
      ensures events[i].id != events[j].id
    {
      if events[i].id == events[j].id {
        PlayedOnce(t, events[i], events[j]);
        TwiceCounted(events, i, j);
      }
    }
  }

  lemma GameOf(t: Tables, e: Event) returns (i: nat)
    requires e in TimelineOf(t) && e.Played?
    ensures i < |t.games| && Counts(t.games[i]) && e == GameEvent(t.games[i])
  {
    SortedIn(EventsOf(t), e);
    GameEventsIn(t.games, e);
    i :| 0 <= i < |t.games| && Counts(t.games[i]) && e == GameEvent(t.games[i]);
  }

  lemma PlayedOnce(t: Tables, e: Event, f: Event)
    requires Sound(t) && e in TimelineOf(t) && f in TimelineOf(t) && e.Played? && f.Played? && e.id == f.id
    ensures e == f && multiset(EventsOf(t))[e] == 1
  {
    var i := GameOf(t, e);
    var j := GameOf(t, f);
    assert i == j;
    hide TimelineOf;
    SortedIn(EventsOf(t), e);
    GameEventsIn(t.games, e);
    EventOnce(t.games, e);
    OccursOnce(t, e);
  }

  lemma OccursOnce(t: Tables, e: Event)
    requires e.Played? && e in GameEvents(t.games) && Occurrences(t.games, e) <= 1
    ensures multiset(EventsOf(t))[e] == 1
  {
    assert e !in AdjustmentEvents(t.adjustments);
    assert multiset(EventsOf(t)) == multiset(GameEvents(t.games)) + multiset(AdjustmentEvents(t.adjustments));
    assert e in multiset(GameEvents(t.games));
  }

  // Every event is before or behind a game with a new id.
  lemma OneSide(t: Tables, id: nat, now: int, people: seq<Person>, x: Event)
    requires x in EventsOf(t) && forall i :: 0 <= i < |t.games| && Counts(t.games[i]) ==> t.games[i].id != id
    ensures Earlier(x, Played(now, id, people)) || Earlier(Played(now, id, people), x)
    ensures x.Played? ==> x.id != id
  {
    if x in GameEvents(t.games) {
      GameEventsIn(t.games, x);
    }
  }

  // The id of the game a room's data goes to is not that of a game that counts.
  lemma SlotUncounted(t: Tables, room: string)
    requires Sound(t)
    ensures forall i :: 0 <= i < |t.games| && Counts(t.games[i]) ==> t.games[i].id != SlotGame(t, room).id
  {
  }

  // The replay with the game: everything ahead of it, the game, everything behind it.
  lemma SplitsAt(t: Tables, room: string, g: GameRow, people: seq<Person>)
    requires Sound(t) && Counts(g) && g.id == SlotGame(t, room).id
    ensures var lo := Ahead(TimelineOf(t), Played(g.time, g.id, people));
            var hi := Behind(TimelineOf(t), Played(g.time, g.id, people));
            && TimelineOf(t) == lo + hi && TimelineOf(PutGame(t, room, g)) == lo + [GameEvent(g)] + hi
            && Absent(hi, g.id) && DistinctGames(hi)
  {
    var p, q := GameEvent(g), Played(g.time, g.id, people);
    var a, b := EventsPut(t, room, g);
    SlotUncounted(t, room);
    forall x | x in a + b ensures Earlier(x, p) || Earlier(p, x) {
      OneSide(t, g.id, g.time, people, x);
    }
    var lo, hi := TimelineSplits(a, p, b);
    SplitFilters(lo, hi, q);
    TimelineDistinct(t);
    DistinctParts(lo, hi);
    forall e | e in hi && e.Played? ensures e.id != g.id {
      assert e in lo + hi;
      SortedIn(EventsOf(t), e);
      OneSide(t, g.id, g.time, people, e);
    }
  }

  // The book of everything ahead of a game.
  ghost function BookAhead(expected: Expected, t: Tables, p: Event): Book {
    Replay(expected, Book(Newcomers(t.users), map[]), Ahead(TimelineOf(t), p))
  }

  lemma ReplayThrough(expected: Expected, start: Book, lo: seq<Event>, p: Event, hi: seq<Event>)
    ensures Replay(expected, start, lo + hi) == Replay(expected, Replay(expected, start, lo), hi)
    ensures Replay(expected, start, lo + [p] + hi)
            == Replay(expected, Step(expected, Replay(expected, start, lo), p), hi)
  {
    ReplayConcat(expected, start, lo, hi);
    ReplayConcat(expected, start, lo + [p], hi);
    ReplaySnoc(expected, start, lo, p);
  }

  lemma ReplayAround(expected: Expected, t: Tables, room: string, g: GameRow, people: seq<Person>)
    requires Sound(t) && Counts(g) && g.id == SlotGame(t, room).id && SamePeople(PeopleOf(g.rows, g.flags), people)
    ensures var p := Played(g.time, g.id, people);
            var b, later := BookAhead(expected, t, p), Behind(TimelineOf(t), p);
            && Computed(expected, t) == Replay(expected, b, later)
            && Computed(expected, PutGame(t, room, g))
               == Replay(expected, RateGame(expected, b, g.id, people), later)
  {
    var p, start := Played(g.time, g.id, people), Book(Newcomers(t.users), map[]);
    var lo, hi, b := Ahead(TimelineOf(t), p), Behind(TimelineOf(t), p), BookAhead(expected, t, p);
    SplitsAt(t, room, g, people);
    assert Newcomers(PutGame(t, room, g).users) == Newcomers(t.users);
    assert Step(expected, b, GameEvent(g)) == RateGame(expected, b, g.id, people) by {
      RateSamePeople(expected, b, g.id, PeopleOf(g.rows, g.flags), people);
    }
    hide Ahead, Behind, TimelineOf, Replay, Step, RateGame, DistinctGames, Absent, Newcomers, PutGame, Sound, SlotGame;
    ReplayThrough(expected, start, lo, GameEvent(g), hi);
  }

  // What finishing a game now needs of the history: whatever stands behind it is harmless.
  ghost predicate HarmlessNow(expected: Expected, t: Tables, id: nat, people: seq<Person>, now: int) {
    var p := Played(now, id, people);
    Harmless(expected, BookAhead(expected, t, p), people, Behind(TimelineOf(t), p))
  }

  lemma SpotIff(expected: Expected, t: Tables, room: string, g: GameRow, people: seq<Person>)
    requires Consistent(expected, t) && Sound(t) && Counts(g)
    requires g.id == SlotGame(t, room).id && Unrated(g.rows) && SamePeople(PeopleOf(g.rows, g.flags), people)
    ensures Consistent(expected, ApplyRatings(expected, PutGame(t, room, g), g.id, people))
            <==> HarmlessNow(expected, t, g.id, people, g.time)
  {
    var p := Played(g.time, g.id, people);
    SplitsAt(t, room, g, people);
    ReplayAround(expected, t, room, g, people);
    ConsistentIffSpot(expected, t, room, g, people);
    RatedBehindIff(expected, BookAhead(expected, t, p), g.id, people, Behind(TimelineOf(t), p));
    assert Computed(expected, t) == Book(t.users, Computed(expected, t).pairs);
  }

  /**
   A game finished at any time, whatever the tables say happened at that time or later, leaves the cache right
   exactly when what stands behind it in the history is harmless: fewer than two of its people are rated, or those
   who are have the same ratings now as before all that, and whoever of them was rated in a later game neither wins
   nor loses here and would have won or lost as much there with one more game.
   */
  lemma FinishAnywhereIff(expected: Expected, t: Tables, room: string, flags: map<string, bool>, people: seq<Person>,
                          now: int)
    requires Consistent(expected, t) && Sound(t) && Matching(SlotGame(t, room).rows, people, flags)
    ensures Consistent(expected, FinishGame(expected, t, room, flags, people, false, now))
            <==> HarmlessNow(expected, t, SlotGame(t, room).id, people, now)
  {
    var g := Stored(t, room, Finished, flags, people, false, now);
    var rows := SlotGame(t, room).rows;
    SlotUnrated(expected, t, room);
    UpsertUnrated(rows, people, |people|);
    SlotDistinct(t, room);
    MatchingPeople(rows, people, flags);
    SpotIff(expected, t, room, g, people);
  }
}
