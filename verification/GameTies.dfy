/** Two games rated one after the other: when their order does not matter. */
module GameTies {
  import opened Results
  import opened Orders
  import opened Elo
  import opened Ratings
  import opened RatingOrder
  import opened Rosters
  import opened RatingLaws
  import opened Timelines

  // ----- What the number of rated games does to a change -----

  ghost predicate AlikeButGames(a: Entry, c: Entry) {
    a.uid == c.uid && a.rating == c.rating && a.score == c.score
  }

  ghost predicate SameButGames(x: seq<Entry>, y: seq<Entry>) {
    |x| == |y| && forall i :: 0 <= i < |x| ==> AlikeButGames(x[i], y[i])
  }

  lemma {:induction false} TotalSame(expected: Expected, x: seq<Entry>, y: seq<Entry>, a: Entry, c: Entry, n: nat)
    requires SameButGames(x, y) && AlikeButGames(a, c) && n <= |x|
    ensures TotalTo(expected, x, a, n) == TotalTo(expected, y, c, n)
  {
    if n > 0 {
      TotalSame(expected, x, y, a, c, n - 1);
      assert AlikeButGames(x[n - 1], y[n - 1]);
    }
  }

  lemma ChangeSame(expected: Expected, x: seq<Entry>, y: seq<Entry>, a: Entry, c: Entry)
    requires SameButGames(x, y) && AlikeButGames(a, c) && a.games == c.games
    ensures Change(expected, x, a) == Change(expected, y, c)
  {
    TotalSame(expected, x, y, a, c, |x|);
  }

  // A smaller K shrinks the share.
  lemma ShareShrinks(total: real, opponents: int)
    requires opponents > 0
    ensures PerOpponent(K_ESTABLISHED, total, opponents) == PerOpponent(K_PROVISIONAL, total, opponents) * 0.625
  {
    var n := opponents as real;
    assert 20.0 * total / n == (32.0 * total / n) * 0.625;
  }

  /** Who wins and loses nothing does so with more rated games, too: K never grows. */
  lemma ZeroStaysZero(expected: Expected, x: seq<Entry>, y: seq<Entry>, a: Entry, c: Entry)
    requires SameButGames(x, y) && AlikeButGames(a, c) && c.games >= a.games
    requires Change(expected, x, a) == 0
    ensures Change(expected, y, c) == 0
  {
    TotalSame(expected, x, y, a, c, |x|);
    if |x| >= 2 {
      ShareShrinks(TotalTo(expected, x, a, |x|), |x| - 1);
    }
  }

  // ----- Two games in either order -----

  ghost function RateGame(expected: Expected, b: Book, id: nat, people: seq<Person>): Book {
    Rate(expected, b, id, Ranked(b.users, people))
  }

  // Whoever is rated in both games neither wins nor loses in the first.
  ghost predicate KeepsShared(expected: Expected, users: map<int, Standing>, h: seq<Person>, p: seq<Person>) {
    forall a :: a in Ranked(users, h) && EntryOf(Ranked(users, p), a.uid).Some? ==>
      Change(expected, Ranked(users, h), a) == 0
  }

  // Two rated games in which those who play both keep their ratings.
  ghost predicate Independent(expected: Expected, users: map<int, Standing>, h: seq<Person>, p: seq<Person>) {
    && |Ranked(users, h)| >= 2 && |Ranked(users, p)| >= 2
    && KeepsShared(expected, users, h, p) && KeepsShared(expected, users, p, h)
  }

  lemma GameAt(expected: Expected, b: Book, id: nat, people: seq<Person>, uid: int)
    requires |Ranked(b.users, people)| >= 2
    ensures var ranked := Ranked(b.users, people);
            var e, r := EntryOf(ranked, uid), RateGame(expected, b, id, people);
            && (uid in r.users <==> uid in b.users)
            && (e.Some? ==> uid in b.users && e.value.uid == uid && e.value in ranked
                            && b.users[uid] == Standing(e.value.rating, e.value.games)
                            && r.users[uid] == Raised(expected, ranked, e.value))
            && (uid in b.users && e.None? ==> r.users[uid] == b.users[uid])
  {
    RateAt(expected, b, id, people, uid);
    RankedFacts(b.users, people, |people|);
    if EntryOf(Ranked(b.users, people), uid).Some? {
      EntryIn(Ranked(b.users, people), uid, EntryOf(Ranked(b.users, people), uid).value);
    }
  }

  lemma GameKeys(expected: Expected, b: Book, id: nat, people: seq<Person>)
    ensures RateGame(expected, b, id, people).users.Keys == b.users.Keys
  {
    StepKeys(expected, b, Played(0, id, people));
  }

  // The same people are ranked after another game.
  lemma RankedAgain(expected: Expected, b: Book, id: nat, h: seq<Person>, p: seq<Person>, uid: int)
    ensures var x, y := Ranked(b.users, p), Ranked(RateGame(expected, b, id, h).users, p);
            && Aligned(x, y)
            && (EntryOf(x, uid).Some? <==> EntryOf(y, uid).Some?)
            && (EntryOf(x, uid).Some? ==> EntryOf(x, uid).value.score == EntryOf(y, uid).value.score)
  {
    GameKeys(expected, b, id, h);
    RankedAligned(b.users, RateGame(expected, b, id, h).users, p, |p|);
    EntryAligned(Ranked(b.users, p), Ranked(RateGame(expected, b, id, h).users, p), |Ranked(b.users, p)|, uid);
  }

  // After the game h the ranked of the game p have the same ratings.
  lemma RatingsKept(expected: Expected, b: Book, id: nat, h: seq<Person>, p: seq<Person>)
    requires |Ranked(b.users, h)| >= 2 && KeepsShared(expected, b.users, h, p)
    ensures SameButGames(Ranked(b.users, p), Ranked(RateGame(expected, b, id, h).users, p))
  {
    var after := RateGame(expected, b, id, h);
    var x, y := Ranked(b.users, p), Ranked(after.users, p);
    RankedAgain(expected, b, id, h, p, 0);
    RankedFacts(b.users, p, |p|);
    RankedFacts(after.users, p, |p|);
    hide RateGame;
    forall i | 0 <= i < |x| ensures AlikeButGames(x[i], y[i]) {
      EntryIn(x, x[i].uid, x[i]);
      GameAt(expected, b, id, h, x[i].uid);
    }
  }

  // Who plays p has the same change there before and after the game h.
  lemma ChangeKept(expected: Expected, b: Book, id: nat, h: seq<Person>, p: seq<Person>, uid: int)
    requires Independent(expected, b.users, h, p)
    ensures var x, y := Ranked(b.users, p), Ranked(RateGame(expected, b, id, h).users, p);
            var e, f := EntryOf(x, uid), EntryOf(y, uid);
            && (e.Some? <==> f.Some?)
            && (e.Some? ==>
                  && e.value.rating == f.value.rating && Change(expected, x, e.value) == Change(expected, y, f.value)
                  && f.value.games == e.value.games + if EntryOf(Ranked(b.users, h), uid).Some? then 1 else 0)
  {
    var after := RateGame(expected, b, id, h);
    var x, y := Ranked(b.users, p), Ranked(after.users, p);
    var e, f := EntryOf(x, uid), EntryOf(y, uid);
    RatingsKept(expected, b, id, h, p);
    RankedAgain(expected, b, id, h, p, uid);
    GameAt(expected, b, id, h, uid);
    GameAt(expected, b, id, p, uid);
    GameAt(expected, after, id, p, uid);
    if e.Some? && EntryOf(Ranked(b.users, h), uid).Some? {
      ZeroStaysZero(expected, x, y, e.value, f.value);
    } else if e.Some? {
      ChangeSame(expected, x, y, e.value, f.value);
    }
  }

  // One user after both games in either order.
  lemma UserCommutes(expected: Expected, b: Book, first: nat, h: seq<Person>, second: nat, p: seq<Person>, uid: int)
    requires Independent(expected, b.users, h, p)
    ensures var x := RateGame(expected, RateGame(expected, b, first, h), second, p).users;
            var y := RateGame(expected, RateGame(expected, b, second, p), first, h).users;
            (uid in x <==> uid in y) && (uid in x ==> x[uid] == y[uid])
  {
    var after, alone := RateGame(expected, b, first, h), RateGame(expected, b, second, p);
    RankedAgain(expected, b, first, h, p, uid);
    RankedAgain(expected, b, second, p, h, uid);
    ChangeKept(expected, b, first, h, p, uid);
    ChangeKept(expected, b, second, p, h, uid);
    GameAt(expected, b, first, h, uid);
    GameAt(expected, b, second, p, uid);
    hide RateGame, Change;
    GameAt(expected, after, second, p, uid);
    GameAt(expected, alone, first, h, uid);
  }

  // What is noted for a user with any game, after both games in either order.
  lemma PairCommutes(expected: Expected, b: Book, first: nat, h: seq<Person>, second: nat, p: seq<Person>,
                     id: nat, uid: int)
    requires Independent(expected, b.users, h, p) && first != second
    ensures PairAt(RateGame(expected, RateGame(expected, b, first, h), second, p).pairs, id, uid)
            == PairAt(RateGame(expected, RateGame(expected, b, second, p), first, h).pairs, id, uid)
  {
    var after, alone := RateGame(expected, b, first, h), RateGame(expected, b, second, p);
    RankedAgain(expected, b, first, h, p, uid);
    RankedAgain(expected, b, second, p, h, uid);
    ChangeKept(expected, b, first, h, p, uid);
    ChangeKept(expected, b, second, p, h, uid);
    RatePairAt(expected, b, first, h, id, uid);
    RatePairAt(expected, b, second, p, id, uid);
    RatePairAt(expected, after, second, p, id, uid);
    RatePairAt(expected, alone, first, h, id, uid);
  }

  // When the same is noted for the second game in either order, the first one has moved none of its players.
  lemma NotedKeeps(expected: Expected, b: Book, first: nat, h: seq<Person>, second: nat, p: seq<Person>, a: Entry)
    requires |Ranked(b.users, h)| >= 2 && |Ranked(b.users, p)| >= 2 && first != second
    requires a in Ranked(b.users, h) && EntryOf(Ranked(b.users, p), a.uid).Some?
    requires PairAt(RateGame(expected, RateGame(expected, b, first, h), second, p).pairs, second, a.uid)
             == PairAt(RateGame(expected, RateGame(expected, b, second, p), first, h).pairs, second, a.uid)
    ensures Change(expected, Ranked(b.users, h), a) == 0
  {
    var after, alone := RateGame(expected, b, first, h), RateGame(expected, b, second, p);
    var uid := a.uid;
    RankedFacts(b.users, h, |h|);
    EntryIn(Ranked(b.users, h), uid, a);
    RankedAgain(expected, b, first, h, p, uid);
    GameAt(expected, b, first, h, uid);
    GameAt(expected, b, second, p, uid);
    GameAt(expected, after, second, p, uid);
    RatePairAt(expected, b, second, p, second, uid);
    RatePairAt(expected, after, second, p, second, uid);
    RatePairAt(expected, alone, first, h, second, uid);
  }

  lemma SmallGame(expected: Expected, b: Book, first: nat, h: seq<Person>, second: nat, p: seq<Person>)
    requires |Ranked(b.users, h)| < 2 || |Ranked(b.users, p)| < 2
    ensures RateGame(expected, RateGame(expected, b, first, h), second, p)
            == RateGame(expected, RateGame(expected, b, second, p), first, h)
  {
    RankedAgain(expected, b, first, h, p, 0);
    RankedAgain(expected, b, second, p, h, 0);
  }

  // The order of two games does not matter to the users rated in both.
  ghost predicate Exchangeable(expected: Expected, users: map<int, Standing>, h: seq<Person>, p: seq<Person>) {
    |Ranked(users, h)| < 2 || |Ranked(users, p)| < 2 || Independent(expected, users, h, p)
  }

  /** The order of two games does not matter exactly when whoever plays both neither wins nor loses in either. */
  lemma GamesCommute(expected: Expected, b: Book, first: nat, h: seq<Person>, second: nat, p: seq<Person>)
    requires first != second
    ensures RateGame(expected, RateGame(expected, b, first, h), second, p)
            == RateGame(expected, RateGame(expected, b, second, p), first, h)
            <==> Exchangeable(expected, b.users, h, p)
  {
    var x := RateGame(expected, RateGame(expected, b, first, h), second, p);
    var y := RateGame(expected, RateGame(expected, b, second, p), first, h);
    if |Ranked(b.users, h)| < 2 || |Ranked(b.users, p)| < 2 {
      SmallGame(expected, b, first, h, second, p);
    } else if Independent(expected, b.users, h, p) {
      hide RateGame, Independent;
      forall uid ensures (uid in x.users <==> uid in y.users) && (uid in x.users ==> x.users[uid] == y.users[uid]) {
        UserCommutes(expected, b, first, h, second, p, uid);
      }
      assert x.users == y.users;
      forall id, uid ensures PairAt(x.pairs, id, uid) == PairAt(y.pairs, id, uid) {
        PairCommutes(expected, b, first, h, second, p, id, uid);
      }
      SameBooks(x, y);
    } else if x == y {
      CommutingKeeps(expected, b, first, h, second, p);
    }
  }

  lemma CommutingKeeps(expected: Expected, b: Book, first: nat, h: seq<Person>, second: nat, p: seq<Person>)
    requires |Ranked(b.users, h)| >= 2 && |Ranked(b.users, p)| >= 2 && first != second
    requires var x := RateGame(expected, RateGame(expected, b, first, h), second, p).pairs;
             var y := RateGame(expected, RateGame(expected, b, second, p), first, h).pairs;
             forall uid :: EntryOf(Ranked(b.users, h), uid).Some? && EntryOf(Ranked(b.users, p), uid).Some? ==>
               PairAt(x, first, uid) == PairAt(y, first, uid) && PairAt(x, second, uid) == PairAt(y, second, uid)
    ensures Independent(expected, b.users, h, p)
  {
    RankedFacts(b.users, h, |h|);
    RankedFacts(b.users, p, |p|);
    hide RateGame, Change, EntryOf;
    forall a | a in Ranked(b.users, h) && EntryOf(Ranked(b.users, p), a.uid).Some?
      ensures Change(expected, Ranked(b.users, h), a) == 0
    {
      EntryIn(Ranked(b.users, h), a.uid, a);
      NotedKeeps(expected, b, first, h, second, p, a);
    }
    forall a | a in Ranked(b.users, p) && EntryOf(Ranked(b.users, h), a.uid).Some?
      ensures Change(expected, Ranked(b.users, p), a) == 0
    {
      EntryIn(Ranked(b.users, p), a.uid, a);
      NotedKeeps(expected, b, second, p, first, h, a);
    }
  }
}
