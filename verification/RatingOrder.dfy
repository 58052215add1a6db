/**
 What a rated game does to each user, and why it does not matter in which order its participants are listed
 when they are different users.
 */
module RatingOrder {
  import opened Results
  import opened Orders
  import opened Elo
  import opened Ratings

  // The last entry of a user among the first n.
  ghost function EntryTo(ranked: seq<Entry>, n: nat, uid: int): Option<Entry>
    requires n <= |ranked|
  {
    if n == 0 then None else if ranked[n - 1].uid == uid then Some(ranked[n - 1]) else EntryTo(ranked, n - 1, uid)
  }

  ghost function EntryOf(ranked: seq<Entry>, uid: int): Option<Entry> {
    EntryTo(ranked, |ranked|, uid)
  }

  lemma {:induction false} EntryToIn(ranked: seq<Entry>, n: nat, uid: int, a: Entry)
    requires DistinctUsers(ranked) && n <= |ranked|
    ensures EntryTo(ranked, n, uid) == Some(a) <==> a in ranked[..n] && a.uid == uid
  {
    if n > 0 {
      EntryToIn(ranked, n - 1, uid, a);
      assert ranked[..n] == ranked[..n - 1] + [ranked[n - 1]];
    }
  }

  lemma EntryIn(ranked: seq<Entry>, uid: int, a: Entry)
    requires DistinctUsers(ranked)
    ensures EntryOf(ranked, uid) == Some(a) <==> a in ranked && a.uid == uid
  {
    assert ranked[..|ranked|] == ranked;
    EntryToIn(ranked, |ranked|, uid, a);
  }

  // ----- What happens to one user -----

  ghost function Raised(expected: Expected, ranked: seq<Entry>, a: Entry): Standing {
    Standing(a.rating + Change(expected, ranked, a), a.games + 1)
  }

  ghost function Noted(expected: Expected, ranked: seq<Entry>, a: Entry): (int, int) {
    (a.rating, a.rating + Change(expected, ranked, a))
  }

  lemma {:induction false} RatedIs(expected: Expected, users: map<int, Standing>, ranked: seq<Entry>, n: nat, uid: int)
    requires n <= |ranked|
    ensures var e, rated := EntryTo(ranked, n, uid), RatedTo(expected, users, ranked, n);
            && (uid in rated <==> uid in users || e.Some?)
            && (e.Some? ==> uid in rated && rated[uid] == Raised(expected, ranked, e.value))
            && (e.None? && uid in users ==> rated[uid] == users[uid])
  {
    if n > 0 {
      RatedIs(expected, users, ranked, n - 1, uid);
    }
  }

  lemma {:induction false} PairsIs(expected: Expected, pairs: Pairs, id: nat, ranked: seq<Entry>, n: nat, other: nat,
                                   uid: int)
    requires n <= |ranked|
    ensures var e := EntryTo(ranked, n, uid);
            PairAt(PairsTo(expected, pairs, id, ranked, n), other, uid)
            == if other == id && e.Some? then Some(Noted(expected, ranked, e.value)) else PairAt(pairs, other, uid)
  {
    if n > 0 {
      PairsIs(expected, pairs, id, ranked, n - 1, other, uid);
    }
  }

  // A rated game, seen by user.
  lemma RateUser(expected: Expected, b: Book, id: nat, ranked: seq<Entry>, uid: int)
    requires |ranked| >= 2
    ensures var e, rated := EntryOf(ranked, uid), Rate(expected, b, id, ranked).users;
            && (uid in rated <==> uid in b.users || e.Some?)
            && (e.Some? ==> uid in rated && rated[uid] == Raised(expected, ranked, e.value))
            && (e.None? && uid in b.users ==> rated[uid] == b.users[uid])
  {
    RatedIs(expected, b.users, ranked, |ranked|, uid);
  }

  lemma RatePair(expected: Expected, b: Book, id: nat, ranked: seq<Entry>, other: nat, uid: int)
    requires |ranked| >= 2
    ensures var e := EntryOf(ranked, uid);
            PairAt(Rate(expected, b, id, ranked).pairs, other, uid)
            == if other == id && e.Some? then Some(Noted(expected, ranked, e.value)) else PairAt(b.pairs, other, uid)
  {
    PairsIs(expected, b.pairs, id, ranked, |ranked|, other, uid);
  }

  /** Two books are the same when they say the same of every user and every game. */
  lemma SameBooks(a: Book, b: Book)
    requires a.users == b.users && forall id, uid :: PairAt(a.pairs, id, uid) == PairAt(b.pairs, id, uid)
    ensures a == b
  {
    forall key: (nat, int)
      ensures (key in a.pairs <==> key in b.pairs) && (key in a.pairs ==> a.pairs[key] == b.pairs[key])
    {
      assert PairAt(a.pairs, key.0, key.1) == PairAt(b.pairs, key.0, key.1);
      assert key == (key.0, key.1);
    }
  }

  // ----- The order of the ranked -----

  ghost function Term(expected: Expected, a: Entry, b: Entry): real {
    if b.uid == a.uid then 0.0 else Surplus(expected, a, b)
  }

  lemma {:induction false} TotalPrefix(expected: Expected, x: seq<Entry>, y: seq<Entry>, a: Entry, n: nat)
    requires n <= |x| && n <= |y| && forall i :: 0 <= i < n ==> x[i] == y[i]
    ensures TotalTo(expected, x, a, n) == TotalTo(expected, y, a, n)
  {
    if n > 0 {
      TotalPrefix(expected, x, y, a, n - 1);
    }
  }

  lemma {:induction false} TotalDrops(expected: Expected, x: seq<Entry>, a: Entry, i: nat, n: nat)
    requires i < n <= |x|
    ensures TotalTo(expected, x, a, n) == TotalTo(expected, Dropped(x, i), a, n - 1) + Term(expected, a, x[i])
  {
    var d := Dropped(x, i);
    if i == n - 1 {
      TotalPrefix(expected, x, d, a, n - 1);
    } else {
      TotalDrops(expected, x, a, i, n - 1);
      assert d[n - 2] == x[n - 1];
    }
  }

  lemma {:induction false} TotalPermutes(expected: Expected, x: seq<Entry>, y: seq<Entry>, a: Entry)
    requires multiset(x) == multiset(y)
    ensures |x| == |y| && TotalTo(expected, x, a, |x|) == TotalTo(expected, y, a, |y|)
    decreases |x|
  {
    assert |multiset(x)| == |multiset(y)|;
    if x != [] {
      var i := DropSame(x, y);
      var front := x[..|x| - 1];
      TotalPermutes(expected, front, Dropped(y, i), a);
      TotalDrops(expected, y, a, i, |y|);
      TotalPrefix(expected, x, front, a, |front|);
    }
  }

  lemma ChangePermutes(expected: Expected, x: seq<Entry>, y: seq<Entry>, a: Entry)
    requires multiset(x) == multiset(y)
    ensures Change(expected, x, a) == Change(expected, y, a)
  {
    TotalPermutes(expected, x, y, a);
  }

  lemma EntryPermutes(x: seq<Entry>, y: seq<Entry>, uid: int)
    requires multiset(x) == multiset(y) && DistinctUsers(x) && DistinctUsers(y)
    ensures EntryOf(x, uid) == EntryOf(y, uid)
  {
    if EntryOf(x, uid).Some? {
      EntryIn(x, uid, EntryOf(x, uid).value);
      SameCounts(x, y, EntryOf(x, uid).value);
      EntryIn(y, uid, EntryOf(x, uid).value);
    } else if EntryOf(y, uid).Some? {
      EntryIn(y, uid, EntryOf(y, uid).value);
      SameCounts(x, y, EntryOf(y, uid).value);
      EntryIn(x, uid, EntryOf(y, uid).value);
    }
  }

  /** A game is rated the same in whatever order the ranked are listed. */
  lemma RatePermutes(expected: Expected, b: Book, id: nat, x: seq<Entry>, y: seq<Entry>)
    requires multiset(x) == multiset(y) && DistinctUsers(x) && DistinctUsers(y)
    ensures Rate(expected, b, id, x) == Rate(expected, b, id, y)
  {
    assert |multiset(x)| == |multiset(y)|;
    if |x| >= 2 {
      var p, q := Rate(expected, b, id, x), Rate(expected, b, id, y);
      forall uid ensures (uid in p.users <==> uid in q.users) && (uid in p.users ==> p.users[uid] == q.users[uid]) {
        UserPermutes(expected, b, id, x, y, uid);
      }
      forall other, uid ensures PairAt(p.pairs, other, uid) == PairAt(q.pairs, other, uid) {
        PairPermutes(expected, b, id, x, y, other, uid);
      }
      assert p.users == q.users;
      SameBooks(p, q);
    }
  }

  lemma UserPermutes(expected: Expected, b: Book, id: nat, x: seq<Entry>, y: seq<Entry>, uid: int)
    requires multiset(x) == multiset(y) && DistinctUsers(x) && DistinctUsers(y) && |x| >= 2 && |y| >= 2
    ensures var p, q := Rate(expected, b, id, x).users, Rate(expected, b, id, y).users;
            (uid in p <==> uid in q) && (uid in p ==> p[uid] == q[uid])
  {
    EntryPermutes(x, y, uid);
    RateUser(expected, b, id, x, uid);
    RateUser(expected, b, id, y, uid);
    hide Rate, Change, EntryOf;
    if EntryOf(x, uid).Some? {
      ChangePermutes(expected, x, y, EntryOf(x, uid).value);
    }
  }

  lemma PairPermutes(expected: Expected, b: Book, id: nat, x: seq<Entry>, y: seq<Entry>, other: nat, uid: int)
    requires multiset(x) == multiset(y) && DistinctUsers(x) && DistinctUsers(y) && |x| >= 2 && |y| >= 2
    ensures PairAt(Rate(expected, b, id, x).pairs, other, uid) == PairAt(Rate(expected, b, id, y).pairs, other, uid)
  {
    EntryPermutes(x, y, uid);
    RatePair(expected, b, id, x, other, uid);
    RatePair(expected, b, id, y, other, uid);
    hide Rate, Change, EntryOf, PairAt;
    if EntryOf(x, uid).Some? {
      ChangePermutes(expected, x, y, EntryOf(x, uid).value);
    }
  }

  // ----- The order of the people -----

  // No two of them are the same registered user.
  ghost predicate DistinctUids(people: seq<Person>) {
    forall i, j :: 0 <= i < j < |people| && people[i].uid.Some? ==> people[i].uid != people[j].uid
  }

  // The same people; in another order only when all are different users.
  ghost predicate SamePeople(x: seq<Person>, y: seq<Person>) {
    multiset(x) == multiset(y) && (x == y || (DistinctUids(x) && DistinctUids(y)))
  }

  predicate IsRanked(users: map<int, Standing>, p: Person) {
    p.uid.Some? && p.uid.value in users
  }

  function RankedEntry(users: map<int, Standing>, p: Person): Entry
    requires IsRanked(users, p)
  {
    Entry(p.uid.value, users[p.uid.value].rating, users[p.uid.value].games,
          if p.resigned then RESIGNED_SCORE else p.score)
  }

  // The ranked are users, each listed once, with their present standing.
  lemma {:induction false} RankedFacts(users: map<int, Standing>, people: seq<Person>, n: nat)
    requires n <= |people|
    ensures var ranked := RankedTo(users, people, n);
            && DistinctUsers(ranked)
            && forall i :: 0 <= i < |ranked| ==>
                 ranked[i].uid in users && users[ranked[i].uid] == Standing(ranked[i].rating, ranked[i].games)
  {
    if n > 0 {
      RankedFacts(users, people, n - 1);
    }
  }

  // With different users everyone who is registered is ranked.
  lemma {:induction false} RankedAre(users: map<int, Standing>, people: seq<Person>, n: nat, a: Entry)
    requires n <= |people| && DistinctUids(people)
    ensures a in RankedTo(users, people, n) <==>
              exists i :: 0 <= i < n && IsRanked(users, people[i]) && a == RankedEntry(users, people[i])
  {
    if n > 0 {
      RankedAre(users, people, n - 1, a);
      var p, before := people[n - 1], RankedTo(users, people, n - 1);
      if IsRanked(users, p) {
        forall i | 0 <= i < |before| ensures before[i].uid != p.uid.value {
          RankedAre(users, people, n - 1, before[i]);
          assert before[i] in before;
        }
        assert RankedTo(users, people, n) == before + [RankedEntry(users, p)];
      }
    }
  }

  lemma RankedPermutes(users: map<int, Standing>, x: seq<Person>, y: seq<Person>)
    requires multiset(x) == multiset(y) && DistinctUids(x) && DistinctUids(y)
    ensures multiset(Ranked(users, x)) == multiset(Ranked(users, y))
  {
    RankedFacts(users, x, |x|);
    RankedFacts(users, y, |y|);
    forall a ensures a in Ranked(users, x) <==> a in Ranked(users, y) {
      RankedIncluded(users, x, y, a);
      RankedIncluded(users, y, x, a);
    }
    SameElements(Ranked(users, x), Ranked(users, y));
  }

  lemma RankedIncluded(users: map<int, Standing>, x: seq<Person>, y: seq<Person>, a: Entry)
    requires multiset(x) == multiset(y) && DistinctUids(x) && DistinctUids(y)
    ensures a in Ranked(users, x) ==> a in Ranked(users, y)
  {
    RankedAre(users, x, |x|, a);
    RankedAre(users, y, |y|, a);
    if a in Ranked(users, x) {
      var i :| 0 <= i < |x| && IsRanked(users, x[i]) && a == RankedEntry(users, x[i]);
      assert x[i] in x;
      SameCounts(x, y, x[i]);
      var j :| 0 <= j < |y| && y[j] == x[i];
    }
  }

  /** A game is rated the same in whatever order its different users are listed. */
  lemma RateSamePeople(expected: Expected, b: Book, id: nat, x: seq<Person>, y: seq<Person>)
    requires SamePeople(x, y)
    ensures Rate(expected, b, id, Ranked(b.users, x)) == Rate(expected, b, id, Ranked(b.users, y))
    ensures |Ranked(b.users, x)| == |Ranked(b.users, y)|
  {
    if x != y {
      RankedFacts(b.users, x, |x|);
      RankedFacts(b.users, y, |y|);
      RankedPermutes(b.users, x, y);
      RatePermutes(expected, b, id, Ranked(b.users, x), Ranked(b.users, y));
      assert |multiset(Ranked(b.users, x))| == |multiset(Ranked(b.users, y))|;
    }
  }
}
