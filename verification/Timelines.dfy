/**
 One more game in the timeline and in the replay: where it stands, what it does to each user, and which rows show
 what was noted with it.
 */
module Timelines {
  import opened Results
  import opened Orders
  import opened Elo
  import opened Ratings
  import opened RatingOrder
  import opened Rosters
  import opened RatingLaws

  // ----- The place of an event in the timeline -----

  lemma InsertSnoc(front: seq<Event>, last: Event, x: Event)
    ensures Insert(front + [last], x) == if Earlier(x, last) then Insert(front, x) + [last] else front + [last] + [x]
  {
    assert (front + [last])[..|front|] == front;
  }

  lemma {:induction false} InsertPassesOver(lo: seq<Event>, hi: seq<Event>, x: Event)
    requires forall y :: y in hi ==> Earlier(x, y)
    ensures Insert(lo + hi, x) == Insert(lo, x) + hi
  {
    if hi == [] {
      assert lo + hi == lo;
    } else {
      var front, last := hi[..|hi| - 1], hi[|hi| - 1];
      assert hi == front + [last] && lo + hi == lo + front + [last];
      InsertSnoc(lo + front, last, x);
      hide Insert;
      InsertPassesOver(lo, front, x);
    }
  }

  lemma Regroup(a: seq<Event>, b: seq<Event>, e: Event)
    ensures a + b + [e] == a + (b + [e])
  {
  }

  lemma {:induction false} InsertStaysBehind(lo: seq<Event>, hi: seq<Event>, x: Event)
    requires lo != [] ==> !Earlier(x, lo[|lo| - 1])
    ensures Insert(lo + hi, x) == lo + Insert(hi, x)
    decreases |hi|, 1
  {
    if hi == [] {
      assert lo + hi == lo;
    } else {
      var front, last := hi[..|hi| - 1], hi[|hi| - 1];
      assert hi == front + [last];
      StaysBehindOne(lo, front, last, x);
    }
  }

  lemma {:induction false} StaysBehindOne(lo: seq<Event>, front: seq<Event>, last: Event, x: Event)
    requires lo != [] ==> !Earlier(x, lo[|lo| - 1])
    ensures Insert(lo + (front + [last]), x) == lo + Insert(front + [last], x)
    decreases |front| + 1, 0
  {
    InsertSnoc(front, last, x);
    InsertSnoc(lo + front, last, x);
    Regroup(lo, front, last);
    Regroup(lo, front + [last], x);
    Regroup(lo, Insert(front, x), last);
    hide Insert;
    if Earlier(x, last) {
      InsertStaysBehind(lo, front, x);
    }
  }

  // The sorted events fall apart at the event p.
  ghost predicate Splits(sorted: seq<Event>, added: seq<Event>, lo: seq<Event>, p: Event, hi: seq<Event>) {
    && sorted == lo + hi && added == lo + [p] + hi
    && (forall x :: x in lo ==> Earlier(x, p))
    && (forall x :: x in hi ==> Earlier(p, x))
  }

  lemma {:induction false} InsertSplits(sorted: seq<Event>, p: Event) returns (lo: seq<Event>, hi: seq<Event>)
    requires Ascending(sorted) && forall x :: x in sorted ==> Earlier(x, p) || Earlier(p, x)
    ensures Splits(sorted, Insert(sorted, p), lo, p, hi)
  {
    if sorted != [] && Earlier(p, sorted[|sorted| - 1]) {
      var front, last := sorted[..|sorted| - 1], sorted[|sorted| - 1];
      assert sorted == front + [last];
      lo, hi := InsertSplits(front, p);
      hi := hi + [last];
      assert Insert(sorted, p) == Insert(front, p) + [last];
    } else {
      lo, hi := sorted, [];
      forall x | x in sorted ensures Earlier(x, p) {
        assert sorted[|sorted| - 1] in sorted;
      }
    }
  }

  lemma InsertOneMore(sorted: seq<Event>, added: seq<Event>, lo: seq<Event>, p: Event, hi: seq<Event>, x: Event)
    returns (below: seq<Event>, above: seq<Event>)
    requires Splits(sorted, added, lo, p, hi) && (Earlier(x, p) || Earlier(p, x))
    ensures Splits(Insert(sorted, x), Insert(added, x), below, p, above)
  {
    if Earlier(x, p) {
      InsertPassesOver(lo, hi, x);
      InsertPassesOver(lo + [p], hi, x);
      InsertBeforeLatest(lo, x, p);
      below, above := Insert(lo, x), hi;
      forall y | y in below ensures Earlier(y, p) {
        InsertedIn(lo, x, y);
      }
    } else {
      assert lo != [] ==> lo[|lo| - 1] in lo;
      InsertStaysBehind(lo, hi, x);
      InsertStaysBehind(lo + [p], hi, x);
      below, above := lo, Insert(hi, x);
      forall y | y in above ensures Earlier(p, y) {
        InsertedIn(hi, x, y);
      }
    }
  }

  /** One more event changes the timeline in one place only. */
  lemma {:induction false} TimelineSplits(a: seq<Event>, p: Event, b: seq<Event>)
    returns (lo: seq<Event>, hi: seq<Event>)
    requires forall x :: x in a + b ==> Earlier(x, p) || Earlier(p, x)
    ensures Splits(Sort(a + b), Sort(a + [p] + b), lo, p, hi)
    decreases |b|
  {
    if b == [] {
      assert a + [p] + b == a + [p] && (a + [p])[..|a|] == a && a + b == a;
      SortIsChronological(a);
      forall x | x in Sort(a) ensures Earlier(x, p) || Earlier(p, x) {
        SortedIn(a, x);
        assert x in a + b;
      }
      lo, hi := InsertSplits(Sort(a), p);
    } else {
      var front, last := b[..|b| - 1], b[|b| - 1];
      assert (a + [p] + b)[..|a + [p] + b| - 1] == a + [p] + front && (a + b)[..|a + b| - 1] == a + front;
      assert last in a + b;
      assert forall x :: x in a + front ==> x in a + b;
      lo, hi := TimelineSplits(a, p, front);
      lo, hi := InsertOneMore(Sort(a + front), Sort(a + [p] + front), lo, p, hi, last);
    }
  }

  // ----- The replay around a game -----

  lemma {:induction false} ReplayConcat(expected: Expected, b: Book, x: seq<Event>, y: seq<Event>)
    ensures Replay(expected, b, x + y) == Replay(expected, Replay(expected, b, x), y)
  {
    if y == [] {
      assert x + y == x;
    } else {
      assert (x + y)[..|x + y| - 1] == x + y[..|y| - 1];
      ReplayConcat(expected, b, x, y[..|y| - 1]);
    }
  }

  // A rated game, seen by user and by noted pair.
  lemma RateAt(expected: Expected, b: Book, id: nat, people: seq<Person>, uid: int)
    ensures var ranked := Ranked(b.users, people);
            var e, r := EntryOf(ranked, uid), Rate(expected, b, id, ranked);
            && (uid in r.users <==> uid in b.users)
            && (e.Some? ==>
                  uid in b.users && e.value.uid == uid && b.users[uid] == Standing(e.value.rating, e.value.games))
            && (uid in b.users ==>
                  r.users[uid] == if |ranked| >= 2 && e.Some? then Raised(expected, ranked, e.value) else b.users[uid])
  {
    var ranked := Ranked(b.users, people);
    RankedFacts(b.users, people, |people|);
    var e := EntryOf(ranked, uid);
    if e.Some? {
      EntryIn(ranked, uid, e.value);
    }
    if |ranked| >= 2 {
      RateUser(expected, b, id, ranked, uid);
    }
  }

  lemma RatePairAt(expected: Expected, b: Book, id: nat, people: seq<Person>, other: nat, uid: int)
    ensures var ranked := Ranked(b.users, people);
            PairAt(Rate(expected, b, id, ranked).pairs, other, uid)
            == if |ranked| >= 2 && other == id && EntryOf(ranked, uid).Some?
               then Some(Noted(expected, ranked, EntryOf(ranked, uid).value)) else PairAt(b.pairs, other, uid)
  {
    if |Ranked(b.users, people)| >= 2 {
      RatePair(expected, b, id, Ranked(b.users, people), other, uid);
    }
  }

  // The same users with the same scores, whatever their ratings.
  ghost predicate Aligned(x: seq<Entry>, y: seq<Entry>) {
    |x| == |y| && forall i :: 0 <= i < |x| ==> x[i].uid == y[i].uid && x[i].score == y[i].score
  }

  lemma {:induction false} RankedAligned(users: map<int, Standing>, others: map<int, Standing>, people: seq<Person>,
                                         n: nat)
    requires users.Keys == others.Keys && n <= |people|
    ensures Aligned(RankedTo(users, people, n), RankedTo(others, people, n))
  {
    if n > 0 {
      RankedAligned(users, others, people, n - 1);
      if people[n - 1].uid.Some? {
        RanksAligned(RankedTo(users, people, n - 1), RankedTo(others, people, n - 1), people[n - 1].uid.value);
      }
    }
  }

  lemma RanksAligned(x: seq<Entry>, y: seq<Entry>, uid: int)
    requires Aligned(x, y)
    ensures Ranks(x, uid) <==> Ranks(y, uid)
  {
    if i :| 0 <= i < |x| && x[i].uid == uid {
      assert y[i].uid == uid;
    }
    if i :| 0 <= i < |y| && y[i].uid == uid {
      assert x[i].uid == uid;
    }
  }

  lemma {:induction false} EntryAligned(x: seq<Entry>, y: seq<Entry>, n: nat, uid: int)
    requires Aligned(x, y) && n <= |x|
    ensures var a, b := EntryTo(x, n, uid), EntryTo(y, n, uid);
            && (a.Some? <==> b.Some?)
            && (a.Some? ==> a.value.uid == b.value.uid && a.value.score == b.value.score)
  {
    if n > 0 {
      EntryAligned(x, y, n - 1, uid);
    }
  }

  // ----- The rows of a game -----

  // Somebody ranked is among the people.
  lemma {:induction false} RankedPlays(users: map<int, Standing>, people: seq<Person>, n: nat, a: Entry)
    requires n <= |people| && a in RankedTo(users, people, n)
    ensures exists k :: 0 <= k < n && people[k].uid == Some(a.uid)
  {
    var before := RankedTo(users, people, n - 1);
    if a in before {
      RankedPlays(users, people, n - 1, a);
    } else {
      assert people[n - 1].uid == Some(a.uid);
    }
  }

  // The row of a ranked player in the game.
  lemma RowOfRanked(users: map<int, Standing>, g: GameRow, people: seq<Person>, a: Entry) returns (k: nat)
    requires SamePeople(PeopleOf(g.rows, g.flags), people) && a in Ranked(users, people)
    ensures k < |g.rows| && g.rows[k].uid == Some(a.uid)
  {
    RankedPlays(users, people, |people|, a);
    var j :| 0 <= j < |people| && people[j].uid == Some(a.uid);
    var stored := PeopleOf(g.rows, g.flags);
    assert people[j] in people;
    SameCounts(stored, people, people[j]);
    k :| 0 <= k < |stored| && stored[k] == people[j];
  }

  // In a right cache a row shows what the replay notes.
  lemma StampAt(expected: Expected, t: Tables, i: nat, k: nat)
    requires Consistent(expected, t) && i < |t.games| && k < |t.games[i].rows| && t.games[i].rows[k].uid.Some?
    ensures t.games[i].rows[k].rated == PairAt(Computed(expected, t).pairs, t.games[i].id, t.games[i].rows[k].uid.value)
  {
    StampIs(expected, t, i);
    assert StampRow(Computed(expected, t).pairs, t.games[i].id, t.games[i].rows[k]) == t.games[i].rows[k];
  }

  lemma SlotDistinct(t: Tables, room: string)
    requires Sound(t)
    ensures DistinctRows(SlotGame(t, room).rows)
  {
  }
}
