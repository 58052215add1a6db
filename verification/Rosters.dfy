/**
 The rows a game's participants are stored in. A row is found by its name, so storing the players of a game
 leaves exactly these players in its rows, in whatever order the rows were stored before.
 */
module Rosters {
  import opened Results
  import opened Orders
  import opened Ratings
  import opened RatingOrder

  ghost predicate DistinctNames(people: seq<Person>) {
    forall i, j :: 0 <= i < j < |people| ==> people[i].name != people[j].name
  }

  ghost predicate DistinctRows(rows: seq<Row>) {
    forall i, j :: 0 <= i < j < |rows| ==> rows[i].name != rows[j].name
  }

  ghost predicate Unrated(rows: seq<Row>) {
    forall i :: 0 <= i < |rows| ==> rows[i].rated.None?
  }

  lemma {:induction false} UpsertUnrated(rows: seq<Row>, people: seq<Person>, n: nat)
    requires Unrated(rows) && n <= |people|
    ensures Unrated(UpsertTo(rows, people, n))
  {
    if n > 0 {
      UpsertUnrated(rows, people, n - 1);
    }
  }

  // ----- Rows by name -----

  ghost function RowOf(rows: seq<Row>, name: string): (r: Option<Row>)
    ensures r.Some? ==> r.value in rows && r.value.name == name
  {
    var i := FindName(rows, name, 0);
    if i.Some? then Some(rows[i.value]) else None
  }

  lemma RowAt(rows: seq<Row>, i: nat)
    requires DistinctRows(rows) && i < |rows|
    ensures RowOf(rows, rows[i].name) == Some(rows[i])
  {
  }

  // The row of a person, stored over the one found under that name.
  ghost function Entered(found: Option<Row>, p: Person): Row {
    match found
    case Some(row) => row.(score := p.score, uid := if p.uid.Some? then p.uid else row.uid)
    case None => Row(p.name, p.uid, p.score, None)
  }

  lemma UpsertIs(rows: seq<Row>, p: Person, name: string)
    requires DistinctRows(rows)
    ensures DistinctRows(UpsertRow(rows, p))
    ensures RowOf(UpsertRow(rows, p), name)
            == if name == p.name then Some(Entered(RowOf(rows, name), p)) else RowOf(rows, name)
  {
    var after, k := UpsertRow(rows, p), FindName(rows, p.name, 0);
    assert DistinctRows(after);
    RowAt(after, if k.Some? then k.value else |rows|);
    if name != p.name && RowOf(rows, name).Some? {
      RowAt(after, FindName(rows, name, 0).value);
    }
  }

  lemma {:induction false} UpsertDistinct(rows: seq<Row>, people: seq<Person>, n: nat)
    requires DistinctRows(rows) && n <= |people|
    ensures DistinctRows(UpsertTo(rows, people, n))
  {
    if n > 0 {
      UpsertDistinct(rows, people, n - 1);
      UpsertIs(UpsertTo(rows, people, n - 1), people[n - 1], people[n - 1].name);
    }
  }

  // The person of a name among the first n.
  ghost function PersonTo(people: seq<Person>, n: nat, name: string): (r: Option<Person>)
    requires n <= |people|
    ensures r.Some? ==> r.value in people[..n] && r.value.name == name
  {
    if n == 0 then None else if people[n - 1].name == name then Some(people[n - 1]) else PersonTo(people, n - 1, name)
  }

  lemma {:induction false} PersonAt(people: seq<Person>, n: nat, k: nat)
    requires DistinctNames(people) && k < n <= |people|
    ensures PersonTo(people, n, people[k].name) == Some(people[k])
  {
    if k < n - 1 {
      PersonAt(people, n - 1, k);
    }
  }

  lemma {:induction false} UpsertAllIs(rows: seq<Row>, people: seq<Person>, n: nat, name: string)
    requires DistinctRows(rows) && DistinctNames(people) && n <= |people|
    ensures var p := PersonTo(people, n, name);
            RowOf(UpsertTo(rows, people, n), name)
            == if p.Some? then Some(Entered(RowOf(rows, name), p.value)) else RowOf(rows, name)
  {
    if n > 0 {
      UpsertAllIs(rows, people, n - 1, name);
      UpsertDistinct(rows, people, n - 1);
      UpsertIs(UpsertTo(rows, people, n - 1), people[n - 1], name);
      assert people[n - 1].name == name ==> PersonTo(people, n - 1, name).None?;
    }
  }

  // ----- The players of a game and its rows -----

  // A stored row belongs to one of the people, who has not lost the user id.
  ghost predicate Listed(row: Row, people: seq<Person>) {
    exists j :: 0 <= j < |people| && people[j].name == row.name && (row.uid.Some? ==> people[j].uid.Some?)
  }

  // The rows are those of the first people, in the same order.
  ghost predicate InOrder(rows: seq<Row>, people: seq<Person>) {
    |rows| <= |people| && forall i :: 0 <= i < |rows| ==> rows[i].name == people[i].name
  }

  /**
   What was stored of the game before agrees, name by name, with the players it is finished with. Only when the
   same user plays twice must the rows have been stored in the order of the players.
   */
  ghost predicate Matching(rows: seq<Row>, people: seq<Person>, flags: map<string, bool>) {
    && DistinctNames(people)
    && (forall i :: 0 <= i < |rows| ==> Listed(rows[i], people))
    && (forall i :: 0 <= i < |people| ==> people[i].resigned == HasResigned(flags, people[i].name))
    && (InOrder(rows, people) || DistinctUids(people))
  }

  // The row of every name shows the person of that name.
  lemma RowShowsPerson(rows: seq<Row>, people: seq<Person>, flags: map<string, bool>, i: nat)
    requires DistinctRows(rows) && Matching(rows, people, flags) && i < |UpsertTo(rows, people, |people|)|
    ensures PeopleOf(UpsertTo(rows, people, |people|), flags)[i] in people
  {
    var stored := UpsertTo(rows, people, |people|);
    var name := stored[i].name;
    UpsertDistinct(rows, people, |people|);
    RowAt(stored, i);
    UpsertAllIs(rows, people, |people|, name);
    var found := RowOf(rows, name);
    if found.Some? {
      assert Listed(found.value, people);
      var j :| 0 <= j < |people| && people[j].name == name && (found.value.uid.Some? ==> people[j].uid.Some?);
      PersonAt(people, |people|, j);
    }
    var p := PersonTo(people, |people|, name).value;
    assert stored[i] == Entered(found, p) && p in people;
    assert PeopleOf(stored, flags)[i] == p;
  }

  lemma PersonHasRow(rows: seq<Row>, people: seq<Person>, flags: map<string, bool>, k: nat)
    requires DistinctRows(rows) && Matching(rows, people, flags) && k < |people|
    ensures people[k] in PeopleOf(UpsertTo(rows, people, |people|), flags)
  {
    var stored := UpsertTo(rows, people, |people|);
    PersonAt(people, |people|, k);
    UpsertAllIs(rows, people, |people|, people[k].name);
    var i := FindName(stored, people[k].name, 0).value;
    RowShowsPerson(rows, people, flags, i);
    var x := PeopleOf(stored, flags);
    assert x[i].name == people[k].name;
    var j :| 0 <= j < |people| && people[j] == x[i];
    assert x[i] == people[k];
  }

  lemma FindInOrder(rows: seq<Row>, people: seq<Person>, k: nat)
    requires DistinctNames(people) && InOrder(rows, people) && k < |people|
    ensures FindName(rows, people[k].name, 0) == if k < |rows| then Some(k) else None
  {
    var found := FindName(rows, people[k].name, 0);
    hide FindName;
    if found.Some? {
      assert rows[found.value].name == people[found.value].name;
    }
  }

  lemma {:induction false} UpsertKeepsOrder(rows: seq<Row>, people: seq<Person>, n: nat)
    requires DistinctNames(people) && InOrder(rows, people) && n <= |people|
    ensures InOrder(UpsertTo(rows, people, n), people)
    ensures |UpsertTo(rows, people, n)| == if n < |rows| then |rows| else n
  {
    if n > 0 {
      UpsertKeepsOrder(rows, people, n - 1);
      var before := UpsertTo(rows, people, n - 1);
      FindInOrder(before, people, n - 1);
    }
  }

  // Lists of the same people under different names.
  lemma SameCrowd(x: seq<Person>, people: seq<Person>)
    requires DistinctNames(x) && DistinctNames(people) && forall p :: p in x <==> p in people
    requires DistinctUids(people) || forall i :: 0 <= i < |x| && i < |people| ==> x[i].name == people[i].name
    ensures SamePeople(x, people)
  {
    SameElements(x, people);
    assert |multiset(x)| == |multiset(people)|;
    if DistinctUids(people) {
      forall i, j | 0 <= i < j < |x| && x[i].uid.Some? ensures x[i].uid != x[j].uid {
        assert x[i] in x && x[j] in x;
        var a :| 0 <= a < |people| && people[a] == x[i];
        var b :| 0 <= b < |people| && people[b] == x[j];
      }
    } else {
      forall i | 0 <= i < |x| ensures x[i] == people[i] {
        assert x[i] in x;
        var j :| 0 <= j < |people| && people[j] == x[i];
      }
      assert x == people;
    }
  }

  /** With a matching roster the stored rows are the people of the game. */
  lemma MatchingPeople(rows: seq<Row>, people: seq<Person>, flags: map<string, bool>)
    requires DistinctRows(rows) && Matching(rows, people, flags)
    ensures SamePeople(PeopleOf(UpsertTo(rows, people, |people|), flags), people)
  {
    var stored := UpsertTo(rows, people, |people|);
    var x := PeopleOf(stored, flags);
    forall p ensures p in x <==> p in people {
      SamePerson(rows, people, flags, p);
    }
    UpsertDistinct(rows, people, |people|);
    assert forall i :: 0 <= i < |x| ==> x[i].name == stored[i].name;
    if InOrder(rows, people) {
      UpsertKeepsOrder(rows, people, |people|);
    }
    SameCrowd(x, people);
  }

  lemma SamePerson(rows: seq<Row>, people: seq<Person>, flags: map<string, bool>, p: Person)
    requires DistinctRows(rows) && Matching(rows, people, flags)
    ensures p in PeopleOf(UpsertTo(rows, people, |people|), flags) <==> p in people
  {
    var x := PeopleOf(UpsertTo(rows, people, |people|), flags);
    if p in x {
      var i :| 0 <= i < |x| && x[i] == p;
      RowShowsPerson(rows, people, flags, i);
    }
    if p in people {
      var k :| 0 <= k < |people| && people[k] == p;
      PersonHasRow(rows, people, flags, k);
    }
  }
}
