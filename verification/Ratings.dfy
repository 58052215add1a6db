/**
 The tables behind the ratings: users, games with their participants, manual adjustments. Every operation on
 them as a function, and the replay of the whole history from nothing.
 */
module Ratings {
  import opened Results
  import opened Elo

  const RESIGNED_SCORE := -1_000_000_000
  const MIN_RATING := 100
  const MAX_RATING := 4000

  datatype Standing = Standing(rating: int, games: int)

  datatype Status = Active | Finished | Voided

  // A participant of a game; `rated` holds the rating before and after it.
  datatype Row = Row(name: string, uid: Option<int>, score: int, rated: Option<(int, int)>)

  // `flags` says in the stored state of the game who has resigned.
  datatype GameRow = GameRow(id: nat, room: string, status: Status, time: int, hasBots: bool, flags: map<string, bool>,
                             rows: seq<Row>)

  datatype Adjustment = Adjustment(id: nat, uid: int, before: int, after: int, time: int)

  datatype Tables = Tables(users: map<int, Standing>, games: seq<GameRow>, adjustments: seq<Adjustment>, nextId: nat)

  // A player of a game as the room reports it.
  datatype Person = Person(name: string, uid: Option<int>, score: int, resigned: bool)

  datatype Refusal = NotFound | WrongStatus | NeedsConfirmation | GameIsLive | Unchanged | OutOfRange

  // ----- The history -----

  datatype Event =
    | Played(time: int, id: nat, people: seq<Person>)
    | Adjusted(time: int, id: nat, uid: int, delta: int)

  predicate Earlier(a: Event, b: Event) {
    a.time < b.time || (a.time == b.time && ((a.Played? && b.Adjusted?) || (a.Played? == b.Played? && a.id < b.id)))
  }

  predicate Counts(g: GameRow) {
    g.status == Finished && !g.hasBots
  }

  function HasResigned(flags: map<string, bool>, name: string): bool {
    name in flags && flags[name]
  }

  function PeopleOf(rows: seq<Row>, flags: map<string, bool>): seq<Person> {
    seq(|rows|, i requires 0 <= i < |rows| =>
      Person(rows[i].name, rows[i].uid, rows[i].score, HasResigned(flags, rows[i].name)))
  }

  function GameEvent(g: GameRow): Event {
    Played(g.time, g.id, PeopleOf(g.rows, g.flags))
  }

  function AdjustmentEvent(a: Adjustment): Event {
    Adjusted(a.time, a.id, a.uid, a.after - a.before)
  }

  // The games that count, in table order.
  function GameEvents(games: seq<GameRow>): seq<Event> {
    if games == [] then []
    else
      var n := |games| - 1;
      GameEvents(games[..n]) + if Counts(games[n]) then [GameEvent(games[n])] else []
  }

  function AdjustmentEvents(adjustments: seq<Adjustment>): seq<Event> {
    seq(|adjustments|, i requires 0 <= i < |adjustments| => AdjustmentEvent(adjustments[i]))
  }

  function EventsOf(t: Tables): seq<Event> {
    GameEvents(t.games) + AdjustmentEvents(t.adjustments)
  }

  // Puts an event behind all that are not later.
  function Insert(sorted: seq<Event>, e: Event): seq<Event> {
    if sorted == [] || !Earlier(e, sorted[|sorted| - 1]) then sorted + [e]
    else Insert(sorted[..|sorted| - 1], e) + [sorted[|sorted| - 1]]
  }

  function Sort(events: seq<Event>): seq<Event> {
    if events == [] then [] else Insert(Sort(events[..|events| - 1]), events[|events| - 1])
  }

  function TimelineOf(t: Tables): seq<Event> {
    Sort(EventsOf(t))
  }

  // ----- Rating a game -----

  predicate Ranks(ranked: seq<Entry>, uid: int) {
    exists i :: 0 <= i < |ranked| && ranked[i].uid == uid
  }

  // The registered people among the first n, each once; who resigned comes behind everybody.
  function RankedTo(users: map<int, Standing>, people: seq<Person>, n: nat): seq<Entry>
    requires n <= |people|
  {
    if n == 0 then []
    else
      var ranked := RankedTo(users, people, n - 1);
      var p := people[n - 1];
      if p.uid.Some? && p.uid.value in users && !Ranks(ranked, p.uid.value) then
        ranked + [Entry(p.uid.value, users[p.uid.value].rating, users[p.uid.value].games,
                        if p.resigned then RESIGNED_SCORE else p.score)]
      else ranked
  }

  function Ranked(users: map<int, Standing>, people: seq<Person>): seq<Entry> {
    RankedTo(users, people, |people|)
  }

  // The standings after the first n of the ranked got their changes.
  function RatedTo(expected: Expected, users: map<int, Standing>, ranked: seq<Entry>, n: nat): map<int, Standing>
    requires n <= |ranked|
  {
    if n == 0 then users
    else
      var a := ranked[n - 1];
      RatedTo(expected, users, ranked, n - 1)[a.uid := Standing(a.rating + Change(expected, ranked, a), a.games + 1)]
  }

  type Pairs = map<(nat, int), (int, int)>

  // The ratings before and after, by game and user.
  function PairsTo(expected: Expected, pairs: Pairs, id: nat, ranked: seq<Entry>, n: nat): Pairs
    requires n <= |ranked|
  {
    if n == 0 then pairs
    else
      var a := ranked[n - 1];
      PairsTo(expected, pairs, id, ranked, n - 1)[(id, a.uid) := (a.rating, a.rating + Change(expected, ranked, a))]
  }

  datatype Book = Book(users: map<int, Standing>, pairs: Pairs)

  function Rate(expected: Expected, b: Book, id: nat, ranked: seq<Entry>): Book {
    if |ranked| < 2 then b
    else Book(RatedTo(expected, b.users, ranked, |ranked|), PairsTo(expected, b.pairs, id, ranked, |ranked|))
  }

  // ----- The replay -----

  function Step(expected: Expected, b: Book, e: Event): Book {
    match e
    case Played(_, id, people) => Rate(expected, b, id, Ranked(b.users, people))
    case Adjusted(_, _, uid, delta) =>
      if uid in b.users then b.(users := b.users[uid := b.users[uid].(rating := b.users[uid].rating + delta)]) else b
  }

  function Replay(expected: Expected, b: Book, events: seq<Event>): Book {
    if events == [] then b else Step(expected, Replay(expected, b, events[..|events| - 1]), events[|events| - 1])
  }

  function Newcomers(users: map<int, Standing>): map<int, Standing> {
    map uid | uid in users :: Standing(INITIAL_RATING, 0)
  }

  // All ratings computed from nothing.
  function Computed(expected: Expected, t: Tables): Book {
    Replay(expected, Book(Newcomers(t.users), map[]), TimelineOf(t))
  }

  function PairAt(pairs: Pairs, id: nat, uid: int): Option<(int, int)> {
    if (id, uid) in pairs then Some(pairs[(id, uid)]) else None
  }

  function StampRow(pairs: Pairs, id: nat, row: Row): Row {
    row.(rated := if row.uid.Some? then PairAt(pairs, id, row.uid.value) else None)
  }

  function StampRows(pairs: Pairs, id: nat, rows: seq<Row>): seq<Row> {
    seq(|rows|, i requires 0 <= i < |rows| => StampRow(pairs, id, rows[i]))
  }

  function StampGames(pairs: Pairs, games: seq<GameRow>): seq<GameRow> {
    seq(|games|, i requires 0 <= i < |games| => games[i].(rows := StampRows(pairs, games[i].id, games[i].rows)))
  }

  function Recomputed(expected: Expected, t: Tables): Tables {
    var b := Computed(expected, t);
    t.(users := b.users, games := StampGames(b.pairs, t.games))
  }

  // ----- Storing and finishing games -----

  // The first active game of a room, from place `from` on.
  function FindActive(games: seq<GameRow>, room: string, from: nat): (r: Option<nat>)
    requires from <= |games|
    ensures r.Some? ==> from <= r.value < |games| && games[r.value].room == room && games[r.value].status == Active
    ensures r.None? ==> forall i :: from <= i < |games| ==> games[i].room != room || games[i].status != Active
    decreases |games| - from
  {
    if from == |games| then None
    else if games[from].room == room && games[from].status == Active then Some(from)
    else FindActive(games, room, from + 1)
  }

  function FindName(rows: seq<Row>, name: string, from: nat): (r: Option<nat>)
    requires from <= |rows|
    ensures r.Some? ==> from <= r.value < |rows| && rows[r.value].name == name
    ensures r.None? ==> forall i :: from <= i < |rows| ==> rows[i].name != name
    decreases |rows| - from
  {
    if from == |rows| then None else if rows[from].name == name then Some(from) else FindName(rows, name, from + 1)
  }

  // A row is found by its name; a known user id is not overwritten by a missing one.
  function UpsertRow(rows: seq<Row>, p: Person): seq<Row> {
    match FindName(rows, p.name, 0)
    case Some(i) => rows[i := rows[i].(score := p.score, uid := if p.uid.Some? then p.uid else rows[i].uid)]
    case None => rows + [Row(p.name, p.uid, p.score, None)]
  }

  function UpsertTo(rows: seq<Row>, people: seq<Person>, n: nat): seq<Row>
    requires n <= |people|
  {
    if n == 0 then rows else UpsertRow(UpsertTo(rows, people, n - 1), people[n - 1])
  }

  // The game a room's data is stored in: its active one, or a new one.
  function Slot(t: Tables, room: string): (i: nat)
    ensures i <= |t.games|
    ensures i < |t.games| ==> t.games[i].status == Active
  {
    match FindActive(t.games, room, 0)
    case Some(i) => i
    case None => |t.games|
  }

  function SlotGame(t: Tables, room: string): GameRow {
    if Slot(t, room) < |t.games| then t.games[Slot(t, room)] else GameRow(t.nextId, room, Active, 0, false, map[], [])
  }

  function Stored(t: Tables, room: string, status: Status, flags: map<string, bool>, people: seq<Person>,
                  hasBots: bool, now: int): GameRow
  {
    var g := SlotGame(t, room);
    GameRow(g.id, room, status, now, hasBots, flags, UpsertTo(g.rows, people, |people|))
  }

  function PutGame(t: Tables, room: string, g: GameRow): Tables {
    var i := Slot(t, room);
    if i < |t.games| then t.(games := t.games[i := g]) else t.(games := t.games + [g], nextId := t.nextId + 1)
  }

  // Guests with the id 0 are not registered.
  function Registered(people: seq<Person>): seq<Person> {
    seq(|people|, i requires 0 <= i < |people| =>
      if people[i].uid == Some(0) then people[i].(uid := None) else people[i])
  }

  // The pairs of a game are written into its rows; other rows stay.
  function MarkRow(pairs: Pairs, id: nat, row: Row): Row {
    if row.uid.Some? && PairAt(pairs, id, row.uid.value).Some?
    then row.(rated := PairAt(pairs, id, row.uid.value)) else row
  }

  function MarkRows(pairs: Pairs, id: nat, rows: seq<Row>): seq<Row> {
    seq(|rows|, i requires 0 <= i < |rows| => MarkRow(pairs, id, rows[i]))
  }

  function MarkGames(pairs: Pairs, id: nat, games: seq<GameRow>): seq<GameRow> {
    seq(|games|, i requires 0 <= i < |games| =>
      if games[i].id == id then games[i].(rows := MarkRows(pairs, id, games[i].rows)) else games[i])
  }

  // The incremental side: only the people of this game change.
  function ApplyRatings(expected: Expected, t: Tables, id: nat, people: seq<Person>): Tables {
    var b := Rate(expected, Book(t.users, map[]), id, Ranked(t.users, Registered(people)));
    t.(users := b.users, games := MarkGames(b.pairs, id, t.games))
  }

  function SaveGame(t: Tables, room: string, flags: map<string, bool>, people: seq<Person>, hasBots: bool,
                    now: int): Tables
  {
    PutGame(t, room, Stored(t, room, Active, flags, people, hasBots, now))
  }

  function FinishGame(expected: Expected, t: Tables, room: string, flags: map<string, bool>, people: seq<Person>,
                      hasBots: bool, now: int): Tables
  {
    var g := Stored(t, room, Finished, flags, people, hasBots, now);
    var stored := PutGame(t, room, g);
    if hasBots then stored else ApplyRatings(expected, stored, g.id, people)
  }

  // ----- Administration -----

  type Outcome = Result<Tables, Refusal>

  function SetRating(t: Tables, uid: int, rating: int, now: int): Outcome {
    if !(MIN_RATING <= rating <= MAX_RATING) then Err(OutOfRange)
    else if uid !in t.users then Err(NotFound)
    else if t.users[uid].rating == rating then Err(Unchanged)
    else
      Ok(t.(users := t.users[uid := t.users[uid].(rating := rating)],
            adjustments := t.adjustments + [Adjustment(|t.adjustments|, uid, t.users[uid].rating, rating, now)]))
  }

  function FindGame(games: seq<GameRow>, id: nat, from: nat): (r: Option<nat>)
    requires from <= |games|
    ensures r.Some? ==> from <= r.value < |games| && games[r.value].id == id
    ensures r.None? ==> forall i :: from <= i < |games| ==> games[i].id != id
    decreases |games| - from
  {
    if from == |games| then None else if games[from].id == id then Some(from) else FindGame(games, id, from + 1)
  }

  function WithStatus(t: Tables, i: nat, status: Status): Tables
    requires i < |t.games|
  {
    t.(games := t.games[i := t.games[i].(status := status)])
  }

  // Only a finished game can be voided, only a voided one restored; the ratings are computed anew.
  function ChangeStatus(expected: Expected, t: Tables, id: nat, from: Status, to: Status): Outcome {
    match FindGame(t.games, id, 0)
    case None => Err(NotFound)
    case Some(i) =>
      if t.games[i].status != from then Err(WrongStatus)
      else Ok(Recomputed(expected, WithStatus(t, i, to)))
  }

  function VoidGame(expected: Expected, t: Tables, id: nat): Outcome {
    ChangeStatus(expected, t, id, Finished, Voided)
  }

  function UnvoidGame(expected: Expected, t: Tables, id: nat): Outcome {
    ChangeStatus(expected, t, id, Voided, Finished)
  }

  function Without(t: Tables, i: nat): Tables
    requires i < |t.games|
  {
    t.(games := t.games[..i] + t.games[i + 1..])
  }

  // Deleting a finished game must be confirmed; the participants' rows go with it.
  function DeleteGame(expected: Expected, t: Tables, id: nat, confirm: bool, live: set<nat>): Outcome {
    match FindGame(t.games, id, 0)
    case None => Err(NotFound)
    case Some(i) =>
      if id in live then Err(GameIsLive)
      else if t.games[i].status == Finished && !confirm then Err(NeedsConfirmation)
      else if t.games[i].status == Active then Ok(Without(t, i))
      else Ok(Recomputed(expected, Without(t, i)))
  }
}
