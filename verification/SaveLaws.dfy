/** What survives saving and restoring a game, and what does not. */
module SaveLaws {
  import opened Results
  import opened Tiles
  import opened Bags
  import opened Grids
  import opened BoardLaws
  import opened GameStates
  import opened GameLaws
  import opened Ledger
  import opened Saves

  // A tile of the distribution.
  predicate Known(t: Tile) {
    t.index < KINDS
  }

  predicate AllKnown(tiles: seq<Tile>) {
    forall t :: t in tiles ==> Known(t)
  }

  // Every tile and letter of the game is one of the distribution.
  ghost predicate KnownTiles(s: State) {
    && AllKnown(s.bag)
    && (forall i :: 0 <= i < |s.players| ==> AllKnown(s.players[i].hand))
    && (s.pending.Some? ==> AllKnown(s.pending.value.removed))
    && (forall p :: p in s.grid ==> Known(s.grid[p].letter))
  }

  /** Tiles written as texts are read back in the same order. */
  lemma {:induction false} TilesRoundTrip(letters: Alphabet, tiles: seq<Tile>)
    requires IsAlphabet(letters) && AllKnown(tiles)
    ensures TilesFromJson(letters, TilesToJson(letters, tiles)) == tiles
  {
    if tiles == [] {
      assert TilesToJson(letters, tiles) == [];
    } else {
      var front, last := tiles[..|tiles| - 1], tiles[|tiles| - 1];
      assert last in tiles && tiles == front + [last];
      TilesRoundTrip(letters, front);
      WrittenSnoc(letters, tiles);
      hide TilesToJson, FromStr, Print;
    }
  }

  lemma WrittenSnoc(letters: Alphabet, tiles: seq<Tile>)
    requires tiles != []
    ensures var texts, n := TilesToJson(letters, tiles), |tiles| - 1;
            |texts| == n + 1 && texts[..n] == TilesToJson(letters, tiles[..n]) && texts[n] == Print(letters, tiles[n])
  {
  }

  /** A board written cell by cell is read back as it was, blanks and their letters included. */
  lemma BoardRoundTrip(letters: Alphabet, g: Grid)
    requires IsAlphabet(letters) && GridOk(g) && forall p :: p in g ==> Known(g[p].letter)
    ensures BoardFromJson(letters, BoardToJson(letters, g)) == g
  {
    forall p | OnBoard(p)
      ensures CellFromJson(letters, BoardToJson(letters, g), p) == if p in g then Some(g[p]) else None
    {
      CellRoundTrip(letters, g, p);
    }
  }

  lemma CellRoundTrip(letters: Alphabet, g: Grid, p: Pos)
    requires IsAlphabet(letters) && OnBoard(p) && (p in g ==> Known(g[p].letter))
    ensures CellFromJson(letters, BoardToJson(letters, g), p) == if p in g then Some(g[p]) else None
  {
    assert BoardToJson(letters, g)[p.r][p.c] == CellToJson(letters, g, p);
  }

  // The state a game is saved in: a pending placement is taken back.
  ghost function Withdrawn(s: State): State
    requires PendingSeated(s)
  {
    if s.pending.Some? then ReturnTiles(s) else s
  }

  function Reconnected(players: seq<Player>): (r: seq<Player>)
    ensures |r| == |players|
  {
    seq(|players|, i requires 0 <= i < |players| =>
      players[i].(disconnected := !players[i].isBot && players[i].disconnected))
  }

  // What is restored: everything but the log, the rejected placements, the puzzle mark and the winners' own records.
  ghost function Restored(s: State): State
    requires PendingSeated(s)
  {
    var back := Withdrawn(s);
    var players := Reconnected(back.players);
    back.(players := players, winners := Named(players, NamesOf(s.winners)), puzzle := None, log := [], rejected := {})
  }

  lemma HandRoundTrip(letters: Alphabet, s: State, i: nat)
    requires IsAlphabet(letters) && PendingSeated(s) && KnownTiles(s) && i < |s.players|
    ensures TilesFromJson(letters, TilesToJson(letters, s.players[i].hand + ReturnedTo(s.pending, i)))
            == Withdrawn(s).players[i].hand
  {
    var hand := s.players[i].hand + ReturnedTo(s.pending, i);
    assert AllKnown(s.players[i].hand);
    TilesRoundTrip(letters, hand);
    assert s.players[i].hand + [] == s.players[i].hand;
  }

  lemma PlayerRoundTrip(letters: Alphabet, s: State, i: nat)
    requires IsAlphabet(letters) && PendingSeated(s) && KnownTiles(s) && i < |s.players|
    ensures PlayerFromJson(letters, PlayerToJson(letters, s.players[i], ReturnedTo(s.pending, i)))
            == Reconnected(Withdrawn(s).players)[i]
  {
    HandRoundTrip(letters, s, i);
  }

  /**
   Restoring a saved game gives back board, bag order, scores, hands, counters, flags and seats, with a
   pending placement returned to the placer's hand.
   */
  lemma SaveRoundTrip(letters: Alphabet, s: State)
    requires IsAlphabet(letters) && PendingSeated(s) && KnownTiles(s) && GridOk(s.grid)
    ensures FromSaveDict(letters, ToSaveDict(letters, s)) == Restored(s)
  {
    TilesRoundTrip(letters, s.bag);
    BoardRoundTrip(letters, s.grid);
    var players := PlayersFromJson(letters, ToSaveDict(letters, s).players);
    forall i | 0 <= i < |s.players| ensures players[i] == Reconnected(Withdrawn(s).players)[i] {
      PlayerRoundTrip(letters, s, i);
    }
    assert players == Reconnected(Withdrawn(s).players);
  }

  ghost predicate BotsConnected(players: seq<Player>) {
    forall i :: 0 <= i < |players| ==> !(players[i].isBot && players[i].disconnected)
  }

  /** The players come back unchanged exactly when no bot is marked as disconnected. */
  lemma PlayersSurvive(s: State)
    requires PendingSeated(s)
    ensures Restored(s).players == Withdrawn(s).players <==> BotsConnected(s.players)
  {
    var players := Withdrawn(s).players;
    forall i | 0 <= i < |players|
      ensures Reconnected(players)[i] == players[i] <==> !(s.players[i].isBot && s.players[i].disconnected)
    {
    }
    assert BotsConnected(s.players) ==> Reconnected(players) == players;
  }

  /** No tile is lost by saving and restoring, and no score changes, also while a placement is pending. */
  lemma SaveKeepsTiles(rules: Rules, s: State)
    requires Inv(rules, s)
    ensures Total(Restored(s)) == Total(s)
    ensures ScoreSum(Restored(s).players) == ScoreSum(s.players)
  {
    WithdrawnMoved(s);
    ReconnectedSame(Withdrawn(s).players);
  }

  lemma WithdrawnMoved(s: State)
    requires PendingSeated(s)
    ensures Moved(s, Withdrawn(s))
  {
    if s.pending.Some? {
      ReturnTilesMoved(s);
    }
  }

  lemma ReconnectedSame(players: seq<Player>)
    ensures HandsOf(Reconnected(players)) == HandsOf(players) && ScoreSum(Reconnected(players)) == ScoreSum(players)
  {
    HandsToSame(Reconnected(players), players, |players|);
    ScoreToSame(Reconnected(players), players, |players|);
  }

  // ----- Playing on -----

  /** With the stored moves as its log a restored game satisfies the invariant, whatever was voted. */
  lemma ReattachedInv(rules: Rules, s: State)
    requires Inv(rules, s)
    ensures Inv(rules, Restored(s).(log := s.log))
  {
    var back := Withdrawn(s);
    if s.pending.Some? {
      ReturnTilesInv(rules, s);
    }
    SameHandsInv(rules, back, Reconnected(back.players));
    ForgetfulInv(rules, back.(players := Reconnected(back.players)), Restored(s).winners);
  }

  lemma ForgetfulInv(rules: Rules, s: State, winners: seq<Player>)
    requires Inv(rules, s) && s.pending.None?
    ensures Inv(rules, s.(winners := winners, puzzle := None, rejected := {}))
  {
    var after := s.(winners := winners, puzzle := None, rejected := {});
    assert HandsOk(after) by {
      forall i | 0 <= i < |s.players| ensures Load(after, i) == Load(s, i) {
      }
    }
  }

  // Why the stored moves have to be put back: the record alone does not tell that a vote once let a word pass.
  lemma RestoredInv(rules: Rules, s: State)
    requires Inv(rules, s)
    ensures Inv(rules, Restored(s)) <==> AllWords(rules, s.grid)
  {
    ReattachedInv(rules, s);
    var back := Restored(s).(log := s.log);
    assert HandsOk(Restored(s)) by {
      forall i | 0 <= i < |back.players| ensures Load(Restored(s), i) == Load(back, i) {
      }
    }
  }

  // Who is in the waiting room again gets the new id; the other humans are away.
  function Rejoined(p: Player, joined: map<string, string>): Player {
    if p.isBot then p.(disconnected := false)
    else if p.name in joined then p.(id := joined[p.name], disconnected := false)
    else p.(disconnected := true)
  }

  function AllRejoined(players: seq<Player>, joined: map<string, string>): seq<Player> {
    seq(|players|, i requires 0 <= i < |players| => Rejoined(players[i], joined))
  }

  ghost predicate HumanPresent(players: seq<Player>) {
    exists i :: 0 <= i < |players| && !players[i].isBot && !players[i].disconnected
  }

  ghost function OrSame(outcome: Outcome, s: State): State {
    match outcome
    case Ok(next) => next
    case Err(_) => s
  }

  // A restored game goes on with those who are there: the turn passes over a player who is away, and the stored
  // moves become its log. None when no human is there.
  ghost function Resumed(s: State, joined: map<string, string>, log: seq<Entry>): Option<State> {
    var players := AllRejoined(s.players, joined);
    if !HumanPresent(players) then None
    else
      var seated := s.(players := players, cur := if s.cur >= |players| then 0 else s.cur);
      Some(OrSame(SkipDisconnectedCurrent(seated), seated).(log := log))
  }

  lemma RejoinedSame(s: State, joined: map<string, string>)
    ensures SameHands(s.players, AllRejoined(s.players, joined))
    ensures HandsOf(AllRejoined(s.players, joined)) == HandsOf(s.players)
    ensures ScoreSum(AllRejoined(s.players, joined)) == ScoreSum(s.players)
  {
    HandsToSame(AllRejoined(s.players, joined), s.players, |s.players|);
    ScoreToSame(AllRejoined(s.players, joined), s.players, |s.players|);
  }

  /**
   A saved game that is restored and resumed satisfies the invariant of all games, so everything that holds in
   every run holds from there on, too; it has all its tiles and points. It is resumed iff a human is there.
   */
  lemma ResumedInv(rules: Rules, s: State, joined: map<string, string>)
    requires Inv(rules, s)
    ensures var resumed := Resumed(Restored(s), joined, s.log);
            && (resumed.Some? <==>
                  exists i :: 0 <= i < |s.players| && !s.players[i].isBot && s.players[i].name in joined)
            && (resumed.Some? ==> Inv(rules, resumed.value) && Total(resumed.value) == Total(s)
                                  && ScoreSum(resumed.value.players) == ScoreSum(s.players))
  {
    var back := Restored(s).(log := s.log);
    var players := AllRejoined(back.players, joined);
    PresenceIs(s, joined);
    ReattachedInv(rules, s);
    SaveKeepsTiles(rules, s);
    RejoinedSame(back, joined);
    SameHandsInv(rules, back, players);
    ResumedIs(back, joined);
    hide Inv, Restored, Resumed, SkipDisconnectedCurrent, AllRejoined, HumanPresent, HandsOf, BoardTiles, ScoreSum;
    SkipKeeps(rules, back.(players := players));
    assert Resumed(back, joined, s.log) == Resumed(Restored(s), joined, s.log) by {
      ResumedAgain(Restored(s), joined, s.log);
    }
  }

  // With a pointer in range only the skip is left.
  lemma ResumedIs(s: State, joined: map<string, string>)
    requires s.cur < |s.players| || (s.cur == 0 && s.players == [])
    ensures var seated := s.(players := AllRejoined(s.players, joined));
            Resumed(s, joined, s.log)
            == if HumanPresent(seated.players) then Some(OrSame(SkipDisconnectedCurrent(seated), seated)) else None
  {
    var seated := s.(players := AllRejoined(s.players, joined));
    assert seated == s.(players := AllRejoined(s.players, joined), cur := if s.cur >= |s.players| then 0 else s.cur);
    assert OrSame(SkipDisconnectedCurrent(seated), seated).log == s.log;
  }

  lemma ResumedAgain(s: State, joined: map<string, string>, log: seq<Entry>)
    ensures Resumed(s.(log := log), joined, log) == Resumed(s, joined, log)
  {
    var players := AllRejoined(s.players, joined);
    SkipIgnoresLog(s.(players := players, cur := if s.cur >= |players| then 0 else s.cur), log);
  }

  lemma SkipIgnoresLog(s: State, log: seq<Entry>)
    ensures var logged := s.(log := log);
            OrSame(SkipDisconnectedCurrent(s), s).(log := log) == OrSame(SkipDisconnectedCurrent(logged), logged)
  {
  }

  lemma PresenceIs(s: State, joined: map<string, string>)
    requires PendingSeated(s)
    ensures HumanPresent(AllRejoined(Restored(s).players, joined))
            <==> exists i :: 0 <= i < |s.players| && !s.players[i].isBot && s.players[i].name in joined
  {
    var players := AllRejoined(Restored(s).players, joined);
    forall i | 0 <= i < |s.players|
      ensures !players[i].isBot && !players[i].disconnected <==> !s.players[i].isBot && s.players[i].name in joined
    {
    }
    if i :| 0 <= i < |players| && !players[i].isBot && !players[i].disconnected {
      assert !s.players[i].isBot && s.players[i].name in joined;
    }
    if i :| 0 <= i < |s.players| && !s.players[i].isBot && s.players[i].name in joined {
      assert !players[i].isBot && !players[i].disconnected;
    }
  }

  lemma SkipKeeps(rules: Rules, s: State)
    requires Inv(rules, s)
    ensures var next := OrSame(SkipDisconnectedCurrent(s), s);
            Inv(rules, next) && Total(next) == Total(s) && ScoreSum(next.players) == ScoreSum(s.players)
  {
    if SkipDisconnectedCurrent(s).Ok? {
      NextTurnInv(rules, s);
    }
  }

  // ----- Which tiles a game holds -----

  lemma {:induction false} HandsHold(players: seq<Player>, i: nat, n: nat, t: Tile)
    requires i < n <= |players| && t in players[i].hand
    ensures HandsTo(players, n)[t] > 0
  {
    if i < n - 1 {
      HandsHold(players, i, n - 1, t);
    }
  }

  lemma {:induction false} BoardHolds(g: Grid, p: Pos, n: nat)
    requires OnBoard(p) && p in g && p.r * SIZE + p.c < n
    ensures TilesOn(g, n)[g[p].HandTile()] > 0
  {
    CellNoIs(n - 1, p);
    if p.r * SIZE + p.c < n - 1 {
      BoardHolds(g, p, n - 1);
    }
  }

  lemma OnlyKnownCount(s: State, t: Tile)
    requires Total(s) <= FullSet() && Total(s)[t] > 0
    ensures Known(t)
  {
    hide Total, FullSet;
    FullSetCount(t);
    assert Total(s)[t] <= FullSet()[t];
  }

  lemma BagTileKnown(s: State, t: Tile)
    requires Total(s) <= FullSet() && t in s.bag
    ensures Known(t)
  {
    OnlyKnownCount(s, t);
  }

  lemma PendingTileKnown(s: State, t: Tile)
    requires Total(s) <= FullSet() && s.pending.Some? && t in s.pending.value.removed
    ensures Known(t)
  {
    assert t in PendingTiles(s);
    OnlyKnownCount(s, t);
  }

  lemma HandTileKnown(s: State, i: nat, t: Tile)
    requires Total(s) <= FullSet() && i < |s.players| && t in s.players[i].hand
    ensures Known(t)
  {
    HandsHold(s.players, i, |s.players|, t);
    OnlyKnownCount(s, t);
  }

  lemma BoardTileKnown(s: State, p: Pos)
    requires Total(s) <= FullSet() && GridOk(s.grid) && p in s.grid
    requires s.grid[p].isBlank ==> Known(s.grid[p].letter)
    ensures Known(s.grid[p].letter)
  {
    BoardHolds(s.grid, p, CELLS);
    OnlyKnownCount(s, s.grid[p].HandTile());
  }

  /** As long as the tiles are among the hundred, only the letters chosen for blanks are not given by them. */
  lemma GameTilesAreKnown(s: State)
    requires Total(s) <= FullSet() && GridOk(s.grid)
    requires forall p :: p in s.grid && s.grid[p].isBlank ==> Known(s.grid[p].letter)
    ensures KnownTiles(s)
  {
    forall t | t in s.bag ensures Known(t) {
      BagTileKnown(s, t);
    }
    forall t | s.pending.Some? && t in s.pending.value.removed ensures Known(t) {
      PendingTileKnown(s, t);
    }
    forall i, t | 0 <= i < |s.players| && t in s.players[i].hand ensures Known(t) {
      HandTileKnown(s, i, t);
    }
    forall p | p in s.grid ensures Known(s.grid[p].letter) {
      BoardTileKnown(s, p);
    }
  }

  // ----- Reading any record -----

  // The texts that some tile prints.
  function KnownTexts(letters: Alphabet, texts: seq<string>): seq<string> {
    if texts == [] then []
    else KnownTexts(letters, texts[..|texts| - 1]) + if texts[|texts| - 1] in letters then [texts[|texts| - 1]] else []
  }

  /** Of any list of texts exactly the known ones are read, in their order; the others are left out. */
  lemma {:induction false} KnownTextsAreRead(letters: Alphabet, texts: seq<string>)
    ensures TilesToJson(letters, TilesFromJson(letters, texts)) == KnownTexts(letters, texts)
  {
    if texts != [] {
      var front, last := texts[..|texts| - 1], texts[|texts| - 1];
      KnownTextsAreRead(letters, front);
      var read := TilesFromJson(letters, front);
      var tile := FromStr(letters, last);
      if tile.Some? {
        assert TilesToJson(letters, read + [tile.value]) == TilesToJson(letters, read) + [last];
      } else {
        assert last !in letters;
        assert read + [] == read;
      }
    }
  }

  /** Of any rows exactly the cells on the board with a known letter are read. */
  lemma KnownCellsAreRead(letters: Alphabet, rows: SavedBoard, p: Pos)
    ensures p in BoardFromJson(letters, rows)
            <==> && 0 <= p.r < 15 && 0 <= p.c < 15 && p.r < |rows| && p.c < |rows[p.r]|
                 && rows[p.r][p.c].Some? && rows[p.r][p.c].value.letter in letters
    ensures p in BoardFromJson(letters, rows) ==>
              SavedCell(Print(letters, BoardFromJson(letters, rows)[p].letter), BoardFromJson(letters, rows)[p].isBlank)
              == rows[p.r][p.c].value
  {
    if OnBoard(p) && p.r < |rows| && p.c < |rows[p.r]| && rows[p.r][p.c].Some? {
      var text := rows[p.r][p.c].value.letter;
      var tile := FromStr(letters, text);
      assert tile.None? ==> text !in letters;
      assert tile.Some? ==> letters[tile.value.index] == text;
    }
  }
}
