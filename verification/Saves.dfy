/**
 A saved game: a record of texts and numbers, what is written into it and what is read back. A pending
 placement is not saved; its tiles are written back into the placer's hand.
 */
module Saves {
  import opened Results
  import opened Tiles
  import opened Grids
  import opened GameStates

  datatype SavedCell = SavedCell(letter: string, isBlank: bool)

  type SavedBoard = seq<seq<Option<SavedCell>>>

  datatype SavedPlayer = SavedPlayer(id: string, name: string, hand: seq<string>, score: int, skipNextTurn: bool,
                                     disconnected: bool, timeouts: int, resigned: bool, isBot: bool)

  datatype SaveRecord = SaveRecord(
    challengeMode: bool, started: bool, finished: bool, cur: int, turnNumber: int, scoreless: int, asyncMode: bool,
    board: SavedBoard, boardEmpty: bool, bag: seq<string>, players: seq<SavedPlayer>, winnerNames: seq<string>)

  // ----- Writing -----

  function TilesToJson(letters: Alphabet, tiles: seq<Tile>): seq<string> {
    seq(|tiles|, i requires 0 <= i < |tiles| => Print(letters, tiles[i]))
  }

  function CellToJson(letters: Alphabet, g: Grid, p: Pos): Option<SavedCell> {
    if p in g then Some(SavedCell(Print(letters, g[p].letter), g[p].isBlank)) else None
  }

  function BoardToJson(letters: Alphabet, g: Grid): SavedBoard {
    seq(SIZE, r => seq(SIZE, c => CellToJson(letters, g, Pos(r, c))))
  }

  // What goes back into the hand of the player in this seat.
  function ReturnedTo(pending: Option<Pending>, seat: nat): seq<Tile> {
    if pending.Some? && pending.value.playerIdx == seat then pending.value.removed else []
  }

  function PlayerToJson(letters: Alphabet, p: Player, returned: seq<Tile>): SavedPlayer {
    SavedPlayer(p.id, p.name, TilesToJson(letters, p.hand + returned), p.score, p.skipNextTurn, p.disconnected,
                p.timeouts, p.resigned, p.isBot)
  }

  function NamesOf(players: seq<Player>): seq<string> {
    seq(|players|, i requires 0 <= i < |players| => players[i].name)
  }

  function ToSaveDict(letters: Alphabet, s: State): SaveRecord {
    SaveRecord(s.challengeMode, s.started, s.finished, s.cur, s.turnNumber, s.scoreless, s.asyncMode,
               BoardToJson(letters, s.grid), s.boardEmpty, TilesToJson(letters, s.bag),
               seq(|s.players|, i requires 0 <= i < |s.players| =>
                 PlayerToJson(letters, s.players[i], ReturnedTo(s.pending, i))),
               NamesOf(s.winners))
  }

  // ----- Reading -----

  // Unknown letters are skipped.
  function TilesFromJson(letters: Alphabet, texts: seq<string>): seq<Tile> {
    if texts == [] then []
    else
      TilesFromJson(letters, texts[..|texts| - 1]) +
      match FromStr(letters, texts[|texts| - 1])
      case Some(tile) => [tile]
      case None => []
  }

  // Rows and columns beyond the board are not looked at, an unknown letter leaves the cell empty.
  function CellFromJson(letters: Alphabet, rows: SavedBoard, p: Pos): Option<Cell> {
    if OnBoard(p) && p.r < |rows| && p.c < |rows[p.r]| && rows[p.r][p.c].Some? then
      match FromStr(letters, rows[p.r][p.c].value.letter)
      case Some(tile) => Some(Cell(tile, rows[p.r][p.c].value.isBlank))
      case None => None
    else None
  }

  function BoardFromJson(letters: Alphabet, rows: SavedBoard): Grid {
    map p | p in AllPositions() && CellFromJson(letters, rows, p).Some? :: CellFromJson(letters, rows, p).value
  }

  function AtLeastZero(n: int): nat {
    if n < 0 then 0 else n
  }

  // A bot is always connected.
  function PlayerFromJson(letters: Alphabet, p: SavedPlayer): Player {
    Player(p.id, p.name, TilesFromJson(letters, p.hand), p.score, p.skipNextTurn, !p.isBot && p.disconnected,
           AtLeastZero(p.timeouts), p.resigned, p.isBot)
  }

  function PlayersFromJson(letters: Alphabet, players: seq<SavedPlayer>): seq<Player> {
    seq(|players|, i requires 0 <= i < |players| => PlayerFromJson(letters, players[i]))
  }

  // The players with one of these names, in seat order.
  function NamedTo(players: seq<Player>, names: seq<string>, n: nat): seq<Player>
    requires n <= |players|
  {
    if n == 0 then []
    else NamedTo(players, names, n - 1) + (if players[n - 1].name in names then [players[n - 1]] else [])
  }

  function Named(players: seq<Player>, names: seq<string>): seq<Player> {
    NamedTo(players, names, |players|)
  }

  function FromSaveDict(letters: Alphabet, data: SaveRecord): State {
    var players := PlayersFromJson(letters, data.players);
    State(players, BoardFromJson(letters, data.board), data.boardEmpty, TilesFromJson(letters, data.bag),
          AtLeastZero(data.cur), data.started, data.finished, Named(players, data.winnerNames), None, data.asyncMode,
          AtLeastZero(data.scoreless), data.turnNumber, data.challengeMode, None, [], {})
  }
}
