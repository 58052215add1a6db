/** A pending placement and its votes. */
module Challenges {
  import opened Results
  import opened Tiles
  import opened Grids
  import opened GameStates

  class Challenge {
    const tiles: seq<Placed>
    const formed: seq<FormedWord>
    const score: int
    const removed: seq<Tile>
    var playerIdx: nat
    var votes: map<string, Vote>

    function Value(): Pending
      reads this
    {
      Pending(tiles, formed, score, playerIdx, removed, votes)
    }

    constructor (tiles: seq<Placed>, formed: seq<FormedWord>, score: int, playerIdx: nat, removed: seq<Tile>)
      ensures Value() == Pending(tiles, formed, score, playerIdx, removed, map[])
    {
      this.tiles, this.formed, this.score, this.removed := tiles, formed, score, removed;
      this.playerIdx, votes := playerIdx, map[];
    }

    method AddVote(id: string, vote: Vote)
      modifies this`votes
      ensures votes == old(votes)[id := vote]
    {
      votes := votes[id := vote];
    }

    // The vote of a player who comes back under a new id moves along.
    method UpdatePlayerSid(oldId: string, newId: string)
      modifies this`votes
      ensures votes == MovedVote(old(votes), oldId, newId)
    {
      if oldId in votes {
        var vote := votes[oldId];
        votes := votes - {oldId};
        votes := votes[newId := vote];
      }
    }
  }
}
