/** The bag of 100 tiles. A shuffle is any permutation of the contents. */
module Bags {
  import opened Tiles

  // n tiles of the same kind.
  function Copies(t: Tile, n: nat): seq<Tile> {
    seq(n, _ => t)
  }

  // The tiles of the first `kinds` kinds, in the order they are put into a new bag.
  function Supply(kinds: nat): seq<Tile>
    requires kinds <= KINDS
  {
    if kinds == 0 then [] else Supply(kinds - 1) + Copies(Tile(kinds - 1), Count(Tile(kinds - 1)))
  }

  function FullSet(): multiset<Tile> {
    multiset(Supply(KINDS))
  }

  lemma {:induction false} SupplySize(kinds: nat)
    requires kinds <= KINDS
    ensures |Supply(kinds)| ==
            if kinds == 0 then 0
            else if kinds <= 4 then 6 * kinds - 4
            else if kinds <= 9 then 4 * kinds + 5
            else if kinds <= 18 then 3 * kinds + 14
            else if kinds <= 29 then 2 * kinds + 32
            else kinds + 61
  {
    if kinds > 0 {
      SupplySize(kinds - 1);
    }
  }

  lemma {:induction false} SupplyCount(kinds: nat, t: Tile)
    requires kinds <= KINDS
    ensures multiset(Supply(kinds))[t] == if t.index < kinds then Count(t) else 0
  {
    if kinds > 0 {
      SupplyCount(kinds - 1, t);
      CopiesCount(Tile(kinds - 1), Count(Tile(kinds - 1)), t);
    }
  }

  lemma {:induction false} CopiesCount(u: Tile, n: nat, t: Tile)
    ensures multiset(Copies(u, n))[t] == if t == u then n else 0
  {
    if n > 0 {
      CopiesCount(u, n - 1, t);
      CopiesGrow(u, n - 1);
    }
  }

  lemma CopiesGrow(t: Tile, n: nat)
    ensures Copies(t, n + 1) == Copies(t, n) + [t]
  {
  }

  lemma FullSetCount(t: Tile)
    ensures FullSet()[t] == Count(t)
  {
    hide Supply;
    SupplyCount(KINDS, t);
  }

  /** The full set is 100 tiles, `Count(t)` of each kind. */
  lemma FullSetCounts()
    ensures |FullSet()| == 100
    ensures forall t: Tile :: FullSet()[t] == Count(t)
  {
    SupplySize(KINDS);
    forall t: Tile ensures FullSet()[t] == Count(t) {
      FullSetCount(t);
    }
  }

  // These are the tiles of the first `kinds` kinds, in any order.
  ghost predicate Supplied(tiles: seq<Tile>, kinds: nat)
    requires kinds <= KINDS
  {
    multiset(tiles) == multiset(Supply(kinds))
  }

  // All tiles of a kind have been added.
  ghost predicate KindAdded(before: seq<Tile>, after: seq<Tile>, kind: Tile) {
    multiset(after) == multiset(before) + multiset(Copies(kind, Count(kind)))
  }

  lemma NothingSupplied()
    ensures Supplied([], 0)
  {
  }

  lemma SupplyGrows(before: seq<Tile>, after: seq<Tile>, kind: nat)
    requires kind < KINDS && Supplied(before, kind) && KindAdded(before, after, Tile(kind))
    ensures Supplied(after, kind + 1)
  {
  }

  // The last `count` tiles are drawn (all of them when there are fewer).
  function Drawn(tiles: seq<Tile>, count: nat): seq<Tile> {
    tiles[|LeftAfter(tiles, count)|..]
  }

  function LeftAfter(tiles: seq<Tile>, count: nat): seq<Tile> {
    if count <= |tiles| then tiles[..|tiles| - count] else []
  }

  lemma DrawSplits(tiles: seq<Tile>, count: nat)
    ensures LeftAfter(tiles, count) + Drawn(tiles, count) == tiles
    ensures multiset(LeftAfter(tiles, count)) + multiset(Drawn(tiles, count)) == multiset(tiles)
    ensures |Drawn(tiles, count)| == if count <= |tiles| then count else |tiles|
  {
    assert LeftAfter(tiles, count) + Drawn(tiles, count) == tiles;
  }

  class TileBag {
    var tiles: seq<Tile>

    constructor ()
      ensures multiset(tiles) == FullSet()
    {
      tiles := [];
      new;
      FillKinds(KINDS);
      Shuffle();
    }

    method FillKinds(kinds: nat)
      requires kinds <= KINDS && tiles == []
      modifies this
      ensures Supplied(tiles, kinds)
    {
      hide Supplied, KindAdded;
      NothingSupplied();
      var kind := 0;
      while kind < kinds
        invariant 0 <= kind <= kinds
        invariant Supplied(tiles, kind)
      {
        ghost var before := tiles;
        Fill(Tile(kind));
        SupplyGrows(before, tiles, kind);
        kind := kind + 1;
      }
    }

    method Fill(kind: Tile)
      modifies this
      ensures KindAdded(old(tiles), tiles, kind)
    {
      assert Copies(kind, 0) == [];
      hide Copies;
      var copies := 0;
      while copies < Count(kind)
        invariant 0 <= copies <= Count(kind)
        invariant multiset(tiles) == old(multiset(tiles)) + multiset(Copies(kind, copies))
      {
        CopiesGrow(kind, copies);
        tiles := tiles + [kind];
        copies := copies + 1;
      }
    }

    method Shuffle()
      modifies this
      ensures multiset(tiles) == old(multiset(tiles))
    {
      var i := |tiles|;
      while i > 1
        invariant 0 <= i <= |tiles|
        invariant |tiles| == old(|tiles|)
        invariant multiset(tiles) == old(multiset(tiles))
      {
        i := i - 1;
        var j :| 0 <= j <= i;
        tiles := tiles[i := tiles[j]][j := tiles[i]];
      }
    }

    method Draw(count: nat) returns (drawn: seq<Tile>)
      modifies this
      ensures drawn == Drawn(old(tiles), count)
      ensures tiles == LeftAfter(old(tiles), count)
    {
      var n := if count <= |tiles| then count else |tiles|;
      if n == 0 {
        return [];
      }
      var at := |tiles| - n;
      drawn := tiles[at..];
      tiles := tiles[..at];
    }

    method PutBack(returned: seq<Tile>)
      modifies this
      ensures multiset(tiles) == old(multiset(tiles)) + multiset(returned)
    {
      tiles := tiles + returned;
      Shuffle();
    }
  }
}
