/**
 Cutting a word into tiles. A word may have several tilings (S+Z or SZ). Two algorithms walk over them:
 a table over prefixes that keeps one best tiling (the tokenizer), and a backtracking search that lists
 every tiling without a split digraph (the word list of the duel engine).
 */
module Tilings {
  import opened Results
  import opened Tiles

  // The text that a row of tiles spells.
  ghost function Text(letters: Alphabet, tiles: seq<Tile>): string {
    if tiles == [] then "" else Text(letters, tiles[..|tiles| - 1]) + Print(letters, tiles[|tiles| - 1])
  }

  ghost predicate IsTiling(letters: Alphabet, tiles: seq<Tile>, word: string) {
    Text(letters, tiles) == word && forall i :: 0 <= i < |tiles| ==> 0 < tiles[i].index < |letters|
  }

  ghost function Points(tiles: seq<Tile>): int {
    if tiles == [] then 0 else Points(tiles[..|tiles| - 1]) + Value(tiles[|tiles| - 1])
  }

  // Fewer tiles come first; among equally many, more points come first.
  datatype Cost = Cost(count: int, negScore: int) {
    predicate Less(other: Cost) {
      count < other.count || (count == other.count && negScore < other.negScore)
    }

    function Plus(tile: Tile): Cost {
      Cost(count + 1, negScore - Value(tile))
    }
  }

  ghost function CostOf(tiles: seq<Tile>): Cost {
    Cost(|tiles|, -Points(tiles))
  }

  ghost predicate Optimal(letters: Alphabet, tiles: seq<Tile>, word: string) {
    && IsTiling(letters, tiles, word)
    && forall other :: IsTiling(letters, other, word) ==> !CostOf(other).Less(CostOf(tiles))
  }

  // What the tokenizer promises: a best tiling, or None exactly when there is no tiling at all.
  ghost predicate Tokenizes(letters: Alphabet, result: Option<seq<Tile>>, word: string) {
    match result
    case Some(tiles) => Optimal(letters, tiles, word)
    case None => forall other :: !IsTiling(letters, other, word)
  }

  // No other tiling has fewer tiles, or as many and more points.
  ghost predicate FewestThenMost(letters: Alphabet, tiles: seq<Tile>, word: string) {
    && IsTiling(letters, tiles, word)
    && forall other :: IsTiling(letters, other, word) ==>
         |tiles| < |other| || (|tiles| == |other| && Points(tiles) >= Points(other))
  }

  /** A best tiling has the fewest tiles and, among those that have as many, the most points. */
  lemma OptimalIff(letters: Alphabet, tiles: seq<Tile>, word: string)
    ensures Optimal(letters, tiles, word) <==> FewestThenMost(letters, tiles, word)
  {
    forall other ensures !CostOf(other).Less(CostOf(tiles))
                         <==> |tiles| < |other| || (|tiles| == |other| && Points(tiles) >= Points(other)) {
    }
    hide Points, IsTiling;
  }

  lemma TextOfSnoc(letters: Alphabet, tiles: seq<Tile>, t: Tile)
    ensures Text(letters, tiles + [t]) == Text(letters, tiles) + Print(letters, t)
    ensures Points(tiles + [t]) == Points(tiles) + Value(t)
    ensures CostOf(tiles + [t]) == CostOf(tiles).Plus(t)
  {
    assert (tiles + [t])[..|tiles|] == tiles;
  }

  lemma Associative(a: string, b: string, c: string)
    ensures (a + b) + c == a + (b + c)
  {
  }

  lemma {:induction false} TextOfConcat(letters: Alphabet, a: seq<Tile>, b: seq<Tile>)
    ensures Text(letters, a + b) == Text(letters, a) + Text(letters, b)
  {
    if b == [] {
      assert a + b == a;
    } else {
      hide Text;
      var front, last := b[..|b| - 1], b[|b| - 1];
      assert b == front + [last];
      TextOfConcat(letters, a, front);
      TextOfTwoParts(letters, a, front, last);
    }
  }

  lemma TextOfTwoParts(letters: Alphabet, a: seq<Tile>, front: seq<Tile>, last: Tile)
    requires Text(letters, a + front) == Text(letters, a) + Text(letters, front)
    ensures Text(letters, a + (front + [last])) == Text(letters, a) + Text(letters, front + [last])
  {
    assert a + (front + [last]) == (a + front) + [last];
    TextOfSnoc(letters, a + front, last);
    TextOfSnoc(letters, front, last);
    Associative(Text(letters, a), Text(letters, front), Print(letters, last));
  }

  // The last tile of a non-empty tiling, and what is left before it.
  lemma TilingEndsWith(letters: Alphabet, tiles: seq<Tile>, word: string)
    requires IsAlphabet(letters)
    requires IsTiling(letters, tiles, word) && tiles != []
    ensures var last := tiles[|tiles| - 1];
            var start := |word| - |Print(letters, last)|;
            && 1 <= |Print(letters, last)| <= 2
            && 0 <= start
            && word[start..] == Print(letters, last)
            && IsTiling(letters, tiles[..|tiles| - 1], word[..start])
            && FromStr(letters, word[start..]) == Some(last)
  {
    var last := tiles[|tiles| - 1];
    var front := Text(letters, tiles[..|tiles| - 1]);
    assert word == front + Print(letters, last);
    assert word[..|front|] == front;
    assert word[|front|..] == Print(letters, last);
  }

  // ----- The tokenizer -----

  datatype Best = Best(cost: Cost, parts: seq<Tile>)

  // Every recorded entry is a tiling of its prefix with its true cost.
  ghost predicate Recorded(letters: Alphabet, best: seq<Option<Best>>, word: string) {
    && |best| == |word| + 1
    && forall k :: 0 <= k <= |word| && best[k].Some? ==>
         IsTiling(letters, best[k].value.parts, word[..k]) && best[k].value.cost == CostOf(best[k].value.parts)
  }

  // The entry of prefix k is at most as costly as this tiling of it.
  ghost predicate Beats(entry: Option<Best>, tiles: seq<Tile>) {
    entry.Some? && !CostOf(tiles).Less(entry.value.cost)
  }

  // Where the last tile of a tiling of the first k characters begins (-1 for the empty tiling).
  ghost function LastStart(letters: Alphabet, tiles: seq<Tile>, k: nat): int {
    if tiles == [] then -1 else k - |Print(letters, tiles[|tiles| - 1])|
  }

  // The last tile of the tiling begins before i, or at i with at most `size` characters.
  ghost predicate Reached(letters: Alphabet, tiles: seq<Tile>, k: nat, i: int, size: int) {
    var start := LastStart(letters, tiles, k);
    start < i || (start == i && k <= i + size)
  }

  // All tilings reached so far have been considered.
  ghost predicate Considered(letters: Alphabet, best: seq<Option<Best>>, word: string, i: int, size: int)
    requires |best| == |word| + 1
  {
    forall k, tiles | 0 <= k <= |word| && IsTiling(letters, tiles, word[..k]) && Reached(letters, tiles, k, i, size) ::
      Beats(best[k], tiles)
  }

  // A tiling whose last tile takes `size` characters from position i on: its front has been considered.
  lemma FrontBeaten(letters: Alphabet, best: seq<Option<Best>>, word: string, i: nat, size: nat, tiles: seq<Tile>)
    requires IsAlphabet(letters)
    requires 1 <= size <= 2 && i + size <= |word| && |best| == |word| + 1
    requires Considered(letters, best, word, i, size - 1)
    requires IsTiling(letters, tiles, word[..i + size]) && LastStart(letters, tiles, i + size) == i
    ensures tiles != [] && Beats(best[i], tiles[..|tiles| - 1])
    ensures FromStr(letters, word[i..i + size]) == Some(tiles[|tiles| - 1])
  {
    TilingEndsWith(letters, tiles, word[..i + size]);
    var front := tiles[..|tiles| - 1];
    assert word[..i + size][..i] == word[..i] && word[..i + size][i..] == word[i..i + size];
    if front != [] {
      TilingEndsWith(letters, front, word[..i]);
    }
    assert Reached(letters, front, i, i, size - 1);
  }

  lemma ExtendedBeats(entry: Best, tiles: seq<Tile>)
    requires tiles != [] && Beats(Some(entry), tiles[..|tiles| - 1])
    ensures !CostOf(tiles).Less(entry.cost.Plus(tiles[|tiles| - 1]))
  {
  }

  lemma KeepsBeating(before: Option<Best>, after: Option<Best>, tiles: seq<Tile>)
    requires Beats(before, tiles)
    requires after == before || (after.Some? && !before.value.cost.Less(after.value.cost))
    ensures Beats(after, tiles)
  {
  }

  lemma TilingExtends(letters: Alphabet, tiles: seq<Tile>, word: string, i: nat, size: nat, tile: Tile)
    requires i + size <= |word| && IsTiling(letters, tiles, word[..i])
    requires FromStr(letters, word[i..i + size]) == Some(tile) && tile != BLANK
    ensures IsTiling(letters, tiles + [tile], word[..i + size])
  {
    TextOfSnoc(letters, tiles, tile);
    assert word[..i] + word[i..i + size] == word[..i + size];
  }

  // One relaxation step: the entry `size` further on may be replaced by entry i extended with `tile`.
  lemma RelaxRecords(letters: Alphabet, before: seq<Option<Best>>, word: string, i: nat, size: nat, tile: Tile)
    requires 1 <= size <= 2 && i + size <= |word|
    requires Recorded(letters, before, word)
    requires before[i].Some? && FromStr(letters, word[i..i + size]) == Some(tile) && tile != BLANK
    ensures var entry := Best(before[i].value.cost.Plus(tile), before[i].value.parts + [tile]);
            Recorded(letters, before[i + size := Some(entry)], word)
  {
    TilingExtends(letters, before[i].value.parts, word, i, size, tile);
    TextOfSnoc(letters, before[i].value.parts, tile);
  }

  lemma RelaxBeats(letters: Alphabet, before: seq<Option<Best>>, after: Option<Best>, word: string, i: nat, size: nat,
                   tiles: seq<Tile>)
    requires IsAlphabet(letters)
    requires 1 <= size <= 2 && i + size <= |word| && |before| == |word| + 1
    requires Considered(letters, before, word, i, size - 1)
    requires before[i].Some? && FromStr(letters, word[i..i + size]).Some?
    requires after.Some? && !before[i].value.cost.Plus(FromStr(letters, word[i..i + size]).value).Less(after.value.cost)
    requires before[i + size].Some? ==> !before[i + size].value.cost.Less(after.value.cost)
    requires IsTiling(letters, tiles, word[..i + size]) && Reached(letters, tiles, i + size, i, size)
    ensures Beats(after, tiles)
  {
    if LastStart(letters, tiles, i + size) == i {
      FrontBeaten(letters, before, word, i, size, tiles);
      ExtendedBeats(before[i].value, tiles);
    } else {
      assert Reached(letters, tiles, i + size, i, size - 1);
      KeepsBeating(before[i + size], after, tiles);
    }
  }

  lemma RelaxConsiders(letters: Alphabet, before: seq<Option<Best>>, after: Option<Best>, word: string, i: nat,
                       size: nat)
    requires IsAlphabet(letters)
    requires 1 <= size <= 2 && i + size <= |word| && |before| == |word| + 1
    requires Considered(letters, before, word, i, size - 1)
    requires before[i].Some? && FromStr(letters, word[i..i + size]).Some?
    requires after.Some? && !before[i].value.cost.Plus(FromStr(letters, word[i..i + size]).value).Less(after.value.cost)
    requires before[i + size].Some? ==> !before[i + size].value.cost.Less(after.value.cost)
    ensures Considered(letters, before[i + size := after], word, i, size)
  {
    var best := before[i + size := after];
    forall k, tiles | 0 <= k <= |word| && IsTiling(letters, tiles, word[..k]) && Reached(letters, tiles, k, i, size)
      ensures Beats(best[k], tiles)
    {
      if k == i + size {
        RelaxBeats(letters, before, after, word, i, size, tiles);
      } else {
        assert Reached(letters, tiles, k, i, size - 1);
        assert Beats(before[k], tiles);
      }
    }
  }

  // When no tile carries the text, or nothing reaches position i, there is nothing to add.
  lemma NothingToConsider(letters: Alphabet, best: seq<Option<Best>>, word: string, i: nat, size: nat)
    requires IsAlphabet(letters)
    requires 1 <= size <= 2 && |best| == |word| + 1 && i <= |word|
    requires Considered(letters, best, word, i, size - 1)
    requires i + size > |word| || best[i].None? || FromStr(letters, word[i..i + size]) in {None, Some(BLANK)}
    ensures Considered(letters, best, word, i, size)
  {
    forall k, tiles | 0 <= k <= |word| && IsTiling(letters, tiles, word[..k]) && Reached(letters, tiles, k, i, size)
      ensures Beats(best[k], tiles)
    {
      if LastStart(letters, tiles, k) == i && k == i + size {
        FrontBeaten(letters, best, word, i, size, tiles);
        assert false;
      }
    }
  }

  lemma NextPosition(letters: Alphabet, best: seq<Option<Best>>, word: string, i: nat)
    requires IsAlphabet(letters)
    requires Recorded(letters, best, word) && Considered(letters, best, word, i, 2)
    ensures Considered(letters, best, word, i + 1, 0)
  {
    forall k, tiles | 0 <= k <= |word| && IsTiling(letters, tiles, word[..k]) && Reached(letters, tiles, k, i + 1, 0)
      ensures Beats(best[k], tiles)
    {
      if tiles != [] {
        TilingEndsWith(letters, tiles, word[..k]);
      }
    }
  }

  // Extends entry i by the tile that prints the next `size` characters, if there is one.
  method Relax(letters: Alphabet, best: array<Option<Best>>, word: string, i: nat, size: nat)
    requires IsAlphabet(letters)
    requires 1 <= size <= 2 && i < |word| && best.Length == |word| + 1
    requires best[i].Some? && Recorded(letters, best[..], word) && Considered(letters, best[..], word, i, size - 1)
    modifies best
    ensures best[i] == old(best[i])
    ensures Recorded(letters, best[..], word) && Considered(letters, best[..], word, i, size)
  {
    ghost var before := best[..];
    if i + size > |word| {
      NothingToConsider(letters, before, word, i, size);
      return;
    }
    var piece := FromStr(letters, word[i..i + size]);
    if piece.None? || piece.value == BLANK {
      NothingToConsider(letters, before, word, i, size);
      return;
    }
    var entry := best[i].value;
    var cand := entry.cost.Plus(piece.value);
    RelaxRecords(letters, before, word, i, size, piece.value);
    if best[i + size].None? || cand.Less(best[i + size].value.cost) {
      best[i + size] := Some(Best(cand, entry.parts + [piece.value]));
    }
    assert best[..] == before[i + size := best[i + size]];
    RelaxConsiders(letters, before, best[i + size], word, i, size);
  }

  method TokenizeWord(letters: Alphabet, word: string) returns (result: Option<seq<Tile>>)
    requires IsAlphabet(letters)
    ensures Tokenizes(letters, result, word)
  {
    var n := |word|;
    var best := new Option<Best>[n + 1](_ => None);
    best[0] := Some(Best(Cost(0, 0), []));
    NothingReached(letters, best[..], word);
    var i := 0;
    while i < n
      invariant 0 <= i <= n
      invariant Recorded(letters, best[..], word) && Considered(letters, best[..], word, i, 0)
    {
      if best[i].Some? {
        Relax(letters, best, word, i, 1);
        Relax(letters, best, word, i, 2);
      } else {
        NothingToConsider(letters, best[..], word, i, 1);
        NothingToConsider(letters, best[..], word, i, 2);
      }
      NextPosition(letters, best[..], word, i);
      i := i + 1;
    }
    AllConsidered(letters, best[..], word);
    return if best[n].Some? then Some(best[n].value.parts) else None;
  }

  lemma NothingReached(letters: Alphabet, best: seq<Option<Best>>, word: string)
    requires IsAlphabet(letters) && |best| == |word| + 1
    requires best[0] == Some(Best(Cost(0, 0), [])) && forall k :: 0 < k < |best| ==> best[k].None?
    ensures Recorded(letters, best, word) && Considered(letters, best, word, 0, 0)
  {
    forall k, tiles | 0 <= k <= |word| && IsTiling(letters, tiles, word[..k]) && Reached(letters, tiles, k, 0, 0)
      ensures Beats(best[k], tiles)
    {
      if tiles != [] {
        TilingEndsWith(letters, tiles, word[..k]);
      }
    }
  }

  lemma AllConsidered(letters: Alphabet, best: seq<Option<Best>>, word: string)
    requires IsAlphabet(letters)
    requires Recorded(letters, best, word) && Considered(letters, best, word, |word|, 0)
    ensures Tokenizes(letters, if best[|word|].Some? then Some(best[|word|].value.parts) else None, word)
  {
    assert word[..|word|] == word;
    forall tiles | IsTiling(letters, tiles, word)
      ensures Beats(best[|word|], tiles)
    {
      if tiles != [] {
        TilingEndsWith(letters, tiles, word);
      }
      assert Reached(letters, tiles, |word|, |word|, 0);
    }
  }

  // ----- The listing of all tilings without a split digraph -----

  ghost predicate NoSplit(letters: Alphabet, tiles: seq<Tile>) {
    forall i :: 0 < i < |tiles| ==> !FormsDigraph(letters, Print(letters, tiles[i - 1]), Print(letters, tiles[i]))
  }

  ghost predicate Legal(letters: Alphabet, tiles: seq<Tile>, word: string) {
    IsTiling(letters, tiles, word) && NoSplit(letters, tiles)
  }

  // May the search put this tile behind the ones it has chosen?
  predicate Fits(letters: Alphabet, current: seq<Tile>, tile: Tile) {
    && tile != BLANK
    && (current == [] || !FormsDigraph(letters, Print(letters, current[|current| - 1]), Print(letters, tile)))
  }

  // Everything the search appends from position `at`, given the tiles chosen so far.
  ghost function Listed(letters: Alphabet, word: string, at: nat, current: seq<Tile>): seq<seq<Tile>>
    requires at <= |word|
    decreases |word| - at, 1
  {
    if at == |word| then [current]
    else ListedBySize(letters, word, at, current, 1) + ListedBySize(letters, word, at, current, 2)
  }

  ghost function ListedBySize(letters: Alphabet, word: string, at: nat, current: seq<Tile>, size: nat): seq<seq<Tile>>
    requires at < |word| && 1 <= size <= 2
    decreases |word| - at, 0
  {
    if at + size > |word| then []
    else
      match FromStr(letters, word[at..at + size])
      case None => []
      case Some(tile) =>
        if Fits(letters, current, tile) then Listed(letters, word, at + size, current + [tile]) else []
  }

  // What the pieces shorter than `size` lead to.
  ghost function ListedBelow(letters: Alphabet, word: string, at: nat, current: seq<Tile>, size: nat): seq<seq<Tile>>
    requires at < |word| && 1 <= size <= 3
  {
    if size == 1 then []
    else if size == 2 then ListedBySize(letters, word, at, current, 1)
    else ListedBySize(letters, word, at, current, 1) + ListedBySize(letters, word, at, current, 2)
  }

  // A piece of one size leads to what its tile leads to, if there is one that fits.
  lemma BySizeIs(letters: Alphabet, word: string, at: nat, current: seq<Tile>, size: nat)
    requires at < |word| && 1 <= size <= 2 && at + size <= |word|
    ensures var piece := FromStr(letters, word[at..at + size]);
            ListedBySize(letters, word, at, current, size)
            == if piece.Some? && Fits(letters, current, piece.value)
               then Listed(letters, word, at + size, current + [piece.value]) else []
  {
  }

  lemma BelowGrows(letters: Alphabet, word: string, at: nat, current: seq<Tile>, size: nat)
    requires at < |word| && 1 <= size <= 2
    ensures ListedBelow(letters, word, at, current, size + 1)
            == ListedBelow(letters, word, at, current, size)
               + if at + size <= |word| then ListedBySize(letters, word, at, current, size) else []
    ensures ListedBelow(letters, word, at, current, 1) == []
    ensures Listed(letters, word, at, current) == ListedBelow(letters, word, at, current, 3)
  {
  }

  lemma Appended(a: seq<seq<Tile>>, b: seq<seq<Tile>>, c: seq<seq<Tile>>)
    ensures (a + b) + c == a + (b + c)
  {
  }

  class TilingSearch {
    var current: seq<Tile>
    var out: seq<seq<Tile>>

    constructor ()
      ensures current == [] && out == []
    {
      current, out := [], [];
    }

    method Search(letters: Alphabet, word: string, at: nat)
      requires at <= |word|
      modifies this
      ensures current == old(current)
      ensures out == old(out) + Listed(letters, word, at, old(current))
      decreases |word| - at, 1
    {
      if at == |word| {
        out := out + [current];
        return;
      }
      ghost var before, chosen := out, current;
      BelowGrows(letters, word, at, chosen, 1);
      hide Listed, ListedBySize, ListedBelow;
      var size := 1;
      while size <= 2
        invariant 1 <= size <= 3
        invariant current == chosen
        invariant out == before + ListedBelow(letters, word, at, chosen, size)
      {
        BelowGrows(letters, word, at, chosen, size);
        ghost var below := ListedBelow(letters, word, at, chosen, size);
        if at + size <= |word| {
          Appended(before, below, ListedBySize(letters, word, at, chosen, size));
          TryPiece(letters, word, at, size);
        } else {
          assert below + [] == below;
        }
        size := size + 1;
      }
    }

    // Chooses the tile that prints the next `size` characters, if there is one that may be chosen.
    method TryPiece(letters: Alphabet, word: string, at: nat, size: nat)
      requires at < |word| && 1 <= size <= 2 && at + size <= |word|
      modifies this
      ensures current == old(current)
      ensures out == old(out) + ListedBySize(letters, word, at, old(current), size)
      decreases |word| - at, 0
    {
      BySizeIs(letters, word, at, current, size);
      hide Listed, ListedBySize, Fits, FromStr;
      var piece := FromStr(letters, word[at..at + size]);
      if piece.Some? && Fits(letters, current, piece.value) {
        ghost var before := current;
        current := current + [piece.value];
        Search(letters, word, at + size);
        current := current[..|current| - 1];
        assert current == before;
      } else {
        assert out + [] == out;
      }
    }
  }

  method LegalTilings(letters: Alphabet, word: string) returns (out: seq<seq<Tile>>)
    requires IsAlphabet(letters)
    ensures ListsLegal(letters, out, word)
  {
    var search := new TilingSearch();
    search.Search(letters, word, 0);
    assert word[..0] == "" && Listed(letters, word, 0, []) == search.out;
    forall tiles ensures tiles in search.out <==> Legal(letters, tiles, word) {
      ListedExactly(letters, word, 0, [], tiles);
    }
    ListedOnce(letters, word, 0, []);
    return search.out;
  }

  ghost predicate Distinct<T>(xs: seq<T>) {
    forall i, j :: 0 <= i < j < |xs| ==> xs[i] != xs[j]
  }

  // What the word list needs: every legal tiling, nothing else, each once.
  ghost predicate ListsLegal(letters: Alphabet, out: seq<seq<Tile>>, word: string) {
    && (forall tiles :: tiles in out <==> Legal(letters, tiles, word))
    && Distinct(out)
  }

  ghost predicate Chosen(letters: Alphabet, word: string, at: nat, current: seq<Tile>)
    requires at <= |word|
  {
    Legal(letters, current, word[..at])
  }

  lemma ChosenExtends(letters: Alphabet, word: string, at: nat, current: seq<Tile>, size: nat, tile: Tile)
    requires at + size <= |word| && Chosen(letters, word, at, current)
    requires FromStr(letters, word[at..at + size]) == Some(tile) && Fits(letters, current, tile)
    ensures Chosen(letters, word, at + size, current + [tile])
  {
    TilingExtends(letters, current, word, at, size, tile);
  }

  lemma MisfitIsNotLegal(letters: Alphabet, word: string, current: seq<Tile>, tiles: seq<Tile>)
    requires current < tiles && !Fits(letters, current, tiles[|current|])
    ensures !Legal(letters, tiles, word)
  {
    assert current != [] ==> tiles[|current| - 1] == current[|current| - 1];
  }

  // The next tile of a tiling that continues the chosen tiles.
  lemma NextTile(letters: Alphabet, word: string, at: nat, current: seq<Tile>, tiles: seq<Tile>)
    requires IsAlphabet(letters)
    requires at <= |word| && Chosen(letters, word, at, current)
    requires IsTiling(letters, tiles, word) && current <= tiles
    ensures tiles == current <==> at == |word|
    ensures tiles != current ==>
              var next := tiles[|current|];
              var size := |Print(letters, next)|;
              1 <= size <= 2 && at + size <= |word| && FromStr(letters, word[at..at + size]) == Some(next)
              && current + [next] <= tiles
  {
    if tiles == current {
      assert word[..at] == word;
    } else {
      var next := tiles[|current|];
      var rest := tiles[|current| + 1..];
      assert tiles == (current + [next]) + rest;
      TextOfConcat(letters, current + [next], rest);
      TextOfSnoc(letters, current, next);
      assert word == word[..at] + Print(letters, next) + Text(letters, rest);
    }
  }

  lemma {:induction false} ListedExactly(letters: Alphabet, word: string, at: nat, current: seq<Tile>, tiles: seq<Tile>)
    requires IsAlphabet(letters)
    requires at <= |word| && Chosen(letters, word, at, current)
    ensures tiles in Listed(letters, word, at, current) <==> current <= tiles && Legal(letters, tiles, word)
    decreases |word| - at, 1
  {
    if at == |word| {
      assert word[..at] == word;
      if current <= tiles && Legal(letters, tiles, word) {
        NextTile(letters, word, at, current, tiles);
      }
    } else {
      ListedExactlyBySize(letters, word, at, current, 1, tiles);
      if at + 2 <= |word| {
        ListedExactlyBySize(letters, word, at, current, 2, tiles);
      }
      if current <= tiles && Legal(letters, tiles, word) {
        NextTile(letters, word, at, current, tiles);
      }
    }
  }

  // A legal tiling that goes on from the chosen tiles with a tile of `size` characters.
  ghost predicate Continues(letters: Alphabet, word: string, current: seq<Tile>, size: nat, tiles: seq<Tile>) {
    current < tiles && Legal(letters, tiles, word) && |Print(letters, tiles[|current|])| == size
  }

  // Where the next piece is no tile that may be chosen, no legal tiling continues with a piece of that size.
  lemma NoneBySize(letters: Alphabet, word: string, at: nat, current: seq<Tile>, size: nat, tiles: seq<Tile>)
    requires IsAlphabet(letters)
    requires at < |word| && 1 <= size <= 2 && at + size <= |word| && Chosen(letters, word, at, current)
    requires var piece := FromStr(letters, word[at..at + size]); piece.None? || !Fits(letters, current, piece.value)
    ensures !Continues(letters, word, current, size, tiles)
  {
    if Continues(letters, word, current, size, tiles) {
      NextTile(letters, word, at, current, tiles);
      MisfitIsNotLegal(letters, word, current, tiles);
    }
  }

  // A legal tiling that continues with a piece of the given size continues with the tile the search chooses.
  lemma OneBySize(letters: Alphabet, word: string, at: nat, current: seq<Tile>, size: nat, tile: Tile, tiles: seq<Tile>)
    requires IsAlphabet(letters)
    requires at < |word| && 1 <= size <= 2 && at + size <= |word| && Chosen(letters, word, at, current)
    requires FromStr(letters, word[at..at + size]) == Some(tile)
    ensures Continues(letters, word, current, size, tiles) <==> current + [tile] <= tiles && Legal(letters, tiles, word)
  {
    if current < tiles && Legal(letters, tiles, word) {
      NextTile(letters, word, at, current, tiles);
    }
  }

  lemma FoundBySize(letters: Alphabet, word: string, at: nat, current: seq<Tile>, size: nat, tile: Tile,
                    tiles: seq<Tile>)
    requires IsAlphabet(letters)
    requires at < |word| && 1 <= size <= 2 && at + size <= |word| && Chosen(letters, word, at, current)
    requires FromStr(letters, word[at..at + size]) == Some(tile) && Fits(letters, current, tile)
    requires tiles in Listed(letters, word, at + size, current + [tile])
             <==> current + [tile] <= tiles && Legal(letters, tiles, word)
    ensures tiles in ListedBySize(letters, word, at, current, size) <==> Continues(letters, word, current, size, tiles)
  {
    hide Listed, ListedBySize, Continues, Chosen, Legal;
    BySizeIs(letters, word, at, current, size);
    OneBySize(letters, word, at, current, size, tile, tiles);
  }

  lemma NotListedBySize(letters: Alphabet, word: string, at: nat, current: seq<Tile>, size: nat)
    requires at < |word| && 1 <= size <= 2 && at + size <= |word|
    requires var piece := FromStr(letters, word[at..at + size]); piece.None? || !Fits(letters, current, piece.value)
    ensures ListedBySize(letters, word, at, current, size) == []
  {
  }

  // The tilings found through a tile of `size` characters are those whose next tile has that size.
  lemma {:induction false} ListedExactlyBySize(letters: Alphabet, word: string, at: nat, current: seq<Tile>, size: nat,
                                               tiles: seq<Tile>)
    requires IsAlphabet(letters)
    requires at < |word| && 1 <= size <= 2 && at + size <= |word| && Chosen(letters, word, at, current)
    ensures tiles in ListedBySize(letters, word, at, current, size) <==> Continues(letters, word, current, size, tiles)
    decreases |word| - at, 0
  {
    hide Listed, ListedBySize, Continues, Chosen, Legal, Fits, FromStr, Find;
    var piece := FromStr(letters, word[at..at + size]);
    if piece.Some? && Fits(letters, current, piece.value) {
      ChosenExtends(letters, word, at, current, size, piece.value);
      ListedExactly(letters, word, at + size, current + [piece.value], tiles);
      FoundBySize(letters, word, at, current, size, piece.value, tiles);
    } else {
      NoneBySize(letters, word, at, current, size, tiles);
      NotListedBySize(letters, word, at, current, size);
    }
  }

  lemma {:induction false} ListedOnce(letters: Alphabet, word: string, at: nat, current: seq<Tile>)
    requires IsAlphabet(letters)
    requires at <= |word| && Chosen(letters, word, at, current)
    ensures Distinct(Listed(letters, word, at, current))
    decreases |word| - at, 1
  {
    if at < |word| {
      var ones := ListedBySize(letters, word, at, current, 1);
      var twos := ListedBySize(letters, word, at, current, 2);
      ListedOnceBySize(letters, word, at, current, 1);
      ListedOnceBySize(letters, word, at, current, 2);
      forall x | x in ones && x in twos ensures false {
        ListedExactlyBySize(letters, word, at, current, 1, x);
        if at + 2 <= |word| {
          ListedExactlyBySize(letters, word, at, current, 2, x);
        }
      }
      forall i, j | 0 <= i < |ones| && 0 <= j < |twos| ensures ones[i] != twos[j] {
        assert ones[i] in ones && twos[j] in twos;
      }
    }
  }

  lemma {:induction false} ListedOnceBySize(letters: Alphabet, word: string, at: nat, current: seq<Tile>, size: nat)
    requires IsAlphabet(letters)
    requires at < |word| && 1 <= size <= 2 && Chosen(letters, word, at, current)
    ensures Distinct(ListedBySize(letters, word, at, current, size))
    decreases |word| - at, 0
  {
    if at + size <= |word| {
      var piece := FromStr(letters, word[at..at + size]);
      if piece.Some? && Fits(letters, current, piece.value) {
        ChosenExtends(letters, word, at, current, size, piece.value);
        ListedOnce(letters, word, at + size, current + [piece.value]);
      }
    }
  }

  // ----- The two algorithms agree -----

  lemma MergedText(letters: Alphabet, front: seq<Tile>, first: Tile, second: Tile, t: Tile)
    requires Print(letters, t) == Print(letters, first) + Print(letters, second)
    ensures Text(letters, front + [t]) == Text(letters, front + [first, second])
  {
    assert front + [first, second] == (front + [first]) + [second];
    TextOfSnoc(letters, front + [first], second);
    TextOfSnoc(letters, front, first);
    TextOfSnoc(letters, front, t);
    Associative(Text(letters, front), Print(letters, first), Print(letters, second));
  }

  // A split digraph can be replaced by the tile that prints it, which saves a tile.
  lemma MergeSplit(letters: Alphabet, front: seq<Tile>, first: Tile, second: Tile, back: seq<Tile>, word: string)
    returns (merged: seq<Tile>)
    requires IsTiling(letters, front + [first, second] + back, word)
    requires FormsDigraph(letters, Print(letters, first), Print(letters, second))
    requires IsAlphabet(letters)
    ensures IsTiling(letters, merged, word) && |merged| == |front| + 1 + |back|
  {
    var index :| 0 <= index < |letters| && letters[index] == Print(letters, first) + Print(letters, second);
    var t := Tile(index);
    assert t != BLANK;
    merged := front + [t] + back;
    hide Text;
    MergedText(letters, front, first, second, t);
    TextOfConcat(letters, front + [first, second], back);
    TextOfConcat(letters, front + [t], back);
    MergedTiles(letters, front, first, second, back, t);
  }

  lemma MergedTiles(letters: Alphabet, front: seq<Tile>, first: Tile, second: Tile, back: seq<Tile>, t: Tile)
    requires forall i :: 0 <= i < |front + [first, second] + back| ==>
               0 < (front + [first, second] + back)[i].index < |letters|
    requires 0 < t.index < |letters|
    ensures forall i :: 0 <= i < |front + [t] + back| ==> 0 < (front + [t] + back)[i].index < |letters|
  {
    var merged, split := front + [t] + back, front + [first, second] + back;
    forall i | 0 <= i < |merged| ensures 0 < merged[i].index < |letters| {
      assert i != |front| ==> merged[i] == split[if i < |front| then i else i + 1];
    }
  }

  /** A best tiling never splits a digraph, although the tokenizer does not look for split digraphs. */
  lemma OptimalIsLegal(letters: Alphabet, tiles: seq<Tile>, word: string)
    requires IsAlphabet(letters)
    requires Optimal(letters, tiles, word)
    ensures Legal(letters, tiles, word)
  {
    if i :| 0 < i < |tiles| && FormsDigraph(letters, Print(letters, tiles[i - 1]), Print(letters, tiles[i])) {
      var front, back := tiles[..i - 1], tiles[i + 1..];
      assert tiles == front + [tiles[i - 1], tiles[i]] + back;
      var merged := MergeSplit(letters, front, tiles[i - 1], tiles[i], back, word);
      assert CostOf(merged).Less(CostOf(tiles));
    }
  }

  /** What the tokenizer returns is one of the listed tilings; it returns None iff the list is empty. */
  lemma TokenizationIsListed(letters: Alphabet, word: string, result: Option<seq<Tile>>, out: seq<seq<Tile>>)
    requires IsAlphabet(letters)
    requires Tokenizes(letters, result, word) && ListsLegal(letters, out, word)
    ensures result.Some? ==> result.value in out
    ensures result.None? <==> out == []
  {
    if result.Some? {
      OptimalIsLegal(letters, result.value, word);
    }
    if out != [] {
      var listed := out[0];
      assert listed in out;
    }
  }
}
