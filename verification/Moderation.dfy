/**
 Masking banned words in a chat message. Words are searched in the folded text (without accents and case);
 what is found is mapped back to the original characters, merged and covered with stars.
 */
module Moderation {
  // What a character is folded to: any number of characters.
  type Fold = char -> string

  datatype Span = Span(start: nat, end: nat) {
    predicate Covers(i: int) {
      start <= i < end
    }

    predicate Before(other: Span) {
      start < other.start || (start == other.start && end < other.end)
    }
  }

  // ----- Folding -----

  // The folded form of the first n characters, and for each folded character the place it comes from.
  ghost function Folded(fold: Fold, text: string, n: nat): string
    requires n <= |text|
  {
    if n == 0 then "" else Folded(fold, text, n - 1) + fold(text[n - 1])
  }

  ghost function Owners(fold: Fold, text: string, n: nat): seq<nat>
    requires n <= |text|
  {
    if n == 0 then [] else Owners(fold, text, n - 1) + seq(|fold(text[n - 1])|, _ => n - 1)
  }

  // Where the folded form of character n begins.
  ghost function Offset(fold: Fold, text: string, n: nat): nat
    requires n <= |text|
  {
    |Folded(fold, text, n)|
  }

  method FoldWithMap(fold: Fold, text: string) returns (chars: string, index: seq<nat>)
    ensures chars == Folded(fold, text, |text|)
    ensures index == Owners(fold, text, |text|)
  {
    chars, index := "", [];
    var i := 0;
    while i < |text|
      invariant 0 <= i <= |text|
      invariant chars == Folded(fold, text, i) && index == Owners(fold, text, i)
    {
      var piece := fold(text[i]);
      var j := 0;
      while j < |piece|
        invariant 0 <= j <= |piece|
        invariant chars == Folded(fold, text, i) + piece[..j]
        invariant index == Owners(fold, text, i) + seq(j, _ => i)
      {
        chars := chars + [piece[j]];
        index := index + [i];
        j := j + 1;
      }
      assert piece[..j] == piece;
      i := i + 1;
    }
  }

  lemma {:induction false} OffsetsGrow(fold: Fold, text: string, i: nat, j: nat)
    requires i <= j <= |text|
    ensures Offset(fold, text, i) <= Offset(fold, text, j)
  {
    if i < j {
      OffsetsGrow(fold, text, i, j - 1);
    }
  }

  // The folded character at k comes from the character whose folded form spans k.
  lemma {:induction false} OwnerSpans(fold: Fold, text: string, n: nat, k: nat)
    requires n <= |text| && k < Offset(fold, text, n)
    ensures |Owners(fold, text, n)| == Offset(fold, text, n)
    ensures var o := Owners(fold, text, n)[k];
            && o < n && Offset(fold, text, o) <= k < Offset(fold, text, o + 1)
            && Folded(fold, text, n)[k] == fold(text[o])[k - Offset(fold, text, o)]
  {
    if k < Offset(fold, text, n - 1) {
      OwnerSpans(fold, text, n - 1, k);
      OwnersSize(fold, text, n - 1);
    } else {
      OwnersSize(fold, text, n - 1);
    }
  }

  lemma {:induction false} OwnersSize(fold: Fold, text: string, n: nat)
    requires n <= |text|
    ensures |Owners(fold, text, n)| == Offset(fold, text, n)
  {
    if n > 0 {
      OwnersSize(fold, text, n - 1);
    }
  }

  // The folded forms of different characters do not overlap.
  lemma OneOwner(fold: Fold, text: string, o: nat, p: nat, k: nat)
    requires o < |text| && p < |text|
    requires Offset(fold, text, o) <= k < Offset(fold, text, o + 1)
    requires Offset(fold, text, p) <= k < Offset(fold, text, p + 1)
    ensures o == p
  {
    if p < o {
      OffsetsGrow(fold, text, p + 1, o);
    } else if o < p {
      OffsetsGrow(fold, text, o + 1, p);
    }
  }

  // The folded character at k of the whole text is one of those of character o.
  ghost predicate Owned(fold: Fold, text: string, o: nat, k: nat) {
    && o < |text| && k < Offset(fold, text, |text|) == |Owners(fold, text, |text|)|
    && Owners(fold, text, |text|)[k] == o
    && Offset(fold, text, o) <= k < Offset(fold, text, o + 1)
    && Folded(fold, text, |text|)[k] == fold(text[o])[k - Offset(fold, text, o)]
  }

  lemma OwnerOf(fold: Fold, text: string, k: nat) returns (o: nat)
    requires k < Offset(fold, text, |text|)
    ensures Owned(fold, text, o, k)
  {
    OwnerSpans(fold, text, |text|, k);
    o := Owners(fold, text, |text|)[k];
  }

  // The owner of a folded character is the only character whose folded form spans it.
  lemma OwnerIs(fold: Fold, text: string, o: nat, k: nat)
    requires o < |text| && Offset(fold, text, o) <= k < Offset(fold, text, o + 1)
    ensures Owned(fold, text, o, k)
  {
    OffsetsGrow(fold, text, o + 1, |text|);
    var p := OwnerOf(fold, text, k);
    OneOwner(fold, text, o, p, k);
  }

  lemma OwnersGrow(fold: Fold, text: string, j: nat, k: nat)
    requires j <= k < Offset(fold, text, |text|)
    ensures |Owners(fold, text, |text|)| == Offset(fold, text, |text|)
    ensures Owners(fold, text, |text|)[j] <= Owners(fold, text, |text|)[k] < |text|
  {
    OwnersSize(fold, text, |text|);
    var p := OwnerOf(fold, text, j);
    var q := OwnerOf(fold, text, k);
    hide Folded, Owners, Offset;
    if q < p {
      OffsetsGrow(fold, text, q + 1, p);
    }
  }

  // ----- Matches -----

  // The word stands in the folded text at place p.
  predicate StandsAt(word: string, folded: string, p: nat) {
    word != "" && p + |word| <= |folded| && folded[p..p + |word|] == word
  }

  ghost predicate Matches(fold: Fold, text: string, word: string, p: nat) {
    StandsAt(word, Folded(fold, text, |text|), p)
  }

  // The original characters of a match.
  function SpanOf(index: seq<nat>, word: string, p: nat): Span
    requires word != "" && p + |word| <= |index|
  {
    Span(index[p], index[p + |word| - 1] + 1)
  }

  ghost function MatchSpan(fold: Fold, text: string, word: string, p: nat): Span
    requires Matches(fold, text, word, p)
  {
    OwnersSize(fold, text, |text|);
    SpanOf(Owners(fold, text, |text|), word, p)
  }

  // A match of one of the words covers character i of the text.
  ghost predicate Banned(fold: Fold, words: seq<string>, text: string, i: int) {
    exists k, p: nat :: CoveredBy(fold, words, text, i, k, p)
  }

  ghost predicate CoveredBy(fold: Fold, words: seq<string>, text: string, i: int, k: int, p: nat) {
    && 0 <= k < |words| && Matches(fold, text, words[k], p)
    && MatchSpan(fold, text, words[k], p).Covers(i)
  }

  lemma MatchSpanFits(fold: Fold, text: string, word: string, p: nat)
    requires Matches(fold, text, word, p)
    ensures MatchSpan(fold, text, word, p).start < MatchSpan(fold, text, word, p).end <= |text|
  {
    OwnersGrow(fold, text, p, p + |word| - 1);
  }

  // The characters from the one that p comes from to the one that q comes from.
  lemma BetweenOwners(fold: Fold, text: string, first: nat, last: nat, p: nat, q: nat, i: nat)
    requires first <= last < |text| && i < |text| && p <= q
    requires Offset(fold, text, first) <= p < Offset(fold, text, first + 1)
    requires Offset(fold, text, last) <= q < Offset(fold, text, last + 1)
    ensures first <= i <= last <==> Offset(fold, text, i) <= q && p < Offset(fold, text, i + 1)
  {
    hide Offset;
    if i < first {
      OffsetsGrow(fold, text, i + 1, first);
    } else if last < i {
      OffsetsGrow(fold, text, last + 1, i);
    } else {
      OffsetsGrow(fold, text, i, last);
      OffsetsGrow(fold, text, first + 1, i + 1);
    }
  }

  // Character i has a part in the match, or lies between characters that have one.
  lemma CoversIff(fold: Fold, text: string, word: string, p: nat, i: nat)
    requires Matches(fold, text, word, p) && i < |text|
    ensures MatchSpan(fold, text, word, p).Covers(i)
            <==> Offset(fold, text, i) < p + |word| && p < Offset(fold, text, i + 1)
  {
    OwnersGrow(fold, text, p, p + |word| - 1);
    var first := OwnerOf(fold, text, p);
    var last := OwnerOf(fold, text, p + |word| - 1);
    assert MatchSpan(fold, text, word, p) == Span(first, last + 1);
    assert first <= last;
    hide Folded, Owners, Matches, MatchSpan, Offset;
    BetweenOwners(fold, text, first, last, p, p + |word| - 1, i);
  }

  // Word k stands at place p of the folded text and reaches into what comes of character i, or around it.
  ghost predicate ReachesInto(fold: Fold, words: seq<string>, text: string, i: nat, k: int, p: nat)
    requires i < |text|
  {
    var folded := Folded(fold, text, |text|);
    && 0 <= k < |words| && words[k] != "" && p + |words[k]| <= |folded| && folded[p..p + |words[k]|] == words[k]
    && |Folded(fold, text, i)| < p + |words[k]| && p < |Folded(fold, text, i + 1)|
  }

  /** A character is banned iff some banned word in the folded text reaches into what that character is folded to. */
  lemma BannedIff(fold: Fold, words: seq<string>, text: string, i: nat)
    requires i < |text|
    ensures Banned(fold, words, text, i) <==> exists k, p: nat :: ReachesInto(fold, words, text, i, k, p)
  {
    forall k, p: nat ensures CoveredBy(fold, words, text, i, k, p) <==> ReachesInto(fold, words, text, i, k, p) {
      if 0 <= k < |words| && Matches(fold, text, words[k], p) {
        CoversIff(fold, text, words[k], p, i);
      }
    }
  }

  // ----- Finding -----

  // All spans the first n words have, with the first m places of word n.
  ghost predicate IsFound(fold: Fold, words: seq<string>, text: string, n: nat, m: nat, span: Span) {
    exists k, p: nat ::
      && 0 <= k < |words| && (k < n || (k == n && p < m))
      && FoundAt(fold, text, words[k], p, span)
  }

  ghost predicate FoundAt(fold: Fold, text: string, word: string, p: nat, span: Span) {
    Matches(fold, text, word, p) && span == MatchSpan(fold, text, word, p)
  }

  lemma FoundStep(fold: Fold, words: seq<string>, text: string, n: nat, m: nat, span: Span)
    requires n < |words|
    ensures IsFound(fold, words, text, n, m + 1, span)
            <==> IsFound(fold, words, text, n, m, span) || FoundAt(fold, text, words[n], m, span)
  {
    if IsFound(fold, words, text, n, m + 1, span) && !FoundAt(fold, text, words[n], m, span) {
      var k, p: nat :| 0 <= k < |words| && (k < n || (k == n && p < m + 1)) && FoundAt(fold, text, words[k], p, span);
      assert k < n || (k == n && p < m);
    }
    if FoundAt(fold, text, words[n], m, span) {
      assert n == n && m < m + 1;
    }
  }

  ghost predicate FoundSo(fold: Fold, words: seq<string>, text: string, n: nat, m: nat, spans: seq<Span>) {
    forall span :: span in spans <==> IsFound(fold, words, text, n, m, span)
  }

  // One more place has been looked at.
  lemma FoundGrows(fold: Fold, words: seq<string>, text: string, n: nat, m: nat, before: seq<Span>, after: seq<Span>)
    requires n < |words| && FoundSo(fold, words, text, n, m, before)
    requires after == before + if Matches(fold, text, words[n], m) then [MatchSpan(fold, text, words[n], m)] else []
    ensures FoundSo(fold, words, text, n, m + 1, after)
  {
    forall span ensures span in after <==> IsFound(fold, words, text, n, m + 1, span) {
      FoundStep(fold, words, text, n, m, span);
      assert span in after <==> span in before || FoundAt(fold, text, words[n], m, span);
    }
  }

  method FindWord(fold: Fold, words: seq<string>, text: string, n: nat, folded: string, index: seq<nat>,
                  found: seq<Span>)
      returns (spans: seq<Span>)
    requires n < |words| && folded == Folded(fold, text, |text|) && index == Owners(fold, text, |text|)
    requires FoundSo(fold, words, text, n, 0, found)
    ensures FoundSo(fold, words, text, n + 1, 0, spans)
  {
    spans := found;
    var word := words[n];
    OwnersSize(fold, text, |text|);
    if word == "" || |word| > |folded| {
      return;
    }
    var start := 0;
    while start <= |folded| - |word|
      invariant 0 <= start <= |folded| - |word| + 1
      invariant FoundSo(fold, words, text, n, start, spans)
    {
      ghost var before := spans;
      if folded[start..start + |word|] == word {
        spans := spans + [SpanOf(index, word, start)];
      }
      FoundGrows(fold, words, text, n, start, before, spans);
      start := start + 1;
    }
  }

  ghost predicate Ordered(spans: seq<Span>) {
    forall a, b :: 0 <= a < b < |spans| ==> !spans[b].Before(spans[a])
  }

  lemma InsertedOrdered(sorted: seq<Span>, span: Span, at: nat)
    requires Ordered(sorted) && at <= |sorted|
    requires at > 0 ==> !span.Before(sorted[at - 1])
    requires forall k :: at <= k < |sorted| ==> span.Before(sorted[k])
    ensures Ordered(sorted[..at] + [span] + sorted[at..])
  {
    forall k | 0 <= k < at ensures !span.Before(sorted[k]) {
      assert k < at - 1 ==> !sorted[at - 1].Before(sorted[k]);
    }
  }

  // Puts a span behind all that are not after it.
  method InsertSpan(sorted: seq<Span>, span: Span) returns (result: seq<Span>)
    requires Ordered(sorted)
    ensures Ordered(result)
    ensures multiset(result) == multiset(sorted) + multiset{span}
  {
    var at := |sorted|;
    while at > 0 && span.Before(sorted[at - 1])
      invariant 0 <= at <= |sorted|
      invariant forall k :: at <= k < |sorted| ==> span.Before(sorted[k])
    {
      at := at - 1;
    }
    result := sorted[..at] + [span] + sorted[at..];
    assert sorted == sorted[..at] + sorted[at..];
    InsertedOrdered(sorted, span, at);
  }

  method SortSpans(spans: seq<Span>) returns (sorted: seq<Span>)
    ensures Ordered(sorted)
    ensures multiset(sorted) == multiset(spans)
  {
    sorted := [];
    var i := 0;
    while i < |spans|
      invariant 0 <= i <= |spans|
      invariant Ordered(sorted)
      invariant multiset(sorted) == multiset(spans[..i])
    {
      assert spans[..i + 1] == spans[..i] + [spans[i]];
      sorted := InsertSpan(sorted, spans[i]);
      i := i + 1;
    }
    assert spans[..i] == spans;
  }

  // Non-empty spans in order, with a free character between any two.
  ghost predicate Separated(spans: seq<Span>) {
    && (forall a :: 0 <= a < |spans| ==> spans[a].start < spans[a].end)
    && (forall a, b :: 0 <= a < b < |spans| ==> spans[a].end < spans[b].start)
  }

  ghost predicate SomeCovers(spans: seq<Span>, i: int) {
    exists a :: 0 <= a < |spans| && spans[a].Covers(i)
  }

  // Joins a span that touches the last one with it, or starts a new one.
  function Join(merged: seq<Span>, span: Span): seq<Span> {
    if merged != [] && span.start <= merged[|merged| - 1].end then
      var last := merged[|merged| - 1];
      merged[..|merged| - 1] + [Span(last.start, if span.end > last.end then span.end else last.end)]
    else merged + [span]
  }

  lemma JoinCovers(merged: seq<Span>, span: Span, i: int)
    requires merged != [] ==>
               merged[|merged| - 1].start <= span.start && merged[|merged| - 1].start < merged[|merged| - 1].end
    ensures SomeCovers(Join(merged, span), i) <==> SomeCovers(merged, i) || span.Covers(i)
  {
    var joined := Join(merged, span);
    if SomeCovers(merged, i) {
      var a :| 0 <= a < |merged| && merged[a].Covers(i);
      assert joined[a].Covers(i);
    }
    if span.Covers(i) {
      assert joined[|joined| - 1].Covers(i);
    }
    if SomeCovers(joined, i) {
      var a :| 0 <= a < |joined| && joined[a].Covers(i);
      assert (a < |merged| && merged[a].Covers(i)) || span.Covers(i);
    }
  }

  lemma JoinSeparated(merged: seq<Span>, span: Span)
    requires Separated(merged) && span.start < span.end
    requires merged != [] ==> merged[|merged| - 1].start <= span.start
    ensures Separated(Join(merged, span))
  {
  }

  method MergeSpans(spans: seq<Span>) returns (merged: seq<Span>)
    requires Ordered(spans) && forall a :: 0 <= a < |spans| ==> spans[a].start < spans[a].end
    ensures Separated(merged)
    ensures forall i :: SomeCovers(merged, i) <==> SomeCovers(spans, i)
  {
    merged := [];
    var n := 0;
    while n < |spans|
      invariant 0 <= n <= |spans|
      invariant Separated(merged)
      invariant forall i :: SomeCovers(merged, i) <==> SomeCovers(spans[..n], i)
      invariant merged != [] ==> n > 0 && merged[|merged| - 1].start <= spans[n - 1].start
    {
      forall i ensures SomeCovers(Join(merged, spans[n]), i) <==> SomeCovers(spans[..n + 1], i) {
        JoinCovers(merged, spans[n], i);
        CoverStep(spans, n, i);
      }
      JoinSeparated(merged, spans[n]);
      merged := Join(merged, spans[n]);
      n := n + 1;
    }
    assert spans[..n] == spans;
  }

  lemma CoverStep(spans: seq<Span>, n: nat, i: int)
    requires n < |spans|
    ensures SomeCovers(spans[..n + 1], i) <==> SomeCovers(spans[..n], i) || spans[n].Covers(i)
  {
    if SomeCovers(spans[..n], i) {
      var a :| 0 <= a < |spans[..n]| && spans[..n][a].Covers(i);
      assert spans[..n + 1][a].Covers(i);
    }
    assert spans[..n + 1][n] == spans[n];
    if SomeCovers(spans[..n + 1], i) {
      var a :| 0 <= a < |spans[..n + 1]| && spans[..n + 1][a].Covers(i);
      assert a < n ==> spans[..n][a].Covers(i);
    }
  }

  lemma FoundCovers(fold: Fold, words: seq<string>, text: string, spans: seq<Span>, i: int)
    requires FoundSo(fold, words, text, |words|, 0, spans)
    ensures SomeCovers(spans, i) <==> Banned(fold, words, text, i)
  {
    if SomeCovers(spans, i) {
      var a :| 0 <= a < |spans| && spans[a].Covers(i);
      assert spans[a] in spans;
      var k, p: nat :| 0 <= k < |words| && FoundAt(fold, text, words[k], p, spans[a]);
      assert CoveredBy(fold, words, text, i, k, p);
    }
    if Banned(fold, words, text, i) {
      var k, p: nat :| CoveredBy(fold, words, text, i, k, p);
      assert FoundAt(fold, text, words[k], p, MatchSpan(fold, text, words[k], p));
      assert IsFound(fold, words, text, |words|, 0, MatchSpan(fold, text, words[k], p));
    }
  }

  /** The spans found are in order, apart from each other, and cover exactly the characters of all matches. */
  method FindBanned(fold: Fold, words: seq<string>, text: string) returns (merged: seq<Span>)
    ensures Separated(merged)
    ensures forall i :: SomeCovers(merged, i) <==> Banned(fold, words, text, i)
  {
    if words == [] {
      return [];
    }
    var folded, index := FoldWithMap(fold, text);
    var spans: seq<Span> := [];
    var n := 0;
    while n < |words|
      invariant 0 <= n <= |words|
      invariant FoundSo(fold, words, text, n, 0, spans)
    {
      spans := FindWord(fold, words, text, n, folded, index, spans);
      n := n + 1;
    }
    var sorted := SortSpans(spans);
    SortedFound(fold, words, text, spans, sorted);
    merged := MergeSpans(sorted);
    forall i ensures SomeCovers(sorted, i) <==> Banned(fold, words, text, i) {
      FoundCovers(fold, words, text, sorted, i);
    }
  }

  lemma SortedFound(fold: Fold, words: seq<string>, text: string, spans: seq<Span>, sorted: seq<Span>)
    requires FoundSo(fold, words, text, |words|, 0, spans) && multiset(sorted) == multiset(spans)
    ensures FoundSo(fold, words, text, |words|, 0, sorted)
    ensures forall a :: 0 <= a < |sorted| ==> sorted[a].start < sorted[a].end <= |text|
  {
    forall span ensures span in sorted <==> span in spans {
      assert span in sorted <==> span in multiset(sorted);
      assert span in spans <==> span in multiset(spans);
    }
    forall a | 0 <= a < |sorted| ensures sorted[a].start < sorted[a].end <= |text| {
      assert sorted[a] in sorted;
      var k, p: nat :| 0 <= k < |words| && FoundAt(fold, text, words[k], p, sorted[a]);
      MatchSpanFits(fold, text, words[k], p);
    }
  }

  method ContainsBanned(fold: Fold, words: seq<string>, text: string) returns (found: bool)
    ensures found <==> exists k, p: nat :: 0 <= k < |words| && Matches(fold, text, words[k], p)
  {
    var spans := FindBanned(fold, words, text);
    found := spans != [];
    if found {
      assert spans[0].Covers(spans[0].start as int);
      assert Banned(fold, words, text, spans[0].start);
    } else {
      forall k, p: nat | 0 <= k < |words| ensures !Matches(fold, text, words[k], p) {
        if Matches(fold, text, words[k], p) {
          MatchIsBanned(fold, words, text, k, p);
        }
      }
    }
  }

  lemma MatchIsBanned(fold: Fold, words: seq<string>, text: string, k: nat, p: nat)
    requires k < |words| && Matches(fold, text, words[k], p)
    ensures Banned(fold, words, text, MatchSpan(fold, text, words[k], p).start)
  {
    MatchSpanFits(fold, text, words[k], p);
    assert CoveredBy(fold, words, text, MatchSpan(fold, text, words[k], p).start, k, p);
  }

  // ----- Masking -----

  ghost predicate IsMasked(fold: Fold, words: seq<string>, text: string, masked: string) {
    && |masked| == |text|
    && forall i :: 0 <= i < |text| ==> masked[i] == if Banned(fold, words, text, i) then '*' else text[i]
  }

  /** The masked text has stars in place of the characters of all matches and is otherwise unchanged. */
  method MaskBanned(fold: Fold, words: seq<string>, text: string) returns (masked: string, found: bool)
    ensures IsMasked(fold, words, text, masked)
    ensures found <==> exists i :: Banned(fold, words, text, i)
  {
    var spans := FindBanned(fold, words, text);
    if spans == [] {
      return text, false;
    }
    assert SomeCovers(spans, spans[0].start);
    var chars := new char[|text|](i requires 0 <= i < |text| => text[i]);
    var a := 0;
    while a < |spans|
      invariant 0 <= a <= |spans|
      invariant forall i :: 0 <= i < |text| ==> chars[i] == if SomeCovers(spans[..a], i) then '*' else text[i]
    {
      Star(chars, spans[a]);
      forall i | 0 <= i < |text|
        ensures SomeCovers(spans[..a + 1], i) <==> SomeCovers(spans[..a], i) || spans[a].Covers(i)
      {
        CoverStep(spans, a, i);
      }
      a := a + 1;
    }
    assert spans[..a] == spans;
    return chars[..], true;
  }

  // Stars over the characters of one span, as far as the text goes.
  method Star(chars: array<char>, span: Span)
    modifies chars
    ensures forall i :: 0 <= i < chars.Length ==> chars[i] == if span.Covers(i) then '*' else old(chars[i])
  {
    var i := span.start;
    while i < span.end && i < chars.Length
      invariant span.start <= i
      invariant forall k :: 0 <= k < chars.Length ==> chars[k] == if span.Covers(k) && k < i then '*' else old(chars[k])
    {
      chars[i] := '*';
      i := i + 1;
    }
  }

  // ----- A masked text is clean -----

  // Between two characters from which on two texts agree, their folded forms are equally long.
  lemma {:induction false} OffsetsShift(fold: Fold, a: string, b: string, i: nat, j: nat)
    requires i <= j <= |a| == |b| && forall k :: i <= k < j ==> a[k] == b[k]
    ensures Offset(fold, a, j) - Offset(fold, a, i) == Offset(fold, b, j) - Offset(fold, b, i)
  {
    if i < j {
      OffsetsShift(fold, a, b, i, j - 1);
    }
  }

  // Where the two texts agree, a folded character of one is found in the other, shifted.
  lemma FoldedShifts(fold: Fold, a: string, b: string, i: nat, j: nat, k: nat)
    requires i <= j < |a| == |b| && forall x :: i <= x <= j ==> a[x] == b[x]
    requires k < Offset(fold, b, |b|) && |Owners(fold, b, |b|)| == Offset(fold, b, |b|)
             && i <= Owners(fold, b, |b|)[k] <= j
    ensures var k' := k - Offset(fold, b, i) + Offset(fold, a, i);
            && 0 <= k' < Offset(fold, a, |a|) == |Owners(fold, a, |a|)|
            && Owners(fold, a, |a|)[k'] == Owners(fold, b, |b|)[k]
            && Folded(fold, a, |a|)[k'] == Folded(fold, b, |b|)[k]
  {
    var o := Owners(fold, b, |b|)[k];
    OwnerSpans(fold, b, |b|, k);
    OffsetsGrow(fold, b, i, o);
    OffsetsShift(fold, a, b, i, o);
    OffsetsShift(fold, a, b, i, o + 1);
    OwnerIs(fold, a, o, k - Offset(fold, b, i) + Offset(fold, a, i));
  }

  // The folded forms of the characters in between lie between those of two characters.
  lemma OffsetBetween(fold: Fold, text: string, first: nat, last: nat, o: nat, i: nat, q: nat)
    requires Owned(fold, text, o, first) && Owned(fold, text, q, last) && o <= i <= q < |text|
    requires Offset(fold, text, i + 1) == Offset(fold, text, i) + 1
    ensures first <= Offset(fold, text, i) <= last
  {
    hide Folded, Owners, Offset;
    OffsetsGrow(fold, text, i, q);
    if o < i {
      OffsetsGrow(fold, text, o + 1, i);
    }
  }

  // If a character that folds to a star lies within a match, the word has a star.
  lemma MatchedChar(fold: Fold, text: string, word: string, p: nat, d: nat)
    requires Matches(fold, text, word, p) && d < |word|
    ensures p + d < |Folded(fold, text, |text|)| && word[d] == Folded(fold, text, |text|)[p + d]
  {
    assert word[d] == Folded(fold, text, |text|)[p..p + |word|][d];
  }

  lemma StarAt(fold: Fold, text: string, i: nat)
    requires i < |text| && fold(text[i]) == "*"
    ensures var at := Offset(fold, text, i);
            Offset(fold, text, i + 1) == at + 1 && at < |Folded(fold, text, |text|)|
            && Folded(fold, text, |text|)[at] == '*'
  {
    OwnerIs(fold, text, i, Offset(fold, text, i));
  }

  lemma StarWithinMatch(fold: Fold, text: string, word: string, p: nat, i: nat)
    requires Matches(fold, text, word, p) && MatchSpan(fold, text, word, p).Covers(i)
    requires i < |text| && fold(text[i]) == "*"
    ensures '*' in word
  {
    hide Folded, Owners;
    var last := p + |word| - 1;
    var o := OwnerOf(fold, text, p);
    var q := OwnerOf(fold, text, last);
    StarAt(fold, text, i);
    OffsetBetween(fold, text, p, last, o, i, q);
    MatchedChar(fold, text, word, p, Offset(fold, text, i) - p);
  }

  lemma CharCarriesOver(fold: Fold, a: string, b: string, word: string, p: nat, d: nat)
    requires Matches(fold, b, word, p) && |a| == |b| && d < |word|
    requires forall i :: 0 <= i < |b| && MatchSpan(fold, b, word, p).Covers(i) ==> a[i] == b[i]
    ensures var span := MatchSpan(fold, b, word, p);
            && span.start < span.end <= |b|
            && |Owners(fold, a, |a|)| == Offset(fold, a, |a|) && |Owners(fold, b, |b|)| == Offset(fold, b, |b|)
            && var k := p + d - Offset(fold, b, span.start) + Offset(fold, a, span.start);
               0 <= k < Offset(fold, a, |a|) && Folded(fold, a, |a|)[k] == word[d]
               && Owners(fold, a, |a|)[k] == Owners(fold, b, |b|)[p + d]
  {
    var span := MatchSpan(fold, b, word, p);
    MatchSpanFits(fold, b, word, p);
    OwnersGrow(fold, b, p, p + d);
    OwnersGrow(fold, b, p + d, p + |word| - 1);
    FoldedShifts(fold, a, b, span.start, span.end - 1, p + d);
    assert word[d] == Folded(fold, b, |b|)[p..p + |word|][d];
  }

  lemma MatchCarriesOver(fold: Fold, a: string, b: string, word: string, p: nat) returns (p': nat)
    requires Matches(fold, b, word, p) && |a| == |b|
    requires forall i :: 0 <= i < |b| && MatchSpan(fold, b, word, p).Covers(i) ==> a[i] == b[i]
    ensures Matches(fold, a, word, p') && MatchSpan(fold, a, word, p') == MatchSpan(fold, b, word, p)
  {
    var span := MatchSpan(fold, b, word, p);
    MatchSpanFits(fold, b, word, p);
    CharCarriesOver(fold, a, b, word, p, 0);
    CharCarriesOver(fold, a, b, word, p, |word| - 1);
    p' := p - Offset(fold, b, span.start) + Offset(fold, a, span.start);
    forall d | 0 <= d < |word| ensures Folded(fold, a, |a|)[p'..p' + |word|][d] == word[d] {
      CharCarriesOver(fold, a, b, word, p, d);
    }
    assert Folded(fold, a, |a|)[p'..p' + |word|] == word;
  }

  // The characters of a match in the masked text have not been masked.
  lemma MatchIsUnmasked(fold: Fold, words: seq<string>, text: string, masked: string, word: string, p: nat, i: nat)
    requires IsMasked(fold, words, text, masked) && fold('*') == "*" && '*' !in word
    requires Matches(fold, masked, word, p) && i < |text| && MatchSpan(fold, masked, word, p).Covers(i)
    ensures masked[i] == text[i] != '*' && !Banned(fold, words, text, i)
  {
    if masked[i] == '*' {
      StarWithinMatch(fold, masked, word, p, i);
    }
  }

  // A match in the masked text would be a match in the original one, which would have been masked.
  lemma NoMatchLeft(fold: Fold, words: seq<string>, text: string, masked: string, k: nat, p: nat)
    requires IsMasked(fold, words, text, masked) && fold('*') == "*"
    requires k < |words| && '*' !in words[k]
    ensures !Matches(fold, masked, words[k], p)
  {
    if Matches(fold, masked, words[k], p) {
      var span := MatchSpan(fold, masked, words[k], p);
      MatchSpanFits(fold, masked, words[k], p);
      forall i | 0 <= i < |masked| && span.Covers(i) ensures text[i] == masked[i] {
        MatchIsUnmasked(fold, words, text, masked, words[k], p, i);
      }
      var p' := MatchCarriesOver(fold, text, masked, words[k], p);
      MatchIsBanned(fold, words, text, k, p');
      MatchIsUnmasked(fold, words, text, masked, words[k], p, span.start);
    }
  }

  /** A masked text contains no banned word, and masking it again changes nothing. */
  lemma MaskedIsClean(fold: Fold, words: seq<string>, text: string, masked: string)
    requires IsMasked(fold, words, text, masked) && fold('*') == "*"
    requires forall k :: 0 <= k < |words| ==> '*' !in words[k]
    ensures forall k, p: nat :: 0 <= k < |words| ==> !Matches(fold, masked, words[k], p)
    ensures forall i :: !Banned(fold, words, masked, i)
    ensures IsMasked(fold, words, masked, masked)
  {
    forall k, p: nat | 0 <= k < |words| ensures !Matches(fold, masked, words[k], p) {
      NoMatchLeft(fold, words, text, masked, k, p);
    }
  }

  // The last span covers the last characters, everything else ends before it with a gap.
  lemma LastSpan(spans: seq<Span>, i: int)
    requires Separated(spans) && spans != []
    ensures var last := spans[|spans| - 1];
            && (SomeCovers(spans, i) <==> SomeCovers(spans[..|spans| - 1], i) || last.Covers(i))
            && (SomeCovers(spans[..|spans| - 1], i) ==> i < last.start - 1)
  {
    CoverStep(spans, |spans| - 1, i);
    assert spans[..|spans|] == spans;
  }

  lemma NothingCovered(spans: seq<Span>)
    requires Separated(spans) && forall i :: !SomeCovers(spans, i)
    ensures spans == []
  {
    if spans != [] {
      FirstCovered(spans);
    }
  }

  lemma FirstCovered(spans: seq<Span>)
    requires Separated(spans) && spans != []
    ensures SomeCovers(spans, spans[0].start)
  {
    assert spans[0].Covers(spans[0].start as int);
  }

  /** Separated spans are given by the characters they cover: no other list of spans would do. */
  lemma {:induction false} SpansAreUnique(a: seq<Span>, b: seq<Span>)
    requires Separated(a) && Separated(b) && forall i :: SomeCovers(a, i) <==> SomeCovers(b, i)
    ensures a == b
    decreases |a|
  {
    if a == [] {
      NothingCovered(b);
    } else if b == [] {
      NothingCovered(a);
    } else {
      var x, y := a[|a| - 1], b[|b| - 1];
      var a', b' := a[..|a| - 1], b[..|b| - 1];
      LastSpansAgree(a, b);
      forall i ensures SomeCovers(a', i) <==> SomeCovers(b', i) {
        LastSpan(a, i);
        LastSpan(b, i);
      }
      SpansAreUnique(a', b');
      assert a == a' + [x] && b == b' + [y];
    }
  }

  lemma LastSpansAgree(a: seq<Span>, b: seq<Span>)
    requires Separated(a) && Separated(b) && forall i :: SomeCovers(a, i) <==> SomeCovers(b, i)
    requires a != [] && b != []
    ensures a[|a| - 1] == b[|b| - 1]
  {
    var x, y := a[|a| - 1], b[|b| - 1];
    LastSpan(a, x.end - 1);
    LastSpan(b, x.end - 1);
    LastSpan(a, y.end - 1);
    LastSpan(b, y.end - 1);
    LastSpan(a, x.start - 1);
    LastSpan(b, x.start - 1);
    LastSpan(a, y.start - 1);
    LastSpan(b, y.start - 1);
  }
}
