/**
 The Hungarian tile set: letters, points and counts. Everything else is stated for any alphabet that
 obeys the laws of the printed one (`IsAlphabet`), so that no proof depends on the table itself.
 */
module Tiles {
  import opened Results

  // A tile is its index in the distribution; index 0 is the blank.
  datatype Tile = Tile(index: nat)

  const KINDS := 39
  const BLANK := Tile(0)

  const HUNGARIAN: seq<string> :=
    ["", "A", "E", "K", "T", "Á", "L", "N", "R", "I", "M", "O", "S", "B", "D", "G", "Ó", "É", "H", "SZ",
     "V", "F", "GY", "J", "Ö", "P", "U", "Ü", "Z", "C", "Í", "NY", "CS", "Ő", "Ú", "Ű", "LY", "ZS", "TY"]

  // What each tile prints.
  type Alphabet = seq<string>

  function Print(letters: Alphabet, t: Tile): string {
    if t.index < |letters| then letters[t.index] else ""
  }

  // Only the blank prints nothing, other tiles print one or two characters, and looking up a printed
  // text gives back the tile.
  ghost predicate IsAlphabet(letters: Alphabet) {
    && |letters| == KINDS
    && forall t: Tile :: t.index < KINDS ==>
         && |Print(letters, t)| <= 2
         && (Print(letters, t) == "" <==> t == BLANK)
         && FromStr(letters, Print(letters, t)) == Some(t)
  }

  // The rules a game is played by: what the tiles print and which texts the dictionary knows.
  datatype Rules = Rules(letters: Alphabet, isWord: string -> bool)

  // The points of a tile; the distribution lists the kinds in ascending order of points.
  function Value(t: Tile): nat {
    if t.index == 0 then 0
    else if t.index <= 12 then 1
    else if t.index <= 16 then 2
    else if t.index <= 20 then 3
    else if t.index <= 28 then 4
    else if t.index <= 31 then 5
    else if t.index <= 35 then 7
    else if t.index <= 37 then 8
    else 10
  }

  // How many tiles of a kind the full set holds.
  function Count(t: Tile): nat {
    if t.index == 0 then 2
    else if t.index <= 3 then 6
    else if t.index == 4 then 5
    else if t.index <= 8 then 4
    else if t.index <= 17 then 3
    else if t.index <= 28 then 2
    else if t.index <= 38 then 1
    else 0
  }

  /** The first tile, from index `from` on, that prints the given text. */
  function Find(letters: Alphabet, text: string, from: nat): (r: Option<Tile>)
    requires from <= |letters|
    ensures r.Some? ==> from <= r.value.index < |letters| && letters[r.value.index] == text
    ensures r.None? ==> forall i :: from <= i < |letters| ==> letters[i] != text
    decreases |letters| - from
  {
    if from == |letters| then None
    else if letters[from] == text then Some(Tile(from))
    else Find(letters, text, from + 1)
  }

  function FromStr(letters: Alphabet, text: string): Option<Tile> {
    Find(letters, text, 0)
  }

  /** Two neighbouring single letters that read as a letter with a tile of its own (S + Z = SZ). */
  predicate FormsDigraph(letters: Alphabet, first: string, second: string) {
    && |first| == 1
    && |second| == 1
    && exists i | 0 <= i < |letters| :: letters[i] == first + second && |letters[i]| == 2
  }

  // The index of a printed letter, read off its first character and its length.
  ghost function IndexOf(text: string): int {
    if text == "" then 0
    else
      match text[0]
      case 'A' => 1
      case 'E' => 2
      case 'K' => 3
      case 'T' => (if |text| == 1 then 4 else 38)
      case 'Á' => 5
      case 'L' => (if |text| == 1 then 6 else 36)
      case 'N' => (if |text| == 1 then 7 else 31)
      case 'R' => 8
      case 'I' => 9
      case 'M' => 10
      case 'O' => 11
      case 'S' => (if |text| == 1 then 12 else 19)
      case 'B' => 13
      case 'D' => 14
      case 'G' => (if |text| == 1 then 15 else 22)
      case 'Ó' => 16
      case 'É' => 17
      case 'H' => 18
      case 'V' => 20
      case 'F' => 21
      case 'J' => 23
      case 'Ö' => 24
      case 'P' => 25
      case 'U' => 26
      case 'Ü' => 27
      case 'Z' => (if |text| == 1 then 28 else 37)
      case 'C' => (if |text| == 1 then 29 else 32)
      case 'Í' => 30
      case 'Ő' => 33
      case 'Ú' => 34
      case 'Ű' => 35
      case _ => -1
  }

  lemma IndexOfLetter(i: nat)
    requires i < KINDS
    ensures IndexOf(HUNGARIAN[i]) == i
    ensures |HUNGARIAN[i]| <= 2
  {
    if i < 13 {
    } else if i < 26 {
    } else {
    }
  }

  /** The printed alphabet obeys the laws: no text occurs twice in it. */
  lemma HungarianIsAlphabet()
    ensures IsAlphabet(HUNGARIAN)
  {
    forall t: Tile | t.index < KINDS
      ensures |Print(HUNGARIAN, t)| <= 2 && (Print(HUNGARIAN, t) == "" <==> t == BLANK)
      ensures FromStr(HUNGARIAN, Print(HUNGARIAN, t)) == Some(t)
    {
      IndexOfLetter(t.index);
      IndexOfLetter(0);
      var found := FromStr(HUNGARIAN, Print(HUNGARIAN, t));
      assert found.Some?;
      IndexOfLetter(found.value.index);
    }
  }
}
