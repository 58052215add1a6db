/**
 Whole runs of a game, from the new game on, under any sequence of actions: no tile appears or vanishes,
 the scores follow from the log, the board is a proper crossword, and the game ends in time.
 */
module Runs {
  import opened Results
  import opened Tiles
  import opened Bags
  import opened Grids
  import opened BoardLaws
  import opened GameStates
  import opened GameLaws
  import opened Ledger

  // All actions but the last.
  function Front(actions: seq<Action>): seq<Action>
    requires actions != []
  {
    actions[..|actions| - 1]
  }

  function Last(actions: seq<Action>): Action
    requires actions != []
  {
    actions[|actions| - 1]
  }

  // A new game, which satisfies the invariant.
  ghost function Opening(rules: Rules, bag: seq<Tile>, challengeMode: bool, asyncMode: bool,
                         puzzle: Option<Puzzle>): (s: State)
    ensures Inv(rules, s)
  {
    NewGame(bag, challengeMode, asyncMode, puzzle)
  }

  // What a run loses in tiles, in departed scores, and in the final settlement.
  ghost function LostIn(rules: Rules, s: State, actions: seq<Action>): multiset<Tile>
    requires Inv(rules, s)
  {
    if actions == [] then multiset{}
    else LostIn(rules, s, Front(actions)) + Lost(rules, Play(rules, s, Front(actions)), Last(actions))
  }

  ghost function DepartedIn(rules: Rules, s: State, actions: seq<Action>): int
    requires Inv(rules, s)
  {
    if actions == [] then 0
    else DepartedIn(rules, s, Front(actions)) + Departed(rules, Play(rules, s, Front(actions)), Last(actions))
  }

  ghost function PaidIn(rules: Rules, s: State, actions: seq<Action>): int
    requires Inv(rules, s)
  {
    if actions == [] then 0
    else PaidIn(rules, s, Front(actions)) + Penalty(Play(rules, s, Front(actions)), Play(rules, s, actions))
  }

  // How often a run passes from an unfinished to a finished game.
  ghost function EndsIn(rules: Rules, s: State, actions: seq<Action>): nat
    requires Inv(rules, s)
  {
    if actions == [] then 0
    else
      EndsIn(rules, s, Front(actions))
      + (if !Play(rules, s, Front(actions)).finished && Play(rules, s, actions).finished then 1 else 0)
  }

  lemma LastStep(rules: Rules, s: State, actions: seq<Action>)
    requires Inv(rules, s) && actions != []
    ensures var before := Play(rules, s, Front(actions));
            Accounts(before, Play(rules, s, actions), Lost(rules, before, Last(actions)),
                     Departed(rules, before, Last(actions)))
  {
    StepBooks(rules, Play(rules, s, Front(actions)), Last(actions));
  }

  /** No tile appears from nowhere or vanishes: what is not in the game any more left with a step that says so. */
  lemma {:induction false} TilesConserved(rules: Rules, s: State, actions: seq<Action>)
    requires Inv(rules, s)
    ensures Total(Play(rules, s, actions)) + LostIn(rules, s, actions) == Total(s)
  {
    hide Total, Lost, Apply;
    if actions != [] {
      TilesConserved(rules, s, Front(actions));
      LastStep(rules, s, actions);
      var before := Play(rules, s, Front(actions));
      assert Total(Play(rules, s, actions)) + LostIn(rules, s, actions)
          == (Total(Play(rules, s, actions)) + Lost(rules, before, Last(actions))) + LostIn(rules, s, Front(actions));
    }
  }

  // Nobody leaves, and nobody gives up while a placement is pending.
  ghost predicate KeepsTiles(rules: Rules, s: State, actions: seq<Action>)
    requires Inv(rules, s)
  {
    forall n :: 0 <= n < |actions| ==>
      !actions[n].Leave? && (actions[n].GiveUp? ==> Play(rules, s, actions[..n]).pending.None?)
  }

  lemma {:induction false} NothingLost(rules: Rules, s: State, actions: seq<Action>)
    requires Inv(rules, s) && KeepsTiles(rules, s, actions)
    ensures LostIn(rules, s, actions) == multiset{}
  {
    hide Inv, Apply;
    if actions != [] {
      forall n | 0 <= n < |Front(actions)|
        ensures Front(actions)[..n] == actions[..n] && Front(actions)[n] == actions[n]
      {
      }
      NothingLost(rules, s, Front(actions));
    }
  }

  /** Unless someone leaves, or gives up while a placement is pending, the hundred tiles are always all there. */
  lemma FullSetKept(rules: Rules, bag: seq<Tile>, challengeMode: bool, asyncMode: bool, puzzle: Option<Puzzle>,
                    actions: seq<Action>)
    requires multiset(bag) == FullSet()
    requires KeepsTiles(rules, Opening(rules, bag, challengeMode, asyncMode, puzzle), actions)
    ensures Total(Play(rules, Opening(rules, bag, challengeMode, asyncMode, puzzle), actions)) == FullSet()
  {
    var s := Opening(rules, bag, challengeMode, asyncMode, puzzle);
    NewGameTiles(rules, bag, challengeMode, asyncMode, puzzle);
    TilesConserved(rules, s, actions);
    NothingLost(rules, s, actions);
  }

  lemma {:induction false} EmptyBoardTiles(n: nat)
    ensures TilesOn(map[], n) == multiset{}
  {
    if n > 0 {
      EmptyBoardTiles(n - 1);
    }
  }

  lemma NewGameTiles(rules: Rules, bag: seq<Tile>, challengeMode: bool, asyncMode: bool, puzzle: Option<Puzzle>)
    ensures Total(Opening(rules, bag, challengeMode, asyncMode, puzzle)) == multiset(bag)
    ensures TilesOff(Opening(rules, bag, challengeMode, asyncMode, puzzle)) == multiset(bag)
  {
    EmptyBoardTiles(CELLS);
  }

  /**
   The scores follow from the move log: the players' total, what departed with leavers and what was paid
   at the end make up the points of all logged moves.
   */
  lemma {:induction false} ScoresFollowLog(rules: Rules, s: State, actions: seq<Action>)
    requires Inv(rules, s)
    ensures var t := Play(rules, s, actions);
            ScoreSum(t.players) + DepartedIn(rules, s, actions) + PaidIn(rules, s, actions) - LogTotal(t.log)
            == ScoreSum(s.players) - LogTotal(s.log)
  {
    if actions != [] {
      ScoresFollowLog(rules, s, Front(actions));
      LastStep(rules, s, actions);
    }
  }

  /** A game ends at most once, a finished game stays finished, and nothing is paid before the end. */
  lemma {:induction false} EndsOnce(rules: Rules, s: State, actions: seq<Action>)
    requires Inv(rules, s) && !s.finished
    ensures EndsIn(rules, s, actions) == if Play(rules, s, actions).finished then 1 else 0
    ensures !Play(rules, s, actions).finished ==> PaidIn(rules, s, actions) == 0
  {
    if actions != [] {
      EndsOnce(rules, s, Front(actions));
      LastStep(rules, s, actions);
    }
  }

  /** In a game nobody leaves, the total score is the sum of the logged moves until the end. */
  lemma ScoresEqualLog(rules: Rules, bag: seq<Tile>, challengeMode: bool, asyncMode: bool, puzzle: Option<Puzzle>,
                       actions: seq<Action>)
    requires forall n :: 0 <= n < |actions| ==> !actions[n].Leave?
    ensures var t := Play(rules, Opening(rules, bag, challengeMode, asyncMode, puzzle), actions);
            !t.finished ==> ScoreSum(t.players) == LogTotal(t.log)
  {
    var s := Opening(rules, bag, challengeMode, asyncMode, puzzle);
    ScoresFollowLog(rules, s, actions);
    EndsOnce(rules, s, actions);
    NobodyDeparts(rules, s, actions);
  }

  /**
   The settlement at the end: a game played out (or a puzzle solved) ends with the points of the last placement
   and nothing else; every other ending costs the players together exactly the value left in their hands.
   */
  lemma EndingSettles(rules: Rules, s: State, a: Action)
    requires Inv(rules, s) && !s.finished && Apply(rules, s, a).finished && !a.Leave?
    ensures var next := Apply(rules, s, a);
            if ScoringStep(s, next) then ScoreSum(next.players) == ScoreSum(s.players) + next.log[|s.log|].score
            else ScoreSum(next.players) == ScoreSum(s.players) - HandTotal(next.players)
  {
    StepBooks(rules, s, a);
    EndingAccounts(s, Apply(rules, s, a), Lost(rules, s, a));
  }

  lemma EndingAccounts(s: State, next: State, lost: multiset<Tile>)
    requires Accounts(s, next, lost, 0) && !s.finished && next.finished
    ensures if ScoringStep(s, next) then ScoreSum(next.players) == ScoreSum(s.players) + next.log[|s.log|].score
            else ScoreSum(next.players) == ScoreSum(s.players) - HandTotal(next.players)
  {
    hide Total, BoardTiles;
    if |next.log| == |s.log| + 1 {
      assert next.log == next.log[..|s.log|] + [next.log[|s.log|]];
      LogSnoc(s.log, next.log[|s.log|]);
    }
  }

  lemma {:induction false} NobodyDeparts(rules: Rules, s: State, actions: seq<Action>)
    requires Inv(rules, s) && forall n :: 0 <= n < |actions| ==> !actions[n].Leave?
    ensures DepartedIn(rules, s, actions) == 0
  {
    if actions != [] {
      NobodyDeparts(rules, s, Front(actions));
    }
  }

  // ----- Every game comes to an end -----

  // Six for every tile that is not on the board, and the scoreless turns that are still allowed.
  ghost function Measure(s: State): int {
    6 * |TilesOff(s)| + (SCORELESS_TURNS_LIMIT - s.scoreless)
  }

  lemma TilesOffShrink(s: State, next: State, lost: multiset<Tile>)
    requires Total(next) + lost == Total(s)
    ensures |TilesOff(next)| + |BoardTiles(next.grid)| + |lost| == |TilesOff(s)| + |BoardTiles(s.grid)|
  {
    assert |Total(next) + lost| == |Total(s)|;
  }

  lemma ShapeDecreases(s: State, next: State, lost: multiset<Tile>)
    requires TurnShape(s, next) && Total(next) + lost == Total(s)
    requires CountOk(s)
    ensures |s.log| <= |next.log| <= |s.log| + 1
    ensures Measure(next) <= Measure(s)
    ensures |next.log| > |s.log| ==> Measure(next) < Measure(s)
  {
    TilesOffShrink(s, next, lost);
  }

  /** A completed turn (one more entry in the log) strictly decreases the measure; no other step increases it. */
  lemma TurnsDecrease(rules: Rules, s: State, a: Action)
    requires Inv(rules, s)
    ensures var next := Apply(rules, s, a);
            && 0 <= Measure(next) <= Measure(s)
            && |s.log| <= |next.log| <= |s.log| + 1
            && (|next.log| > |s.log| ==> Measure(next) < Measure(s))
  {
    StepBooks(rules, s, a);
    ApplyInv(rules, s, a);
    ShapeDecreases(s, Apply(rules, s, a), Lost(rules, s, a));
  }

  lemma {:induction false} TurnsBounded(rules: Rules, s: State, actions: seq<Action>)
    requires Inv(rules, s)
    ensures 0 <= Measure(Play(rules, s, actions))
    ensures |Play(rules, s, actions).log| + Measure(Play(rules, s, actions)) <= |s.log| + Measure(s)
  {
    if actions == [] {
      TurnsDecrease(rules, s, VoteTimeout);
    } else {
      TurnsBounded(rules, s, Front(actions));
      TurnsDecrease(rules, Play(rules, s, Front(actions)), Last(actions));
    }
  }

  /** No game has more than 606 completed turns. */
  lemma AtMost606Turns(rules: Rules, bag: seq<Tile>, challengeMode: bool, asyncMode: bool, puzzle: Option<Puzzle>,
                       actions: seq<Action>)
    requires multiset(bag) == FullSet()
    ensures |Play(rules, Opening(rules, bag, challengeMode, asyncMode, puzzle), actions).log| <= 606
  {
    var s := Opening(rules, bag, challengeMode, asyncMode, puzzle);
    NewGameTiles(rules, bag, challengeMode, asyncMode, puzzle);
    FullSetCounts();
    TurnsBounded(rules, s, actions);
  }

  // ----- The board of every reachable state -----

  lemma {:induction false} ModeKept(rules: Rules, s: State, actions: seq<Action>)
    requires Inv(rules, s)
    ensures Play(rules, s, actions).challengeMode == s.challengeMode
  {
    if actions != [] {
      ModeKept(rules, s, Front(actions));
      LastStep(rules, s, actions);
    }
  }

  /**
   In every state any run leads to, the board is one connected crossword through the centre without a split
   digraph; in a game without voting every word on it is in the dictionary.
   */
  lemma ReachableBoards(rules: Rules, bag: seq<Tile>, challengeMode: bool, asyncMode: bool, puzzle: Option<Puzzle>,
                        actions: seq<Action>)
    ensures var t := Play(rules, Opening(rules, bag, challengeMode, asyncMode, puzzle), actions);
            && Connected(t.grid) && (t.boardEmpty <==> t.grid == map[])
            && NoSplitPairs(rules.letters, t.grid)
            && (!challengeMode ==> AllWords(rules, t.grid))
  {
    ModeKept(rules, Opening(rules, bag, challengeMode, asyncMode, puzzle), actions);
  }

  /**
   Without voting nothing is ever pending: every accepted placement is carried out at once. So in the daily
   puzzles, which are built without voting, there is no second way of placing.
   */
  lemma DirectWithoutVoting(rules: Rules, s: State, actions: seq<Action>, id: string, tiles: seq<Placed>)
    requires Inv(rules, s) && !s.challengeMode
    ensures var t := Play(rules, s, actions);
            var formed := Validate(rules, t.grid, t.boardEmpty, tiles, false);
            && t.pending.None?
            && (PlaceTiles(rules, t, id, tiles).Ok? ==>
                  formed.Ok? && t.cur < |t.players|
                  && PlaceTiles(rules, t, id, tiles)
                     == Ok(FinalizePlacement(t, tiles, PlacementTotal(formed.value, |tiles|))))
  {
    ModeKept(rules, s, actions);
  }
}
