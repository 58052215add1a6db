# A verified model of the Hungarian crossword-game server

The server runs a board game with letter tiles for one to four players. This project models its game engine
and the smaller algorithms around it in Dafny, and proves what they promise over every input and every run.

- `Tiles`, `Bags`: the alphabet of 39 kinds of tiles with points and counts, and the bag of 100 tiles.
- `Tilings`: two algorithms that split a word into tiles, a dynamic program that finds the best split and a
  search that lists all legal ones.
- `Grids`, `BoardLaws`, `Scores`, `Verdicts`, `BoardTranspose`, `BoardOrder`, `Boards`: the 15x15 board, the checks of
  a placement and what it scores, what does not matter to them (mirroring, the order of the tiles), and the class that
  makes them by scanning its array of cells.
- `GameStates`, `GameLaws`, `Ledger`, `Runs`, `Turns`, `ChallengeLaws`, `VoteRuns`, `Deadlines`: the game as a state
  machine over its public operations, with everything that holds in every run, in whatever order players, voters,
  administrators and the clock act.
- `Authority`, `Moves`, `Endings`: who may take which action when, what an accepted action changes, and who wins.
- `Challenges`, `Games`: the classes for a pending placement and for the game. Each method leads to the state
  that the operation of the same name in `GameStates` describes, so all laws about states hold of objects.
- `Saves`, `SaveLaws`, `Winners`, `SaveRuns`: the record a game is saved in, what survives saving and restoring, in
  every run, and how a restored game is resumed.
- `Bridges`: what a robot may know of the unseen tiles, and how the other engine's move is laid out.
- `Moderation`: banned words in chat messages, searched in folded text and masked in the original.
- `Elo`, `EloLaws`, `Ratings`, `RatingOrder`, `Rosters`, `RatingLaws`, `Timelines`, `GameTies`, `LateGames`,
  `LateAdjustments`, `SameTime`, `RatingRuns`, `Databases`: rating changes, the incremental updates of the rating
  tables, the replay of the whole history that they must agree with, and what happens at the same time or when the
  clock has gone back.
- `Histories`, `Tallies`: what the tables alone say about the ratings, which games and adjustments count, and that the
  ratings add up.
- `Orders`, `Results`: lists as collections, and results that may be refusals.
- `Linear`, `Cholesky`, `LeastSquares`, `Normals`: the least-squares fit of leave values.

Parameters of the model: the dictionary is a predicate on words, the alphabet any one that obeys the laws
proved of the Hungarian one (`Tiles.HungarianIsAlphabet`), a shuffle is an arbitrary permutation (in the state
machine the resulting bag is handed in, with the proof obligation that it is a permutation), points in time are
integers, the fold of a character, the expected score of a rating pair and the square root are function
parameters.

Results a reader may not expect:

- Tiles can leave a game in two ways only: with a player who leaves (`remove_player`), and when someone gives up
  while a placement is pending (`resign`). `Runs.TilesConserved` counts exactly these.
- A vote that accepts a placement leads to exactly what placing directly would have led to at the moment of the
  verdict, whatever happens around the table meanwhile (`Deadlines.AcceptedIsPlaced`). Two exceptions are states that
  no game is built to reach. In a correspondence game with voting the vote would not clear the placer's count of
  missed deadlines (`finalize_accept` lacks the reset that `finalize_placement` has): the two ways are equal iff it was
  zero (`ChallengeLaws.AcceptEqualsOutright`, `ChallengeLaws.MissedDeadlineIsTheException`); correspondence games are
  built without voting (src/async_games.rs:49-50), and outside them nobody ever misses a deadline
  (`Deadlines.RunsPunctual`). In a daily puzzle with voting an accepted vote would play on instead of ending the puzzle
  (`ChallengeLaws.PuzzleIsTheException`); the puzzles, too, are built without voting, and then nothing is ever pending
  (`Runs.DirectWithoutVoting`).
- The check for "no valid word" in `validate_words` can never fire for a placement that passes the checks before
  it (`BoardLaws.AnchoredFormsWord`).
- The move log is not in the saved record. With the stored moves put back, as the server does, a restored game is a
  proper game without any condition (`SaveLaws.ResumedInv`).
- A winner's name is lost in saving exactly when that winner is not seated any more (`Winners.WinnersSurvive`).
- The rating cache is not always right. A game is rated on the spot with the ratings of the moment, while the replay
  puts it into its place in the history. `LateGames.FinishAnywhereIff` says exactly when both agree, whatever stands
  behind it. In particular: after everything else, a game with at least two rated players leaves a right cache exactly
  when the adjustments of the same second move none of its rated players in sum (`SameTime.FinishIff`); one adjustment
  that nothing cancels breaks it (`RatingRuns.SameTimeBreaksCache`). When another game of the same time has a larger id
  but was finished first, the cache is right exactly when whoever is rated in both neither won nor lost in either
  (`SameTime.TieIff`). An adjustment breaks it exactly when the user was rated in a game that ended later, which takes
  a clock that goes back (`LateAdjustments.SetRatingIff`).

## Model

| member | source | states |
|---|---|---|
| Tiles.HungarianIsAlphabet | src/engine/tiles.rs:7-61 | the printed letters are all different, so looking up a printed text gives back the tile; only the blank prints nothing |
| Bags.FullSetCounts | src/engine/tiles.rs:151-161 | a new bag holds 100 tiles, each kind as often as the distribution says |
| Scores.KindsAsPrinted | src/engine/tiles.rs:7-61 | letters, points and counts of the 39 kinds are those of the printed distribution |
| Bags.TileBag.constructor | src/engine/tiles.rs:151-161 | the shuffled new bag is a permutation of the full set |
| Bags.TileBag.Draw | src/engine/tiles.rs:163-171 | takes the last tiles off the bag, never more than there are |
| Bags.DrawSplits | src/engine/tiles.rs:163-171 | what is drawn and what stays make up the bag; the number drawn is the one asked for, or all |
| Bags.TileBag.PutBack | src/engine/tiles.rs:173-176 | returned tiles are mixed in: the bag gains exactly these |
| Tilings.TokenizeWord | src/engine/tiles.rs:107-137 | the result's tiles spell the word, with the fewest tiles and among these the most points of all tilings; None exactly when there is no tiling |
| Tilings.OptimalIff | src/engine/tiles.rs:107-137 | a best tiling has the fewest tiles and, among those that have as many, the most points |
| Tilings.TilingSearch.Search | src/engine_duel/lexicon.rs:33-56 | the backtracking search appends everything reachable from its position and leaves its buffer as it was |
| Tilings.LegalTilings | src/engine_duel/lexicon.rs:32-61 | lists exactly the tilings of the word without a split digraph, each once |
| Tilings.OptimalIsLegal | src/engine/tiles.rs:94-137 | a best tiling never splits a digraph, although the dynamic program does not look for that |
| Tilings.TokenizationIsListed | src/engine_duel/lexicon.rs:27-61 | the tokenizer's result is one of the listed tilings, and is None iff the list is empty |
| BoardLaws.ValidateIffLegal | src/engine/board.rs:372-403 | the checks with their direction choice accept exactly the placements that are legal by the rules: in one line, without a gap, on free cells, attached to the board or through the centre, no new split digraph, new words known |
| Verdicts.FirstDefectReported | src/engine/board.rs:372-403 | accepted iff there is no defect, otherwise the first one is reported: of badly lying tiles the fault of the first, then line, centre, number, neighbour, gap, attachment, words, digraphs, dictionary |
| BoardLaws.FormedWordsAreTouchedRuns | src/engine/board.rs:288-307 | the formed words are exactly the maximal runs of two or more cells of the resulting board that contain a new cell, each once |
| BoardLaws.AnchoredFormsWord | src/engine/board.rs:341-353 | a placement that passed the earlier checks always forms a word |
| BoardLaws.GapIffUnfilled | src/engine/board.rs:266-272 | the continuity check of the main stretch holds iff no cell between two new tiles is empty |
| BoardLaws.SplitIffNewPair | src/engine/board.rs:313-329 | the scan of the formed words finds a split digraph iff some pair of neighbouring letters with a new tile spells one |
| BoardLaws.ConnectedKept | src/engine/board.rs:274-286 | the board stays one 4-connected component that contains the centre |
| BoardLaws.NoSplitPairsKept | src/engine/board.rs:313-329 | although only pairs with a new tile are checked, no split digraph ever appears on the board |
| BoardLaws.AllWordsKept | src/engine/board.rs:355-370 | although only words with a new tile are looked up, every word on the board stays in the dictionary |
| Verdicts.WordsInOrder | src/engine/board.rs:239-307 | the words come in order: first the one through all tiles, then those across it in the order of the tiles; of a single tile's two words the one in its row comes first |
| Verdicts.WordReads | src/engine/board.rs:185-208 | a formed word is the text of the cells of its run, from the first to the last, in this order |
| Scores.WordScore | src/engine/board.rs:185-208 | a word scores the sum over its cells of the face value (0 for a blank, twice or three times on a new DL or TL square), times 2 to the number of its new cells on DW or the star, times 3 to the number of those on TW |
| Scores.OldWordScore | src/engine/board.rs:185-208 | without a new cell a word scores the sum of the face values |
| Scores.ScoreDependsOnRun | src/engine/board.rs:185-208 | two sets of new cells that agree on the cells of a word give it the same score |
| Scores.PlacementScore | src/engine/game.rs:486-492 | a placement scores the sum of its words, and 50 more iff it takes seven tiles |
| Scores.PremiumsMirror | src/engine/board.rs:42-57 | the premium squares are the same mirrored up and down, left and right, and along the diagonal |
| Scores.PremiumsInQuarter | src/engine/board.rs:20-40 | which squares of the quarter up to the centre are which premium |
| BoardTranspose.ValidateFlips | src/engine/board.rs:372-403 | the mirrored placement on the mirrored board gets the same verdict, the same total score and the same words |
| BoardOrder.ValidatePermutes | src/engine/board.rs:372-403 | the order in which the tiles are listed matters neither to the verdict nor to words and total score; only of badly lying tiles another one may be reported |
| BoardOrder.BadlyLaidIff | src/engine/board.rs:212-227 | a bad position is reported exactly when some tile lies off the board, on a taken cell or on another tile |
| Boards.Board.FindWordBounds | src/engine/board.rs:173-183 | the local scans end where the maximal occupied stretch ends |
| Boards.Board.ExtractWord | src/engine/board.rs:185-208 | the scan yields text, cells and score of the run; `Scores.WordScore` and `Verdicts.WordReads` say what these are |
| Boards.Board.ValidatePositions | src/engine/board.rs:212-227 | the first tile off the board, on a taken cell or placed twice decides the error |
| Boards.Board.CheckAdjacency | src/engine/board.rs:274-286 | says whether a new tile lies next to an old one |
| Boards.Board.CollectWords | src/engine/board.rs:288-307 | the main word and the cross words, in this order |
| Boards.Board.FindSplitDigraph | src/engine/board.rs:313-329 | the digraph that neighbouring letters, one of them new, spell in the first formed word with such a pair and there first; None exactly when no formed word has one |
| Boards.Board.ValidatePlacement | src/engine/board.rs:372-403 | the verdict of the specification, tried on a copy: the board itself does not change |
| Boards.Board.ApplyPlacement | src/engine/board.rs:406-411 | the tiles are on the board and it is not empty any more |
| Boards.Board.FromJson | src/engine/board.rs:131-149 | the board read from saved rows; cells with unknown letters and cells beyond the board are dropped, the flag says whether anything was read |
| GameLaws.HasTilesIffIncluded | src/engine/game.rs:409-435 | taking the placed tiles out of a hand one by one works iff the hand holds them all with multiplicities, and leaves exactly the rest |
| GameLaws.NewGameInv | src/engine/game.rs:120-147 | a new game satisfies the invariant |
| GameLaws.PlaceTilesInv | src/engine/game.rs:523-556 | a placement keeps the invariant, directly or pending |
| GameLaws.CastVoteInv | src/engine/game.rs:636-666 | a vote keeps the invariant, also when it decides |
| GameLaws.ExchangeTilesInv | src/engine/game.rs:711-765 | an exchange keeps the invariant: the hand has as many tiles as before |
| GameLaws.RemoveSeatInv | src/engine/game.rs:301-332 | whoever leaves, the others keep their order and the turn stays with its player; when that player leaves it passes to the following seat; the invariant holds |
| GameLaws.ApplyInv | src/engine/game.rs:153-915 | no action breaks the invariant: pointer in range, a pending placement belongs to the player to move and stays legal, at most 7 tiles a seat and exactly 7 while the game runs and the bag has tiles, fewer than 6 scoreless turns while unfinished, board a proper crossword |
| GameLaws.Play | src/engine/game.rs:153-915 | every state any run leads to satisfies the invariant |
| Authority.EveryActionJudged | src/engine/game.rs:153-869 | every action, whoever takes it and in whatever state, is accepted iff none of the grounds against it holds, and otherwise refused for the first of them; so only the player to move places, exchanges or passes, only another human who has not voted votes, only the placer withdraws, before the first vote |
| Authority.MeddlingChangesNothing | src/engine/game.rs:523-797 | a move by anybody but the player to move, a vote by a bot, the placer or who has voted, a withdrawal by anybody but the placer or after a vote leaves the state as it is |
| Moves.StartDeals | src/engine/game.rs:334-347 | everyone, in seat order, draws seven tiles from the end of the bag; hands and bag make up the bag as it was, and nothing else changes |
| Moves.SelectPicks | src/engine/game.rs:744-750 | the tiles given away are those at the selected places of the hand, the others stay, both in hand order |
| Moves.PlacementMoves | src/engine/game.rs:439-464 | a placement that is carried out while the game goes on: the tiles leave the hand, which is filled up to seven from the end of the bag; the points are booked, the counters cleared; nobody else is touched |
| Moves.SolvingEnds | src/engine/game.rs:439-475 | the placement that solves a daily puzzle ends it: its own points are the result, the solver is the winner |
| Moves.ExchangeMoves | src/engine/game.rs:711-765 | the selected tiles are replaced by as many from the end of the bag, drawn before these are mixed in; the count of missed deadlines is cleared; nobody else is touched |
| Moves.PassMoves | src/engine/game.rs:768-797 | a missed deadline is counted, an own pass clears the count; hands, scores, bag and board stay |
| Moves.TurnLogs | src/engine/game.rs:920-947 | each completed turn logs one entry: its number, the name of who moved, the kind of move, its points, and the board after it |
| Moves.LastVoteDecides | src/engine/game.rs:636-666 | a vote is recorded under its voter and decides iff all other humans have then voted |
| Moves.JoinSeats | src/engine/game.rs:153-166 | who joins gets the last seat, connected, with nothing in hand and no points |
| Moves.ConnectionsChange | src/engine/game.rs:269-298 | losing the connection marks one seat, coming back gives it the new id; nobody else is touched |
| Moves.LeaverIsAwaited | src/engine/game.rs:301-332 | the game waits for the leaver to move iff that is the player to move of a running game and others stay |
| Ledger.StepBooks | src/engine/game.rs:153-947 | every action keeps the books: tiles only move between bag, hands, board and pending placement, scores change by the logged points and the final settlement, a finished game stays finished |
| Runs.TilesConserved | src/engine/game.rs:301-347 | in every run tiles present and tiles lost make up the tiles at the start |
| Runs.FullSetKept | src/engine/game.rs:439-464 | unless someone leaves, or gives up while a placement is pending, the 100 tiles are always all there |
| Runs.ScoresFollowLog | src/engine/game.rs:920-947 | the players' total, what left with leavers and what was paid at the end equal the logged points |
| Runs.ScoresEqualLog | src/engine/game.rs:920-947 | in a game nobody leaves, the total score is the sum of the logged points until the end |
| Runs.EndsOnce | src/engine/game.rs:888-893 | a run passes at most once from unfinished to finished, and nothing is paid before |
| Runs.EndingSettles | src/engine/game.rs:888-903 | playing out (or solving a puzzle) preserves the total, every other ending lowers it by exactly the value left in the hands |
| Endings.EveryonePays | src/engine/game.rs:888-900 | everyone pays for the tiles left in hand; who played out gets what all paid together |
| Endings.EndGameChampions | src/engine/game.rs:888-915 | a player of the settled table is among the winners iff nobody has more points |
| Endings.CrownedChampions | src/engine/game.rs:819-839 | the same among those who have not resigned, if there are any |
| Endings.EndingCrowns | src/engine/game.rs:819-915 | whatever action ends a game (playing out, the sixth scoreless turn, giving up, the third missed deadline, the administrator), exactly those win who have the most points after the settlement among those who did not give up, unless all did; only the solver of a puzzle wins without comparison |
| Endings.NobodyResignedYet | src/engine/game.rs:819-839 | in every run nobody is marked as resigned while the game goes on |
| Endings.PlacingEndsIff | src/engine/game.rs:439-475 | a placement that is carried out ends the game iff it solves a puzzle, or takes the whole hand while the bag is empty |
| Endings.AcceptingEndsIff | src/engine/game.rs:568-592 | an accepted placement ends the game iff it took the whole hand while the bag is empty |
| Endings.SixthScorelessEnds | src/engine/game.rs:874-881 | a turn without points ends the game iff it is the sixth in a row |
| Endings.ThirdMissEnds | src/engine/game.rs:801-816 | in a correspondence game, unless the turn is the sixth scoreless one, which ends the game anyway, the third missed deadline in a row and no earlier one ends it; its player has given up and does not win, unless nobody else plays |
| Runs.TurnsDecrease | src/engine/game.rs:874-881 | six times the tiles off the board plus the scoreless turns left strictly decreases on every completed turn and never increases |
| Runs.AtMost606Turns | src/engine/game.rs:874-881 | no game has more than 606 completed turns |
| Runs.ReachableBoards | src/engine/game.rs:523-592 | in every run the board is one connected crossword through the centre without a split digraph, empty iff its flag says so; without voting every word is in the dictionary |
| Runs.DirectWithoutVoting | src/robot/daily.rs:203-210 | in a game built without voting nothing is ever pending, in any run, and every accepted placement is carried out at once |
| Turns.NextTurnIsNearest | src/engine/game.rs:354-380 | the turn passes to the nearest following connected player, to the next seat when nobody is connected or the game is by correspondence |
| Turns.NextTurnApproaches | src/engine/game.rs:354-380 | each turn brings a connected player's seat closer, or makes it the current one |
| Turns.TurnsServePenalties | src/engine/game.rs:354-380 | with penalties: the turn passes to the first following seat where the search ends, or back after a whole round; exactly those who were there and were passed over have sat out their turn; nothing else changes |
| Turns.ActionSteps | src/engine/game.rs:354-404 | after the start only completed turns move the pointer, each of them as the search says; when someone leaves, it stays with its player, names and order of the others included |
| Turns.NobodyIsPassedOver | src/engine/game.rs:354-404 | in every run of a started game, whoever else leaves, a player who stays and is connected gets the turn before as many turns have passed as there were players |
| Turns.SeatFollowsPlayer | src/engine/game.rs:301-332 | the seat that a run is followed at is always that of the same player |
| ChallengeLaws.AcceptEqualsDirect | src/engine/game.rs:439-464 | placing, then accepting gives the same board, scores, hands, bag, next player, count, ending and winners as placing directly, exactly when the game is no daily puzzle; only the placer's count of missed deadlines differs: kept by the vote, cleared by placing |
| ChallengeLaws.AcceptEqualsOutright | src/engine/game.rs:568-592 | up to the mark in the log the two ways are equal outright iff the game is no puzzle and the placer's count was zero |
| ChallengeLaws.PuzzleIsTheException | src/engine/game.rs:568-592 | a puzzle table that satisfies the invariant, and a placement that it accepts for a vote, for which the two ways differ |
| ChallengeLaws.MissedDeadlineIsTheException | src/engine/game.rs:568-592 | the same in a correspondence game with voting whose placer has missed a deadline |
| ChallengeLaws.WithdrawUndoes | src/engine/game.rs:682-696 | withdrawing restores the state before placing, up to the order within the placer's hand |
| ChallengeLaws.RejectCostsOneTurn | src/engine/game.rs:595-616 | rejecting does the same, logs and counts one scoreless turn, passes the turn only when the placer is away, and ends the game iff it is the sixth |
| ChallengeLaws.AcceptedUnlessMajorityRejects | src/engine/challenge.rs:71-78 | a placement stands iff at most half of the voters reject it; silence counts as consent |
| VoteRuns.WaitingCommutes | src/engine/game.rs:558-716 | while a placement waits, whatever anybody does, the state is that of the placement made after all that happened around the table, up to the votes |
| VoteRuns.AcceptedAsPlaced | src/engine/game.rs:568-592 | however votes, reconnections and departures interleave, an accepted placement leads to what placing at that moment would have led to, up to the missed deadlines iff the game is no puzzle, outright iff there are none |
| VoteRuns.RejectedCostsOneTurn | src/engine/game.rs:595-628 | however they interleave, a rejected placement costs one turn at that moment; it is rejected iff more than half of the voters reject it or an administrator does |
| VoteRuns.WithdrawnLeavesNothing | src/engine/game.rs:682-696 | a withdrawn placement leaves what happened around the table and nothing else |
| Deadlines.StaysPunctual | src/engine/game.rs:768-816 | outside correspondence games no action counts a missed deadline |
| Deadlines.RunsPunctual | src/engine/game.rs:768-816 | in every run of such a game nobody ever has one |
| Deadlines.AcceptedIsPlaced | src/engine/game.rs:439-592 | in every run of a game with voting as it is built an accepted placement equals placing directly at that moment, up to the mark in the log |
| Challenges.Challenge.AddVote | src/engine/challenge.rs:61-63 | the vote is recorded, no other one changes |
| Challenges.Challenge.UpdatePlayerSid | src/engine/challenge.rs:81-85 | the vote of a player who returns under a new id moves along |
| Games.TakeTile | src/engine/game.rs:426-436 | the first such tile leaves the hand; says whether there was one |
| Games.ValidateHand | src/engine/game.rs:409-423 | accepts iff the tiles can be taken out of the hand one after the other |
| Games.RemoveTilesFromHand | src/engine/game.rs:426-436 | the hand without the placed tiles, and these tiles with blanks as blanks |
| Games.Game.constructor | src/engine/game.rs:120-147 | a new game with the full set in its bag |
| Games.Game.AddPlayer | src/engine/game.rs:153-166 | a new seat with an empty hand, or the reason of the refusal and no change |
| Games.Game.Start | src/engine/game.rs:334-347 | hands are dealt in seat order from the end of the bag |
| Games.Game.NextTurn | src/engine/game.rs:354-380 | the pointer moves as the search over disconnected and penalised players says, and the turn is counted |
| Games.Game.SkipDisconnectedCurrent | src/engine/game.rs:391-404 | a turn passes only from a disconnected player of a running game without pending placement while someone is connected |
| Games.Game.MarkDisconnected | src/engine/game.rs:269-277 | marks the first player with the id |
| Games.Game.ReplacePlayerSid | src/engine/game.rs:280-298 | the seat, the vote and the winners' records take the new id |
| Games.Game.RemovePlayer | src/engine/game.rs:301-332 | the seat is gone, pointer and pending placement stay with their players; says whether the turn has to be announced |
| Games.Game.FinalizePlacement | src/engine/game.rs:439-475 | board, score, refilled hand, cleared counters, log entry, then the next turn, the end, or the end of the puzzle |
| Games.Game.PlaceTiles | src/engine/game.rs:523-556 | the refusals in their order, or the placement carried out or pending; a refusal changes nothing; `Authority.EveryActionJudged` says which when |
| Games.Game.FinalizeAccept | src/engine/game.rs:568-592 | the pending tiles are on the board, the hand is refilled, the turn passes or the game ends |
| Games.Game.FinalizeReject | src/engine/game.rs:595-616 | the tiles are back in the hand, the placement is remembered as rejected, one scoreless turn is counted |
| Games.Game.ResolveAndFinalize | src/engine/game.rs:619-628 | the votes decide |
| Games.Game.CastVote | src/engine/game.rs:636-666 | the refusals in their order, or the vote recorded and, when it is the last one, the verdict carried out |
| Games.Game.WithdrawPending | src/engine/game.rs:682-696 | only the placer, only before the first vote |
| Games.Game.AcceptPending | src/engine/game.rs:699-706 | at the time-out the votes so far decide |
| Games.Game.ForceResolvePending | src/engine/game.rs:844-856 | the verdict of an administrator |
| Games.SplitHand | src/engine/game.rs:744-750 | the tiles that stay, in order, and those given away |
| Games.Game.ExchangeTiles | src/engine/game.rs:711-765 | the refusals in their order, or new tiles drawn first and the given ones mixed into the bag as some permutation, then a scoreless turn |
| Games.Game.PassTurn | src/engine/game.rs:768-797 | a scoreless turn; a missed deadline is counted, an own pass clears the count |
| Games.Game.ExpireTurn | src/engine/game.rs:801-816 | a pass for a missed deadline, and resignation after the third in a row |
| Games.Game.Resign | src/engine/game.rs:819-839 | the game ends and those who resigned do not win, unless all did |
| Games.Game.ForceEnd | src/engine/game.rs:860-869 | pending tiles return to the hand before the settlement |
| Games.Game.EndGame | src/engine/game.rs:888-915 | the settlement and the winners, which `Endings.EveryonePays` and `Endings.EndGameChampions` characterise |
| Games.Game.ToSaveDict | src/engine/game.rs:957-1012 | the record of the game, with pending tiles written into the placer's hand |
| Games.Game.FromSaveDict | src/engine/game.rs:1015-1070 | the game read from any record, without checking it |
| SaveLaws.TilesRoundTrip | src/engine/player.rs:70-77 | tiles written as texts are read back in the same order |
| SaveLaws.BoardRoundTrip | src/engine/board.rs:131-168 | a board is read back cell by cell as it was, blanks included |
| SaveLaws.KnownTextsAreRead | src/engine/player.rs:75-77 | of any saved list of texts exactly those that some tile prints are read, in their order |
| SaveLaws.KnownCellsAreRead | src/engine/board.rs:131-149 | of any saved rows exactly the cells on the board with a known letter are read |
| SaveLaws.SaveRoundTrip | src/engine/game.rs:953-1070 | restoring gives back board, bag order, scores, hands, counters and flags, with a pending placement taken back; only log, rejected placements, puzzle mark and the winners' own records are not kept |
| SaveLaws.PlayersSurvive | src/engine/game.rs:1042-1056 | the players come back unchanged exactly when no bot is marked as disconnected |
| SaveLaws.SaveKeepsTiles | src/engine/game.rs:953-994 | saving and restoring loses no tile and no point, also while a placement is pending |
| SaveLaws.ReattachedInv | src/server/core.rs:800-806 | with the stored moves as its log a restored game satisfies the invariant of all games, whatever was voted |
| SaveLaws.ResumedInv | src/server/events.rs:848-878 | a restored game is resumed iff one of its humans is there; then it satisfies the invariant and has all its tiles and points, so all laws about runs hold from there on |
| SaveRuns.ResumedTable | src/server/events.rs:848-870 | after resuming the humans who joined are there under their new ids, the other humans are away, all else is as restored; in a running game it is the turn of somebody who is there |
| Winners.WinnersSurvive | src/engine/game.rs:1058-1069 | with different names the winners come back by name iff they are still seated, in seat order |
| Winners.EndSeatsWinners | src/engine/game.rs:888-903 | however a game ends, the winners are seated players, in seat order |
| Winners.WinnersStaySeated | src/engine/game.rs:888-903 | in every run in which nobody leaves the finished game the winners are seated; before the end there are none |
| Winners.WinnersSurviveRuns | src/engine/game.rs:1058-1069 | after every such run from a new game the winners survive saving and restoring |
| SaveRuns.KnownInRuns | src/engine/player.rs:70-77 | in every run from a new game whose placements use letters of the distribution all its tiles can be saved |
| SaveRuns.SavedInRuns | src/engine/game.rs:953-1070 | every such game is read back from its record as it was written, with a pending placement taken back, and the winners with it as long as nobody leaves the finished game |
| SaveLaws.GameTilesAreKnown | src/engine/tiles.rs:48-61 | all tiles of a game whose tiles are among the hundred can be saved |
| Bridges.HonestUnseen | src/engine_duel/bridge.rs:86-103 | for every kind the count of the full set less the tiles on the board (a blank counts as blank) and in the own hand |
| Bridges.UnseenIsHidden | src/engine_duel/bridge.rs:84-103 | this is exactly the bag, the others' hands, what is pending and what left the game |
| Bridges.UnseenInRuns | src/engine_duel/bridge.rs:84-103 | the same in every run from a new game |
| Bridges.UnseenIsBagAndHands | src/engine_duel/bridge.rs:84-85 | it is the bag and the others' hands alone iff nothing is pending and nothing was lost |
| Bridges.LaidOut | src/engine_duel/bridge.rs:58-73 | of a vertical opening move rows and columns are exchanged, any other is kept; then the tiles go row by row |
| Bridges.MirroringIsHarmless | src/engine_duel/bridge.rs:58-73 | mirroring a vertical opening move and sorting the tiles by row and column changes neither the verdict nor words and points |
| Moderation.FoldWithMap | src/admin/moderation.rs:49-59 | the folded text, and for each of its characters the place it comes from |
| Moderation.MergeSpans | src/admin/moderation.rs:79-87 | sorted spans are merged into separated ones that cover the same characters |
| Moderation.FindBanned | src/admin/moderation.rs:62-88 | the spans are in order, apart from each other and cover exactly the characters of all matches |
| Moderation.SpansAreUnique | src/admin/moderation.rs:61-88 | no other list of separated spans covers the same characters |
| Moderation.BannedIff | src/admin/moderation.rs:62-88 | a character belongs to a match iff a banned word in the folded text reaches into, or around, what that character is folded to |
| Moderation.ContainsBanned | src/admin/moderation.rs:90-92 | true iff some banned word stands in the folded text |
| Moderation.MaskBanned | src/admin/moderation.rs:95-107 | same length, stars exactly over the characters of all matches |
| Moderation.MaskedIsClean | src/admin/moderation.rs:95-107 | with a fold that keeps the star and banned words without it, the masked text contains no banned word and masking it again changes nothing |
| Elo.RatingChanges | src/accounts/elo.rs:31-56 | the loop over all pairs computes the change of every user, which `EloLaws` characterise |
| Elo.ChangesByUser | src/accounts/elo.rs:31-56 | every user gets the change computed for the user's own entry |
| Elo.RoundTiesEven | src/accounts/elo.rs:52-53 | the nearest integer, the even one of two |
| Elo.ChangeBounded | src/accounts/elo.rs:3-6 | no game moves a rating by more than K, however many play |
| Elo.ChangesBalance | src/accounts/elo.rs:31-56 | among players with the same K the unrounded changes sum to zero and the rounded ones to within half their number |
| EloLaws.BestNeverLose | src/accounts/elo.rs:31-56 | who has strictly the most points does not lose rating, and wins before rounding unless every win was certain |
| EloLaws.LastNeverWin | src/accounts/elo.rs:31-56 | who has strictly the fewest points does not win rating, and loses before rounding unless every loss was certain |
| EloLaws.MorePointsNeverHarm | src/accounts/elo.rs:31-56 | more points of one player, all else equal, never lower that player's change |
| EloLaws.TwoPlayers | src/accounts/elo.rs:24-56 | between two the change is 32, from the tenth rated game on 20, times the result (1, a half, 0) less the expected score, rounded |
| RatingLaws.SortIsChronological | src/admin/games.rs:459-471 | the timeline holds exactly the events, in order of time, games before adjustments |
| Histories.GamesListed | src/admin/games.rs:459-463 | a game is in the history iff it is stored as finished and without bots, with time, names, users, scores and resignations as stored |
| Histories.AdjustmentsListed | src/admin/games.rs:464-466 | every adjustment is, with the difference it made |
| Histories.HistoryInOrder | src/admin/games.rs:467-468 | by time, at the same time games before adjustments, and then by id |
| Histories.RankedAreUsers | src/db/games.rs:82-96 | ranked are the registered users among the people, each once and as first listed, with the present standing; who resigned with -1 000 000 000 points |
| Histories.GuestsUnranked | src/db/games.rs:79-96 | at the end of a game the same are ranked, without guests, who play under the id 0 |
| Histories.UncountedCanGo | src/admin/games.rs:459-463 | removing a game that is not finished, or that bots played in, changes nothing that is computed |
| Histories.VoidedLikeDeleted | src/admin/games.rs:269-288 | after voiding a game all users and the rows of all other games are as after deleting it, and its own rows note no ratings |
| Histories.WithoutHistory | src/admin/games.rs:476-480 | with no game that counts and no adjustment everybody has 1200 and no games |
| Histories.StatusChangesIff | src/admin/games.rs:269-405 | exactly finished games can be voided, exactly voided ones restored; any game that is not live can be deleted, a finished one only when confirmed |
| Histories.SettingIff | src/admin/users.rs:619-637 | a rating can be set iff it is 100 to 4000, for a user, and another one; that and the record of it is all that changes |
| Histories.SavingStores | src/db/games.rs:118-155 | a game is saved in the first active place of its room, or a new one; rows by name, a known user id stays; nothing else changes |
| Histories.FinishingStores | src/db/games.rs:157-208 | a game is finished in that place, and beyond that only ratings change, nothing when bots played |
| Tallies.RatingsAddUp | src/admin/games.rs:476-560 | in a right cache every rating is 1200 plus the adjustments plus the differences noted with games, every count the number of games that note one |
| Tallies.RatedIff | src/db/games.rs:79-103 | in a right cache a row notes ratings iff its game is finished and without bots, its user registered, and another registered user played |
| RatingLaws.SameHistorySameRatings | src/admin/games.rs:476-514 | the replay depends on the history alone, not on stored ratings |
| RatingLaws.RecomputedIsConsistent | src/admin/games.rs:518-560 | after a recomputation the cache is right, whatever it was before |
| RatingOrder.RateSamePeople | src/db/games.rs:79-103 | a game of different users is rated the same in whatever order they are listed |
| Rosters.MatchingPeople | src/db/games.rs:157-204 | storing a roster by name leaves exactly its people in the rows, in whatever order the rows were stored before |
| Timelines.TimelineSplits | src/admin/games.rs:459-471 | one more event changes the timeline in one place only: behind all earlier and before all later ones |
| GameTies.GamesCommute | src/admin/games.rs:486-511 | the order of two games does not matter to ratings and noted pairs iff one of them rates fewer than two people or whoever is rated in both neither wins nor loses in either |
| LateGames.RatedBehindIff | src/admin/games.rs:476-511 | a game may be rated behind any later events instead of before them iff fewer than two of its people are rated, or those who are come back to their ratings and whoever of them is rated in a later game is not moved here and is moved there as much with one more game |
| LateGames.ConsistentIffSpot | src/db/games.rs:79-103 | rating on the spot leaves the cache right iff the replay makes the same book of users and noted pairs |
| LateGames.FinishAnywhereIff | src/db/games.rs:157-208 | a game finished at any time, whatever the tables hold at that time or later, leaves the cache right iff what stands behind it in the history is harmless in this sense |
| SameTime.FinishIff | src/db/games.rs:79-103 | a game finished after all other games leaves the cache right iff fewer than two of its people are rated or the adjustments of the same time move none of the rated ones in sum |
| SameTime.TieIff | src/db/games.rs:157-204 | a game finished at the time of one with a larger id leaves the cache right iff fewer than two of its people are rated or those rated in the other game neither won nor lost there, nor do now |
| LateAdjustments.SetRatingIff | src/admin/users.rs:619-637 | an adjustment at any time leaves the cache right iff the user was not rated in a game that ended later |
| RatingRuns.PerformIff | src/admin/games.rs:459-560 | each operation leaves a right cache right iff nothing behind its event depends on it |
| RatingRuns.InOrderUndisturbed | src/admin/games.rs:459-471 | nothing is disturbed while the clock does not go back, games get ascending ids, and adjustments of the second of a game cancel each other |
| RatingRuns.AlwaysConsistent | src/admin/games.rs:459-560 | after any sequence of finished games, adjustments, voids, restorations, deletions, saves and registrations that disturb nothing behind them every stored rating, count and before/after pair equals the replay from nothing |
| RatingRuns.ReachedConsistent | src/admin/games.rs:459-560 | the same from empty tables |
| RatingRuns.VoidThenUnvoid | src/admin/games.rs:269-304 | voiding a game and restoring it gives back the tables exactly |
| RatingRuns.SameTimeBreaksCache | src/admin/games.rs:459-471 | an adjustment that nothing cancels, followed at the same time by a rated game of that user, leaves a wrong cache |
| Databases.Database.Timeline | src/admin/games.rs:459-471 | the sorted events, which `Histories.GamesListed`, `AdjustmentsListed` and `HistoryInOrder` characterise |
| Databases.Database.ComputeRatings | src/admin/games.rs:476-514 | the loop over the events is the replay |
| Databases.Database.RecomputeRatings | src/admin/games.rs:518-560 | users and noted pairs are overwritten by the replay, all other pairs cleared |
| Databases.Database.ApplyRatings | src/db/games.rs:79-103 | only the ranked people of the game change; fewer than two change nothing |
| Databases.Database.SaveGame | src/db/games.rs:118-155 | the active game of the room is updated, or a new one stored |
| Databases.Database.FinishGame | src/db/games.rs:157-208 | the game is finished with its participants by name, and rated unless bots played |
| Databases.Database.SetRating | src/admin/users.rs:619-637 | the new rating and its row in the history, or a refusal without change |
| Databases.Database.VoidGame | src/admin/games.rs:269-288 | only a finished game, with recomputation; `Histories.VoidedLikeDeleted` says what that leaves |
| Databases.Database.UnvoidGame | src/admin/games.rs:290-304 | only a voided game, with recomputation |
| Databases.Database.DeleteGame | src/admin/games.rs:377-405 | not a running game, a finished one only when confirmed; recomputation unless the game never counted |
| Cholesky.ProgressPut | src/engine_duel/leaves.rs:266-283 | each entry written in place keeps the finished columns a factor of the original matrix |
| Cholesky.FactorUnique | src/engine_duel/leaves.rs:266-283 | the finished columns are determined by the matrix, so the pivots are |
| Cholesky.SinglePivot | src/engine_duel/leaves.rs:271-273 | a single equation is refused iff its coefficient is at most 1e-12 |
| Cholesky.SubstitutionsSolve | src/engine_duel/leaves.rs:284-297 | solving with the factor and then with its transpose solves the system |
| Cholesky.CholeskySolve | src/engine_duel/leaves.rs:265-299 | succeeds iff no pivot of the matrix is at or below the threshold; then the vector holds the solution of the original symmetric system, otherwise it is unchanged and the first such pivot is reported |
| LeastSquares.ErrorFromSums | src/engine_duel/leaves.rs:202-217 | the squared error of any weights follows from the kept sums alone |
| LeastSquares.SolutionIsLeast | src/engine_duel/leaves.rs:174-199 | weights that solve the penalised normal equations have the least penalised squared error of all weights |
| Normals.Normal.Add | src/engine_duel/leaves.rs:132-148 | the sums over one more observation, from its few non-zero features |
| Normals.ResidualIs | src/engine_duel/leaves.rs:132-148 | of an observation weights leave unexplained its outcome less the constant's weight and the weighted features |
| Normals.Normal.Merge | src/engine_duel/leaves.rs:150-160 | the sums over the observations of both |
| Normals.Normal.SolveFull | src/engine_duel/leaves.rs:183-199 | succeeds iff the penalised matrix has no bad pivot, and reports the first one otherwise; the weights solve the normal equations and are optimal for a penalty that is not negative |
| Normals.Normal.Mse | src/engine_duel/leaves.rs:202-217 | the mean squared error over all observations, none without observations |

## Left out

- Message texts, `last_action`, hints, deadlines, client state, history formatting, racks and words in the move log: presentation.
- Fixed integer widths (`u8` tiles, `i32` scores, `i64` ratings): integers are unbounded here.
- Floating-point rounding in ratings and least squares: exact reals; the rounding of a rating change is exact.
- The premium table is given by one quarter of the board and mirrored.
- The board errors do not carry the digraph or the unknown word; the digraph is found all the same.
- The set of rejected placements holds multisets of tiles instead of sorted lists.
- Games.Game.AddPlayer: takes the flag for bots and their id; `add_bot` (src/engine/game.rs:168-184) makes up a fresh id and skips the duplicate check, and difficulty levels are not modelled.
- The random starting seat of a correspondence game and the set-up of a daily puzzle: made outside the modelled operations; runs start from a new game with or without a puzzle mark.
- Upper-casing before tokenizing: the word is given in upper case.
- Games.SplitHand: walks through the hand once from its end instead of removing sorted indices one by one; the kept and given tiles are the same, the given ones in hand order, and the bag shuffles them.
- Saved games are records, not JSON text; fields missing from old saves and their defaults (`consecutive_passes`, `winner_name`) are not modelled.
- The conversions to and from the external engine's types.
- Moderation: the choice between masking and dropping a message (`filter_chat`), the log and the reports.
- The rating tables as SQL: maps and sequences; counters of played and won games, badges and permissions are not modelled, nor are abandoned games, which never count.
- Deleting a user: it removes the user's results from the history and is not one of the modelled operations.
- LateGames.FinishAnywhereIff: every stored row belongs to one of the players the game is finished with; the server marks players of a running game as disconnected instead of removing them (src/server/events.rs:765-775). Flags and user ids of the roster agree with the stored ones, and when the same user plays twice the rows were stored in the order of the players.
- Endings.ThirdMissEnds: of a player whose id no other seat has; joining refuses a second seat with the same id.
- Games.Game.ToSaveDict: without the deadline, the time limit, hints and difficulty levels, which the model does not have.
- Games.Game.FromSaveDict: reads records that have all fields; the refusal of records without ids or names, and hints, time limit and difficulty are not modelled.
- SaveLaws.ResumedInv: the stored moves are taken to be the log of the saved game; who may join late and the new room are not modelled.
- Cholesky.CholeskySolve: the matrix is a two-dimensional array instead of a flat slice.
- Normals.Normal.Add: takes the features in ascending order, as the source's caller provides them; computing them from a rack (`features`, `pair_index`) is not modelled, and the number of features is a parameter.
- Saving accumulators to files, training games, the model's evaluation inside the engine, statistics of duels.
- The dictionary and its affix rules, the robots' move search, rooms, HTTP and socket handling, mail, push, backup and logs.
