# Verified models of the geo-guessing backend

The backend is a Go service over PostgreSQL and Redis. Its hard parts are transactions that move several
tables at once, so each transaction body is modelled as one atomic step over the rows it touches. A row lock, a
unique key or an `ON CONFLICT` clause becomes a guard; a failed insert aborts the step and leaves every table as
it was. Where the Go code updates rows in place, a class holds those rows as fields and its methods are proved
equal to the step functions. Each main step is tied to the stored columns: exactly when it takes effect, and what it
then writes. Safety is proved over every run of steps.

What is covered, file by file:

- **Rounds, scores and matches** (`Game`, `GameInvariants`, `ScoreLedger`, `Match`, `MatchCoupling`, `Formation`,
  `TeamTotals`, `RoundSteps`, `GameRepository`, `Scoring`). A game is one `games` row with its rounds, players and guesses; a
  matchmade game also has its `matches` row, which the lifecycle hooks move inside the same transaction. The
  server's wiring gives both hook slots the same adapter (`backend/cmd/api/main.go:305-306`), so activation,
  completion and cancellation callbacks run twice in the model too. The invariants are the round shape, the score ledger and the
  coupling of match and game.
- **Rating ledger and seasons** (`Rating`, `RatingLedger`, `LadderRuns`, `RatingConservation`, `FinalizedRatings`, `PlayedResults`, `Seasons`,
  `SeasonPages`, `SeasonWalks`, `StartingRatings`, `CompetitiveRepository`). The expected score is any real function `e` with
  `e(a, b) + e(b, a) == 1`; Elo arithmetic is exact. A season's id is its place in the list of seasons.
- **Leaderboards** (`Ranking`, `Paging`, `Leaderboards`, `BestEntries`, `DailyRanks`). A table is a set of rows; a query with
  `ORDER BY` is the one ascending list of the rows it selects.
- **Cached pages** (`PageCache`). Readers and writers are interleaved one cache or database call at a time.
- **Rewards, attempts and streaks** (`Rewards`, `DailyAttempts`, `Streaks`), **friendships** (`Friends`) and
  **sessions** (`Sessions`).

## Results that are conditional

Some properties hold only under a condition. Each is proved as "if and only if".

- Starting a game through the solo path leaves a playable round iff the game already has rounds; every hosted room
  started that way is left active without a round for good (`StartGameShape`, `SoloStartWedgesEveryRoom`).
- Redis `INCR` on an absent key gives 1, which is also the default generation, so the first bump shows iff the key
  already holds a positive number; reads whose generation is not misread are coherent over all interleavings iff every
  bump shows, whichever way a reader falls back (`VersionedReadsAreCoherentIff`, `RedisCounterIsCoherentIff`). The
  competitive reads fall back to generation 1 when the version read fails, the score leaderboards skip the cache: over
  all interleavings without exception reads are coherent iff they skip the cache and every bump shows
  (`AlwaysCoherentIff`).
- Following cursors reads the whole board iff every row that ends a page has a cursor the decoder accepts; a negative
  recorded duration is refused (`FollowingCursorsIsExact`, `NegativeDurationStopsAWalk`). The season ladders meet the
  same condition in every reachable state (`LiveWalkIsExact`, `LiveWalkReadsTheLadder`).
- An upserted best entry equals recomputation iff the stored entry is not strictly better than every game that still
  counts (`UpsertIsExactIff`).
- The two teams' base rating deltas cancel iff the match was not lost by both teams (`BaseDeltasCancelIff`).
- The stored streak row equals the streak fold iff no gap follows a run of one day; after such a gap the row never
  changes again (`PersistedIsFoldIff`, `LostIsForever`).
- A block between active users takes hold iff the other side does not already hold one, and the second block is lost
  when the first is lifted (`BlockTakesHoldIff`, `SecondBlockIsLost`).
- A refresh token is accepted up to its stored expiry, in whole seconds; in the rest of that second it is expired although
  its key still exists (`UndisturbedTokenIsAccepted`).
- The 64-bit bonus formula equals the exact one for all windows up to d iff d is at most (2^63 - 1) / 25000 ms
  (`Int64BonusIsExactIff`); the timer window can never exceed that bound (`NoCallerOverflows`).
- Mission progress is the capped sum of the accepted deltas iff the target is not negative or a single event was
  accepted; the targets the service creates are all positive (`ProgressIsCappedSumIff`, `ProgressIsCappedSum`).

Where a comment and the code disagree the model follows the code: freezing a season gives a position to every
qualifying standing although the comment speaks of the first 500 (`backend/internal/competitive/season.go:90-91`), and a
streak that breaks is stored as active although the code first sets it to broken
(`backend/internal/challenges/streaks.go:30-38`).

## Model

| member | source | states |
|---|---|---|
| Scoring.ComposeGuessScores | backend/internal/games/speed_scoring.go:50-67 | accuracy is within 0..5000, the bonus within a twentieth of it, the total is their sum within 0..5250, and only ranked modes get a bonus |
| Scoring.RoundTimerWindowMs | backend/internal/games/speed_scoring.go:72-89 | 0 <= remaining <= duration, the duration is within the range in which no product overflows, and is zero iff a bound is missing |
| Scoring.BonusIsAtMostATwentieth | backend/internal/games/speed_scoring.go:28-46 | the bonus never exceeds a twentieth of the accuracy, so the cap of 250 never binds for a legal accuracy |
| Scoring.BonusMatchesDocumentedFormula | backend/internal/games/speed_scoring.go:18-46 | the integer formula is min(250, floor(accuracy * 0.05 * remaining / duration)) |
| Scoring.Int64BonusIsExact | backend/internal/games/speed_scoring.go:28-46 | on wrapping 64-bit words the same code computes the exact bonus for every window up to (2^63 - 1) / 25000 ms |
| Scoring.NoCallerOverflows | backend/internal/games/speed_scoring.go:72-95 | every bonus a guess is given comes from a window in that range |
| Scoring.Int64BonusIsExactIff | backend/internal/games/speed_scoring.go:28-46 | the bound is tight: the machine form is exact for all legal accuracies and all windows up to d iff d <= (2^63 - 1) / 25000 ms |
| Scoring.BetterAndEarlierNeverScoresLess | backend/internal/games/speed_scoring.go:92-95 | within one round a better guess that is no later never scores less |
| Game.FindRoundFinds | backend/internal/games/repository.go:406-409 | the round query returns a row with the wanted number, and nothing iff there is none |
| Game.NextPendingIsLeast | backend/internal/games/repository.go:1204-1228 | the next round is the pending one with the least number |
| GameInvariants.ActiveRoundFacts | backend/internal/games/repository.go:397-538 | an active round belongs to an active game and is the first unfinished one; a started game other than practice has exactly one |
| GameInvariants.StartGameShape | backend/internal/games/repository.go:92-129 | starting keeps the round shape, and leaves a playable round iff the game has rounds |
| GameInvariants.StartPrivateRoomShape | backend/internal/games/repository.go:132-196 | starting a room keeps the round shape and leaves it with rounds |
| GameInvariants.AppendPracticeShape | backend/internal/games/repository.go:251-301 | practice rounds grow one at a time; a creation key makes at most one round and repeating it changes nothing |
| GameInvariants.EndPracticeShape | backend/internal/games/repository.go:303-362 | ending a practice session keeps the round shape |
| GameInvariants.CancelShape | backend/internal/games/repository.go:665-709 | cancelling keeps the round shape |
| GameInvariants.SubmitGuessShape | backend/internal/games/repository.go:397-481 | a solo guess never reads the game's status, yet commits only in an active game, on the first unfinished round, and keeps the shape |
| GameInvariants.ExpireSoloRoundShape | backend/internal/games/repository.go:485-538 | a solo timeout never reads the game's row before expiring, yet commits only in an active game and keeps the shape |
| GameInvariants.SubmitMultiplayerGuessShape | backend/internal/games/repository.go:550-622 | a multiplayer guess keeps the shape and reports a terminal result exactly when it completes the game |
| GameInvariants.CloseExpiredShape | backend/internal/games/repository.go:711-751 | closing an expired round always closes one, keeps the shape and reports a terminal result exactly when it completes the game |
| ScoreLedger.RecordGuess | backend/internal/games/repository.go:423-446 | inserting a guess and crediting its player keeps every total equal to the sum of its guesses and at most one guess per round and player |
| ScoreLedger.ZeroFillIsExact | backend/internal/games/repository.go:1145-1179 | zero-fill gives every active player a guess for the round, keeps earlier guesses and all totals, and adds only timed-out zeros |
| ScoreLedger.CompleteMultiplayerRoundLedger | backend/internal/games/repository.go:1181-1242 | closing a round keeps the ledger and every running total |
| ScoreLedger.TeamTotalIsSumOverRounds | backend/internal/games/multiplayer.go:99-139 | a team's total is the sum over the rounds of its per-round scores |
| ScoreLedger.TerminalTotalsAreRoundSums | backend/internal/games/multiplayer.go:99-168 | the terminal result carries those sums and the winner they decide |
| TeamTotals.SumTeamTotals | backend/internal/games/multiplayer.go:101-115 | the loop, which loadTeamOutcome repeats, computes both team totals |
| TeamTotals.SumRoundTeamScores | backend/internal/games/multiplayer.go:120-139 | the map-building loop computes both teams' scores of one round |
| MatchCoupling.ActivationKeepsProgress | backend/internal/matchmaking/lifecycle.go:149-160 | activating a match in progress keeps it in progress, and the second slot's activation changes nothing |
| MatchCoupling.TerminalHooksComplete | backend/internal/matchmaking/lifecycle.go:166-338 | the terminal hook completes the match with the computed scores, result and winner, and the completion hook after it changes nothing |
| MatchCoupling.ReplayKeepsResult | backend/internal/matchmaking/lifecycle.go:166-235 | a replayed completion hook changes at most the rating marker |
| MatchCoupling.CancelHooks | backend/internal/matchmaking/lifecycle.go:241-258 | cancelling ends the match as cancelled or failed with its participants, and the second callback changes nothing |
| MatchCoupling.ExecKeepsInv | backend/internal/games/service.go:422-486 | every command with its hooks keeps the round shape, the score ledger and the coupling of match and game |
| MatchCoupling.RunKeepsInv | backend/internal/games/repository.go:397-751 | so does every run |
| MatchCoupling.RoundsStayInShape | backend/internal/games/repository.go:92-751 | after every run there are as many rounds as the game counts (none only in an unstarted room), numbered from 1 with distinct creation keys; they read completed up to the first unfinished one, the only one that can be active, and only in an active game; every later one is pending, or cancelled once the game has ended; a completed game other than practice has completed them all |
| MatchCoupling.ScoresAlwaysAgree | backend/internal/games/repository.go:423-446 | after every run each total is the sum of the player's guesses, a solo game's total is its player's, guesses are unique per round and player and score accuracy plus bonus within 0..5250 |
| MatchCoupling.MatchAndGameStayCoupled | backend/internal/matchmaking/lifecycle.go:166-338 | over every run the match is completed iff the game is, called off iff the game is, and a completed match carries the sums over the rounds |
| MatchCoupling.TerminalMatchIsFrozen | backend/internal/matchmaking/lifecycle.go:279-338 | a terminal match never changes again, although the terminal hook overwrites the status; only the rating marker may still be set |
| MatchCoupling.ClosesAndFiringsAreExact | backend/internal/games/repository.go:1181-1242 | over any run the rounds closed are exactly counted and at most the rounds there are, and the terminal hook fires once iff the run completes the game |
| MatchCoupling.ClosingARoundIsExact | backend/internal/games/repository.go:550-751 | whenever a multiplayer round closes, everyone active has exactly one guess for it, earlier guesses stay, totals equal their sums and one unfinished round fewer is left |
| RoundSteps.MultiplayerGuessIsRecordedIff | backend/internal/games/repository.go:550-622 | a multiplayer guess takes effect iff its player is a member without one for the open round, in time; it then stores the raw accuracy clamped to 0..5000 and, in a ranked mode, the bonus the documented formula gives for the round's own window and that instant; the submitter's total rises by that score, no other total moves, and what is stored behind it are timed-out zeros; a refused guess changes nothing |
| RoundSteps.GuessClosesIff | backend/internal/games/repository.go:600-622 | a guess closes its round iff with it as many players have guessed as are active |
| RoundSteps.DeadlineClosesIff | backend/internal/games/repository.go:711-751 | a deadline closes the open round iff it is a ranked or hosted game's and has passed; totals stay and only active players without a guess get a timed-out zero |
| RoundSteps.SoloGuessIsRecordedIff | backend/internal/games/repository.go:397-481 | a solo guess takes effect iff it is in time for the open round and the first; it stores the clamped accuracy without a bonus and adds it to both totals |
| RoundSteps.TimeoutIsRecordedIff | backend/internal/games/repository.go:485-538 | a daily round times out iff it is open, past its deadline and without a guess; it stores a timed-out zero and moves no total |
| RoundSteps.ClosingOpensTheNext | backend/internal/games/repository.go:1181-1242 | whatever closes a round completes exactly it and opens the one after it at that instant with the game's timer, or with none in a casual game; behind the last round the game completes unless it is a practice session |
| RoundSteps.SoloStartsIff | backend/internal/games/repository.go:92-129 | a solo start takes effect iff the game is pending; it opens the first round now and leaves the others |
| RoundSteps.RoomStartsIff | backend/internal/games/repository.go:132-196 | a room starts iff it is a pending multiplayer game with a positive round count; it then has that many rounds, the first open from now for the timer |
| RoundSteps.PracticeGrowsIff | backend/internal/games/repository.go:251-301 | a practice round is appended iff the key is new and every round so far is completed; it opens now without a deadline |
| RoundSteps.CancelsIff | backend/internal/games/repository.go:665-709 | a running multiplayer game ends with the status asked for and its open rounds cancelled, unless its match cannot store the failure code |
| RoundSteps.PracticeEndsIff | backend/internal/games/repository.go:303-362 | a running practice session, and nothing else, ends completed with its open rounds cancelled |
| RoundSteps.MarkerIsSetIff | backend/internal/matchmaking/lifecycle.go:166-338 | a match is marked as rated, at that instant and once, exactly when a finalizer that finalizes is reached and the match is not casual |
| Formation.NewGamesAreWellFormed | backend/internal/games/repository.go:25-44 | a new solo, daily or practice game, and a hosted room without rounds, start pending with their owner as the one player, within the invariant of all runs |
| Formation.SoloStartWedgesEveryRoom | backend/internal/games/repository.go:92-129 | every hosted room started this way is left active without a round, and over every later run it gets no round and no guess, is never completed and its room start is refused |
| Formation.FormedWorldIsCoupled | backend/internal/matchmaking/repository.go:196-358 | a newly formed game and match satisfy the invariant |
| Formation.FormedMatchesStayCoupled | backend/internal/matchmaking/repository.go:196-358 | from formation on, over every run, match and game end together with the result of the sums over the rounds, at most as many closes as rounds, and one terminal hook iff completed |
| Formation.FormsIff | backend/internal/matchmaking/repository.go:196-248 | a new formation succeeds iff the format exists, both rosters have its size and name distinct eligible users, every round has a location of its own, and a ranked match has a season |
| Formation.FormedTeamsStayAsListed | backend/internal/matchmaking/repository.go:263-286 | from formation on, over every run, there is one player per listed user, the first list in slot 1, the second in slot 2, nobody else, and both slots have the size of the format |
| Formation.FormedScoresAreTheTeams | backend/internal/games/multiplayer.go:99-168 | from formation on, over every run, a completed match carries for each team exactly the points its listed users' guesses scored, and the team with more of them as the winner |
| Formation.FormedGameIsAsAsked | backend/internal/matchmaking/repository.go:226-330 | the new game, rounds and match carry the mode, count, start, deadline and participants asked for |
| Formation.TeamGameIsWellFormed | backend/internal/games/repository.go:784-901 | a team game starts in the round shape with a balanced ledger and its teams as listed; a ranked first round ends its timer after it starts, a minute for a missing or non-positive one; a casual one has no deadline |
| Formation.CreateTeamFormationBundle | backend/internal/matchmaking/repository.go:196-358 | the loops over teams, rounds and participants build the rows that `FormedTeamsStayAsListed` and `FormedGameIsAsAsked` describe, and a taken formation key returns the stored match |
| GameRepository.Repository.SubmitGuessTx | backend/internal/games/repository.go:397-481 | the statements of a solo guess are the step, and an abort leaves every row |
| GameRepository.Repository.ExpireSoloRoundTx | backend/internal/games/repository.go:485-538 | the statements of a solo timeout are the step |
| GameRepository.Repository.InsertMissingMultiplayerGuesses | backend/internal/games/repository.go:1145-1179 | the two loops insert exactly the missing zeros in player order |
| GameRepository.Repository.CompleteMultiplayerRound | backend/internal/games/repository.go:1181-1242 | zero-fill, close, advance or complete, and the terminal payload are the step |
| GameRepository.Repository.SubmitMultiplayerGuessTx | backend/internal/games/repository.go:550-622 | a multiplayer guess with its hooks is the command on game and match together, whose effect `MultiplayerGuessIsRecordedIff` and `GuessClosesIff` state in columns |
| GameRepository.Repository.CloseExpiredMultiplayerRoundTx | backend/internal/games/repository.go:711-751 | closing an expired round with its hooks is the command on game and match together |
| GameRepository.Repository.CancelMultiplayerGameTx | backend/internal/games/repository.go:665-709 | the writes and both hook calls of a cancellation are the command on game and match together; a refusing hook leaves every row as it was |
| GameRepository.Repository.StartPrivateRoomGameTx | backend/internal/games/repository.go:132-196 | the writes and hook calls of a room start are the command on game and match together; a missing first round, found last, leaves every row as it was |
| GameRepository.Repository.ApplyTerminalResultHook | backend/internal/matchmaking/lifecycle.go:279-338 | the match row updates of the terminal hook |
| GameRepository.Repository.ApplyGameCompletedHook | backend/internal/matchmaking/lifecycle.go:166-235 | the match row updates of the completion hook, loading the team outcome when it is missing |
| Rating.ApplyRating | backend/internal/competitive/rating.go:60-70 | the new rating is the sum or, when that is negative, zero; the total is the realized change |
| Rating.TeamAverage | backend/internal/competitive/rating.go:74-88 | the loop's average is a nearest integer to the mean, zero for no ratings |
| Rating.BaseDeltasCancelIff | backend/internal/competitive/rating.go:44-56 | with complementary expectations the two base deltas cancel iff not both teams lose |
| PlayedResults.PlayedMatchIsRatedByScores | backend/internal/games/multiplayer.go:143-168 | over every run the stored result and winner of a completed match rate the team with the larger sum of round scores as the winner, the other as the loser and equal sums as a tie, so its base deltas cancel |
| Rating.SoftResetContracts | backend/internal/competitive/rating.go:233-251 | a soft reset moves a rating toward the anchor and never past it |
| Rating.SoftResetKeepsTheShare | backend/internal/competitive/rating.go:233-251 | a soft reset keeps the given share of the distance to the anchor, to the nearest point |
| RatingConservation.FinalizationConservesRating | backend/internal/competitive/repository.go:301-400 | between equal teams the total rating moves only by abandon penalties and the zero floor, iff the match was won or drawn by a team |
| LadderRuns.FinalizeCases | backend/internal/competitive/repository.go:193-470 | a finalization applies, replays the stored changes, or fails; only applying writes |
| FinalizedRatings.FinalizationAppliesIff | backend/internal/competitive/repository.go:193-300 | a finalization applies iff its match is a completed ranked one of the running season, not yet rated, decides something and has players on both teams, and abandons are charged the one legal penalty |
| FinalizedRatings.AppliedChangesAreRated | backend/internal/competitive/repository.go:301-427 | each recorded change starts at its player's own rating, averages the old ratings recorded for its own team and for the other to the nearest integer, takes the Elo change nearest to K times its outcome's points less e(own average, opponent average), less 15 for an abandon, stops at zero, and is where the standing ends |
| LadderRuns.NewLadderIsWellFormed | backend/migrations/00019_casual_ranked_team_modes.sql:223-240 | a ladder with one active season and nothing else satisfies the invariant of all runs |
| LadderRuns.RunKeepsInv | backend/internal/competitive/repository.go:193-470 | every run of finalizations, rollovers, standing inserts and match reports keeps the ledger, ownership, settlement and season invariants |
| LadderRuns.MatchIsSettledOrUntouched | backend/internal/competitive/repository.go:323-453 | in every reachable state a match has no change and no marker, or the marker and exactly one change per participant with the match's outcome for their team |
| LadderRuns.FinalizedMatchReplays | backend/internal/competitive/repository.go:228-250 | a call on a finalized match returns the stored changes and leaves every table; a call on an unfinalized one never meets a conflicting change |
| LadderRuns.AppliedExactlyOnce | backend/internal/competitive/repository.go:193-470 | over any sequence of calls at most one is applied, one iff the run sets the marker |
| LadderRuns.FinalizedIsForever | backend/internal/competitive/repository.go:432-453 | a finalized match and its changes never change again |
| LadderRuns.HistoryTelescopes | backend/internal/competitive/repository.go:334-427 | in every reachable state a standing's rating is its first old rating plus the sum of its changes, its peak the highest rating held, and its counters those of its history |
| LadderRuns.TelescopingFacts | backend/internal/competitive/repository.go:334-427 | spelled out: each old rating is the previous new one, wins, losses and ties add up to the matches played, abandons are at most that |
| StartingRatings.RatingIsOpeningPlusChanges | backend/internal/competitive/repository.go:267-427 | over every run a rating is the rating its standing was inserted with plus its recorded changes, the first of which starts there |
| LadderRuns.SeasonsStaySafe | backend/internal/competitive/season.go:57-147 | over any interleaving exactly the last season is active, sequences are consecutive, and a season opens when its predecessor closes, never before that one's end |
| LadderRuns.SecondRolloverSkips | backend/internal/competitive/season.go:57-147 | a second rollover at the same instant, or any before the new season ends, skips |
| LadderRuns.RolloverNeverCollides | backend/internal/competitive/season.go:107-139 | a rollover applies exactly when the active season has ended; its sequence is never taken |
| LadderRuns.ClosedStandingsAreFrozen | backend/internal/competitive/repository.go:252-261 | the standings of a closed season keep rating, counters and final position forever |
| Seasons.PositionsAreTheRanking | backend/internal/competitive/season.go:180-242 | final positions are 1..k, one per qualifying user, in ladder order |
| SeasonPages.PositionCountsOutrankers | backend/internal/competitive/season.go:180-242 | freezing gives a position to exactly the active users with five placements, enough matches and a rating of 2000: one more than the number of them with a higher rating, or at equal rating more wins, then an earlier reachedAt, then a lower id |
| SeasonPages.SmallerPositionOutranks | backend/internal/competitive/repository_reads.go:134-168 | of two qualifying users the smaller position, live and frozen, belongs to the higher rating, then more wins, then the earlier reachedAt, then the lower id |
| Seasons.SeekIsLadderOrder | backend/internal/competitive/repository_reads.go:219-234 | the cursor's four-branch seek condition is the ladder order |
| Seasons.RolloverOpensAsConfigured | backend/internal/competitive/season.go:57-147 | a due rollover closes the running season now and opens the next sequence from now on with the configured length, rating, K, reset share and threshold or their defaults; no change, match or other season moves |
| Seasons.RungCoversAHundred | backend/internal/competitive/ranks.go:24-47 | a standard rank covers a hundred rating points, the last everything from 2000 on |
| Seasons.FrozenPositionIsLivePosition | backend/internal/competitive/repository_reads.go:134-168 | freezing assigns the position the live query reports, for the first 501 |
| Seasons.WorldLegendIffTop500 | backend/internal/competitive/ranks.go:139-163 | the ending and peak codes are World Legend iff the position is at most 500, and otherwise those of the rating and the peak rating |
| SeasonPages.LivePageResumes | backend/internal/competitive/service_reads.go:194-337 | resuming a live page after any row returns the rows behind it with their positions in the whole list |
| SeasonPages.ClosedPageResumes | backend/internal/competitive/repository_reads.go:249-302 | closed pages, ordered by final position but cut by the ladder cursor, return exactly the rows behind the cursor's row |
| SeasonPages.ClosedListIsTop500 | backend/internal/competitive/repository_reads.go:249-302 | the closed list is the season's standings with a final position up to 500, in position order |
| SeasonPages.ClosedSeasonsPageExactly | backend/internal/competitive/repository_reads.go:249-302 | in every reachable state the pages of every closed season tile its frozen list |
| SeasonWalks.LiveWalkIsExact | backend/internal/competitive/service_reads.go:244-291 | for any page size, following live cursors reads the first 501 qualifying rows once with positions 1..n iff every page-ending row has a cursor the decoder accepts |
| SeasonWalks.LiveWalkReadsTheLadder | backend/internal/competitive/cursor.go:64-108 | after every run that condition holds: every live walk reads the whole ladder up to its bound |
| SeasonWalks.ClosedWalkReadsTheLadder | backend/internal/competitive/service_reads.go:441-480 | after every run the walk of any closed season reads its whole frozen list in position order |
| StartingRatings.PreviousClosedIsLatest | backend/internal/competitive/repository_reads.go:105-130 | the previous standing is the one of the latest other closed season the user has a standing in |
| StartingRatings.SoftResetStartsBetween | backend/internal/competitive/repository_reads.go:365-405 | a new standing keeps the season's share of the distance between its anchor and the user's last closed rating, to the nearest point, or starts at the anchor without one; an existing one is left alone |
| CompetitiveRepository.UniqueSortedUserIDs | backend/internal/competitive/repository.go:683-703 | the ids without repeats or the zero id, ascending |
| CompetitiveRepository.CounterIsPosition | backend/internal/competitive/season.go:209-219 | the running counter equals one more than the number of qualifying users ahead |
| CompetitiveRepository.Repository.FinalizeMatchProgression | backend/internal/competitive/repository.go:193-470 | the loops that ensure standings, split teams and apply participants are the finalization step, whose changes `AppliedChangesAreRated` describes |
| CompetitiveRepository.Repository.FreezeSeasonStandings | backend/internal/competitive/season.go:180-242 | the loop with its counter freezes every standing as `PositionCountsOutrankers` states |
| CompetitiveRepository.Repository.RollOverIfDue | backend/internal/competitive/season.go:57-147 | the statements of a rollover are the rollover step |
| Ranking.SeekCutsTheList | backend/internal/leaderboards/repository.go:221-229 | for any strict total order, seeking past any cursor leaves a suffix of the list that starts at the through-count |
| Ranking.PlaceIsCount | backend/internal/leaderboards/repository.go:124-131 | a row's place is the number of rows before it |
| Leaderboards.SeekIsOrderBy | backend/internal/leaderboards/repository.go:488-503 | the five-column seek predicate is the ORDER BY, and no two rows share a tuple |
| Leaderboards.BoardListsByColumns | backend/internal/leaderboards/repository.go:124-131 | a board lists every row once by higher score, shorter duration with missing ones last, earlier completion, lower id; a row's place is the number of rows that beat it so |
| Leaderboards.PageShowsRanks | backend/internal/leaderboards/repository.go:93-203 | a page lists the rows its cursor's row beats on those columns, as many as fit, each with one more than the number of rows on the board that beat it |
| Leaderboards.FriendsListIsGeneralList | backend/internal/leaderboards/repository.go:93-203 | counting through the cursor and ranking before filtering give the same rows and ranks for every cursor |
| Leaderboards.FollowingCursorsIsExact | backend/internal/leaderboards/service.go:269-295 | for any limit, following cursors reads the whole sorted list once with ranks 1..n iff every page-ending row has a decodable cursor |
| Leaderboards.LegalBoardIsReadWhole | backend/internal/leaderboards/cursor.go:36-78 | a board whose scores and durations are not negative and whose rows have a completion time and an id is read whole at every page size |
| Leaderboards.UndecodableRowStopsAWalk | backend/internal/leaderboards/cursor.go:36-78 | any row but the last whose cursor the decoder refuses stops the walk at some page size |
| Leaderboards.NegativeDurationStopsAWalk | backend/internal/leaderboards/cursor.go:36-78 | on every board whose single best score carries a negative duration the walk one row at a time stops |
| BestEntries.BetterIsBefore | backend/migrations/00013_leaderboard_read_models.sql:35-71 | leaderboard_entry_is_better is the strict order of the best-entry query |
| BestEntries.UpsertIsExactIff | backend/internal/leaderboards/repository.go:386-424 | an upsert lands on the recomputed row iff the stored entry is not strictly better than every game that counts |
| BestEntries.MaterializeRow | backend/internal/leaderboards/repository.go:231-285 | every touched row becomes the best of that user's games in scope with their number; the others keep theirs |
| BestEntries.MaterializingStoresTheBest | backend/internal/leaderboards/repository.go:231-285 | in every reachable state a materialization stores, on the global board and its map's, for each player whose account is active, one of their games there that none of their games beats on the columns, and their number; it touches no other row |
| BestEntries.BoardsRefineRecomputation | backend/internal/leaderboards/repository.go:231-285 | over any interleaving of completions and materializations, in any order and with repeats, a row whose games were each visited equals recomputation |
| BestEntries.LeaderboardRepository.MaterializeCompletedGame | backend/internal/leaderboards/repository.go:231-285 | the loop over candidates performs exactly those upserts and reports the boards it touched |
| DailyRanks.LessIsOrderBy | backend/internal/challenges/repository.go:762-779 | the in-memory comparison is the ORDER BY |
| DailyRanks.RecomputeRanks | backend/internal/challenges/repository.go:744-760 | the loop stores every row's place in the sorted list and touches no other row |
| DailyRanks.StoredRankCountsBetter | backend/internal/challenges/repository.go:744-760 | a stored rank is one more than the number of better rows |
| DailyRanks.StoredRankIsByColumns | backend/internal/challenges/repository.go:744-779 | a stored rank is one more than the number of rows with a better score, duration, completion or id; of two rows the higher score ranks above |
| DailyRanks.DailyPageShowsItsRanks | backend/internal/leaderboards/repository.go:205-219 | a daily page after any cursor shows the ranks a ranking query would compute |
| PageCache.BumpIsVisibleIff | backend/internal/leaderboards/cache.go:70-95 | a bump is visible iff the counter counts from its default or the key already holds a positive number |
| PageCache.VersionedReadsAreCoherent | backend/internal/competitive/service_reads.go:234-292 | with visible bumps, no read returns a page older than a commit bumped before it began, under any interleaving in which no reader takes a wrong generation, whether readers fall back to generation 1 or skip the cache |
| PageCache.VersionedReadsAreCoherentIff | backend/internal/competitive/cache.go:122-148 | for either fallback, reads are coherent over all interleavings without a misread generation iff the counter counts from its default or the key already holds a positive number |
| PageCache.IncreasingCounterIsCoherent | backend/internal/leaderboards/service.go:242-307 | with visible bumps, readers that skip an unreadable cache are coherent under any interleaving |
| PageCache.AlwaysCoherentIff | backend/internal/leaderboards/service.go:242-307 | reads are coherent over all interleavings iff readers skip an unreadable cache and every bump is visible |
| PageCache.RedisCounterIsCoherentIff | backend/internal/leaderboards/cache.go:70-95 | the Redis counter is coherent over all interleavings iff its key already holds a positive number |
| PageCache.HiddenBumpIsIncoherent | backend/internal/leaderboards/cache.go:70-95 | a counter whose first bump is not visible serves a stale page although every call succeeds, for either fallback |
| PageCache.AssumingGenerationOneIsIncoherent | backend/internal/competitive/service_reads.go:234-243 | with any counter, at any generation, falling back to generation 1 on failed version reads serves a stale page in some run |
| PageCache.ReadsAreOfThePast | backend/internal/leaderboards/service.go:242-307 | over every interleaving, coherent or not, a read returns the state after a commit that has happened |
| PageCache.ReadsHitOrFill | backend/internal/leaderboards/service.go:242-307 | a reader whose cache calls succeed is served the page of the current generation without a load, or loads the current state and leaves it there |
| PageCache.MemoryPageCache.InvalidateSeason | backend/internal/competitive/cache.go:261-271 | invalidating moves the season's generation up by one and no other season's |
| PageCache.MemoryPageCache.ReadThrough | backend/internal/competitive/service_reads.go:234-292 | a cache-aside read returns an unexpired page of the current generation, or what was loaded, which it stores |
| Rewards.RunKeepsProgress | backend/internal/challenges/repository.go:554-593 | in every reachable state a progress row is a function of the accepted events: the capped sum, or for a negative target the target once per event; repeated deliveries count once |
| Rewards.ProgressIsCappedSumIff | backend/internal/challenges/repository.go:554-593 | in every reachable state progress is min(target, sum of the distinct accepted deltas) iff the target is not negative or one event was accepted, and completed iff it reached the target |
| Rewards.ProgressIsCappedSum | backend/internal/challenges/missions.go:18-24 | for the missions the service creates, which all have positive targets, progress is the capped sum in every reachable state |
| Rewards.EventIsAcceptedIff | backend/internal/challenges/repository.go:554-568 | an event counts iff its delta is positive and no earlier one has its mission, owner, source and kind |
| Rewards.PointsAreGrants | backend/internal/challenges/repository.go:237-264 | in every reachable state a user's points are the awards of their attempts plus the rewards of their claimed missions, and the level is 1 + points / 1000 |
| Rewards.PaidStaysPaid | backend/internal/challenges/repository.go:654-698 | an awarded attempt keeps its award and a claimed mission stays claimed over every run |
| Rewards.GrantsAreOnce | backend/internal/challenges/repository.go:237-264 | repeating a granted award or claim changes nothing |
| Rewards.ClaimPaysIff | backend/internal/challenges/repository.go:654-698 | in every reachable state a mission is claimed iff it is running, reached its target, was not claimed before and its reward has a profile; the claim pays exactly the reward and moves nothing else |
| Rewards.FinishingPaysIff | backend/internal/challenges/repository.go:237-264 | finishing pays an unpaid attempt's account 100 points and one for every full hundred scored, and nothing else |
| Rewards.ChallengeRepository.ApplyMissionEvents | backend/internal/challenges/service.go:1006-1024 | the loop over active missions delivers exactly one event to each |
| Rewards.ChallengeRepository.ClaimMission | backend/internal/challenges/repository.go:654-698 | marking the claim and then crediting the reward is the step; a missing profile, found last, leaves every row as it was |
| DailyAttempts.InsertKeepsInv | backend/internal/challenges/repository.go:304-380 | whatever was read, an insert that is admitted creates exactly the next attempt after a finished one |
| DailyAttempts.UndisturbedAttemptOpensIff | backend/internal/challenges/repository.go:304-380 | undisturbed, the next attempt opens iff there is none, or the challenge is daily, the last one finished and fewer than five were made; otherwise the last one is returned |
| DailyAttempts.AttemptsAreConsecutive | backend/internal/challenges/repository.go:304-380 | under every interleaving of reads, inserts and completions attempts are numbered 1..k without gaps, at most the last is unfinished, and k is at most five on a daily challenge, one on a shared one |
| Streaks.FoldCountsRuns | backend/internal/challenges/streaks.go:15-48 | over non-decreasing dates the current count is the run ending at the last date, the best count the longest run; repeats change neither |
| Streaks.PersistedIsFoldIff | backend/internal/challenges/service.go:929-958 | the stored row equals the fold iff no gap follows a run of one day |
| Streaks.LostIsForever | backend/internal/challenges/service.go:947-949 | after such a gap the stored row never changes again |
| Friends.RunKeepsInv | backend/internal/friends/model.go:48-80 | every reachable edge is stored sorted, requested and blocked by one of its pair, and valid for its status |
| Friends.BlockPersists | backend/internal/friends/repository.go:340-436 | a held block stays and invites stay refused both ways over every run in which its owner does not unblock |
| Friends.BlockTakesHoldIff | backend/internal/friends/repository.go:340-418 | a block between active users takes hold iff the other side holds none |
| Friends.SecondBlockIsLost | backend/internal/friends/repository.go:390-396 | a block made while blocked is gone once the first blocker lets go |
| Friends.BlockLooksLikeAbsence | backend/internal/friends/repository.go:128-139 | to the blocked side, a request to the blocker answers exactly like one to a missing user |
| Friends.OnlyTheOtherSideAccepts | backend/internal/friends/repository.go:178-265 | only the active side that did not ask turns a pending edge into a friendship |
| Friends.FriendshipsHaveConsent | backend/internal/friends/repository.go:178-265 | along every run each friendship was accepted by the side that did not ask |
| Friends.EdgesWereAskedFor | backend/internal/friends/repository.go:100-174 | along every run each pending request and each friendship was asked for by the side it names, of the other side |
| Friends.RequestIsStoredIff | backend/internal/friends/repository.go:100-174 | a request is stored, pending in the requester's name, iff two active users have no edge and the target has a profile |
| Friends.RequestIsAnsweredIff | backend/internal/friends/repository.go:178-320 | a pending request is accepted or removed iff the active side that was asked answers it, and to accept the asker has a profile |
| Friends.BlockIsStoredIff | backend/internal/friends/repository.go:340-418 | a block between two active users without one is stored in the blocker's name over whatever edge they had; nothing else changes an edge |
| Friends.OnlyFriendshipsAndOwnBlocksEnd | backend/internal/friends/repository.go:324-436 | removing ends exactly a friendship, unblocking exactly one's own block |
| Friends.AskingAndAcceptingBefriends | backend/internal/friends/repository.go:100-265 | asking and accepting makes two active users friends who may invite each other |
| LockOrder.PlansClimb | backend/internal/friends/repository.go:44-59 | every command locks both user rows in order, unless it only deletes, and then the pair row if there is one |
| LockOrder.WaitForGraphIsAcyclic | backend/internal/friends/repository.go:44-59 | with any number of transactions that lock in ascending order no chain of lock waits closes into a cycle |
| LockOrder.SomeoneCanMove | backend/internal/friends/repository.go:44-59 | following waits always reaches a transaction that can take its next lock or release |
| LockOrder.FriendsCommandsNeverDeadlock | backend/internal/friends/repository.go:44-59 | however friends commands interleave, no wait cycle forms and while any is running one can take its next lock or release |
| LockOrder.UnsortedLocksDeadlock | backend/internal/friends/repository.go:43-48 | the order is needed: two transactions that lock any two rows in opposite orders reach a mutual wait |
| FriendsRepository.Repository.LockUsersInOrder | backend/internal/friends/repository.go:44-59 | the loop locks the smaller id first and reports a missing user |
| FriendsRepository.Repository.Create | backend/internal/friends/repository.go:100-174 | the insert and the profile load after it are the step, with rows locked in order; a missing profile leaves every edge as it was |
| FriendsRepository.Repository.AcceptOrDecline | backend/internal/friends/repository.go:178-320 | previewing, locking in order and checking again are the step; an accept whose other side has no profile leaves every edge as it was |
| Sessions.LiveSessionsAreIndexed | backend/internal/auth/session_store.go:43-62 | in every reachable state a live session is in its user's index, which expires no earlier |
| Sessions.TokenIsAcceptedOnce | backend/internal/auth/service.go:282-336 | over any run with fresh tokens a refresh token is accepted at most once |
| Sessions.LiveTokenIsAnswered | backend/internal/auth/service.go:282-336 | a live session's token rotates into a live session of the same user iff now is at most its stored expiry and its user exists, and is expired after that; the old token is dead and no other session is touched |
| Sessions.UndisturbedTokenIsAccepted | backend/internal/auth/service.go:282-336 | over every run a token issued at some time and neither presented, logged out, reset nor caught in a reuse since rotates up to one time to live later in whole seconds, is expired in the rest of that second, and is invalid once its key is gone |
| Sessions.LogoutEndsOneSession | backend/internal/auth/service.go:275-279 | logging out ends that session only and leaves its token merely invalid |
| Sessions.ReuseAndResetEndEverySession | backend/internal/auth/service.go:268-292 | after reuse detection or a password reset the user has no live session until a new login, whatever runs between |
| Sessions.RotatedTokenIsRemembered | backend/internal/auth/service.go:320-342 | a rotated token is detected as reused for one time to live, hence at least until its own expiry |
| Sessions.RedisSessionStore.RevokeEverySession | backend/internal/auth/session_store.go:120-137 | the loop deletes exactly the indexed sessions, then the index |
| Sessions.RedisSessionStore.RefreshToken | backend/internal/auth/service.go:282-336 | the store mutations of a refresh are the step that `LiveTokenIsAnswered` and the run results describe |

## Left out

- HTTP handlers, DTOs, metrics, logging, email, OAuth, storage and the web client: plumbing without rules to prove.
- GORM, PostgreSQL and Redis internals: tables are sequences, sets or maps, and isolation is taken as one transaction at a time.
- Haversine distance and the exponential accuracy curve: the raw accuracy is any integer, clamped as the code clamps it.
- Floating-point error in Elo: expected scores are reals, and rounding is half away from zero on exact values.
- Columns that nothing here depends on: locations, reveal and update times, display names, chat access, activity times.
- Database range checks on games (1 to 10 rounds, timers of 10 to 600 seconds): the model allows any positive count and any timer.
- Matchplay forfeits, Redis queues, rooms and parties, and the ranked-party tier spread: not part of this model.
- The coupling of match and game is claimed for matches moved only by the in-transaction hooks; a party lobby read through `GetCurrentRound` runs the match hooks too but has no match row.
- Early close: a round closes once as many guesses are in as players are active, even if statuses changed since; what is proved is the state after zero-fill.
- The sweep that looks for expired rounds does not list mode `ranked`; that a round is eventually closed is not claimed.
- Liveness of finalization: a match left over from a closed season fails with a season mismatch on every retry.
- The optional in-transaction rating finalizer is a parameter that finalizes or defers; the server leaves it out and a worker retries.
- Scheduled seasons: nothing in the repository creates one; runs start from one active season.
- `loadReplayOutcome` runs after the rollback of a conflicting call; the model reads the match in the same step.
- Account status changes of leaderboard users are steps, but a player who leaves a game after it was materialized is covered only by `UpsertIsExactIff`.
- Base64, UUID and RFC 3339 text: a cursor is its decoded tuple, and refused tuples are those the decoder rejects.
- History pages of rating changes: the same keyset argument on two columns.
- Eviction of the cache's generation key: a lost key falls back to the default generation.
- Mission catalogues and daily windows: calendar tables; `ClaimMissionProgress` has no caller.
- Redis idempotency claims: a request that saw no record before another finished can still claim afterwards.
- Interleaving inside one refresh request: each request is one step.
