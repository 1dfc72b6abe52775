# Nash equilibrium finder: a verified model

This project models, in Dafny, the core of NashEquilibriumFinder. That is a Python engine for
two-player games in normal (strategic) form. Its pieces are:

- **`StrategicGame`** keeps a grid of integer payoff pairs `(u1, u2)`. Player 1 picks the row and
  player 2 the column. Beside it sits an annotated copy of the grid, in which a best-response cell
  has that player's number replaced by the tag `'H'`. The game finds each player's best responses
  and the pure Nash equilibria. It computes one-sided and two-sided expected payoffs, the closed-form
  mixed equilibrium of a 2×2 game, dominance and regret. It also offers validators and four factory
  functions for well-known games.
- **`NormalForm`** is the older version of the same engine. Its best-response search always
  changes state, and it signals the mixed solution with `None`, `[]` or a list.
- **`GameManager`** is a registry that stores games under the ids `"1"`, `"2"`, … and analyses or
  exports them.
- **`GameFileParser`** reads a line-oriented game file. It handles top-level keys, a params section
  and a payoffs section of `(p1, p2)` pairs, and hands the game on to a `GameManager`.
- **`get_coordinates_string`** renders equilibrium coordinates, 1-based, as text.

Modules, one per file:

- `Base` (base.dfy): `Option`, `Result` and the Python exception kinds, as data.
- `Text` (text.dfy): the Python string operations the source relies on, on ASCII text: `strip`,
  `split`, `lower`, `replace`, `int()` and `str()` of integers.
- `Grid` (grid.dfy): payoffs, `(column, row)` coordinates, annotated cells `Plain(p) | Tagged`, and
  grid shapes.
- `BestResponse` (best_response.dfy): the running-maximum scan, including its stale ties. It also
  holds the per-player search with its exact failure point, the `'H'` marking, append-if-new, and
  the equilibria as an intersection.
- `ExpectedPayoff` (expected_payoff.dfy): the one-sided and two-sided sums, and regret.
- `Mixed` (mixed.dfy): the 2×2 indifference solver.
- `StrategicSpec` (strategic_spec.dfy): the specification functions of `StrategicGame`, and lemmas
  about the named games, dominance, the validators and `to_dict`.
- `Strategic` (strategic_game.dfy): the class `StrategicGame` and its fill loops.
- `Legacy` (normal_form.dfy): the class `NormalForm`.
- `Manager` (game_manager.dfy): the class `GameManager`, which works over `StrategicGame`.
  `create_game` passes `StrategicGame`'s keyword arguments (normal_form/game_manager.py:41-48), so
  the registry holds games of that class.
- `FileParser` (game_file_parser.dfy): the payoff-row scanner, the line-by-line definition reader,
  the parameter values and the class `GameFileParser`.
- `Utils` (utils.dfy): `get_coordinates_string`.

Payoffs are `int`. Beliefs and probabilities are `real`, so 2×2 answers such as `[0.6, 0.4]` are
exact. Every Python exception becomes an `Err` of a `Result`, carrying the exception's kind and
its message; the few messages whose tail the model does not reproduce are listed under "Left out". A coordinate is `Coord(col, row)`, as in the source's `(column, row)` tuples.

## Model

| member | source | states |
|---|---|---|
| Grid.Annotate | nash_equilibrium/strategic_game.py:150 | the annotated grid has the shape of the payoff grid, and every cell is the untagged payoff |
| Grid.AnnotateUnique | nash_equilibrium/strategic_game.py:150 | any same-shaped grid of untagged copies is that annotated grid |
| Grid.Zeros | nash_equilibrium/strategic_game.py:159-160 | a rows×columns grid in which every cell is (0, 0) |
| Grid.SetAt | nash_equilibrium/strategic_game.py:380-381 | the written cell of the grid, or of the annotated grid, holds the new value; every other cell and every row length is unchanged |
| Grid.PlayerPayoffs | nash_equilibrium/strategic_game.py:179-182 | one player's number from every cell, in the grid's shape |
| BestResponse.PrefixMax | nash_equilibrium/strategic_game.py:459-461 | the running best after n values bounds them all and is one of them |
| BestResponse.ScanPrefixFacts | nash_equilibrium/strategic_game.py:455-467 | after n values: best is their maximum; the recorded cell is its first occurrence; the kept ties are exactly the values that equalled the running best when read (or, with ties restarted, the later copies of the final best) |
| BestResponse.ScanLine | nash_equilibrium/strategic_game.py:451-470 | the loop over one column (or row) returns exactly the index list of the scan, stale ties included |
| BestResponse.BestIndicesMembers | nash_equilibrium/strategic_game.py:459-470 | an index is reported iff it is the first maximum, or it tied the running best at the moment it was read |
| BestResponse.BestIndicesRunningMax | nash_equilibrium/strategic_game.py:459-467 | a reported index is at least every earlier value of its line (a later, larger value does not remove it) |
| BestResponse.BestIndicesComplete | nash_equilibrium/strategic_game.py:459-470 | every index that attains the line's maximum is reported, under either tie policy |
| BestResponse.BestIndicesShape | nash_equilibrium/strategic_game.py:464-470 | the reported indices are in range and distinct |
| BestResponse.BestIndicesRestartExact | nash_equilibrium/strategic_game.py:459-467 | corrected scan (ties cleared when the best improves): reported iff the index attains the maximum |
| BestResponse.StaleTieExample | nash_equilibrium/strategic_game.py:459-467 | on the column [1, 1, 2] the code reports rows 1 and 2, while the maximum is only at row 2 |
| BestResponse.BestIndicesPair | nash_equilibrium/strategic_game.py:459-470 | on a two-value line the larger index is reported; on a tie both are, in the order [1, 0] |
| BestResponse.Line | nash_equilibrium/strategic_game.py:454-456 | player 1's line k is column k's u1 down all rows; player 2's line k is row k's u2 over the first `columns` cells |
| BestResponse.Place | nash_equilibrium/strategic_game.py:457-458 | coordinates are (column, row): the line number is the column for player 1 and the row for player 2 |
| BestResponse.PlaceMembers | nash_equilibrium/strategic_game.py:457-458 | a coordinate is placed iff it lies on that line at a reported position |
| BestResponse.FailurePoint | nash_equilibrium/strategic_game.py:451-456 | the first line that cannot be read (an IndexError, or the TypeError of an empty line); every earlier line reads |
| BestResponse.FailurePointAt | nash_equilibrium/strategic_game.py:451-456 | the failure point is unique |
| BestResponse.FoundMembers | nash_equilibrium/strategic_game.py:451-482 | after n lines, a coordinate has been found iff its line is below n and its position is reported on that line |
| BestResponse.LineCoordsShape | nash_equilibrium/strategic_game.py:469-482 | one line's coordinates are distinct cells of the grid on that line |
| BestResponse.FoundShape | nash_equilibrium/strategic_game.py:478-482 | the found coordinates are distinct cells of the grid |
| BestResponse.BestResponsesOkWhen | nash_equilibrium/strategic_game.py:451-456 | the search succeeds iff every line can be read; a well-formed grid with rows (player 1) or columns (player 2) always succeeds |
| BestResponse.BestResponsesSpec | nash_equilibrium/strategic_game.py:431-519 | the result has no duplicates and holds only grid cells; a cell is in it iff it is its line's first maximum or a tie of the running maximum |
| BestResponse.BestResponsesCompleteP1 | nash_equilibrium/strategic_game.py:451-482 | every row that maximises u1 in column j is returned as (j, row) |
| BestResponse.BestResponsesCompleteP2 | nash_equilibrium/strategic_game.py:486-516 | every column that maximises u2 in row r is returned as (column, r) |
| BestResponse.BestResponsesRestartExact | nash_equilibrium/strategic_game.py:431-519 | corrected search: exactly the cells that attain their line's maximum |
| BestResponse.BestResponses2x2 | nash_equilibrium/strategic_game.py:431-519 | on a 2×2 grid the result is line 0's placed indices followed by line 1's |
| BestResponse.PureNashComplete | nash_equilibrium/strategic_game.py:600-611 | every true pure equilibrium is reported, with no duplicates |
| BestResponse.PureNashRestartExact | nash_equilibrium/strategic_game.py:600-611 | corrected: a cell is reported iff it is a pure Nash equilibrium |
| BestResponse.RestartColumnBest | nash_equilibrium/strategic_game.py:450-467 | corrected: a reported best response of player 1 lies in the grid and its u1 is at least every other u1 in its column |
| BestResponse.RestartRowBest | nash_equilibrium/strategic_game.py:484-501 | corrected: a reported best response of player 2 lies in the grid and its u2 is at least every other u2 in its row |
| BestResponse.StaleTieEquilibrium | nash_equilibrium/strategic_game.py:459-467 | in the 3×1 game with u1 column [1, 1, 2], the code reports (0, 1) as an equilibrium, though it is not one |
| BestResponse.Mark | nash_equilibrium/strategic_game.py:470-476 | tagging keeps the annotated grid's shape |
| BestResponse.MarkCells | nash_equilibrium/strategic_game.py:470-476 | a cell is tagged on that player's number iff it is in the list; every other cell is unchanged |
| BestResponse.MarkAll | nash_equilibrium/strategic_game.py:470-476 | the tagging loop produces exactly the marked grid |
| BestResponse.MarkIdempotent | normal_form/NormalForm.py:198-201 | tagging the same cells twice gives the grid tagged once |
| BestResponse.MarkConcat | nash_equilibrium/strategic_game.py:451-476 | tagging line after line equals tagging all their cells at once |
| BestResponse.AppendNewFacts | nash_equilibrium/strategic_game.py:478-482 | appending only new values keeps the old list as a prefix, holds exactly the union, and keeps a duplicate-free list duplicate-free |
| BestResponse.AppendNewInOrder | nash_equilibrium/strategic_game.py:478-482 | the append loop produces exactly the append-if-new list |
| BestResponse.AppendNewConcat | nash_equilibrium/strategic_game.py:478-482 | appending two batches in turn equals appending them together |
| BestResponse.AppendNewAbsorbed | normal_form/NormalForm.py:202-206 | appending values already present changes nothing |
| BestResponse.AppendNewDistinct | nash_equilibrium/strategic_game.py:478-480 | appending fresh distinct values is plain concatenation |
| BestResponse.CellsInAppendNew | nash_equilibrium/strategic_game.py:478-482 | appending grid cells to a list of grid cells gives grid cells |
| BestResponse.Intersect | nash_equilibrium/strategic_game.py:606 | holds exactly the elements of the first list that are in the second |
| BestResponse.IntersectNoDup | nash_equilibrium/strategic_game.py:606 | filtering a duplicate-free list keeps it duplicate-free |
| ExpectedPayoff.OneSidedOkWhen | nash_equilibrium/strategic_game.py:538-556 | on a well-formed grid with long enough beliefs it succeeds, with one value per own strategy |
| ExpectedPayoff.RowSumUnit | nash_equilibrium/strategic_game.py:540-542 | a row's sum against a unit belief is that cell's payoff |
| ExpectedPayoff.ColumnSumUnit | nash_equilibrium/strategic_game.py:547-553 | a column's sum against a unit belief is that cell's u2 |
| ExpectedPayoff.OneSidedUnit | nash_equilibrium/strategic_game.py:538-556 | against a pure opponent strategy, each expected payoff is the cell's payoff |
| ExpectedPayoff.JointByRows | nash_equilibrium/strategic_game.py:712-730 | the double sum equals Σ_i p[i]·(row i's expected payoff against q) |
| ExpectedPayoff.JointByColumns | nash_equilibrium/strategic_game.py:727-730 | player 2's double sum equals Σ_j q[j]·(column j's expected payoff against p) |
| ExpectedPayoff.BeliefProduct | nash_equilibrium/strategic_game.py:703-708 | the loops build beliefs[i][j] = p[i]·q[j] over the declared size |
| ExpectedPayoff.WeightedSum | nash_equilibrium/strategic_game.py:712-727 | the accumulation loops give Σ_ij p[i]·q[j]·u(i, j), or the IndexError of a row shorter than the column count |
| ExpectedPayoff.TwoSidedUnit | nash_equilibrium/strategic_game.py:690-731 | at two unit vectors, ep_bpm returns the cell's exact payoff pair |
| ExpectedPayoff.DotBound | nash_equilibrium/strategic_game.py:1050-1061 | a non-negative weighting of values at most `top` is at most (the weights' sum)·top |
| ExpectedPayoff.MaxReal | nash_equilibrium/strategic_game.py:1050 | `max` of the values bounds each of them and is one of them |
| ExpectedPayoff.RegretOkWhen | nash_equilibrium/strategic_game.py:1031-1063 | regret succeeds iff both vectors fit the grid, the grid is well formed and both players have strategies (max of an empty dict raises) |
| ExpectedPayoff.RegretNonNegative | nash_equilibrium/strategic_game.py:1042-1063 | for probability vectors, each player's regret is at least 0 |
| Mixed.SolvePExact | nash_equilibrium/strategic_game.py:809-826 | p is returned iff D = x−y+w−z ≠ 0, p lies in [0, 1] and p makes player 2 indifferent between the columns; degenerate iff D = 0 |
| Mixed.SolveQExact | nash_equilibrium/strategic_game.py:828-845 | q, computed as (w−z)/D, is returned iff D ≠ 0, q lies in [0, 1] and q makes player 1 indifferent between the rows; degenerate iff D = 0 |
| Mixed.IndifferenceSound | nash_equilibrium/strategic_game.py:774-856 | a solved answer comes only from a 2×2 game, and gives probability pairs [p, 1−p] and [q, 1−q] that make each opponent indifferent |
| Mixed.BattleOfSexesMix | nash_equilibrium/strategic_game.py:774-856 | Battle of the Sexes (3,2 / 2,3) solves to [0.6, 0.4] and [0.4, 0.6] |
| StrategicSpec.ModeOf | nash_equilibrium/strategic_game.py:134-136 | a mode is accepted iff it is "r", "m" or "d" |
| StrategicSpec.ModeRoundTrip | nash_equilibrium/strategic_game.py:134-138 | every mode's letter reads back as that mode |
| StrategicSpec.PayoffsZip | nash_equilibrium/strategic_game.py:167-184 | get_payoffs(1) and get_payoffs(2) zip back to the grid; any other player is an error |
| StrategicSpec.StrategyNames | nash_equilibrium/strategic_game.py:258-261 | n names, the i-th being the letter followed by i+1 |
| StrategicSpec.LabelReadsBack | nash_equilibrium/strategic_game.py:258-261 | a name is its letter followed by the digits of i+1 |
| StrategicSpec.StrategyNamesDistinct | nash_equilibrium/strategic_game.py:258-261 | the strategy names are distinct |
| StrategicSpec.PrisonersDilemma | nash_equilibrium/strategic_game.py:30-50 | accepted iff t > r > p > s and 2r > t+s; the game is 2×2 |
| StrategicSpec.Coordination | nash_equilibrium/strategic_game.py:52-70 | accepted iff a > 0 and b > 0; the game is 2×2 |
| StrategicSpec.BattleOfSexes | nash_equilibrium/strategic_game.py:72-90 | accepted iff a > b > 0; the game is 2×2 |
| StrategicSpec.ZeroSum | nash_equilibrium/strategic_game.py:92-114 | accepted iff there are four values; cell (r, c) pays values[2r+c] and its negation |
| StrategicSpec.CreateZeroSum | nash_equilibrium/strategic_game.py:92-114 | without values, the draws lie in [−5, 5] and player 2's payoff is the negation |
| StrategicSpec.Responses2x2 | nash_equilibrium/strategic_game.py:451-516 | on a 2×2 grid, each player's best responses are its two lines' placed maxima in order |
| StrategicSpec.PlaceSmall | nash_equilibrium/strategic_game.py:457-458 | small placements, written out as (column, row) pairs |
| StrategicSpec.PureNashOf | nash_equilibrium/strategic_game.py:600-611 | the equilibria are the intersection of the two best-response lists |
| StrategicSpec.PrisonersDilemmaEquilibrium | nash_equilibrium/strategic_game.py:30-50 | every valid Prisoner's Dilemma has exactly the equilibrium (1, 1) |
| StrategicSpec.DiagonalEquilibria | nash_equilibrium/strategic_game.py:588-611 | a 2×2 game with positive diagonal payoffs and (0, 0) elsewhere has exactly (0, 0) and (1, 1) |
| StrategicSpec.CoordinationEquilibria | nash_equilibrium/strategic_game.py:52-70 | the coordination game has exactly (0, 0) and (1, 1) |
| StrategicSpec.BattleOfSexesEquilibria | nash_equilibrium/strategic_game.py:72-90 | Battle of the Sexes has exactly (0, 0) and (1, 1) |
| StrategicSpec.BattleOfSexesMixed | nash_equilibrium/strategic_game.py:774-856 | its mixed solution is p = a/(a+b), q = b/(a+b) |
| StrategicSpec.BattleOfSexesPureFirst | nash_equilibrium/strategic_game.py:795-804 | with the pure check on, its answer is the pure-equilibria error |
| StrategicSpec.AllEqualEquilibria | nash_equilibrium/strategic_game.py:588-611 | a game whose four cells are equal reports all four cells |
| StrategicSpec.DoubleRowZeroSum | nash_equilibrium/strategic_game.py:712-730 | on a zero-sum row the two players' sums cancel |
| StrategicSpec.JointZeroSum | nash_equilibrium/strategic_game.py:712-730 | on a zero-sum grid the two expected payoffs cancel |
| StrategicSpec.ZeroSumExpected | nash_equilibrium/strategic_game.py:92-114 | the two expected payoffs of a zero-sum game add up to 0 |
| StrategicSpec.ParsePayoffRoundTrip | nash_equilibrium/strategic_game.py:415-421 | a reply "a,b" (with any further fields) reads back as the pair (a, b) |
| StrategicSpec.ParsePayoffNeedsComma | nash_equilibrium/strategic_game.py:415-425 | a reply without a comma is the ValueError "two comma-separated integers" |
| StrategicSpec.BeatsFromExact | nash_equilibrium/strategic_game.py:968-981 | the inner loop returns whether the strategy beats the other against every opponent strategy (>, or ≥ when weak) |
| StrategicSpec.DominantFromExact | nash_equilibrium/strategic_game.py:963-986 | the outer loop returns whether the strategy dominates every other strategy |
| StrategicSpec.IsDominantExact | nash_equilibrium/strategic_game.py:944-986 | is_dominant_strategy is true iff the strategy beats every other one at every opponent strategy (strict: >, weak: ≥ only) |
| StrategicSpec.IsDominatedByExact | nash_equilibrium/strategic_game.py:1012-1029 | _is_dominated_by(s1, s2) is true iff s2 beats s1 everywhere (strict: >, weak: ≥ only) |
| StrategicSpec.DominatorFromExact | nash_equilibrium/strategic_game.py:1004-1008 | the search for a dominator succeeds iff some other strategy dominates |
| StrategicSpec.DominatedFromExact | nash_equilibrium/strategic_game.py:1001-1010 | the collected indices ascend, and an index is listed iff it is not dominant and some other strategy dominates it |
| StrategicSpec.GetDominatedExact | nash_equilibrium/strategic_game.py:988-1010 | get_dominated_strategies lists, in ascending order and without repeats, exactly the non-dominant strategies that another strategy dominates |
| StrategicSpec.IncreasingOrdered | nash_equilibrium/strategic_game.py:1001-1010 | the dominated list is strictly ordered |
| StrategicSpec.AllEqualWeaklyDominant | nash_equilibrium/strategic_game.py:979 | with all payoffs equal, every strategy is weakly dominant, so none is listed as dominated |
| StrategicSpec.StrictDominantDominatesOthers | nash_equilibrium/strategic_game.py:988-1010 | when a strategy is strictly dominant, every other strategy is listed as dominated |
| StrategicSpec.SumBoundsEntries | nash_equilibrium/strategic_game.py:892-896 | non-negative entries are each at most their sum |
| StrategicSpec.DistributionsPass | nash_equilibrium/strategic_game.py:885-898 | every probability vector of the right length passes validate_strategy; whatever passes has that length, entries in [0, 1] and sum within 1e-6 of 1 |
| StrategicSpec.FirstBadRow | nash_equilibrium/strategic_game.py:915-917 | the first row of the wrong length; every earlier row has the right length |
| StrategicSpec.ValidateGameStructureExact | nash_equilibrium/strategic_game.py:900-926 | the structure passes iff rows > 0, columns > 0 and the grid is rows×columns |
| StrategicSpec.ToDictFacts | nash_equilibrium/strategic_game.py:732-773 | the dict carries the strategy names and the payoffs; stored equilibria are used as is, otherwise every true equilibrium is present; a mixed part appears iff the game is 2×2 |
| StrategicSpec.ToDictMixedSound | nash_equilibrium/strategic_game.py:756-770 | a mixed part with strategies holds probability pairs that make each opponent indifferent |
| Strategic.ManualReaderFails | nash_equilibrium/strategic_game.py:415-425 | every failing manual reply is reported as the one ValueError the source raises |
| Strategic.FirstBadFrom | nash_equilibrium/strategic_game.py:409-425 | the first cell at or after (i, j), in row-major order, whose reply fails |
| Strategic.FirstBadFromClean | nash_equilibrium/strategic_game.py:409-425 | every cell before the first failing one reads successfully |
| Strategic.FirstBadExact | nash_equilibrium/strategic_game.py:409-425 | there is no failing cell iff every cell's reply reads |
| Strategic.ProgressCell | nash_equilibrium/strategic_game.py:420-421 | writing one read cell into both grids advances the fill invariant by one cell |
| Strategic.ProgressRow | nash_equilibrium/strategic_game.py:409-429 | finishing a row moves the invariant to the next row |
| Strategic.ProgressStop | nash_equilibrium/strategic_game.py:422-423 | stopping at the first failing cell leaves exactly the earlier cells filled |
| Strategic.ProgressDone | nash_equilibrium/strategic_game.py:409-429 | with no failure, every cell is filled |
| Strategic.ShapeKept | nash_equilibrium/strategic_game.py:409-429 | filling keeps the grid's dimensions and the cells marked so far |
| Strategic.RandomFill | nash_equilibrium/strategic_game.py:411-414 | every drawn value lies in [lower, upper], the annotated grid mirrors the grid, and an empty range with a cell to fill is Python's ValueError |
| Strategic.ManualFill | nash_equilibrium/strategic_game.py:415-425 | cells before the first bad reply are filled, the rest keep their old values; the fill fails iff some reply is bad |
| Strategic.FoundCellsIn | nash_equilibrium/strategic_game.py:470-476 | the found coordinates are cells of the annotated grid |
| Strategic.SearchStep | nash_equilibrium/strategic_game.py:451-482 | one more line extends the found list, the tagging and the stored list by exactly that line's coordinates |
| Strategic.SearchStop | nash_equilibrium/strategic_game.py:451-482 | at the failure point (or the end) the committed coordinates are what was found, and the result is the line's error (or the list) |
| Strategic.CommitKeepsInvariant | nash_equilibrium/strategic_game.py:470-482 | committing found cells to the annotated grid and to p1_br/p2_br keeps the object's invariant |
| Strategic.SearchLines | nash_equilibrium/strategic_game.py:431-519 | the search returns the best responses; with update_state it tags and appends exactly the lines committed before any failure, and otherwise leaves state alone |
| Strategic.BeatsScan | nash_equilibrium/strategic_game.py:968-981 | the comparison loop computes the beats relation, including its early exit |
| Strategic.PrependNothing | nash_equilibrium/strategic_game.py:998-1010 | an empty prefix leaves the result unchanged |
| Strategic.PrependOne | nash_equilibrium/strategic_game.py:1007 | appending an index to the prefix equals putting it in front of the rest |
| Strategic.ExpectedPayoffs | nash_equilibrium/strategic_game.py:538-556 | the accumulation loops compute the one-sided expected payoffs, or the IndexError of a short belief vector or row |
| Strategic.StrategicGame.constructor | nash_equilibrium/strategic_game.py:117-165 | mode 'd' takes the matrix, with rows = its length and columns = the length of row 0 (or 0); 'r'/'m' take rows×columns of (0, 0); the annotated grid equals the grid and the lists start empty |
| Strategic.StrategicGame.SetPayoff | nash_equilibrium/strategic_game.py:363-381 | the IndexError messages for a row or column out of bounds; otherwise both grids get the pair at that cell and nothing else changes |
| Strategic.StrategicGame.AddPayoffs | nash_equilibrium/strategic_game.py:383-429 | 'd' does nothing; 'r' draws every value in [lower, upper] into both grids; 'm' fills cell by cell and stops at the first bad reply, leaving earlier cells filled |
| Strategic.StrategicGame.CalculateBestResponses | nash_equilibrium/strategic_game.py:431-519 | ValueError for a bad player; otherwise the best responses; with update_state the annotated grid and p1_br/p2_br gain the committed cells, and without it nothing changes |
| Strategic.StrategicGame.FindPureNashEqui | nash_equilibrium/strategic_game.py:588-611 | returns player 1's best responses that are also player 2's; with update_state both searches commit what they scanned and a success is stored (`PureSearchCommitted`), without it nothing changes |
| Strategic.StrategicGame.SetGrid | nash_equilibrium/strategic_game.py:408-424 | replaces both grids with consistent ones, keeping the invariant, and leaves every other field as it was |
| Strategic.StrategicGame.Store | nash_equilibrium/strategic_game.py:471-516 | stores the re-tagged annotated grid and the grown best-response list of the given player; the grid, the limits and the equilibria stay as they were |
| Strategic.StrategicGame.SetEquilibria | nash_equilibrium/strategic_game.py:609 | stores the equilibria and changes no other field |
| Strategic.StrategicGame.FindBr | nash_equilibrium/strategic_game.py:561-586 | mixing without beliefs is a ValueError; mixing gives expected payoffs and changes nothing; otherwise a state-updating best-response search |
| Strategic.StrategicGame.CalculateExpectedPayoffs | nash_equilibrium/strategic_game.py:520-559 | the one-sided expected payoffs against the beliefs |
| Strategic.StrategicGame.EpBpm | nash_equilibrium/strategic_game.py:690-731 | a ValueError when a vector's length is wrong; otherwise Σ_ij p[i]·q[j]·u(i, j) for both players |
| Strategic.StrategicGame.CalculateRegret | nash_equilibrium/strategic_game.py:1031-1063 | best one-sided payoff minus the current expected payoff, for each player |
| Strategic.StrategicGame.GetIndifferenceProbabilities | nash_equilibrium/strategic_game.py:774-856 | ValueError unless 2×2; the pure-equilibria error when the check is on and equilibria exist; otherwise the p/q solution or its error |
| Strategic.StrategicGame.ToDict | nash_equilibrium/strategic_game.py:732-773 | the game's dictionary, as the specification function describes |
| Strategic.StrategicGame.ValidateGameStructure | nash_equilibrium/strategic_game.py:900-926 | the structure check, with the source's first error |
| Strategic.StrategicGame.IsDominantStrategy | nash_equilibrium/strategic_game.py:944-986 | whether the strategy dominates all others (see IsDominantExact) |
| Strategic.StrategicGame.IsDominatedByStrategy | nash_equilibrium/strategic_game.py:1012-1029 | whether the second strategy dominates the first (see IsDominatedByExact) |
| Strategic.StrategicGame.HasDominator | nash_equilibrium/strategic_game.py:1004-1008 | whether some other strategy dominates this one |
| Strategic.StrategicGame.GetDominatedStrategies | nash_equilibrium/strategic_game.py:988-1010 | the dominated strategies (see GetDominatedExact) |
| Legacy.LegacyModeOf | normal_form/NormalForm.py:39-40 | only "r" and "m" are accepted |
| Legacy.LegacyPayoffAgrees | normal_form/NormalForm.py:147-152 | a manual reply reads as in StrategicGame, but a bad reply raises the raw ValueError or IndexError |
| Legacy.LegacyPayoffRoundTrip | normal_form/NormalForm.py:149-152 | "a,b" reads back as (a, b) |
| Legacy.LegacyPayoffOneValue | normal_form/NormalForm.py:149-150 | a reply with one number is an IndexError |
| Legacy.LegacyTwoSidedAgrees | normal_form/NormalForm.py:312-333 | on vectors of the right length, ep_bpm agrees with StrategicGame's |
| Legacy.LegacyTwoSidedPrefix | normal_form/NormalForm.py:312-333 | longer vectors are accepted, and only their first rows/columns entries count (there is no length check) |
| Legacy.LegacyIndifferenceAgrees | normal_form/NormalForm.py:349-397 | with no stored equilibria it solves exactly when StrategicGame's unchecked solver does, with the same probabilities |
| Legacy.Corner | normal_form/NormalForm.py:361-387 | the top-left 2×2 corner of the grid |
| Legacy.LegacyIndifferenceCorner | normal_form/NormalForm.py:349-397 | only the top-left 2×2 corner matters; a solution makes each opponent indifferent |
| Legacy.FreshSearchAgrees | normal_form/NormalForm.py:175-238 | on a fresh object, find_br returns StrategicGame's calculate_best_responses(player, False) |
| Legacy.FreshPureNash | normal_form/NormalForm.py:268-272 | on a fresh object, the equilibria equal StrategicGame's |
| Legacy.SearchAgainIdle | normal_form/NormalForm.py:198-207 | repeating a search on an unchanged grid leaves the tags and the stored lists as they were |
| Legacy.NormalForm.constructor | normal_form/NormalForm.py:26-55 | rows×columns of (0, 0), an identical annotated grid and empty lists |
| Legacy.NormalForm.AddPayoffs | normal_form/NormalForm.py:134-156 | random values lie in [lower, upper] and are mirrored into the annotated grid; manual filling stops at the first bad reply with its raw error |
| Legacy.NormalForm.SearchAndStore | normal_form/NormalForm.py:175-238 | tags the committed cells and appends them, then returns the whole accumulated list |
| Legacy.NormalForm.FindBr | normal_form/NormalForm.py:160-266 | ValueError for a bad player; mixing gives expected payoffs (a TypeError without beliefs); otherwise the accumulated list, which only grows |
| Legacy.NormalForm.FindPureNashEqui | normal_form/NormalForm.py:268-272 | searches for both players and always overwrites the stored equilibria with the intersection |
| Legacy.NormalForm.SetGrid | normal_form/NormalForm.py:134-156 | replaces both grids with consistent ones, keeping the invariant, and leaves every other field as it was |
| Legacy.NormalForm.Store | normal_form/NormalForm.py:197-237 | stores the re-tagged annotated grid and the grown best-response list of the given player; the grid, the limits and the equilibria stay as they were |
| Legacy.NormalForm.SetEquilibria | normal_form/NormalForm.py:271 | stores the equilibria and changes no other field |
| Legacy.NormalForm.EpBpm | normal_form/NormalForm.py:312-333 | the two-sided sums, with no length check |
| Legacy.NormalForm.GetIndifferenceProbabilities | normal_form/NormalForm.py:335-397 | None when equilibria are stored, [] on a zero denominator or a probability outside [0, 1], otherwise [[p, 1−p], [q, 1−q]] |
| Manager.IdsExact | normal_form/game_manager.py:50-52 | the ids handed out so far are exactly "1" … str(next−1) |
| Manager.IdsNext | normal_form/game_manager.py:50-52 | the next id is new, and storing it extends the id set by one |
| Manager.ConstructError | nash_equilibrium/strategic_game.py:134-154 | construction fails iff the mode is invalid or its required arguments are missing |
| Manager.Foreign | nash_equilibrium/strategic_game.py:30-92 | none iff every keyword argument given is a parameter of the type's factory; otherwise a given keyword the factory does not take |
| Manager.CommonMatrix | normal_form/game_manager.py:67-76 | an unknown type is "Unknown game type" before anything else; for a known type a keyword its factory does not take is the TypeError "create_…() got an unexpected keyword argument 'k'"; a game built is 2×2 |
| Manager.CommonUnexpected | normal_form/game_manager.py:67-74 | a keyword outside the chosen factory's parameters always gives a TypeError; with only accepted keywords no TypeError arises |
| Manager.CommonDefaults | normal_form/game_manager.py:67-76 | with default arguments, exactly the four known types build |
| Manager.AnalyzeEntries | normal_form/game_manager.py:119-134 | pure_nash is present iff find_nash, and holds the equilibria; mixed_nash is present iff find_mixed and the game is 2×2 |
| Manager.AnalyzePureFirst | normal_form/game_manager.py:119-134 | a 2×2 game with pure equilibria reports them, and the mixed entry is the pure-equilibria error |
| Manager.ExportAs | normal_form/game_manager.py:189-207 | "dict" and "json" export the game's dict; any other format is "Unsupported export format" |
| Manager.GameManager.constructor | normal_form/game_manager.py:22-25 | no games, and the next id is 1 |
| Manager.GameManager.Register | normal_form/game_manager.py:50-54 | stores the game under str(next id), which was unused, and increments the counter |
| Manager.GameManager.CreateGame | normal_form/game_manager.py:27-54 | on a construction error nothing is stored and the counter is kept; otherwise the new game, built as requested, is stored under the next id |
| Manager.GameManager.CreateCommonGame | normal_form/game_manager.py:56-82 | an unknown type (ValueError), argument values the factory refuses (ValueError) or a keyword it does not take (TypeError) store nothing; otherwise the factory's 2×2 game is stored under the next id |
| Manager.GameManager.GetGame | normal_form/game_manager.py:84-99 | the stored game, or the KeyError "Game with ID … not found" |
| Manager.AnalyzeStored | normal_form/game_manager.py:118-134 | the analysis of one game; with find_nash the game is left as a committed pure search leaves it (`StrategicGame.PureSearchCommitted`: tagged grid, extended best-response lists, equilibria replaced on success), otherwise unchanged |
| Manager.GameManager.AnalyzeGame | normal_form/game_manager.py:101-136 | the analysis of the stored game, or the KeyError; the analysed game is updated as `AnalyzeStored` states, every other stored game and the registry are unchanged |
| Manager.GameManager.CalculateExpectedPayoffs | normal_form/game_manager.py:138-155 | ep_bpm of the stored game, or the KeyError |
| Manager.GameManager.ExportGame | normal_form/game_manager.py:174-207 | the stored game's dict in the requested format, or the KeyError |
| FileParser.DigitRun | normal_form/game_file_parser.py:185 | the length of the leading run of digits |
| FileParser.FirstBadArity | normal_form/game_file_parser.py:192-195 | none iff every parenthesised tuple has two elements; otherwise the size of a tuple with a different size |
| FileParser.FindTuples | normal_form/game_file_parser.py:189-190 | the scanning loop finds exactly the parenthesised integer tuples, left to right |
| FileParser.ScanPayoffRow | normal_form/game_file_parser.py:182-208 | the row scanner computes the row, or its first error |
| FileParser.CheckRow | normal_form/game_file_parser.py:192-208 | the arity check, then the pairs |
| FileParser.PayoffRowRoundTrip | normal_form/game_file_parser.py:182-208 | a rendered row of pairs, with any text around it that has no parenthesis, reads back as those pairs in order |
| FileParser.PayoffRowArity | normal_form/game_file_parser.py:192-195 | a tuple that is not a pair gives "Payoff pairs must have exactly 2 elements, found n" |
| FileParser.PayoffRowNoPair | normal_form/game_file_parser.py:197-198 | a line with no tuple gives "No valid payoff pairs found" |
| FileParser.TuplesOfRow | normal_form/game_file_parser.py:185-190 | the scanner finds a rendered row's pairs and then goes on with the rest |
| FileParser.IntTokenRendered | normal_form/game_file_parser.py:185 | a rendered integer scans back to itself |
| FileParser.ValueTextComment | normal_form/game_file_parser.py:99-100 | a value's text from its first '#' on is dropped |
| FileParser.ParseParamValue | normal_form/game_file_parser.py:144-167 | the parameter value: a list for bracketed text, an integer, a decimal, or the raw text |
| FileParser.ParseList | normal_form/game_file_parser.py:146-160 | a list of the comma-separated items, each read as a scalar |
| FileParser.ItemValues | normal_form/game_file_parser.py:148-157 | one value per item |
| FileParser.ParamIntRoundTrip | normal_form/game_file_parser.py:164-165 | a rendered integer reads back as that integer |
| FileParser.ParamEmptyList | normal_form/game_file_parser.py:159-160 | "[ ]" with only blanks inside is the empty list |
| FileParser.ParamListRoundTrip | normal_form/game_file_parser.py:144-158 | "[a, b, …]" reads back as the list of those integers |
| FileParser.PutGet | normal_form/game_file_parser.py:158-167 | after storing a key, looking it up gives the new value, and every other key keeps its value |
| FileParser.PutOrder | normal_form/game_file_parser.py:158-167 | storing a new key appends it; storing an existing key keeps every position |
| FileParser.StrategiesOf | normal_form/game_file_parser.py:106-108 | present iff the value is exactly two words that are both integers, and then it holds those integers |
| FileParser.Names | normal_form/game_file_parser.py:117 | one name per comma-separated part, so at least one |
| FileParser.Header | normal_form/game_file_parser.py:102-129 | a known key succeeds (strategies only when well formed); an unknown key is "Unknown key"; bad strategies are "Invalid strategies format"; the section becomes params, payoffs or none; rows and params are kept |
| FileParser.Finish | normal_form/game_file_parser.py:177-178 | payoffs are present iff some row was read, and are those rows |
| FileParser.ParseLine | normal_form/game_file_parser.py:86-175 | one line's step of the reading loop |
| FileParser.ParseLineAt | normal_form/game_file_parser.py:85-175 | one step moves the reading from line i to line i+1, or ends it with the line's error |
| FileParser.ScanAll | normal_form/game_file_parser.py:85-175 | the loop reads all lines, in order, stopping at the first error |
| FileParser.ParseGameDefinition | normal_form/game_file_parser.py:68-180 | the definition read from the content's lines |
| FileParser.HeaderLine | normal_form/game_file_parser.py:93-96 | a top-level "key: value" line is the header step for the lower-cased key and the value with its comment dropped |
| FileParser.KeysCaseInsensitive | normal_form/game_file_parser.py:95 | keys that differ only in case read alike |
| FileParser.UnknownKey | normal_form/game_file_parser.py:128-129 | an unrecognised key is the error "Unknown key '<key>'" |
| FileParser.StrategiesLine | normal_form/game_file_parser.py:105-111 | "strategies: R C" stores (R, C) and leaves any section |
| FileParser.ParamLine | normal_form/game_file_parser.py:132-167 | an indented "key: value" line in the params section stores the value under the lower-cased key |
| FileParser.OutsideContent | normal_form/game_file_parser.py:174-175 | other indented text outside a section is "Unexpected content outside of section" |
| FileParser.PayoffLine | normal_form/game_file_parser.py:169-172 | an indented row in the payoffs section appends its pairs |
| FileParser.CommentLine | normal_form/game_file_parser.py:89-90 | a blank or '#' line changes nothing |
| FileParser.LineNumberFree | normal_form/game_file_parser.py:85-175 | a line's outcome, apart from the message, does not depend on its number |
| FileParser.ScanNumberFree | normal_form/game_file_parser.py:85-175 | the outcome of reading lines, apart from the message, does not depend on the starting number |
| FileParser.CommentInvisible | normal_form/game_file_parser.py:89-90 | inserting a blank or comment line anywhere leaves the outcome, apart from the message, unchanged |
| FileParser.Unexpected | normal_form/game_file_parser.py:222 | none iff every parameter is a keyword the factory accepts; otherwise one that it does not accept |
| FileParser.IntItems | normal_form/game_file_parser.py:222 | the integers of a list, present iff every item is an integer |
| FileParser.KwargsOf | normal_form/game_file_parser.py:222 | a parameter the factory does not take is the TypeError "got an unexpected keyword argument" |
| FileParser.KwargsField | normal_form/game_file_parser.py:222 | each integer keyword argument takes the file's value when given, and its default otherwise |
| FileParser.ZeroSumValues | normal_form/game_file_parser.py:222 | "values: [a, b, c, d]" is passed to the zero-sum factory as those integers |
| FileParser.Bound | normal_form/game_file_parser.py:244-245 | params.get(key, default): the default when absent, the integer when present |
| FileParser.PlanOf | normal_form/game_file_parser.py:212-249 | a missing or empty type is "GAME_TYPE is required"; custom needs payoffs and random needs strategies; an unknown type is "Unknown game type: …" with the original spelling |
| FileParser.RandomDefaults | normal_form/game_file_parser.py:237-246 | a random game without bounds is planned with the limits −99 and 99; `Build` creates it with those limits and an all-zero grid |
| FileParser.CustomNeedsPayoffs | normal_form/game_file_parser.py:226-227 | a custom game without payoffs is "PAYOFFS section is required for custom games" |
| FileParser.CountError | normal_form/game_file_parser.py:252-261 | none iff each given strategy-name list has the game's row or column count |
| FileParser.Wrap | normal_form/game_file_parser.py:65-66 | every error is turned into a GameFileParseError |
| FileParser.GameFileParser.constructor | normal_form/game_file_parser.py:22-24 | a parser with a fresh, empty manager |
| FileParser.GameFileParser.Build | normal_form/game_file_parser.py:220-246 | a common, custom ('d') or random ('r') game is created through the manager, as planned |
| FileParser.GameFileParser.CreateFromDefinition | normal_form/game_file_parser.py:210-263 | plan errors and refused factory arguments store nothing; otherwise the game is stored under the next id, and the result is the count error, if any, or (id, game) |
| FileParser.GameFileParser.ParseContent | normal_form/game_file_parser.py:48-66 | every failure is a GameFileParseError "Error parsing <source>: …" wrapping the underlying message; a read error, a plan error or a factory refusal stores nothing; otherwise the game built from the definition is stored under the next id, and a strategy-name count mismatch is still reported after the game has been stored |
| Utils.ChunksAppend | normal_form/utils.py:26-30 | the chunks of xs+ys are the chunks of xs followed by those of ys |
| Utils.RenderedAppend | normal_form/utils.py:22-30 | for non-empty lists, f(xs+ys) = f(xs)+f(ys) |
| Utils.ChunkInjective | normal_form/utils.py:29 | different coordinates render differently |
| Utils.FrameInjective | normal_form/utils.py:29 | the digits of both indices can be read back from a chunk |
| Utils.TenthStrategy | normal_form/utils.py:29 | (9, 9) renders as "(A10, B10)   " |
| Utils.GetCoordinatesString | normal_form/utils.py:21-30 | "None" for no or empty input; otherwise "(A{row+1}, B{col+1})   " per coordinate, in order |
| Text.Strip | normal_form/game_file_parser.py:86 | strip() leaves no blank at either end |
| Text.StripSlice | normal_form/game_file_parser.py:86 | strip() returns a slice of the text, and everything before and after that slice is blank |
| Text.StripIdempotent | normal_form/game_file_parser.py:86 | stripping twice is stripping once |
| Text.Split | normal_form/game_file_parser.py:70 | split(sep) gives at least one part; no part holds sep; joining them with sep gives back the text |
| Text.Words | normal_form/game_file_parser.py:107 | split() gives non-empty words without blanks |
| Text.LowerCaseInsensitive | normal_form/game_file_parser.py:95 | two texts of one length lower alike iff at every position they hold the same character or the same ASCII letter in the two cases; lower() is idempotent |
| Text.Replace | normal_form/game_file_parser.py:218 | every occurrence of the character becomes the replacement and every other character stays; the length is kept |
| Text.ReplaceUndo | normal_form/game_file_parser.py:218 | replacing back with a character the text did not hold restores the text |
| Text.NatToStringRoundTrip | normal_form/game_manager.py:50 | str(n) reads back as n |
| Text.NatToStringInjective | normal_form/game_manager.py:50 | different counters give different ids |
| Text.ParseIntRoundTrip | nash_equilibrium/strategic_game.py:418-419 | int(str(i)) = i |
| Text.ParseIntNeedsDigit | nash_equilibrium/strategic_game.py:418-419 | text without a digit is not an integer |

## Left out

- File access (`parse_file`, `validate_file`, `parse_game_file`), console output (`print_*`, the
  formatted tables, `from_list_to_beliefs`, the header printers), the CLI, the web API and the
  front end are not part of this model. They are I/O.
- `create_random_beliefs` and `generate_random_beliefs` are left out. They are Dirichlet sampling in
  floating point.
- `_cached_expected_payoff` is left out. It is a cache that repeats `ep_bpm`'s arithmetic and is
  not called.
- Randomness: every `random.randint` draw is a nondeterministic value bounded by the draw's limits.
  So `RandomFill` and `CreateZeroSum` promise only the bounds, not a distribution.
- Strategic.StrategicGame.AddPayoffs and Legacy.NormalForm.AddPayoffs: the input function is a
  parameter from prompt to reply. The prompt text is kept, but the console is not modelled.
- Strategic.StrategicGame.constructor: in mode 'd' the Python grid is the caller's own list, so a
  later change by the caller would show through. The model copies values, so that aliasing is not
  captured.
- Rows and columns are `nat`. A negative count, which Python accepts and turns into an empty grid,
  is not modelled.
- FileParser.PlanOf: a random game with a negative strategy count is refused with a ValueError. The
  source would pass the count on to `create_game`.
- FileParser.KwargsOf and FileParser.Bound: a parameter that is not an integer (text, a decimal, a
  list of non-integers) gives a TypeError with a fixed message. Python would pass the value through
  to the factory and fail, or not, later.
- FileParser.ParseParamValue: a decimal parameter stays the abstract value `PDecimal(text)`. The
  model recognises it by a simplified syntax: a sign, then digits with exactly one '.'. Exponents,
  `inf`, `nan` and underscores are not handled, and float arithmetic is not modelled.
- Text.ParseIntRoundTrip: `int()` accepts ASCII blanks, an optional sign and ASCII digits.
  Underscores and non-ASCII digits are not modelled.
- Text.Strip, Text.Words, Text.Lower and FileParser.ScanPayoffRow: blanks are the ASCII whitespace
  of `str.isspace()` (space, \t, \n, \r, \v, \f and 0x1c-0x1f), digits are 0-9, and `lower()`
  maps A-Z only. Python's `strip()`, `split()`, `lower()` and the regular expressions' `\s` and `\d`
  also act on non-ASCII whitespace, digits and letters; those are not modelled.
- Text.LowerCaseInsensitive: states case-insensitivity for ASCII letters only, because `Lower` does not
  model Unicode case folding.
- FileParser.ScanPayoffRow: the "Invalid payoff values" branch (normal_form/game_file_parser.py:205-206)
  cannot be reached, because the scanner only yields integers. The model has no such branch.
- The regular expressions at normal_form/game_file_parser.py:185 and 189 are replaced by a
  hand-written scanner, which has the same results on the rows it accepts.
- Strategic.StrategicGame.IsDominantStrategy and the other dominance methods: strategy indices are
  `nat`. Python's negative indices, which read rows or columns from the end, are not modelled.
- StrategicSpec.IsDominantExact, StrategicSpec.IsDominatedByExact, StrategicSpec.GetDominatedExact
  and the other `*Exact` dominance lemmas: they require `Fits` (every row holds at least `columns`
  cells). On a ragged grid the methods return the IndexError at the first missing cell in the
  source's loop order, and no lemma characterises those grids further.
- StrategicSpec.ValidateStrategy and StrategicSpec.DistributionsPass: the "must sum to 1" message
  omits Python's tail ", got {sum}", because the float text of the sum is not modelled.
- Strategic.RandomFill, Strategic.StrategicGame.AddPayoffs and Legacy.NormalForm.AddPayoffs: an
  empty range (lower limit above upper) is a ValueError with the fixed message "empty range for
  randrange()"; the bounds that Python's `randint` appends to it, which vary between Python
  versions, are not modelled.
- Strategic.StrategicGame.ValidateGameStructure and StrategicSpec.ValidateGameStructure: a cell is
  always a pair of integers, so the per-cell "Cell (i, j) must be a tuple of length 2" check cannot
  fail. A grid whose cells are lists or of another length, as a JSON request can supply, is not
  modelled.
- Manager.Foreign and Manager.GameManager.CreateCommonGame: `Kwargs` records which keywords are
  given but not the order they were passed in. When several unexpected keywords are given, Python
  names the first one passed; the model names the first in the order t, r, p, s, a, b, values. A
  keyword passed explicitly as `None` counts as not given.
- Manager.GameManager.ExportGame: the JSON text of `json.dumps` is represented by the dictionary it
  encodes, with a marker that it is JSON. `convert_numpy` is the identity on the values this model
  has.
- Messages that the Python code only prints (the legacy solver's reasons) are not modelled. Only the
  returned value is.
- Legacy.InvalidLiteral: Python's `int()` message quotes the text with `repr`, which may switch to
  double quotes and escapes special characters. The model always wraps the text in single quotes as
  typed.

## Findings

| source | as written | input that shows it | evidently intended | confidence | as-written member | corrected member |
|---|---|---|---|---|---|---|
| nash_equilibrium/strategic_game.py:459-467 (and normal_form/NormalForm.py:184-190) | `multiple_br_values` is not cleared when the running best improves, so an index that tied an earlier, later-exceeded best is still reported as a best response | player 1's column [1, 1, 2] reports rows 1 and 2; in the 3×1 game with that column (u2 all 0), (0, 1) is reported as a pure Nash equilibrium | only the indices that attain the maximum, so only true equilibria | high (not executed) | BestResponse.StaleTieEquilibrium | BestResponse.PureNashRestartExact |

The engine classes (`StrategicGame`, `NormalForm` and the manager's analysis) reproduce the code as
written (`Ties.KeepStale`). The corrected scan is the same definition with `Ties.Restart`.
`BestResponse.BestIndicesRestartExact`, `BestResponse.BestResponsesRestartExact` and
`BestResponse.PureNashRestartExact` prove that it yields exactly the maximisers and the equilibria.
Even as written, every true maximiser and equilibrium is reported (`BestResponse.BestIndicesComplete`,
`BestResponse.PureNashComplete`).
