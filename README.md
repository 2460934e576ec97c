# 4×4 tic-tac-toe reinforcement learning, modelled in Dafny

This project models the core of a small reinforcement-learning program. In it, a tabular agent
learns 4×4 tic-tac-toe against a human or against a heuristic teacher. The model has three parts:

- **The game** (`tictactoe/game.py`, module `TicTacToe`, file `game.dfy`).
  - A `Game` object owns the board: four rows of four cells holding `'-'`, `'X'` or `'O'`.
  - Its methods write the agent's `'O'` and the player's checked `'X'` in place.
  - It detects wins over the ten lines and draws.
  - `getStateKey` turns the board into the row-major state key.
  - The episode loop alternates the two sides and produces the agent's updates.
- **The learners** (`agen.py`, module `Learners`, file `agent.dfy`).
  - One `Learner` class covers both learners. Its constant `rule` picks Q-learning or SARSA, which is the only thing the two source classes differ in.
  - The value table is a map from action to a map from state key to value. A state the table has not seen reads as 0.
  - `GetAction` makes the epsilon-greedy choice, ties included, and decays epsilon geometrically.
  - `Update` applies the terminal, Q-learning or SARSA update rule and records the reward.
- **The teacher** (`tictactoe/teacher.py`, module `Teachers`, file `teacher.dfy`).
  - The heuristic cascade: win, block, fork, block fork, random.
  - It is modelled exactly as written, Python's dynamic behaviour included, and it uses `' '` as its empty cell:
    - the row branch of `find_winning_move` calls `board.index(i)` on a list of rows, so it raises `ValueError` (`Raised`);
    - a rule's result is used only if truthy, so a move at cell 0 falls through to the next rule;
    - a diagonal for a non-blank key never yields a move;
    - `fork`/`block_fork` return a row index, not a cell;
    - `random_move` compares each row, a list, with the string `' '`. A list never equals a string, so it never finds a move.

Two small modules are shared:

- `Grids` (`grids.dfy`) holds the list helpers the source uses: `list.count`, `list.index`, column and diagonal comprehensions, and the row-major join.
- `Wrappers` (`wrappers.dfy`) holds `Option`.

Randomness is passed in:

- `draw: real` stands for `random.random()`;
- `pick`/`tiePick: nat` stand for `random.choice`/`np.random.choice`; they choose element `pick % n` of the `n` candidates.

Values, `alpha`, `gamma` and `epsilon` are exact reals.

`agentMove` (tictactoe/game.py:36-38) writes the agent's mark without checking that the cell is empty; only the player's moves are checked (tictactoe/game.py:30). The model writes unchecked as well.

Where the source raises, the model returns an error value instead of adding a precondition:

- `GetAction` returns `None` for a key shorter than sixteen characters or with no legal action;
- `Update` returns `ok == false` and changes nothing on a `KeyError`, `IndexError` or `ValueError`;
- the teacher's rules return `Raised`.

Several comments in the source promise more than the code does. The model follows the code:

- tictactoe/teacher.py:29 says `win` checks whether the teacher can win in the next move. In the code a row win raises (tictactoe/teacher.py:37). A winning move at cell 0 is found, but `make_move` then discards it through its truthiness test (tictactoe/teacher.py:14). `random_move` never returns a cell.
- tictactoe/teacher.py:61 and 68 say the fork rules return the index of a row, and they do. A caller that reads the result as a cell, as the teacher's demo loop does, misreads it.

## Model

| member | source | states |
|---|---|---|
| Grids.Count | tictactoe/game.py:45 | `list.count`: never more than the length |
| Grids.CountExtremes | tictactoe/game.py:45 | the count is zero exactly when `x` is absent, and the full length exactly when every element is `x` |
| Grids.IndexOf | tictactoe/teacher.py:41 | `list.index`: a position holding `x` with no earlier occurrence |
| Grids.Column | tictactoe/teacher.py:39 | column `i`, read top to bottom; `LineCount` ties its count to the column's cells |
| Grids.Diagonal | tictactoe/game.py:43 | the main diagonal, read from the top left; `LineCount` ties its count to the diagonal's cells |
| Grids.AntiDiagonal | tictactoe/game.py:44 | the anti-diagonal, read from the top right; `LineCount` ties its count to its cells |
| Grids.Flatten | tictactoe/game.py:141 | joining four-cell rows gives four cells per row |
| Grids.FlattenAt | tictactoe/game.py:141 | cell `j` of row `i` is character `4 * i + j` of the joined rows |
| TicTacToe.CheckForWin | tictactoe/game.py:40-53 | the diagonals first, then each column and row, counted for four `key`; characterised by `CheckForWinIffLine` |
| TicTacToe.LineCount | tictactoe/game.py:43-51 | a line's list counts four `key` exactly when every cell of that line holds `key` |
| TicTacToe.WinFromLine | tictactoe/game.py:40-53 | a row, column or diagonal all of `key` makes `checkForWin(key)` hold |
| TicTacToe.LineFromWin | tictactoe/game.py:40-53 | when `checkForWin(key)` holds, it returns one of the ten lines that is all `key` |
| TicTacToe.CheckForWinIffLine | tictactoe/game.py:40-53 | `checkForWin(key)` holds exactly when one of the four rows, four columns or two diagonals is all `key` |
| TicTacToe.CheckForDraw | tictactoe/game.py:55-57 | no cell is `'-'`; `DrawIffFullKey` and `DrawIffNoLegalAction` tie it to the state key and to the agent's legal actions |
| TicTacToe.CheckForEnd | tictactoe/game.py:59-74 | 1 exactly on a win for `key` even on a full board, 0 exactly on a draw without that win, -1 exactly otherwise |
| TicTacToe.GetStateKey | tictactoe/game.py:139-141 | the key has sixteen characters |
| TicTacToe.StateKeyCells | tictactoe/game.py:139-141 | character `4 * i + j` of the key is cell `(i, j)` |
| TicTacToe.KeyRoundTrip | tictactoe/game.py:139-141 | splitting a board's key into quarters gives the board back |
| TicTacToe.BoardRoundTrip | tictactoe/game.py:139-141 | every sixteen-character key is the key of the board made from its quarters |
| TicTacToe.StateKeyInjective | tictactoe/game.py:139-141 | two boards share a key exactly when they hold the same cells |
| TicTacToe.DrawIffFullKey | tictactoe/game.py:55-57 | `checkForDraw` holds exactly when no character of the state key is `'-'` |
| TicTacToe.DrawIffNoLegalAction | tictactoe/game.py:55-57 | `checkForDraw` holds exactly when the board's key leaves the agent no legal action (agen.py:36) |
| TicTacToe.Acceptable | tictactoe/game.py:30 | the player's move check: both coordinates in 0..3 and the cell `'-'`; `Game.PlayerMove` accepts exactly these |
| TicTacToe.Place | tictactoe/game.py:38 | the written cell holds the mark and every other cell is unchanged |
| TicTacToe.NoNewLine | tictactoe/game.py:33 | writing one mark never completes a line of another mark: a win for it afterwards was there before |
| TicTacToe.FirstAcceptable | tictactoe/game.py:21-34 | the first attempt from `from` on that passes the move check, every earlier one failing it, or the end of the attempts |
| TicTacToe.Step | tictactoe/game.py:86-95 | one round: the agent's `'O'`, the `checkForEnd('O')` test, the first acceptable `'X'`, the `checkForEnd('X')` test; the board and the rewards are those of the source |
| TicTacToe.StepEnds | tictactoe/game.py:86-95 | a round that ends leaves a board showing its ending: the winner's line, and after a player ending none of the agent's, or a full board; it ends with the agent's win or draw exactly when the agent's own move wins or fills the board, before the player moves, and then a board without a line of `'X'` still has none; a round that goes on leaves neither a line of `'O'` nor a line of `'X'` nor a full board |
| TicTacToe.Rounds | tictactoe/game.py:85-105 | the loop: rounds until the first one that ends the game, each going-on round logging the key of the board the agent moved on, the key after the player's answer and the next choice |
| TicTacToe.Play | tictactoe/game.py:76-108 | `playGame`: the player's first acceptable move when it goes first, then the loop |
| TicTacToe.PlayOpens | tictactoe/game.py:79-82 | after the opening, a game is the loop run from the board the agent first moves on, or nothing when no choice is supplied |
| TicTacToe.EpisodePrepend | tictactoe/game.py:97-105 | a call that bootstraps off the first call of the rest of an episode extends it by one choice |
| TicTacToe.SettledPrepend | tictactoe/game.py:96-108 | a reward-0 non-terminal call in front does not change how the calls end |
| TicTacToe.RoundsEpisode | tictactoe/game.py:85-108 | the loop's calls use the choices in order, start in the key of the starting board, bootstrap each off the next, all reward 0 and non-terminal except, unless the supplied input runs out, one last terminal call whose reward and ending the final board shows |
| TicTacToe.PlayEpisode | tictactoe/game.py:76-108 | a whole game's calls form such an episode, starting in the key of the board the agent first moves on |
| TicTacToe.Game.constructor | tictactoe/game.py:5-12 | a new game's sixteen cells are all `'-'` |
| TicTacToe.Game.AgentMove | tictactoe/game.py:36-38 | `'O'` is written at the action's cell, unchecked, and nowhere else |
| TicTacToe.Game.PlayerMove | tictactoe/game.py:30-33 | a move is accepted exactly when both coordinates are in 0..3 and the cell is `'-'`; accepted, `'X'` is written there only; rejected, the board is unchanged |
| TicTacToe.Game.PlayerTurn | tictactoe/game.py:21-34 | rejected attempts are skipped until the first acceptable one, which is the only write; with none left the board is unchanged; the attempt taken is `FirstAcceptable` |
| TicTacToe.Game.Round | tictactoe/game.py:86-95 | the outcome, the new board and the next unread attempt are those of `Step` on the old board |
| TicTacToe.Game.PlayGame | tictactoe/game.py:76-108 | the calls, the ending and the final board are those of `Play` on the old board, so the calls form an episode that ends as the final board shows |
| TicTacToe.Game.PlayRounds | tictactoe/game.py:85-108 | the loop's calls, ending and final board are those of `Rounds` on the board it starts from |
| Learners.CellOf | agen.py:36 | an action's position in the state key, four per row; `RowMajorMember` and `LegalActionsOfKey` tie it to cell `(row, col)` |
| Learners.AllActions | agen.py:20 | sixteen actions; `AllActionsRowMajor` fixes their order |
| Learners.AllActionsRowMajor | agen.py:20 | the action list is the sixteen coordinates in row-major order |
| Learners.RowMajorMember | agen.py:20 | a row-major action list holds exactly the in-range coordinates, `(i, j)` at position `4 * i + j` |
| Learners.RowMajorDistinct | agen.py:20 | no action is listed twice |
| Learners.LegalActions | agen.py:36 | an action is possible exactly when it is listed and its key character is `'-'` |
| Learners.LegalActionsOfKey | agen.py:36 | for a state key, the possible actions are exactly the coordinates whose character is `'-'`, and there are none exactly when no character is `'-'` |
| Learners.Lookup | agen.py:22 | the stored value, or 0 for a state the action's table has not seen |
| Learners.MaxValue | agen.py:42-43 | `np.max`: attained by some listed action and no smaller than any |
| Learners.Tied | agen.py:43-44 | the candidates are exactly the listed actions whose value equals the maximum |
| Learners.TiedMaximal | agen.py:42-44 | a greedy candidate is one of the legal actions and no legal action has a larger value |
| Learners.TiedNonEmpty | agen.py:43-44 | some action attains the maximum, so the greedy choice has a candidate |
| Learners.Blend | agen.py:90-92 | the prior moved by `alpha` of its distance to the target; bounded by `BlendBetween` |
| Learners.Bootstrap | agen.py:90 | the reward plus `gamma` times the successor's value; the Q-learning and SARSA targets |
| Learners.BlendBetween | agen.py:90-92 | with `alpha` in [0, 1] the update is the convex combination of old value and target, between them and no farther from the target |
| Learners.UpdateFigures | agen.py:90-92 | the worked figures: Q-learning 0.225, SARSA 0.045, terminal 0.6 |
| Learners.Decay | agen.py:47 | one geometric decay step |
| Learners.EpsAfter | agen.py:47 | epsilon after `n` selections; closed form in `EpsAfterClosedForm` |
| Learners.EpsAfterClosedForm | agen.py:47 | after `n` selections epsilon is `eps * (1 - eps_decay)^n` |
| Learners.EpsAfterNoDecay | agen.py:13 | with the default decay 0, epsilon never changes |
| Learners.EpsAfterDecreases | agen.py:47 | with decay in [0, 1] and a non-negative epsilon, epsilon never grows and stays non-negative |
| Learners.Learner.constructor | agen.py:13-24 | the parameters as given, the row-major actions, one inner table per action with every value 0, and no rewards |
| Learners.Learner.LegalActionsAt | agen.py:36 | the legal actions of a state key: exactly the coordinates at `'-'`, all in the table, empty exactly when no `'-'` |
| Learners.Learner.GetAction | agen.py:26-49 | none exactly where the source raises; otherwise a legal action: for `draw < eps` the picked legal action, else one of maximal value among all legal actions; epsilon is then decayed |
| Learners.Learner.UpdateCompletes | agen.py:87-124 | `update` (Q-learning at agen.py:87-92, SARSA at agen.py:121-124) completes exactly when the action is in range and, before a non-terminal state, Q-learning has a sixteen-character key with a legal action and SARSA has an in-range next action; `Update`'s `ok` is exactly this |
| Learners.Learner.Update | agen.py:70-126 | a terminal update moves `Q[a][s]` toward `r`; a Q-learning update moves it toward `r + gamma * max` over the next state's legal actions; a SARSA update moves it toward `r + gamma * Q[a_][s_]`; nothing else changes and `r` is appended; where the source raises, nothing changes |
| Teachers.Truthy | tictactoe/teacher.py:14-23 | Python truthiness of a rule's result: `None` and `0` are false, so a move to cell 0 falls through; `WinAtCellZeroIgnored` exhibits it |
| Teachers.RowThreat | tictactoe/teacher.py:36 | row `i` holds three `key` and one blank; `ScanFrom` and `FirstThreatDecides` say the first index with such a row raises |
| Teachers.ColumnThreat | tictactoe/teacher.py:39-40 | column `i` holds three `key` and one blank; `ScanFrom` says such a column yields the cell of its blank |
| Teachers.AllOf | tictactoe/teacher.py:43-47 | every cell of the list is `key`, as the `all(...)` test; a diagonal all of a non-blank `key` has no blank, so `NoDiagonalMove` shows the diagonal part never returns a move |
| Teachers.ForkRow | tictactoe/teacher.py:60-67 | row `m` holds two of the mark and two blanks; `ScanRows` returns the first such row |
| Teachers.DiagonalScan | tictactoe/teacher.py:43-50 | a move found on a diagonal is an in-range blank cell |
| Teachers.NoDiagonalMove | tictactoe/teacher.py:43-50 | for a key other than a blank, the diagonal part never yields a move |
| Teachers.ScanFrom | tictactoe/teacher.py:32-51 | any move found is an in-range blank cell |
| Teachers.FirstThreatDecides | tictactoe/teacher.py:34-41 | the first index whose row or column is a threat decides: a row raises, a column yields the blank cell `row * 4 + i` |
| Teachers.NoThreatDiagonals | tictactoe/teacher.py:42-50 | with no threatening row or column the diagonals decide |
| Teachers.WinningMoveCases | tictactoe/teacher.py:32-51 | for a non-blank key: raises exactly when the first threat is a row, yields a move exactly when it is a column, nothing exactly when there is no threat |
| Teachers.ScanRows | tictactoe/teacher.py:57-69 | a row index in 0..3, the first row with two marks and two blanks; nothing exactly when no row qualifies; never raises |
| Teachers.RowEqualsBlank | tictactoe/teacher.py:73 | Python's `==` between a row list and the string `' '`: never true |
| Teachers.Blanks | tictactoe/teacher.py:73 | every listed index is an index of the board |
| Teachers.BlanksExactly | tictactoe/teacher.py:73 | an index is listed exactly when its row compares equal to `' '` |
| Teachers.RandomMove | tictactoe/teacher.py:71-74 | a move is one of the listed indices; nothing exactly when no index is listed |
| Teachers.RandomMoveNone | tictactoe/teacher.py:71-74 | on any board `random_move` never returns a move |
| Teachers.NoBlankRows | tictactoe/teacher.py:73 | no index of any board is listed as blank |
| Teachers.Decision | tictactoe/teacher.py:9-26 | the cascade as a value; `Teacher.MakeMove` computes it and the lemmas below state what it yields |
| Teachers.RandomAboveAbility | tictactoe/teacher.py:11-12 | a draw above `ability_level` leaves the choice to `random_move`, so no move |
| Teachers.DecisionRange | tictactoe/teacher.py:9-26 | a move is never 0: a blank cell 1..15 or a fork row 1..3 |
| Teachers.WinTakesPriority | tictactoe/teacher.py:14-15 | when the rules are consulted, the first `'X'` threat decides: a row raises, a column win at a nonzero cell is taken |
| Teachers.NothingWithoutThreats | tictactoe/teacher.py:9-26 | with no threat and no fork row for either mark, no move comes out |
| Teachers.WinAtCellZeroIgnored | tictactoe/teacher.py:14-15 | a board whose only winning cell is 0 gets no move at all: 0 is falsy |
| Teachers.Teacher.constructor | tictactoe/teacher.py:4-7 | the given ability, default 0.5, and an empty memory |
| Teachers.Teacher.FindWinningMove | tictactoe/teacher.py:32-51 | the loops over rows and columns, then the diagonals, compute the scan above |
| Teachers.Teacher.DiagonalMove | tictactoe/teacher.py:43-50 | the two diagonal loops compute the diagonal scan: a diagonal whose cells are all `key` yields its first blank cell, the main diagonal before the anti-diagonal |
| Teachers.Teacher.Win | tictactoe/teacher.py:28-30 | the winning move for `key` |
| Teachers.Teacher.BlockWin | tictactoe/teacher.py:53-55 | the winning move for `'O'` |
| Teachers.Teacher.Fork | tictactoe/teacher.py:57-62 | the row scan for `'X'` |
| Teachers.Teacher.BlockFork | tictactoe/teacher.py:64-69 | the row scan for `'O'` |
| Teachers.Teacher.MakeMove | tictactoe/teacher.py:9-26 | the cascade: random above the ability; otherwise win, block, fork, block fork, random, each taken only if truthy, a raise ending it |
| Teachers.Teacher.Learn | tictactoe/teacher.py:76-80 | the outcome becomes the newest entry; the oldest is dropped once past a hundred; the ability is untouched |

## Left out

- Terminal I/O is left out: `printBoard`, the prompts and messages, and the `input()` parsing with its `ValueError` retry (tictactoe/game.py:20-29). The player's moves arrive already parsed as `(row, col)` pairs.
- `Game.start` (the coin flip and the y/n prompt) is left out. `PlayGame` takes who moves first as a parameter.
- The teacher branch of `playerMove` (tictactoe/game.py:16-18) is left out. It calls `makeMove`, which the teacher does not define, and the teacher's empty cell is `' '` where the game's is `'-'`. The teacher is modelled on its own board encoding, and the game's opponent is always the checked human path.
- Game.PlayGame: the game object's agent is not called. The agent's successive choices are a parameter, and the method returns the update calls in order instead of making them. It does not check that a supplied action's cell is empty, just as `agentMove` does not.
- Game.PlayGame: a player who never makes an acceptable move keeps the source waiting forever. The model ends with `OutOfInput` when the supplied attempts or actions run out.
- `Learner.save` (pickle and file removal) and the abstract base class machinery are left out.
- Learners.Lookup: reading `Q[a][s]` from the `defaultdict` also inserts `s` with value 0. The model reads 0 without inserting, so the table's key set may differ; the values read are the same.
- Learners.Learner.GetAction: the model has exact reals instead of IEEE doubles, and `pick`/`tiePick` stand for uniform choices without modelling their distribution.
- Teachers.Teacher.Learn: the outcomes are integers, and the source does not fix their type.
- Teachers.Teacher.MakeMove: `random.random()` and `random.choice` are parameters, and their uniform distribution is not modelled.
- The demo `print_board` and `play_game` of tictactoe/teacher.py:84-114 are left out.
