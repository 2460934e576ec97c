/**
 * The game of tictactoe/game.py: a 4×4 board of `'-'` (empty), `'X'` (the player) and `'O'`
 * (the agent), win and draw detection over the ten lines, the row-major state key, the
 * in-place move writes and the episode loop that feeds the agent's updates.
 *
 * The episode loop takes its inputs as parameters: the agent's successive choices (what
 * `get_action` returned) and the player's successive move attempts (row and column, already
 * parsed). Instead of calling `update` it returns the calls it would make, in order.
 */
module TicTacToe {
  import opened Wrappers
  import opened Grids
  import opened Learners

  /** One of the ten lines a player can fill: four rows, four columns and two diagonals. */
  datatype Line = Row(i: int) | Col(i: int) | Diag | AntiDiag

  predicate IsLine(l: Line)
  {
    match l
    case Row(i) => 0 <= i < 4
    case Col(i) => 0 <= i < 4
    case _ => true
  }

  /** The row and column of the `q`-th cell of a line. */
  function CellRow(l: Line, q: int): int
  {
    match l
    case Row(i) => i
    case Col(_) => q
    case Diag => q
    case AntiDiag => q
  }

  function CellCol(l: Line, q: int): int
  {
    match l
    case Row(_) => q
    case Col(i) => i
    case Diag => q
    case AntiDiag => 3 - q
  }

  /** Every cell of line `l` holds `key`. */
  predicate Filled(b: Board, l: Line, key: char)
    requires IsGrid(b) && IsLine(l)
  {
    forall q :: 0 <= q < 4 ==> b[CellRow(l, q)][CellCol(l, q)] == key
  }

  /** `checkForWin`: a diagonal, a column or a row counts four `key`. */
  function CheckForWin(b: Board, key: char): bool
    requires IsGrid(b)
  {
    Count(Diagonal(b), key) == 4 || Count(AntiDiagonal(b), key) == 4 ||
    exists i :: 0 <= i < 4 && (Count(Column(b, i), key) == 4 || Count(b[i], key) == 4)
  }

  /** The four cells of a line, as the lists `checkForWin` builds. */
  function LineCells(b: Board, l: Line): (c: seq<char>)
    requires IsGrid(b) && IsLine(l)
    ensures |c| == 4
  {
    match l
    case Row(i) => b[i]
    case Col(i) => Column(b, i)
    case Diag => Diagonal(b)
    case AntiDiag => AntiDiagonal(b)
  }

  /** A line's list counts four `key` exactly when each of its cells holds `key`. */
  lemma LineCount(b: Board, l: Line, key: char)
    requires IsGrid(b) && IsLine(l)
    ensures Count(LineCells(b, l), key) == 4 <==> Filled(b, l, key)
  {
    var c := LineCells(b, l);
    CountExtremes(c, key);
    forall q | 0 <= q < 4 ensures c[q] == b[CellRow(l, q)][CellCol(l, q)] {
      match l
      case Row(i) =>
      case Col(i) =>
      case Diag =>
      case AntiDiag =>
    }
  }

  /** `checkForWin(key)` holds exactly when one of the ten lines consists entirely of `key`. */
  lemma CheckForWinIffLine(b: Board, key: char)
    requires IsGrid(b)
    ensures CheckForWin(b, key) <==> exists l :: IsLine(l) && Filled(b, l, key)
  {
    if exists l :: IsLine(l) && Filled(b, l, key) {
      var l :| IsLine(l) && Filled(b, l, key);
      WinFromLine(b, key, l);
    }
    if CheckForWin(b, key) {
      var l := LineFromWin(b, key);
    }
  }

  /** A line all of `key` makes `checkForWin(key)` hold. */
  lemma WinFromLine(b: Board, key: char, l: Line)
    requires IsGrid(b) && IsLine(l) && Filled(b, l, key)
    ensures CheckForWin(b, key)
  {
    LineCount(b, l, key);
    match l
    case Row(i) => assert Count(b[i], key) == 4;
    case Col(i) => assert Count(Column(b, i), key) == 4;
    case Diag =>
    case AntiDiag =>
  }

  /** When `checkForWin(key)` holds, some line is all `key`. */
  lemma LineFromWin(b: Board, key: char) returns (l: Line)
    requires IsGrid(b) && CheckForWin(b, key)
    ensures IsLine(l) && Filled(b, l, key)
  {
    if Count(Diagonal(b), key) == 4 {
      l := Diag;
    } else if Count(AntiDiagonal(b), key) == 4 {
      l := AntiDiag;
    } else {
      var i :| 0 <= i < 4 && (Count(Column(b, i), key) == 4 || Count(b[i], key) == 4);
      l := if Count(Column(b, i), key) == 4 then Col(i) else Row(i);
    }
    LineCount(b, l, key);
  }

  /** `checkForDraw`: no cell is `'-'`. */
  predicate CheckForDraw(b: Board)
    requires IsGrid(b)
  {
    forall i, j :: 0 <= i < 4 && 0 <= j < 4 ==> b[i][j] != '-'
  }

  /** `checkForEnd(key)`: 1 when `key` has won (even on a full board), else 0 when the board is full, else -1. */
  function CheckForEnd(b: Board, key: char): (code: int)
    requires IsGrid(b)
    ensures code == 1 <==> CheckForWin(b, key)
    ensures code == 0 <==> !CheckForWin(b, key) && CheckForDraw(b)
    ensures code == -1 <==> !CheckForWin(b, key) && !CheckForDraw(b)
  {
    if CheckForWin(b, key) then 1 else if CheckForDraw(b) then 0 else -1
  }

  /** `getStateKey`: the cells joined row by row into one string. */
  function GetStateKey(b: Board): (k: string)
    requires IsGrid(b)
    ensures |k| == 16
  {
    Flatten(b)
  }

  /** Character `4 * i + j` of a board's key is cell `(i, j)`. */
  lemma StateKeyCells(b: Board)
    requires IsGrid(b)
    ensures forall i, j :: 0 <= i < 4 && 0 <= j < 4 ==> GetStateKey(b)[4 * i + j] == b[i][j]
  {
    forall i, j | 0 <= i < 4 && 0 <= j < 4 ensures Flatten(b)[4 * i + j] == b[i][j] {
      FlattenAt(b, i, j);
    }
  }

  /** The board a sixteen-character key was made from: its four consecutive quarters. */
  function FromKey(k: string): (b: Board)
    requires |k| == 16
    ensures IsGrid(b)
  {
    [k[0..4], k[4..8], k[8..12], k[12..16]]
  }

  /** Splitting a board's key gives the board back. */
  lemma {:induction false} KeyRoundTrip(b: Board)
    requires IsGrid(b)
    ensures FromKey(GetStateKey(b)) == b
  {
    var k := GetStateKey(b);
    StateKeyCells(b);
    var c := FromKey(k);
    forall i | 0 <= i < 4 ensures c[i] == b[i] {
      forall j | 0 <= j < 4 ensures c[i][j] == b[i][j] {
        assert c[i][j] == k[4 * i + j];
      }
    }
  }

  /** Joining the quarters of a key gives the key back. */
  lemma {:induction false} BoardRoundTrip(k: string)
    requires |k| == 16
    ensures GetStateKey(FromKey(k)) == k
  {
    var b := FromKey(k);
    var k' := GetStateKey(b);
    StateKeyCells(b);
    forall n | 0 <= n < 16 ensures k'[n] == k[n] {
      var i, j := n / 4, n % 4;
      assert n == 4 * i + j;
      assert k'[4 * i + j] == b[i][j];
    }
  }

  /** Two boards get the same key exactly when they hold the same cells. */
  lemma StateKeyInjective(b1: Board, b2: Board)
    requires IsGrid(b1) && IsGrid(b2)
    ensures GetStateKey(b1) == GetStateKey(b2) <==> b1 == b2
  {
    if GetStateKey(b1) == GetStateKey(b2) {
      KeyRoundTrip(b1);
      KeyRoundTrip(b2);
    }
  }

  /** A board is drawn exactly when its key leaves the agent no legal action. */
  lemma DrawIffNoLegalAction(b: Board, acts: seq<Action>)
    requires IsGrid(b) && RowMajor(acts)
    ensures forall k :: 0 <= k < |acts| ==> 0 <= CellOf(acts[k]) < |GetStateKey(b)|
    ensures CheckForDraw(b) <==> LegalActions(acts, GetStateKey(b)) == []
  {
    LegalActionsOfKey(acts, GetStateKey(b));
    DrawIffFullKey(b);
  }

  /** A board is drawn exactly when no character of its key is `'-'`. */
  lemma DrawIffFullKey(b: Board)
    requires IsGrid(b)
    ensures CheckForDraw(b) <==> forall n :: 0 <= n < 16 ==> GetStateKey(b)[n] != '-'
  {
    var k := GetStateKey(b);
    StateKeyCells(b);
    if CheckForDraw(b) {
      forall n | 0 <= n < 16 ensures k[n] != '-' {
        var i, j := SplitCell(n);
        assert k[4 * i + j] == b[i][j];
      }
    } else {
      var i, j :| 0 <= i < 4 && 0 <= j < 4 && b[i][j] == '-';
      assert k[4 * i + j] == '-';
    }
  }

  /** Key position `n` is cell `(n / 4, n % 4)`. */
  lemma SplitCell(n: int) returns (i: int, j: int)
    requires 0 <= n < 16
    ensures 0 <= i < 4 && 0 <= j < 4 && n == 4 * i + j
  {
    i, j := n / 4, n % 4;
  }

  /** The board after writing `mark` at one cell. */
  function Place(b: Board, row: int, col: int, mark: char): (r: Board)
    requires IsGrid(b) && 0 <= row < 4 && 0 <= col < 4
    ensures IsGrid(r)
    ensures r[row][col] == mark
    ensures forall i, j :: 0 <= i < 4 && 0 <= j < 4 && (i != row || j != col) ==> r[i][j] == b[i][j]
  {
    b[row := b[row][col := mark]]
  }

  /** The validation of `playerMove`: both coordinates in 0..3 and the cell empty. */
  predicate Acceptable(b: Board, row: int, col: int)
    requires IsGrid(b)
  {
    0 <= row < 4 && 0 <= col < 4 && b[row][col] == '-'
  }

  /** Writing `mark` cannot complete a line of another mark: a win for `other` after the write was there before it. */
  lemma NoNewLine(b: Board, row: int, col: int, mark: char, other: char)
    requires IsGrid(b) && 0 <= row < 4 && 0 <= col < 4 && mark != other
    ensures CheckForWin(Place(b, row, col, mark), other) ==> CheckForWin(b, other)
  {
    var p := Place(b, row, col, mark);
    if CheckForWin(p, other) {
      var l := LineFromWin(p, other);
      forall q | 0 <= q < 4 ensures b[CellRow(l, q)][CellCol(l, q)] == other {
        assert p[CellRow(l, q)][CellCol(l, q)] == other;
      }
      WinFromLine(b, other, l);
    }
  }

  /** The index of the first acceptable attempt from `from` on, or `|attempts|` when there is none. */
  function FirstAcceptable(b: Board, attempts: seq<(int, int)>, from: nat): (k: nat)
    requires IsGrid(b) && from <= |attempts|
    ensures from <= k <= |attempts|
    ensures k < |attempts| ==> Acceptable(b, attempts[k].0, attempts[k].1)
    ensures forall m :: from <= m < k ==> !Acceptable(b, attempts[m].0, attempts[m].1)
    decreases |attempts| - from
  {
    if from == |attempts| || Acceptable(b, attempts[from].0, attempts[from].1) then from
    else FirstAcceptable(b, attempts, from + 1)
  }

  /** How an episode ended; `OutOfInput` when the supplied moves ran out first. */
  datatype Ending = AgentWon | AgentDrew | PlayerWon | PlayerDrew | OutOfInput

  /** What one round of the episode loop left: the game over with its reward, play going on, or no acceptable move left. */
  datatype Outcome = Over(ending: Ending, reward: int) | Continues | Stalled

  /**
   * Board `b` ends the game the way `ending` says, with the final reward `reward` of `playGame`:
   * the winner's line is on the board, after a player ending the agent has none, and a draw
   * leaves no empty cell. An agent ending does not look at `'X'`, as `playGame` does not.
   */
  predicate Concludes(b: Board, ending: Ending, reward: int)
    requires IsGrid(b)
  {
    match ending
    case AgentWon => CheckForWin(b, 'O') && reward == 1
    case AgentDrew => !CheckForWin(b, 'O') && CheckForDraw(b) && reward == 0
    case PlayerWon => CheckForWin(b, 'X') && !CheckForWin(b, 'O') && reward == -1
    case PlayerDrew => !CheckForWin(b, 'X') && !CheckForWin(b, 'O') && CheckForDraw(b) && reward == 0
    case OutOfInput => false
  }

  /** One round's result: its outcome, the board it leaves and the index of the next unread attempt. */
  datatype Turn = Turn(outcome: Outcome, board: Board, next: nat)

  /**
   * One pass of the `while True` body of `playGame` up to the point where the next action is
   * needed. The agent writes `'O'`; its win or draw ends the game at once with `checkForEnd('O')`
   * as reward. Otherwise the first acceptable attempt from `from` writes `'X'`, and the player's
   * win or draw ends the game with the negated `checkForEnd('X')`. `Stalled` when no attempt is
   * acceptable.
   */
  function Step(b: Board, action: Action, attempts: seq<(int, int)>, from: nat): (t: Turn)
    requires IsGrid(b) && IsAction(action) && from <= |attempts|
    ensures IsGrid(t.board) && from <= t.next <= |attempts|
  {
    var agent := Place(b, action.row, action.col, 'O');
    var code := CheckForEnd(agent, 'O');
    if code != -1 then
      Turn(Over(if code == 1 then AgentWon else AgentDrew, code), agent, from)
    else
      var k := FirstAcceptable(agent, attempts, from);
      if k == |attempts| then
        Turn(Stalled, agent, k)
      else
        var player := Place(agent, attempts[k].0, attempts[k].1, 'X');
        var answer := CheckForEnd(player, 'X');
        if answer != -1 then
          Turn(Over(if answer == 1 then PlayerWon else PlayerDrew, -1 * answer), player, k + 1)
        else
          Turn(Continues, player, k + 1)
  }

  /**
   * A round that ends the game leaves a board that shows its ending; the agent's ending is taken
   * exactly when its own move wins or fills the board, and then brings no new line of `'X'`; a
   * round that goes on leaves no line of `'O'`, no line of `'X'` and an empty cell.
   */
  lemma StepEnds(b: Board, action: Action, attempts: seq<(int, int)>, from: nat)
    requires IsGrid(b) && IsAction(action) && from <= |attempts|
    ensures var t := Step(b, action, attempts, from);
      t.outcome.Over? ==> Concludes(t.board, t.outcome.ending, t.outcome.reward)
    ensures var t := Step(b, action, attempts, from);
      (t.outcome.Over? && (t.outcome.ending == AgentWon || t.outcome.ending == AgentDrew)) <==>
      CheckForEnd(Place(b, action.row, action.col, 'O'), 'O') != -1
    ensures var t := Step(b, action, attempts, from);
      (t.outcome.Over? && (t.outcome.ending == AgentWon || t.outcome.ending == AgentDrew) &&
       !CheckForWin(b, 'X')) ==> !CheckForWin(t.board, 'X')
    ensures var t := Step(b, action, attempts, from);
      t.outcome.Continues? ==> !CheckForWin(t.board, 'O') && CheckForEnd(t.board, 'X') == -1
  {
    var agent := Place(b, action.row, action.col, 'O');
    var t := Step(b, action, attempts, from);
    var code := CheckForEnd(agent, 'O');
    if code != -1 {
      NoNewLine(b, action.row, action.col, 'O', 'X');
      assert t == Turn(Over(if code == 1 then AgentWon else AgentDrew, code), agent, from);
    } else {
      var k := FirstAcceptable(agent, attempts, from);
      if k < |attempts| {
        var player := Place(agent, attempts[k].0, attempts[k].1, 'X');
        NoNewLine(agent, attempts[k].0, attempts[k].1, 'X', 'O');
        assert t.board == player && !CheckForWin(player, 'O');
      }
    }
  }

  /** One call `update(s, s_, a, a_, r)` of the agent. */
  datatype UpdateCall = UpdateCall(state: string, next: Option<string>, action: Action,
                                   nextAction: Option<Action>, reward: int)

  /** The update calls of an episode, the way it ended and the board it left. */
  datatype Played = Played(log: seq<UpdateCall>, ending: Ending, board: Board)

  /**
   * The `while True` loop of `playGame` from board `b`, the agent to move with `choices[n]`.
   * Each round that goes on logs a reward-0 call from the key of the board the agent moved on
   * to the key of the board after the player's answer, bootstrapping off the next choice; the
   * round that ends the game logs the terminal call with its reward. Play stops at the first
   * win or draw, and when the attempts or the choices run out.
   */
  function Rounds(b: Board, attempts: seq<(int, int)>, from: nat, choices: seq<Action>, n: nat): (p: Played)
    requires IsGrid(b) && from <= |attempts| && n < |choices|
    requires forall k :: 0 <= k < |choices| ==> IsAction(choices[k])
    ensures IsGrid(p.board)
    decreases |choices| - n
  {
    var t := Step(b, choices[n], attempts, from);
    match t.outcome
    case Over(ending, reward) =>
      Played([UpdateCall(GetStateKey(b), None, choices[n], None, reward)], ending, t.board)
    case Stalled => Played([], OutOfInput, t.board)
    case Continues =>
      if n + 1 == |choices| then Played([], OutOfInput, t.board)
      else
        var rest := Rounds(t.board, attempts, t.next, choices, n + 1);
        var call := UpdateCall(GetStateKey(b), Some(GetStateKey(t.board)), choices[n], Some(choices[n + 1]), 0);
        Played([call] + rest.log, rest.ending, rest.board)
  }

  /** `playGame(player_first)` on board `b`: the player's first acceptable attempt when it moves first, then the loop. */
  function Play(b: Board, playerFirst: bool, attempts: seq<(int, int)>, choices: seq<Action>): (p: Played)
    requires IsGrid(b)
    requires forall k :: 0 <= k < |choices| ==> IsAction(choices[k])
    ensures IsGrid(p.board)
  {
    var k := if playerFirst then FirstAcceptable(b, attempts, 0) else 0;
    if playerFirst && k == |attempts| then Played([], OutOfInput, b)
    else
      var start := if playerFirst then Place(b, attempts[k].0, attempts[k].1, 'X') else b;
      if |choices| == 0 then Played([], OutOfInput, start)
      else Rounds(start, attempts, if playerFirst then k + 1 else 0, choices, 0)
  }

  /**
   * Update calls as an episode makes them from choice `n` on: call `k` is for action
   * `choices[n + k]` in a sixteen-character state, and each call bootstraps off the state and
   * action of the call after it.
   */
  predicate Episode(log: seq<UpdateCall>, choices: seq<Action>, n: nat)
  {
    n + |log| <= |choices| &&
    (forall k :: 0 <= k < |log| ==> log[k].action == choices[n + k] && |log[k].state| == 16) &&
    forall k :: 0 <= k < |log| - 1 ==>
      log[k].next == Some(log[k + 1].state) && log[k].nextAction == Some(log[k + 1].action)
  }

  /** Each of the first `n` calls is a non-terminal one with reward 0. */
  predicate Interim(log: seq<UpdateCall>, n: int)
    requires n <= |log|
  {
    forall k :: 0 <= k < n ==> log[k].reward == 0 && log[k].next.Some? && log[k].nextAction.Some?
  }

  /**
   * The calls end as `ending` says on board `b`: all non-terminal when the input ran out, and
   * otherwise non-terminal calls followed by one terminal call with the ending's reward.
   */
  predicate Settled(log: seq<UpdateCall>, ending: Ending, b: Board)
    requires IsGrid(b)
  {
    if ending == OutOfInput then
      Interim(log, |log|)
    else
      |log| > 0 && Interim(log, |log| - 1) && log[|log| - 1].next == None &&
      log[|log| - 1].nextAction == None && Concludes(b, ending, log[|log| - 1].reward)
  }

  /** A call for choice `n` that bootstraps off the first call of an episode's rest extends the episode. */
  lemma EpisodePrepend(c: UpdateCall, log: seq<UpdateCall>, choices: seq<Action>, n: nat)
    requires Episode(log, choices, n + 1)
    requires c.action == choices[n] && |c.state| == 16
    requires log != [] ==> c.next == Some(log[0].state) && c.nextAction == Some(log[0].action)
    ensures Episode([c] + log, choices, n)
  {
    var l := [c] + log;
    forall k | 0 <= k < |l| - 1
      ensures l[k].next == Some(l[k + 1].state) && l[k].nextAction == Some(l[k + 1].action)
    {
      if 0 < k {
        assert l[k] == log[k - 1] && l[k + 1] == log[k];
      }
    }
  }

  /** A non-terminal reward-0 call in front of calls that end as `ending` says still ends that way. */
  lemma SettledPrepend(c: UpdateCall, log: seq<UpdateCall>, ending: Ending, b: Board)
    requires IsGrid(b) && Settled(log, ending, b)
    requires c.reward == 0 && c.next.Some? && c.nextAction.Some?
    ensures Settled([c] + log, ending, b)
  {
    var l := [c] + log;
    forall k | 0 <= k < |log| ensures l[k + 1] == log[k] {
    }
    if ending != OutOfInput {
      assert l[|l| - 1] == log[|log| - 1];
    }
  }

  /**
   * The loop's calls form an episode from choice `n` on, the first made in the key of the
   * starting board, and they end as the final board says.
   */
  lemma {:induction false} RoundsEpisode(b: Board, attempts: seq<(int, int)>, from: nat, choices: seq<Action>, n: nat)
    requires IsGrid(b) && from <= |attempts| && n < |choices|
    requires forall k :: 0 <= k < |choices| ==> IsAction(choices[k])
    ensures Episode(Rounds(b, attempts, from, choices, n).log, choices, n)
    ensures Rounds(b, attempts, from, choices, n).log != [] ==>
      Rounds(b, attempts, from, choices, n).log[0].state == GetStateKey(b)
    ensures Settled(Rounds(b, attempts, from, choices, n).log, Rounds(b, attempts, from, choices, n).ending,
      Rounds(b, attempts, from, choices, n).board)
    decreases |choices| - n
  {
    var t := Step(b, choices[n], attempts, from);
    StepEnds(b, choices[n], attempts, from);
    if t.outcome.Continues? && n + 1 < |choices| {
      RoundsEpisode(t.board, attempts, t.next, choices, n + 1);
      var rest := Rounds(t.board, attempts, t.next, choices, n + 1);
      var call := UpdateCall(GetStateKey(b), Some(GetStateKey(t.board)), choices[n], Some(choices[n + 1]), 0);
      EpisodePrepend(call, rest.log, choices, n);
      SettledPrepend(call, rest.log, rest.ending, rest.board);
    }
  }

  /**
   * A whole game's calls use the agent's choices in order, the first in the key of the board
   * the agent first moves on (after the player's first acceptable move when it goes first),
   * and they end as the final board says.
   */
  lemma PlayEpisode(b: Board, playerFirst: bool, attempts: seq<(int, int)>, choices: seq<Action>)
    requires IsGrid(b)
    requires forall k :: 0 <= k < |choices| ==> IsAction(choices[k])
    ensures Episode(Play(b, playerFirst, attempts, choices).log, choices, 0)
    ensures Settled(Play(b, playerFirst, attempts, choices).log, Play(b, playerFirst, attempts, choices).ending,
      Play(b, playerFirst, attempts, choices).board)
    ensures !playerFirst && Play(b, playerFirst, attempts, choices).log != [] ==>
      Play(b, playerFirst, attempts, choices).log[0].state == GetStateKey(b)
    ensures playerFirst && Play(b, playerFirst, attempts, choices).log != [] ==>
      var k := FirstAcceptable(b, attempts, 0);
      k < |attempts| && Play(b, playerFirst, attempts, choices).log[0].state ==
        GetStateKey(Place(b, attempts[k].0, attempts[k].1, 'X'))
  {
    var k := if playerFirst then FirstAcceptable(b, attempts, 0) else 0;
    if !(playerFirst && k == |attempts|) && |choices| > 0 {
      var start := if playerFirst then Place(b, attempts[k].0, attempts[k].1, 'X') else b;
      RoundsEpisode(start, attempts, if playerFirst then k + 1 else 0, choices, 0);
    }
  }

  /** After the opening, `playGame` is the loop run from the board the agent first moves on. */
  lemma PlayOpens(b: Board, playerFirst: bool, attempts: seq<(int, int)>, choices: seq<Action>, start: Board, from: nat)
    requires IsGrid(b) && IsGrid(start) && from <= |attempts|
    requires forall k :: 0 <= k < |choices| ==> IsAction(choices[k])
    requires !playerFirst ==> start == b && from == 0
    requires playerFirst ==> var k := FirstAcceptable(b, attempts, 0);
      k < |attempts| && start == Place(b, attempts[k].0, attempts[k].1, 'X') && from == k + 1
    ensures Play(b, playerFirst, attempts, choices) ==
      if |choices| == 0 then Played([], OutOfInput, start) else Rounds(start, attempts, from, choices, 0)
  {
  }

  /** Sequence concatenation regrouped, for the step of `PlayRounds` that appends one call to the log. */
  lemma Reassociate<T>(a: seq<T>, b: seq<T>, c: seq<T>)
    ensures a + (b + c) == (a + b) + c
  {
  }

  class Game {
    var board: Board

    ghost predicate Valid()
      reads this
    {
      IsGrid(board)
    }

    /** `Game.__init__`: a fresh game starts on an empty board. */
    constructor ()
      ensures Valid()
      ensures forall i, j :: 0 <= i < 4 && 0 <= j < 4 ==> board[i][j] == '-'
    {
      board := ["----", "----", "----", "----"];
    }

    /** `agentMove`: writes `'O'` at the action's cell and nowhere else. */
    method AgentMove(action: Action)
      requires Valid() && IsAction(action)
      modifies this
      ensures Valid()
      ensures board == Place(old(board), action.row, action.col, 'O')
    {
      board := board[action.row := board[action.row][action.col := 'O']];
    }

    /** The checked write of `playerMove`: an acceptable move writes `'X'` there; any other leaves the board alone. */
    method PlayerMove(row: int, col: int) returns (accepted: bool)
      requires Valid()
      modifies this
      ensures Valid()
      ensures accepted == Acceptable(old(board), row, col)
      ensures board == if accepted then Place(old(board), row, col, 'X') else old(board)
    {
      if row < 0 || row >= 4 || col < 0 || col >= 4 || board[row][col] != '-' {
        return false;
      }
      board := board[row := board[row][col := 'X']];
      accepted := true;
    }

    /**
     * The player's turn: attempts from index `from` on are tried until one is acceptable,
     * each rejected one being asked again. `next` is the index after the last attempt read.
     */
    method PlayerTurn(attempts: seq<(int, int)>, from: nat) returns (placed: bool, next: nat)
      requires Valid() && from <= |attempts|
      modifies this
      ensures Valid()
      ensures from <= next <= |attempts|
      ensures placed ==> from < next
      ensures forall k :: from <= k < (if placed then next - 1 else next) ==>
        !Acceptable(old(board), attempts[k].0, attempts[k].1)
      ensures placed ==> (Acceptable(old(board), attempts[next - 1].0, attempts[next - 1].1) &&
        board == Place(old(board), attempts[next - 1].0, attempts[next - 1].1, 'X'))
      ensures !placed ==> next == |attempts| && board == old(board)
      ensures placed <==> FirstAcceptable(old(board), attempts, from) < |attempts|
      ensures placed ==> next == FirstAcceptable(old(board), attempts, from) + 1
    {
      next, placed := from, false;
      while next < |attempts| && !placed
        invariant Valid()
        invariant from <= next <= |attempts|
        invariant placed ==> from < next
        invariant forall k :: from <= k < (if placed then next - 1 else next) ==>
          !Acceptable(old(board), attempts[k].0, attempts[k].1)
        invariant placed ==> (Acceptable(old(board), attempts[next - 1].0, attempts[next - 1].1) &&
          board == Place(old(board), attempts[next - 1].0, attempts[next - 1].1, 'X'))
        invariant !placed ==> board == old(board)
      {
        placed := PlayerMove(attempts[next].0, attempts[next].1);
        next := next + 1;
      }
    }

    /**
     * One pass of the `playGame` loop body up to the point where the next action is needed:
     * the agent moves, and unless that ends the game the player answers. `Stalled` when the
     * attempts run out before an acceptable one.
     */
    method Round(action: Action, attempts: seq<(int, int)>, from: nat) returns (outcome: Outcome, next: nat)
      requires Valid() && IsAction(action) && from <= |attempts|
      modifies this
      ensures Valid()
      ensures Turn(outcome, board, next) == Step(old(board), action, attempts, from)
    {
      next := from;
      AgentMove(action);
      var check := CheckForEnd(board, 'O');
      if check != -1 {
        return Over(if check == 1 then AgentWon else AgentDrew, check), next;
      }
      ghost var agent := board;
      ghost var k := FirstAcceptable(agent, attempts, from);
      var placed;
      placed, next := PlayerTurn(attempts, from);
      if !placed {
        assert k == |attempts|;
        return Stalled, next;
      }
      assert next == k + 1 && board == Place(agent, attempts[k].0, attempts[k].1, 'X');
      check := CheckForEnd(board, 'X');
      if check != -1 {
        return Over(if check == 1 then PlayerWon else PlayerDrew, -1 * check), next;
      }
      outcome := Continues;
    }

    /**
     * `playGame`: the agent moves with `choices[0]`, `choices[1]`, ... and the player answers
     * with attempts in turn. The calls, the ending and the final board are those of `Play`, and
     * so they form an episode that ends as the final board says.
     */
    method PlayGame(playerFirst: bool, attempts: seq<(int, int)>, choices: seq<Action>)
      returns (log: seq<UpdateCall>, ending: Ending)
      requires Valid()
      requires forall k :: 0 <= k < |choices| ==> IsAction(choices[k])
      modifies this
      ensures Valid()
      ensures Played(log, ending, board) == Play(old(board), playerFirst, attempts, choices)
      ensures Episode(log, choices, 0) && Settled(log, ending, board)
    {
      PlayEpisode(board, playerFirst, attempts, choices);
      var read := 0;
      if playerFirst {
        ghost var k := FirstAcceptable(board, attempts, 0);
        var placed;
        placed, read := PlayerTurn(attempts, read);
        if !placed {
          return [], OutOfInput;
        }
        assert read == k + 1 && board == Place(old(board), attempts[k].0, attempts[k].1, 'X');
      }
      PlayOpens(old(board), playerFirst, attempts, choices, board, read);
      if |choices| == 0 {
        return [], OutOfInput;
      }
      log, ending := PlayRounds(attempts, read, choices);
    }

    /** The `while True` loop of `playGame`, entered with the agent to move and its first choice `choices[0]`. */
    method PlayRounds(attempts: seq<(int, int)>, from: nat, choices: seq<Action>)
      returns (log: seq<UpdateCall>, ending: Ending)
      requires Valid() && from <= |attempts| && |choices| > 0
      requires forall k :: 0 <= k < |choices| ==> IsAction(choices[k])
      modifies this
      ensures Valid()
      ensures Played(log, ending, board) == Rounds(old(board), attempts, from, choices, 0)
    {
      log := [];
      var read: nat := from;
      var prevState := GetStateKey(board);
      var prevAction := choices[0];
      var n := 0;
      while true
        invariant Valid() && read <= |attempts| && n < |choices|
        invariant prevAction == choices[n] && prevState == GetStateKey(board)
        invariant Rounds(old(board), attempts, from, choices, 0) ==
          var rest := Rounds(board, attempts, read, choices, n);
          Played(log + rest.log, rest.ending, rest.board)
        decreases |choices| - n
      {
        ghost var before, at := board, read;
        var outcome;
        outcome, read := Round(prevAction, attempts, read);
        if outcome.Over? {
          log := log + [UpdateCall(prevState, None, prevAction, None, outcome.reward)];
          return log, outcome.ending;
        }
        if outcome.Stalled? || n + 1 == |choices| {
          return log, OutOfInput;
        }
        var newState := GetStateKey(board);
        var newAction := choices[n + 1];
        var call := UpdateCall(prevState, Some(newState), prevAction, Some(newAction), 0);
        ghost var rest := Rounds(board, attempts, read, choices, n + 1);
        assert Rounds(before, attempts, at, choices, n) == Played([call] + rest.log, rest.ending, rest.board);
        Reassociate(log, [call], rest.log);
        log := log + [call];
        n := n + 1;
        prevState, prevAction := newState, newAction;
      }
    }
  }
}
