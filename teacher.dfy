/**
 * The heuristic opponent of tictactoe/teacher.py. It plays on its own board encoding, in
 * which an empty cell is `' '`, and replies with a flat cell index, a row index, nothing, or
 * an exception (the row branch of `find_winning_move` calls `list.index` on a list of rows
 * with an integer that is never one of them).
 *
 * `random.random()` and the choice of `random.choice` are parameters: `draw` is the value
 * drawn, and `pick` selects the candidate `pick % n` out of `n`.
 */
module Teachers {
  import opened Grids

  /** What a teacher rule produces: Python's `None`, an integer, or a raised `ValueError`. */
  datatype Reply = NoMove | Move(n: int) | Raised

  /** Python truthiness of a rule's result: `None` and `0` are false. */
  predicate Truthy(r: Reply)
  {
    r.Move? && r.n != 0
  }

  /** Row `i` holds three `key` and one blank. */
  predicate RowThreat(b: Board, key: char, i: int)
    requires IsGrid(b) && 0 <= i < 4
  {
    Count(b[i], key) == 3 && Count(b[i], ' ') == 1
  }

  /** Column `i` holds three `key` and one blank. */
  predicate ColumnThreat(b: Board, key: char, i: int)
    requires IsGrid(b) && 0 <= i < 4
  {
    Count(Column(b, i), key) == 3 && Count(Column(b, i), ' ') == 1
  }

  /** Neither row `m` nor column `m` is a threat for any `m` in `[i, j)`. */
  predicate NoThreatBetween(b: Board, key: char, i: int, j: int)
    requires IsGrid(b) && 0 <= i <= j <= 4
  {
    forall m :: i <= m < j ==> !RowThreat(b, key, m) && !ColumnThreat(b, key, m)
  }

  /** Every element of `s` is `key`, as `all(... == key ...)` tests it. */
  predicate AllOf(s: seq<char>, key: char)
  {
    forall q :: 0 <= q < |s| ==> s[q] == key
  }

  /** The diagonal part of `find_winning_move`: a diagonal made entirely of `key` yields its first blank cell, if any. */
  function DiagonalScan(b: Board, key: char): (r: Reply)
    requires IsGrid(b)
    ensures r.Move? ==> 0 <= r.n < 16 && b[r.n / 4][r.n % 4] == ' '
  {
    if AllOf(Diagonal(b), key) && ' ' in Diagonal(b) then
      var k := IndexOf(Diagonal(b), ' ');
      assert b[k][k] == Diagonal(b)[k];
      Move(k * 4 + k)
    else if AllOf(AntiDiagonal(b), key) && ' ' in AntiDiagonal(b) then
      var k := IndexOf(AntiDiagonal(b), ' ');
      assert b[k][3 - k] == AntiDiagonal(b)[k];
      Move(k * 4 + (3 - k))
    else
      NoMove
  }

  /** For a key other than a blank, a diagonal all of `key` has no blank, so the diagonal part never yields a move. */
  lemma NoDiagonalMove(b: Board, key: char)
    requires IsGrid(b) && key != ' '
    ensures DiagonalScan(b, key) == NoMove
  {
  }

  /**
   * `find_winning_move` from line/column index `i` on: the first index whose row or column is a
   * threat decides (a row raises, a column yields its blank cell), and with no threat left the
   * diagonals decide.
   */
  function ScanFrom(b: Board, key: char, i: int): (r: Reply)
    requires IsGrid(b) && 0 <= i <= 4
    decreases 4 - i
    ensures r.Move? ==> 0 <= r.n < 16 && b[r.n / 4][r.n % 4] == ' '
  {
    if i == 4 then DiagonalScan(b, key)
    else if RowThreat(b, key, i) then Raised
    else if ColumnThreat(b, key, i) then
      CountExtremes(Column(b, i), ' ');
      var k := IndexOf(Column(b, i), ' ');
      assert b[k][i] == Column(b, i)[k];
      Move(k * 4 + i)
    else
      ScanFrom(b, key, i + 1)
  }

  /** The first threatening index `j` at or after `i` decides the scan: a row threat raises, a column threat yields the column's blank cell. */
  lemma {:induction false} FirstThreatDecides(b: Board, key: char, i: int, j: int)
    requires IsGrid(b) && 0 <= i <= j < 4 && NoThreatBetween(b, key, i, j)
    requires RowThreat(b, key, j) || ColumnThreat(b, key, j)
    ensures RowThreat(b, key, j) ==> ScanFrom(b, key, i) == Raised
    ensures !RowThreat(b, key, j) ==> ' ' in Column(b, j) && ScanFrom(b, key, i) == Move(IndexOf(Column(b, j), ' ') * 4 + j)
    decreases j - i
  {
    CountExtremes(Column(b, j), ' ');
    if i < j {
      assert !RowThreat(b, key, i) && !ColumnThreat(b, key, i);
      FirstThreatDecides(b, key, i + 1, j);
    }
  }

  /** With no threatening row or column at or after `i`, the diagonals decide the scan. */
  lemma {:induction false} NoThreatDiagonals(b: Board, key: char, i: int)
    requires IsGrid(b) && 0 <= i <= 4 && NoThreatBetween(b, key, i, 4)
    ensures ScanFrom(b, key, i) == DiagonalScan(b, key)
    decreases 4 - i
  {
    if i < 4 {
      assert !RowThreat(b, key, i) && !ColumnThreat(b, key, i);
      NoThreatDiagonals(b, key, i + 1);
    }
  }

  /** `find_winning_move(board, key)` for a key other than a blank: a raise exactly when the first threat is a row, a move exactly when it is a column, nothing exactly when there is no threat. */
  lemma {:induction false} WinningMoveCases(b: Board, key: char)
    requires IsGrid(b) && key != ' '
    ensures ScanFrom(b, key, 0) == NoMove <==> NoThreatBetween(b, key, 0, 4)
    ensures ScanFrom(b, key, 0).Raised? <==>
      exists j :: 0 <= j < 4 && NoThreatBetween(b, key, 0, j) && RowThreat(b, key, j)
    ensures ScanFrom(b, key, 0).Move? <==>
      exists j :: 0 <= j < 4 && NoThreatBetween(b, key, 0, j) && !RowThreat(b, key, j) && ColumnThreat(b, key, j)
  {
    NoDiagonalMove(b, key);
    if NoThreatBetween(b, key, 0, 4) {
      NoThreatDiagonals(b, key, 0);
    } else {
      var j := FirstThreat(b, key);
      FirstThreatDecides(b, key, 0, j);
    }
  }

  /** The first index whose row or column is a threat, when some is. */
  lemma FirstThreat(b: Board, key: char) returns (j: int)
    requires IsGrid(b) && !NoThreatBetween(b, key, 0, 4)
    ensures 0 <= j < 4 && NoThreatBetween(b, key, 0, j)
    ensures RowThreat(b, key, j) || ColumnThreat(b, key, j)
  {
    j := 0;
    while NoThreatBetween(b, key, 0, j + 1)
      invariant 0 <= j < 4 && NoThreatBetween(b, key, 0, j)
      decreases 4 - j
    {
      j := j + 1;
    }
  }

  /** Row `m` holds two `mark` and two blanks, as `fork` and `block_fork` test it. */
  predicate ForkRow(b: Board, mark: char, m: int)
    requires IsGrid(b) && 0 <= m < 4
  {
    Count(b[m], mark) == 2 && Count(b[m], ' ') == 2
  }

  /** The row scan of `fork`/`block_fork` from row `i` on: the first qualifying row index, or nothing. */
  function ScanRows(b: Board, mark: char, i: int): (r: Reply)
    requires IsGrid(b) && 0 <= i <= 4
    decreases 4 - i
    ensures !r.Raised?
    ensures r.Move? ==> i <= r.n < 4 && ForkRow(b, mark, r.n) && forall m :: i <= m < r.n ==> !ForkRow(b, mark, m)
    ensures r.NoMove? <==> forall m :: i <= m < 4 ==> !ForkRow(b, mark, m)
  {
    if i == 4 then NoMove
    else if ForkRow(b, mark, i) then Move(i)
    else ScanRows(b, mark, i + 1)
  }

  /**
   * Python's `board[i] == ' '` in `random_move`: a row of the board is a list of cells, and a
   * list never equals a string, whatever it holds. In this model rows and strings share the type
   * `seq<char>`, so the comparison is written out instead of being Dafny's `==`.
   */
  predicate RowEqualsBlank(row: seq<char>)
  {
    false
  }

  /** The indices from `i` on whose row compares equal to `' '` (teacher.py:73). */
  function Blanks(b: Board, i: nat): (r: seq<int>)
    requires i <= |b|
    decreases |b| - i
    ensures forall k :: 0 <= k < |r| ==> i <= r[k] < |b|
  {
    if i == |b| then [] else (if RowEqualsBlank(b[i]) then [i] else []) + Blanks(b, i + 1)
  }

  /** An index from `i` on is listed exactly when its row compares equal to `' '`. */
  lemma {:induction false} BlanksExactly(b: Board, i: nat)
    requires i <= |b|
    ensures forall j :: j in Blanks(b, i) <==> i <= j < |b| && RowEqualsBlank(b[j])
    decreases |b| - i
  {
    if i < |b| {
      BlanksExactly(b, i + 1);
    }
  }

  /** `random_move`: a choice among the blank indices, or nothing when there is none. */
  function RandomMove(b: Board, pick: nat): (r: Reply)
    ensures r.Move? ==> r.n in Blanks(b, 0)
    ensures r.NoMove? <==> Blanks(b, 0) == []
  {
    var available := Blanks(b, 0);
    if available == [] then NoMove else Move(available[pick % |available|])
  }

  /** On any board `random_move` finds no move, since no row compares equal to `' '`. */
  lemma RandomMoveNone(b: Board, pick: nat)
    ensures RandomMove(b, pick) == NoMove
  {
    NoBlankRows(b, 0);
  }

  /** No index of any board is listed as blank. */
  lemma {:induction false} NoBlankRows(b: Board, i: nat)
    requires i <= |b|
    ensures Blanks(b, i) == []
    decreases |b| - i
  {
    if i < |b| {
      NoBlankRows(b, i + 1);
    }
  }

  /** The decision of `make_move` for a given `ability_level`, draw and random choice. */
  function Decision(b: Board, ability: real, draw: real, pick: nat): Reply
    requires IsGrid(b)
  {
    if draw > ability then RandomMove(b, pick)
    else
      var w := ScanFrom(b, 'X', 0);
      if w.Raised? then Raised else if Truthy(w) then w
      else
        var bw := ScanFrom(b, 'O', 0);
        if bw.Raised? then Raised else if Truthy(bw) then bw
        else
          var f := ScanRows(b, 'X', 0);
          if Truthy(f) then f
          else
            var bf := ScanRows(b, 'O', 0);
            if Truthy(bf) then bf else RandomMove(b, pick)
  }

  /** A draw above the ability level leaves the decision to `random_move`, which on a 4×4 board yields nothing. */
  lemma RandomAboveAbility(b: Board, ability: real, draw: real, pick: nat)
    requires IsGrid(b) && draw > ability
    ensures Decision(b, ability, draw, pick) == NoMove
  {
    RandomMoveNone(b, pick);
  }

  /**
   * What a move of `make_move` can be: a cell from a winning or blocking rule (1..15, blank)
   * or a row from a fork rule (1..3). A move at index 0 never comes out; its rule falls through.
   */
  lemma DecisionRange(b: Board, ability: real, draw: real, pick: nat)
    requires IsGrid(b)
    ensures var r := Decision(b, ability, draw, pick);
      r.Move? ==> 1 <= r.n < 16 && (b[r.n / 4][r.n % 4] == ' ' || (r.n < 4 && (ForkRow(b, 'X', r.n) || ForkRow(b, 'O', r.n))))
  {
    RandomMoveNone(b, pick);
  }

  /** When the teacher consults its rules, the first 'X' threat decides first: a row raises, a column at a nonzero cell is taken. */
  lemma WinTakesPriority(b: Board, ability: real, draw: real, pick: nat, j: int)
    requires IsGrid(b) && draw <= ability && 0 <= j < 4 && NoThreatBetween(b, 'X', 0, j)
    ensures RowThreat(b, 'X', j) ==> Decision(b, ability, draw, pick) == Raised
    ensures !RowThreat(b, 'X', j) && ColumnThreat(b, 'X', j) && ScanFrom(b, 'X', 0) != Move(0) ==>
      Decision(b, ability, draw, pick) == ScanFrom(b, 'X', 0) &&
      ScanFrom(b, 'X', 0) == Move(IndexOf(Column(b, j), ' ') * 4 + j)
  {
    if RowThreat(b, 'X', j) || ColumnThreat(b, 'X', j) {
      FirstThreatDecides(b, 'X', 0, j);
    }
  }

  /** With no threat for either mark and no fork row, the teacher's rules yield nothing at all. */
  lemma NothingWithoutThreats(b: Board, ability: real, draw: real, pick: nat)
    requires IsGrid(b)
    requires NoThreatBetween(b, 'X', 0, 4) && NoThreatBetween(b, 'O', 0, 4)
    requires forall m :: 0 <= m < 4 ==> !ForkRow(b, 'X', m) && !ForkRow(b, 'O', m)
    ensures Decision(b, ability, draw, pick) == NoMove
  {
    NoDiagonalMove(b, 'X');
    NoDiagonalMove(b, 'O');
    RandomMoveNone(b, pick);
  }

  /** The count of `x` in four cells, cell by cell. */
  lemma CountOfFour(s: seq<char>, x: char)
    requires |s| == 4
    ensures Count(s, x) == (if s[0] == x then 1 else 0) + (if s[1] == x then 1 else 0) +
      (if s[2] == x then 1 else 0) + (if s[3] == x then 1 else 0)
  {
    var s1 := s[1..];
    var s2 := s1[1..];
    var s3 := s2[1..];
    assert s3[1..] == [];
    assert s1[0] == s[1] && s2[0] == s[2] && s3[0] == s[3];
    assert Count(s3, x) == if s[3] == x then 1 else 0;
    assert Count(s2, x) == (if s[2] == x then 1 else 0) + Count(s3, x);
    assert Count(s1, x) == (if s[1] == x then 1 else 0) + Count(s2, x);
  }

  /** The board of `WinAtCellZeroIgnored`. */
  function ZeroWinBoard(): (b: Board)
    ensures IsGrid(b)
  {
    [[' ', 'O', 'X', 'O'], ['X', 'O', 'X', 'O'], ['X', 'X', 'O', 'O'], ['X', 'O', 'O', 'X']]
  }

  /** On `ZeroWinBoard`, row 0 is no threat for 'X' but column 0 is, with its blank at the top. */
  lemma ZeroWinThreat()
    ensures !RowThreat(ZeroWinBoard(), 'X', 0) && ColumnThreat(ZeroWinBoard(), 'X', 0)
    ensures IndexOf(Column(ZeroWinBoard(), 0), ' ') == 0
  {
    var b := ZeroWinBoard();
    CountOfFour(b[0], 'X');
    CountOfFour(Column(b, 0), 'X');
    CountOfFour(Column(b, 0), ' ');
  }

  /** On `ZeroWinBoard`, 'X' completes column 0 at cell 0, and the scan finds exactly that. */
  lemma ZeroWinScan()
    ensures ColumnThreat(ZeroWinBoard(), 'X', 0) && ScanFrom(ZeroWinBoard(), 'X', 0) == Move(0)
  {
    ZeroWinThreat();
    FirstThreatDecides(ZeroWinBoard(), 'X', 0, 0);
  }

  /** No row of `ZeroWinBoard` is a threat for 'O' or a fork row for either mark. */
  lemma ZeroWinRowsQuiet(m: int)
    requires 0 <= m < 4
    ensures !RowThreat(ZeroWinBoard(), 'O', m) && !ForkRow(ZeroWinBoard(), 'X', m) && !ForkRow(ZeroWinBoard(), 'O', m)
  {
    var b := ZeroWinBoard();
    CountOfFour(b[m], 'O');
    CountOfFour(b[m], 'X');
    CountOfFour(b[m], ' ');
  }

  /** No column of `ZeroWinBoard` is a threat for 'O'. */
  lemma ZeroWinColumnsQuiet(m: int)
    requires 0 <= m < 4
    ensures !ColumnThreat(ZeroWinBoard(), 'O', m)
  {
    var b := ZeroWinBoard();
    CountOfFour(Column(b, m), 'O');
    CountOfFour(Column(b, m), ' ');
  }

  /** On `ZeroWinBoard`, 'O' has no threat and neither mark has a fork row. */
  lemma ZeroWinQuiet()
    ensures NoThreatBetween(ZeroWinBoard(), 'O', 0, 4)
    ensures forall m :: 0 <= m < 4 ==> !ForkRow(ZeroWinBoard(), 'X', m) && !ForkRow(ZeroWinBoard(), 'O', m)
  {
    forall m | 0 <= m < 4
      ensures !RowThreat(ZeroWinBoard(), 'O', m) && !ColumnThreat(ZeroWinBoard(), 'O', m)
      ensures !ForkRow(ZeroWinBoard(), 'X', m) && !ForkRow(ZeroWinBoard(), 'O', m)
    {
      ZeroWinRowsQuiet(m);
      ZeroWinColumnsQuiet(m);
    }
  }

  /** A board where 'X' wins by filling cell 0 (column 0), yet the teacher returns nothing: the move 0 is falsy. */
  lemma WinAtCellZeroIgnored(ability: real, draw: real, pick: nat)
    requires draw <= ability
    ensures ColumnThreat(ZeroWinBoard(), 'X', 0) && ScanFrom(ZeroWinBoard(), 'X', 0) == Move(0)
    ensures Decision(ZeroWinBoard(), ability, draw, pick) == NoMove
  {
    var b := ZeroWinBoard();
    ZeroWinScan();
    ZeroWinQuiet();
    NoThreatDiagonals(b, 'O', 0);
    NoDiagonalMove(b, 'O');
    RandomMoveNone(b, pick);
  }

  class Teacher {
    var abilityLevel: real
    var memory: seq<int>

    /** `learn` keeps at most a hundred outcomes. */
    ghost predicate Valid()
      reads this
    {
      |memory| <= 100
    }

    /** `Teacher(ability_level=0.5)`: the given ability and an empty memory. */
    constructor (abilityLevel: real := 0.5)
      ensures Valid()
      ensures this.abilityLevel == abilityLevel && memory == []
    {
      this.abilityLevel := abilityLevel;
      memory := [];
    }

    /** `find_winning_move`: rows and columns by ascending index, then the two diagonals. */
    method FindWinningMove(b: Board, key: char) returns (r: Reply)
      requires IsGrid(b)
      ensures r == ScanFrom(b, key, 0)
    {
      for i := 0 to 4
        invariant ScanFrom(b, key, 0) == ScanFrom(b, key, i)
      {
        if RowThreat(b, key, i) {
          return Raised;
        }
        if ColumnThreat(b, key, i) {
          var column := Column(b, i);
          return Move(IndexOf(column, ' ') * 4 + i);
        }
      }
      r := DiagonalMove(b, key);
    }

    /** The two diagonal loops at the end of `find_winning_move`. */
    method DiagonalMove(b: Board, key: char) returns (r: Reply)
      requires IsGrid(b)
      ensures r == DiagonalScan(b, key)
    {
      if AllOf(Diagonal(b), key) {
        for i := 0 to 4
          invariant forall q :: 0 <= q < i ==> Diagonal(b)[q] != ' '
        {
          if b[i][i] == ' ' {
            return Move(i * 4 + i);
          }
        }
      }
      if AllOf(AntiDiagonal(b), key) {
        for i := 0 to 4
          invariant forall q :: 0 <= q < i ==> AntiDiagonal(b)[q] != ' '
        {
          if b[i][3 - i] == ' ' {
            return Move(i * 4 + (3 - i));
          }
        }
      }
      return NoMove;
    }

    /** `win`: the teacher's own winning move. */
    method Win(b: Board, key: char) returns (r: Reply)
      requires IsGrid(b)
      ensures r == ScanFrom(b, key, 0)
    {
      r := FindWinningMove(b, key);
    }

    /** `block_win`: the cell that completes a line of `'O'`. */
    method BlockWin(b: Board) returns (r: Reply)
      requires IsGrid(b)
      ensures r == ScanFrom(b, 'O', 0)
    {
      r := FindWinningMove(b, 'O');
    }

    /** `fork`: the first row with two `'X'` and two blanks. */
    method Fork(b: Board) returns (r: Reply)
      requires IsGrid(b)
      ensures r == ScanRows(b, 'X', 0)
    {
      for i := 0 to 4
        invariant ScanRows(b, 'X', 0) == ScanRows(b, 'X', i)
      {
        if Count(b[i], 'X') == 2 && Count(b[i], ' ') == 2 {
          return Move(i);
        }
      }
      return NoMove;
    }

    /** `block_fork`: the first row with two `'O'` and two blanks. */
    method BlockFork(b: Board) returns (r: Reply)
      requires IsGrid(b)
      ensures r == ScanRows(b, 'O', 0)
    {
      for i := 0 to 4
        invariant ScanRows(b, 'O', 0) == ScanRows(b, 'O', i)
      {
        if Count(b[i], 'O') == 2 && Count(b[i], ' ') == 2 {
          return Move(i);
        }
      }
      return NoMove;
    }

    /** `make_move`: the rules in order, each used only when its result is truthy, an exception cutting the cascade short. */
    method MakeMove(b: Board, draw: real, pick: nat) returns (r: Reply)
      requires IsGrid(b)
      ensures r == Decision(b, abilityLevel, draw, pick)
    {
      if draw > abilityLevel {
        return RandomMove(b, pick);
      }
      var w := Win(b, 'X');
      if w.Raised? {
        return Raised;
      }
      if Truthy(w) {
        r := FindWinningMove(b, 'X');
        return;
      }
      var bw := BlockWin(b);
      if bw.Raised? {
        return Raised;
      }
      if Truthy(bw) {
        r := BlockWin(b);
        return;
      }
      var f := Fork(b);
      if Truthy(f) {
        r := Fork(b);
        return;
      }
      var bf := BlockFork(b);
      if Truthy(bf) {
        r := BlockFork(b);
        return;
      }
      r := RandomMove(b, pick);
    }

    /** `learn`: the outcome becomes the newest entry, the oldest is forgotten beyond a hundred, and the ability stays. */
    method Learn(outcome: int)
      requires Valid()
      modifies this`memory
      ensures Valid()
      ensures memory == if |old(memory)| == 100 then old(memory)[1..] + [outcome] else old(memory) + [outcome]
    {
      memory := memory + [outcome];
      if |memory| > 100 {
        memory := memory[1..];
      }
    }
  }
}
