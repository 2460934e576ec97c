/**
 * The 4×4 board as both the game and the teacher keep it: a list of four rows, each a list
 * of four one-character cells. The helpers here are the list operations the source applies
 * to rows and lines (`list.count`, `list.index`, column and diagonal comprehensions, and the
 * row-major `join`).
 */
module Grids {

  type Board = seq<seq<char>>

  /** Four rows of four cells. */
  predicate IsGrid(b: Board)
  {
    |b| == 4 && forall i :: 0 <= i < 4 ==> |b[i]| == 4
  }

  /** Python's `list.count(x)`. */
  function Count<T(==)>(s: seq<T>, x: T): (n: nat)
    ensures n <= |s|
  {
    if s == [] then 0 else (if s[0] == x then 1 else 0) + Count(s[1..], x)
  }

  /** The count is zero exactly when `x` is absent, and the full length exactly when every element is `x`. */
  lemma {:induction false} CountExtremes<T>(s: seq<T>, x: T)
    ensures Count(s, x) == 0 <==> x !in s
    ensures Count(s, x) == |s| <==> forall k :: 0 <= k < |s| ==> s[k] == x
  {
    if s != [] {
      CountExtremes(s[1..], x);
      assert forall y :: y in s <==> y == s[0] || y in s[1..];
      assert (forall k :: 0 <= k < |s| ==> s[k] == x) <==> s[0] == x && forall k :: 0 <= k < |s[1..]| ==> s[1..][k] == x;
    }
  }

  /** Python's `list.index(x)`: the position of the first occurrence (the source never calls it on a list without `x`). */
  function IndexOf<T(==)>(s: seq<T>, x: T): (k: nat)
    requires x in s
    ensures k < |s| && s[k] == x
    ensures forall j :: 0 <= j < k ==> s[j] != x
  {
    if s[0] == x then 0 else 1 + IndexOf(s[1..], x)
  }

  /** Column `i`: cell `i` of each row, from the top row down (game.py:49, teacher.py:39). */
  function Column(b: Board, i: int): (c: seq<char>)
    requires IsGrid(b) && 0 <= i < 4
  {
    [b[0][i], b[1][i], b[2][i], b[3][i]]
  }

  /** The main diagonal: cell `i` of row `i`, from the top left (game.py:43, teacher.py:43). */
  function Diagonal(b: Board): (d: seq<char>)
    requires IsGrid(b)
  {
    [b[0][0], b[1][1], b[2][2], b[3][3]]
  }

  /** The anti-diagonal: cell `3 - i` of row `i`, from the top right (game.py:44, teacher.py:47). */
  function AntiDiagonal(b: Board): (d: seq<char>)
    requires IsGrid(b)
  {
    [b[0][3], b[1][2], b[2][1], b[3][0]]
  }

  /** Concatenation of the rows in order, as `''.join(...)` and a nested comprehension produce. */
  function Flatten<T>(rows: seq<seq<T>>): (r: seq<T>)
    ensures (forall k :: 0 <= k < |rows| ==> |rows[k]| == 4) ==> |r| == 4 * |rows|
  {
    if rows == [] then [] else rows[0] + Flatten(rows[1..])
  }

  /** Cell `j` of row `i` lands at position `4 * i + j` of the flattened rows. */
  lemma {:induction false} FlattenAt<T>(rows: seq<seq<T>>, i: int, j: int)
    requires forall k :: 0 <= k < |rows| ==> |rows[k]| == 4
    requires 0 <= i < |rows| && 0 <= j < 4
    ensures 4 * i + j < |Flatten(rows)| && Flatten(rows)[4 * i + j] == rows[i][j]
  {
    if i > 0 {
      FlattenAt(rows[1..], i - 1, j);
    }
  }
}
