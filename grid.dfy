/**
 * The payoff grid of a two-player normal-form game and its annotated copy,
 * in which best-response cells carry the tag 'H' in place of a number.
 */
module Grid {

  /** One cell of the grid: (player 1's payoff, player 2's payoff). */
  datatype Payoff = Payoff(u1: int, u2: int)

  /** Rows are player 1's strategies A1.., columns player 2's strategies B1... */
  type Matrix = seq<seq<Payoff>>

  /** A coordinate as the source writes it: (column index, row index). */
  datatype Coord = Coord(col: nat, row: nat)

  /** A component of an annotated cell: the number, or the tag 'H' that replaced it. */
  datatype Cell = Num(n: int) | Tag

  datatype Marked = Marked(first: Cell, second: Cell)

  type Annotated = seq<seq<Marked>>

  function Plain(p: Payoff): Marked {
    Marked(Num(p.u1), Num(p.u2))
  }

  predicate SameShape(m: Matrix, a: Annotated) {
    |m| == |a| && forall r :: 0 <= r < |m| ==> |m[r]| == |a[r]|
  }

  /** The annotated copy of a grid before anything is tagged: the same shape, the same numbers. */
  function Annotate(m: Matrix): (a: Annotated)
    ensures SameShape(m, a)
    ensures forall r, c :: 0 <= r < |m| && 0 <= c < |m[r]| ==> a[r][c] == Plain(m[r][c])
  {
    seq(|m|, r requires 0 <= r < |m| => seq(|m[r]|, c requires 0 <= c < |m[r]| => Plain(m[r][c])))
  }

  /** An annotated grid of the same shape holding every cell untagged is the initial copy. */
  lemma AnnotateUnique(m: Matrix, a: Annotated)
    requires SameShape(m, a)
    requires forall r, c :: 0 <= r < |m| && 0 <= c < |m[r]| ==> a[r][c] == Plain(m[r][c])
    ensures a == Annotate(m)
  {
    var b := Annotate(m);
    forall r | 0 <= r < |m| ensures a[r] == b[r] {
      assert |a[r]| == |b[r]|;
    }
  }

  /** `rows` rows of exactly `columns` cells each. */
  predicate Rectangular(m: Matrix, rows: nat, columns: nat) {
    |m| == rows && forall r :: 0 <= r < |m| ==> |m[r]| == columns
  }

  /** Every row has at least `columns` cells, so every index below `columns` can be read. */
  predicate Covers(m: Matrix, columns: nat) {
    forall r :: 0 <= r < |m| ==> columns <= |m[r]|
  }

  /** The grid `[[(0, 0) for i in range(columns)] for j in range(rows)]`. */
  function Zeros(rows: nat, columns: nat): (m: Matrix)
    ensures Rectangular(m, rows, columns)
    ensures forall r, c :: 0 <= r < rows && 0 <= c < columns ==> m[r][c] == Payoff(0, 0)
  {
    seq(rows, r => seq(columns, c => Payoff(0, 0)))
  }

  predicate HasCell(m: Matrix, c: Coord) {
    c.row < |m| && c.col < |m[c.row]|
  }

  /** The player's component of a cell (player 1 for 1, player 2 otherwise). */
  function U(p: Payoff, player: int): int {
    if player == 1 then p.u1 else p.u2
  }

  /** A grid (of payoffs or of annotated cells) with one cell replaced. */
  function SetAt<T>(g: seq<seq<T>>, r: nat, c: nat, x: T): (g': seq<seq<T>>)
    requires r < |g| && c < |g[r]|
    ensures |g'| == |g| && forall i :: 0 <= i < |g| ==> |g'[i]| == |g[i]|
    ensures g'[r][c] == x
    ensures forall i, j :: 0 <= i < |g| && 0 <= j < |g[i]| && (i, j) != (r, c) ==> g'[i][j] == g[i][j]
  {
    g[r := g[r][c := x]]
  }

  /** `get_payoffs(player)`: the player's component of every cell, same shape as the grid. */
  function PlayerPayoffs(m: Matrix, player: int): (v: seq<seq<int>>)
    ensures |v| == |m|
    ensures forall r :: 0 <= r < |m| ==> |v[r]| == |m[r]|
    ensures forall r, c :: 0 <= r < |m| && 0 <= c < |m[r]| ==> v[r][c] == U(m[r][c], player)
  {
    seq(|m|, r requires 0 <= r < |m| => seq(|m[r]|, c requires 0 <= c < |m[r]| => U(m[r][c], player)))
  }
}
