/**
 * Expected payoffs against mixed strategies, as exact real sums.
 *
 * One-sided: each own strategy's payoff against the opponent's beliefs.
 * Two-sided: both players' payoffs when both mix (`ep_bpm`).
 * Regret: the best one-sided payoff minus the two-sided one.
 */
module ExpectedPayoff {
  import opened Base
  import opened Grid
  import Text

  const InvalidPlayer := "player must be an int with the value of 1 or 2"
  const ListIndexOutOfRange := "list index out of range"
  const EmptyMax := "max() arg is an empty sequence"

  /** `sum(w[:k])`. */
  function Sum(w: seq<real>, k: nat): real
    requires k <= |w|
  {
    if k == 0 then 0.0 else Sum(w, k - 1) + w[k - 1]
  }

  /** `sum(w[j] * e[j] for j in range(k))`. */
  function Dot(w: seq<real>, e: seq<real>, k: nat): real
    requires k <= |w| && k <= |e|
  {
    if k == 0 then 0.0 else Dot(w, e, k - 1) + w[k - 1] * e[k - 1]
  }

  /** A probability vector over `n` strategies: non-negative entries summing to one. */
  predicate IsDistribution(w: seq<real>, n: nat) {
    |w| == n && (forall i :: 0 <= i < n ==> 0.0 <= w[i]) && Sum(w, n) == 1.0
  }

  /** The pure strategy `k` as a mixed one. */
  function Unit(n: nat, k: nat): (w: seq<real>)
    ensures |w| == n
    ensures forall j :: 0 <= j < n ==> w[j] == if j == k then 1.0 else 0.0
  {
    seq(n, j => if j == k then 1.0 else 0.0)
  }

  /** The largest entry of a non-empty vector, as `max(...)` returns it. */
  function MaxReal(e: seq<real>): (r: real)
    requires |e| > 0
    ensures forall j :: 0 <= j < |e| ==> e[j] <= r
    ensures exists j :: 0 <= j < |e| && e[j] == r
  {
    if |e| == 1 then e[0]
    else
      var r := MaxReal(e[..|e| - 1]);
      assert forall j :: 0 <= j < |e| - 1 ==> e[..|e| - 1][j] == e[j];
      if e[|e| - 1] > r then e[|e| - 1] else r
  }

  // ------------------------------------------------------------ one-sided

  /** Row payoff: `sum(b[j] * row[j][player - 1] for j in range(k))`. */
  function RowSum(row: seq<Payoff>, b: seq<real>, k: nat, player: int): real
    requires k <= |row| && k <= |b|
  {
    if k == 0 then 0.0 else RowSum(row, b, k - 1, player) + b[k - 1] * (U(row[k - 1], player) as real)
  }

  /** Player 2's payoff of column `j`: `sum(b[i] * m[i][j][1] for i in range(n))`. */
  function ColumnSum(m: Matrix, j: nat, b: seq<real>, n: nat): real
    requires n <= |m| && n <= |b|
    requires forall i :: 0 <= i < n ==> j < |m[i]|
  {
    if n == 0 then 0.0 else ColumnSum(m, j, b, n - 1) + b[n - 1] * (m[n - 1][j].u2 as real)
  }

  /**
   * `calculate_expected_payoffs(player, beliefs)` as the list of its dictionary's values,
   * in key order A1.. (player 1) or B1.. (player 2). Short beliefs or a short row raise
   * `IndexError` as soon as both loops run at all.
   */
  function OneSided(m: Matrix, columns: nat, player: int, beliefs: seq<real>): Result<seq<real>> {
    if player != 1 && player != 2 then Err(ValueError(InvalidPlayer))
    else if player == 1 then
      if |m| > 0 && columns > 0 && (|beliefs| < columns || !Covers(m, columns)) then Err(IndexError(ListIndexOutOfRange))
      else Ok(seq(|m|, i requires 0 <= i < |m| => RowSum(m[i], beliefs, columns, 1)))
    else
      if columns > 0 && |m| > 0 && (|beliefs| < |m| || !Covers(m, columns)) then Err(IndexError(ListIndexOutOfRange))
      else Ok(seq(columns, j requires 0 <= j < columns => ColumnSum(m, j, beliefs, |m|)))
  }

  /** When the one-sided payoffs are defined, and how many there are. */
  lemma OneSidedOkWhen(m: Matrix, columns: nat, player: int, beliefs: seq<real>)
    requires player == 1 || player == 2
    requires Covers(m, columns)
    requires |beliefs| >= (if player == 1 then columns else |m|)
    ensures OneSided(m, columns, player, beliefs).Ok?
    ensures |OneSided(m, columns, player, beliefs).value| == if player == 1 then |m| else columns
  {
  }

  lemma {:induction false} RowSumUnit(row: seq<Payoff>, n: nat, c: nat, k: nat, player: int)
    requires k <= |row| && k <= n
    ensures RowSum(row, Unit(n, c), k, player) == if c < k then U(row[c], player) as real else 0.0
    decreases k
  {
    if k > 0 {
      RowSumUnit(row, n, c, k - 1, player);
    }
  }

  lemma {:induction false} ColumnSumUnit(m: Matrix, j: nat, r: nat, n: nat)
    requires n <= |m| && forall i :: 0 <= i < n ==> j < |m[i]|
    ensures ColumnSum(m, j, Unit(|m|, r), n) == if r < n then m[r][j].u2 as real else 0.0
    decreases n
  {
    if n > 0 {
      ColumnSumUnit(m, j, r, n - 1);
    }
  }

  /** Against a pure strategy of the opponent, each own strategy's expected payoff is its cell's payoff. */
  lemma OneSidedUnit(m: Matrix, columns: nat, r: nat, c: nat)
    requires Covers(m, columns) && r < |m| && c < columns
    ensures OneSided(m, columns, 1, Unit(columns, c)).Ok?
    ensures OneSided(m, columns, 1, Unit(columns, c)).value[r] == m[r][c].u1 as real
    ensures OneSided(m, columns, 2, Unit(|m|, r)).Ok?
    ensures OneSided(m, columns, 2, Unit(|m|, r)).value[c] == m[r][c].u2 as real
  {
    RowSumUnit(m[r], columns, c, columns, 1);
    ColumnSumUnit(m, c, r, |m|);
  }

  // ------------------------------------------------------------ two-sided

  /** `sum((a * q[j]) * row[j][player - 1] for j in range(k))`: one row of the two-sided sum. */
  function DoubleRow(row: seq<Payoff>, a: real, q: seq<real>, k: nat, player: int): real
    requires k <= |row| && k <= |q|
  {
    if k == 0 then 0.0 else DoubleRow(row, a, q, k - 1, player) + (a * q[k - 1]) * (U(row[k - 1], player) as real)
  }

  /** `sum((p[i] * q[j]) * m[i][j][player - 1] for i in range(n) for j in range(columns))`. */
  function Joint(m: Matrix, p: seq<real>, q: seq<real>, columns: nat, n: nat, player: int): real
    requires n <= |m| && n <= |p| && columns <= |q|
    requires forall i :: 0 <= i < n ==> columns <= |m[i]|
  {
    if n == 0 then 0.0 else Joint(m, p, q, columns, n - 1, player) + DoubleRow(m[n - 1], p[n - 1], q, columns, player)
  }

  /**
   * `ep_bpm(p1_beliefs, p2_beliefs)`: both vectors must match the grid's dimensions
   * (`ValueError`), a row shorter than `columns` raises `IndexError`, and the result
   * is both players' two-sided expected payoffs.
   */
  function TwoSided(m: Matrix, columns: nat, p: seq<real>, q: seq<real>): Result<(real, real)> {
    if |p| != |m| then Err(ValueError("p1_beliefs must have length " + Text.NatToString(|m|)))
    else if |q| != columns then Err(ValueError("p2_beliefs must have length " + Text.NatToString(columns)))
    else if !Covers(m, columns) then Err(IndexError(ListIndexOutOfRange))
    else Ok((Joint(m, p, q, columns, |m|, 1), Joint(m, p, q, columns, |m|, 2)))
  }

  /** One more cell of a row's two-sided sum. */
  lemma DoubleRowNext(row: seq<Payoff>, a: real, q: seq<real>, j: nat, player: int)
    requires j < |row| && j < |q|
    ensures DoubleRow(row, a, q, j + 1, player) == DoubleRow(row, a, q, j, player) + (a * q[j]) * (U(row[j], player) as real)
    ensures U(row[j], player) == if player == 1 then row[j].u1 else row[j].u2
  {
  }

  /** The grid `beliefs[i][j] = p[i] * q[j]` that both `ep_bpm` versions build first. */
  predicate IsProduct(b: seq<seq<real>>, p: seq<real>, q: seq<real>, rows: nat, columns: nat)
    requires rows <= |p| && columns <= |q|
  {
    |b| == rows && (forall x :: 0 <= x < rows ==> |b[x]| == columns) &&
    forall x, y :: 0 <= x < rows && 0 <= y < columns ==> b[x][y] == p[x] * q[y]
  }

  /** The nested loops that fill the product of the beliefs. */
  method BeliefProduct(p: seq<real>, q: seq<real>, rows: nat, columns: nat) returns (b: seq<seq<real>>)
    requires rows <= |p| && columns <= |q|
    ensures IsProduct(b, p, q, rows, columns)
  {
    b := [];
    var i := 0;
    while i < rows
      invariant 0 <= i <= rows && |b| == i
      invariant forall x :: 0 <= x < i ==> |b[x]| == columns
      invariant forall x, y :: 0 <= x < i && 0 <= y < columns ==> b[x][y] == p[x] * q[y]
    {
      var row: seq<real> := [];
      var j := 0;
      while j < columns
        invariant 0 <= j <= columns && |row| == j
        invariant forall y :: 0 <= y < j ==> row[y] == p[i] * q[y]
      {
        row := row + [p[i] * q[j]];
        j := j + 1;
      }
      b := b + [row];
      i := i + 1;
    }
  }

  /**
   * `for i in range(rows): for j in range(columns): e += beliefs[i][j] * grid[i][j][player - 1]`:
   * the weighted sum, or the `IndexError` of a row shorter than `columns`.
   */
  method WeightedSum(m: Matrix, b: seq<seq<real>>, p: seq<real>, q: seq<real>, columns: nat, player: int)
    returns (r: Result<real>)
    requires |m| <= |p| && columns <= |q| && IsProduct(b, p, q, |m|, columns)
    ensures Covers(m, columns) ==> r == Ok(Joint(m, p, q, columns, |m|, player))
    ensures !Covers(m, columns) ==> r == Err(IndexError(ListIndexOutOfRange))
  {
    var e := 0.0;
    var i := 0;
    while i < |m|
      invariant 0 <= i <= |m|
      invariant forall x :: 0 <= x < i ==> columns <= |m[x]|
      invariant e == Joint(m, p, q, columns, i, player)
    {
      var j := 0;
      while j < columns
        invariant 0 <= j <= columns && j <= |m[i]|
        invariant e == Joint(m, p, q, columns, i, player) + DoubleRow(m[i], p[i], q, j, player)
      {
        if j >= |m[i]| {
          return Err(IndexError(ListIndexOutOfRange));
        }
        DoubleRowNext(m[i], p[i], q, j, player);
        e := e + b[i][j] * (U(m[i][j], player) as real);
        j := j + 1;
      }
      i := i + 1;
    }
    r := Ok(e);
  }

  lemma {:induction false} DoubleRowFactor(row: seq<Payoff>, a: real, q: seq<real>, k: nat, player: int)
    requires k <= |row| && k <= |q|
    ensures DoubleRow(row, a, q, k, player) == a * RowSum(row, q, k, player)
    decreases k
  {
    if k > 0 {
      DoubleRowFactor(row, a, q, k - 1, player);
    }
  }

  /** The one-sided payoffs of the first `n` rows against the column mix `q`. */
  function RowPayoffs(m: Matrix, q: seq<real>, columns: nat, n: nat, player: int): (e: seq<real>)
    requires n <= |m| && columns <= |q|
    requires forall i :: 0 <= i < n ==> columns <= |m[i]|
    ensures |e| == n && forall i :: 0 <= i < n ==> e[i] == RowSum(m[i], q, columns, player)
  {
    seq(n, i requires 0 <= i < n => RowSum(m[i], q, columns, player))
  }

  /** The two-sided payoff is the own mix applied to the one-sided payoffs of the rows. */
  lemma {:induction false} JointByRows(m: Matrix, p: seq<real>, q: seq<real>, columns: nat, n: nat, player: int)
    requires n <= |m| && n <= |p| && columns <= |q|
    requires forall i :: 0 <= i < n ==> columns <= |m[i]|
    ensures Joint(m, p, q, columns, n, player) == Dot(p, RowPayoffs(m, q, columns, n, player), n)
    decreases n
  {
    if n > 0 {
      JointByRows(m, p, q, columns, n - 1, player);
      DoubleRowFactor(m[n - 1], p[n - 1], q, columns, player);
      var e := RowPayoffs(m, q, columns, n, player);
      var e' := RowPayoffs(m, q, columns, n - 1, player);
      DotPrefix(p, e, e', n - 1);
      assert e[n - 1] == RowSum(m[n - 1], q, columns, player);
      assert Dot(p, e, n) == Dot(p, e', n - 1) + p[n - 1] * e[n - 1];
    }
  }

  /** A dot product only looks at the first `k` entries. */
  lemma {:induction false} DotPrefix(w: seq<real>, e: seq<real>, f: seq<real>, k: nat)
    requires k <= |w| && k <= |e| && k <= |f|
    requires forall j :: 0 <= j < k ==> e[j] == f[j]
    ensures Dot(w, e, k) == Dot(w, f, k)
    decreases k
  {
    if k > 0 {
      DotPrefix(w, e, f, k - 1);
    }
  }

  /** A dot product is linear in its second vector. */
  lemma {:induction false} DotAdd(w: seq<real>, e: seq<real>, f: seq<real>, g: seq<real>, k: nat)
    requires k <= |w| && k <= |e| && k <= |f| && k <= |g|
    requires forall j :: 0 <= j < k ==> g[j] == e[j] + f[j]
    ensures Dot(w, g, k) == Dot(w, e, k) + Dot(w, f, k)
    decreases k
  {
    if k > 0 {
      DotAdd(w, e, f, g, k - 1);
    }
  }

  lemma {:induction false} DoubleRowAsDot(row: seq<Payoff>, a: real, q: seq<real>, k: nat)
    requires k <= |row| && k <= |q|
    ensures DoubleRow(row, a, q, k, 2) == Dot(q, seq(k, j requires 0 <= j < k => a * (row[j].u2 as real)), k)
    decreases k
  {
    if k > 0 {
      DoubleRowAsDot(row, a, q, k - 1);
      var e := seq(k, j requires 0 <= j < k => a * (row[j].u2 as real));
      var e' := seq(k - 1, j requires 0 <= j < k - 1 => a * (row[j].u2 as real));
      DotPrefix(q, e, e', k - 1);
    }
  }

  /** Player 2's two-sided payoff is their own mix applied to the one-sided payoffs of the columns. */
  lemma {:induction false} JointByColumns(m: Matrix, p: seq<real>, q: seq<real>, columns: nat, n: nat)
    requires n <= |m| && n <= |p| && columns <= |q|
    requires forall i :: 0 <= i < n ==> columns <= |m[i]|
    ensures Joint(m, p, q, columns, n, 2) ==
      Dot(q, seq(columns, j requires 0 <= j < columns => ColumnSum(m, j, p, n)), columns)
    decreases n
  {
    var c := seq(columns, j requires 0 <= j < columns => ColumnSum(m, j, p, n));
    if n == 0 {
      DotZero(q, c, columns);
    } else {
      JointByColumns(m, p, q, columns, n - 1);
      var c' := seq(columns, j requires 0 <= j < columns => ColumnSum(m, j, p, n - 1));
      var r := seq(columns, j requires 0 <= j < columns => p[n - 1] * (m[n - 1][j].u2 as real));
      DoubleRowAsDot(m[n - 1], p[n - 1], q, columns);
      DotAdd(q, c', r, c, columns);
    }
  }

  lemma {:induction false} DotZero(w: seq<real>, e: seq<real>, k: nat)
    requires k <= |w| && k <= |e|
    requires forall j :: 0 <= j < k ==> e[j] == 0.0
    ensures Dot(w, e, k) == 0.0
    decreases k
  {
    if k > 0 {
      DotZero(w, e, k - 1);
    }
  }

  /** Mixing with a pure strategy picks out one entry. */
  lemma {:induction false} DotUnit(e: seq<real>, n: nat, r: nat, k: nat)
    requires k <= n && k <= |e|
    ensures Dot(Unit(n, r), e, k) == if r < k then e[r] else 0.0
    decreases k
  {
    if k > 0 {
      DotUnit(e, n, r, k - 1);
    }
  }

  /** At a pair of pure strategies the two-sided payoffs are exactly that cell's payoffs. */
  lemma TwoSidedUnit(m: Matrix, columns: nat, r: nat, c: nat)
    requires Covers(m, columns) && r < |m| && c < columns
    ensures TwoSided(m, columns, Unit(|m|, r), Unit(columns, c)) == Ok((m[r][c].u1 as real, m[r][c].u2 as real))
  {
    var p := Unit(|m|, r);
    var q := Unit(columns, c);
    JointByRows(m, p, q, columns, |m|, 1);
    JointByRows(m, p, q, columns, |m|, 2);
    var e1 := RowPayoffs(m, q, columns, |m|, 1);
    var e2 := RowPayoffs(m, q, columns, |m|, 2);
    DotUnit(e1, |m|, r, |m|);
    DotUnit(e2, |m|, r, |m|);
    RowSumUnit(m[r], columns, c, columns, 1);
    RowSumUnit(m[r], columns, c, columns, 2);
  }

  /** A probability-weighted average never exceeds the largest entry averaged. */
  lemma {:induction false} DotBound(w: seq<real>, e: seq<real>, k: nat, top: real)
    requires k <= |w| && k <= |e|
    requires forall j :: 0 <= j < k ==> 0.0 <= w[j] && e[j] <= top
    ensures Dot(w, e, k) <= Sum(w, k) * top
    decreases k
  {
    if k > 0 {
      DotBound(w, e, k - 1, top);
      ScaleBound(w[k - 1], e[k - 1], top);
      assert Sum(w, k) * top == Sum(w, k - 1) * top + w[k - 1] * top;
    }
  }

  lemma ScaleBound(a: real, b: real, c: real)
    requires 0.0 <= a && b <= c
    ensures a * b <= a * c
  {
    assert a * c - a * b == a * (c - b);
  }

  // ---------------------------------------------------------------- regret

  /**
   * `calculate_regret(p1, p2)`: `ep_bpm` first (its errors pass through), then for each player
   * the best one-sided payoff minus the two-sided one; an empty set of strategies has no maximum.
   */
  function Regret(m: Matrix, columns: nat, p: seq<real>, q: seq<real>): Result<(real, real)> {
    match TwoSided(m, columns, p, q)
    case Err(e) => Err(e)
    case Ok(ep) =>
      var e1 := OneSided(m, columns, 1, q);
      var e2 := OneSided(m, columns, 2, p);
      if e1.Err? then Err(e1.error)
      else if e2.Err? then Err(e2.error)
      else if |e1.value| == 0 || |e2.value| == 0 then Err(ValueError(EmptyMax))
      else Ok((MaxReal(e1.value) - ep.0, MaxReal(e2.value) - ep.1))
  }

  /** Regret is defined exactly for matching, covered, non-empty games. */
  lemma RegretOkWhen(m: Matrix, columns: nat, p: seq<real>, q: seq<real>)
    ensures Regret(m, columns, p, q).Ok? <==>
      |p| == |m| && |q| == columns && Covers(m, columns) && |m| > 0 && columns > 0
  {
    if |p| == |m| && |q| == columns && Covers(m, columns) {
      OneSidedOkWhen(m, columns, 1, q);
      OneSidedOkWhen(m, columns, 2, p);
    }
  }

  /** Against probability vectors no player regrets a negative amount. */
  lemma RegretNonNegative(m: Matrix, columns: nat, p: seq<real>, q: seq<real>)
    requires IsDistribution(p, |m|) && IsDistribution(q, columns)
    requires Regret(m, columns, p, q).Ok?
    ensures Regret(m, columns, p, q).value.0 >= 0.0
    ensures Regret(m, columns, p, q).value.1 >= 0.0
  {
    RegretOkWhen(m, columns, p, q);
    var e1 := OneSided(m, columns, 1, q).value;
    var e2 := OneSided(m, columns, 2, p).value;
    JointByRows(m, p, q, columns, |m|, 1);
    assert e1 == RowPayoffs(m, q, columns, |m|, 1);
    DotBound(p, e1, |m|, MaxReal(e1));
    JointByColumns(m, p, q, columns, |m|);
    assert e2 == seq(columns, j requires 0 <= j < columns => ColumnSum(m, j, p, |m|));
    DotBound(q, e2, columns, MaxReal(e2));
  }
}
