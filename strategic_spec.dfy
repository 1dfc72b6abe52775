/**
 * The value-level side of `StrategicGame`: construction modes, the per-player views of the
 * grid, the four factory games, the manual payoff reader, dominance, the validators and the
 * dictionary export. The class in module Strategic keeps its state in fields and calls these.
 */
module StrategicSpec {
  import opened Base
  import opened Grid
  import opened BestResponse
  import opened Text
  import Mixed
  import EP = ExpectedPayoff

  // ----------------------------------------------------------------- modes

  /** 'r': random payoffs, 'm': payoffs typed in cell by cell, 'd': a payoff matrix given directly. */
  datatype Mode = Random | Manual | Direct

  function ModeLetter(md: Mode): string {
    match md
    case Random => "r"
    case Manual => "m"
    case Direct => "d"
  }

  /** The mode a letter names, if it names one. */
  function ModeOf(s: string): (r: Option<Mode>)
    ensures r.Some? <==> s == "r" || s == "m" || s == "d"
    ensures r.Some? ==> ModeLetter(r.value) == s
  {
    if s == "r" then Some(Random) else if s == "m" then Some(Manual) else if s == "d" then Some(Direct) else None
  }

  /** Every mode is named by its letter. */
  lemma ModeRoundTrip(md: Mode)
    ensures ModeOf(ModeLetter(md)) == Some(md)
  {
  }

  const InvalidMode := "Mode must be one of ['r', 'm', 'd']"
  const MatrixRequired := "payoff_matrix must be provided when mode is 'd'"
  const SizeRequired := "rows and columns must be provided when mode is 'r' or 'm'"
  const DefaultLower := -99
  const DefaultUpper := 99

  /** Declared column count of a directly given matrix: the length of its first row, or 0. */
  function DirectColumns(m: Matrix): nat {
    if |m| > 0 then |m[0]| else 0
  }

  // ------------------------------------------------------ per-player views

  const TwoPlayers := "There are only two players"
  const TwoPlayersShort := "There are only 2 players"

  /** `get_payoffs(player)`: one player's component of every cell. */
  function GetPayoffs(m: Matrix, player: int): Result<seq<seq<int>>> {
    if player == 1 || player == 2 then Ok(PlayerPayoffs(m, player)) else Err(ValueError(TwoPlayers))
  }

  /** The two players' payoff grids zip back into the game grid. */
  lemma PayoffsZip(m: Matrix)
    ensures GetPayoffs(m, 1).Ok? && GetPayoffs(m, 2).Ok?
    ensures var v1 := GetPayoffs(m, 1).value; var v2 := GetPayoffs(m, 2).value;
      |v1| == |v2| == |m| &&
      forall r :: 0 <= r < |m| ==> (|v1[r]| == |v2[r]| == |m[r]| &&
        forall c :: 0 <= c < |m[r]| ==> Payoff(v1[r][c], v2[r][c]) == m[r][c])
    ensures forall player :: GetPayoffs(m, player).Err? <==> player != 1 && player != 2
  {
  }

  /** A strategy name: the player's letter and the 1-based strategy number. */
  function Label(letter: char, i: nat): string {
    [letter] + NatToString(i + 1)
  }

  function StrategyNames(letter: char, n: nat): (r: seq<string>)
    ensures |r| == n && forall i :: 0 <= i < n ==> r[i] == Label(letter, i)
  {
    seq(n, i requires 0 <= i < n => Label(letter, i))
  }

  /** `get_strategies(player)`: A1..A{rows} for player 1, B1..B{columns} for player 2. */
  function GetStrategies(rows: nat, columns: nat, player: int): Result<seq<string>> {
    if player == 1 then Ok(StrategyNames('A', rows))
    else if player == 2 then Ok(StrategyNames('B', columns))
    else Err(ValueError(TwoPlayersShort))
  }

  /** A name reads back as its letter and its 1-based number, so names of one player are distinct. */
  lemma LabelReadsBack(letter: char, i: nat)
    ensures Label(letter, i)[0] == letter
    ensures AllDigits(Label(letter, i)[1..]) && DigitsValue(Label(letter, i)[1..]) == i + 1
  {
    assert Label(letter, i)[1..] == NatToString(i + 1);
    NatToStringRoundTrip(i + 1);
  }

  lemma StrategyNamesDistinct(letter: char, n: nat)
    ensures NoDup(StrategyNames(letter, n))
  {
    var names := StrategyNames(letter, n);
    forall i, j | 0 <= i < j < n ensures names[i] != names[j] {
      LabelReadsBack(letter, i);
      LabelReadsBack(letter, j);
    }
  }

  // -------------------------------------------------------------- factories

  const PrisonersDilemmaParams := "Invalid parameters for Prisoner's Dilemma. Must satisfy T > R > P > S and 2R > T + S"
  const CoordinationParams := "Parameters a and b must be positive"
  const BattleParams := "Parameters must satisfy a > b > 0"
  const ZeroSumCount := "Must provide exactly 4 values"

  /** The payoff matrix `create_prisoners_dilemma(t, r, p, s)` hands to the direct-mode constructor. */
  function PrisonersDilemma(t: int, r: int, p: int, s: int): (g: Result<Matrix>)
    ensures g.Ok? <==> t > r > p > s && 2 * r > t + s
    ensures g.Ok? ==> Rectangular(g.value, 2, 2)
  {
    if !(t > r > p > s && 2 * r > t + s) then Err(ValueError(PrisonersDilemmaParams))
    else Ok([[Payoff(r, r), Payoff(s, t)], [Payoff(t, s), Payoff(p, p)]])
  }

  function Coordination(a: int, b: int): (g: Result<Matrix>)
    ensures g.Ok? <==> a > 0 && b > 0
    ensures g.Ok? ==> Rectangular(g.value, 2, 2)
  {
    if a <= 0 || b <= 0 then Err(ValueError(CoordinationParams))
    else Ok([[Payoff(a, a), Payoff(0, 0)], [Payoff(0, 0), Payoff(b, b)]])
  }

  function BattleOfSexes(a: int, b: int): (g: Result<Matrix>)
    ensures g.Ok? <==> a > b > 0
    ensures g.Ok? ==> Rectangular(g.value, 2, 2)
  {
    if !(a > b > 0) then Err(ValueError(BattleParams))
    else Ok([[Payoff(a, b), Payoff(0, 0)], [Payoff(0, 0), Payoff(b, a)]])
  }

  /** Player 1 receives `values` row by row, player 2 their negation. */
  function ZeroSum(values: seq<int>): (g: Result<Matrix>)
    ensures g.Ok? <==> |values| == 4
    ensures g.Ok? ==> Rectangular(g.value, 2, 2)
    ensures g.Ok? ==> forall r, c :: 0 <= r < 2 && 0 <= c < 2 ==>
      g.value[r][c].u1 == values[2 * r + c] && g.value[r][c].u2 == -values[2 * r + c]
  {
    if |values| != 4 then Err(ValueError(ZeroSumCount))
    else Ok([[Payoff(values[0], -values[0]), Payoff(values[1], -values[1])],
             [Payoff(values[2], -values[2]), Payoff(values[3], -values[3])]])
  }

  /**
   * `create_zero_sum_game(values)`: without values, four numbers are drawn from [-5, 5]
   * (the draw is a free choice here).
   */
  method CreateZeroSum(values: Option<seq<int>>) returns (g: Result<Matrix>)
    ensures values.Some? ==> g == ZeroSum(values.value)
    ensures values.None? ==> g.Ok? && Rectangular(g.value, 2, 2)
    ensures values.None? ==> forall r, c :: 0 <= r < 2 && 0 <= c < 2 ==>
      -5 <= g.value[r][c].u1 <= 5 && g.value[r][c].u2 == -g.value[r][c].u1
  {
    var vs: seq<int>;
    if values.None? {
      assert |[0, 0, 0, 0]| == 4;
      vs :| |vs| == 4 && forall i :: 0 <= i < 4 ==> -5 <= vs[i] <= 5;
    } else {
      vs := values.value;
    }
    g := ZeroSum(vs);
    if values.None? {
      forall r, c | 0 <= r < 2 && 0 <= c < 2
        ensures -5 <= g.value[r][c].u1 <= 5 && g.value[r][c].u2 == -g.value[r][c].u1
      {
        assert 0 <= 2 * r + c < 4;
      }
    }
  }

  // --------------------------------------------- equilibria of the factories

  /** Both players' lists on a 2x2 grid, read off the four two-value lines. */
  lemma Responses2x2(m: Matrix, ties: Ties)
    requires Rectangular(m, 2, 2)
    ensures BestResponses(m, 2, 1, ties) ==
      Ok(Place(BestIndices([m[0][0].u1, m[1][0].u1], ties), 0, 1) + Place(BestIndices([m[0][1].u1, m[1][1].u1], ties), 1, 1))
    ensures BestResponses(m, 2, 2, ties) ==
      Ok(Place(BestIndices([m[0][0].u2, m[0][1].u2], ties), 0, 2) + Place(BestIndices([m[1][0].u2, m[1][1].u2], ties), 1, 2))
  {
    assert ColumnPresent(m, 0) && ColumnPresent(m, 1);
    assert Line(m, 2, 1, 0) == [m[0][0].u1, m[1][0].u1] && Line(m, 2, 1, 1) == [m[0][1].u1, m[1][1].u1];
    assert Line(m, 2, 2, 0) == [m[0][0].u2, m[0][1].u2] && Line(m, 2, 2, 1) == [m[1][0].u2, m[1][1].u2];
    BestResponses2x2(m, 1, ties);
    BestResponses2x2(m, 2, ties);
  }

  /** Coordinates of one or two positions on line `k`. */
  lemma PlaceSmall(k: nat, i: nat, j: nat)
    ensures Place([i], k, 1) == [Coord(k, i)] && Place([i], k, 2) == [Coord(i, k)]
    ensures Place([i, j], k, 1) == [Coord(k, i), Coord(k, j)] && Place([i, j], k, 2) == [Coord(i, k), Coord(j, k)]
  {
  }

  /** The equilibria of a 2x2 game whose two lists are known. */
  lemma PureNashOf(m: Matrix, ties: Ties, b1: seq<Coord>, b2: seq<Coord>)
    requires BestResponses(m, 2, 1, ties) == Ok(b1) && BestResponses(m, 2, 2, ties) == Ok(b2)
    ensures PureNash(m, 2, ties) == Ok(Intersect(b1, b2))
  {
  }

  /**
   * A 2x2 game where every line has one best response: player 1's column `k` answers with row
   * `i_k`, player 2's row `k` with column `j_k`; the equilibria are the cells on both lists.
   */
  lemma PureNashSingles(m: Matrix, ties: Ties, i0: nat, i1: nat, j0: nat, j1: nat)
    requires Rectangular(m, 2, 2)
    requires BestIndices([m[0][0].u1, m[1][0].u1], ties) == [i0] && BestIndices([m[0][1].u1, m[1][1].u1], ties) == [i1]
    requires BestIndices([m[0][0].u2, m[0][1].u2], ties) == [j0] && BestIndices([m[1][0].u2, m[1][1].u2], ties) == [j1]
    ensures PureNash(m, 2, ties) == Ok(Intersect([Coord(0, i0), Coord(1, i1)], [Coord(j0, 0), Coord(j1, 1)]))
  {
    Responses2x2(m, ties);
    PlaceSmall(0, i0, 0);
    PlaceSmall(1, i1, 0);
    PlaceSmall(0, j0, 0);
    PlaceSmall(1, j1, 0);
    var b1 := [Coord(0, i0), Coord(1, i1)];
    var b2 := [Coord(j0, 0), Coord(j1, 1)];
    assert b1 == [Coord(0, i0)] + [Coord(1, i1)];
    assert b2 == [Coord(j0, 0)] + [Coord(j1, 1)];
    PureNashOf(m, ties, b1, b2);
  }

  /** In the Prisoner's Dilemma mutual defection (A2, B2) is the only equilibrium found. */
  lemma PrisonersDilemmaEquilibrium(t: int, r: int, p: int, s: int, ties: Ties)
    requires t > r > p > s && 2 * r > t + s
    ensures PureNash(PrisonersDilemma(t, r, p, s).value, 2, ties) == Ok([Coord(1, 1)])
  {
    var m := PrisonersDilemma(t, r, p, s).value;
    assert m == [[Payoff(r, r), Payoff(s, t)], [Payoff(t, s), Payoff(p, p)]];
    BestIndicesPair(r, t, ties);
    BestIndicesPair(s, p, ties);
    PureNashSingles(m, ties, 1, 1, 1, 1);
    IntersectDefect();
  }

  lemma IntersectDefect()
    ensures Intersect([Coord(0, 1), Coord(1, 1)], [Coord(1, 0), Coord(1, 1)]) == [Coord(1, 1)]
  {
    var b1, b2 := [Coord(0, 1), Coord(1, 1)], [Coord(1, 0), Coord(1, 1)];
    assert Intersect(b1[1..], b2) == [Coord(1, 1)] + Intersect([], b2);
  }

  /** A 2x2 game paying positive amounts to both on the diagonal and 0 elsewhere has both diagonal cells as equilibria. */
  lemma DiagonalEquilibria(m: Matrix, ties: Ties)
    requires Rectangular(m, 2, 2)
    requires m[0][1] == Payoff(0, 0) && m[1][0] == Payoff(0, 0)
    requires m[0][0].u1 > 0 && m[0][0].u2 > 0 && m[1][1].u1 > 0 && m[1][1].u2 > 0
    ensures PureNash(m, 2, ties) == Ok([Coord(0, 0), Coord(1, 1)])
  {
    BestIndicesPair(m[0][0].u1, 0, ties);
    BestIndicesPair(0, m[1][1].u1, ties);
    BestIndicesPair(m[0][0].u2, 0, ties);
    BestIndicesPair(0, m[1][1].u2, ties);
    PureNashSingles(m, ties, 0, 1, 0, 1);
    IntersectDiagonal();
  }

  lemma IntersectDiagonal()
    ensures Intersect([Coord(0, 0), Coord(1, 1)], [Coord(0, 0), Coord(1, 1)]) == [Coord(0, 0), Coord(1, 1)]
  {
    var b := [Coord(0, 0), Coord(1, 1)];
    assert Intersect(b[1..], b) == [Coord(1, 1)] + Intersect([], b);
  }

  /** The coordination game's equilibria are (A1, B1) and (A2, B2). */
  lemma CoordinationEquilibria(a: int, b: int, ties: Ties)
    requires a > 0 && b > 0
    ensures PureNash(Coordination(a, b).value, 2, ties) == Ok([Coord(0, 0), Coord(1, 1)])
  {
    DiagonalEquilibria(Coordination(a, b).value, ties);
  }

  /** Battle of the Sexes has the same two pure equilibria ... */
  lemma BattleOfSexesEquilibria(a: int, b: int, ties: Ties)
    requires a > b > 0
    ensures PureNash(BattleOfSexes(a, b).value, 2, ties) == Ok([Coord(0, 0), Coord(1, 1)])
  {
    DiagonalEquilibria(BattleOfSexes(a, b).value, ties);
  }

  /** ... and, without the pure check, mixes `a / (a + b)` on A1 and `b / (a + b)` on B1 ... */
  lemma BattleOfSexesMixed(a: int, b: int)
    requires a > b > 0
    ensures var p := (a as real) / ((a + b) as real); var q := (b as real) / ((a + b) as real);
      Mixed.Indifference(BattleOfSexes(a, b).value, 2, 2, [], false) ==
        Ok(Mixed.AsDict(Mixed.MixedResult(Some([p, 1.0 - p]), Some([q, 1.0 - q]), None)))
  {
    var m := BattleOfSexes(a, b).value;
    assert m == [[Payoff(a, b), Payoff(0, 0)], [Payoff(0, 0), Payoff(b, a)]];
    assert |m| == 2 && Covers(m, 2);
    var d := (a + b) as real;
    var p := (a as real) / d;
    var q := (b as real) / d;
    assert p + q == 1.0 by {
      assert p + q == ((a + b) as real) / d;
    }
    assert 0.0 <= p && 0.0 <= q;
    assert Mixed.SolveP(b, 0, 0, a) == Mixed.Prob(p);
    assert Mixed.SolveQ(a, 0, 0, b) == Mixed.Prob(q);
  }

  /** ... while with the check on, its pure equilibria stop the solve. */
  lemma BattleOfSexesPureFirst(a: int, b: int)
    requires a > b > 0
    ensures Mixed.Indifference(BattleOfSexes(a, b).value, 2, 2, [], true) == Ok(Mixed.Failure(Mixed.PureExists))
  {
    BattleOfSexesEquilibria(a, b, KeepStale);
  }

  lemma IntersectAllFour(b1: seq<Coord>, b2: seq<Coord>)
    requires b1 == [Coord(0, 1), Coord(0, 0), Coord(1, 1), Coord(1, 0)]
    requires b2 == [Coord(1, 0), Coord(0, 0), Coord(1, 1), Coord(0, 1)]
    ensures Intersect(b1, b2) == b1
  {
    assert Intersect(b1[3..], b2) == [Coord(1, 0)] + Intersect([], b2);
    assert Intersect(b1[2..], b2) == [Coord(1, 1)] + Intersect(b1[3..], b2);
    assert Intersect(b1[1..], b2) == [Coord(0, 0)] + Intersect(b1[2..], b2);
  }

  /** When every cell is the same, every cell is reported, in player 1's column-by-column order. */
  lemma AllEqualEquilibria(x: Payoff, ties: Ties)
    ensures PureNash([[x, x], [x, x]], 2, ties) == Ok([Coord(0, 1), Coord(0, 0), Coord(1, 1), Coord(1, 0)])
  {
    var m := [[x, x], [x, x]];
    Responses2x2(m, ties);
    BestIndicesPair(x.u1, x.u1, ties);
    BestIndicesPair(x.u2, x.u2, ties);
    assert BestIndices([x.u1, x.u1], ties) == [1, 0] && BestIndices([x.u2, x.u2], ties) == [1, 0];
    PlaceSmall(0, 1, 0);
    PlaceSmall(1, 1, 0);
    var b1 := [Coord(0, 1), Coord(0, 0), Coord(1, 1), Coord(1, 0)];
    var b2 := [Coord(1, 0), Coord(0, 0), Coord(1, 1), Coord(0, 1)];
    assert BestResponses(m, 2, 1, ties) == Ok(Place([1, 0], 0, 1) + Place([1, 0], 1, 1));
    assert BestResponses(m, 2, 2, ties) == Ok(Place([1, 0], 0, 2) + Place([1, 0], 1, 2));
    assert b1 == [Coord(0, 1), Coord(0, 0)] + [Coord(1, 1), Coord(1, 0)];
    assert b2 == [Coord(1, 0), Coord(0, 0)] + [Coord(1, 1), Coord(0, 1)];
    PureNashOf(m, ties, b1, b2);
    IntersectAllFour(b1, b2);
  }

  lemma {:induction false} DoubleRowZeroSum(row: seq<Payoff>, a: real, q: seq<real>, k: nat)
    requires k <= |row| && k <= |q|
    requires forall j :: 0 <= j < k ==> row[j].u2 == -row[j].u1
    ensures EP.DoubleRow(row, a, q, k, 1) + EP.DoubleRow(row, a, q, k, 2) == 0.0
    decreases k
  {
    if k > 0 {
      DoubleRowZeroSum(row, a, q, k - 1);
      assert (row[k - 1].u2 as real) == -(row[k - 1].u1 as real);
    }
  }

  lemma {:induction false} JointZeroSum(m: Matrix, p: seq<real>, q: seq<real>, columns: nat, n: nat)
    requires n <= |m| && n <= |p| && columns <= |q|
    requires forall i :: 0 <= i < n ==> columns <= |m[i]|
    requires forall i, j :: 0 <= i < n && 0 <= j < columns ==> m[i][j].u2 == -m[i][j].u1
    ensures EP.Joint(m, p, q, columns, n, 1) + EP.Joint(m, p, q, columns, n, 2) == 0.0
    decreases n
  {
    if n > 0 {
      JointZeroSum(m, p, q, columns, n - 1);
      DoubleRowZeroSum(m[n - 1], p[n - 1], q, columns);
    }
  }

  /** Whatever both players mix, their expected payoffs in a zero-sum game add up to zero. */
  lemma ZeroSumExpected(values: seq<int>, p: seq<real>, q: seq<real>)
    requires ZeroSum(values).Ok?
    requires EP.TwoSided(ZeroSum(values).value, 2, p, q).Ok?
    ensures EP.TwoSided(ZeroSum(values).value, 2, p, q).value.0 + EP.TwoSided(ZeroSum(values).value, 2, p, q).value.1 == 0.0
  {
    JointZeroSum(ZeroSum(values).value, p, q, 2, 2);
  }

  // ----------------------------------------------------- manual payoff entry

  const PayoffFormat := "Payoff must be two comma - separated integers (e.g., 3, 4)"

  /**
   * One manual answer: split at commas, the first two pieces read as integers, any
   * further pieces ignored; a missing piece or a non-integer is the same `ValueError`.
   */
  function ParsePayoff(reply: string): Result<Payoff> {
    var values := Split(reply, ',');
    if |values| < 2 then Err(ValueError(PayoffFormat))
    else
      var p1 := ParseInt(values[0]);
      var p2 := ParseInt(values[1]);
      if p1.None? || p2.None? then Err(ValueError(PayoffFormat))
      else Ok(Payoff(p1.value, p2.value))
  }

  lemma IntToStringNoComma(i: int)
    ensures ',' !in IntToString(i)
  {
    var s := IntToString(i);
    var d := NatToString(if i < 0 then -i else i);
    assert s == (if i < 0 then "-" + d else d);
    assert forall k :: 0 <= k < |d| ==> IsDigit(d[k]);
  }

  /** A rendered pair `"a,b"`, optionally followed by more comma-separated text, reads back as (a, b). */
  lemma ParsePayoffRoundTrip(a: int, b: int, more: Option<string>)
    ensures ParsePayoff(IntToString(a) + "," + IntToString(b) + (if more.Some? then "," + more.value else "")) == Ok(Payoff(a, b))
  {
    var tail := if more.Some? then "," + more.value else "";
    IntToStringNoComma(a);
    IntToStringNoComma(b);
    SplitFirstTwo(IntToString(a), IntToString(b), tail);
    ParseIntRoundTrip(a);
    ParseIntRoundTrip(b);
  }

  /** Two comma-free pieces joined by a comma, then nothing or another comma: the first two pieces. */
  lemma SplitFirstTwo(sa: string, sb: string, tail: string)
    requires ',' !in sa && ',' !in sb && (tail == [] || tail[0] == ',')
    ensures var v := Split(sa + "," + sb + tail, ','); |v| >= 2 && v[0] == sa && v[1] == sb
  {
    assert sa + "," + sb + tail == sa + [','] + (sb + tail);
    SplitCons(sa, ',', sb + tail);
    if tail == [] {
      assert sb + tail == sb;
      SplitNoSep(sb, ',');
    } else {
      assert sb + tail == sb + [','] + tail[1..];
      SplitCons(sb, ',', tail[1..]);
    }
  }

  /** An answer without a comma is rejected. */
  lemma ParsePayoffNeedsComma(reply: string)
    requires ',' !in reply
    ensures ParsePayoff(reply) == Err(ValueError(PayoffFormat))
  {
    SplitNoSep(reply, ',');
  }

  // --------------------------------------------------------------- dominance

  /** The player's payoff from own strategy `s` against opponent strategy `o`; any player other than 1 reads as player 2. */
  function OwnAt(m: Matrix, player: int, s: nat, o: nat): Result<int> {
    if player == 1 then
      if s < |m| && o < |m[s]| then Ok(m[s][o].u1) else Err(IndexError(ListIndexOutOfRange))
    else
      if o < |m| && s < |m[o]| then Ok(m[o][s].u2) else Err(IndexError(ListIndexOutOfRange))
  }

  /** `a > b` for strict dominance, `a >= b` for weak dominance. */
  predicate Beats(a: int, b: int, strict: bool) {
    if strict then a > b else a >= b
  }

  function StrategyCount(rows: nat, columns: nat, player: int): nat {
    if player == 1 then rows else columns
  }

  function OpponentCount(rows: nat, columns: nat, player: int): nat {
    if player == 1 then columns else rows
  }

  /**
   * The inner loop of both dominance checks: does `s` beat `o` against every opponent
   * strategy from `j` on? It stops at the first that it does not beat, and an absent
   * cell raises `IndexError`.
   */
  function BeatsFrom(m: Matrix, player: int, s: nat, o: nat, strict: bool, opps: nat, j: nat): Result<bool>
    decreases opps - j
  {
    if j >= opps then Ok(true)
    else
      var a := OwnAt(m, player, s, j);
      var b := OwnAt(m, player, o, j);
      if a.Err? then Err(a.error)
      else if b.Err? then Err(b.error)
      else if !Beats(a.value, b.value, strict) then Ok(false)
      else BeatsFrom(m, player, s, o, strict, opps, j + 1)
  }

  /** The outer loop of `is_dominant_strategy`: `s` against every other own strategy from `o` on. */
  function DominantFrom(m: Matrix, rows: nat, columns: nat, player: int, s: nat, strict: bool, o: nat): Result<bool>
    decreases StrategyCount(rows, columns, player) - o
  {
    if o >= StrategyCount(rows, columns, player) then Ok(true)
    else if o == s then DominantFrom(m, rows, columns, player, s, strict, o + 1)
    else
      match BeatsFrom(m, player, s, o, strict, OpponentCount(rows, columns, player), 0)
      case Err(e) => Err(e)
      case Ok(b) => if !b then Ok(false) else DominantFrom(m, rows, columns, player, s, strict, o + 1)
  }

  /** `is_dominant_strategy(s, player, strict)`. */
  function IsDominant(m: Matrix, rows: nat, columns: nat, s: nat, player: int, strict: bool): Result<bool> {
    DominantFrom(m, rows, columns, player, s, strict, 0)
  }

  /**
   * `_is_dominated_by(s1, s2, player, strict)`: it returns False as soon as `s1` pays at least
   * (strict) or more than (weak) `s2`, which is `s2` failing to beat `s1`.
   */
  function IsDominatedBy(m: Matrix, rows: nat, columns: nat, s1: nat, s2: nat, player: int, strict: bool): Result<bool> {
    BeatsFrom(m, player, s2, s1, strict, OpponentCount(rows, columns, player), 0)
  }

  /** Is `s` dominated by some other own strategy from `o` on? Stops at the first that dominates it. */
  function DominatorFrom(m: Matrix, rows: nat, columns: nat, player: int, s: nat, strict: bool, o: nat): Result<bool>
    decreases StrategyCount(rows, columns, player) - o
  {
    if o >= StrategyCount(rows, columns, player) then Ok(false)
    else if o == s then DominatorFrom(m, rows, columns, player, s, strict, o + 1)
    else
      match IsDominatedBy(m, rows, columns, s, o, player, strict)
      case Err(e) => Err(e)
      case Ok(b) => if b then Ok(true) else DominatorFrom(m, rows, columns, player, s, strict, o + 1)
  }

  /** `get_dominated_strategies(player, strict)` over own strategies from `k` on. */
  function DominatedFrom(m: Matrix, rows: nat, columns: nat, player: int, strict: bool, k: nat): Result<seq<nat>>
    decreases StrategyCount(rows, columns, player) - k
  {
    if k >= StrategyCount(rows, columns, player) then Ok([])
    else
      match IsDominant(m, rows, columns, k, player, strict)
      case Err(e) => Err(e)
      case Ok(dominant) =>
        var here: Result<bool> := if dominant then Ok(false) else DominatorFrom(m, rows, columns, player, k, strict, 0);
        if here.Err? then Err(here.error)
        else
          match DominatedFrom(m, rows, columns, player, strict, k + 1)
          case Err(e) => Err(e)
          case Ok(rest) => Ok(if here.value then [k] + rest else rest)
  }

  function GetDominated(m: Matrix, rows: nat, columns: nat, player: int, strict: bool): Result<seq<nat>> {
    DominatedFrom(m, rows, columns, player, strict, 0)
  }

  // The same notions on a grid that holds every cell they read.

  /** `rows` rows, each with at least `columns` cells. */
  predicate Fits(m: Matrix, rows: nat, columns: nat) {
    |m| == rows && Covers(m, columns)
  }

  function Own(m: Matrix, rows: nat, columns: nat, player: int, s: nat, o: nat): int
    requires Fits(m, rows, columns)
    requires s < StrategyCount(rows, columns, player) && o < OpponentCount(rows, columns, player)
  {
    if player == 1 then m[s][o].u1 else m[o][s].u2
  }

  /** `s2` beats `s1` against every opponent strategy. */
  predicate Dominates(m: Matrix, rows: nat, columns: nat, player: int, s2: nat, s1: nat, strict: bool)
    requires Fits(m, rows, columns)
    requires s1 < StrategyCount(rows, columns, player) && s2 < StrategyCount(rows, columns, player)
  {
    forall j :: 0 <= j < OpponentCount(rows, columns, player) ==>
      Beats(Own(m, rows, columns, player, s2, j), Own(m, rows, columns, player, s1, j), strict)
  }

  /** `s` dominates every other own strategy. */
  predicate Dominant(m: Matrix, rows: nat, columns: nat, player: int, s: nat, strict: bool)
    requires Fits(m, rows, columns) && s < StrategyCount(rows, columns, player)
  {
    forall o :: 0 <= o < StrategyCount(rows, columns, player) && o != s ==>
      Dominates(m, rows, columns, player, s, o, strict)
  }

  /** Some other own strategy dominates `s`. */
  predicate Dominated(m: Matrix, rows: nat, columns: nat, player: int, s: nat, strict: bool)
    requires Fits(m, rows, columns) && s < StrategyCount(rows, columns, player)
  {
    exists o :: 0 <= o < StrategyCount(rows, columns, player) && o != s &&
      Dominates(m, rows, columns, player, o, s, strict)
  }

  lemma {:induction false} BeatsFromExact(m: Matrix, rows: nat, columns: nat, player: int, s: nat, o: nat, strict: bool, j: nat)
    requires Fits(m, rows, columns)
    requires s < StrategyCount(rows, columns, player) && o < StrategyCount(rows, columns, player)
    ensures BeatsFrom(m, player, s, o, strict, OpponentCount(rows, columns, player), j) ==
      Ok(forall i :: j <= i < OpponentCount(rows, columns, player) ==>
        Beats(Own(m, rows, columns, player, s, i), Own(m, rows, columns, player, o, i), strict))
    decreases OpponentCount(rows, columns, player) - j
  {
    var n := OpponentCount(rows, columns, player);
    if j < n {
      BeatsFromExact(m, rows, columns, player, s, o, strict, j + 1);
      assert OwnAt(m, player, s, j) == Ok(Own(m, rows, columns, player, s, j));
      assert OwnAt(m, player, o, j) == Ok(Own(m, rows, columns, player, o, j));
      assert (forall i :: j <= i < n ==> Beats(Own(m, rows, columns, player, s, i), Own(m, rows, columns, player, o, i), strict))
        <==> (Beats(Own(m, rows, columns, player, s, j), Own(m, rows, columns, player, o, j), strict) &&
          (forall i :: j + 1 <= i < n ==> Beats(Own(m, rows, columns, player, s, i), Own(m, rows, columns, player, o, i), strict)));
    }
  }

  lemma {:induction false} DominantFromExact(m: Matrix, rows: nat, columns: nat, player: int, s: nat, strict: bool, o: nat)
    requires Fits(m, rows, columns) && s < StrategyCount(rows, columns, player)
    ensures DominantFrom(m, rows, columns, player, s, strict, o) ==
      Ok(forall k :: o <= k < StrategyCount(rows, columns, player) && k != s ==>
        Dominates(m, rows, columns, player, s, k, strict))
    decreases StrategyCount(rows, columns, player) - o
  {
    var n := StrategyCount(rows, columns, player);
    if o < n {
      DominantFromExact(m, rows, columns, player, s, strict, o + 1);
      if o != s {
        BeatsFromExact(m, rows, columns, player, s, o, strict, 0);
        assert (forall k :: o <= k < n && k != s ==> Dominates(m, rows, columns, player, s, k, strict))
          <==> (Dominates(m, rows, columns, player, s, o, strict) &&
            (forall k :: o + 1 <= k < n && k != s ==> Dominates(m, rows, columns, player, s, k, strict)));
      }
    }
  }

  /** On a grid that holds every cell it reads, the dominance check answers exactly whether `s` is dominant. */
  lemma IsDominantExact(m: Matrix, rows: nat, columns: nat, s: nat, player: int, strict: bool)
    requires Fits(m, rows, columns) && s < StrategyCount(rows, columns, player)
    ensures IsDominant(m, rows, columns, s, player, strict) == Ok(Dominant(m, rows, columns, player, s, strict))
  {
    DominantFromExact(m, rows, columns, player, s, strict, 0);
  }

  /** ... and `_is_dominated_by` answers exactly whether `s2` dominates `s1`. */
  lemma IsDominatedByExact(m: Matrix, rows: nat, columns: nat, s1: nat, s2: nat, player: int, strict: bool)
    requires Fits(m, rows, columns)
    requires s1 < StrategyCount(rows, columns, player) && s2 < StrategyCount(rows, columns, player)
    ensures IsDominatedBy(m, rows, columns, s1, s2, player, strict) == Ok(Dominates(m, rows, columns, player, s2, s1, strict))
  {
    BeatsFromExact(m, rows, columns, player, s2, s1, strict, 0);
  }

  lemma {:induction false} DominatorFromExact(m: Matrix, rows: nat, columns: nat, player: int, s: nat, strict: bool, o: nat)
    requires Fits(m, rows, columns) && s < StrategyCount(rows, columns, player)
    ensures DominatorFrom(m, rows, columns, player, s, strict, o) ==
      Ok(exists k :: (o <= k < StrategyCount(rows, columns, player) && k != s &&
        Dominates(m, rows, columns, player, k, s, strict)))
    decreases StrategyCount(rows, columns, player) - o
  {
    if o < StrategyCount(rows, columns, player) {
      DominatorFromExact(m, rows, columns, player, s, strict, o + 1);
      if o != s {
        IsDominatedByExact(m, rows, columns, s, o, player, strict);
      }
    }
  }

  lemma {:induction false} DominatedFromExact(m: Matrix, rows: nat, columns: nat, player: int, strict: bool, k: nat)
    requires Fits(m, rows, columns)
    ensures DominatedFrom(m, rows, columns, player, strict, k).Ok?
    ensures var r := DominatedFrom(m, rows, columns, player, strict, k).value;
      Increasing(r) && (forall i :: 0 <= i < |r| ==> k <= r[i]) &&
      forall x: nat :: x in r <==> (k <= x < StrategyCount(rows, columns, player) &&
        !Dominant(m, rows, columns, player, x, strict) && Dominated(m, rows, columns, player, x, strict))
    decreases StrategyCount(rows, columns, player) - k
  {
    if k < StrategyCount(rows, columns, player) {
      DominatedFromExact(m, rows, columns, player, strict, k + 1);
      IsDominantExact(m, rows, columns, k, player, strict);
      DominatorFromExact(m, rows, columns, player, k, strict, 0);
    }
  }

  /**
   * `get_dominated_strategies` lists, in ascending order and each once, exactly the strategies
   * that are not dominant themselves and are dominated by another.
   */
  lemma GetDominatedExact(m: Matrix, rows: nat, columns: nat, player: int, strict: bool)
    requires Fits(m, rows, columns)
    ensures GetDominated(m, rows, columns, player, strict).Ok?
    ensures Increasing(GetDominated(m, rows, columns, player, strict).value)
    ensures NoDup(GetDominated(m, rows, columns, player, strict).value)
    ensures forall x: nat :: x in GetDominated(m, rows, columns, player, strict).value <==>
      (x < StrategyCount(rows, columns, player) &&
       !Dominant(m, rows, columns, player, x, strict) && Dominated(m, rows, columns, player, x, strict))
  {
    DominatedFromExact(m, rows, columns, player, strict, 0);
    var r := GetDominated(m, rows, columns, player, strict).value;
    forall i, j | 0 <= i < j < |r| ensures r[i] != r[j] {
      IncreasingOrdered(r, i, j);
    }
  }

  lemma {:induction false} IncreasingOrdered(r: seq<nat>, i: nat, j: nat)
    requires Increasing(r) && i < j < |r|
    ensures r[i] < r[j]
    decreases j - i
  {
    if j > i + 1 {
      IncreasingOrdered(r, i + 1, j);
    }
  }

  /**
   * Weak dominance asks only for `>=`: when every cell pays the same, every strategy is weakly
   * dominant and so none is listed as weakly dominated.
   */
  lemma AllEqualWeaklyDominant(m: Matrix, rows: nat, columns: nat, player: int, x: Payoff)
    requires Rectangular(m, rows, columns)
    requires forall r, c :: 0 <= r < rows && 0 <= c < columns ==> m[r][c] == x
    ensures forall s :: 0 <= s < StrategyCount(rows, columns, player) ==>
      IsDominant(m, rows, columns, s, player, false) == Ok(true)
    ensures GetDominated(m, rows, columns, player, false) == Ok([])
  {
    assert Fits(m, rows, columns);
    forall s | 0 <= s < StrategyCount(rows, columns, player)
      ensures IsDominant(m, rows, columns, s, player, false) == Ok(true)
    {
      IsDominantExact(m, rows, columns, s, player, false);
    }
    GetDominatedExact(m, rows, columns, player, false);
    var r := GetDominated(m, rows, columns, player, false).value;
    if r != [] {
      assert r[0] in r;
      IsDominantExact(m, rows, columns, r[0], player, false);
    }
  }

  /** A strictly dominant strategy makes every other strategy strictly dominated (when there is an opponent strategy). */
  lemma StrictDominantDominatesOthers(m: Matrix, rows: nat, columns: nat, player: int, s: nat, o: nat)
    requires Fits(m, rows, columns)
    requires s < StrategyCount(rows, columns, player) && o < StrategyCount(rows, columns, player) && o != s
    requires OpponentCount(rows, columns, player) > 0
    requires IsDominant(m, rows, columns, s, player, true) == Ok(true)
    ensures GetDominated(m, rows, columns, player, true).Ok?
    ensures o in GetDominated(m, rows, columns, player, true).value
  {
    IsDominantExact(m, rows, columns, s, player, true);
    GetDominatedExact(m, rows, columns, player, true);
    assert Dominates(m, rows, columns, player, s, o, true);
    assert Own(m, rows, columns, player, s, 0) > Own(m, rows, columns, player, o, 0);
    assert !Dominates(m, rows, columns, player, o, s, true);
  }

  // -------------------------------------------------------------- validators

  const PlayerOneOrTwo := "Player must be 1 or 2"
  const ProbabilityRange := "All probabilities must be between 0 and 1"
  const SumToOne := "Strategy probabilities must sum to 1"
  const NeedRowAndColumn := "Game must have at least one row and one column"

  /** The allowed distance of a strategy's sum from 1. */
  const Tolerance: real := 0.000001

  function Abs(x: real): real {
    if x < 0.0 then -x else x
  }

  /** `validate_strategy(strategy, player)`: the first check that fails raises its `ValueError`. */
  function ValidateStrategy(rows: nat, columns: nat, strategy: seq<real>, player: int): Outcome {
    if player != 1 && player != 2 then Fail(ValueError(PlayerOneOrTwo))
    else
      var n := if player == 1 then rows else columns;
      if |strategy| != n then
        Fail(ValueError("Strategy for player " + IntToString(player) + " must have " + NatToString(n) + " elements"))
      else if !(forall i :: 0 <= i < |strategy| ==> 0.0 <= strategy[i] <= 1.0) then Fail(ValueError(ProbabilityRange))
      else if Abs(EP.Sum(strategy, |strategy|) - 1.0) > Tolerance then Fail(ValueError(SumToOne))
      else Pass
  }

  lemma {:induction false} SumBoundsEntries(w: seq<real>, k: nat)
    requires k <= |w| && forall i :: 0 <= i < k ==> 0.0 <= w[i]
    ensures forall i :: 0 <= i < k ==> w[i] <= EP.Sum(w, k)
    ensures 0.0 <= EP.Sum(w, k)
    decreases k
  {
    if k > 0 {
      SumBoundsEntries(w, k - 1);
    }
  }

  /** Every probability vector of the right length passes, and whatever passes is within the tolerance of one. */
  lemma DistributionsPass(rows: nat, columns: nat, strategy: seq<real>, player: int)
    requires player == 1 || player == 2
    ensures EP.IsDistribution(strategy, if player == 1 then rows else columns) ==>
      ValidateStrategy(rows, columns, strategy, player) == Pass
    ensures ValidateStrategy(rows, columns, strategy, player) == Pass ==>
      |strategy| == (if player == 1 then rows else columns) &&
      (forall i :: 0 <= i < |strategy| ==> 0.0 <= strategy[i] <= 1.0) &&
      1.0 - Tolerance <= EP.Sum(strategy, |strategy|) <= 1.0 + Tolerance
  {
    if EP.IsDistribution(strategy, if player == 1 then rows else columns) {
      SumBoundsEntries(strategy, |strategy|);
    }
  }

  /** The first row, from `i` on, whose length differs from `columns`; `|grid|` when there is none. */
  function FirstBadRow(grid: Matrix, columns: nat, i: nat): (k: nat)
    requires i <= |grid|
    ensures i <= k <= |grid|
    ensures forall j :: i <= j < k ==> |grid[j]| == columns
    ensures k < |grid| ==> |grid[k]| != columns
    decreases |grid| - i
  {
    if i == |grid| || |grid[i]| != columns then i else FirstBadRow(grid, columns, i + 1)
  }

  /**
   * `validate_game_structure()`: at least one row and one column, `rows` rows, and each row
   * `columns` long, reporting the first row that is not. Every cell is a pair by construction.
   */
  function ValidateGameStructure(rows: nat, columns: nat, grid: Matrix): Outcome {
    if rows == 0 || columns == 0 then Fail(ValueError(NeedRowAndColumn))
    else if |grid| != rows then
      Fail(ValueError("Grid has " + NatToString(|grid|) + " rows but should have " + NatToString(rows)))
    else
      var k := FirstBadRow(grid, columns, 0);
      if k < |grid| then
        Fail(ValueError("Row " + NatToString(k) + " has " + NatToString(|grid[k]|) + " columns but should have " + NatToString(columns)))
      else Pass
  }

  /** The structure check passes exactly for a non-empty rectangular grid of the declared size. */
  lemma ValidateGameStructureExact(rows: nat, columns: nat, grid: Matrix)
    ensures ValidateGameStructure(rows, columns, grid) == Pass <==>
      rows > 0 && columns > 0 && Rectangular(grid, rows, columns)
  {
    if rows > 0 && columns > 0 && |grid| == rows {
      var k := FirstBadRow(grid, columns, 0);
      if k < |grid| {
        assert !Rectangular(grid, rows, columns);
      }
    }
  }

  // ------------------------------------------------------------------ export

  /** The dictionary `to_dict()` builds. */
  datatype GameDict = GameDict(
    rows: nat, columns: nat, mode: Mode, payoffMatrix: Matrix,
    p1Strategies: seq<string>, p2Strategies: seq<string>,
    p1Payoffs: seq<seq<int>>, p2Payoffs: seq<seq<int>>,
    nashEquilibria: seq<Coord>, mixedStrategy: Option<Mixed.MixedResult>)

  /** The `mixed_strategy` entry made from either form of the solver's answer. */
  function MixedEntry(a: Mixed.MixedAnswer): Mixed.MixedResult {
    match a
    case AsDict(d) => d
    case AsList(p1, p2) => Mixed.MixedResult(Some(p1), Some(p2), None)
  }

  /**
   * `to_dict()` of a game in mode `mode` with declared size `rows` x `columns`, grid `grid` and
   * stored equilibria `stored`: the stored equilibria, or freshly found ones when none are
   * stored; for a 2x2 game also the unchecked mixed solve. Errors of either search propagate.
   */
  function ToDict(mode: Mode, rows: nat, columns: nat, grid: Matrix, stored: seq<Coord>): Result<GameDict> {
    var nash := if stored != [] then Ok(stored) else PureNash(grid, columns, KeepStale);
    if nash.Err? then Err(nash.error)
    else
      var mixed := if rows == 2 && columns == 2 then Mixed.Indifference(grid, rows, columns, stored, false) else Ok(Mixed.AsList([], []));
      if mixed.Err? then Err(mixed.error)
      else
        Ok(GameDict(rows, columns, mode, grid,
          StrategyNames('A', rows), StrategyNames('B', columns),
          PlayerPayoffs(grid, 1), PlayerPayoffs(grid, 2),
          nash.value, if rows == 2 && columns == 2 then Some(MixedEntry(mixed.value)) else None))
  }

  /**
   * What the export holds: the grid as both payoff views, one name per strategy, the stored
   * equilibria or (when none are stored) a list holding every pure equilibrium, and a mixed
   * entry exactly for 2x2 games, whose strategies make each player indifferent.
   */
  lemma ToDictFacts(mode: Mode, rows: nat, columns: nat, grid: Matrix, stored: seq<Coord>, c: Coord)
    requires ToDict(mode, rows, columns, grid, stored).Ok?
    ensures var d := ToDict(mode, rows, columns, grid, stored).value;
      && GetStrategies(rows, columns, 1) == Ok(d.p1Strategies) && NoDup(d.p1Strategies)
      && GetStrategies(rows, columns, 2) == Ok(d.p2Strategies) && NoDup(d.p2Strategies)
      && GetPayoffs(grid, 1) == Ok(d.p1Payoffs) && GetPayoffs(grid, 2) == Ok(d.p2Payoffs)
      && (stored != [] ==> d.nashEquilibria == stored)
      && (stored == [] && IsEquilibrium(grid, columns, c) ==> c in d.nashEquilibria)
      && (d.mixedStrategy.Some? <==> rows == 2 && columns == 2)
  {
    StrategyNamesDistinct('A', rows);
    StrategyNamesDistinct('B', columns);
    if stored == [] {
      PureNashComplete(grid, columns, KeepStale, c);
    }
  }

  /** A mixed entry that reports both strategies reports a pair of indifference-making probabilities. */
  lemma ToDictMixedSound(mode: Mode, rows: nat, columns: nat, grid: Matrix, stored: seq<Coord>)
    requires ToDict(mode, rows, columns, grid, stored).Ok?
    requires ToDict(mode, rows, columns, grid, stored).value.mixedStrategy.Some?
    requires ToDict(mode, rows, columns, grid, stored).value.mixedStrategy.value.p1.Some?
    ensures |grid| == 2 && Covers(grid, 2)
    ensures var r := ToDict(mode, rows, columns, grid, stored).value.mixedStrategy.value;
      r.p2.Some? && r.error.None? && |r.p1.value| == 2 && |r.p2.value| == 2 &&
      Mixed.ColumnsIndifferent(grid[0][0].u2, grid[1][0].u2, grid[0][1].u2, grid[1][1].u2, r.p1.value[0]) &&
      Mixed.RowsIndifferent(grid[0][0].u1, grid[1][0].u1, grid[0][1].u1, grid[1][1].u1, r.p2.value[0])
  {
    var a := Mixed.Indifference(grid, rows, columns, stored, false).value;
    assert MixedEntry(a) == ToDict(mode, rows, columns, grid, stored).value.mixedStrategy.value;
    Mixed.IndifferenceSound(grid, rows, columns, stored, false);
  }
}
