/**
 * The closed-form mixed equilibrium of a 2x2 game, found by making each player
 * indifferent between the opponent's two strategies.
 */
module Mixed {
  import opened Base
  import opened Grid
  import opened BestResponse

  /** Outcome of one closed-form solve: a zero denominator, a value outside [0, 1], or a probability. */
  datatype Solve = Degenerate | OutOfRange | Prob(v: real)

  /**
   * `num / (x - y + w - z)` when the denominator is non-zero and the quotient lies in [0, 1].
   * x, y, z, w are one player's payoffs at (row 0, column 0), (row 1, column 0),
   * (row 0, column 1) and (row 1, column 1).
   */
  function SolveWith(x: int, y: int, z: int, w: int, num: int): Solve {
    var d := x - y + w - z;
    if d == 0 then Degenerate
    else
      var v := (num as real) / (d as real);
      if v < 0.0 || 1.0 - v < 0.0 then OutOfRange else Prob(v)
  }

  /** Player 1's weight on row 0, from player 2's payoffs: `(w - y) / D`. */
  function SolveP(x: int, y: int, z: int, w: int): Solve {
    SolveWith(x, y, z, w, w - y)
  }

  /** Player 2's weight on column 0, from player 1's payoffs: `(w - z) / D`. */
  function SolveQ(x: int, y: int, z: int, w: int): Solve {
    SolveWith(x, y, z, w, w - z)
  }

  /** Row weight `p` leaves the column player indifferent: both columns pay the same. */
  predicate ColumnsIndifferent(x: int, y: int, z: int, w: int, p: real) {
    p * (x as real) + (1.0 - p) * (y as real) == p * (z as real) + (1.0 - p) * (w as real)
  }

  /** Column weight `q` leaves the row player indifferent: both rows pay the same. */
  predicate RowsIndifferent(x: int, y: int, z: int, w: int, q: real) {
    q * (x as real) + (1.0 - q) * (z as real) == q * (y as real) + (1.0 - q) * (w as real)
  }

  /**
   * The p-solve succeeds with `p` exactly when `p` is a probability that makes the column player
   * indifferent and the denominator is non-zero (so that `p` is the only such weight).
   */
  lemma SolvePExact(x: int, y: int, z: int, w: int, p: real)
    ensures SolveP(x, y, z, w) == Prob(p) <==>
      x - y + w - z != 0 && 0.0 <= p <= 1.0 && ColumnsIndifferent(x, y, z, w, p)
    ensures SolveP(x, y, z, w) == Degenerate <==> x - y + w - z == 0
  {
    IndifferenceLinear(x as real, y as real, z as real, w as real, p);
    if x - y + w - z != 0 {
      QuotientUnique((w - y) as real, (x - y + w - z) as real, p);
    }
  }

  /**
   * The q-solve succeeds with `q` exactly when `q` is a probability that makes the row player
   * indifferent and the denominator is non-zero.
   */
  lemma SolveQExact(x: int, y: int, z: int, w: int, q: real)
    ensures SolveQ(x, y, z, w) == Prob(q) <==>
      x - y + w - z != 0 && 0.0 <= q <= 1.0 && RowsIndifferent(x, y, z, w, q)
    ensures SolveQ(x, y, z, w) == Degenerate <==> x - y + w - z == 0
  {
    IndifferenceLinear(x as real, z as real, y as real, w as real, q);
    if x - y + w - z != 0 {
      QuotientUnique((w - z) as real, (x - y + w - z) as real, q);
    }
  }

  /** Equal expected payoffs against a weight `p`, rewritten as one linear equation in `p`. */
  lemma IndifferenceLinear(a: real, b: real, c: real, e: real, p: real)
    ensures p * a + (1.0 - p) * b == p * c + (1.0 - p) * e <==> p * (a - b - c + e) == e - b
  {
    assert p * a + (1.0 - p) * b == p * (a - b) + b;
    assert p * c + (1.0 - p) * e == p * (c - e) + e;
    assert p * (a - b) - p * (c - e) == p * (a - b - c + e);
  }

  /** With a non-zero denominator, the quotient is the only solution of `p * d == num`. */
  lemma QuotientUnique(num: real, d: real, p: real)
    requires d != 0.0
    ensures p * d == num <==> p == num / d
  {
    if p * d == num {
      assert p == p * d / d == num / d;
    }
  }

  /** The dictionary the solver returns: both strategies, or an error message. */
  datatype MixedResult = MixedResult(p1: Option<seq<real>>, p2: Option<seq<real>>, error: Option<string>)

  /** The dictionary form, or the bare list `[p1_strategy, p2_strategy]` kept for backward compatibility. */
  datatype MixedAnswer = AsDict(result: MixedResult) | AsList(p1: seq<real>, p2: seq<real>)

  const Not2x2 := "Mixed strategy calculation only supported for 2x2 games"
  const PureExists := "Pure Nash equilibria exist, no need for mixed strategy"
  const DivZeroP1 := "Division by zero when calculating Player 1's strategy. One or more strategies may be dominated."
  const NegativeP1 := "Negative probabilities for Player 1. One or more strategies may be dominated."
  const DivZeroP2 := "Division by zero when calculating Player 2's strategy. One or more strategies may be dominated."
  const NegativeP2 := "Negative probabilities for Player 2. One or more strategies may be dominated."

  function Failure(msg: string): MixedAnswer {
    AsDict(MixedResult(None, None, Some(msg)))
  }

  /**
   * `get_indifference_probabilities(check_pure_nash)` of a game with `rows` x `columns` declared,
   * grid `m` and stored equilibria `stored`. Only 2x2 games are solved; with the pure check on,
   * stored equilibria (or, when none are stored, freshly found ones) stop the solve; a grid
   * whose second row is too short raises `IndexError`.
   */
  function Indifference(m: Matrix, rows: nat, columns: nat, stored: seq<Coord>, checkPure: bool): Result<MixedAnswer> {
    if rows != 2 || columns != 2 then Err(ValueError(Not2x2))
    else
      var pure := if !checkPure then Ok([]) else if stored != [] then Ok(stored) else PureNash(m, columns, KeepStale);
      if pure.Err? then Err(pure.error)
      else if pure.value != [] then Ok(Failure(PureExists))
      else if |m| != 2 || !Covers(m, 2) then Err(IndexError(ListIndexOutOfRange))
      else
        match SolveP(m[0][0].u2, m[1][0].u2, m[0][1].u2, m[1][1].u2)
        case Degenerate => Ok(Failure(DivZeroP1))
        case OutOfRange => Ok(Failure(NegativeP1))
        case Prob(p) =>
          match SolveQ(m[0][0].u1, m[1][0].u1, m[0][1].u1, m[1][1].u1)
          case Degenerate => Ok(Failure(DivZeroP2))
          case OutOfRange => Ok(Failure(NegativeP2))
          case Prob(q) =>
            if checkPure then Ok(AsList([p, 1.0 - p], [q, 1.0 - q]))
            else Ok(AsDict(MixedResult(Some([p, 1.0 - p]), Some([q, 1.0 - q]), None)))
  }

  /** The strategies a successful solve reports, in either form. */
  function Strategies(a: MixedAnswer): Option<(seq<real>, seq<real>)> {
    match a
    case AsList(p1, p2) => Some((p1, p2))
    case AsDict(MixedResult(Some(p1), Some(p2), None)) => Some((p1, p2))
    case AsDict(_) => None
  }

  /**
   * Whatever strategies the solver reports form a mixed equilibrium in which each player is
   * indifferent between their own two strategies: `[p, 1 - p]` and `[q, 1 - q]` with p, q in [0, 1].
   */
  lemma IndifferenceSound(m: Matrix, rows: nat, columns: nat, stored: seq<Coord>, checkPure: bool)
    requires Indifference(m, rows, columns, stored, checkPure).Ok?
    requires Strategies(Indifference(m, rows, columns, stored, checkPure).value).Some?
    ensures rows == 2 && columns == 2 && |m| == 2 && Covers(m, 2)
    ensures var (s1, s2) := Strategies(Indifference(m, rows, columns, stored, checkPure).value).value;
      && |s1| == 2 && |s2| == 2
      && 0.0 <= s1[0] <= 1.0 && s1[1] == 1.0 - s1[0]
      && 0.0 <= s2[0] <= 1.0 && s2[1] == 1.0 - s2[0]
      && ColumnsIndifferent(m[0][0].u2, m[1][0].u2, m[0][1].u2, m[1][1].u2, s1[0])
      && RowsIndifferent(m[0][0].u1, m[1][0].u1, m[0][1].u1, m[1][1].u1, s2[0])
  {
    var sp := SolveP(m[0][0].u2, m[1][0].u2, m[0][1].u2, m[1][1].u2);
    var sq := SolveQ(m[0][0].u1, m[1][0].u1, m[0][1].u1, m[1][1].u1);
    SolvePExact(m[0][0].u2, m[1][0].u2, m[0][1].u2, m[1][1].u2, sp.v);
    SolveQExact(m[0][0].u1, m[1][0].u1, m[0][1].u1, m[1][1].u1, sq.v);
  }

  /** Battle of the Sexes with payoffs 3 and 2 mixes 0.6 / 0.4 for player 1 and 0.4 / 0.6 for player 2. */
  lemma BattleOfSexesMix()
    ensures Indifference([[Payoff(3, 2), Payoff(0, 0)], [Payoff(0, 0), Payoff(2, 3)]], 2, 2, [], false)
      == Ok(AsDict(MixedResult(Some([0.6, 0.4]), Some([0.4, 0.6]), None)))
  {
    assert SolveP(2, 0, 0, 3) == Prob(0.6);
    assert SolveQ(3, 0, 0, 2) == Prob(0.4);
  }
}
