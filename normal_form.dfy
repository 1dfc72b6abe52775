/**
 * `NormalForm`: the earlier version of the game object, kept alongside `StrategicGame`. It
 * has only the random and manual modes, keeps its best-response lists across calls (a search
 * always commits what it scans and answers with the whole stored list), has no length checks
 * on beliefs, and solves the 2x2 indifference equations on the top-left corner of any grid.
 */
module Legacy {
  import opened Base
  import opened Grid
  import opened BestResponse
  import opened Text
  import opened StrategicSpec
  import opened Strategic
  import EP = ExpectedPayoff
  import Mixed

  const LegacyInvalidMode := "Mode must be 'r' for random or 'm' for manual"

  /** The modes the legacy constructor accepts: 'r' and 'm'. */
  function LegacyModeOf(s: string): (r: Option<Mode>)
    ensures r.Some? <==> s == "r" || s == "m"
    ensures r.Some? ==> r.value != Direct && ModeLetter(r.value) == s
  {
    if s == "r" then Some(Random) else if s == "m" then Some(Manual) else None
  }

  // ------------------------------------------------------------ manual answers

  /** The message of Python's `int()` for text it cannot read (the text quoted as typed). */
  function InvalidLiteral(s: string): string {
    "invalid literal for int() with base 10: '" + s + "'"
  }

  /**
   * One answer in the legacy `add_payoffs`: split at commas, the first piece read as an
   * integer, then the second piece fetched and read; further pieces are ignored.
   */
  function LegacyPayoff(reply: string): Result<Payoff> {
    var values := Split(reply, ',');
    var a := ParseInt(values[0]);
    if a.None? then Err(ValueError(InvalidLiteral(values[0])))
    else if |values| < 2 then Err(IndexError(EP.ListIndexOutOfRange))
    else
      var b := ParseInt(values[1]);
      if b.None? then Err(ValueError(InvalidLiteral(values[1])))
      else Ok(Payoff(a.value, b.value))
  }

  /** How the legacy `add_payoffs` reads the replies of `input`. */
  function LegacyReader(reply: string -> string): string -> Result<Payoff> {
    s => LegacyPayoff(reply(s))
  }

  /**
   * The legacy format accepts exactly the answers the current one accepts and reads the same
   * payoff from them; only the exception for a bad answer differs.
   */
  lemma LegacyPayoffAgrees(reply: string)
    ensures LegacyPayoff(reply).Ok? <==> ParsePayoff(reply).Ok?
    ensures LegacyPayoff(reply).Ok? ==> LegacyPayoff(reply) == ParsePayoff(reply)
    ensures LegacyPayoff(reply).Err? ==> LegacyPayoff(reply).error.ValueError? || LegacyPayoff(reply).error.IndexError?
  {
  }

  /** Two integers separated by a comma are read back, whatever follows a further comma. */
  lemma LegacyPayoffRoundTrip(a: int, b: int, more: Option<string>)
    ensures LegacyPayoff(IntToString(a) + "," + IntToString(b) + (if more.Some? then "," + more.value else "")) == Ok(Payoff(a, b))
  {
    var s := IntToString(a) + "," + IntToString(b) + (if more.Some? then "," + more.value else "");
    ParsePayoffRoundTrip(a, b, more);
    LegacyPayoffAgrees(s);
  }

  /** An integer with no comma after it has no second piece: `IndexError`, not `ValueError`. */
  lemma LegacyPayoffOneValue(a: int)
    ensures LegacyPayoff(IntToString(a)) == Err(IndexError(EP.ListIndexOutOfRange))
  {
    IntToStringNoComma(a);
    SplitNoSep(IntToString(a), ',');
    ParseIntRoundTrip(a);
  }

  // ------------------------------------------------------------ two-sided payoffs

  /**
   * The legacy `ep_bpm`: both loops run over the declared size, so on a non-empty game a short
   * belief vector raises `IndexError`, longer ones are read only as far as the size, and an
   * empty game pays nothing.
   */
  function LegacyTwoSided(m: Matrix, columns: nat, p: seq<real>, q: seq<real>): Result<(real, real)> {
    if |m| == 0 || columns == 0 then Ok((0.0, 0.0))
    else if |p| < |m| || |q| < columns || !Covers(m, columns) then Err(IndexError(EP.ListIndexOutOfRange))
    else Ok((EP.Joint(m, p, q, columns, |m|, 1), EP.Joint(m, p, q, columns, |m|, 2)))
  }

  lemma {:induction false} JointNoColumns(m: Matrix, p: seq<real>, q: seq<real>, n: nat, player: int)
    requires n <= |m| && n <= |p|
    ensures EP.Joint(m, p, q, 0, n, player) == 0.0
    decreases n
  {
    if n > 0 {
      JointNoColumns(m, p, q, n - 1, player);
    }
  }

  lemma {:induction false} DoubleRowPrefix(row: seq<Payoff>, a: real, q: seq<real>, q': seq<real>, k: nat, player: int)
    requires k <= |row| && k <= |q| && k <= |q'|
    requires forall j :: 0 <= j < k ==> q[j] == q'[j]
    ensures EP.DoubleRow(row, a, q, k, player) == EP.DoubleRow(row, a, q', k, player)
    decreases k
  {
    if k > 0 {
      DoubleRowPrefix(row, a, q, q', k - 1, player);
    }
  }

  lemma {:induction false} JointPrefix(m: Matrix, p: seq<real>, q: seq<real>, p': seq<real>, q': seq<real>,
                                       columns: nat, n: nat, player: int)
    requires n <= |m| && n <= |p| && n <= |p'| && columns <= |q| && columns <= |q'|
    requires forall i :: 0 <= i < n ==> columns <= |m[i]|
    requires forall i :: 0 <= i < n ==> p[i] == p'[i]
    requires forall j :: 0 <= j < columns ==> q[j] == q'[j]
    ensures EP.Joint(m, p, q, columns, n, player) == EP.Joint(m, p', q', columns, n, player)
    decreases n
  {
    if n > 0 {
      JointPrefix(m, p, q, p', q', columns, n - 1, player);
      DoubleRowPrefix(m[n - 1], p[n - 1], q, q', columns, player);
    }
  }

  /** With beliefs of exactly the right lengths the legacy payoffs are the current ones. */
  lemma LegacyTwoSidedAgrees(m: Matrix, columns: nat, p: seq<real>, q: seq<real>)
    requires Covers(m, columns) && |p| == |m| && |q| == columns
    ensures LegacyTwoSided(m, columns, p, q) == EP.TwoSided(m, columns, p, q)
  {
    if columns == 0 {
      JointNoColumns(m, p, q, |m|, 1);
      JointNoColumns(m, p, q, |m|, 2);
    }
  }

  /** Entries past the declared size are never read: the legacy payoffs are those of the cut beliefs. */
  lemma LegacyTwoSidedPrefix(m: Matrix, columns: nat, p: seq<real>, q: seq<real>)
    requires |p| >= |m| && |q| >= columns
    ensures LegacyTwoSided(m, columns, p, q) == LegacyTwoSided(m, columns, p[..|m|], q[..columns])
  {
    if |m| > 0 && columns > 0 && Covers(m, columns) {
      JointPrefix(m, p, q, p[..|m|], q[..columns], columns, |m|, 1);
      JointPrefix(m, p, q, p[..|m|], q[..columns], columns, |m|, 2);
    }
  }

  // ------------------------------------------------------------ indifference

  /** What the legacy `get_indifference_probabilities` returns: `None`, `[]`, or both strategies. */
  datatype Indifferent = PureFound | Unsolvable | Solved(p1: seq<real>, p2: seq<real>)

  /**
   * The legacy solve: stored equilibria stop it; otherwise the four cells of the top-left 2x2
   * corner are read (a smaller grid raises `IndexError`) and both weights are solved, any
   * failure giving the empty list. The declared size is not checked.
   */
  function LegacyIndifference(m: Matrix, stored: seq<Coord>): Result<Indifferent> {
    if stored != [] then Ok(PureFound)
    else if |m| < 2 || |m[0]| < 2 || |m[1]| < 2 then Err(IndexError(EP.ListIndexOutOfRange))
    else
      match Mixed.SolveP(m[0][0].u2, m[1][0].u2, m[0][1].u2, m[1][1].u2)
      case Degenerate => Ok(Unsolvable)
      case OutOfRange => Ok(Unsolvable)
      case Prob(p) =>
        match Mixed.SolveQ(m[0][0].u1, m[1][0].u1, m[0][1].u1, m[1][1].u1)
        case Degenerate => Ok(Unsolvable)
        case OutOfRange => Ok(Unsolvable)
        case Prob(q) => Ok(Solved([p, 1.0 - p], [q, 1.0 - q]))
  }

  /**
   * On a 2x2 grid with nothing stored, the legacy solve finds strategies exactly when the
   * current unchecked solve does, and the same ones.
   */
  lemma LegacyIndifferenceAgrees(m: Matrix)
    requires |m| == 2 && Covers(m, 2)
    ensures Mixed.Indifference(m, 2, 2, [], false).Ok? && LegacyIndifference(m, []).Ok?
    ensures LegacyIndifference(m, []).value.Solved? <==>
      Mixed.Strategies(Mixed.Indifference(m, 2, 2, [], false).value).Some?
    ensures LegacyIndifference(m, []).value.Solved? ==>
      var s := LegacyIndifference(m, []).value;
      Mixed.Strategies(Mixed.Indifference(m, 2, 2, [], false).value) == Some((s.p1, s.p2))
  {
  }

  /** The top-left 2x2 corner of a grid. */
  function Corner(m: Matrix): (c: Matrix)
    requires |m| >= 2 && |m[0]| >= 2 && |m[1]| >= 2
    ensures |c| == 2 && Covers(c, 2)
  {
    [m[0][..2], m[1][..2]]
  }

  /**
   * On a larger grid the legacy solve answers as for its top-left corner: the strategies
   * it reports make the opponent indifferent there, whatever the other cells hold.
   */
  lemma LegacyIndifferenceCorner(m: Matrix)
    requires |m| >= 2 && |m[0]| >= 2 && |m[1]| >= 2
    ensures LegacyIndifference(m, []) == LegacyIndifference(Corner(m), [])
    ensures LegacyIndifference(m, []).value.Solved? ==>
      var s := LegacyIndifference(m, []).value;
      && |s.p1| == 2 && |s.p2| == 2
      && 0.0 <= s.p1[0] <= 1.0 && 0.0 <= s.p2[0] <= 1.0
      && Mixed.ColumnsIndifferent(m[0][0].u2, m[1][0].u2, m[0][1].u2, m[1][1].u2, s.p1[0])
      && Mixed.RowsIndifferent(m[0][0].u1, m[1][0].u1, m[0][1].u1, m[1][1].u1, s.p2[0])
  {
    var c := Corner(m);
    assert c[0][0] == m[0][0] && c[0][1] == m[0][1] && c[1][0] == m[1][0] && c[1][1] == m[1][1];
    LegacyIndifferenceAgrees(c);
    if LegacyIndifference(m, []).value.Solved? {
      Mixed.IndifferenceSound(c, 2, 2, [], false);
    }
  }

  // ------------------------------------------------------------ stored lists

  /**
   * A search that succeeds commits every line, so on a fresh game (empty lists) the stored
   * list is the player's best responses, and the legacy `find_pure_nash_equi` answers what
   * the current one does.
   */
  lemma FreshSearchAgrees(m: Matrix, columns: nat, player: int)
    requires ValidPlayer(player) && BestResponses(m, columns, player, KeepStale).Ok?
    ensures AppendNew([], Committed(m, columns, player)) == BestResponses(m, columns, player, KeepStale).value
  {
    var n := LineCount(m, columns, player);
    SearchStop(m, columns, player, FailurePoint(m, columns, player));
    FoundShape(m, columns, player, FailurePoint(m, columns, player), KeepStale);
    var c := Committed(m, columns, player);
    assert [] + c == c;
    AppendNewDistinct([], c);
  }

  lemma FreshPureNash(m: Matrix, columns: nat)
    requires PureNash(m, columns, KeepStale).Ok?
    ensures Intersect(AppendNew([], Committed(m, columns, 1)), AppendNew([], Committed(m, columns, 2))) ==
      PureNash(m, columns, KeepStale).value
  {
    FreshSearchAgrees(m, columns, 1);
    FreshSearchAgrees(m, columns, 2);
  }

  /**
   * Searching the same grid again changes nothing: its cells are already tagged and its
   * coordinates already stored, so a second `find_br` leaves the state as the first left it.
   */
  lemma {:induction false} SearchAgainIdle(m: Matrix, columns: nat, player: int, a: Annotated, acc: seq<Coord>)
    requires ValidPlayer(player) && CellsIn(a, Committed(m, columns, player))
    ensures var c := Committed(m, columns, player);
      && CellsIn(Mark(a, c, player), c)
      && Mark(Mark(a, c, player), c, player) == Mark(a, c, player)
      && AppendNew(AppendNew(acc, c), c) == AppendNew(acc, c)
  {
    var c := Committed(m, columns, player);
    MarkIdempotent(a, c, player);
    AppendNewFacts(acc, c);
    AppendNewAbsorbed(AppendNew(acc, c), c);
  }

  // ------------------------------------------------------------ the class

  class NormalForm {
    var mode: Mode
    var lowerLimit: int
    var upperLimit: int
    var rows: nat
    var columns: nat
    var grid: Matrix
    var gridPureNash: Annotated
    var nashEquilibria: seq<Coord>
    var p1Br: seq<Coord>
    var p2Br: seq<Coord>

    /** A random or manual game whose grid is `rows` x `columns`, with the invariant of `StrategicGame`. */
    ghost predicate Valid()
      reads this
    {
      mode != Direct && Consistent(mode, rows, columns, grid, gridPureNash, p1Br, p2Br)
    }

    /** The constructor once the mode has been checked: a zero grid and empty lists. */
    constructor (md: Mode, r: nat, c: nat, lo: int, hi: int)
      requires md != Direct
      ensures Valid()
      ensures mode == md && rows == r && columns == c && lowerLimit == lo && upperLimit == hi
      ensures grid == Zeros(r, c) && gridPureNash == Annotate(grid)
      ensures nashEquilibria == [] && p1Br == [] && p2Br == []
    {
      mode, rows, columns, lowerLimit, upperLimit := md, r, c, lo, hi;
      var g := Zeros(r, c);
      grid := g;
      gridPureNash := Annotate(g);
      nashEquilibria, p1Br, p2Br := [], [], [];
    }

    /** `NormalForm(mode, rows, columns, lower_limit, upper_limit)`: any mode but 'r' or 'm' raises `ValueError`. */
    static method Create(modeText: string, r: nat, c: nat, lo: int, hi: int) returns (g: Result<NormalForm>)
      ensures g.Err? <==> LegacyModeOf(modeText).None?
      ensures g.Err? ==> g.error == ValueError(LegacyInvalidMode)
      ensures g.Ok? ==> fresh(g.value) && g.value.Valid() && g.value.mode == LegacyModeOf(modeText).value
      ensures g.Ok? ==> g.value.rows == r && g.value.columns == c && g.value.grid == Zeros(r, c)
      ensures g.Ok? ==> g.value.lowerLimit == lo && g.value.upperLimit == hi
      ensures g.Ok? ==> g.value.gridPureNash == Annotate(g.value.grid)
      ensures g.Ok? ==> g.value.nashEquilibria == [] && g.value.p1Br == [] && g.value.p2Br == []
    {
      var md := LegacyModeOf(modeText);
      if md.None? {
        return Err(ValueError(LegacyInvalidMode));
      }
      var game := new NormalForm(md.value, r, c, lo, hi);
      g := Ok(game);
    }

    /**
     * `add_payoffs()`: for 'r' every cell gets two values drawn from [lower_limit, upper_limit]
     * (an empty range raises at the first cell); for 'm' every cell, in row-major order, gets
     * the answer to its prompt, and the first answer that cannot be read raises, leaving the
     * cells before it filled. The stored lists are kept.
     */
    method AddPayoffs(reply: string -> string) returns (r: Outcome)
      requires Valid()
      modifies this
      ensures Valid()
      ensures mode == old(mode) && rows == old(rows) && columns == old(columns)
      ensures lowerLimit == old(lowerLimit) && upperLimit == old(upperLimit)
      ensures nashEquilibria == old(nashEquilibria) && p1Br == old(p1Br) && p2Br == old(p2Br)
      ensures mode == Random && lowerLimit > upperLimit && AnyCell(old(grid)) ==>
        r == Fail(ValueError(EmptyRange)) && grid == old(grid) && gridPureNash == old(gridPureNash)
      ensures mode == Random && (lowerLimit <= upperLimit || !AnyCell(old(grid))) ==>
        r == Pass && SameDims(old(grid), grid) && Within(grid, lowerLimit, upperLimit) && gridPureNash == Annotate(grid)
      ensures mode == Manual ==> ManualFilled(old(grid), old(gridPureNash), grid, gridPureNash, LegacyReader(reply))
      ensures mode == Manual ==> (r == Pass <==> FirstBad(old(grid), LegacyReader(reply)).None?)
      ensures mode == Manual && FirstBad(old(grid), LegacyReader(reply)).Some? ==>
        var b := FirstBad(old(grid), LegacyReader(reply)).value;
        r == Fail(LegacyPayoff(reply(Prompt(b.row, b.col))).error)
    {
      var m0, a0 := grid, gridPureNash;
      var g, a;
      if mode == Random {
        g, a, r := RandomFill(m0, a0, lowerLimit, upperLimit);
      } else {
        g, a, r := ManualFill(m0, a0, LegacyReader(reply));
        var bad := FirstBad(m0, LegacyReader(reply));
        if bad.Some? {
          assert Answer(LegacyReader(reply), bad.value.row, bad.value.col) == LegacyPayoff(reply(Prompt(bad.value.row, bad.value.col)));
        }
      }
      ShapeKept(m0, a0, g, a, rows, columns, p1Br, p2Br);
      SetGrid(g, a);
    }

    /** Replaces the grid and its annotated copy by ones of the same shape; the lists are kept. */
    method SetGrid(g: Matrix, a: Annotated)
      requires mode != Direct && Consistent(mode, rows, columns, g, a, p1Br, p2Br)
      modifies this
      ensures Valid() && grid == g && gridPureNash == a
      ensures mode == old(mode) && rows == old(rows) && columns == old(columns)
      ensures lowerLimit == old(lowerLimit) && upperLimit == old(upperLimit)
      ensures nashEquilibria == old(nashEquilibria) && p1Br == old(p1Br) && p2Br == old(p2Br)
    {
      grid, gridPureNash := g, a;
    }

    /**
     * The pure branch of `find_br` for a valid player: the search always commits what it scans,
     * and a successful search answers with the player's whole stored list.
     */
    method SearchAndStore(player: int) returns (r: Result<seq<Coord>>)
      requires Valid() && ValidPlayer(player)
      modifies this
      ensures Valid()
      ensures grid == old(grid) && rows == old(rows) && columns == old(columns) && mode == old(mode)
      ensures lowerLimit == old(lowerLimit) && upperLimit == old(upperLimit) && nashEquilibria == old(nashEquilibria)
      ensures CellsIn(old(gridPureNash), Committed(grid, columns, player))
      ensures gridPureNash == Mark(old(gridPureNash), Committed(grid, columns, player), player)
      ensures player == 1 ==> p1Br == AppendNew(old(p1Br), Committed(grid, columns, 1)) && p2Br == old(p2Br)
      ensures player == 2 ==> p2Br == AppendNew(old(p2Br), Committed(grid, columns, 2)) && p1Br == old(p1Br)
      ensures BestResponses(grid, columns, player, KeepStale).Err? ==> r == Err(BestResponses(grid, columns, player, KeepStale).error)
      ensures BestResponses(grid, columns, player, KeepStale).Ok? ==> r == Ok(if player == 1 then p1Br else p2Br)
    {
      var g, a0, b1, b2 := grid, gridPureNash, p1Br, p2Br;
      ghost var cs := Committed(g, columns, player);
      var found, a, acc := SearchLines(g, columns, player, true, a0, if player == 1 then b1 else b2);
      CommitKeepsInvariant(mode, rows, columns, g, a0, b1, b2, cs, player);
      Store(player, a, acc);
      r := if found.Err? then Err(found.error) else Ok(acc);
    }

    /** Stores a player's committed search: the tagged grid and the player's extended list. */
    method Store(player: int, a: Annotated, acc: seq<Coord>)
      requires ValidPlayer(player) && mode != Direct
      requires player == 1 ==> Consistent(mode, rows, columns, grid, a, acc, p2Br)
      requires player == 2 ==> Consistent(mode, rows, columns, grid, a, p1Br, acc)
      modifies this
      ensures Valid()
      ensures grid == old(grid) && rows == old(rows) && columns == old(columns) && mode == old(mode)
      ensures lowerLimit == old(lowerLimit) && upperLimit == old(upperLimit) && nashEquilibria == old(nashEquilibria)
      ensures gridPureNash == a
      ensures player == 1 ==> p1Br == acc && p2Br == old(p2Br)
      ensures player == 2 ==> p2Br == acc && p1Br == old(p1Br)
    {
      gridPureNash := a;
      if player == 1 {
        p1Br := acc;
      } else {
        p2Br := acc;
      }
    }

    /**
     * `find_br(player, mixing, beliefs)`: a player other than 1 or 2 raises `ValueError`;
     * without mixing, the search as `SearchAndStore`; with mixing, the expected payoff of each
     * own strategy against the beliefs, where missing beliefs raise `TypeError` as soon as a
     * belief is read.
     */
    method FindBr(player: int, mixing: bool, beliefs: Option<seq<real>>) returns (r: Result<BrAnswer>)
      requires Valid()
      modifies this
      ensures Valid()
      ensures grid == old(grid) && rows == old(rows) && columns == old(columns) && mode == old(mode)
      ensures lowerLimit == old(lowerLimit) && upperLimit == old(upperLimit) && nashEquilibria == old(nashEquilibria)
      ensures !ValidPlayer(player) ==> r == Err(ValueError(EP.InvalidPlayer))
      ensures mixing || !ValidPlayer(player) ==>
        gridPureNash == old(gridPureNash) && p1Br == old(p1Br) && p2Br == old(p2Br)
      ensures ValidPlayer(player) && mixing && beliefs.None? && rows > 0 && columns > 0 ==>
        r == Err(TypeError(NoneNotSubscriptable))
      ensures ValidPlayer(player) && mixing && beliefs.None? && (rows == 0 || columns == 0) ==>
        r == Ok(Payoffs(EP.OneSided(grid, columns, player, []).value))
      ensures ValidPlayer(player) && mixing && beliefs.Some? ==>
        r == match EP.OneSided(grid, columns, player, beliefs.value)
             case Ok(es) => Ok(Payoffs(es))
             case Err(e) => Err(e)
      ensures ValidPlayer(player) && !mixing ==>
        CellsIn(old(gridPureNash), Committed(grid, columns, player)) &&
        gridPureNash == Mark(old(gridPureNash), Committed(grid, columns, player), player)
      ensures !mixing && player == 1 ==> p1Br == AppendNew(old(p1Br), Committed(grid, columns, 1)) && p2Br == old(p2Br)
      ensures !mixing && player == 2 ==> p2Br == AppendNew(old(p2Br), Committed(grid, columns, 2)) && p1Br == old(p1Br)
      ensures ValidPlayer(player) && !mixing ==>
        r == match BestResponses(grid, columns, player, KeepStale)
             case Ok(_) => Ok(Coords(if player == 1 then p1Br else p2Br))
             case Err(e) => Err(e)
    {
      if !ValidPlayer(player) {
        return Err(ValueError(EP.InvalidPlayer));
      }
      if !mixing {
        var b := SearchAndStore(player);
        r := if b.Ok? then Ok(Coords(b.value)) else Err(b.error);
        return;
      }
      if beliefs.None? && rows > 0 && columns > 0 {
        return Err(TypeError(NoneNotSubscriptable));
      }
      var e := ExpectedPayoffs(grid, columns, player, if beliefs.Some? then beliefs.value else []);
      r := if e.Ok? then Ok(Payoffs(e.value)) else Err(e.error);
    }

    /**
     * `find_pure_nash_equi()`: both searches commit what they scan (player 2 is not searched
     * when player 1's raises); then the stored equilibria become the cells of player 1's
     * stored list that are also in player 2's, in player 1's order.
     */
    method FindPureNashEqui() returns (r: Result<seq<Coord>>)
      requires Valid()
      modifies this
      ensures Valid()
      ensures grid == old(grid) && rows == old(rows) && columns == old(columns) && mode == old(mode)
      ensures lowerLimit == old(lowerLimit) && upperLimit == old(upperLimit)
      ensures CellsIn(old(gridPureNash), Committed(grid, columns, 1))
      ensures p1Br == AppendNew(old(p1Br), Committed(grid, columns, 1))
      ensures BestResponses(grid, columns, 1, KeepStale).Err? ==>
        r == Err(BestResponses(grid, columns, 1, KeepStale).error) && nashEquilibria == old(nashEquilibria) &&
        gridPureNash == Mark(old(gridPureNash), Committed(grid, columns, 1), 1) && p2Br == old(p2Br)
      ensures BestResponses(grid, columns, 1, KeepStale).Ok? ==>
        CellsIn(Mark(old(gridPureNash), Committed(grid, columns, 1), 1), Committed(grid, columns, 2)) &&
        gridPureNash == Mark(Mark(old(gridPureNash), Committed(grid, columns, 1), 1), Committed(grid, columns, 2), 2) &&
        p2Br == AppendNew(old(p2Br), Committed(grid, columns, 2))
      ensures PureNash(grid, columns, KeepStale).Err? ==>
        r == Err(PureNash(grid, columns, KeepStale).error) && nashEquilibria == old(nashEquilibria)
      ensures PureNash(grid, columns, KeepStale).Ok? ==>
        nashEquilibria == Intersect(p1Br, p2Br) && r == Ok(nashEquilibria)
    {
      var b1 := SearchAndStore(1);
      if b1.Err? {
        return Err(b1.error);
      }
      var b2 := SearchAndStore(2);
      if b2.Err? {
        return Err(b2.error);
      }
      var e := Intersect(p1Br, p2Br);
      SetEquilibria(e);
      r := Ok(e);
    }

    /** Stores the equilibria found; nothing else changes. */
    method SetEquilibria(e: seq<Coord>)
      requires Valid()
      modifies this
      ensures Valid() && nashEquilibria == e
      ensures grid == old(grid) && rows == old(rows) && columns == old(columns) && mode == old(mode)
      ensures lowerLimit == old(lowerLimit) && upperLimit == old(upperLimit)
      ensures gridPureNash == old(gridPureNash) && p1Br == old(p1Br) && p2Br == old(p2Br)
    {
      nashEquilibria := e;
    }

    /**
     * `ep_bpm(p1_beliefs, p2_beliefs)`: the product of the beliefs weighs every cell of the
     * declared size, and each player's expected payoff is the weighted sum of their payoffs.
     */
    method EpBpm(p: seq<real>, q: seq<real>) returns (r: Result<(real, real)>)
      requires Valid()
      ensures r == LegacyTwoSided(grid, columns, p, q)
    {
      var m, n := grid, columns;
      if |m| == 0 || n == 0 {
        return Ok((0.0, 0.0));
      }
      if |p| < |m| || |q| < n {
        // the first read past the end of a belief vector, while the product is filled
        return Err(IndexError(EP.ListIndexOutOfRange));
      }
      var beliefs := EP.BeliefProduct(p, q, |m|, n);
      var e1 := EP.WeightedSum(m, beliefs, p, q, n, 1);
      var e2 := EP.WeightedSum(m, beliefs, p, q, n, 2);
      r := Ok((e1.value, e2.value));
    }

    /** `get_indifference_probabilities()`: the legacy solve on the grid and the stored equilibria. */
    method GetIndifferenceProbabilities() returns (r: Result<Indifferent>)
      requires Valid()
      ensures r == LegacyIndifference(grid, nashEquilibria)
    {
      var m: Matrix := grid;
      if |nashEquilibria| > 0 {
        return Ok(PureFound);
      }
      if |m| < 2 || |m[0]| < 2 || |m[1]| < 2 {
        return Err(IndexError(EP.ListIndexOutOfRange));
      }
      match Mixed.SolveP(m[0][0].u2, m[1][0].u2, m[0][1].u2, m[1][1].u2)
      case Degenerate => return Ok(Unsolvable);
      case OutOfRange => return Ok(Unsolvable);
      case Prob(p) =>
        match Mixed.SolveQ(m[0][0].u1, m[1][0].u1, m[0][1].u1, m[1][1].u1)
        case Degenerate => return Ok(Unsolvable);
        case OutOfRange => return Ok(Unsolvable);
        case Prob(q) => return Ok(Solved([p, 1.0 - p], [q, 1.0 - q]));
    }
  }
}
