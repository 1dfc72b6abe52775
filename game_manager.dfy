/**
 * `GameManager`: a registry of games under string ids "1", "2", ..., handed out in order by a
 * counter, with the analysis and export entry points the interfaces call.
 */
module Manager {
  import opened Base
  import opened Grid
  import opened BestResponse
  import opened Text
  import opened StrategicSpec
  import opened Strategic
  import EP = ExpectedPayoff
  import Mixed

  // ------------------------------------------------------------ ids

  /** The ids handed out while the counter ran from 1 up to `next`: "1" .. str(next - 1). */
  function Ids(next: nat): set<string>
    decreases next
  {
    if next <= 1 then {} else Ids(next - 1) + {NatToString(next - 1)}
  }

  /** An id is in use exactly when it is `str(k)` for a count k already passed. */
  lemma {:induction false} IdsExact(next: nat, id: string)
    ensures id in Ids(next) <==> exists k: nat :: 1 <= k < next && id == NatToString(k)
    decreases next
  {
    if next > 1 {
      IdsExact(next - 1, id);
      assert Ids(next) == Ids(next - 1) + {NatToString(next - 1)};
      if id == NatToString(next - 1) {
        var k: nat := next - 1;
        assert 1 <= k < next && id == NatToString(k);
      } else if exists k: nat :: 1 <= k < next && id == NatToString(k) {
        var k: nat :| 1 <= k < next && id == NatToString(k);
        assert 1 <= k < next - 1;
      }
    }
  }

  /** The next id is not in use yet, and handing it out adds exactly it. */
  lemma IdsNext(next: nat)
    requires next >= 1
    ensures NatToString(next) !in Ids(next)
    ensures Ids(next + 1) == Ids(next) + {NatToString(next)}
  {
    IdsExact(next, NatToString(next));
    if NatToString(next) in Ids(next) {
      var k: nat :| 1 <= k < next && NatToString(next) == NatToString(k);
      NatToStringInjective(k, next);
    }
  }

  // ------------------------------------------------------------ creation

  /** Why `StrategicGame(mode, rows, columns, payoff_matrix, ...)` raises, if it does. */
  function ConstructError(modeText: string, r: Option<nat>, c: Option<nat>, matrix: Option<Matrix>): (e: Option<Error>)
    ensures e.None? <==> (ModeOf(modeText).Some? &&
      (if ModeOf(modeText) == Some(Direct) then matrix.Some? else r.Some? && c.Some?))
  {
    var md := ModeOf(modeText);
    if md.None? then Some(ValueError(InvalidMode))
    else if md.value == Direct then (if matrix.None? then Some(ValueError(MatrixRequired)) else None)
    else if r.None? || c.None? then Some(ValueError(SizeRequired))
    else None
  }

  /** The keyword arguments `create_common_game` passes on; a missing one takes the factory's default. */
  datatype Kwargs = Kwargs(t: Option<int>, r: Option<int>, p: Option<int>, s: Option<int>,
                           a: Option<int>, b: Option<int>, values: Option<seq<int>>)

  function Or(o: Option<int>, d: int): int {
    if o.Some? then o.value else d
  }

  const CommonTypes: set<string> := {"prisoners_dilemma", "coordination", "battle_of_sexes", "zero_sum"}

  /** The keyword arguments the factory of a common game takes. */
  function Accepted(t: string): set<string> {
    if t == "prisoners_dilemma" then {"t", "r", "p", "s"}
    else if t == "zero_sum" then {"values"}
    else {"a", "b"}
  }

  function FactoryName(t: string): string {
    if t == "prisoners_dilemma" then "create_prisoners_dilemma"
    else if t == "coordination" then "create_coordination_game"
    else if t == "battle_of_sexes" then "create_battle_of_sexes"
    else "create_zero_sum_game"
  }

  /** The message of the `TypeError` a factory raises for a keyword it does not take. */
  function UnexpectedKeyword(t: string, k: string): string {
    FactoryName(t) + "() got an unexpected keyword argument '" + k + "'"
  }

  /** Whether the keyword argument called `k` is given. */
  predicate Passed(kw: Kwargs, k: string) {
    || (k == "t" && kw.t.Some?) || (k == "r" && kw.r.Some?) || (k == "p" && kw.p.Some?)
    || (k == "s" && kw.s.Some?) || (k == "a" && kw.a.Some?) || (k == "b" && kw.b.Some?)
    || (k == "values" && kw.values.Some?)
  }

  /** The first given keyword argument, in the order t, r, p, s, a, b, values, that the factory of `t` does not take. */
  function Foreign(t: string, kw: Kwargs): (k: Option<string>)
    ensures k.None? <==> forall n :: Passed(kw, n) ==> n in Accepted(t)
    ensures k.Some? ==> Passed(kw, k.value) && k.value !in Accepted(t)
  {
    if kw.t.Some? && "t" !in Accepted(t) then Some("t")
    else if kw.r.Some? && "r" !in Accepted(t) then Some("r")
    else if kw.p.Some? && "p" !in Accepted(t) then Some("p")
    else if kw.s.Some? && "s" !in Accepted(t) then Some("s")
    else if kw.a.Some? && "a" !in Accepted(t) then Some("a")
    else if kw.b.Some? && "b" !in Accepted(t) then Some("b")
    else if kw.values.Some? && "values" !in Accepted(t) then Some("values")
    else None
  }

  /** `create_zero_sum_game()` with no values and nothing else: the one call that draws its payoffs. */
  predicate Draws(t: string, kw: Kwargs) {
    t == "zero_sum" && kw.values.None? && Foreign(t, kw).None?
  }

  /**
   * The payoff matrix of a common game type, built with the given arguments or the factory's
   * defaults; `drawn` stands for the four random values a zero-sum game gets when none are given.
   * The type is dispatched first; the chosen factory then refuses a keyword it does not take.
   */
  function CommonMatrix(gameType: string, kw: Kwargs, drawn: seq<int>): (g: Result<Matrix>)
    ensures g.Ok? ==> Rectangular(g.value, 2, 2) && gameType in CommonTypes
    ensures gameType !in CommonTypes ==> g == Err(ValueError("Unknown game type: " + gameType))
    ensures gameType in CommonTypes && Foreign(gameType, kw).Some? ==>
      g == Err(TypeError(UnexpectedKeyword(gameType, Foreign(gameType, kw).value)))
  {
    if gameType !in CommonTypes then Err(ValueError("Unknown game type: " + gameType))
    else match Foreign(gameType, kw)
    case Some(k) => Err(TypeError(UnexpectedKeyword(gameType, k)))
    case None =>
      if gameType == "prisoners_dilemma" then PrisonersDilemma(Or(kw.t, 5), Or(kw.r, 3), Or(kw.p, 1), Or(kw.s, 0))
      else if gameType == "coordination" then Coordination(Or(kw.a, 5), Or(kw.b, 3))
      else if gameType == "battle_of_sexes" then BattleOfSexes(Or(kw.a, 3), Or(kw.b, 2))
      else ZeroSum(if kw.values.Some? then kw.values.value else drawn)
  }

  /** Every common type with its default arguments builds a game; any other name is refused. */
  lemma CommonDefaults(gameType: string, drawn: seq<int>)
    requires |drawn| == 4
    ensures var none := Kwargs(None, None, None, None, None, None, None);
      CommonMatrix(gameType, none, drawn).Ok? <==> gameType in CommonTypes
  {
  }

  /**
   * A keyword argument the chosen factory does not take is a `TypeError`, whichever arguments
   * come with it; with only the keywords it takes, the factory never raises one.
   */
  lemma CommonUnexpected(gameType: string, kw: Kwargs, drawn: seq<int>, k: string)
    requires gameType in CommonTypes
    ensures Passed(kw, k) && k !in Accepted(gameType) ==>
      CommonMatrix(gameType, kw, drawn).Err? && CommonMatrix(gameType, kw, drawn).error.TypeError?
    ensures (forall n :: Passed(kw, n) ==> n in Accepted(gameType)) ==>
      CommonMatrix(gameType, kw, drawn).Ok? || !CommonMatrix(gameType, kw, drawn).error.TypeError?
  {
  }

  // ------------------------------------------------------------ analysis and export

  /** What `analyze_game` returns: the entries present in its dictionary. */
  datatype Analysis = Analysis(pureNash: Option<seq<Coord>>, mixedNash: Option<Mixed.MixedResult>)

  /**
   * `analyze_game(find_nash, find_mixed)` of a game with grid `m`, declared size and stored
   * equilibria: the pure search stores what it finds; for a 2x2 game the checked solve then
   * runs on the equilibria stored by then, a list answer becoming a dictionary with no error.
   */
  function Analyze(m: Matrix, rows: nat, columns: nat, stored: seq<Coord>, findNash: bool, findMixed: bool): Result<Analysis> {
    var pure := PureNash(m, columns, KeepStale);
    if findNash && pure.Err? then Err(pure.error)
    else
      var pureEntry := if findNash then Some(pure.value) else None;
      var stored' := if findNash then pure.value else stored;
      if findMixed && rows == 2 && columns == 2 then
        match Mixed.Indifference(m, rows, columns, stored', true)
        case Err(e) => Err(e)
        case Ok(a) => Ok(Analysis(pureEntry, Some(MixedEntry(a))))
      else Ok(Analysis(pureEntry, None))
  }

  /** The report holds `pure_nash` iff asked for, and `mixed_nash` iff asked for on a 2x2 game. */
  lemma AnalyzeEntries(m: Matrix, rows: nat, columns: nat, stored: seq<Coord>, findNash: bool, findMixed: bool)
    requires Analyze(m, rows, columns, stored, findNash, findMixed).Ok?
    ensures Analyze(m, rows, columns, stored, findNash, findMixed).value.pureNash.Some? <==> findNash
    ensures Analyze(m, rows, columns, stored, findNash, findMixed).value.mixedNash.Some? <==>
      findMixed && rows == 2 && columns == 2
    ensures findNash ==> (Analyze(m, rows, columns, stored, findNash, findMixed).value.pureNash ==
      Some(PureNash(m, columns, KeepStale).value))
  {
  }

  /**
   * When the pure search finds an equilibrium of a 2x2 game, the mixed entry reports that no
   * mixed solve is needed, with both strategies absent.
   */
  lemma AnalyzePureFirst(m: Matrix, stored: seq<Coord>)
    requires PureNash(m, 2, KeepStale).Ok? && PureNash(m, 2, KeepStale).value != []
    ensures Analyze(m, 2, 2, stored, true, true) ==
      Ok(Analysis(Some(PureNash(m, 2, KeepStale).value), Some(Mixed.MixedResult(None, None, Some(Mixed.PureExists)))))
  {
  }

  /** What `export_game` returns: the dictionary, or its JSON text (kept as the dictionary it encodes). */
  datatype Export = AsDict(d: GameDict) | AsJson(d: GameDict)

  const UnsupportedFormat := "Unsupported export format: "

  /** `export_game(format)` given the game's `to_dict()`: the dictionary is built before the format is checked. */
  function ExportAs(d: Result<GameDict>, format: string): (r: Result<Export>)
    ensures d.Err? ==> r == Err(d.error)
    ensures d.Ok? ==> (r.Ok? <==> format == "dict" || format == "json")
    ensures r.Ok? ==> r.value.d == d.value && (r.value.AsJson? <==> format == "json")
    ensures d.Ok? && r.Err? ==> r.error == ValueError(UnsupportedFormat + format)
  {
    if d.Err? then Err(d.error)
    else if format == "json" then Ok(AsJson(d.value))
    else if format == "dict" then Ok(AsDict(d.value))
    else Err(ValueError(UnsupportedFormat + format))
  }

  function NotFound(id: string): Error {
    KeyError("Game with ID " + id + " not found")
  }

  /**
   * The analysis `analyze_game` runs on one stored game: the pure search with its state
   * updates when asked for, then the mixed solve of a 2x2 game, which changes nothing.
   */
  method AnalyzeStored(g: StrategicGame, findNash: bool, findMixed: bool) returns (r: Result<Analysis>)
    requires g.Valid()
    modifies g
    ensures g.Valid()
    ensures r == Analyze(old(g.grid), old(g.rows), old(g.columns), old(g.nashEquilibria), findNash, findMixed)
    ensures findNash ==> g.PureSearchCommitted()
    ensures !findNash ==> unchanged(g)
  {
    var pureEntry: Option<seq<Coord>> := None;
    if findNash {
      var p := g.FindPureNashEqui(true);
      if p.Err? {
        return Err(p.error);
      }
      pureEntry := Some(p.value);
    }
    if findMixed && g.rows == 2 && g.columns == 2 {
      var a := g.GetIndifferenceProbabilities(true);
      if a.Err? {
        return Err(a.error);
      }
      return Ok(Analysis(pureEntry, Some(MixedEntry(a.value))));
    }
    r := Ok(Analysis(pureEntry, None));
  }

  // ------------------------------------------------------------ the registry

  /** No game object is stored under two ids. */
  predicate DistinctGames(m: map<string, StrategicGame>) {
    forall a, b :: a in m && b in m && a != b ==> m[a] != m[b]
  }

  class GameManager {
    var games: map<string, StrategicGame>
    var nextGameId: nat

    /**
     * Every stored game keeps its invariant, no game object is stored under two ids, and the ids
     * in use are exactly "1" .. str(next_game_id - 1).
     */
    ghost predicate Valid()
      reads this, games.Values
    {
      && nextGameId >= 1
      && games.Keys == Ids(nextGameId)
      && DistinctGames(games)
      && forall id :: id in games ==> games[id].Valid()
    }

    /** A new manager has no games and will hand out "1" first. */
    constructor ()
      ensures Valid()
      ensures games == map[] && nextGameId == 1
    {
      games := map[];
      nextGameId := 1;
      assert Ids(1) == {};
    }

    /** Stores a new game under the next id and advances the counter. */
    method Register(g: StrategicGame) returns (id: string)
      requires Valid() && g.Valid() && g !in games.Values
      modifies this
      ensures Valid()
      ensures id == NatToString(old(nextGameId)) && id !in old(games)
      ensures games == old(games)[id := g] && nextGameId == old(nextGameId) + 1
    {
      IdsNext(nextGameId);
      id := NatToString(nextGameId);
      games := games[id := g];
      nextGameId := nextGameId + 1;
    }

    /**
     * `create_game(mode, rows, columns, payoff_matrix, lower_limit, upper_limit)`: builds the
     * game and stores it under the next id; when construction raises, nothing is stored.
     */
    method CreateGame(modeText: string, r: Option<nat>, c: Option<nat>, matrix: Option<Matrix>, lo: int, hi: int)
      returns (res: Result<(string, StrategicGame)>)
      requires Valid()
      modifies this
      ensures Valid()
      ensures res.Err? <==> ConstructError(modeText, r, c, matrix).Some?
      ensures res.Err? ==> res.error == ConstructError(modeText, r, c, matrix).value
      ensures res.Err? ==> games == old(games) && nextGameId == old(nextGameId)
      ensures res.Ok? ==> fresh(res.value.1) && res.value.0 == NatToString(old(nextGameId)) && res.value.0 !in old(games)
      ensures res.Ok? ==> games == old(games)[res.value.0 := res.value.1] && nextGameId == old(nextGameId) + 1
      ensures res.Ok? ==> res.value.1.mode == ModeOf(modeText).value && res.value.1.lowerLimit == lo && res.value.1.upperLimit == hi
      ensures res.Ok? ==> res.value.1.grid == if res.value.1.mode == Direct then matrix.value else Zeros(r.value, c.value)
      ensures res.Ok? ==> res.value.1.rows == (if res.value.1.mode == Direct then |matrix.value| else r.value)
      ensures res.Ok? ==> res.value.1.columns == (if res.value.1.mode == Direct then DirectColumns(matrix.value) else c.value)
    {
      var g := StrategicGame.Create(modeText, r, c, matrix, lo, hi);
      if g.Err? {
        return Err(g.error);
      }
      var id := Register(g.value);
      res := Ok((id, g.value));
    }

    /**
     * `create_common_game(game_type, **kwargs)`: builds one of the four factory games (a
     * direct-mode game with the default limits) and stores it under the next id. An unknown
     * type or argument values the factory refuses raise `ValueError`, a keyword the factory
     * does not take raises `TypeError`, and then nothing is stored.
     */
    method CreateCommonGame(gameType: string, kw: Kwargs) returns (res: Result<(string, StrategicGame)>)
      requires Valid()
      modifies this
      ensures Valid()
      ensures res.Err? ==> games == old(games) && nextGameId == old(nextGameId)
      ensures gameType in CommonTypes && Foreign(gameType, kw).Some? ==>
        res == Err(TypeError(UnexpectedKeyword(gameType, Foreign(gameType, kw).value)))
      ensures res.Ok? ==> fresh(res.value.1) && res.value.0 == NatToString(old(nextGameId)) && res.value.0 !in old(games)
      ensures res.Ok? ==> games == old(games)[res.value.0 := res.value.1] && nextGameId == old(nextGameId) + 1
      ensures res.Ok? ==> res.value.1.mode == Direct && res.value.1.rows == 2 && res.value.1.columns == 2
      ensures res.Ok? ==> res.value.1.lowerLimit == DefaultLower && res.value.1.upperLimit == DefaultUpper
      ensures !Draws(gameType, kw) ==>
        match CommonMatrix(gameType, kw, [])
        case Err(e) => res == Err(e)
        case Ok(m) => res.Ok? && res.value.1.grid == m
      ensures Draws(gameType, kw) ==> res.Ok? && Rectangular(res.value.1.grid, 2, 2)
      ensures Draws(gameType, kw) ==> forall r, c :: 0 <= r < 2 && 0 <= c < 2 ==>
        -5 <= res.value.1.grid[r][c].u1 <= 5 && res.value.1.grid[r][c].u2 == -res.value.1.grid[r][c].u1
    {
      var m: Result<Matrix>;
      if Draws(gameType, kw) {
        m := CreateZeroSum(None);
      } else {
        m := CommonMatrix(gameType, kw, []);
      }
      if m.Err? {
        return Err(m.error);
      }
      var g := new StrategicGame(Direct, 0, 0, m.value, DefaultLower, DefaultUpper);
      var id := Register(g);
      res := Ok((id, g));
    }

    /** `get_game(game_id)`: the stored game, or `KeyError` for an id not in use. */
    method GetGame(id: string) returns (r: Result<StrategicGame>)
      requires Valid()
      ensures id in games ==> r == Ok(games[id]) && r.value.Valid()
      ensures id !in games ==> r == Err(NotFound(id))
    {
      if id !in games {
        return Err(NotFound(id));
      }
      r := Ok(games[id]);
    }

    /**
     * `analyze_game(game_id, find_nash, find_mixed)`: the analysis of the stored game. The pure
     * search runs with its state updates, so the game keeps what it found: both searches tag
     * the annotated grid and extend the best-response lists by what they scanned, and a
     * successful search replaces the stored equilibria. No other stored game changes.
     */
    method AnalyzeGame(id: string, findNash: bool, findMixed: bool) returns (r: Result<Analysis>)
      requires Valid()
      modifies if id in games then {games[id]} else {}
      ensures Valid() && games == old(games) && nextGameId == old(nextGameId)
      ensures forall k :: k in games && k != id ==> unchanged(games[k])
      ensures id !in games ==> r == Err(NotFound(id))
      ensures id in games ==>
        r == Analyze(old(games[id].grid), old(games[id].rows), old(games[id].columns), old(games[id].nashEquilibria), findNash, findMixed)
      ensures id in games && findNash ==> games[id].PureSearchCommitted()
      ensures id in games && !findNash ==> unchanged(games[id])
    {
      var got := GetGame(id);
      if got.Err? {
        return Err(got.error);
      }
      var g := got.value;
      r := AnalyzeStored(g, findNash, findMixed);
      StillValid(g);
    }

    /** Changing one stored game, which keeps its own invariant, keeps the registry's. */
    lemma StillValid(g: StrategicGame)
      requires g.Valid() && nextGameId >= 1 && games.Keys == Ids(nextGameId) && DistinctGames(games)
      requires forall id :: id in games && games[id] != g ==> games[id].Valid()
      ensures Valid()
    {
    }

    /** `calculate_expected_payoffs(game_id, p1_strategy, p2_strategy)`: the stored game's `ep_bpm`. */
    method CalculateExpectedPayoffs(id: string, p: seq<real>, q: seq<real>) returns (r: Result<(real, real)>)
      requires Valid()
      ensures id !in games ==> r == Err(NotFound(id))
      ensures id in games ==> r == EP.TwoSided(games[id].grid, games[id].columns, p, q)
    {
      var got := GetGame(id);
      if got.Err? {
        return Err(got.error);
      }
      r := got.value.EpBpm(p, q);
    }

    /** `export_game(game_id, format)`: the stored game's `to_dict()` as a dictionary or as JSON. */
    method ExportGame(id: string, format: string) returns (r: Result<Export>)
      requires Valid()
      ensures id !in games ==> r == Err(NotFound(id))
      ensures id in games ==> r == ExportAs(
        StrategicSpec.ToDict(games[id].mode, games[id].rows, games[id].columns, games[id].grid, games[id].nashEquilibria), format)
    {
      var got := GetGame(id);
      if got.Err? {
        return Err(got.error);
      }
      var d := got.value.ToDict();
      if d.Err? {
        return Err(d.error);
      }
      if format == "json" {
        return Ok(AsJson(d.value));
      } else if format == "dict" {
        return Ok(AsDict(d.value));
      }
      r := Err(ValueError(UnsupportedFormat + format));
    }
  }
}
