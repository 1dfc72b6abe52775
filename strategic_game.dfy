/**
 * `StrategicGame`: a two-player normal-form game that keeps its payoff grid, an annotated
 * copy in which best responses are tagged, the best-response lists of both players and the
 * pure equilibria last stored.
 */
module Strategic {
  import opened Base
  import opened Grid
  import opened BestResponse
  import opened Text
  import opened StrategicSpec
  import EP = ExpectedPayoff
  import Mixed

  // ------------------------------------------------------------ filling in

  /** The question `add_payoffs` asks for a cell: "Enter payoff for ( A{r+1}, B{c+1} ) = ". */
  function Prompt(r: nat, c: nat): string {
    "Enter payoff for ( " + Label('A', r) + ", " + Label('B', c) + " ) = "
  }

  /**
   * The payoff typed in for a cell: `read` turns the text typed in answer to a prompt into a
   * payoff or the exception reading it raises.
   */
  function Answer(read: string -> Result<Payoff>, r: nat, c: nat): Result<Payoff> {
    read(Prompt(r, c))
  }

  /** How `add_payoffs` reads the replies of `input_function`: the manual payoff format. */
  function ManualReader(reply: string -> string): string -> Result<Payoff> {
    s => ParsePayoff(reply(s))
  }

  /** Every answer the manual format cannot read raises the same `ValueError`. */
  lemma ManualReaderFails(reply: string -> string, r: nat, c: nat)
    ensures Answer(ManualReader(reply), r, c).Err? ==> Answer(ManualReader(reply), r, c) == Err(ValueError(PayoffFormat))
  {
    assert Answer(ManualReader(reply), r, c) == ParsePayoff(reply(Prompt(r, c)));
  }

  /** Row-major order of cells: by row, then by column. */
  predicate Before(a: Coord, b: Coord) {
    a.row < b.row || (a.row == b.row && a.col < b.col)
  }

  /** The first cell, from row `i` column `j` on in row-major order, whose answer cannot be read. */
  function FirstBadFrom(m: Matrix, read: string -> Result<Payoff>, i: nat, j: nat): (b: Option<Coord>)
    requires i <= |m| && (i < |m| ==> j <= |m[i]|)
    ensures b.Some? ==> HasCell(m, b.value) && Answer(read, b.value.row, b.value.col).Err?
    ensures b.Some? ==> (b.value.row > i || (b.value.row == i && b.value.col >= j))
    decreases |m| - i, if i < |m| then |m[i]| - j else 0
  {
    if i == |m| then None
    else if j == |m[i]| then FirstBadFrom(m, read, i + 1, 0)
    else if Answer(read, i, j).Err? then Some(Coord(j, i))
    else FirstBadFrom(m, read, i, j + 1)
  }

  function FirstBad(m: Matrix, read: string -> Result<Payoff>): Option<Coord> {
    FirstBadFrom(m, read, 0, 0)
  }

  /** Every cell from (`i`, `j`) on that comes before the first unreadable answer was read. */
  lemma {:induction false} FirstBadFromClean(m: Matrix, read: string -> Result<Payoff>, i: nat, j: nat, r: nat, c: nat)
    requires i <= |m| && (i < |m| ==> j <= |m[i]|)
    requires r < |m| && c < |m[r]| && (r > i || (r == i && c >= j))
    requires FirstBadFrom(m, read, i, j).None? || Before(Coord(c, r), FirstBadFrom(m, read, i, j).value)
    ensures Answer(read, r, c).Ok?
    decreases |m| - i, if i < |m| then |m[i]| - j else 0
  {
    if j == |m[i]| {
      FirstBadFromClean(m, read, i + 1, 0, r, c);
    } else if Answer(read, i, j).Ok? && !(r == i && c == j) {
      FirstBadFromClean(m, read, i, j + 1, r, c);
    }
  }

  /** The fill stops at the first unreadable answer exactly when there is one. */
  lemma FirstBadExact(m: Matrix, read: string -> Result<Payoff>)
    ensures FirstBad(m, read).None? <==>
      forall r, c :: 0 <= r < |m| && 0 <= c < |m[r]| ==> Answer(read, r, c).Ok?
  {
    var b := FirstBad(m, read);
    if b.Some? {
      assert Answer(read, b.value.row, b.value.col).Err?;
    } else {
      forall r, c | 0 <= r < |m| && 0 <= c < |m[r]|
        ensures Answer(read, r, c).Ok?
      {
        FirstBadFromClean(m, read, 0, 0, r, c);
      }
    }
  }

  /** Cell `c` has been filled when the fill stopped at `stop` (or did not stop). */
  predicate Filled(c: Coord, stop: Option<Coord>) {
    stop.None? || Before(c, stop.value)
  }

  predicate SameDims(m: Matrix, m': Matrix) {
    |m| == |m'| && forall r :: 0 <= r < |m| ==> |m[r]| == |m'[r]|
  }

  /**
   * The state after a manual fill from grid `m0` and annotated grid `a0`: every cell before the
   * first unreadable answer holds its answer in both grids, every other cell is as it was.
   */
  predicate ManualFilled(m0: Matrix, a0: Annotated, m: Matrix, a: Annotated, read: string -> Result<Payoff>) {
    SameDims(m0, m) && SameShape(m, a) && SameShape(m0, a0) &&
    forall r, c :: 0 <= r < |m| && 0 <= c < |m[r]| ==>
      if Filled(Coord(c, r), FirstBad(m0, read)) then Answer(read, r, c) == Ok(m[r][c]) && a[r][c] == Plain(m[r][c])
      else m[r][c] == m0[r][c] && a[r][c] == a0[r][c]
  }

  /**
   * A manual fill from `m0`/`a0` that has reached row `i`, column `j`: cells before that point
   * hold their answers, the rest are untouched.
   */
  predicate Progress(m0: Matrix, a0: Annotated, m: Matrix, a: Annotated, read: string -> Result<Payoff>, i: nat, j: nat) {
    SameDims(m0, m) && SameShape(m, a) && SameShape(m0, a0) && i <= |m| &&
    forall r, c :: 0 <= r < |m| && 0 <= c < |m[r]| ==>
      if Before(Coord(c, r), Coord(j, i)) then Answer(read, r, c) == Ok(m[r][c]) && a[r][c] == Plain(m[r][c])
      else m[r][c] == m0[r][c] && a[r][c] == a0[r][c]
  }

  lemma ProgressCell(m0: Matrix, a0: Annotated, m: Matrix, a: Annotated, read: string -> Result<Payoff>, i: nat, j: nat, p: Payoff)
    requires Progress(m0, a0, m, a, read, i, j) && i < |m| && j < |m[i]| && Answer(read, i, j) == Ok(p)
    ensures Progress(m0, a0, SetAt(m, i, j, p), SetAt(a, i, j, Plain(p)), read, i, j + 1)
  {
  }

  lemma ProgressRow(m0: Matrix, a0: Annotated, m: Matrix, a: Annotated, read: string -> Result<Payoff>, i: nat)
    requires i < |m| && Progress(m0, a0, m, a, read, i, |m[i]|)
    ensures Progress(m0, a0, m, a, read, i + 1, 0)
  {
  }

  lemma ProgressStop(m0: Matrix, a0: Annotated, m: Matrix, a: Annotated, read: string -> Result<Payoff>, i: nat, j: nat)
    requires Progress(m0, a0, m, a, read, i, j) && FirstBad(m0, read) == Some(Coord(j, i))
    ensures ManualFilled(m0, a0, m, a, read)
  {
  }

  lemma ProgressDone(m0: Matrix, a0: Annotated, m: Matrix, a: Annotated, read: string -> Result<Payoff>)
    requires Progress(m0, a0, m, a, read, |m|, 0) && FirstBad(m0, read).None?
    ensures ManualFilled(m0, a0, m, a, read)
  {
  }

  /** A grid refilled cell by cell keeps its shape, so whatever held of the old shape still holds. */
  lemma ShapeKept(m0: Matrix, a0: Annotated, m: Matrix, a: Annotated, rows: nat, columns: nat, cs1: seq<Coord>, cs2: seq<Coord>)
    requires SameDims(m0, m) && SameShape(m0, a0) && SameShape(m, a)
    ensures Rectangular(m0, rows, columns) ==> Rectangular(m, rows, columns)
    ensures DirectColumns(m0) == DirectColumns(m)
    ensures CellsIn(a0, cs1) ==> CellsIn(a, cs1)
    ensures CellsIn(a0, cs2) ==> CellsIn(a, cs2)
  {
  }

  predicate AnyCell(m: Matrix) {
    exists r :: 0 <= r < |m| && |m[r]| > 0
  }

  predicate Within(m: Matrix, lo: int, hi: int) {
    forall r, c :: 0 <= r < |m| && 0 <= c < |m[r]| ==> lo <= m[r][c].u1 <= hi && lo <= m[r][c].u2 <= hi
  }

  const EmptyRange := "empty range for randrange()"
  const AssignmentOutOfRange := "list assignment index out of range"
  const BeliefsRequired := "beliefs must be provided when mixing = True"

  /** What `find_br` returns: coordinates of best responses, or expected payoffs against beliefs. */
  datatype BrAnswer = Coords(cs: seq<Coord>) | Payoffs(es: seq<real>)

  /**
   * The random branch of `add_payoffs`: each cell in turn gets two values from [lo, hi]; with
   * an empty range the first cell raises and nothing is written.
   */
  method RandomFill(m0: Matrix, a0: Annotated, lo: int, hi: int) returns (m: Matrix, a: Annotated, r: Outcome)
    requires SameShape(m0, a0)
    ensures SameDims(m0, m) && SameShape(m, a)
    ensures lo > hi && AnyCell(m0) ==> r == Fail(ValueError(EmptyRange)) && m == m0 && a == a0
    ensures lo <= hi || !AnyCell(m0) ==> r == Pass && Within(m, lo, hi) && a == Annotate(m)
  {
    m, a := m0, a0;
    var i := 0;
    while i < |m|
      invariant 0 <= i <= |m|
      invariant SameDims(m0, m) && SameShape(m, a)
      invariant forall x, y :: 0 <= x < i && 0 <= y < |m[x]| ==>
        lo <= m[x][y].u1 <= hi && lo <= m[x][y].u2 <= hi && a[x][y] == Plain(m[x][y])
      invariant forall x :: 0 <= x < i ==> |m[x]| == 0 || lo <= hi
      invariant lo > hi ==> m == m0 && a == a0
    {
      var j := 0;
      while j < |m[i]|
        invariant 0 <= i < |m| && 0 <= j <= |m[i]|
        invariant SameDims(m0, m) && SameShape(m, a)
        invariant forall x, y :: 0 <= x < |m| && 0 <= y < |m[x]| && (x < i || (x == i && y < j)) ==>
          lo <= m[x][y].u1 <= hi && lo <= m[x][y].u2 <= hi && a[x][y] == Plain(m[x][y])
        invariant j > 0 ==> lo <= hi
        invariant lo > hi ==> m == m0 && a == a0
      {
        if lo > hi {
          return m, a, Fail(ValueError(EmptyRange));
        }
        var u1 :| lo <= u1 <= hi;
        var u2 :| lo <= u2 <= hi;
        m := SetAt(m, i, j, Payoff(u1, u2));
        a := SetAt(a, i, j, Plain(Payoff(u1, u2)));
        j := j + 1;
      }
      i := i + 1;
    }
    AnnotateUnique(m, a);
    r := Pass;
  }

  /**
   * The manual branch of `add_payoffs`: each cell in row-major order gets the answer to its
   * prompt; the first answer that cannot be read stops the fill with `ValueError`.
   */
  method ManualFill(m0: Matrix, a0: Annotated, read: string -> Result<Payoff>) returns (m: Matrix, a: Annotated, r: Outcome)
    requires SameShape(m0, a0)
    ensures ManualFilled(m0, a0, m, a, read)
    ensures r == Pass <==> FirstBad(m0, read).None?
    ensures FirstBad(m0, read).Some? ==>
      r == Fail(Answer(read, FirstBad(m0, read).value.row, FirstBad(m0, read).value.col).error)
  {
    m, a := m0, a0;
    var i := 0;
    while i < |m|
      invariant 0 <= i <= |m| == |m0|
      invariant Progress(m0, a0, m, a, read, i, 0)
      invariant FirstBadFrom(m0, read, i, 0) == FirstBad(m0, read)
    {
      var j := 0;
      while j < |m[i]|
        invariant i < |m| == |m0| && 0 <= j <= |m[i]|
        invariant Progress(m0, a0, m, a, read, i, j)
        invariant FirstBadFrom(m0, read, i, j) == FirstBad(m0, read)
      {
        var p := read(Prompt(i, j));
        if p.Err? {
          assert FirstBad(m0, read) == Some(Coord(j, i));
          ProgressStop(m0, a0, m, a, read, i, j);
          return m, a, Fail(p.error);
        }
        ProgressCell(m0, a0, m, a, read, i, j, p.value);
        m := SetAt(m, i, j, p.value);
        a := SetAt(a, i, j, Plain(p.value));
        j := j + 1;
      }
      ProgressRow(m0, a0, m, a, read, i);
      i := i + 1;
    }
    ProgressDone(m0, a0, m, a, read);
    r := Pass;
  }

  /** Everything a search reports lies in a grid of the same shape. */
  lemma FoundCellsIn(m: Matrix, a: Annotated, columns: nat, player: int, n: nat)
    requires SameShape(m, a) && ValidPlayer(player)
    requires n <= LineCount(m, columns, player) && LinesOk(m, columns, player, n)
    ensures CellsIn(a, Found(m, columns, player, n, KeepStale))
  {
    FoundShape(m, columns, player, n, KeepStale);
    var f := Found(m, columns, player, n, KeepStale);
    forall i | 0 <= i < |f| ensures f[i].row < |a| && f[i].col < |a[f[i].row]| {
      assert f[i] in f;
    }
  }

  /** One more line scanned: what it reports extends the found list, the tags and the stored list. */
  lemma SearchStep(m: Matrix, columns: nat, player: int, k: nat, a0: Annotated, acc0: seq<Coord>)
    requires ValidPlayer(player) && SameShape(m, a0)
    requires k < LineCount(m, columns, player) && LinesOk(m, columns, player, k)
    requires LineError(m, columns, player, k) == None
    ensures LinesOk(m, columns, player, k + 1)
    ensures var found := Found(m, columns, player, k, KeepStale);
      var cs := LineCoords(m, columns, player, k, KeepStale);
      && Found(m, columns, player, k + 1, KeepStale) == found + cs
      && AppendNew(found, cs) == found + cs
      && CellsIn(a0, found + cs) && CellsIn(a0, found) && CellsIn(Mark(a0, found, player), cs)
      && Mark(a0, found + cs, player) == Mark(Mark(a0, found, player), cs, player)
      && AppendNew(acc0, found + cs) == AppendNew(AppendNew(acc0, found), cs)
  {
    var found := Found(m, columns, player, k, KeepStale);
    var cs := LineCoords(m, columns, player, k, KeepStale);
    assert LinesOk(m, columns, player, k + 1);
    var next := Found(m, columns, player, k + 1, KeepStale);
    assert next == found + cs;
    FoundShape(m, columns, player, k + 1, KeepStale);
    FoundCellsIn(m, a0, columns, player, k + 1);
    CommitStep(a0, acc0, found, cs, player);
  }

  /** Committing two distinct runs of cells at once is committing one, then the other. */
  lemma CommitStep(a0: Annotated, acc0: seq<Coord>, found: seq<Coord>, cs: seq<Coord>, player: int)
    requires NoDup(found + cs) && CellsIn(a0, found + cs)
    ensures AppendNew(found, cs) == found + cs
    ensures CellsIn(a0, found) && CellsIn(Mark(a0, found, player), cs)
    ensures Mark(a0, found + cs, player) == Mark(Mark(a0, found, player), cs, player)
    ensures AppendNew(acc0, found + cs) == AppendNew(AppendNew(acc0, found), cs)
  {
    MarkConcat(a0, found, cs, player);
    AppendNewConcat(acc0, found, cs);
    AppendNewDistinct(found, cs);
  }

  /** Where the search stops: the result and what has been committed by then. */
  lemma SearchStop(m: Matrix, columns: nat, player: int, k: nat)
    requires ValidPlayer(player) && k <= LineCount(m, columns, player) && LinesOk(m, columns, player, k)
    requires k == LineCount(m, columns, player) || LineError(m, columns, player, k).Some?
    ensures Committed(m, columns, player) == Found(m, columns, player, k, KeepStale)
    ensures BestResponses(m, columns, player, KeepStale) ==
      if k == LineCount(m, columns, player) then Ok(Found(m, columns, player, k, KeepStale))
      else Err(LineError(m, columns, player, k).value)
  {
    FailurePointAt(m, columns, player, k);
  }

  /**
   * The class invariant of a game: the declared size matches the grid (a directly given grid
   * may be ragged; its declared column count is its first row's length), the annotated grid has
   * the grid's shape, and the best-response lists hold distinct cells of it.
   */
  ghost predicate Consistent(mode: Mode, rows: nat, columns: nat, grid: Matrix, a: Annotated, b1: seq<Coord>, b2: seq<Coord>) {
    && |grid| == rows
    && SameShape(grid, a)
    && (mode == Direct ==> columns == DirectColumns(grid))
    && (mode != Direct ==> Rectangular(grid, rows, columns))
    && NoDup(b1) && NoDup(b2)
    && CellsIn(a, b1) && CellsIn(a, b2)
  }

  /** Storing a search's result for either player keeps the class invariant. */
  lemma CommitKeepsInvariant(md: Mode, rows: nat, columns: nat, m: Matrix, a0: Annotated, b1: seq<Coord>, b2: seq<Coord>,
                             cs: seq<Coord>, player: int)
    requires Consistent(md, rows, columns, m, a0, b1, b2) && CellsIn(a0, cs)
    ensures Consistent(md, rows, columns, m, Mark(a0, cs, player), AppendNew(b1, cs), b2)
    ensures Consistent(md, rows, columns, m, Mark(a0, cs, player), b1, AppendNew(b2, cs))
  {
    AppendNewFacts(b1, cs);
    CellsInAppendNew(a0, b1, cs);
    AppendNewFacts(b2, cs);
    CellsInAppendNew(a0, b2, cs);
  }

  /** The coordinates of one line's best responses, read off the line by a single scan. */
  method ScanLineAt(m: Matrix, columns: nat, player: int, k: nat) returns (cs: seq<Coord>)
    requires ValidPlayer(player) && k < LineCount(m, columns, player)
    requires LineError(m, columns, player, k) == None
    ensures cs == LineCoords(m, columns, player, k, KeepStale)
  {
    var idx := ScanLine(Line(m, columns, player, k));
    cs := Place(idx, k, player);
  }

  /**
   * The line-by-line search of `calculate_best_responses` for a valid player, on the annotated
   * grid `a0` and the player's stored list `acc0`: it returns the player's best responses or
   * the exception of the first line that raises; with `update`, every line scanned before that
   * has tagged its cells and added its new coordinates to the stored list.
   */
  method SearchLines(m: Matrix, columns: nat, player: int, update: bool, a0: Annotated, acc0: seq<Coord>)
    returns (r: Result<seq<Coord>>, a: Annotated, acc: seq<Coord>)
    requires ValidPlayer(player) && SameShape(m, a0)
    ensures r == BestResponses(m, columns, player, KeepStale)
    ensures CellsIn(a0, Committed(m, columns, player))
    ensures a == if update then Mark(a0, Committed(m, columns, player), player) else a0
    ensures acc == if update then AppendNew(acc0, Committed(m, columns, player)) else acc0
  {
    var n := LineCount(m, columns, player);
    var found: seq<Coord> := [];
    a, acc := a0, acc0;
    var k := 0;
    while k < n
      invariant 0 <= k <= n
      invariant LinesOk(m, columns, player, k)
      invariant found == Found(m, columns, player, k, KeepStale)
      invariant CellsIn(a0, found)
      invariant update ==> a == Mark(a0, found, player) && acc == AppendNew(acc0, found)
      invariant !update ==> a == a0 && acc == acc0
    {
      var e := LineError(m, columns, player, k);
      if e.Some? {
        SearchStop(m, columns, player, k);
        return Err(e.value), a, acc;
      }
      var cs := ScanLineAt(m, columns, player, k);
      SearchStep(m, columns, player, k, a0, acc0);
      if update {
        a := MarkAll(a, cs, player);
        acc := AppendNewInOrder(acc, cs);
      }
      found := AppendNewInOrder(found, cs);
      k := k + 1;
    }
    SearchStop(m, columns, player, n);
    r := Ok(found);
  }

  /** The inner loop of both dominance checks: does `s` beat `o` against every opponent strategy? */
  method BeatsScan(m: Matrix, player: int, s: nat, o: nat, strict: bool, opps: nat) returns (r: Result<bool>)
    ensures r == BeatsFrom(m, player, s, o, strict, opps, 0)
  {
    var j := 0;
    while j < opps
      invariant 0 <= j <= opps
      invariant BeatsFrom(m, player, s, o, strict, opps, j) == BeatsFrom(m, player, s, o, strict, opps, 0)
    {
      var a := OwnAt(m, player, s, j);
      var b := OwnAt(m, player, o, j);
      if a.Err? {
        return Err(a.error);
      }
      if b.Err? {
        return Err(b.error);
      }
      if !Beats(a.value, b.value, strict) {
        return Ok(false);
      }
      j := j + 1;
    }
    r := Ok(true);
  }

  /** A list found so far, in front of what the rest of a search finds (or the rest's exception). */
  function Prepend(acc: seq<nat>, rest: Result<seq<nat>>): Result<seq<nat>> {
    match rest
    case Ok(xs) => Ok(acc + xs)
    case Err(e) => Err(e)
  }

  lemma PrependNothing(rest: Result<seq<nat>>)
    ensures Prepend([], rest) == rest
  {
    if rest.Ok? {
      assert [] + rest.value == rest.value;
    }
  }

  lemma PrependOne(acc: seq<nat>, k: nat, rest: Result<seq<nat>>)
    ensures Prepend(acc + [k], rest) == Prepend(acc, match rest case Ok(xs) => Ok([k] + xs) case Err(e) => Err(e))
  {
    if rest.Ok? {
      assert (acc + [k]) + rest.value == acc + ([k] + rest.value);
    }
  }

  /**
   * The loops of `calculate_expected_payoffs` (and of the legacy `find_br` with mixing): one
   * weighted sum per own strategy, raising `IndexError` at the first missing cell or belief.
   */
  method ExpectedPayoffs(m: Matrix, columns: nat, player: int, beliefs: seq<real>) returns (r: Result<seq<real>>)
    ensures r == EP.OneSided(m, columns, player, beliefs)
  {
    if player != 1 && player != 2 {
      return Err(ValueError(EP.InvalidPlayer));
    }
    var out: seq<real> := [];
    if player == 1 {
      var i := 0;
      while i < |m|
        invariant 0 <= i <= |m|
        invariant forall x :: 0 <= x < i ==> columns <= |m[x]|
        invariant i > 0 && columns > 0 ==> columns <= |beliefs|
        invariant |out| == i && forall x :: 0 <= x < i ==> out[x] == EP.RowSum(m[x], beliefs, columns, 1)
      {
        var sum := 0.0;
        var j := 0;
        while j < columns
          invariant 0 <= j <= columns && j <= |m[i]| && j <= |beliefs|
          invariant sum == EP.RowSum(m[i], beliefs, j, 1)
        {
          if j >= |beliefs| || j >= |m[i]| {
            return Err(IndexError(EP.ListIndexOutOfRange));
          }
          sum := sum + beliefs[j] * (m[i][j].u1 as real);
          j := j + 1;
        }
        out := out + [sum];
        i := i + 1;
      }
      assert out == seq(|m|, i requires 0 <= i < |m| => EP.RowSum(m[i], beliefs, columns, 1));
    } else {
      var i := 0;
      while i < columns
        invariant 0 <= i <= columns
        invariant forall x :: 0 <= x < |m| ==> i <= |m[x]|
        invariant i > 0 ==> |m| <= |beliefs|
        invariant |out| == i && forall y :: 0 <= y < i ==> out[y] == EP.ColumnSum(m, y, beliefs, |m|)
      {
        var sum := 0.0;
        var x := 0;
        while x < |m|
          invariant 0 <= x <= |m| && x <= |beliefs|
          invariant forall z :: 0 <= z < x ==> i < |m[z]|
          invariant sum == EP.ColumnSum(m, i, beliefs, x)
        {
          if i >= |m[x]| || x >= |beliefs| {
            return Err(IndexError(EP.ListIndexOutOfRange));
          }
          sum := sum + beliefs[x] * (m[x][i].u2 as real);
          x := x + 1;
        }
        out := out + [sum];
        i := i + 1;
      }
      assert out == seq(columns, j requires 0 <= j < columns => EP.ColumnSum(m, j, beliefs, |m|));
    }
    r := Ok(out);
  }

  class StrategicGame {
    var mode: Mode
    var lowerLimit: int
    var upperLimit: int
    var rows: nat
    var columns: nat
    var grid: Matrix
    var gridPureNash: Annotated
    var nashEquilibria: seq<Coord>
    var p1Br: seq<Coord>
    var p2Br: seq<Coord>

    /**
     * The declared size matches the grid (a directly given grid may be ragged; its declared
     * column count is its first row's length), the annotated grid has the grid's shape, and
     * the best-response lists hold distinct cells of it.
     */
    ghost predicate Valid()
      reads this
    {
      Consistent(mode, rows, columns, grid, gridPureNash, p1Br, p2Br)
    }

    /** The constructor once the mode and its arguments have been checked. */
    constructor (md: Mode, r: nat, c: nat, matrix: Matrix, lo: int, hi: int)
      ensures Valid()
      ensures mode == md && lowerLimit == lo && upperLimit == hi
      ensures md == Direct ==> grid == matrix && rows == |matrix| && columns == DirectColumns(matrix)
      ensures md != Direct ==> rows == r && columns == c && grid == Zeros(r, c)
      ensures gridPureNash == Annotate(grid)
      ensures nashEquilibria == [] && p1Br == [] && p2Br == []
    {
      mode, lowerLimit, upperLimit := md, lo, hi;
      var g := if md == Direct then matrix else Zeros(r, c);
      if md == Direct {
        rows := |matrix|;
        columns := DirectColumns(matrix);
      } else {
        rows, columns := r, c;
      }
      grid := g;
      gridPureNash := Annotate(g);
      nashEquilibria, p1Br, p2Br := [], [], [];
    }

    /**
     * `StrategicGame(mode, rows, columns, payoff_matrix, lower_limit, upper_limit)` with its
     * argument checks: the mode letter, then the matrix for 'd', then both sizes for 'r' and 'm'.
     */
    static method Create(modeText: string, r: Option<nat>, c: Option<nat>, matrix: Option<Matrix>, lo: int, hi: int)
      returns (g: Result<StrategicGame>)
      ensures ModeOf(modeText).None? ==> g == Err(ValueError(InvalidMode))
      ensures ModeOf(modeText) == Some(Direct) && matrix.None? ==> g == Err(ValueError(MatrixRequired))
      ensures ModeOf(modeText).Some? && ModeOf(modeText) != Some(Direct) && (r.None? || c.None?) ==>
        g == Err(ValueError(SizeRequired))
      ensures g.Ok? <==> (ModeOf(modeText).Some? &&
        (if ModeOf(modeText) == Some(Direct) then matrix.Some? else r.Some? && c.Some?))
      ensures g.Ok? ==> fresh(g.value) && g.value.Valid() && g.value.mode == ModeOf(modeText).value
      ensures g.Ok? ==> g.value.lowerLimit == lo && g.value.upperLimit == hi
      ensures g.Ok? && g.value.mode == Direct ==>
        g.value.grid == matrix.value && g.value.rows == |matrix.value| && g.value.columns == DirectColumns(matrix.value)
      ensures g.Ok? && g.value.mode != Direct ==> g.value.grid == Zeros(r.value, c.value) && g.value.rows == r.value && g.value.columns == c.value
      ensures g.Ok? ==> g.value.gridPureNash == Annotate(g.value.grid)
      ensures g.Ok? ==> g.value.nashEquilibria == [] && g.value.p1Br == [] && g.value.p2Br == []
    {
      var md := ModeOf(modeText);
      if md.None? {
        return Err(ValueError(InvalidMode));
      }
      if md.value == Direct {
        if matrix.None? {
          return Err(ValueError(MatrixRequired));
        }
        var game := new StrategicGame(Direct, 0, 0, matrix.value, lo, hi);
        return Ok(game);
      }
      if r.None? || c.None? {
        return Err(ValueError(SizeRequired));
      }
      var game := new StrategicGame(md.value, r.value, c.value, [], lo, hi);
      g := Ok(game);
    }

    /**
     * `set_payoff(row, col, p1, p2)`: an index outside the declared size raises `IndexError`
     * naming the valid range; a cell missing from a ragged row raises the list's own
     * `IndexError`; otherwise both grids get the pair at that cell and nothing else changes.
     */
    method SetPayoff(row: int, col: int, u1: int, u2: int) returns (r: Outcome)
      requires Valid()
      modifies this
      ensures Valid()
      ensures row < 0 || row >= rows ==>
        r == Fail(IndexError("Row index " + IntToString(row) + " out of bounds (0-" + IntToString(rows - 1) + ")"))
      ensures 0 <= row < rows && (col < 0 || col >= columns) ==>
        r == Fail(IndexError("Column index " + IntToString(col) + " out of bounds (0-" + IntToString(columns - 1) + ")"))
      ensures 0 <= row < old(rows) && 0 <= col < old(columns) && col >= |old(grid)[row]| ==> r == Fail(IndexError(AssignmentOutOfRange))
      ensures r.Fail? ==> unchanged(this)
      ensures r == Pass <==> (0 <= row < old(rows) && 0 <= col < old(columns) && col < |old(grid)[row]|)
      ensures r == Pass ==> grid == SetAt(old(grid), row, col, Payoff(u1, u2))
      ensures r == Pass ==> gridPureNash == SetAt(old(gridPureNash), row, col, Plain(Payoff(u1, u2)))
      ensures mode == old(mode) && rows == old(rows) && columns == old(columns)
      ensures lowerLimit == old(lowerLimit) && upperLimit == old(upperLimit)
      ensures nashEquilibria == old(nashEquilibria) && p1Br == old(p1Br) && p2Br == old(p2Br)
    {
      if row < 0 || row >= rows {
        return Fail(IndexError("Row index " + IntToString(row) + " out of bounds (0-" + IntToString(rows - 1) + ")"));
      }
      if col < 0 || col >= columns {
        return Fail(IndexError("Column index " + IntToString(col) + " out of bounds (0-" + IntToString(columns - 1) + ")"));
      }
      if col >= |grid[row]| {
        return Fail(IndexError(AssignmentOutOfRange));
      }
      grid := SetAt(grid, row, col, Payoff(u1, u2));
      gridPureNash := SetAt(gridPureNash, row, col, Plain(Payoff(u1, u2)));
      r := Pass;
    }

    /**
     * `add_payoffs(input_function)`: nothing for 'd'; for 'r' every cell gets two values drawn
     * from [lower_limit, upper_limit] (an empty range raises at the first cell); for 'm' every
     * cell, in row-major order, gets the answer to its prompt, and the first unreadable answer
     * raises `ValueError`, leaving the cells before it filled.
     */
    method AddPayoffs(reply: string -> string) returns (r: Outcome)
      requires Valid()
      modifies this
      ensures Valid()
      ensures mode == old(mode) && rows == old(rows) && columns == old(columns)
      ensures lowerLimit == old(lowerLimit) && upperLimit == old(upperLimit)
      ensures nashEquilibria == old(nashEquilibria) && p1Br == old(p1Br) && p2Br == old(p2Br)
      ensures mode == Direct ==> r == Pass && grid == old(grid) && gridPureNash == old(gridPureNash)
      ensures mode == Random && lowerLimit > upperLimit && AnyCell(old(grid)) ==>
        r == Fail(ValueError(EmptyRange)) && grid == old(grid) && gridPureNash == old(gridPureNash)
      ensures mode == Random && (lowerLimit <= upperLimit || !AnyCell(old(grid))) ==>
        r == Pass && SameDims(old(grid), grid) && Within(grid, lowerLimit, upperLimit) && gridPureNash == Annotate(grid)
      ensures mode == Manual ==> ManualFilled(old(grid), old(gridPureNash), grid, gridPureNash, ManualReader(reply))
      ensures mode == Manual ==> (r == Pass <==> FirstBad(old(grid), ManualReader(reply)).None?)
      ensures mode == Manual && r.Fail? ==> r == Fail(ValueError(PayoffFormat))
    {
      if mode == Direct {
        return Pass;
      }
      var m0, a0 := grid, gridPureNash;
      var g, a;
      if mode == Random {
        g, a, r := RandomFill(m0, a0, lowerLimit, upperLimit);
      } else {
        g, a, r := ManualFill(m0, a0, ManualReader(reply));
        var bad := FirstBad(m0, ManualReader(reply));
        if bad.Some? {
          ManualReaderFails(reply, bad.value.row, bad.value.col);
        }
      }
      ShapeKept(m0, a0, g, a, rows, columns, p1Br, p2Br);
      SetGrid(g, a);
    }

    /** Replaces the grid and its annotated copy by ones of the same shape; the lists are kept. */
    method SetGrid(g: Matrix, a: Annotated)
      requires Consistent(mode, rows, columns, g, a, p1Br, p2Br)
      modifies this
      ensures Valid() && grid == g && gridPureNash == a
      ensures mode == old(mode) && rows == old(rows) && columns == old(columns)
      ensures lowerLimit == old(lowerLimit) && upperLimit == old(upperLimit)
      ensures nashEquilibria == old(nashEquilibria) && p1Br == old(p1Br) && p2Br == old(p2Br)
    {
      grid, gridPureNash := g, a;
    }

    /**
     * `calculate_best_responses(player, update_state)`: a player other than 1 or 2 raises
     * `ValueError`; otherwise the player's best responses, line by line, or the exception of the
     * first line that raises. With `update_state` the lines scanned before it have tagged the
     * annotated grid and extended the player's stored list; nothing else changes.
     */
    method CalculateBestResponses(player: int, update: bool) returns (r: Result<seq<Coord>>)
      requires Valid()
      modifies this
      ensures Valid()
      ensures grid == old(grid) && rows == old(rows) && columns == old(columns) && mode == old(mode)
      ensures lowerLimit == old(lowerLimit) && upperLimit == old(upperLimit) && nashEquilibria == old(nashEquilibria)
      ensures !ValidPlayer(player) ==> r == Err(ValueError(EP.InvalidPlayer))
      ensures ValidPlayer(player) ==> r == BestResponses(grid, columns, player, KeepStale)
      ensures !update || !ValidPlayer(player) ==>
        gridPureNash == old(gridPureNash) && p1Br == old(p1Br) && p2Br == old(p2Br)
      ensures ValidPlayer(player) ==> CellsIn(old(gridPureNash), Committed(grid, columns, player))
      ensures update && ValidPlayer(player) ==>
        gridPureNash == Mark(old(gridPureNash), Committed(grid, columns, player), player)
      ensures update && player == 1 ==> p1Br == AppendNew(old(p1Br), Committed(grid, columns, 1)) && p2Br == old(p2Br)
      ensures update && player == 2 ==> p2Br == AppendNew(old(p2Br), Committed(grid, columns, 2)) && p1Br == old(p1Br)
    {
      if !ValidPlayer(player) {
        return Err(ValueError(EP.InvalidPlayer));
      }
      var g, a0, b1, b2 := grid, gridPureNash, p1Br, p2Br;
      ghost var cs := Committed(g, columns, player);
      var a, acc;
      r, a, acc := SearchLines(g, columns, player, update, a0, if player == 1 then b1 else b2);
      if update {
        CommitKeepsInvariant(mode, rows, columns, g, a0, b1, b2, cs, player);
        Store(player, a, acc);
      }
    }

    /** Stores a player's committed search: the tagged grid and the player's extended list. */
    method Store(player: int, a: Annotated, acc: seq<Coord>)
      requires ValidPlayer(player)
      requires player == 1 ==> Consistent(mode, rows, columns, grid, a, acc, p2Br)
      requires player == 2 ==> Consistent(mode, rows, columns, grid, a, p1Br, acc)
      modifies this
      ensures Valid()
      ensures grid == old(grid) && rows == old(rows) && columns == old(columns) && mode == old(mode)
      ensures lowerLimit == old(lowerLimit) && upperLimit == old(upperLimit) && nashEquilibria == old(nashEquilibria)
      ensures gridPureNash == a
      ensures player == 1 ==> p1Br == acc && p2Br == old(p2Br)
      ensures player == 2 ==> p2Br == acc && p1Br == old(p1Br)
    {
      gridPureNash := a;
      if player == 1 {
        p1Br := acc;
      } else {
        p2Br := acc;
      }
    }

    /** Stores the equilibria found; nothing else changes. */
    method SetEquilibria(e: seq<Coord>)
      requires Valid()
      modifies this
      ensures Valid() && nashEquilibria == e
      ensures grid == old(grid) && rows == old(rows) && columns == old(columns) && mode == old(mode)
      ensures lowerLimit == old(lowerLimit) && upperLimit == old(upperLimit)
      ensures gridPureNash == old(gridPureNash) && p1Br == old(p1Br) && p2Br == old(p2Br)
    {
      nashEquilibria := e;
    }

    /**
     * `find_pure_nash_equi(update_state)`: the cells in player 1's best responses that are also
     * in player 2's, in player 1's order, or the first exception (player 2 is not searched when
     * player 1's search raises). With `update_state` both searches commit what they scanned and
     * a successful result is stored.
     */
    method FindPureNashEqui(update: bool) returns (r: Result<seq<Coord>>)
      requires Valid()
      modifies this
      ensures Valid()
      ensures update ==> PureSearchCommitted()
      ensures grid == old(grid) && rows == old(rows) && columns == old(columns) && mode == old(mode)
      ensures lowerLimit == old(lowerLimit) && upperLimit == old(upperLimit)
      ensures r == PureNash(grid, columns, KeepStale)
      ensures nashEquilibria == if update && r.Ok? then r.value else old(nashEquilibria)
      ensures !update ==> gridPureNash == old(gridPureNash) && p1Br == old(p1Br) && p2Br == old(p2Br)
      ensures CellsIn(old(gridPureNash), Committed(grid, columns, 1))
      ensures update ==> p1Br == AppendNew(old(p1Br), Committed(grid, columns, 1))
      ensures update && BestResponses(grid, columns, 1, KeepStale).Err? ==>
        gridPureNash == Mark(old(gridPureNash), Committed(grid, columns, 1), 1) && p2Br == old(p2Br)
      ensures update && BestResponses(grid, columns, 1, KeepStale).Ok? ==>
        CellsIn(Mark(old(gridPureNash), Committed(grid, columns, 1), 1), Committed(grid, columns, 2)) &&
        gridPureNash == Mark(Mark(old(gridPureNash), Committed(grid, columns, 1), 1), Committed(grid, columns, 2), 2) &&
        p2Br == AppendNew(old(p2Br), Committed(grid, columns, 2))
    {
      var b1 := CalculateBestResponses(1, update);
      if b1.Err? {
        return Err(b1.error);
      }
      var b2 := CalculateBestResponses(2, update);
      if b2.Err? {
        return Err(b2.error);
      }
      var eq := Intersect(b1.value, b2.value);
      if update {
        SetEquilibria(eq);
      }
      r := Ok(eq);
    }

    /**
     * What `find_pure_nash_equi(update_state=True)` leaves behind: the payoffs, size, mode and
     * limits are kept; player 1's search has tagged the annotated grid and extended `p1_br` by
     * what it scanned, and, when it succeeded, so has player 2's with `p2_br`; a successful
     * result replaces the stored equilibria.
     */
    twostate predicate PureSearchCommitted()
      reads this
    {
      && grid == old(grid) && rows == old(rows) && columns == old(columns) && mode == old(mode)
      && lowerLimit == old(lowerLimit) && upperLimit == old(upperLimit)
      && nashEquilibria == (if PureNash(grid, columns, KeepStale).Ok? then PureNash(grid, columns, KeepStale).value else old(nashEquilibria))
      && p1Br == AppendNew(old(p1Br), Committed(grid, columns, 1))
      && CellsIn(old(gridPureNash), Committed(grid, columns, 1))
      && (BestResponses(grid, columns, 1, KeepStale).Err? ==>
            gridPureNash == Mark(old(gridPureNash), Committed(grid, columns, 1), 1) && p2Br == old(p2Br))
      && (BestResponses(grid, columns, 1, KeepStale).Ok? ==>
            && CellsIn(Mark(old(gridPureNash), Committed(grid, columns, 1), 1), Committed(grid, columns, 2))
            && gridPureNash == Mark(Mark(old(gridPureNash), Committed(grid, columns, 1), 1), Committed(grid, columns, 2), 2)
            && p2Br == AppendNew(old(p2Br), Committed(grid, columns, 2)))
    }

    /**
     * `find_br(player, mixing, beliefs)`: without mixing, the best responses with the state
     * updated; with mixing, the expected payoff of each own strategy against the beliefs, which
     * must be given.
     */
    method FindBr(player: int, mixing: bool, beliefs: Option<seq<real>>) returns (r: Result<BrAnswer>)
      requires Valid()
      modifies this
      ensures Valid()
      ensures grid == old(grid) && rows == old(rows) && columns == old(columns) && mode == old(mode)
      ensures lowerLimit == old(lowerLimit) && upperLimit == old(upperLimit) && nashEquilibria == old(nashEquilibria)
      ensures mixing && beliefs.None? ==> r == Err(ValueError(BeliefsRequired))
      ensures mixing ==> gridPureNash == old(gridPureNash) && p1Br == old(p1Br) && p2Br == old(p2Br)
      ensures mixing && beliefs.Some? ==>
        r == match EP.OneSided(grid, columns, player, beliefs.value)
             case Ok(es) => Ok(Payoffs(es))
             case Err(e) => Err(e)
      ensures !mixing && !ValidPlayer(player) ==> r == Err(ValueError(EP.InvalidPlayer))
      ensures !mixing && ValidPlayer(player) ==>
        r == match BestResponses(grid, columns, player, KeepStale)
             case Ok(cs) => Ok(Coords(cs))
             case Err(e) => Err(e)
      ensures !mixing && !ValidPlayer(player) ==> gridPureNash == old(gridPureNash) && p1Br == old(p1Br) && p2Br == old(p2Br)
      ensures !mixing && ValidPlayer(player) ==>
        CellsIn(old(gridPureNash), Committed(grid, columns, player)) &&
        gridPureNash == Mark(old(gridPureNash), Committed(grid, columns, player), player)
      ensures !mixing && player == 1 ==> p1Br == AppendNew(old(p1Br), Committed(grid, columns, 1)) && p2Br == old(p2Br)
      ensures !mixing && player == 2 ==> p2Br == AppendNew(old(p2Br), Committed(grid, columns, 2)) && p1Br == old(p1Br)
    {
      if mixing && beliefs.None? {
        return Err(ValueError(BeliefsRequired));
      }
      if !mixing {
        var b := CalculateBestResponses(player, true);
        r := if b.Ok? then Ok(Coords(b.value)) else Err(b.error);
      } else {
        var e := CalculateExpectedPayoffs(player, beliefs.value);
        r := if e.Ok? then Ok(Payoffs(e.value)) else Err(e.error);
      }
    }

    /**
     * `calculate_expected_payoffs(player, beliefs)`: for player 1 each row's payoffs weighted by
     * the beliefs about the columns, for player 2 each column's weighted by the beliefs about
     * the rows; the first cell or belief that is missing raises `IndexError`.
     */
    method CalculateExpectedPayoffs(player: int, beliefs: seq<real>) returns (r: Result<seq<real>>)
      requires Valid()
      ensures r == EP.OneSided(grid, columns, player, beliefs)
    {
      r := ExpectedPayoffs(grid, columns, player, beliefs);
    }

    /**
     * `ep_bpm(p1_beliefs, p2_beliefs)`: both belief vectors must match the declared size; the
     * product of the beliefs weighs every cell, and each player's expected payoff is the weighted
     * sum of their payoffs. A row shorter than the declared column count raises `IndexError`.
     */
    method EpBpm(p: seq<real>, q: seq<real>) returns (r: Result<(real, real)>)
      requires Valid()
      ensures r == EP.TwoSided(grid, columns, p, q)
    {
      var m, n := grid, columns;
      if |p| != rows {
        return Err(ValueError("p1_beliefs must have length " + NatToString(rows)));
      }
      if |q| != n {
        return Err(ValueError("p2_beliefs must have length " + NatToString(n)));
      }
      var beliefs := EP.BeliefProduct(p, q, |m|, n);
      var e1 := EP.WeightedSum(m, beliefs, p, q, n, 1);
      if e1.Err? {
        return Err(e1.error);
      }
      var e2 := EP.WeightedSum(m, beliefs, p, q, n, 2);
      r := Ok((e1.value, e2.value));
    }

    /**
     * `calculate_regret(p1_strategy, p2_strategy)`: the mixed profile's payoffs first, then each
     * player's best payoff against the other's strategy, minus the profile's payoff.
     */
    method CalculateRegret(p: seq<real>, q: seq<real>) returns (r: Result<(real, real)>)
      requires Valid()
      ensures r == EP.Regret(grid, columns, p, q)
    {
      var ep := EpBpm(p, q);
      if ep.Err? {
        return Err(ep.error);
      }
      var e1 := CalculateExpectedPayoffs(1, q);
      if e1.Err? {
        return Err(e1.error);
      }
      var e2 := CalculateExpectedPayoffs(2, p);
      if e2.Err? {
        return Err(e2.error);
      }
      if |e1.value| == 0 || |e2.value| == 0 {
        return Err(ValueError(EP.EmptyMax));
      }
      r := Ok((EP.MaxReal(e1.value) - ep.value.0, EP.MaxReal(e2.value) - ep.value.1));
    }

    /**
     * `get_indifference_probabilities(check_pure_nash)`: only for a 2x2 game; with the check on,
     * stored equilibria, or freshly found ones when none are stored, stop the solve; otherwise
     * player 1's weight comes from player 2's payoffs and player 2's from player 1's. The game
     * is left as it was.
     */
    method GetIndifferenceProbabilities(checkPure: bool) returns (r: Result<Mixed.MixedAnswer>)
      requires Valid()
      ensures r == Mixed.Indifference(grid, rows, columns, nashEquilibria, checkPure)
    {
      var m := grid;
      if rows != 2 || columns != 2 {
        return Err(ValueError(Mixed.Not2x2));
      }
      if checkPure {
        var pure := nashEquilibria;
        if pure == [] {
          var b1, _, _ := SearchLines(m, columns, 1, false, gridPureNash, []);
          if b1.Err? {
            return Err(b1.error);
          }
          var b2, _, _ := SearchLines(m, columns, 2, false, gridPureNash, []);
          if b2.Err? {
            return Err(b2.error);
          }
          pure := Intersect(b1.value, b2.value);
        }
        if pure != [] {
          return Ok(Mixed.Failure(Mixed.PureExists));
        }
      }
      if |m[1]| < 2 {
        return Err(IndexError(ListIndexOutOfRange));
      }
      match Mixed.SolveP(m[0][0].u2, m[1][0].u2, m[0][1].u2, m[1][1].u2)
      case Degenerate => return Ok(Mixed.Failure(Mixed.DivZeroP1));
      case OutOfRange => return Ok(Mixed.Failure(Mixed.NegativeP1));
      case Prob(p) =>
        match Mixed.SolveQ(m[0][0].u1, m[1][0].u1, m[0][1].u1, m[1][1].u1)
        case Degenerate => return Ok(Mixed.Failure(Mixed.DivZeroP2));
        case OutOfRange => return Ok(Mixed.Failure(Mixed.NegativeP2));
        case Prob(q) =>
          if checkPure {
            return Ok(Mixed.AsList([p, 1.0 - p], [q, 1.0 - q]));
          }
          return Ok(Mixed.AsDict(Mixed.MixedResult(Some([p, 1.0 - p]), Some([q, 1.0 - q]), None)));
    }

    /**
     * `to_dict()`: the game's size, mode and grid, both players' strategy names and payoff views,
     * the stored equilibria or freshly found ones, and for a 2x2 game the unchecked mixed solve.
     * The game is left as it was.
     */
    method ToDict() returns (r: Result<GameDict>)
      requires Valid()
      ensures r == StrategicSpec.ToDict(mode, rows, columns, grid, nashEquilibria)
    {
      var nash := nashEquilibria;
      if nash == [] {
        var b1, _, _ := SearchLines(grid, columns, 1, false, gridPureNash, []);
        if b1.Err? {
          return Err(b1.error);
        }
        var b2, _, _ := SearchLines(grid, columns, 2, false, gridPureNash, []);
        if b2.Err? {
          return Err(b2.error);
        }
        nash := Intersect(b1.value, b2.value);
      }
      var mixed: Option<Mixed.MixedResult> := None;
      if rows == 2 && columns == 2 {
        var answer := GetIndifferenceProbabilities(false);
        if answer.Err? {
          return Err(answer.error);
        }
        mixed := Some(MixedEntry(answer.value));
      }
      r := Ok(GameDict(rows, columns, mode, grid,
        StrategyNames('A', rows), StrategyNames('B', columns),
        PlayerPayoffs(grid, 1), PlayerPayoffs(grid, 2), nash, mixed));
    }

    /**
     * `validate_game_structure()`: at least one row and one column, as many rows as declared,
     * and every row as long as declared, reporting the first that is not.
     */
    method ValidateGameStructure() returns (r: Outcome)
      ensures r == StrategicSpec.ValidateGameStructure(rows, columns, grid)
    {
      if rows <= 0 || columns <= 0 {
        return Fail(ValueError(NeedRowAndColumn));
      }
      if |grid| != rows {
        return Fail(ValueError("Grid has " + NatToString(|grid|) + " rows but should have " + NatToString(rows)));
      }
      var i := 0;
      while i < |grid|
        invariant 0 <= i <= |grid|
        invariant FirstBadRow(grid, columns, i) == FirstBadRow(grid, columns, 0)
      {
        if |grid[i]| != columns {
          return Fail(ValueError("Row " + NatToString(i) + " has " + NatToString(|grid[i]|) + " columns but should have " + NatToString(columns)));
        }
        i := i + 1;
      }
      r := Pass;
    }

    /** `is_dominant_strategy(s, player, strict)`: `s` beats every other own strategy against every opponent strategy. */
    method IsDominantStrategy(s: nat, player: int, strict: bool) returns (r: Result<bool>)
      ensures r == IsDominant(grid, rows, columns, s, player, strict)
    {
      var n := StrategyCount(rows, columns, player);
      var o := 0;
      while o < n
        invariant 0 <= o <= n
        invariant DominantFrom(grid, rows, columns, player, s, strict, o) == IsDominant(grid, rows, columns, s, player, strict)
      {
        if o != s {
          var b := BeatsScan(grid, player, s, o, strict, OpponentCount(rows, columns, player));
          if b.Err? {
            return Err(b.error);
          }
          if !b.value {
            return Ok(false);
          }
        }
        o := o + 1;
      }
      r := Ok(true);
    }

    /** `_is_dominated_by(s1, s2, player, strict)`: `s2` beats `s1` against every opponent strategy. */
    method IsDominatedByStrategy(s1: nat, s2: nat, player: int, strict: bool) returns (r: Result<bool>)
      ensures r == IsDominatedBy(grid, rows, columns, s1, s2, player, strict)
    {
      r := BeatsScan(grid, player, s2, s1, strict, OpponentCount(rows, columns, player));
    }

    /** The inner search of `get_dominated_strategies`: is `s` dominated by some other own strategy? */
    method HasDominator(s: nat, player: int, strict: bool) returns (r: Result<bool>)
      ensures r == DominatorFrom(grid, rows, columns, player, s, strict, 0)
    {
      var n := StrategyCount(rows, columns, player);
      var o := 0;
      while o < n
        invariant 0 <= o <= n
        invariant DominatorFrom(grid, rows, columns, player, s, strict, o) == DominatorFrom(grid, rows, columns, player, s, strict, 0)
      {
        if o != s {
          var b := IsDominatedByStrategy(s, o, player, strict);
          if b.Err? {
            return Err(b.error);
          }
          if b.value {
            return Ok(true);
          }
        }
        o := o + 1;
      }
      r := Ok(false);
    }

    /** `get_dominated_strategies(player, strict)`: in ascending order, each strategy that is not dominant but is dominated. */
    method GetDominatedStrategies(player: int, strict: bool) returns (r: Result<seq<nat>>)
      ensures r == GetDominated(grid, rows, columns, player, strict)
    {
      var n := StrategyCount(rows, columns, player);
      var dominated: seq<nat> := [];
      var k := 0;
      PrependNothing(GetDominated(grid, rows, columns, player, strict));
      while k < n
        invariant 0 <= k <= n
        invariant Prepend(dominated, DominatedFrom(grid, rows, columns, player, strict, k)) == GetDominated(grid, rows, columns, player, strict)
      {
        var d := IsDominantStrategy(k, player, strict);
        if d.Err? {
          return Err(d.error);
        }
        var here := false;
        if !d.value {
          var b := HasDominator(k, player, strict);
          if b.Err? {
            return Err(b.error);
          }
          here := b.value;
        }
        if here {
          PrependOne(dominated, k, DominatedFrom(grid, rows, columns, player, strict, k + 1));
          dominated := dominated + [k];
        }
        k := k + 1;
      }
      assert dominated + [] == dominated;
      r := Ok(dominated);
    }
  }
}
