/**
 * Best-response search as both engines perform it.
 *
 * Each line (a column for player 1, a row for player 2) is scanned once,
 * keeping a running maximum, the first index that reached it, and every
 * index whose value equalled the running maximum at the time it was read.
 * The tie list is never cleared when the maximum improves, so an index that
 * tied an earlier, later-exceeded maximum is still reported (a stale tie).
 */
module BestResponse {
  import opened Base
  import opened Grid

  predicate NoDup<T(==)>(s: seq<T>) {
    forall i, j :: 0 <= i < j < |s| ==> s[i] != s[j]
  }

  predicate Increasing(s: seq<nat>) {
    forall i, j :: 0 <= i < j < |s| ==> s[i] < s[j]
  }

  // ---------------------------------------------------------------- one line

  function Max2(a: int, b: int): int {
    if a >= b then a else b
  }

  /** The largest of the first `n` values. */
  function PrefixMax(vals: seq<int>, n: nat): (m: int)
    requires 1 <= n <= |vals|
    ensures forall j :: 0 <= j < n ==> vals[j] <= m
    ensures exists j :: 0 <= j < n && vals[j] == m
    decreases n
  {
    if n == 1 then vals[0] else Max2(PrefixMax(vals, n - 1), vals[n - 1])
  }

  function Max(vals: seq<int>): int
    requires |vals| > 0
  {
    PrefixMax(vals, |vals|)
  }

  /** Index `k` equals the maximum of the values before it (stale when a later value exceeds it). */
  predicate TiesRunningMax(vals: seq<int>, k: nat) {
    0 < k < |vals| && vals[k] == PrefixMax(vals, k)
  }

  /** Index `k` is the first one holding the line's maximum. */
  predicate IsFirstMax(vals: seq<int>, k: nat) {
    k < |vals| && vals[k] == Max(vals) && forall j :: 0 <= j < k ==> vals[j] < vals[k]
  }

  /**
   * What the scan does with its tie list when the running maximum improves:
   * keep it, as both engines do, or restart it, which is what a best-response
   * set evidently calls for.
   */
  datatype Ties = KeepStale | Restart

  /** The scan's variables after reading a prefix: `best`, `br_coordinates`, `multiple_br_values`. */
  datatype Scan = Scan(best: int, br: nat, ties: seq<nat>)

  /** The scan's state after reading the first `n` values of a line. */
  function ScanPrefix(vals: seq<int>, n: nat, t: Ties): Scan
    requires 1 <= n <= |vals|
    decreases n
  {
    if n == 1 then Scan(vals[0], 0, [])
    else
      var s := ScanPrefix(vals, n - 1, t);
      var v := vals[n - 1];
      if v > s.best then Scan(v, n - 1, if t == Restart then [] else s.ties)
      else if v == s.best then Scan(s.best, s.br, s.ties + [n - 1])
      else s
  }

  /** The indices a scan of a non-empty line reports: the ties in order, then the first maximiser. */
  function BestIndices(vals: seq<int>, t: Ties): seq<nat>
    requires |vals| > 0
  {
    var s := ScanPrefix(vals, |vals|, t);
    s.ties + [s.br]
  }

  /** What the scan's variables mean after any prefix, for either treatment of the tie list. */
  lemma ScanPrefixFacts(vals: seq<int>, n: nat, t: Ties)
    requires 1 <= n <= |vals|
    ensures ScanPrefix(vals, n, t).best == PrefixMax(vals, n)
    ensures ScanPrefix(vals, n, t).br < n
    ensures vals[ScanPrefix(vals, n, t).br] == ScanPrefix(vals, n, t).best
    ensures forall j :: 0 <= j < ScanPrefix(vals, n, t).br ==> vals[j] < ScanPrefix(vals, n, t).best
    ensures Increasing(ScanPrefix(vals, n, t).ties)
    ensures t == KeepStale ==>
      forall x: nat :: x in ScanPrefix(vals, n, t).ties <==> x < n && TiesRunningMax(vals, x)
    ensures t == Restart ==>
      forall x: nat :: x in ScanPrefix(vals, n, t).ties <==>
        ScanPrefix(vals, n, t).br < x < n && vals[x] == ScanPrefix(vals, n, t).best
  {
    ScanPrefixBest(vals, n, t);
    ScanPrefixTies(vals, n, t);
  }

  /** The running maximum and its first index. */
  lemma {:induction false} ScanPrefixBest(vals: seq<int>, n: nat, t: Ties)
    requires 1 <= n <= |vals|
    ensures ScanPrefix(vals, n, t).best == PrefixMax(vals, n)
    ensures ScanPrefix(vals, n, t).br < n
    ensures vals[ScanPrefix(vals, n, t).br] == ScanPrefix(vals, n, t).best
    ensures forall j :: 0 <= j < ScanPrefix(vals, n, t).br ==> vals[j] < ScanPrefix(vals, n, t).best
    decreases n
  {
    if n > 1 {
      ScanPrefixBest(vals, n - 1, t);
      assert PrefixMax(vals, n) == Max2(ScanPrefix(vals, n - 1, t).best, vals[n - 1]);
    }
  }

  /** The tie list: increasing, and which indices it holds. */
  lemma ScanPrefixTies(vals: seq<int>, n: nat, t: Ties)
    requires 1 <= n <= |vals|
    ensures Increasing(ScanPrefix(vals, n, t).ties)
    ensures t == KeepStale ==>
      forall x: nat :: x in ScanPrefix(vals, n, t).ties <==> x < n && TiesRunningMax(vals, x)
    ensures t == Restart ==>
      forall x: nat :: x in ScanPrefix(vals, n, t).ties <==>
        ScanPrefix(vals, n, t).br < x < n && vals[x] == ScanPrefix(vals, n, t).best
  {
    if t == KeepStale {
      StaleTies(vals, n);
    } else {
      RestartTies(vals, n);
    }
  }

  /** Kept across improvements, the tie list holds every index that tied the running maximum. */
  lemma {:induction false} StaleTies(vals: seq<int>, n: nat)
    requires 1 <= n <= |vals|
    ensures Increasing(ScanPrefix(vals, n, KeepStale).ties)
    ensures forall i :: 0 <= i < |ScanPrefix(vals, n, KeepStale).ties| ==> ScanPrefix(vals, n, KeepStale).ties[i] < n
    ensures forall x: nat :: x in ScanPrefix(vals, n, KeepStale).ties <==> x < n && TiesRunningMax(vals, x)
    decreases n
  {
    if n > 1 {
      StaleTies(vals, n - 1);
      ScanPrefixBest(vals, n - 1, KeepStale);
      var s := ScanPrefix(vals, n - 1, KeepStale);
      if vals[n - 1] == s.best {
        assert TiesRunningMax(vals, n - 1);
        TieAppended(s.ties, n - 1);
      } else {
        assert !TiesRunningMax(vals, n - 1);
      }
    }
  }

  /** Restarted on every improvement, the tie list holds the later indices equal to the maximum. */
  lemma {:induction false} RestartTies(vals: seq<int>, n: nat)
    requires 1 <= n <= |vals|
    ensures Increasing(ScanPrefix(vals, n, Restart).ties)
    ensures forall i :: 0 <= i < |ScanPrefix(vals, n, Restart).ties| ==> ScanPrefix(vals, n, Restart).ties[i] < n
    ensures forall x: nat :: x in ScanPrefix(vals, n, Restart).ties <==>
      ScanPrefix(vals, n, Restart).br < x < n && vals[x] == ScanPrefix(vals, n, Restart).best
    decreases n
  {
    if n > 1 {
      RestartTies(vals, n - 1);
      ScanPrefixBest(vals, n - 1, Restart);
      var s := ScanPrefix(vals, n - 1, Restart);
      if vals[n - 1] == s.best {
        TieAppended(s.ties, n - 1);
      }
    }
  }

  /** Appending an index larger than every listed one keeps the list increasing. */
  lemma TieAppended(ties: seq<nat>, k: nat)
    requires Increasing(ties) && forall i :: 0 <= i < |ties| ==> ties[i] < k
    ensures Increasing(ties + [k]) && forall i :: 0 <= i < |ties + [k]| ==> (ties + [k])[i] <= k
    ensures forall x :: x in ties + [k] <==> x in ties || x == k
  {
  }

  /** Which indices the engines' scan reports: exactly the running-maximum ties and the first maximiser. */
  lemma BestIndicesMembers(vals: seq<int>, k: nat)
    requires |vals| > 0
    ensures k in BestIndices(vals, KeepStale) <==> TiesRunningMax(vals, k) || IsFirstMax(vals, k)
  {
    var s := ScanPrefix(vals, |vals|, KeepStale);
    ScanPrefixFacts(vals, |vals|, KeepStale);
    assert k in BestIndices(vals, KeepStale) <==> k in s.ties || k == s.br;
  }

  /** With the tie list restarted, the reported indices are exactly those no value of the line exceeds. */
  lemma BestIndicesRestartExact(vals: seq<int>, k: nat)
    requires |vals| > 0
    ensures k in BestIndices(vals, Restart) <==> k < |vals| && vals[k] == Max(vals)
    ensures k in BestIndices(vals, Restart) <==> k < |vals| && forall j :: 0 <= j < |vals| ==> vals[j] <= vals[k]
  {
    var s := ScanPrefix(vals, |vals|, Restart);
    ScanPrefixFacts(vals, |vals|, Restart);
    assert k in BestIndices(vals, Restart) <==> k in s.ties || k == s.br;
    var w :| 0 <= w < |vals| && vals[w] == Max(vals);
  }

  /** The reported indices lie in the line and none is reported twice. */
  lemma BestIndicesShape(vals: seq<int>, t: Ties)
    requires |vals| > 0
    ensures NoDup(BestIndices(vals, t))
    ensures forall i :: 0 <= i < |BestIndices(vals, t)| ==> BestIndices(vals, t)[i] < |vals|
  {
    var s := ScanPrefix(vals, |vals|, t);
    ScanPrefixFacts(vals, |vals|, t);
    if s.br > 0 {
      var j :| 0 <= j < s.br && vals[j] == PrefixMax(vals, s.br);
      assert vals[j] < vals[s.br];
    }
    assert s.br !in s.ties;
    var r := BestIndices(vals, t);
    forall i, j | 0 <= i < j < |r| ensures r[i] != r[j] {
      if j < |s.ties| {
        assert s.ties[i] < s.ties[j];
      } else {
        assert r[i] in s.ties;
      }
    }
    forall i | 0 <= i < |r| ensures r[i] < |vals| {
      assert r[i] in s.ties || r[i] == s.br;
    }
  }

  /** Every index holding the line's maximum is reported, whichever way ties are kept. */
  lemma BestIndicesComplete(vals: seq<int>, k: nat, t: Ties)
    requires k < |vals| && vals[k] == Max(vals)
    ensures k in BestIndices(vals, t)
  {
    if t == Restart {
      BestIndicesRestartExact(vals, k);
    } else {
      BestIndicesMembers(vals, k);
      if !IsFirstMax(vals, k) {
        var j :| 0 <= j < k && vals[j] >= vals[k];
        var w :| 0 <= w < k && vals[w] == PrefixMax(vals, k);
        assert vals[w] <= Max(vals);
        assert TiesRunningMax(vals, k);
      }
    }
  }

  /** Every index the engines report holds a value at least as large as every value before it. */
  lemma BestIndicesRunningMax(vals: seq<int>, k: nat)
    requires |vals| > 0 && k in BestIndices(vals, KeepStale)
    ensures k < |vals|
    ensures forall j :: 0 <= j < k ==> vals[j] <= vals[k]
  {
    BestIndicesMembers(vals, k);
  }

  /** The stale tie: in [1, 1, 2] index 1 is reported although 1 is not the maximum; index 0 is not. */
  lemma StaleTieExample()
    ensures BestIndices([1, 1, 2], KeepStale) == [1, 2]
    ensures BestIndices([1, 1, 2], Restart) == [2]
    ensures Max([1, 1, 2]) == 2
  {
    var v := [1, 1, 2];
    assert ScanPrefix(v, 1, KeepStale) == Scan(1, 0, []);
    assert ScanPrefix(v, 2, KeepStale) == Scan(1, 0, [1]);
    assert ScanPrefix(v, 3, KeepStale) == Scan(2, 2, [1]);
    assert ScanPrefix(v, 2, Restart) == Scan(1, 0, [1]);
    assert ScanPrefix(v, 3, Restart) == Scan(2, 2, []);
  }

  /** One line's scan as the engines run it: a running maximum, its first index, and the tie list. */
  method ScanLine(vals: seq<int>) returns (idx: seq<nat>)
    requires |vals| > 0
    ensures idx == BestIndices(vals, KeepStale)
  {
    var best := vals[0];
    var br: nat := 0;
    var ties: seq<nat> := [];
    var i := 1;
    while i < |vals|
      invariant 1 <= i <= |vals|
      invariant ScanPrefix(vals, i, KeepStale) == Scan(best, br, ties)
    {
      if vals[i] > best {
        best := vals[i];
        br := i;
      } else if vals[i] == best {
        ties := ties + [i];
      }
      i := i + 1;
    }
    idx := ties + [br];
  }

  // ------------------------------------------------------------- every line

  predicate ValidPlayer(player: int) {
    player == 1 || player == 2
  }

  /** Player 1 scans the columns, player 2 the rows. */
  function LineCount(m: Matrix, columns: nat, player: int): nat {
    if player == 1 then columns else |m|
  }

  /** Which line a coordinate lies on, and where on it, for the given player. */
  function LineOf(c: Coord, player: int): nat {
    if player == 1 then c.col else c.row
  }

  function PosOf(c: Coord, player: int): nat {
    if player == 1 then c.row else c.col
  }

  predicate ColumnPresent(m: Matrix, j: nat) {
    forall r :: 0 <= r < |m| ==> j < |m[r]|
  }

  const NoneNotSubscriptable := "'NoneType' object is not subscriptable"
  const ListIndexOutOfRange := "list index out of range"

  /**
   * The exception the scan of line `k` raises, before it commits anything.
   * An empty line leaves `None` in the tie list, and subscripting it is a
   * TypeError; a row too short for the column being read is an IndexError.
   */
  function LineError(m: Matrix, columns: nat, player: int, k: nat): Option<Error> {
    if player == 1 then
      if |m| == 0 then Some(TypeError(NoneNotSubscriptable))
      else if !ColumnPresent(m, k) then Some(IndexError(ListIndexOutOfRange))
      else None
    else if columns == 0 then Some(TypeError(NoneNotSubscriptable))
    else if k < |m| && |m[k]| < columns then Some(IndexError(ListIndexOutOfRange))
    else None
  }

  /** The values a line holds for its player. */
  function Line(m: Matrix, columns: nat, player: int, k: nat): (vals: seq<int>)
    requires ValidPlayer(player) && k < LineCount(m, columns, player)
    requires LineError(m, columns, player, k) == None
    ensures |vals| == (if player == 1 then |m| else columns) && |vals| > 0
    ensures player == 1 ==> forall r :: 0 <= r < |m| ==> vals[r] == m[r][k].u1
    ensures player == 2 ==> forall c :: 0 <= c < columns ==> vals[c] == m[k][c].u2
  {
    if player == 1 then seq(|m|, r requires 0 <= r < |m| => m[r][k].u1)
    else seq(columns, c requires 0 <= c < columns => m[k][c].u2)
  }

  /** Turns positions on line `k` into coordinates `(column, row)`. */
  function Place(idx: seq<nat>, k: nat, player: int): (cs: seq<Coord>)
    ensures |cs| == |idx|
    ensures forall i :: 0 <= i < |idx| ==> LineOf(cs[i], player) == k && PosOf(cs[i], player) == idx[i]
  {
    seq(|idx|, i requires 0 <= i < |idx| => if player == 1 then Coord(k, idx[i]) else Coord(idx[i], k))
  }

  lemma PlaceMembers(idx: seq<nat>, k: nat, player: int, c: Coord)
    ensures c in Place(idx, k, player) <==> LineOf(c, player) == k && PosOf(c, player) in idx
  {
    var cs := Place(idx, k, player);
    if LineOf(c, player) == k && PosOf(c, player) in idx {
      var i :| 0 <= i < |idx| && idx[i] == PosOf(c, player);
      assert cs[i] == c;
    }
  }

  /** The coordinates the scan of line `k` reports. */
  function LineCoords(m: Matrix, columns: nat, player: int, k: nat, t: Ties): seq<Coord>
    requires ValidPlayer(player) && k < LineCount(m, columns, player)
    requires LineError(m, columns, player, k) == None
  {
    Place(BestIndices(Line(m, columns, player, k), t), k, player)
  }

  predicate LinesOk(m: Matrix, columns: nat, player: int, n: nat) {
    forall k :: 0 <= k < n ==> LineError(m, columns, player, k) == None
  }

  /** Everything the scans of lines `0..n` report, line by line. */
  function Found(m: Matrix, columns: nat, player: int, n: nat, t: Ties): seq<Coord>
    requires ValidPlayer(player) && n <= LineCount(m, columns, player)
    requires LinesOk(m, columns, player, n)
  {
    if n == 0 then [] else Found(m, columns, player, n - 1, t) + LineCoords(m, columns, player, n - 1, t)
  }

  function FirstFailureFrom(m: Matrix, columns: nat, player: int, from: nat): (k: nat)
    requires from <= LineCount(m, columns, player)
    ensures from <= k <= LineCount(m, columns, player)
    ensures forall j :: from <= j < k ==> LineError(m, columns, player, j) == None
    ensures k < LineCount(m, columns, player) ==> LineError(m, columns, player, k).Some?
    decreases LineCount(m, columns, player) - from
  {
    if from == LineCount(m, columns, player) || LineError(m, columns, player, from).Some? then from
    else FirstFailureFrom(m, columns, player, from + 1)
  }

  /** The first line whose scan raises, or the number of lines when none does. */
  function FailurePoint(m: Matrix, columns: nat, player: int): (k: nat)
    ensures k <= LineCount(m, columns, player) && LinesOk(m, columns, player, k)
    ensures k < LineCount(m, columns, player) ==> LineError(m, columns, player, k).Some?
  {
    FirstFailureFrom(m, columns, player, 0)
  }

  /** Best responses of a valid player: every line's report in line order, or the first line's exception. */
  function BestResponses(m: Matrix, columns: nat, player: int, t: Ties): Result<seq<Coord>>
    requires ValidPlayer(player)
  {
    var k := FailurePoint(m, columns, player);
    if k == LineCount(m, columns, player) then Ok(Found(m, columns, player, k, t))
    else Err(LineError(m, columns, player, k).value)
  }

  lemma {:induction false} FirstFailureFromAt(m: Matrix, columns: nat, player: int, from: nat, k: nat)
    requires from <= k <= LineCount(m, columns, player)
    requires forall j :: from <= j < k ==> LineError(m, columns, player, j) == None
    requires k == LineCount(m, columns, player) || LineError(m, columns, player, k).Some?
    ensures FirstFailureFrom(m, columns, player, from) == k
    decreases k - from
  {
    if from < k {
      FirstFailureFromAt(m, columns, player, from + 1, k);
    }
  }

  /** The failure point is the line a scan stops at: the first that raises, or the end. */
  lemma FailurePointAt(m: Matrix, columns: nat, player: int, k: nat)
    requires k <= LineCount(m, columns, player) && LinesOk(m, columns, player, k)
    requires k == LineCount(m, columns, player) || LineError(m, columns, player, k).Some?
    ensures FailurePoint(m, columns, player) == k
  {
    FirstFailureFromAt(m, columns, player, 0, k);
  }

  /** The coordinates committed to the persistent state before the search stops. */
  function Committed(m: Matrix, columns: nat, player: int): seq<Coord>
    requires ValidPlayer(player)
  {
    Found(m, columns, player, FailurePoint(m, columns, player), KeepStale)
  }

  /** A coordinate is found iff it lies on a scanned line at a position that line's scan reports. */
  lemma {:induction false} FoundMembers(m: Matrix, columns: nat, player: int, n: nat, t: Ties, c: Coord)
    requires ValidPlayer(player) && n <= LineCount(m, columns, player)
    requires LinesOk(m, columns, player, n)
    ensures c in Found(m, columns, player, n, t) <==>
      LineOf(c, player) < n && PosOf(c, player) in BestIndices(Line(m, columns, player, LineOf(c, player)), t)
    decreases n
  {
    if n > 0 {
      FoundMembers(m, columns, player, n - 1, t, c);
      PlaceMembers(BestIndices(Line(m, columns, player, n - 1), t), n - 1, player, c);
    }
  }

  /** One line's report: cells of the grid on that line, each listed once. */
  lemma LineCoordsShape(m: Matrix, columns: nat, player: int, k: nat, t: Ties)
    requires ValidPlayer(player) && k < LineCount(m, columns, player)
    requires LineError(m, columns, player, k) == None
    ensures NoDup(LineCoords(m, columns, player, k, t))
    ensures forall c :: c in LineCoords(m, columns, player, k, t) ==>
      HasCell(m, c) && c.col < columns && c.row < |m| && LineOf(c, player) == k
  {
    var vals := Line(m, columns, player, k);
    var idx := BestIndices(vals, t);
    BestIndicesShape(vals, t);
    var cs := LineCoords(m, columns, player, k, t);
    forall c | c in cs ensures HasCell(m, c) && c.col < columns && c.row < |m| && LineOf(c, player) == k {
      PlaceMembers(idx, k, player, c);
    }
    forall i, j | 0 <= i < j < |cs| ensures cs[i] != cs[j] {
      assert PosOf(cs[i], player) == idx[i] && PosOf(cs[j], player) == idx[j];
    }
  }

  lemma NoDupConcat<T>(xs: seq<T>, ys: seq<T>)
    requires NoDup(xs) && NoDup(ys)
    requires forall x :: x in xs ==> x !in ys
    ensures NoDup(xs + ys)
  {
    var all := xs + ys;
    forall i, j | 0 <= i < j < |all| ensures all[i] != all[j] {
      if i < |xs| && j >= |xs| {
        assert all[i] in xs && all[j] == ys[j - |xs|];
      } else if i >= |xs| {
        assert all[i] == ys[i - |xs|] && all[j] == ys[j - |xs|];
      }
    }
  }

  /** Found coordinates are cells of the grid, inside the declared bounds, each listed once. */
  lemma {:induction false} FoundShape(m: Matrix, columns: nat, player: int, n: nat, t: Ties)
    requires ValidPlayer(player) && n <= LineCount(m, columns, player)
    requires LinesOk(m, columns, player, n)
    ensures NoDup(Found(m, columns, player, n, t))
    ensures forall c :: c in Found(m, columns, player, n, t) ==>
      HasCell(m, c) && c.col < columns && c.row < |m| && LineOf(c, player) < n
    decreases n
  {
    if n > 0 {
      var f := Found(m, columns, player, n - 1, t);
      var cs := LineCoords(m, columns, player, n - 1, t);
      assert Found(m, columns, player, n, t) == f + cs;
      FoundShape(m, columns, player, n - 1, t);
      LineCoordsShape(m, columns, player, n - 1, t);
      forall x | x in f
        ensures x !in cs
      {
        assert LineOf(x, player) < n - 1;
      }
      NoDupConcat(f, cs);
      forall c | c in f + cs
        ensures HasCell(m, c) && c.col < columns && c.row < |m| && LineOf(c, player) < n
      {
        if c !in f {
          assert c in cs;
        }
      }
    }
  }

  /** When the search raises: exactly when some line's scan does; never on a covered grid with non-empty lines. */
  lemma BestResponsesOkWhen(m: Matrix, columns: nat, player: int, t: Ties)
    requires ValidPlayer(player)
    ensures BestResponses(m, columns, player, t).Ok? <==> LinesOk(m, columns, player, LineCount(m, columns, player))
    ensures Covers(m, columns) && (player == 1 ==> |m| > 0 || columns == 0) && (player == 2 ==> columns > 0 || |m| == 0)
      ==> BestResponses(m, columns, player, t).Ok?
  {
    var n := LineCount(m, columns, player);
    var k := FailurePoint(m, columns, player);
    if k < n {
      assert LineError(m, columns, player, k).Some?;
    }
  }

  /**
   * The engines' list when no line raises: in bounds, without repetition, and holding
   * exactly the cells that tie the running maximum of their line or first attain its maximum.
   */
  lemma BestResponsesSpec(m: Matrix, columns: nat, player: int, c: Coord)
    requires ValidPlayer(player) && BestResponses(m, columns, player, KeepStale).Ok?
    ensures NoDup(BestResponses(m, columns, player, KeepStale).value)
    ensures c in BestResponses(m, columns, player, KeepStale).value ==> HasCell(m, c) && c.col < columns && c.row < |m|
    ensures c in BestResponses(m, columns, player, KeepStale).value <==>
      LineOf(c, player) < LineCount(m, columns, player) &&
      (TiesRunningMax(Line(m, columns, player, LineOf(c, player)), PosOf(c, player)) ||
       IsFirstMax(Line(m, columns, player, LineOf(c, player)), PosOf(c, player)))
  {
    var n := LineCount(m, columns, player);
    FoundShape(m, columns, player, n, KeepStale);
    FoundMembers(m, columns, player, n, KeepStale, c);
    if LineOf(c, player) < n {
      BestIndicesMembers(Line(m, columns, player, LineOf(c, player)), PosOf(c, player));
    }
  }

  /** With the tie list restarted, the list holds exactly the cells that attain their line's maximum. */
  lemma BestResponsesRestartExact(m: Matrix, columns: nat, player: int, c: Coord)
    requires ValidPlayer(player) && BestResponses(m, columns, player, Restart).Ok?
    ensures NoDup(BestResponses(m, columns, player, Restart).value)
    ensures c in BestResponses(m, columns, player, Restart).value <==>
      LineOf(c, player) < LineCount(m, columns, player) &&
      PosOf(c, player) < |Line(m, columns, player, LineOf(c, player))| &&
      Line(m, columns, player, LineOf(c, player))[PosOf(c, player)] == Max(Line(m, columns, player, LineOf(c, player)))
  {
    var n := LineCount(m, columns, player);
    FoundShape(m, columns, player, n, Restart);
    FoundMembers(m, columns, player, n, Restart, c);
    if LineOf(c, player) < n {
      BestIndicesRestartExact(Line(m, columns, player, LineOf(c, player)), PosOf(c, player));
    }
  }

  /** Player 1: every row attaining a column's maximum is found, as (column, row). */
  lemma BestResponsesCompleteP1(m: Matrix, columns: nat, t: Ties, j: nat, r: nat)
    requires BestResponses(m, columns, 1, t).Ok?
    requires j < columns && r < |m| && ColumnPresent(m, j)
    requires forall i :: 0 <= i < |m| ==> m[i][j].u1 <= m[r][j].u1
    ensures Coord(j, r) in BestResponses(m, columns, 1, t).value
  {
    BestResponsesOkWhen(m, columns, 1, t);
    var vals := Line(m, columns, 1, j);
    var w :| 0 <= w < |vals| && vals[w] == Max(vals);
    BestIndicesComplete(vals, r, t);
    FoundMembers(m, columns, 1, columns, t, Coord(j, r));
  }

  /** Player 2: every column attaining a row's maximum is found, as (column, row). */
  lemma BestResponsesCompleteP2(m: Matrix, columns: nat, t: Ties, r: nat, c: nat)
    requires BestResponses(m, columns, 2, t).Ok?
    requires r < |m| && c < columns <= |m[r]|
    requires forall i :: 0 <= i < columns ==> m[r][i].u2 <= m[r][c].u2
    ensures Coord(c, r) in BestResponses(m, columns, 2, t).value
  {
    BestResponsesOkWhen(m, columns, 2, t);
    var vals := Line(m, columns, 2, r);
    var w :| 0 <= w < |vals| && vals[w] == Max(vals);
    BestIndicesComplete(vals, c, t);
    FoundMembers(m, columns, 2, |m|, t, Coord(c, r));
  }

  // ------------------------------------------------------ pure equilibria

  /** `[value for value in player1 if value in player2]` over both players' best responses. */
  function PureNash(m: Matrix, columns: nat, t: Ties): Result<seq<Coord>> {
    match BestResponses(m, columns, 1, t)
    case Err(e) => Err(e)
    case Ok(b1) =>
      match BestResponses(m, columns, 2, t)
      case Err(e) => Err(e)
      case Ok(b2) => Ok(Intersect(b1, b2))
  }

  /** Cell `c` is a pure Nash equilibrium: neither player gains by deviating alone. */
  predicate IsEquilibrium(m: Matrix, columns: nat, c: Coord) {
    && c.row < |m| && c.col < columns <= |m[c.row]| && ColumnPresent(m, c.col)
    && (forall r :: 0 <= r < |m| ==> m[r][c.col].u1 <= m[c.row][c.col].u1)
    && (forall j :: 0 <= j < columns ==> m[c.row][j].u2 <= m[c.row][c.col].u2)
  }

  /** Every pure Nash equilibrium is reported, and nothing is reported twice. */
  lemma PureNashComplete(m: Matrix, columns: nat, t: Ties, c: Coord)
    requires PureNash(m, columns, t).Ok?
    ensures NoDup(PureNash(m, columns, t).value)
    ensures IsEquilibrium(m, columns, c) ==> c in PureNash(m, columns, t).value
  {
    var b1 := BestResponses(m, columns, 1, t).value;
    var b2 := BestResponses(m, columns, 2, t).value;
    BestResponsesOkWhen(m, columns, 1, t);
    FoundShape(m, columns, 1, columns, t);
    IntersectNoDup(b1, b2);
    if IsEquilibrium(m, columns, c) {
      BestResponsesCompleteP1(m, columns, t, c.col, c.row);
      BestResponsesCompleteP2(m, columns, t, c.row, c.col);
    }
  }

  /** With the tie list restarted, exactly the pure Nash equilibria are reported. */
  lemma PureNashRestartExact(m: Matrix, columns: nat, c: Coord)
    requires PureNash(m, columns, Restart).Ok?
    ensures c in PureNash(m, columns, Restart).value <==> IsEquilibrium(m, columns, c)
  {
    PureNashComplete(m, columns, Restart, c);
    if c in PureNash(m, columns, Restart).value {
      RestartColumnBest(m, columns, c);
      RestartRowBest(m, columns, c);
    }
  }

  /** With ties restarted, a reported best response of player 1 is a maximum of its column. */
  lemma RestartColumnBest(m: Matrix, columns: nat, c: Coord)
    requires BestResponses(m, columns, 1, Restart).Ok?
    requires c in BestResponses(m, columns, 1, Restart).value
    ensures c.col < columns && c.row < |m| && ColumnPresent(m, c.col)
    ensures forall r :: 0 <= r < |m| ==> m[r][c.col].u1 <= m[c.row][c.col].u1
  {
    BestResponsesRestartExact(m, columns, 1, c);
    var v1 := Line(m, columns, 1, c.col);
    BestIndicesRestartExact(v1, c.row);
    assert forall r :: 0 <= r < |m| ==> m[r][c.col].u1 == v1[r];
  }

  /** With ties restarted, a reported best response of player 2 is a maximum of its row. */
  lemma RestartRowBest(m: Matrix, columns: nat, c: Coord)
    requires BestResponses(m, columns, 2, Restart).Ok?
    requires c in BestResponses(m, columns, 2, Restart).value
    ensures c.row < |m| && c.col < columns <= |m[c.row]|
    ensures forall j :: 0 <= j < columns ==> m[c.row][j].u2 <= m[c.row][c.col].u2
  {
    BestResponsesRestartExact(m, columns, 2, c);
    var v2 := Line(m, columns, 2, c.row);
    BestIndicesRestartExact(v2, c.col);
    FoundShape(m, columns, 2, |m|, Restart);
    assert forall j :: 0 <= j < columns ==> m[c.row][j].u2 == v2[j];
  }

  /** A two-value line: the second index alone when it is larger, both (second first) on a tie, else the first. */
  lemma BestIndicesPair(a: int, b: int, t: Ties)
    ensures BestIndices([a, b], t) == if b > a then [1] else if b == a then [1, 0] else [0]
  {
    assert ScanPrefix([a, b], 1, t) == Scan(a, 0, []);
  }

  /** On a 2x2 grid a player's list is the report of their first line followed by that of their second. */
  lemma BestResponses2x2(m: Matrix, player: int, t: Ties)
    requires Rectangular(m, 2, 2) && ValidPlayer(player)
    ensures BestResponses(m, 2, player, t) ==
      Ok(Place(BestIndices(Line(m, 2, player, 0), t), 0, player) + Place(BestIndices(Line(m, 2, player, 1), t), 1, player))
  {
    assert LineError(m, 2, player, 0) == None by { assert ColumnPresent(m, 0); }
    assert LineError(m, 2, player, 1) == None by { assert ColumnPresent(m, 1); }
    assert FailurePoint(m, 2, player) == 2;
    assert LineCount(m, 2, player) == 2;
    assert BestResponses(m, 2, player, t) == Ok(Found(m, 2, player, 2, t));
    assert Found(m, 2, player, 1, t) == LineCoords(m, 2, player, 0, t);
    assert Found(m, 2, player, 2, t) == Found(m, 2, player, 1, t) + LineCoords(m, 2, player, 1, t);
  }

  /** As written, a stale tie becomes a reported equilibrium that is not one. */
  lemma StaleTieEquilibrium()
    ensures PureNash([[Payoff(1, 0)], [Payoff(1, 0)], [Payoff(2, 0)]], 1, KeepStale).Ok?
    ensures Coord(0, 1) in PureNash([[Payoff(1, 0)], [Payoff(1, 0)], [Payoff(2, 0)]], 1, KeepStale).value
    ensures !IsEquilibrium([[Payoff(1, 0)], [Payoff(1, 0)], [Payoff(2, 0)]], 1, Coord(0, 1))
  {
    var m: Matrix := [[Payoff(1, 0)], [Payoff(1, 0)], [Payoff(2, 0)]];
    StaleTieColumn(m);
    StaleTieRow(m);
    assert m[2][0].u1 > m[1][0].u1;
  }

  /** Player 1's scan of the one column keeps the stale tie at row 1. */
  lemma StaleTieColumn(m: Matrix)
    requires m == [[Payoff(1, 0)], [Payoff(1, 0)], [Payoff(2, 0)]]
    ensures BestResponses(m, 1, 1, KeepStale).Ok? && Coord(0, 1) in BestResponses(m, 1, 1, KeepStale).value
  {
    BestResponsesOkWhen(m, 1, 1, KeepStale);
    StaleTieExample();
    assert Line(m, 1, 1, 0) == [1, 1, 2];
    FoundMembers(m, 1, 1, 1, KeepStale, Coord(0, 1));
  }

  /** Player 2's scan of row 1, a single cell, reports that cell. */
  lemma StaleTieRow(m: Matrix)
    requires m == [[Payoff(1, 0)], [Payoff(1, 0)], [Payoff(2, 0)]]
    ensures BestResponses(m, 1, 2, KeepStale).Ok? && Coord(0, 1) in BestResponses(m, 1, 2, KeepStale).value
  {
    BestResponsesOkWhen(m, 1, 2, KeepStale);
    assert Line(m, 1, 2, 1) == [0];
    assert ScanPrefix([0], 1, KeepStale) == Scan(0, 0, []);
    FoundMembers(m, 1, 2, 3, KeepStale, Coord(0, 1));
  }

  // -------------------------------------------------- committing the results

  /** `x` with the player's component replaced by the tag 'H'. */
  function Tagged(x: Marked, player: int): Marked {
    if player == 1 then Marked(Tag, x.second) else Marked(x.first, Tag)
  }

  predicate CellsIn(a: Annotated, cs: seq<Coord>) {
    forall i :: 0 <= i < |cs| ==> cs[i].row < |a| && cs[i].col < |a[cs[i].row]|
  }

  /** The annotated grid after tagging each coordinate of `cs` in turn for the player. */
  function Mark(a: Annotated, cs: seq<Coord>, player: int): (b: Annotated)
    requires CellsIn(a, cs)
    ensures |b| == |a| && forall r :: 0 <= r < |a| ==> |b[r]| == |a[r]|
    decreases |cs|
  {
    if cs == [] then a
    else
      var c := cs[0];
      Mark(SetAt(a, c.row, c.col, Tagged(a[c.row][c.col], player)), cs[1..], player)
  }

  /** A cell is tagged for the player iff its coordinate was in the list; nothing else changes. */
  lemma {:induction false} MarkCells(a: Annotated, cs: seq<Coord>, player: int, r: nat, c: nat)
    requires CellsIn(a, cs) && r < |a| && c < |a[r]|
    ensures Mark(a, cs, player)[r][c] == if Coord(c, r) in cs then Tagged(a[r][c], player) else a[r][c]
    decreases |cs|
  {
    if cs != [] {
      var d := cs[0];
      var a' := SetAt(a, d.row, d.col, Tagged(a[d.row][d.col], player));
      assert CellsIn(a', cs[1..]);
      MarkCells(a', cs[1..], player, r, c);
      assert Coord(c, r) in cs <==> Coord(c, r) == d || Coord(c, r) in cs[1..];
    }
  }

  /** The engines' tagging loop: each coordinate's cell gets the tag in the player's component. */
  method MarkAll(a: Annotated, cs: seq<Coord>, player: int) returns (b: Annotated)
    requires CellsIn(a, cs)
    ensures b == Mark(a, cs, player)
  {
    b := a;
    var i := 0;
    while i < |cs|
      invariant 0 <= i <= |cs|
      invariant |b| == |a| && forall r :: 0 <= r < |a| ==> |b[r]| == |a[r]|
      invariant CellsIn(b, cs[i..]) && Mark(b, cs[i..], player) == Mark(a, cs, player)
    {
      var c := cs[i];
      assert cs[i..][1..] == cs[i + 1..];
      b := SetAt(b, c.row, c.col, Tagged(b[c.row][c.col], player));
      i := i + 1;
    }
  }

  /** Tagging the same coordinates twice gives what tagging them once gives. */
  lemma MarkIdempotent(a: Annotated, cs: seq<Coord>, player: int)
    requires CellsIn(a, cs)
    ensures CellsIn(Mark(a, cs, player), cs)
    ensures Mark(Mark(a, cs, player), cs, player) == Mark(a, cs, player)
  {
    var b := Mark(a, cs, player);
    assert CellsIn(b, cs);
    var bb := Mark(b, cs, player);
    forall r | 0 <= r < |a| ensures bb[r] == b[r] {
      forall c | 0 <= c < |a[r]| ensures bb[r][c] == b[r][c] {
        MarkCells(a, cs, player, r, c);
        MarkCells(b, cs, player, r, c);
      }
    }
  }

  /** Tagging a list then another is tagging their concatenation. */
  lemma {:induction false} MarkConcat(a: Annotated, xs: seq<Coord>, ys: seq<Coord>, player: int)
    requires CellsIn(a, xs + ys)
    ensures CellsIn(a, xs) && CellsIn(Mark(a, xs, player), ys)
    ensures Mark(a, xs + ys, player) == Mark(Mark(a, xs, player), ys, player)
    decreases |xs|
  {
    assert forall i :: 0 <= i < |xs| ==> xs[i] == (xs + ys)[i];
    assert forall i :: 0 <= i < |ys| ==> ys[i] == (xs + ys)[|xs| + i];
    if xs != [] {
      var d := xs[0];
      var a' := SetAt(a, d.row, d.col, Tagged(a[d.row][d.col], player));
      assert (xs + ys)[1..] == xs[1..] + ys;
      assert CellsIn(a', xs[1..] + ys);
      MarkConcat(a', xs[1..], ys, player);
    } else {
      assert xs + ys == ys;
    }
  }

  /** `for v in xs: if v not in acc: acc.append(v)`. */
  function AppendNew<T(==)>(acc: seq<T>, xs: seq<T>): seq<T>
    decreases |xs|
  {
    if xs == [] then acc else AppendNew(if xs[0] in acc then acc else acc + [xs[0]], xs[1..])
  }

  /** Appending only new values keeps the old list as a prefix, holds the union, and repeats nothing new. */
  lemma {:induction false} AppendNewFacts<T>(acc: seq<T>, xs: seq<T>)
    ensures |acc| <= |AppendNew(acc, xs)| && AppendNew(acc, xs)[..|acc|] == acc
    ensures forall x :: x in AppendNew(acc, xs) <==> x in acc || x in xs
    ensures NoDup(acc) ==> NoDup(AppendNew(acc, xs))
    decreases |xs|
  {
    if xs != [] {
      var acc' := if xs[0] in acc then acc else acc + [xs[0]];
      AppendNewFacts(acc', xs[1..]);
      assert forall x :: x in xs <==> x == xs[0] || x in xs[1..];
      assert acc'[..|acc|] == acc;
      var r := AppendNew(acc', xs[1..]);
      assert r[..|acc|] == r[..|acc'|][..|acc|];
    }
  }

  /** A list built from two lists of cells of `a` holds only cells of `a`. */
  lemma CellsInAppendNew(a: Annotated, acc: seq<Coord>, xs: seq<Coord>)
    requires CellsIn(a, acc) && CellsIn(a, xs)
    ensures CellsIn(a, AppendNew(acc, xs))
  {
    AppendNewFacts(acc, xs);
    var r := AppendNew(acc, xs);
    forall i | 0 <= i < |r| ensures r[i].row < |a| && r[i].col < |a[r[i].row]| {
      assert r[i] in r;
      if r[i] in acc {
        var j :| 0 <= j < |acc| && acc[j] == r[i];
      } else {
        var j :| 0 <= j < |xs| && xs[j] == r[i];
      }
    }
  }

  /** The engines' append-if-absent loop. */
  method AppendNewInOrder<T(==)>(acc: seq<T>, xs: seq<T>) returns (r: seq<T>)
    ensures r == AppendNew(acc, xs)
  {
    r := acc;
    var i := 0;
    while i < |xs|
      invariant 0 <= i <= |xs|
      invariant AppendNew(r, xs[i..]) == AppendNew(acc, xs)
    {
      assert xs[i..][1..] == xs[i + 1..];
      if xs[i] !in r {
        r := r + [xs[i]];
      }
      i := i + 1;
    }
  }

  /** Appending a concatenation is appending one part and then the other. */
  lemma {:induction false} AppendNewConcat<T>(acc: seq<T>, xs: seq<T>, ys: seq<T>)
    ensures AppendNew(acc, xs + ys) == AppendNew(AppendNew(acc, xs), ys)
    decreases |xs|
  {
    if xs == [] {
      assert xs + ys == ys;
    } else {
      assert (xs + ys)[0] == xs[0];
      assert (xs + ys)[1..] == xs[1..] + ys;
      AppendNewConcat(if xs[0] in acc then acc else acc + [xs[0]], xs[1..], ys);
    }
  }

  /** Appending values that are all present already changes nothing. */
  lemma {:induction false} AppendNewAbsorbed<T>(acc: seq<T>, xs: seq<T>)
    requires forall x :: x in xs ==> x in acc
    ensures AppendNew(acc, xs) == acc
    decreases |xs|
  {
    if xs != [] {
      AppendNewAbsorbed(acc, xs[1..]);
    }
  }

  /** Appending values none of which repeats gives the plain concatenation. */
  lemma {:induction false} AppendNewDistinct<T>(acc: seq<T>, xs: seq<T>)
    requires NoDup(acc + xs)
    ensures AppendNew(acc, xs) == acc + xs
    decreases |xs|
  {
    if xs != [] {
      forall i | 0 <= i < |acc| ensures acc[i] != xs[0] {
        assert (acc + xs)[i] == acc[i] && (acc + xs)[|acc|] == xs[0];
      }
      assert (acc + [xs[0]]) + xs[1..] == acc + xs;
      AppendNewDistinct(acc + [xs[0]], xs[1..]);
    }
  }

  /** `[v for v in xs if v in ys]`. */
  function Intersect<T(==,!new)>(xs: seq<T>, ys: seq<T>): (r: seq<T>)
    ensures forall x :: x in r <==> x in xs && x in ys
    ensures |r| <= |xs|
  {
    if xs == [] then []
    else
      assert forall x :: x in xs <==> x == xs[0] || x in xs[1..];
      (if xs[0] in ys then [xs[0]] else []) + Intersect(xs[1..], ys)
  }

  /** Filtering a list without repetitions yields a list without repetitions. */
  lemma {:induction false} IntersectNoDup<T(!new)>(xs: seq<T>, ys: seq<T>)
    requires NoDup(xs)
    ensures NoDup(Intersect(xs, ys))
    decreases |xs|
  {
    if xs != [] {
      IntersectNoDup(xs[1..], ys);
      forall i | 0 <= i < |xs[1..]| ensures xs[1..][i] != xs[0] {
        assert xs[1..][i] == xs[i + 1];
      }
    }
  }
}
