/**
 * `GameFileParser`: reads a line-oriented game definition (a few top-level keys, a `PARAMS`
 * section and a `PAYOFFS` section) and creates the game it describes through a `GameManager`.
 * Every failure reaches the caller as `GameFileParseError`.
 */
module FileParser {
  import opened Base
  import opened Grid
  import opened Text
  import opened StrategicSpec
  import opened Strategic
  import opened Manager

  // ------------------------------------------------------------ messages

  /** The prefix of a message about one line of the definition, numbered from 1. */
  function LinePrefix(n: nat): string {
    "Line " + NatToString(n) + ": "
  }

  const StrategiesFormat := "Invalid strategies format. Expected 'rows columns'"
  const OutsideSection := "Unexpected content outside of section"
  const NoPairs := "No valid payoff pairs found. Expected format: (p1, p2)"
  const ArityMessage := "Payoff pairs must have exactly 2 elements, found "
  const TypeRequired := "GAME_TYPE is required"
  const PayoffsRequired := "PAYOFFS section is required for custom games"
  const StrategiesRequired := "STRATEGIES is required for random games"

  // ------------------------------------------------------------ payoff rows

  /** The text after its leading whitespace (the `\\s*` of a pattern). */
  function SkipBlanks(s: string): (r: string)
    ensures |r| <= |s|
  {
    if s != [] && IsSpace(s[0]) then SkipBlanks(s[1..]) else s
  }

  /** Length of the run of decimal digits `s` starts with. */
  function DigitRun(s: string): (n: nat)
    ensures n <= |s|
    ensures forall i :: 0 <= i < n ==> IsDigit(s[i])
    ensures n < |s| ==> !IsDigit(s[n])
  {
    if s == [] || !IsDigit(s[0]) then 0 else 1 + DigitRun(s[1..])
  }

  /** A run of digits at the start of `u`: its value and the text after it. */
  function Unsigned(u: string): (r: Option<(nat, string)>)
    ensures r.Some? ==> |r.value.1| < |u|
  {
    var n := DigitRun(u);
    if n == 0 then None
    else
      var d := u[..n];
      assert AllDigits(d);
      Some((DigitsValue(d), u[n..]))
  }

  /** An optional sign and a run of digits at the start of `t`: the integer and the text after it. */
  function IntToken(t: string): (r: Option<(int, string)>)
    ensures r.Some? ==> |r.value.1| < |t|
  {
    var signed := t != [] && (t[0] == '+' || t[0] == '-');
    var u := if signed then t[1..] else t;
    match Unsigned(u)
    case None => None
    case Some((v, rest)) => Some((if signed && t[0] == '-' then -(v as int) else v as int, rest))
  }

  /**
   * The text after an opening parenthesis when it continues as a parenthesised integer tuple
   * (integers separated by commas, whitespace allowed around them, then the closing
   * parenthesis): the integers, in order.
   */
  function TupleBody(t: string): (r: Option<seq<int>>)
    ensures r.Some? ==> r.value != []
  {
    var tok := IntToken(SkipBlanks(t));
    if tok.None? then None else Cons(tok.value.0, TupleTail(tok.value.1))
  }

  /** The rest of a tuple after an integer: more `, integer` parts, then the closing parenthesis. */
  function TupleTail(t: string): Option<seq<int>>
    decreases |t|
  {
    var u := SkipBlanks(t);
    if u != [] && u[0] == ')' then Some([])
    else if u != [] && u[0] == ',' then
      var tok := IntToken(SkipBlanks(u[1..]));
      if tok.None? then None else Cons(tok.value.0, TupleTail(tok.value.1))
    else None
  }

  function Cons(v: int, tail: Option<seq<int>>): (r: Option<seq<int>>)
    ensures r.Some? ==> r.value != []
  {
    if tail.Some? then Some([v] + tail.value) else None
  }

  /** The tuple that starts at the first character of `s`, if one does. */
  function TupleAt(s: string): Option<seq<int>> {
    if s != [] && s[0] == '(' then TupleBody(s[1..]) else None
  }

  /** Every parenthesised integer tuple of a line, left to right, whatever its length. */
  function Tuples(s: string): (r: seq<seq<int>>)
    ensures forall k :: 0 <= k < |r| ==> r[k] != []
    decreases |s|
  {
    if s == [] then []
    else Found(TupleAt(s)) + Tuples(s[1..])
  }

  /** The length of the first tuple that is not a pair. */
  function FirstBadArity(ts: seq<seq<int>>): (r: Option<nat>)
    ensures r.None? <==> forall k :: 0 <= k < |ts| ==> |ts[k]| == 2
    ensures r.Some? ==> r.value != 2 && exists k :: 0 <= k < |ts| && |ts[k]| == r.value
  {
    if ts == [] then None
    else if |ts[0]| != 2 then Some(|ts[0]|)
    else
      var r := FirstBadArity(ts[1..]);
      assert forall k :: 1 <= k < |ts| ==> ts[k] == ts[1..][k - 1];
      r
  }

  function Pairs(ts: seq<seq<int>>): (ps: seq<Payoff>)
    requires forall k :: 0 <= k < |ts| ==> |ts[k]| == 2
  {
    seq(|ts|, k requires 0 <= k < |ts| => Payoff(ts[k][0], ts[k][1]))
  }

  /**
   * `_parse_payoff_row(line, line_num)`: the pairs of a row, left to right; a tuple of any other
   * length, or a row with no pair at all, is refused.
   */
  function PayoffRow(line: string, n: nat): (r: Result<seq<Payoff>>)
    ensures r.Ok? ==> r.value != []
    ensures r.Err? ==> r.error.ParseError?
  {
    RowOf(Tuples(line), n)
  }

  /** The verdict on the tuples found in line `n`. */
  function RowOf(ts: seq<seq<int>>, n: nat): (r: Result<seq<Payoff>>)
    ensures r.Ok? ==> r.value != []
    ensures r.Err? ==> r.error.ParseError?
  {
    match FirstBadArity(ts)
    case Some(k) => Err(ParseError(LinePrefix(n) + ArityMessage + NatToString(k)))
    case None => if ts == [] then Err(ParseError(LinePrefix(n) + NoPairs)) else Ok(Pairs(ts))
  }

  lemma {:induction false} FirstBadAppend(a: seq<seq<int>>, b: seq<seq<int>>)
    requires FirstBadArity(a).None?
    ensures FirstBadArity(a + b) == FirstBadArity(b)
    decreases |a|
  {
    if a != [] {
      assert (a + b)[1..] == a[1..] + b;
      FirstBadAppend(a[1..], b);
    } else {
      assert a + b == b;
    }
  }

  /** The tuples from position `i` on: the one starting there, if any, then those after it. */
  lemma TuplesFrom(line: string, i: nat, ts: seq<seq<int>>)
    requires i < |line|
    requires Tuples(line) == ts + Tuples(line[i..])
    ensures Tuples(line) == ts + Found(TupleAt(line[i..])) + Tuples(line[i + 1..])
  {
    var u := line[i..];
    DropOne(line, i);
    TuplesCons(u);
    AppendAssoc(ts, Found(TupleAt(u)), Tuples(line[i + 1..]));
  }

  lemma DropOne(line: string, i: nat)
    requires i < |line|
    ensures line[i..] != [] && line[i..][1..] == line[i + 1..]
  {
  }

  lemma TuplesCons(u: string)
    requires u != []
    ensures Tuples(u) == Found(TupleAt(u)) + Tuples(u[1..])
  {
  }

  lemma AppendAssoc<T>(a: seq<T>, b: seq<T>, c: seq<T>)
    ensures a + (b + c) == a + b + c
  {
  }

  function Found(t: Option<seq<int>>): seq<seq<int>> {
    if t.Some? then [t.value] else []
  }

  lemma PairsSnoc(ts: seq<seq<int>>, t: seq<int>)
    requires forall k :: 0 <= k < |ts| ==> |ts[k]| == 2
    requires |t| == 2
    ensures forall k :: 0 <= k < |ts + [t]| ==> |(ts + [t])[k]| == 2
    ensures Pairs(ts + [t]) == Pairs(ts) + [Payoff(t[0], t[1])]
  {
  }

  /** The tuple search of `_parse_payoff_row`: every tuple of the line, scanning it once. */
  method FindTuples(line: string) returns (ts: seq<seq<int>>)
    ensures ts == Tuples(line)
  {
    ts := [];
    var i := 0;
    assert line[i..] == line;
    while i < |line|
      invariant 0 <= i <= |line|
      invariant Tuples(line) == ts + Tuples(line[i..])
    {
      TuplesFrom(line, i, ts);
      ts := ts + Found(TupleAt(line[i..]));
      i := i + 1;
    }
    assert ts + [] == ts;
  }

  /** `_parse_payoff_row`: find the tuples, then judge them. */
  method ScanPayoffRow(line: string, n: nat) returns (r: Result<seq<Payoff>>)
    ensures r == PayoffRow(line, n)
  {
    var all := FindTuples(line);
    r := CheckRow(all, n);
  }

  /** Refuse the first tuple that is not a pair, then collect the pairs in order. */
  method CheckRow(all: seq<seq<int>>, n: nat) returns (r: Result<seq<Payoff>>)
    ensures r == RowOf(all, n)
  {
    var k := 0;
    while k < |all|
      invariant 0 <= k <= |all|
      invariant FirstBadArity(all[..k]).None?
    {
      if |all[k]| != 2 {
        FirstBadAppend(all[..k], all[k..]);
        assert all[..k] + all[k..] == all;
        return Err(ParseError(LinePrefix(n) + ArityMessage + NatToString(|all[k]|)));
      }
      FirstBadAppend(all[..k], [all[k]]);
      assert all[..k + 1] == all[..k] + [all[k]];
      k := k + 1;
    }
    assert all[..k] == all;
    if all == [] {
      return Err(ParseError(LinePrefix(n) + NoPairs));
    }
    var found: seq<Payoff> := [];
    k := 0;
    while k < |all|
      invariant 0 <= k <= |all|
      invariant found == Pairs(all[..k])
    {
      PairsSnoc(all[..k], all[k]);
      assert all[..k + 1] == all[..k] + [all[k]];
      found := found + [Payoff(all[k][0], all[k][1])];
      k := k + 1;
    }
    assert all[..k] == all;
    r := Ok(found);
  }

  // ------------------------------------------------------------ rendering rows back

  /** The elements of a non-empty integer tuple as Python writes them: `a, b, ...`. */
  function Commas(xs: seq<int>): string
    requires xs != []
    decreases |xs|
  {
    if |xs| == 1 then IntToString(xs[0]) else IntToString(xs[0]) + ", " + Commas(xs[1..])
  }

  function RenderTuple(xs: seq<int>): string
    requires xs != []
  {
    "(" + Commas(xs) + ")"
  }

  /** A row of pairs written as `(a, b), (c, d), ...`. */
  function RenderRow(ps: seq<Payoff>): string
    requires ps != []
    decreases |ps|
  {
    var head := RenderTuple([ps[0].u1, ps[0].u2]);
    if |ps| == 1 then head else head + ", " + RenderRow(ps[1..])
  }

  /** The tuples a rendered row holds: its pairs. */
  function PairTuples(ps: seq<Payoff>): (ts: seq<seq<int>>)
    ensures |ts| == |ps|
    ensures forall k :: 0 <= k < |ps| ==> ts[k] == [ps[k].u1, ps[k].u2]
  {
    seq(|ps|, k requires 0 <= k < |ps| => [ps[k].u1, ps[k].u2])
  }

  lemma {:induction false} DigitRunOf(w: string, rest: string)
    requires AllDigits(w)
    requires rest == [] || !IsDigit(rest[0])
    ensures DigitRun(w + rest) == |w|
    decreases |w|
  {
    if w != [] {
      assert (w + rest)[1..] == w[1..] + rest;
      DigitRunOf(w[1..], rest);
    } else {
      assert w + rest == rest;
    }
  }

  lemma UnsignedOf(w: string, rest: string)
    requires w != [] && AllDigits(w)
    requires rest == [] || !IsDigit(rest[0])
    ensures Unsigned(w + rest) == Some((DigitsValue(w), rest))
  {
    var u := w + rest;
    DigitRunOf(w, rest);
    assert u[..|w|] == w;
    assert u[|w|..] == rest;
  }

  lemma IntTokenUnsigned(w: string, rest: string)
    requires w != [] && AllDigits(w)
    requires rest == [] || !IsDigit(rest[0])
    ensures IntToken(w + rest) == Some((DigitsValue(w) as int, rest))
  {
    assert (w + rest)[0] == w[0] && IsDigit(w[0]);
    UnsignedOf(w, rest);
  }

  lemma IntTokenNegative(t: string, w: string, rest: string)
    requires w != [] && AllDigits(w)
    requires rest == [] || !IsDigit(rest[0])
    requires t == "-" + w + rest
    ensures IntToken(t) == Some((-(DigitsValue(w) as int), rest))
  {
    DropMinus(w, rest);
    UnsignedOf(w, rest);
    LeadingMinus(t, DigitsValue(w), rest);
  }

  /** A leading minus negates the unsigned value after it. */
  lemma LeadingMinus(t: string, v: nat, rest: string)
    requires t != [] && t[0] == '-' && Unsigned(t[1..]) == Some((v, rest))
    ensures IntToken(t) == Some((-(v as int), rest))
  {
  }

  lemma DropMinus(w: string, rest: string)
    ensures ("-" + w + rest)[0] == '-' && ("-" + w + rest)[1..] == w + rest
  {
  }

  /** A rendered integer followed by a non-digit reads back as that integer. */
  lemma IntTokenRendered(i: int, rest: string)
    requires rest == [] || !IsDigit(rest[0])
    ensures IntToken(IntToString(i) + rest) == Some((i, rest))
  {
    if i < 0 {
      NatToStringRoundTrip(-i);
      IntTokenNegative(IntToString(i) + rest, NatToString(-i), rest);
    } else {
      NatToStringRoundTrip(i);
      IntTokenUnsigned(NatToString(i), rest);
    }
  }

  lemma IntToStringChars(i: int)
    ensures forall k :: 0 <= k < |IntToString(i)| ==> IntToString(i)[k] == '-' || IsDigit(IntToString(i)[k])
  {
    if i < 0 {
      var w := NatToString(-i);
      assert forall k :: 1 <= k < |IntToString(i)| ==> IntToString(i)[k] == w[k - 1];
    }
  }

  lemma {:induction false} CommasChars(xs: seq<int>)
    requires xs != []
    ensures '(' !in Commas(xs) && ')' !in Commas(xs)
    ensures IntToString(xs[0]) <= Commas(xs)
    ensures Commas(xs)[0] == '-' || IsDigit(Commas(xs)[0])
    decreases |xs|
  {
    IntToStringChars(xs[0]);
    if |xs| > 1 {
      CommasChars(xs[1..]);
    }
  }

  lemma SkipNone(s: string)
    requires s != [] && !IsSpace(s[0])
    ensures SkipBlanks(s) == s
  {
  }

  lemma SkipOne(s: string)
    requires s != [] && !IsSpace(s[0])
    ensures SkipBlanks(" " + s) == s
  {
    assert (" " + s)[1..] == s;
  }

  /** A closing parenthesis, after optional whitespace, ends the tuple. */
  lemma TupleTailClose(rest: string)
    ensures TupleTail(")" + rest) == Some([])
  {
    SkipNone(")" + rest);
  }

  /** After `, ` comes the next integer, then the rest of the tuple. */
  lemma TupleTailComma(body: string)
    requires body != [] && !IsSpace(body[0])
    ensures var tok := IntToken(body);
      TupleTail(", " + body) == if tok.None? then None else Cons(tok.value.0, TupleTail(tok.value.1))
  {
    var t := ", " + body;
    SkipNone(t);
    assert t[1..] == " " + body;
    SkipOne(body);
  }

  /** After the last integer, the closing parenthesis ends the tuple. */
  lemma {:induction false} TupleTailRendered(xs: seq<int>, rest: string)
    requires xs != []
    ensures TupleTail(", " + Commas(xs) + ")" + rest) == Some(xs)
    decreases |xs|, 1
  {
    var body := Commas(xs) + ")" + rest;
    CommaLead(Commas(xs), ")", rest);
    FirstInt(xs, rest);
    TupleTailComma(body);
    ContinuationTail(xs, rest);
    ConsFirst(xs);
  }

  /** What follows the first integer of a rendered tuple reads back as the other integers. */
  lemma {:induction false} ContinuationTail(xs: seq<int>, rest: string)
    requires xs != []
    ensures TupleTail(Continuation(xs, rest)) == Some(xs[1..])
    decreases |xs|, 0
  {
    if |xs| == 1 {
      TupleTailClose(rest);
    } else {
      TupleTailRendered(xs[1..], rest);
    }
  }

  /** A rendered tuple's text starts with its first integer, read back as that integer. */
  lemma FirstInt(xs: seq<int>, rest: string)
    requires xs != []
    ensures var body := Commas(xs) + ")" + rest;
      body != [] && !IsSpace(body[0]) && IntToken(body) == Some((xs[0], Continuation(xs, rest)))
  {
    CommasChars(xs);
    IntTokenRendered(xs[0], Continuation(xs, rest));
  }

  lemma CommaLead(a: string, b: string, c: string)
    ensures ", " + a + b + c == ", " + (a + b + c)
  {
  }

  lemma ConsFirst(xs: seq<int>)
    requires xs != []
    ensures Cons(xs[0], Some(xs[1..])) == Some(xs)
  {
    assert [xs[0]] + xs[1..] == xs;
  }

  /** What follows the first integer of a rendered tuple. */
  function Continuation(xs: seq<int>, rest: string): (s: string)
    requires xs != []
    ensures s != [] && (s[0] == ')' || s[0] == ',')
    ensures Commas(xs) + ")" + rest == IntToString(xs[0]) + s
  {
    if |xs| == 1 then ")" + rest
    else
      RegroupTail(IntToString(xs[0]), ", ", Commas(xs[1..]), ")", rest);
      ", " + Commas(xs[1..]) + ")" + rest
  }

  lemma RegroupTail(a: string, b: string, c: string, d: string, e: string)
    ensures a + b + c + d + e == a + (b + c + d + e)
  {
  }

  /** The text after the opening parenthesis of a rendered tuple reads back as the tuple. */
  lemma TupleBodyRendered(xs: seq<int>, rest: string)
    requires xs != []
    ensures TupleBody(Commas(xs) + ")" + rest) == Some(xs)
  {
    var body := Commas(xs) + ")" + rest;
    FirstInt(xs, rest);
    SkipNone(body);
    ContinuationTail(xs, rest);
    ConsFirst(xs);
  }

  /** Text without an opening parenthesis holds no tuple start. */
  lemma {:induction false} TuplesNoParen(u: string, rest: string)
    requires '(' !in u
    ensures Tuples(u + rest) == Tuples(rest)
    decreases |u|
  {
    if u != [] {
      assert (u + rest)[1..] == u[1..] + rest;
      TuplesNoParen(u[1..], rest);
    } else {
      assert u + rest == rest;
    }
  }

  lemma TuplesOfTuple(xs: seq<int>, rest: string)
    requires xs != []
    ensures Tuples(RenderTuple(xs) + rest) == [xs] + Tuples(rest)
  {
    var s := RenderTuple(xs) + rest;
    var body := Commas(xs) + ")";
    ParenTail(Commas(xs), rest);
    TupleBodyRendered(xs, rest);
    assert TupleAt(s) == Some(xs);
    CommasChars(xs);
    TuplesNoParen(body, rest);
    assert Tuples(s) == Found(TupleAt(s)) + Tuples(s[1..]);
  }

  lemma ParenTail(a: string, rest: string)
    ensures ("(" + a + ")" + rest)[0] == '(' && ("(" + a + ")" + rest)[1..] == a + ")" + rest
  {
  }

  lemma {:induction false} TuplesOfRow(ps: seq<Payoff>, rest: string)
    requires ps != []
    ensures Tuples(RenderRow(ps) + rest) == PairTuples(ps) + Tuples(rest)
    decreases |ps|
  {
    var pair := [ps[0].u1, ps[0].u2];
    if |ps| == 1 {
      TuplesOfTuple(pair, rest);
      assert PairTuples(ps) == [pair];
    } else {
      TuplesOfRow(ps[1..], rest);
      TuplesOfRowStep(ps, rest);
    }
  }

  lemma TuplesOfRowStep(ps: seq<Payoff>, rest: string)
    requires |ps| > 1
    requires Tuples(RenderRow(ps[1..]) + rest) == PairTuples(ps[1..]) + Tuples(rest)
    ensures Tuples(RenderRow(ps) + rest) == PairTuples(ps) + Tuples(rest)
  {
    var pair := [ps[0].u1, ps[0].u2];
    var tail := RenderRow(ps[1..]) + rest;
    RenderRowCons(ps, rest);
    TuplesAfterPair(pair, tail);
    PairTuplesCons(ps);
    Regroup(RenderRow(ps) + rest, RenderTuple(pair) + (", " + tail), tail, pair, PairTuples(ps[1..]), Tuples(rest));
  }

  lemma Regroup(x: string, y: string, t: string, pair: seq<int>, a: seq<seq<int>>, b: seq<seq<int>>)
    requires x == y
    requires Tuples(y) == [pair] + Tuples(t)
    requires Tuples(t) == a + b
    ensures Tuples(x) == ([pair] + a) + b
  {
  }

  lemma RenderRowCons(ps: seq<Payoff>, rest: string)
    requires |ps| > 1
    ensures RenderRow(ps) + rest == RenderTuple([ps[0].u1, ps[0].u2]) + (", " + (RenderRow(ps[1..]) + rest))
  {
    var head := RenderTuple([ps[0].u1, ps[0].u2]);
    var r := RenderRow(ps[1..]);
    assert RenderRow(ps) == head + ", " + r;
    Assoc(head, ", ", r, rest);
  }

  lemma Assoc(a: string, b: string, c: string, d: string)
    ensures a + b + c + d == a + (b + (c + d))
  {
  }

  lemma TuplesAfterPair(pair: seq<int>, tail: string)
    requires pair != []
    ensures Tuples(RenderTuple(pair) + (", " + tail)) == [pair] + Tuples(tail)
  {
    TuplesOfTuple(pair, ", " + tail);
    TuplesNoParen(", ", tail);
  }

  lemma PairTuplesCons(ps: seq<Payoff>)
    requires ps != []
    ensures PairTuples(ps) == [[ps[0].u1, ps[0].u2]] + PairTuples(ps[1..])
  {
  }

  /** Text without an opening parenthesis holds no tuple. */
  lemma TuplesNone(s: string)
    requires '(' !in s
    ensures Tuples(s) == []
  {
    TuplesNoParen(s, []);
    assert s + [] == s;
  }

  /** Decoration without an opening parenthesis around some text adds no tuple. */
  lemma TuplesDecorated(pre: string, mid: string, post: string, ts: seq<seq<int>>)
    requires '(' !in pre && '(' !in post
    requires Tuples(mid + post) == ts + Tuples(post)
    ensures Tuples(pre + mid + post) == ts
  {
    assert pre + mid + post == pre + (mid + post);
    TuplesNoParen(pre, mid + post);
    TuplesNone(post);
    assert ts + [] == ts;
  }

  /**
   * A row written as `(a, b), (c, d), ...`, with any decoration around it that holds no
   * opening parenthesis (such as `- [` and `]`), reads back as exactly its pairs, in order.
   */
  lemma PayoffRowRoundTrip(pre: string, ps: seq<Payoff>, post: string, n: nat)
    requires ps != [] && '(' !in pre && '(' !in post
    ensures PayoffRow(pre + RenderRow(ps) + post, n) == Ok(ps)
  {
    TuplesOfRow(ps, post);
    TuplesDecorated(pre, RenderRow(ps), post, PairTuples(ps));
    RowOfPairs(ps, n);
  }

  lemma RowOfPairs(ps: seq<Payoff>, n: nat)
    requires ps != []
    ensures RowOf(PairTuples(ps), n) == Ok(ps)
  {
    assert Pairs(PairTuples(ps)) == ps;
  }

  /** A tuple of any length other than two makes the row fail, naming that length. */
  lemma PayoffRowArity(pre: string, xs: seq<int>, post: string, n: nat)
    requires xs != [] && |xs| != 2 && '(' !in pre && '(' !in post
    ensures PayoffRow(pre + RenderTuple(xs) + post, n) ==
      Err(ParseError(LinePrefix(n) + ArityMessage + NatToString(|xs|)))
  {
    TuplesOfTuple(xs, post);
    TuplesDecorated(pre, RenderTuple(xs), post, [xs]);
    RowOfSingle(xs, n);
  }

  lemma RowOfSingle(xs: seq<int>, n: nat)
    requires |xs| != 2
    ensures RowOf([xs], n) == Err(ParseError(LinePrefix(n) + ArityMessage + NatToString(|xs|)))
  {
    assert FirstBadArity([xs]) == Some(|xs|);
  }

  /** A row without an opening parenthesis has no pair. */
  lemma PayoffRowNoPair(line: string, n: nat)
    requires '(' !in line
    ensures PayoffRow(line, n) == Err(ParseError(LinePrefix(n) + NoPairs))
  {
    TuplesNone(line);
  }

  // ------------------------------------------------------------ values

  /** A value after its colon: surrounding whitespace removed, and an inline `#` comment cut off. */
  function ValueText(raw: string): string {
    var v := Strip(raw);
    if '#' in v then Strip(v[..IndexOf(v, '#')]) else v
  }

  /** Text left of the first non-space character is dropped regardless of what follows. */
  lemma {:induction false} DropLeadingBefore(a: string, b: string)
    requires b != [] && !IsSpace(b[0])
    ensures DropLeadingSpace(a + b) == DropLeadingSpace(a) + b
    decreases |a|
  {
    if a == [] {
      assert a + b == b;
    } else {
      assert (a + b)[1..] == a[1..] + b;
      DropLeadingBefore(a[1..], b);
    }
  }

  /** An inline comment, whatever it says, leaves the value unchanged. */
  lemma ValueTextComment(raw: string, c: string)
    requires '#' !in raw
    ensures ValueText(raw + "#" + c) == ValueText(raw)
  {
    var t := raw + "#" + c;
    MarkSplit(raw, c);
    var x := DropLeadingSpace(raw);
    NoMarkAfterLead(raw);
    StripBeforeMark(raw, "#" + c);
    CutAtMark(Strip(t), x);
    assert ValueText(t) == Strip(x);
    StripTwice(raw);
  }

  lemma MarkSplit(raw: string, c: string)
    ensures raw + "#" + c == raw + ("#" + c) && ("#" + c)[0] == '#'
  {
  }

  lemma NoMarkAfterLead(raw: string)
    requires '#' !in raw
    ensures '#' !in DropLeadingSpace(raw)
  {
    var x := DropLeadingSpace(raw);
    assert x == raw[|raw| - |x|..];
  }

  /** Stripping text that runs into a `#` keeps what came before it, then the `#`. */
  lemma StripBeforeMark(raw: string, tail: string)
    requires tail != [] && tail[0] == '#'
    ensures var v := Strip(raw + tail); var x := DropLeadingSpace(raw);
      |v| > |x| && v[..|x|] == x && v[|x|] == '#'
  {
    var x := DropLeadingSpace(raw);
    DropLeadingBefore(raw, tail);
    var s := x + tail;
    assert Strip(raw + tail) == DropTrailingSpace(s);
    TrailingKeepsMark(x, tail);
    PrefixOfCut(x, tail, DropTrailingSpace(s));
  }

  /** Trailing blanks stop at a `#`, so what `rstrip()` keeps reaches past it. */
  lemma TrailingKeepsMark(x: string, tail: string)
    requires tail != [] && tail[0] == '#'
    ensures |DropTrailingSpace(x + tail)| > |x|
  {
    var s := x + tail;
    assert s[|x|] == '#' && !IsSpace(s[|x|]);
  }

  lemma PrefixOfCut(x: string, tail: string, v: string)
    requires tail != [] && |x| < |v| <= |x + tail| && v == (x + tail)[..|v|]
    ensures v[..|x|] == x && v[|x|] == tail[0]
  {
  }

  /** Cutting at the first `#` leaves the text before the one `#` known to follow it. */
  lemma CutAtMark(v: string, x: string)
    requires '#' !in x && |v| > |x| && v[..|x|] == x && v[|x|] == '#'
    ensures '#' in v && v[..IndexOf(v, '#')] == x
  {
  }

  /** Stripping what is left of `raw` once its leading blanks are gone gives `raw` stripped, and adds no `#`. */
  lemma StripTwice(raw: string)
    requires '#' !in raw
    ensures Strip(DropLeadingSpace(raw)) == Strip(raw) && '#' !in Strip(raw)
  {
    StripAfterLead(raw);
    NoMarkInStrip(raw);
  }

  lemma StripAfterLead(raw: string)
    ensures Strip(DropLeadingSpace(raw)) == Strip(raw)
  {
    var x := DropLeadingSpace(raw);
    assert DropLeadingSpace(x) == x;
  }

  lemma NoMarkInStrip(raw: string)
    requires '#' !in raw
    ensures '#' !in Strip(raw)
  {
    StripSlice(raw);
    var i: nat :| Trimmed(raw, i, Strip(raw));
    NotInSlice(raw, '#', i, i + |Strip(raw)|);
  }

  lemma NotInSlice<T>(s: seq<T>, c: T, a: nat, b: nat)
    requires a <= b <= |s| && c !in s
    ensures c !in s[a..b]
  {
  }

  /** A parameter value: an integer, a decimal number, a list of such items, or text kept as written. */
  datatype ParamValue = PInt(i: int) | PDecimal(text: string) | PText(text: string) | PList(items: seq<ParamValue>)

  /** Decimal text `float` accepts: an optional sign, then digits with one decimal point among them. */
  predicate FloatText(s: string) {
    var t := Strip(s);
    var u := if t != [] && (t[0] == '+' || t[0] == '-') then t[1..] else t;
    |u| >= 2 && multiset(u)['.'] == 1 && forall i :: 0 <= i < |u| ==> u[i] == '.' || IsDigit(u[i])
  }

  /** One item: `float` when it holds a point, `int` otherwise, the text itself when that fails. */
  function Scalar(v: string): ParamValue {
    if '.' in v then (if FloatText(v) then PDecimal(v) else PText(v))
    else
      match ParseInt(v)
      case Some(i) => PInt(i)
      case None => PText(v)
  }

  /** The items of a bracketed list, each read on its own. */
  function ItemValues(parts: seq<string>): (r: seq<ParamValue>)
    ensures |r| == |parts|
  {
    if parts == [] then [] else [Scalar(Strip(parts[0]))] + ItemValues(parts[1..])
  }

  /** Text that starts with `[` and ends with `]`. */
  predicate Bracketed(v: string) {
    |v| >= 2 && v[0] == '[' && v[|v| - 1] == ']'
  }

  /** What is between the brackets, read as a list: empty, or the items between its commas. */
  function ListValue(inner: string): ParamValue {
    if inner == [] then PList([]) else PList(ItemValues(Split(inner, ',')))
  }

  /** A parameter's value: `[...]` is a list, anything else one item. */
  function ParamValueOf(v: string): ParamValue {
    if Bracketed(v) then ListValue(Strip(v[1..|v| - 1])) else Scalar(v)
  }

  lemma ItemValuesStep(parts: seq<string>, k: nat)
    requires k < |parts|
    ensures ItemValues(parts[k..]) == [Scalar(Strip(parts[k]))] + ItemValues(parts[k + 1..])
  {
    assert parts[k..][1..] == parts[k + 1..];
  }

  /** Reading a parameter's value, item by item for a list. */
  method ParseParamValue(v: string) returns (p: ParamValue)
    ensures p == ParamValueOf(v)
  {
    if !Bracketed(v) {
      return Scalar(v);
    }
    p := ParseList(Strip(v[1..|v| - 1]));
  }

  method ParseList(inner: string) returns (p: ParamValue)
    ensures p == ListValue(inner)
  {
    if inner == [] {
      return PList([]);
    }
    var parts := Split(inner, ',');
    var items: seq<ParamValue> := [];
    var k := 0;
    while k < |parts|
      invariant 0 <= k <= |parts|
      invariant ItemValues(parts) == items + ItemValues(parts[k..])
    {
      var item := Scalar(Strip(parts[k]));
      ItemValuesStep(parts, k);
      AppendAssoc(items, [item], ItemValues(parts[k + 1..]));
      items := items + [item];
      k := k + 1;
    }
    assert parts[k..] == [];
    assert items + [] == items;
    return PList(items);
  }

  /** The digits, sign and commas of an integer list contain no point. */
  lemma IntToStringNoPoint(i: int)
    ensures '.' !in IntToString(i) && ',' !in IntToString(i) && '#' !in IntToString(i)
  {
    IntToStringChars(i);
  }

  /** A written integer reads back as that integer. */
  lemma ParamIntRoundTrip(i: int)
    ensures ParamValueOf(IntToString(i)) == PInt(i)
  {
    var s := IntToString(i);
    IntToStringNoPoint(i);
    assert !Bracketed(s) by {
      IntToStringChars(i);
      if |s| >= 2 {
        assert s[0] == '-' || IsDigit(s[0]);
      }
    }
    ParseIntRoundTrip(i);
    assert Scalar(s) == PInt(i);
  }

  /** The list `[]`, with or without blanks inside, is the empty list. */
  lemma ParamEmptyList(gap: string)
    requires forall i :: 0 <= i < |gap| ==> IsSpace(gap[i])
    ensures ParamValueOf("[" + gap + "]") == PList([])
  {
    var v := "[" + gap + "]";
    assert Bracketed(v) && v[1..|v| - 1] == gap;
    StripBlank(gap);
  }

  lemma StripBlank(gap: string)
    requires forall i :: 0 <= i < |gap| ==> IsSpace(gap[i])
    ensures Strip(gap) == []
  {
    SkipSpace(gap, []);
    assert gap + [] == gap;
  }

  /** The integers as list items. */
  function Ints(xs: seq<int>): (r: seq<ParamValue>)
    ensures |r| == |xs|
  {
    if xs == [] then [] else [PInt(xs[0])] + Ints(xs[1..])
  }

  /** A written list of integers reads back as those integers. */
  lemma ParamListRoundTrip(xs: seq<int>)
    requires xs != []
    ensures ParamValueOf("[" + Commas(xs) + "]") == PList(Ints(xs))
  {
    var w := Commas(xs);
    Brackets(w);
    assert ParamValueOf("[" + w + "]") == ListValue(Strip(w));
    CommasEnds(xs);
    StripUnpadded(w);
    ItemsOfCommas([], xs);
    NoPad(w);
  }

  lemma Brackets(w: string)
    ensures var v := "[" + w + "]"; Bracketed(v) && v[1..|v| - 1] == w
  {
    var v := "[" + w + "]";
    assert v[1..|v| - 1] == w;
  }

  lemma NoPad(w: string)
    ensures [] + w == w
  {
  }

  lemma {:induction false} CommasEnds(xs: seq<int>)
    requires xs != []
    ensures Commas(xs) != [] && !IsSpace(Commas(xs)[0]) && !IsSpace(Commas(xs)[|Commas(xs)| - 1])
    decreases |xs|
  {
    if |xs| > 1 {
      CommasEnds(xs[1..]);
    }
  }

  /** An integer after blanks, as one list item, reads back as that integer. */
  lemma ScalarPadded(pad: string, i: int)
    requires forall k :: 0 <= k < |pad| ==> IsSpace(pad[k])
    ensures Scalar(Strip(pad + IntToString(i))) == PInt(i)
  {
    var w := IntToString(i);
    SkipSpace(pad, w);
    StripUnpadded(w);
    IntToStringNoPoint(i);
    ParseIntRoundTrip(i);
  }

  /** The items of `pad + "a, b, ..."` split at commas are the integers `a, b, ...`. */
  lemma {:induction false} ItemsOfCommas(pad: string, xs: seq<int>)
    requires xs != []
    requires forall k :: 0 <= k < |pad| ==> IsSpace(pad[k])
    ensures ItemValues(Split(pad + Commas(xs), ',')) == Ints(xs)
    decreases |xs|
  {
    if |xs| == 1 {
      ItemsSingle(pad, xs[0]);
    } else {
      assert Commas(xs) == IntToString(xs[0]) + ", " + Commas(xs[1..]);
      ItemsStep(pad, xs[0], Commas(xs[1..]));
      ItemsOfCommas(" ", xs[1..]);
    }
  }

  lemma ItemsSingle(pad: string, x: int)
    requires forall k :: 0 <= k < |pad| ==> IsSpace(pad[k])
    ensures ItemValues(Split(pad + IntToString(x), ',')) == [PInt(x)]
  {
    var a := pad + IntToString(x);
    PaddedNoComma(pad, x);
    ScalarPadded(pad, x);
    SplitNoSep(a, ',');
    ItemValuesCons(a, []);
  }

  /** The first item of a padded `x, ...` list is `x`; the others are those of the text after the comma. */
  lemma ItemsStep(pad: string, x: int, c: string)
    requires forall k :: 0 <= k < |pad| ==> IsSpace(pad[k])
    ensures ItemValues(Split(pad + (IntToString(x) + ", " + c), ',')) == [PInt(x)] + ItemValues(Split(" " + c, ','))
  {
    var a := pad + IntToString(x);
    PaddedNoComma(pad, x);
    ScalarPadded(pad, x);
    CommaSplit(pad, IntToString(x), c);
    SplitCons(a, ',', " " + c);
    ItemValuesCons(a, Split(" " + c, ','));
  }

  lemma CommaSplit(pad: string, w: string, c: string)
    ensures pad + (w + ", " + c) == (pad + w) + [','] + (" " + c)
  {
  }

  lemma PaddedNoComma(pad: string, i: int)
    requires forall k :: 0 <= k < |pad| ==> IsSpace(pad[k])
    ensures ',' !in pad + IntToString(i)
  {
    IntToStringNoPoint(i);
    var a := pad + IntToString(i);
    assert forall k :: 0 <= k < |a| ==> a[k] != ',';
  }

  lemma ItemValuesCons(a: string, rest: seq<string>)
    ensures ItemValues([a] + rest) == [Scalar(Strip(a))] + ItemValues(rest)
  {
    assert ([a] + rest)[1..] == rest;
  }

  // ------------------------------------------------------------ parameters

  /** The `params` dictionary: keys in first-insertion order, each with its latest value. */
  type Params = seq<(string, ParamValue)>

  /** `params[k] = v`: a new key goes last, an existing key keeps its place and takes the new value. */
  function Put(ps: Params, k: string, v: ParamValue): Params
    decreases |ps|
  {
    if ps == [] then [(k, v)]
    else if ps[0].0 == k then [(k, v)] + ps[1..]
    else [ps[0]] + Put(ps[1..], k, v)
  }

  /** `params.get(k)`. */
  function Get(ps: Params, k: string): Option<ParamValue>
    decreases |ps|
  {
    if ps == [] then None
    else if ps[0].0 == k then Some(ps[0].1)
    else Get(ps[1..], k)
  }

  /** After `params[k] = v`, `k` gives `v` and every other key what it gave before. */
  lemma {:induction false} PutGet(ps: Params, k: string, v: ParamValue, k': string)
    ensures Get(Put(ps, k, v), k') == if k' == k then Some(v) else Get(ps, k')
    decreases |ps|
  {
    if ps != [] && ps[0].0 != k {
      PutGet(ps[1..], k, v, k');
    }
  }

  /** Storing a key never reorders the keys already there, and adds one only when the key is new. */
  lemma {:induction false} PutOrder(ps: Params, k: string, v: ParamValue)
    ensures |Put(ps, k, v)| == |ps| + (if Get(ps, k).None? then 1 else 0)
    ensures forall i :: 0 <= i < |ps| ==> Put(ps, k, v)[i].0 == ps[i].0
    decreases |ps|
  {
    if ps != [] && ps[0].0 != k {
      PutOrder(ps[1..], k, v);
      var r := Put(ps, k, v);
      assert r == [ps[0]] + Put(ps[1..], k, v);
      assert forall i :: 1 <= i < |ps| ==> r[i] == Put(ps[1..], k, v)[i - 1];
    }
  }

  // ------------------------------------------------------------ the definition, line by line

  /** What a definition file says; every part is optional until the game is created. */
  datatype GameDef = GameDef(
    gameType: Option<string>,
    strategies: Option<(int, int)>,
    params: Params,
    payoffs: Option<seq<seq<Payoff>>>,
    player1: Option<seq<string>>,
    player2: Option<seq<string>>,
    name: Option<string>,
    description: Option<string>)

  /** The section indented lines belong to. */
  datatype Section = Outside | InParams | InPayoffs

  /** The reader's state between lines: the definition so far, the current section, the payoff rows read. */
  datatype ScanState = ScanState(def: GameDef, section: Section, rows: seq<seq<Payoff>>)

  const Start := ScanState(GameDef(None, None, [], None, None, None, None, None), Outside, [])

  const KnownKeys: set<string> := {"game_type", "strategies", "params", "payoffs",
                                   "player1_strategies", "player2_strategies", "name", "description"}

  /** `rows, cols = map(int, value.split())`: exactly two words, both integers. */
  function StrategiesOf(value: string): (r: Option<(int, int)>)
    ensures r.Some? <==> |Words(value)| == 2 && ParseInt(Words(value)[0]).Some? && ParseInt(Words(value)[1]).Some?
    ensures r.Some? ==> Some(r.value.0) == ParseInt(Words(value)[0]) && Some(r.value.1) == ParseInt(Words(value)[1])
  {
    var ws := Words(value);
    if |ws| == 2 && ParseInt(ws[0]).Some? && ParseInt(ws[1]).Some? then
      Some((ParseInt(ws[0]).value, ParseInt(ws[1]).value))
    else None
  }

  /** Strategy names: the comma-separated pieces of the value, each stripped. */
  function Names(value: string): (r: seq<string>)
    ensures |r| == |Split(value, ',')| && |r| >= 1
  {
    var parts := Split(value, ',');
    seq(|parts|, k requires 0 <= k < |parts| => Strip(parts[k]))
  }

  /** A top-level `key: value` line, with the key already lower-cased and the value cleaned. */
  function Header(st: ScanState, key: string, value: string, n: nat): (r: Result<ScanState>)
    ensures r.Ok? <==> key in KnownKeys && (key == "strategies" ==> StrategiesOf(value).Some?)
    ensures key !in KnownKeys ==> r == Err(ParseError(LinePrefix(n) + "Unknown key '" + key + "'"))
    ensures key == "strategies" && StrategiesOf(value).None? ==> r == Err(ParseError(LinePrefix(n) + StrategiesFormat))
    ensures r.Ok? ==> r.value.rows == st.rows && r.value.def.params == st.def.params
    ensures r.Ok? ==> r.value.section == (if key == "params" then InParams else if key == "payoffs" then InPayoffs else Outside)
  {
    var d := st.def;
    if key == "game_type" then Ok(ScanState(d.(gameType := Some(value)), Outside, st.rows))
    else if key == "strategies" then
      match StrategiesOf(value)
      case None => Err(ParseError(LinePrefix(n) + StrategiesFormat))
      case Some(rc) => Ok(ScanState(d.(strategies := Some(rc)), Outside, st.rows))
    else if key == "params" then Ok(st.(section := InParams))
    else if key == "payoffs" then Ok(st.(section := InPayoffs))
    else if key == "player1_strategies" then Ok(ScanState(d.(player1 := Some(Names(value))), Outside, st.rows))
    else if key == "player2_strategies" then Ok(ScanState(d.(player2 := Some(Names(value))), Outside, st.rows))
    else if key == "name" then Ok(ScanState(d.(name := Some(value)), Outside, st.rows))
    else if key == "description" then Ok(ScanState(d.(description := Some(value)), Outside, st.rows))
    else Err(ParseError(LinePrefix(n) + "Unknown key '" + key + "'"))
  }

  /** A top-level line: the key before the first colon, the value after it. */
  function HeaderOf(st: ScanState, line: string, n: nat): Result<ScanState>
    requires ':' in line
  {
    Header(st, KeyOf(line), ValueOf(line), n)
  }

  /** The key of a `key: value` line: what is before the first colon, stripped and lower-cased. */
  function KeyOf(line: string): string
    requires ':' in line
  {
    Lower(Strip(line[..IndexOf(line, ':')]))
  }

  /** The value of a `key: value` line: what is after the first colon, without its comment. */
  function ValueOf(line: string): string
    requires ':' in line
  {
    ValueText(line[IndexOf(line, ':') + 1..])
  }

  /** An indented `key: value` line of the `PARAMS` section. */
  function ParamOf(st: ScanState, line: string): ScanState
    requires ':' in line
  {
    var ps := Put(st.def.params, KeyOf(line), ParamValueOf(ValueOf(line)));
    st.(def := st.def.(params := ps))
  }

  /** An indented line of the `PAYOFFS` section: one more row of the matrix. */
  function RowLine(st: ScanState, line: string, n: nat): Result<ScanState> {
    match PayoffRow(line, n)
    case Err(e) => Err(e)
    case Ok(row) => Ok(st.(rows := st.rows + [row]))
  }

  /** One line of the file, numbered `n`. */
  function LineStep(st: ScanState, raw: string, n: nat): Result<ScanState> {
    var line := Strip(raw);
    if line == [] || line[0] == '#' then Ok(st)
    else if ':' in line && raw[0] != ' ' && raw[0] != '\t' then HeaderOf(st, line, n)
    else if st.section == InParams && ':' in line then Ok(ParamOf(st, line))
    else if st.section == InPayoffs then RowLine(st, line, n)
    else Err(ParseError(LinePrefix(n) + OutsideSection))
  }

  /** The lines from number `n` on, read in order; the first failing line ends the reading. */
  function ScanLines(lines: seq<string>, st: ScanState, n: nat): Result<ScanState>
    decreases |lines|
  {
    if lines == [] then Ok(st)
    else
      match LineStep(st, lines[0], n)
      case Err(e) => Err(e)
      case Ok(next) => ScanLines(lines[1..], next, n + 1)
  }

  /** The finished definition: payoffs are present only when some row was read. */
  function Finish(st: ScanState): (d: GameDef)
    ensures d.payoffs.Some? <==> st.rows != []
    ensures d.payoffs.Some? ==> d.payoffs.value == st.rows
  {
    st.def.(payoffs := if st.rows == [] then None else Some(st.rows))
  }

  /** `_parse_game_definition`: the definition the content describes, or the first line's error. */
  function Definition(content: string): Result<GameDef> {
    match ScanLines(Split(content, '\n'), Start, 1)
    case Err(e) => Err(e)
    case Ok(st) => Ok(Finish(st))
  }

  /** One line, reading a parameter's value and a payoff row with their methods. */
  method ParseLine(st: ScanState, raw: string, n: nat) returns (r: Result<ScanState>)
    ensures r == LineStep(st, raw, n)
  {
    var line := Strip(raw);
    if line == [] || line[0] == '#' {
      return Ok(st);
    }
    if ':' in line && raw[0] != ' ' && raw[0] != '\t' {
      return HeaderOf(st, line, n);
    }
    if st.section == InParams && ':' in line {
      var v := ParseParamValue(ValueOf(line));
      var ps := Put(st.def.params, KeyOf(line), v);
      return Ok(st.(def := st.def.(params := ps)));
    }
    if st.section == InPayoffs {
      var row := ScanPayoffRow(line, n);
      if row.Err? {
        return Err(row.error);
      }
      return Ok(st.(rows := st.rows + [row.value]));
    }
    return Err(ParseError(LinePrefix(n) + OutsideSection));
  }

  lemma ScanAdvance(lines: seq<string>, i: nat, st: ScanState, next: ScanState)
    requires i < |lines| && LineStep(st, lines[i], i + 1) == Ok(next)
    ensures ScanLines(lines[i..], st, i + 1) == ScanLines(lines[i + 1..], next, i + 2)
  {
    assert lines[i..][1..] == lines[i + 1..];
  }

  lemma ScanStop(lines: seq<string>, i: nat, st: ScanState, e: Error)
    requires i < |lines| && LineStep(st, lines[i], i + 1) == Err(e)
    ensures ScanLines(lines[i..], st, i + 1) == Err(e)
  {
  }

  /** Line `i + 1` of the file, with what it means for reading the rest. */
  method ParseLineAt(lines: seq<string>, i: nat, st: ScanState) returns (r: Result<ScanState>)
    requires i < |lines|
    ensures r.Err? ==> ScanLines(lines[i..], st, i + 1) == r
    ensures r.Ok? ==> ScanLines(lines[i..], st, i + 1) == ScanLines(lines[i + 1..], r.value, i + 2)
  {
    r := ParseLine(st, lines[i], i + 1);
    if r.Err? {
      ScanStop(lines, i, st, r.error);
    } else {
      ScanAdvance(lines, i, st, r.value);
    }
  }

  /** `_parse_game_definition`, reading the lines one at a time. */
  method ParseGameDefinition(content: string) returns (r: Result<GameDef>)
    ensures r == Definition(content)
  {
    var scanned := ScanAll(Split(content, '\n'));
    if scanned.Err? {
      return Err(scanned.error);
    }
    return Ok(Finish(scanned.value));
  }

  /** The loop over the numbered lines. */
  method ScanAll(lines: seq<string>) returns (r: Result<ScanState>)
    ensures r == ScanLines(lines, Start, 1)
  {
    var st := Start;
    var i := 0;
    assert lines[i..] == lines;
    while i < |lines|
      invariant 0 <= i <= |lines|
      invariant ScanLines(lines, Start, 1) == ScanLines(lines[i..], st, i + 1)
    {
      var step := ParseLineAt(lines, i, st);
      if step.Err? {
        return Err(step.error);
      }
      st := step.value;
      i := i + 1;
    }
    assert lines[i..] == [];
    return Ok(st);
  }

  // ------------------------------------------------------------ properties of the line reader

  /** Text that can stand before the colon of a `key: value` line. */
  predicate HeaderKey(k: string) {
    k != [] && NoSpace(k) && ':' !in k && k[0] != '#'
  }

  /** Text without trailing whitespace. */
  predicate Unpadded(v: string) {
    v == [] || !IsSpace(v[|v| - 1])
  }

  /** A result with its error message forgotten. */
  function Okay<T>(r: Result<T>): Option<T> {
    if r.Ok? then Some(r.value) else None
  }

  lemma IndexAfter(s: string, x: string, ch: char)
    requires ch !in x && |s| > |x| && s[..|x|] == x && s[|x|] == ch
    ensures ch in s && IndexOf(s, ch) == |x|
  {
  }

  /** `key:value` splits at its first colon into the key and the value. */
  lemma ColonSplit(k: string, v: string)
    requires ':' !in k
    ensures var line := k + ":" + v;
      ':' in line && IndexOf(line, ':') == |k| &&
      line[..|k|] == k && line[|k| + 1..] == v
  {
    var line := k + ":" + v;
    assert line[..|k|] == k;
    IndexAfter(line, k, ':');
    assert line[|k| + 1..] == v;
  }

  /** A `key:value` line with nothing around it is its own stripped form. */
  lemma KeyLineUnpadded(k: string, v: string)
    requires HeaderKey(k) && Unpadded(v)
    ensures Strip(k + ":" + v) == k + ":" + v && Strip(k) == k
  {
    var line := k + ":" + v;
    assert line[0] == k[0];
    assert line[|line| - 1] == if v == [] then ':' else v[|v| - 1];
    StripUnpadded(line);
    assert k[|k| - 1] in k;
    StripUnpadded(k);
  }

  /** A top-level `key: value` line is handled by its key, lower-cased, and its cleaned value. */
  lemma HeaderLine(st: ScanState, k: string, v: string, n: nat)
    requires HeaderKey(k) && Unpadded(v)
    ensures LineStep(st, k + ":" + v, n) == Header(st, Lower(k), ValueText(v), n)
  {
    var raw := k + ":" + v;
    assert raw[0] == k[0];
    KeyLineUnpadded(k, v);
    ColonSplit(k, v);
    LineStepHeader(st, raw, n);
    HeaderOfSplit(st, raw, k, v, n);
  }

  lemma LineStepHeader(st: ScanState, raw: string, n: nat)
    requires Strip(raw) == raw && raw != [] && raw[0] != '#' && raw[0] != ' ' && raw[0] != '\t' && ':' in raw
    ensures LineStep(st, raw, n) == HeaderOf(st, raw, n)
  {
  }

  lemma HeaderOfSplit(st: ScanState, line: string, k: string, v: string, n: nat)
    requires ':' in line && IndexOf(line, ':') == |k| && line[..|k|] == k && line[|k| + 1..] == v && Strip(k) == k
    ensures HeaderOf(st, line, n) == Header(st, Lower(k), ValueText(v), n)
  {
    KeyValueOfSplit(line, k, v);
  }

  lemma KeyValueOfSplit(line: string, k: string, v: string)
    requires ':' in line && IndexOf(line, ':') == |k| && line[..|k|] == k && line[|k| + 1..] == v && Strip(k) == k
    ensures KeyOf(line) == Lower(k) && ValueOf(line) == ValueText(v)
  {
  }

  /** Keys are matched without regard to case. */
  lemma KeysCaseInsensitive(st: ScanState, k: string, k': string, v: string, n: nat)
    requires HeaderKey(k) && HeaderKey(k') && Unpadded(v) && Lower(k) == Lower(k')
    ensures LineStep(st, k + ":" + v, n) == LineStep(st, k' + ":" + v, n)
  {
    HeaderLine(st, k, v, n);
    HeaderLine(st, k', v, n);
  }

  /** A top-level key that is none of the known ones is refused, naming the key and the line. */
  lemma UnknownKey(st: ScanState, k: string, v: string, n: nat)
    requires HeaderKey(k) && Unpadded(v) && Lower(k) !in KnownKeys
    ensures LineStep(st, k + ":" + v, n) == Err(ParseError(LinePrefix(n) + "Unknown key '" + Lower(k) + "'"))
  {
    HeaderLine(st, k, v, n);
  }

  lemma LowerOfLower(s: string)
    requires forall i :: 0 <= i < |s| ==> !('A' <= s[i] <= 'Z')
    ensures Lower(s) == s
  {
  }

  /** Blanks before unpadded text are all that stripping removes. */
  lemma StripLeadingBlank(w: string)
    requires w != [] && !IsSpace(w[0]) && !IsSpace(w[|w| - 1])
    ensures Strip(" " + w) == w
  {
    SkipSpace(" ", w);
    StripUnpadded(w);
  }

  /** Two integers with a blank between: unpadded, without a `#`, the first without whitespace. */
  lemma CountsText(a: int, b: int)
    ensures var w := IntToString(a) + " " + IntToString(b);
      w != [] && !IsSpace(w[0]) && !IsSpace(w[|w| - 1]) && '#' !in w && NoSpace(IntToString(a))
  {
    var x, y := IntToString(a), IntToString(b);
    var w := x + " " + y;
    assert w[0] == x[0];
    assert w[|w| - 1] == y[|y| - 1];
    IntToStringChars(a);
    IntToStringChars(b);
    assert forall i :: 0 <= i < |w| ==> w[i] != '#' by {
      forall i | 0 <= i < |w|
        ensures w[i] != '#'
      {
        if i < |x| {
          assert w[i] == x[i];
        } else if i > |x| {
          assert w[i] == y[i - |x| - 1];
        }
      }
    }
  }

  /** Two integers after one blank: the cleaned value is the integers with a blank between. */
  lemma CountsValue(a: int, b: int)
    ensures ValueText(" " + IntToString(a) + " " + IntToString(b)) == IntToString(a) + " " + IntToString(b)
  {
    var w := IntToString(a) + " " + IntToString(b);
    assert " " + IntToString(a) + " " + IntToString(b) == " " + w;
    CountsText(a, b);
    StripLeadingBlank(w);
  }

  /** `R C` reads as the counts `(R, C)`. */
  lemma StrategiesValue(r: int, c: int)
    ensures StrategiesOf(IntToString(r) + " " + IntToString(c)) == Some((r, c))
  {
    var a, b := IntToString(r), IntToString(c);
    TwoWords(r, c);
    ParseIntRoundTrip(r);
    ParseIntRoundTrip(c);
    StrategiesOfWords(a + " " + b, a, b, r, c);
  }

  lemma TwoWords(r: int, c: int)
    ensures Words(IntToString(r) + " " + IntToString(c)) == [IntToString(r), IntToString(c)]
  {
    IntNoSpace(r);
    IntNoSpace(c);
    TwoWordsOf(IntToString(r), IntToString(c));
  }

  lemma TwoWordsOf(a: string, b: string)
    requires a != [] && NoSpace(a) && b != [] && NoSpace(b)
    ensures Words(a + " " + b) == [a, b]
  {
    WordsCons(a, " ", b);
    WordsSingle(b);
  }

  lemma IntNoSpace(i: int)
    ensures NoSpace(IntToString(i))
  {
    IntToStringChars(i);
  }

  lemma StrategiesOfWords(value: string, x: string, y: string, r: int, c: int)
    requires Words(value) == [x, y] && ParseInt(x) == Some(r) && ParseInt(y) == Some(c)
    ensures StrategiesOf(value) == Some((r, c))
  {
  }

  /** `strategies: R C` reads back as the counts `(R, C)` and closes any open section. */
  lemma StrategiesLine(st: ScanState, r: int, c: int, n: nat)
    ensures LineStep(st, "strategies: " + IntToString(r) + " " + IntToString(c), n) ==
      Ok(ScanState(st.def.(strategies := Some((r, c))), Outside, st.rows))
  {
    var a, b := IntToString(r), IntToString(c);
    var v := " " + a + " " + b;
    assert "strategies: " + a + " " + b == "strategies" + ":" + v;
    assert v[|v| - 1] == b[|b| - 1];
    LowerOfLower("strategies");
    HeaderLine(st, "strategies", v, n);
    CountsValue(r, c);
    StrategiesValue(r, c);
  }

  /** Indentation before an otherwise unpadded line is removed by stripping. */
  lemma PaddedStrip(pad: string, line: string)
    requires forall i :: 0 <= i < |pad| ==> IsSpace(pad[i])
    requires Strip(line) == line && DropLeadingSpace(line) == line
    ensures Strip(pad + line) == line
  {
    SkipSpace(pad, line);
  }

  /** An indented `key: value` line of the `PARAMS` section stores the value under the lower-cased key. */
  lemma ParamLine(st: ScanState, pad: string, k: string, v: string, n: nat)
    requires st.section == InParams
    requires pad != [] && (pad[0] == ' ' || pad[0] == '\t') && forall i :: 0 <= i < |pad| ==> IsSpace(pad[i])
    requires HeaderKey(k) && Unpadded(v)
    ensures LineStep(st, pad + k + ":" + v, n) ==
      Ok(st.(def := st.def.(params := Put(st.def.params, Lower(k), ParamValueOf(ValueText(v))))))
  {
    var line := k + ":" + v;
    var raw := pad + line;
    PadLine(pad, k, v);
    KeyLineStart(k, v);
    KeyLineUnpadded(k, v);
    ColonSplit(k, v);
    assert DropLeadingSpace(line) == line;
    PaddedStrip(pad, line);
    assert Strip(raw) == line && raw[0] == pad[0];
    LineStepParam(st, raw, n);
    ParamOfSplit(st, line, k, v);
  }

  lemma KeyLineStart(k: string, v: string)
    requires HeaderKey(k)
    ensures (k + ":" + v)[0] == k[0] && !IsSpace((k + ":" + v)[0]) && (k + ":" + v)[0] != '#'
  {
    assert !IsSpace(k[0]);
  }

  lemma PadLine(pad: string, k: string, v: string)
    ensures pad + k + ":" + v == pad + (k + ":" + v)
  {
  }

  lemma LineStepParam(st: ScanState, raw: string, n: nat)
    requires raw != [] && (raw[0] == ' ' || raw[0] == '\t') && st.section == InParams
    requires Strip(raw) != [] && Strip(raw)[0] != '#' && ':' in Strip(raw)
    ensures LineStep(st, raw, n) == Ok(ParamOf(st, Strip(raw)))
  {
  }

  lemma ParamOfSplit(st: ScanState, line: string, k: string, v: string)
    requires ':' in line && IndexOf(line, ':') == |k| && line[..|k|] == k && line[|k| + 1..] == v && Strip(k) == k
    ensures ParamOf(st, line) == st.(def := st.def.(params := Put(st.def.params, Lower(k), ParamValueOf(ValueText(v)))))
  {
    KeyValueOfSplit(line, k, v);
  }

  /** Indented content is refused outside a section, and so is a line without a colon in `PARAMS`. */
  lemma OutsideContent(st: ScanState, raw: string, n: nat)
    requires raw != [] && (raw[0] == ' ' || raw[0] == '\t')
    requires Strip(raw) != [] && Strip(raw)[0] != '#'
    requires st.section == Outside || (st.section == InParams && ':' !in Strip(raw))
    ensures LineStep(st, raw, n) == Err(ParseError(LinePrefix(n) + OutsideSection))
  {
  }

  /** An indented row of written pairs in the `PAYOFFS` section adds exactly those pairs as a row. */
  lemma PayoffLine(st: ScanState, raw: string, pre: string, ps: seq<Payoff>, post: string, n: nat)
    requires st.section == InPayoffs && raw != [] && (raw[0] == ' ' || raw[0] == '\t')
    requires ps != [] && Strip(raw) == pre + RenderRow(ps) + post
    requires '(' !in pre && '(' !in post && (pre == [] || pre[0] != '#')
    ensures LineStep(st, raw, n) == Ok(st.(rows := st.rows + [ps]))
  {
    PayoffRowRoundTrip(pre, ps, post, n);
    RowLineStart(pre, RenderRow(ps), post);
    LineStepRow(st, raw, n);
  }

  lemma RowLineStart(pre: string, row: string, post: string)
    requires row != [] && row[0] == '(' && (pre == [] || pre[0] != '#')
    ensures var line := pre + row + post; line != [] && line[0] != '#'
  {
    var line := pre + row + post;
    assert line[0] == if pre == [] then '(' else pre[0];
  }

  lemma LineStepRow(st: ScanState, raw: string, n: nat)
    requires raw != [] && (raw[0] == ' ' || raw[0] == '\t') && st.section == InPayoffs
    requires Strip(raw) != [] && Strip(raw)[0] != '#'
    ensures LineStep(st, raw, n) == RowLine(st, Strip(raw), n)
  {
  }

  /** A row's verdict depends on the line number only through its message. */
  lemma RowNumberFree(line: string, n: nat, m: nat)
    ensures Okay(PayoffRow(line, n)) == Okay(PayoffRow(line, m))
  {
  }

  /** Whether a top-level line is accepted, and the state it leads to, do not depend on its number. */
  lemma HeaderNumberFree(st: ScanState, line: string, n: nat, m: nat)
    requires ':' in line
    ensures Okay(HeaderOf(st, line, n)) == Okay(HeaderOf(st, line, m))
  {
    KeyNumberFree(st, KeyOf(line), ValueOf(line), n, m);
  }

  lemma KeyNumberFree(st: ScanState, key: string, value: string, n: nat, m: nat)
    ensures Okay(Header(st, key, value, n)) == Okay(Header(st, key, value, m))
  {
  }

  /** Whether a line is accepted, and the state it leads to, do not depend on its number. */
  lemma LineNumberFree(st: ScanState, raw: string, n: nat, m: nat)
    ensures Okay(LineStep(st, raw, n)) == Okay(LineStep(st, raw, m))
  {
    var line := Strip(raw);
    if line == [] || line[0] == '#' {
    } else if ':' in line && raw[0] != ' ' && raw[0] != '\t' {
      assert LineStep(st, raw, n) == HeaderOf(st, line, n) && LineStep(st, raw, m) == HeaderOf(st, line, m);
      HeaderNumberFree(st, line, n, m);
    } else if st.section == InParams && ':' in line {
    } else if st.section == InPayoffs {
      assert LineStep(st, raw, n) == RowLine(st, line, n) && LineStep(st, raw, m) == RowLine(st, line, m);
      RowLineNumberFree(st, line, n, m);
    }
  }

  lemma RowLineNumberFree(st: ScanState, line: string, n: nat, m: nat)
    ensures Okay(RowLine(st, line, n)) == Okay(RowLine(st, line, m))
  {
    RowNumberFree(line, n, m);
  }

  /** Reading lines is reading the first, then the rest from the state it leaves. */
  lemma ScanFirst(lines: seq<string>, st: ScanState, n: nat)
    requires lines != []
    ensures Okay(ScanLines(lines, st, n)) ==
      if LineStep(st, lines[0], n).Ok? then Okay(ScanLines(lines[1..], LineStep(st, lines[0], n).value, n + 1)) else None
  {
  }

  /** A blank or comment line changes nothing. */
  lemma CommentLine(st: ScanState, c: string, n: nat)
    requires Strip(c) == [] || Strip(c)[0] == '#'
    ensures LineStep(st, c, n) == Ok(st)
  {
  }

  /** Whether the lines are accepted, and the state they lead to, do not depend on where they start. */
  lemma {:induction false} ScanNumberFree(lines: seq<string>, st: ScanState, n: nat, m: nat)
    ensures Okay(ScanLines(lines, st, n)) == Okay(ScanLines(lines, st, m))
    decreases |lines|
  {
    if lines != [] {
      ScanFirst(lines, st, n);
      ScanFirst(lines, st, m);
      LineNumberFree(st, lines[0], n, m);
      var r := LineStep(st, lines[0], n);
      if r.Ok? {
        ScanNumberFree(lines[1..], r.value, n + 1, m + 1);
      }
    }
  }

  /** A blank or comment line anywhere leaves the outcome unchanged (only later line numbers move). */
  lemma {:induction false} CommentInvisible(pre: seq<string>, c: string, post: seq<string>, st: ScanState, n: nat)
    requires Strip(c) == [] || Strip(c)[0] == '#'
    ensures Okay(ScanLines(pre + [c] + post, st, n)) == Okay(ScanLines(pre + post, st, n))
    decreases |pre|, 1
  {
    if pre == [] {
      var with := pre + [c] + post;
      assert with[0] == c && with[1..] == post && pre + post == post;
      CommentFirst(with, st, n);
      ScanNumberFree(post, st, n + 1, n);
    } else {
      CommentAfterFirst(pre, c, post, st, n);
    }
  }

  lemma {:induction false} CommentAfterFirst(pre: seq<string>, c: string, post: seq<string>, st: ScanState, n: nat)
    requires pre != [] && (Strip(c) == [] || Strip(c)[0] == '#')
    ensures Okay(ScanLines(pre + [c] + post, st, n)) == Okay(ScanLines(pre + post, st, n))
    decreases |pre|, 0
  {
    var with, without := pre + [c] + post, pre + post;
    TailOfJoin3(pre, [c], post);
    TailOfJoin(pre, post);
    var r := LineStep(st, pre[0], n);
    if r.Ok? {
      CommentInvisible(pre[1..], c, post, r.value, n + 1);
    }
    SameAfterFirst(with, without, st, n);
  }

  /** Reading starts with a blank or comment line: the rest is read from the same state. */
  lemma CommentFirst(lines: seq<string>, st: ScanState, n: nat)
    requires lines != [] && (Strip(lines[0]) == [] || Strip(lines[0])[0] == '#')
    ensures Okay(ScanLines(lines, st, n)) == Okay(ScanLines(lines[1..], st, n + 1))
  {
    CommentLine(st, lines[0], n);
    ScanFirst(lines, st, n);
  }

  /** Two line lists with the same first line, whose rests agree after it, agree. */
  lemma TailOfJoin3<T>(a: seq<T>, b: seq<T>, c: seq<T>)
    requires a != []
    ensures (a + b + c)[0] == a[0] && (a + b + c)[1..] == a[1..] + b + c
  {
  }

  lemma TailOfJoin<T>(a: seq<T>, c: seq<T>)
    requires a != []
    ensures (a + c)[0] == a[0] && (a + c)[1..] == a[1..] + c
  {
  }

  lemma SameAfterFirst(with: seq<string>, without: seq<string>, st: ScanState, n: nat)
    requires with != [] && without != [] && with[0] == without[0]
    requires LineStep(st, with[0], n).Ok? ==>
      Okay(ScanLines(with[1..], LineStep(st, with[0], n).value, n + 1)) ==
      Okay(ScanLines(without[1..], LineStep(st, with[0], n).value, n + 1))
    ensures Okay(ScanLines(with, st, n)) == Okay(ScanLines(without, st, n))
  {
    ScanFirst(with, st, n);
    ScanFirst(without, st, n);
  }

  // ------------------------------------------------------------ creating the game

  /** `game_type.lower().replace(' ', '_')`. */
  function Normalize(t: string): string {
    Replace(Lower(t), ' ', '_')
  }

  const NotInteger := "integer parameter expected: "

  /** The first parameter, in the file's order, that the factory does not take. */
  function Unexpected(ps: Params, t: string): (r: Option<string>)
    ensures r.None? <==> forall i :: 0 <= i < |ps| ==> ps[i].0 in Accepted(t)
    ensures r.Some? ==> r.value !in Accepted(t) && exists i :: 0 <= i < |ps| && ps[i].0 == r.value
    decreases |ps|
  {
    if ps == [] then None
    else if ps[0].0 !in Accepted(t) then Some(ps[0].0)
    else
      var r := Unexpected(ps[1..], t);
      assert forall i :: 1 <= i < |ps| ==> ps[i] == ps[1..][i - 1];
      assert r.Some? ==> ps[1..][0] == ps[1];
      r
  }

  /** The integers of a list value, when every item is one. */
  function IntItems(items: seq<ParamValue>): (r: Option<seq<int>>)
    ensures r.Some? <==> forall k :: 0 <= k < |items| ==> items[k].PInt?
    ensures r.Some? ==> |r.value| == |items| && forall k :: 0 <= k < |items| ==> items[k] == PInt(r.value[k])
    decreases |items|
  {
    if items == [] then Some([])
    else if !items[0].PInt? then None
    else
      var rest := IntItems(items[1..]);
      assert forall k :: 1 <= k < |items| ==> items[k] == items[1..][k - 1];
      if rest.None? then None else Some([items[0].i] + rest.value)
  }

  /** One keyword argument set from one parameter. */
  function SetKeyword(kw: Kwargs, k: string, v: ParamValue): Result<Kwargs> {
    if k == "values" then
      if v.PList? && IntItems(v.items).Some? then Ok(kw.(values := IntItems(v.items)))
      else Err(TypeError(NotInteger + k))
    else if !v.PInt? then Err(TypeError(NotInteger + k))
    else if k == "t" then Ok(kw.(t := Some(v.i)))
    else if k == "r" then Ok(kw.(r := Some(v.i)))
    else if k == "p" then Ok(kw.(p := Some(v.i)))
    else if k == "s" then Ok(kw.(s := Some(v.i)))
    else if k == "a" then Ok(kw.(a := Some(v.i)))
    else Ok(kw.(b := Some(v.i)))
  }

  /** The parameters passed as keyword arguments, in order. */
  function KwargsFrom(ps: Params, kw: Kwargs): Result<Kwargs>
    decreases |ps|
  {
    if ps == [] then Ok(kw)
    else
      match SetKeyword(kw, ps[0].0, ps[0].1)
      case Err(e) => Err(e)
      case Ok(next) => KwargsFrom(ps[1..], next)
  }

  const NoKwargs := Kwargs(None, None, None, None, None, None, None)

  /** `factory(**params)`: a parameter the factory does not take is a `TypeError` naming it. */
  function KwargsOf(t: string, ps: Params): (r: Result<Kwargs>)
    ensures Unexpected(ps, t).Some? ==>
      r == Err(TypeError(UnexpectedKeyword(t, Unexpected(ps, t).value)))
  {
    match Unexpected(ps, t)
    case Some(k) => Err(TypeError(UnexpectedKeyword(t, k)))
    case None => KwargsFrom(ps, NoKwargs)
  }

  /** The integer keyword argument called `name`. */
  function Field(kw: Kwargs, name: string): Option<int> {
    if name == "t" then kw.t
    else if name == "r" then kw.r
    else if name == "p" then kw.p
    else if name == "s" then kw.s
    else if name == "a" then kw.a
    else if name == "b" then kw.b
    else None
  }

  /** No key occurs twice, as in a dictionary. */
  predicate DistinctKeys(ps: Params) {
    forall i, j :: 0 <= i < j < |ps| ==> ps[i].0 != ps[j].0
  }

  /** Storing a key keeps the keys distinct. */
  lemma {:induction false} PutDistinct(ps: Params, k: string, v: ParamValue)
    requires DistinctKeys(ps)
    ensures DistinctKeys(Put(ps, k, v))
    decreases |ps|
  {
    if ps != [] && ps[0].0 != k {
      PutDistinct(ps[1..], k, v);
      PutKeys(ps[1..], k, v);
      var r := Put(ps, k, v);
      assert r == [ps[0]] + Put(ps[1..], k, v);
      forall j | 1 <= j < |r|
        ensures r[j].0 != ps[0].0
      {
        assert r[j] == Put(ps[1..], k, v)[j - 1];
        if r[j].0 != k {
          var i :| 0 <= i < |ps[1..]| && ps[1..][i].0 == r[j].0;
          assert ps[i + 1].0 == r[j].0;
        }
      }
    } else if ps != [] {
      var r := Put(ps, k, v);
      forall i, j | 0 <= i < j < |r|
        ensures r[i].0 != r[j].0
      {
        assert r[j] == ps[j];
        if i > 0 {
          assert r[i] == ps[i];
        }
      }
    }
  }

  /** A stored key is the new key or an old one. */
  lemma {:induction false} PutKeys(ps: Params, k: string, v: ParamValue)
    ensures forall j :: 0 <= j < |Put(ps, k, v)| ==>
      Put(ps, k, v)[j].0 == k || exists i :: 0 <= i < |ps| && ps[i].0 == Put(ps, k, v)[j].0
    decreases |ps|
  {
    if ps != [] && ps[0].0 != k {
      PutKeys(ps[1..], k, v);
      var r := Put(ps, k, v);
      forall j | 0 <= j < |r|
        ensures r[j].0 == k || exists i :: 0 <= i < |ps| && ps[i].0 == r[j].0
      {
        if j == 0 {
          assert ps[0].0 == r[0].0;
        } else {
          assert r[j] == Put(ps[1..], k, v)[j - 1];
          if r[j].0 != k {
            var i :| 0 <= i < |ps[1..]| && ps[1..][i].0 == r[j].0;
            assert ps[i + 1].0 == r[j].0;
          }
        }
      }
    } else if ps != [] {
      var r := Put(ps, k, v);
      forall j | 0 <= j < |r|
        ensures r[j].0 == k || exists i :: 0 <= i < |ps| && ps[i].0 == r[j].0
      {
        if j > 0 {
          assert r[j] == ps[j];
        }
      }
    }
  }

  /** A key stored nowhere is not found. */
  lemma {:induction false} GetAbsent(ps: Params, k: string)
    requires forall i :: 0 <= i < |ps| ==> ps[i].0 != k
    ensures Get(ps, k) == None
    decreases |ps|
  {
    if ps != [] {
      assert forall i :: 0 <= i < |ps[1..]| ==> ps[1..][i] == ps[i + 1];
      GetAbsent(ps[1..], k);
    }
  }

  const IntKeys: set<string> := {"t", "r", "p", "s", "a", "b"}

  /**
   * Integer parameters become keyword arguments: each argument takes the file's value for it,
   * and an argument the file does not mention keeps what it had (the factory's default when none).
   */
  lemma {:induction false} KwargsField(ps: Params, kw: Kwargs, name: string)
    requires DistinctKeys(ps) && name in IntKeys
    requires forall i :: 0 <= i < |ps| ==> ps[i].0 in IntKeys && ps[i].1.PInt?
    ensures KwargsFrom(ps, kw).Ok?
    ensures Field(KwargsFrom(ps, kw).value, name) ==
      match Get(ps, name)
      case Some(PInt(i)) => Some(i)
      case _ => Field(kw, name)
    decreases |ps|
  {
    if ps != [] {
      var k, v := ps[0].0, ps[0].1;
      var next := SetKeyword(kw, k, v);
      assert next.Ok?;
      assert forall i :: 0 <= i < |ps[1..]| ==> ps[1..][i] == ps[i + 1];
      KwargsField(ps[1..], next.value, name);
      if k == name {
        GetAbsent(ps[1..], name);
      }
    }
  }

  /** A list of integers is read back as those integers. */
  lemma {:induction false} IntItemsInts(xs: seq<int>)
    ensures IntItems(Ints(xs)) == Some(xs)
    decreases |xs|
  {
    if xs != [] {
      var items := Ints(xs);
      assert items[0] == PInt(xs[0]) && items[1..] == Ints(xs[1..]);
      IntItemsInts(xs[1..]);
      assert IntItems(items) == Some([xs[0]] + xs[1..]);
      assert [xs[0]] + xs[1..] == xs;
    }
  }

  /** `values: [...]` of integers, the zero-sum game's one parameter, is passed through unchanged. */
  lemma ZeroSumValues(xs: seq<int>)
    ensures KwargsOf("zero_sum", [("values", PList(Ints(xs)))]) == Ok(NoKwargs.(values := Some(xs)))
  {
    var ps := [("values", PList(Ints(xs)))];
    assert Unexpected(ps, "zero_sum") == None;
    IntItemsInts(xs);
    var next := NoKwargs.(values := Some(xs));
    assert SetKeyword(NoKwargs, "values", PList(Ints(xs))) == Ok(next);
    assert ps[1..] == [];
    assert KwargsFrom(ps, NoKwargs) == KwargsFrom([], next);
  }

  /** How the game is to be built, once the definition has been checked. */
  datatype Plan =
    | CommonPlan(gameType: string, kw: Kwargs)
    | CustomPlan(matrix: Matrix)
    | RandomPlan(rows: nat, columns: nat, lo: int, hi: int)

  const NegativeCount := "strategy counts must not be negative"

  /** `params.get(key, default)` where an integer is expected. */
  function Bound(ps: Params, key: string, default: int): (r: Result<int>)
    ensures Get(ps, key).None? ==> r == Ok(default)
    ensures Get(ps, key).Some? && Get(ps, key).value.PInt? ==> r == Ok(Get(ps, key).value.i)
  {
    match Get(ps, key)
    case None => Ok(default)
    case Some(v) => if v.PInt? then Ok(v.i) else Err(TypeError(NotInteger + key))
  }

  /** The checks `_create_game_from_definition` makes before it asks the manager for a game. */
  function PlanOf(d: GameDef): (r: Result<Plan>)
    ensures d.gameType.None? || d.gameType.value == [] ==> r == Err(ParseError(TypeRequired))
    ensures r.Ok? && r.value.CommonPlan? ==> r.value.gameType in CommonTypes
    ensures r.Ok? && r.value.CustomPlan? ==> d.payoffs.Some? && r.value.matrix == d.payoffs.value != []
    ensures r.Ok? && r.value.RandomPlan? ==> d.strategies == Some((r.value.rows, r.value.columns))
    ensures d.gameType.Some? && d.gameType.value != [] && Normalize(d.gameType.value) == "custom" && d.payoffs.None? ==>
      r == Err(ParseError(PayoffsRequired))
    ensures d.gameType.Some? && d.gameType.value != [] && Normalize(d.gameType.value) == "random" && d.strategies.None? ==>
      r == Err(ParseError(StrategiesRequired))
    ensures d.gameType.Some? && d.gameType.value != [] && Normalize(d.gameType.value) !in CommonTypes + {"custom", "random"} ==>
      r == Err(ParseError("Unknown game type: " + d.gameType.value))
  {
    if d.gameType.None? || d.gameType.value == [] then Err(ParseError(TypeRequired))
    else
      var t := Normalize(d.gameType.value);
      if t in CommonTypes then
        match KwargsOf(t, d.params)
        case Err(e) => Err(e)
        case Ok(kw) => Ok(CommonPlan(t, kw))
      else if t == "custom" then
        if d.payoffs.None? || d.payoffs.value == [] then Err(ParseError(PayoffsRequired))
        else Ok(CustomPlan(d.payoffs.value))
      else if t == "random" then
        if d.strategies.None? then Err(ParseError(StrategiesRequired))
        else if d.strategies.value.0 < 0 || d.strategies.value.1 < 0 then Err(ValueError(NegativeCount))
        else
          match Bound(d.params, "min_value", DefaultLower)
          case Err(e) => Err(e)
          case Ok(lo) =>
            match Bound(d.params, "max_value", DefaultUpper)
            case Err(e) => Err(e)
            case Ok(hi) => Ok(RandomPlan(d.strategies.value.0, d.strategies.value.1, lo, hi))
      else Err(ParseError("Unknown game type: " + d.gameType.value))
  }

  /**
   * A random game without bounds in its parameters is planned with the limits -99 and 99; `Build`
   * then creates it with those limits and an all-zero grid (no payoffs are drawn).
   */
  lemma RandomDefaults(d: GameDef, rows: nat, columns: nat)
    requires d.gameType == Some("random") && d.strategies == Some((rows, columns))
    requires Get(d.params, "min_value").None? && Get(d.params, "max_value").None?
    ensures PlanOf(d) == Ok(RandomPlan(rows, columns, -99, 99))
  {
    LowerOfLower("random");
    assert Normalize("random") == "random";
  }

  /** A custom game without payoff rows is refused, whatever else the file says. */
  lemma CustomNeedsPayoffs(d: GameDef)
    requires d.gameType == Some("custom") && d.payoffs.None?
    ensures PlanOf(d) == Err(ParseError(PayoffsRequired))
  {
    LowerOfLower("custom");
    assert Normalize("custom") == "custom";
  }

  /** Whether the manager builds a game for the plan (a common game's factory can refuse its arguments). */
  predicate Builds(p: Plan) {
    !p.CommonPlan? || Draws(p.gameType, p.kw) || CommonMatrix(p.gameType, p.kw, []).Ok?
  }

  /** The game the manager built follows the plan. */
  ghost predicate Built(p: Plan, g: StrategicGame)
    reads g
  {
    match p
    case CustomPlan(m) => g.mode == Direct && g.grid == m && g.rows == |m| && g.columns == DirectColumns(m)
    case RandomPlan(rows, columns, lo, hi) =>
      g.mode == Random && g.grid == Zeros(rows, columns) && g.rows == rows && g.columns == columns &&
      g.lowerLimit == lo && g.upperLimit == hi
    case CommonPlan(t, kw) =>
      g.mode == Direct && g.rows == 2 && g.columns == 2 &&
      (!Draws(t, kw) ==> CommonMatrix(t, kw, []) == Ok(g.grid))
  }

  /** The strategy names, when given, must match the game's size. */
  function CountError(d: GameDef, rows: nat, columns: nat): (r: Option<Error>)
    ensures r.None? <==> (d.player1.Some? ==> |d.player1.value| == rows) && (d.player2.Some? ==> |d.player2.value| == columns)
  {
    if d.player1.Some? && |d.player1.value| != rows then
      Some(ParseError("Number of Player 1 strategies (" + NatToString(|d.player1.value|) +
        ") doesn't match game rows (" + NatToString(rows) + ")"))
    else if d.player2.Some? && |d.player2.value| != columns then
      Some(ParseError("Number of Player 2 strategies (" + NatToString(|d.player2.value|) +
        ") doesn't match game columns (" + NatToString(columns) + ")"))
    else None
  }

  /** `str(e)`: a `KeyError` shows its message in quotes. */
  function ErrorText(e: Error): string {
    if e.KeyError? then "'" + e.msg + "'" else e.Message()
  }

  /** What `parse_content` raises in place of any error. */
  function Wrap(source: string, e: Error): (r: Error)
    ensures r.ParseError?
  {
    ParseError("Error parsing " + source + ": " + ErrorText(e))
  }

  /** `GameFileParser`: reads definitions and registers their games with its own manager. */
  class GameFileParser {
    var manager: GameManager

    ghost predicate Valid()
      reads this, manager, manager.games.Values
    {
      manager.Valid()
    }

    constructor ()
      ensures Valid() && fresh(manager)
      ensures manager.games == map[] && manager.nextGameId == 1
    {
      manager := new GameManager();
    }

    /** `_create_game_from_definition`. */
    method CreateFromDefinition(d: GameDef) returns (r: Result<(string, StrategicGame)>)
      requires Valid()
      modifies manager
      ensures Valid()
      ensures PlanOf(d).Err? ==> r == Err(PlanOf(d).error)
      ensures PlanOf(d).Err? || !Builds(PlanOf(d).value) ==>
        manager.games == old(manager.games) && manager.nextGameId == old(manager.nextGameId)
      ensures PlanOf(d).Ok? && !Builds(PlanOf(d).value) ==>
        r == Err(CommonMatrix(PlanOf(d).value.gameType, PlanOf(d).value.kw, []).error)
      ensures PlanOf(d).Ok? && Builds(PlanOf(d).value) ==>
        var id := NatToString(old(manager.nextGameId));
        && id !in old(manager.games) && id in manager.games
        && manager.games == old(manager.games)[id := manager.games[id]]
        && manager.nextGameId == old(manager.nextGameId) + 1
        && fresh(manager.games[id])
        && Built(PlanOf(d).value, manager.games[id])
        && r == match CountError(d, manager.games[id].rows, manager.games[id].columns)
                case Some(e) => Err(e)
                case None => Ok((id, manager.games[id]))
    {
      var plan := PlanOf(d);
      if plan.Err? {
        return Err(plan.error);
      }
      var made := Build(plan.value);
      if made.Err? {
        return Err(made.error);
      }
      var (id, g) := made.value;
      var problem := CountError(d, g.rows, g.columns);
      if problem.Some? {
        return Err(problem.value);
      }
      return Ok((id, g));
    }

    /** The manager call the plan asks for. */
    method Build(p: Plan) returns (made: Result<(string, StrategicGame)>)
      requires Valid()
      modifies manager
      ensures Valid()
      ensures !Builds(p) ==> (made == Err(CommonMatrix(p.gameType, p.kw, []).error) &&
        manager.games == old(manager.games) && manager.nextGameId == old(manager.nextGameId))
      ensures Builds(p) ==> (made.Ok? && made.value.0 == NatToString(old(manager.nextGameId)) &&
        made.value.0 !in old(manager.games) && fresh(made.value.1) &&
        manager.games == old(manager.games)[made.value.0 := made.value.1] &&
        manager.nextGameId == old(manager.nextGameId) + 1 && Built(p, made.value.1))
    {
      match p {
        case CommonPlan(t, kw) =>
          made := manager.CreateCommonGame(t, kw);
        case CustomPlan(m) =>
          assert ModeOf("d") == Some(Direct) && ConstructError("d", None, None, Some(m)).None?;
          made := manager.CreateGame("d", None, None, Some(m), DefaultLower, DefaultUpper);
        case RandomPlan(rows, columns, lo, hi) =>
          assert ModeOf("r") == Some(Random) && ConstructError("r", Some(rows), Some(columns), None).None?;
          made := manager.CreateGame("r", Some(rows), Some(columns), None, lo, hi);
      }
    }

    /**
     * `parse_content`: every failure is reported as a parse error naming the source. A failure
     * before the game is created stores nothing; a strategy-name count that does not match the
     * game is reported after the game has been stored, and the game stays in the registry.
     */
    method ParseContent(content: string, source: string) returns (r: Result<(string, StrategicGame)>)
      requires Valid()
      modifies manager
      ensures Valid()
      ensures Definition(content).Err? ==>
        r == Err(Wrap(source, Definition(content).error)) &&
        manager.games == old(manager.games) && manager.nextGameId == old(manager.nextGameId)
      ensures Definition(content).Ok? && PlanOf(Definition(content).value).Err? ==>
        r == Err(Wrap(source, PlanOf(Definition(content).value).error)) &&
        manager.games == old(manager.games) && manager.nextGameId == old(manager.nextGameId)
      ensures (Definition(content).Ok? && PlanOf(Definition(content).value).Ok? &&
        !Builds(PlanOf(Definition(content).value).value)) ==>
        var p := PlanOf(Definition(content).value).value;
        r == Err(Wrap(source, CommonMatrix(p.gameType, p.kw, []).error)) &&
        manager.games == old(manager.games) && manager.nextGameId == old(manager.nextGameId)
      ensures (Definition(content).Ok? && PlanOf(Definition(content).value).Ok? &&
        Builds(PlanOf(Definition(content).value).value)) ==>
        var d := Definition(content).value;
        var id := NatToString(old(manager.nextGameId));
        && id !in old(manager.games) && id in manager.games
        && manager.games == old(manager.games)[id := manager.games[id]]
        && manager.nextGameId == old(manager.nextGameId) + 1
        && fresh(manager.games[id])
        && Built(PlanOf(d).value, manager.games[id])
        && r == match CountError(d, manager.games[id].rows, manager.games[id].columns)
                case Some(e) => Err(Wrap(source, e))
                case None => Ok((id, manager.games[id]))
      ensures r.Err? ==> r.error.ParseError?
      ensures r.Ok? ==>
        var d := Definition(content).value;
        && Definition(content).Ok? && PlanOf(d).Ok?
        && r.value.0 == NatToString(old(manager.nextGameId)) && r.value.0 !in old(manager.games)
        && manager.games == old(manager.games)[r.value.0 := r.value.1]
        && Built(PlanOf(d).value, r.value.1)
        && CountError(d, r.value.1.rows, r.value.1.columns).None?
    {
      var d := ParseGameDefinition(content);
      if d.Err? {
        return Err(Wrap(source, d.error));
      }
      var made := CreateFromDefinition(d.value);
      if made.Err? {
        return Err(Wrap(source, made.error));
      }
      return made;
    }
  }
}
