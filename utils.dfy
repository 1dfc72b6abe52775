/**
 * `get_coordinates_string`: equilibrium coordinates rendered for people, with 1-based
 * strategy names, player 1's row as A<k> and player 2's column as B<k>.
 */
module Utils {
  import opened Base
  import opened Grid
  import opened Text

  /** One coordinate `(column, row)` as `(A<row + 1>, B<column + 1>)` followed by three spaces. */
  function Chunk(c: Coord): string {
    "(A" + NatToString(c.row + 1) + ", B" + NatToString(c.col + 1) + ")   "
  }

  /** The chunks of the coordinates, in the order given. */
  function Chunks(cs: seq<Coord>): string {
    if cs == [] then [] else Chunk(cs[0]) + Chunks(cs[1..])
  }

  /** What `get_coordinates_string` returns: `"None"` for `None` or no coordinates, else the chunks. */
  function Rendered(cs: Option<seq<Coord>>): string {
    if cs.None? || cs.value == [] then "None" else Chunks(cs.value)
  }

  /** Rendering a concatenation is concatenating the renderings. */
  lemma {:induction false} ChunksAppend(xs: seq<Coord>, ys: seq<Coord>)
    ensures Chunks(xs + ys) == Chunks(xs) + Chunks(ys)
    decreases |xs|
  {
    if xs != [] {
      assert (xs + ys)[1..] == xs[1..] + ys;
      ChunksAppend(xs[1..], ys);
    } else {
      assert xs + ys == ys;
    }
  }

  /** For two non-empty lists, the text of the whole list is the text of one list, then the other's. */
  lemma RenderedAppend(xs: seq<Coord>, ys: seq<Coord>)
    requires xs != [] && ys != []
    ensures Rendered(Some(xs + ys)) == Rendered(Some(xs)) + Rendered(Some(ys))
  {
    ChunksAppend(xs, ys);
  }

  /** Two different coordinates never render alike: the chunk gives the coordinate back. */
  lemma ChunkInjective(a: Coord, b: Coord)
    ensures Chunk(a) == Chunk(b) ==> a == b
  {
    if Chunk(a) == Chunk(b) {
      FrameInjective(NatToString(a.row + 1), NatToString(a.col + 1), NatToString(b.row + 1), NatToString(b.col + 1));
      NatToStringInjective(a.row + 1, b.row + 1);
      NatToStringInjective(a.col + 1, b.col + 1);
    }
  }

  /** The chunk frame around two digit runs determines both runs. */
  lemma FrameInjective(r: string, c: string, r': string, c': string)
    requires AllDigits(r) && AllDigits(c) && AllDigits(r') && AllDigits(c')
    requires "(A" + r + ", B" + c + ")   " == "(A" + r' + ", B" + c' + ")   "
    ensures r == r' && c == c'
  {
    var s := "(A" + r + ", B" + c + ")   ";
    CommaAt(r, c);
    CommaAt(r', c');
    assert r == s[2..2 + |r|];
    assert c == s[5 + |r|..5 + |r| + |c|];
    assert c' == s[5 + |r'|..5 + |r'| + |c'|];
  }

  /** In a chunk, the first comma stands right after the row's digits, and the text has a fixed frame. */
  lemma CommaAt(r: string, c: string)
    requires AllDigits(r) && AllDigits(c)
    ensures var s := "(A" + r + ", B" + c + ")   ";
      ',' in s && IndexOf(s, ',') == 2 + |r| && |s| == |r| + |c| + 9
  {
    var s := "(A" + r + ", B" + c + ")   ";
    assert s[2 + |r|] == ',';
    assert s[..2 + |r|] == "(A" + r;
    assert forall i :: 0 <= i < |r| ==> IsDigit(r[i]);
  }

  /** Indices are shown 1-based, with as many digits as they need: (9, 9) becomes A10 and B10. */
  lemma TenthStrategy()
    ensures Rendered(Some([Coord(9, 9)])) == "(A10, B10)   "
  {
    TenLabel();
    SingleChunk(Coord(9, 9));
    assert Chunk(Coord(9, 9)) == "(A" + "10" + ", B" + "10" + ")   ";
  }

  lemma TenLabel()
    ensures NatToString(10) == "10"
  {
    assert NatToString(10) == NatToString(1) + [DigitChar(0)];
  }

  lemma SingleChunk(c: Coord)
    ensures Chunks([c]) == Chunk(c)
  {
    assert [c][1..] == [];
    assert Chunk(c) + [] == Chunk(c);
  }

  /** `get_coordinates_string(nash_eq_coordinates)`, building the text chunk by chunk. */
  method GetCoordinatesString(cs: Option<seq<Coord>>) returns (s: string)
    ensures s == Rendered(cs)
  {
    if cs.None? || cs.value == [] {
      return "None";
    }
    var xs := cs.value;
    s := "";
    var i := 0;
    while i < |xs|
      invariant 0 <= i <= |xs|
      invariant s == Chunks(xs[..i])
    {
      ChunksAppend(xs[..i], [xs[i]]);
      assert xs[..i + 1] == xs[..i] + [xs[i]];
      assert Chunks([xs[i]]) == Chunk(xs[i]);
      s := s + Chunk(xs[i]);
      i := i + 1;
    }
    assert xs[..i] == xs;
  }
}
