// Cells of a rectangular board and the counting facts the game relies on:
// a board of width w and height h has exactly w*h cells, so a snake of
// pairwise distinct in-bounds segments that is shorter than w*h leaves a
// free cell, and one of length w*h covers the whole board.
module Cells {

  /** A board coordinate (x, y); y grows downward. */
  type Cell = (int, int)

  predicate InBounds(c: Cell, width: int, height: int)
  {
    0 <= c.0 < width && 0 <= c.1 < height
  }

  predicate AllInBounds(s: seq<Cell>, width: int, height: int)
  {
    forall i :: 0 <= i < |s| ==> InBounds(s[i], width, height)
  }

  predicate NoDuplicates(s: seq<Cell>)
  {
    forall i, j :: 0 <= i < j < |s| ==> s[i] != s[j]
  }

  /** The set of cells a sequence visits. */
  ghost function Elems(s: seq<Cell>): (r: set<Cell>)
    ensures forall c :: c in r <==> c in s
    ensures |r| <= |s|
    ensures NoDuplicates(s) ==> |r| == |s|
  {
    if s == [] then {}
    else
      var rest := Elems(s[1..]);
      assert NoDuplicates(s) ==> NoDuplicates(s[1..]) && s[0] !in s[1..];
      assert forall c :: c in s <==> c == s[0] || c in s[1..];
      rest + {s[0]}
  }

  /** The cells (0, y), ..., (width - 1, y) of one row. */
  ghost function RowCells(width: nat, y: int): (r: set<Cell>)
    ensures forall c :: c in r <==> 0 <= c.0 < width && c.1 == y
    ensures |r| == width
  {
    if width == 0 then {}
    else
      var rest := RowCells(width - 1, y);
      assert (width - 1, y) !in rest;
      rest + {(width - 1, y)}
  }

  /** All cells of a width-by-height board, row by row. */
  ghost function BoardCells(width: nat, height: nat): (r: set<Cell>)
    ensures forall c :: c in r <==> InBounds(c, width, height)
    ensures |r| == width * height
  {
    if height == 0 then {}
    else
      var upper := BoardCells(width, height - 1);
      var row := RowCells(width, height - 1);
      assert upper * row == {};
      upper + row
  }

  lemma SubsetCard(a: set<Cell>, b: set<Cell>)
    requires a <= b
    ensures |a| <= |b|
    ensures |a| == |b| ==> a == b
  {
    var rest := b - a;
    assert b == a + rest && a * rest == {};
    if |a| == |b| {
      assert rest == {};
    }
  }

  /** A snake of in-bounds segments shorter than the board leaves a free cell. */
  lemma FreeCellExists(s: seq<Cell>, width: nat, height: nat) returns (free: Cell)
    requires AllInBounds(s, width, height)
    requires |s| < width * height
    ensures InBounds(free, width, height) && free !in s
  {
    var board := BoardCells(width, height);
    var occupied := Elems(s);
    if board <= occupied {
      SubsetCard(board, occupied);
      assert false;
    }
    free :| free in board && free !in occupied;
  }

  /** Distinct in-bounds segments plus one more free in-bounds cell fit on the board. */
  lemma LengthBelowBoard(s: seq<Cell>, extra: Cell, width: nat, height: nat)
    requires AllInBounds(s, width, height) && NoDuplicates(s)
    requires InBounds(extra, width, height) && extra !in s
    ensures |s| < width * height
  {
    var used := Elems(s) + {extra};
    assert used <= BoardCells(width, height);
    SubsetCard(used, BoardCells(width, height));
  }

  /** Distinct in-bounds segments as many as the board has cells cover every cell. */
  lemma FullCoversBoard(s: seq<Cell>, width: nat, height: nat)
    requires AllInBounds(s, width, height) && NoDuplicates(s)
    requires |s| == width * height
    ensures forall c :: InBounds(c, width, height) ==> c in s
  {
    var board := BoardCells(width, height);
    assert Elems(s) <= board;
    SubsetCard(Elems(s), board);
  }
}
