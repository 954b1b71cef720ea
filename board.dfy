/** The board: a 10 x 9 grid, the kings table and the side to move (xiangqi/src/types/board.rs). */
module Boards {
  import opened Prelude
  import opened Pieces

  /** The value held by a `Board` object; also what the speculative filter and the codec reason about. */
  datatype BoardState = BoardState(content: seq<seq<Piece>>, kings: seq<Position>, turn: PieceColor)

  /** Every rank holds FILES cells and there are RANKS ranks. */
  ghost predicate WellFormed(b: BoardState) {
    |b.content| == RANKS && forall r :: 0 <= r < |b.content| ==> |b.content[r]| == FILES
  }

  /** A position that `get` can index without panicking. */
  predicate InBounds(p: Position) {
    0 <= p.r < RANKS && 0 <= p.f < FILES
  }

  function Cell(b: BoardState, p: Position): Piece
    requires WellFormed(b) && InBounds(p)
  {
    b.content[p.r][p.f]
  }

  /** `force` indexes the kings table by the moved king's colour, so that entry must exist. */
  predicate CanForce(b: BoardState, from: Position)
    requires WellFormed(b) && InBounds(from)
  {
    Cell(b, from).kind == King ==> ColorIndex(Cell(b, from).color) < |b.kings|
  }

  /** The state after `force(from, to)`: the piece leaves `from` (which becomes the default Empty
      piece) and overwrites `to`; a moved king updates its colour's entry in the kings table. */
  function Forced(b: BoardState, from: Position, to: Position): (a: BoardState)
    requires WellFormed(b) && InBounds(from) && InBounds(to) && CanForce(b, from)
    ensures WellFormed(a)
    ensures Cell(a, to) == Cell(b, from)
    ensures from != to ==> Cell(a, from) == EMPTY_PIECE
    ensures forall p :: InBounds(p) && p != from && p != to ==> Cell(a, p) == Cell(b, p)
    ensures a.turn == b.turn
    ensures Cell(b, from).kind == King ==> a.kings == b.kings[ColorIndex(Cell(b, from).color) := to]
    ensures Cell(b, from).kind != King ==> a.kings == b.kings
  {
    var piece := Cell(b, from);
    var c1 := b.content[from.r := b.content[from.r][from.f := EMPTY_PIECE]];
    var c2 := c1[to.r := c1[to.r][to.f := piece]];
    var kings := if piece.IsKind(King) then b.kings[ColorIndex(piece.color) := to] else b.kings;
    BoardState(c2, kings, b.turn)
  }

  lemma ForceSameSquare(b: BoardState, p: Position)
    requires WellFormed(b) && InBounds(p) && CanForce(b, p)
    ensures Forced(b, p, p).content == b.content
  {
    var a := Forced(b, p, p);
    assert a.content[p.r] == b.content[p.r];
    assert forall r :: 0 <= r < RANKS ==> a.content[r] == b.content[r];
  }

  /** The state after `next_turn`. */
  function Turned(b: BoardState): (a: BoardState)
    ensures a.turn == b.turn.Opposite() && a.content == b.content && a.kings == b.kings
  {
    b.(turn := b.turn.Opposite())
  }

  lemma TurnedTwice(b: BoardState)
    ensures Turned(Turned(b)) == b
  {
  }

  /** The back rank, file by file. */
  const BACK_RANK: seq<PieceKind> := [Rook, Knight, Bishop, Advisor, King, Advisor, Bishop, Knight, Rook]

  /** The cell the opening layout puts at rank `r`, file `f`. Empty cells of the cannon and pawn
      rows carry that row's colour; the four middle rows hold `Piece::empty()`. */
  function OpeningCell(r: nat, f: nat): Piece
    requires r < RANKS && f < FILES
  {
    if r == 0 then Piece(BACK_RANK[f], Red)
    else if r == 9 then Piece(BACK_RANK[f], Black)
    else if r == 2 || r == 7 then
      Piece(if f == 1 || f == 7 then Cannon else Empty, if r == 2 then Red else Black)
    else if r == 3 || r == 6 then
      Piece(if f % 2 == 0 then Pawn else Empty, if r == 3 then Red else Black)
    else EMPTY_PIECE
  }

  function OpeningRow(r: nat): (row: seq<Piece>)
    requires r < RANKS
    ensures |row| == FILES
  {
    seq(FILES, f requires 0 <= f < FILES => OpeningCell(r, f))
  }

  const OPENING_KINGS: seq<Position> := [Pos(0, 4), Pos(9, 4)]

  /** `Board::default()` as a value. */
  function OpeningState(): (b: BoardState)
    ensures WellFormed(b)
  {
    BoardState(seq(RANKS, r requires 0 <= r < RANKS => OpeningRow(r)), OPENING_KINGS, Red)
  }

  /** 1 when `p` is a piece of colour `c` (and a king, when `kingsOnly`), else 0. */
  function Ind(p: Piece, c: PieceColor, kingsOnly: bool): nat {
    if p.kind != Empty && p.color == c && (!kingsOnly || p.kind == King) then 1 else 0
  }

  /** The number of cells of `row` holding a piece of colour `c` (only kings, when `kingsOnly`). */
  function CountRow(row: seq<Piece>, c: PieceColor, kingsOnly: bool): nat {
    if row == [] then 0 else CountRow(row[..|row| - 1], c, kingsOnly) + Ind(row[|row| - 1], c, kingsOnly)
  }

  function CountGrid(rows: seq<seq<Piece>>, c: PieceColor, kingsOnly: bool): nat {
    if rows == [] then 0 else CountGrid(rows[..|rows| - 1], c, kingsOnly) + CountRow(rows[|rows| - 1], c, kingsOnly)
  }

  lemma OpeningLayout()
    ensures var b := OpeningState();
      && (forall f :: 0 <= f < FILES ==>
            Cell(b, Pos(0, f)) == Piece(BACK_RANK[f], Red) && Cell(b, Pos(9, f)) == Piece(BACK_RANK[f], Black))
      && Cell(b, Pos(2, 1)).kind == Cannon && Cell(b, Pos(2, 7)).kind == Cannon
      && Cell(b, Pos(7, 1)).kind == Cannon && Cell(b, Pos(7, 7)).kind == Cannon
      && (forall f :: 0 <= f < FILES && f % 2 == 0 ==>
            Cell(b, Pos(3, f)) == Piece(Pawn, Red) && Cell(b, Pos(6, f)) == Piece(Pawn, Black))
      && (forall r, f :: 0 <= r < RANKS && 0 <= f < FILES && r != 0 && r != 9 &&
            !((r == 2 || r == 7) && (f == 1 || f == 7)) && !((r == 3 || r == 6) && f % 2 == 0)
            ==> Cell(b, Pos(r, f)).IsEmpty())
      && b.kings == [Pos(0, 4), Pos(9, 4)]
      && Cell(b, b.kings[ColorIndex(Red)]) == Piece(King, Red)
      && Cell(b, b.kings[ColorIndex(Black)]) == Piece(King, Black)
      && b.turn == Red
  {
  }

  lemma RowSnoc(row: seq<Piece>, c: PieceColor, kingsOnly: bool, k: nat)
    requires 0 < k <= |row|
    ensures CountRow(row[..k], c, kingsOnly) == CountRow(row[..k - 1], c, kingsOnly) + Ind(row[k - 1], c, kingsOnly)
  {
    assert row[..k][..k - 1] == row[..k - 1];
  }

  lemma GridSnoc(rows: seq<seq<Piece>>, c: PieceColor, kingsOnly: bool, k: nat)
    requires 0 < k <= |rows|
    ensures CountGrid(rows[..k], c, kingsOnly) == CountGrid(rows[..k - 1], c, kingsOnly) + CountRow(rows[k - 1], c, kingsOnly)
  {
    assert rows[..k][..k - 1] == rows[..k - 1];
  }

  lemma {:induction false} RowUnroll(row: seq<Piece>, c: PieceColor, ko: bool)
    requires |row| == FILES
    ensures CountRow(row, c, ko) == Ind(row[0], c, ko) + Ind(row[1], c, ko) + Ind(row[2], c, ko) + Ind(row[3], c, ko)
      + Ind(row[4], c, ko) + Ind(row[5], c, ko) + Ind(row[6], c, ko) + Ind(row[7], c, ko) + Ind(row[8], c, ko)
  {
    assert row[..0] == [];
    assert row[..9] == row;
    RowSnoc(row, c, ko, 1); RowSnoc(row, c, ko, 2); RowSnoc(row, c, ko, 3);
    RowSnoc(row, c, ko, 4); RowSnoc(row, c, ko, 5); RowSnoc(row, c, ko, 6);
    RowSnoc(row, c, ko, 7); RowSnoc(row, c, ko, 8); RowSnoc(row, c, ko, 9);
  }

  lemma {:induction false} GridUnroll(rows: seq<seq<Piece>>, c: PieceColor, ko: bool)
    requires |rows| == RANKS
    ensures CountGrid(rows, c, ko) == CountRow(rows[0], c, ko) + CountRow(rows[1], c, ko) + CountRow(rows[2], c, ko)
      + CountRow(rows[3], c, ko) + CountRow(rows[4], c, ko) + CountRow(rows[5], c, ko) + CountRow(rows[6], c, ko)
      + CountRow(rows[7], c, ko) + CountRow(rows[8], c, ko) + CountRow(rows[9], c, ko)
  {
    assert rows[..0] == [];
    assert rows[..10] == rows;
    GridSnoc(rows, c, ko, 1); GridSnoc(rows, c, ko, 2); GridSnoc(rows, c, ko, 3);
    GridSnoc(rows, c, ko, 4); GridSnoc(rows, c, ko, 5); GridSnoc(rows, c, ko, 6);
    GridSnoc(rows, c, ko, 7); GridSnoc(rows, c, ko, 8); GridSnoc(rows, c, ko, 9);
    GridSnoc(rows, c, ko, 10);
  }

  /** How many cells of rank `r` the opening fills with colour `c` (kings only, when `kingsOnly`). */
  function OpeningRowCount(r: nat, c: PieceColor, kingsOnly: bool): nat {
    if (r == 0 && c == Red) || (r == 9 && c == Black) then (if kingsOnly then 1 else 9)
    else if kingsOnly then 0
    else if (r == 2 && c == Red) || (r == 7 && c == Black) then 2
    else if (r == 3 && c == Red) || (r == 6 && c == Black) then 5
    else 0
  }

  lemma OpeningRowCounts(r: nat, c: PieceColor, kingsOnly: bool)
    requires r < RANKS
    ensures CountRow(OpeningRow(r), c, kingsOnly) == OpeningRowCount(r, c, kingsOnly)
  {
    RowUnroll(OpeningRow(r), c, kingsOnly);
    if r == 0 {} else if r == 1 {} else if r == 2 {} else if r == 3 {} else if r == 4 {}
    else if r == 5 {} else if r == 6 {} else if r == 7 {} else if r == 8 {} else {}
  }

  /** Sixteen pieces per colour, exactly one of them a king. */
  lemma OpeningCounts(c: PieceColor)
    ensures CountGrid(OpeningState().content, c, false) == 16
    ensures CountGrid(OpeningState().content, c, true) == 1
  {
    var rows := OpeningState().content;
    GridUnroll(rows, c, false);
    GridUnroll(rows, c, true);
    forall r | 0 <= r < RANKS
      ensures CountRow(rows[r], c, false) == OpeningRowCount(r, c, false)
      ensures CountRow(rows[r], c, true) == OpeningRowCount(r, c, true)
    {
      OpeningRowCounts(r, c, false);
      OpeningRowCounts(r, c, true);
    }
  }

  /** The kings table is in step with the grid: one entry per colour, indexed by the colour's
      discriminant, each on the board and holding that colour's king. */
  ghost predicate KingsInSync(b: BoardState) {
    && WellFormed(b) && |b.kings| == 2
    && forall c: PieceColor :: InBounds(b.kings[ColorIndex(c)]) && Cell(b, b.kings[ColorIndex(c)]) == Piece(King, c)
  }

  lemma OpeningInSync()
    ensures KingsInSync(OpeningState())
  {
    OpeningLayout();
    var b := OpeningState();
    forall c: PieceColor
      ensures InBounds(b.kings[ColorIndex(c)]) && Cell(b, b.kings[ColorIndex(c)]) == Piece(King, c)
    {
      if c == Red {} else {}
    }
  }

  /** A move that does not land on a king keeps the kings table in step with the grid: a moved
      king takes its entry along, and every other move leaves both kings where they were. */
  lemma ForcedKeepsSync(b: BoardState, from: Position, to: Position)
    requires KingsInSync(b) && InBounds(from) && InBounds(to)
    requires Cell(b, to).kind != King
    ensures CanForce(b, from)
    ensures KingsInSync(Forced(b, from, to))
  {
    var a := Forced(b, from, to);
    var piece := Cell(b, from);
    forall c: PieceColor
      ensures InBounds(a.kings[ColorIndex(c)]) && Cell(a, a.kings[ColorIndex(c)]) == Piece(King, c)
    {
      var home := b.kings[ColorIndex(c)];
      if piece.kind == King && piece.color == c {
        assert a.kings[ColorIndex(c)] == to;
      } else {
        assert a.kings[ColorIndex(c)] == home;
        assert home != to;
        assert home != from;
      }
    }
  }

  /** Flipping the turn keeps the kings table in step. */
  lemma TurnedKeepsSync(b: BoardState)
    requires KingsInSync(b)
    ensures KingsInSync(Turned(b))
  {
  }

  /** The order in which `Board::default()` fills the ranks. */
  const FILL_ORDER: seq<nat> := [0, 9, 2, 7, 3, 6, 1, 4, 5, 8]

  lemma FillOrderDistinct()
    ensures |FILL_ORDER| == RANKS
    ensures forall i, j :: 0 <= i < j < |FILL_ORDER| ==> FILL_ORDER[i] != FILL_ORDER[j]
    ensures forall r :: 0 <= r < RANKS <==> r in FILL_ORDER
  {
  }

  /** The ranks in `filled` hold their opening row; every other rank is still empty. */
  ghost predicate Filled(rows: seq<seq<Piece>>, filled: seq<nat>) {
    |rows| == RANKS && forall r :: 0 <= r < RANKS ==> rows[r] == if r in filled then OpeningRow(r) else []
  }

  /** As `Filled`, while rank `rank` (not yet in `filled`) has received its first `file` cells. */
  ghost predicate FilledUpTo(rows: seq<seq<Piece>>, filled: seq<nat>, rank: nat, file: nat)
    requires rank < RANKS && file <= FILES
  {
    && |rows| == RANKS && rank !in filled
    && (forall r :: 0 <= r < RANKS && r != rank ==> rows[r] == if r in filled then OpeningRow(r) else [])
    && rows[rank] == OpeningRow(rank)[..file]
  }

  /** The four filling phases of `Board::default()`. */
  method FillBackRanks(rows: seq<seq<Piece>>) returns (rows': seq<seq<Piece>>)
    requires Filled(rows, FILL_ORDER[..0])
    ensures Filled(rows', FILL_ORDER[..2])
  {
    FillOrderDistinct();
    rows' := rows;
    ghost var filled := FILL_ORDER[..0];
    var homes: seq<(PieceColor, nat)> := [(Red, 0), (Black, 9)];
    for k := 0 to |homes|
      invariant Filled(rows', filled) && filled == FILL_ORDER[..k]
    {
      var (color, rank) := homes[k];
      for file := 0 to FILES
        invariant FilledUpTo(rows', filled, rank, file)
      {
        rows' := rows'[rank := rows'[rank] + [Piece(BACK_RANK[file], color)]];
      }
      filled := filled + [rank];
    }
  }

  method FillCannonRanks(rows: seq<seq<Piece>>) returns (rows': seq<seq<Piece>>)
    requires Filled(rows, FILL_ORDER[..2])
    ensures Filled(rows', FILL_ORDER[..4])
  {
    FillOrderDistinct();
    rows' := rows;
    ghost var filled := FILL_ORDER[..2];
    var cannons: seq<(PieceColor, nat)> := [(Red, 2), (Black, 7)];
    for k := 0 to |cannons|
      invariant Filled(rows', filled) && filled == FILL_ORDER[..2 + k]
    {
      var (color, rank) := cannons[k];
      for file := 0 to FILES
        invariant FilledUpTo(rows', filled, rank, file)
      {
        rows' := rows'[rank := rows'[rank] + [Piece(if file == 1 || file == 7 then Cannon else Empty, color)]];
      }
      filled := filled + [rank];
    }
  }

  method FillPawnRanks(rows: seq<seq<Piece>>) returns (rows': seq<seq<Piece>>)
    requires Filled(rows, FILL_ORDER[..4])
    ensures Filled(rows', FILL_ORDER[..6])
  {
    FillOrderDistinct();
    rows' := rows;
    ghost var filled := FILL_ORDER[..4];
    var pawns: seq<(PieceColor, nat)> := [(Red, 3), (Black, 6)];
    for k := 0 to |pawns|
      invariant Filled(rows', filled) && filled == FILL_ORDER[..4 + k]
    {
      var (color, rank) := pawns[k];
      for file := 0 to FILES
        invariant FilledUpTo(rows', filled, rank, file)
      {
        rows' := rows'[rank := rows'[rank] + [Piece(if file % 2 == 0 then Pawn else Empty, color)]];
      }
      filled := filled + [rank];
    }
  }

  method FillMiddleRanks(rows: seq<seq<Piece>>) returns (rows': seq<seq<Piece>>)
    requires Filled(rows, FILL_ORDER[..6])
    ensures rows' == OpeningState().content
  {
    FillOrderDistinct();
    rows' := rows;
    ghost var filled := FILL_ORDER[..6];
    var middle: seq<nat> := [1, 4, 5, 8];
    for k := 0 to |middle|
      invariant Filled(rows', filled) && filled == FILL_ORDER[..6 + k]
    {
      var rank := middle[k];
      for file := 0 to FILES
        invariant FilledUpTo(rows', filled, rank, file)
      {
        rows' := rows'[rank := rows'[rank] + [EMPTY_PIECE]];
      }
      filled := filled + [rank];
    }
    assert filled == FILL_ORDER;
  }

  /** A `Board` object; its fields are updated in place by `Force` and `NextTurn`. */
  class Board {
    var content: seq<seq<Piece>>
    var kings: seq<Position>
    var turn: PieceColor

    function Value(): BoardState
      reads this
    {
      BoardState(content, kings, turn)
    }

    ghost predicate Valid()
      reads this
    {
      WellFormed(Value())
    }

    /** `Board::get`. */
    function Get(pos: Position): (p: Piece)
      reads this
      requires Valid() && InBounds(pos)
      ensures p == Cell(Value(), pos)
    {
      content[pos.r][pos.f]
    }

    /** `Board::default()`: each rank's vector is filled by pushing pieces, back ranks first, then
        the cannon rows, the pawn rows and the four empty rows. */
    constructor Opening()
      ensures Valid() && Value() == OpeningState()
    {
      FillOrderDistinct();
      var rows: seq<seq<Piece>> := seq(RANKS, _ => []);
      rows := FillBackRanks(rows);
      rows := FillCannonRanks(rows);
      rows := FillPawnRanks(rows);
      rows := FillMiddleRanks(rows);
      assert rows == OpeningState().content;
      content := rows;
      kings := [NewPosition(0, 4), NewPosition(9, 4)];
      turn := Red;
    }

    /** A board object holding a given value (the parsed board that `TryFrom<String>` builds). */
    constructor FromState(b: BoardState)
      ensures Value() == b
    {
      content, kings, turn := b.content, b.kings, b.turn;
    }

    /** `Clone`. */
    method Clone() returns (c: Board)
      ensures fresh(c) && c.Value() == Value()
    {
      c := new Board.FromState(Value());
    }

    /** `Board::force`: no legality check; out-of-range squares or a missing kings entry panic. */
    method Force(from: Position, to: Position)
      requires Valid() && InBounds(from) && InBounds(to) && CanForce(Value(), from)
      modifies this
      ensures Valid()
      ensures Value() == Forced(old(Value()), from, to)
    {
      var piece := content[from.r][from.f];
      content := content[from.r := content[from.r][from.f := EMPTY_PIECE]];
      content := content[to.r := content[to.r][to.f := piece]];
      if piece.IsKind(King) {
        kings := kings[ColorIndex(piece.Color().value) := to];
      }
    }

    /** `Board::next_turn`. */
    method NextTurn()
      modifies this
      ensures Value() == Turned(old(Value()))
    {
      turn := turn.Opposite();
    }
  }
}
