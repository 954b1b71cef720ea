/** The client's move pipeline (xiangqi/src/resources/moves.rs): the table of legal moves for the
    side to move, the checks a clicked move must pass, and applying an accepted move. */
module Moves {
  import opened Prelude
  import opened Pieces
  import opened Boards
  import opened BoardCodec
  import opened BoardResource
  import opened Transfer
  import opened Connect

  /** The board rules the pipeline calls but whose definitions are not part of this model:
      `Board::reachable`, `Board::is_check` and `Position::legal().is_some()`. */
  datatype Rules = Rules(
    reachable: (BoardState, Position) -> set<Position>,
    isCheck: BoardState -> bool,
    legal: Position -> bool)

  datatype MoveEvent = MoveEvent(from: Position, to: Position)

  /** What the filter needs to run without a panic: reachable squares are on the board, and a
      king of the side to move has its entry in the kings table. */
  ghost predicate Applicable(rules: Rules, b: BoardState) {
    && WellFormed(b)
    && (forall from, to :: InBounds(from) && to in rules.reachable(b, from) ==> InBounds(to))
    && (forall from :: InBounds(from) && Cell(b, from).IsColor(b.turn) ==> CanForce(b, from))
  }

  /** A square holding a piece of the side to move. */
  predicate Movable(b: BoardState, from: Position)
    requires WellFormed(b)
  {
    InBounds(from) && Cell(b, from).IsColor(b.turn)
  }

  /** The candidates among `cands` whose forced board is not in check. */
  function Kept(rules: Rules, b: BoardState, from: Position, cands: set<Position>): set<Position>
    requires Applicable(rules, b) && Movable(b, from)
    requires cands <= rules.reachable(b, from)
  {
    set to | to in cands && !rules.isCheck(Forced(b, from, to))
  }

  /** The destinations of `from` that the filter keeps. */
  function LegalFrom(rules: Rules, b: BoardState, from: Position): set<Position>
    requires Applicable(rules, b) && Movable(b, from)
  {
    Kept(rules, b, from, rules.reachable(b, from))
  }

  /** `moves` is the filter's result on the first `n` squares in rank-major order. */
  ghost predicate TableUpTo(rules: Rules, b: BoardState, moves: map<Position, set<Position>>, n: nat)
    requires Applicable(rules, b)
  {
    && (forall from :: from in moves <==>
          Movable(b, from) && 9 * from.r + from.f < n && LegalFrom(rules, b, from) != {})
    && (forall from :: from in moves ==> moves[from] == LegalFrom(rules, b, from))
  }

  /** The move table of a board: the squares of the side to move with at least one kept
      destination, each mapped to exactly its kept destinations. */
  ghost predicate IsMoveTable(rules: Rules, b: BoardState, moves: map<Position, set<Position>>)
    requires Applicable(rules, b)
  {
    && (forall from :: from in moves <==> Movable(b, from) && LegalFrom(rules, b, from) != {})
    && (forall from :: from in moves ==> moves[from] == LegalFrom(rules, b, from))
  }

  /** Trying one more candidate adds it to the kept set exactly when its forced board is not
      in check. */
  lemma KeptStep(rules: Rules, b: BoardState, from: Position, done: set<Position>, to: Position)
    requires Applicable(rules, b) && Movable(b, from)
    requires done <= rules.reachable(b, from) && to in rules.reachable(b, from)
    ensures !rules.isCheck(Forced(b, from, to)) ==> Kept(rules, b, from, done + {to}) == Kept(rules, b, from, done) + {to}
    ensures rules.isCheck(Forced(b, from, to)) ==> Kept(rules, b, from, done + {to}) == Kept(rules, b, from, done)
  {
  }

  /** Once every reachable destination has been tried, the kept set is `LegalFrom`. */
  lemma KeptAll(rules: Rules, b: BoardState, from: Position, done: set<Position>)
    requires Applicable(rules, b) && Movable(b, from)
    requires done == rules.reachable(b, from)
    ensures Kept(rules, b, from, done) == LegalFrom(rules, b, from)
  {
  }

  /** The table `moves` with the entry of `pos` added when `kept` is non-empty. */
  function WithEntry(moves: map<Position, set<Position>>, pos: Position, kept: set<Position>): map<Position, set<Position>> {
    if kept == {} then moves else moves[pos := kept]
  }

  /** Inserting `to` into the entry of `pos`, created empty when missing (`entry().or_default()`),
      extends the kept set by `to`. */
  lemma WithEntryInsert(moves: map<Position, set<Position>>, pos: Position, kept: set<Position>, to: Position)
    requires pos !in moves
    ensures var m := WithEntry(moves, pos, kept);
      m[pos := (if pos in m then m[pos] else {}) + {to}] == WithEntry(moves, pos, kept + {to})
  {
  }

  /** One iteration of the loop over `reachable`: force `to` on a clone of the board and, unless
      the clone is in check, insert `to` into the entry of `pos`. */
  method TryDestination(rules: Rules, board: Board, pos: Position, to: Position,
                        ghost moves: map<Position, set<Position>>, ghost kept: set<Position>,
                        table: map<Position, set<Position>>)
    returns (result: map<Position, set<Position>>)
    requires board.Valid() && Applicable(rules, board.Value()) && Movable(board.Value(), pos)
    requires to in rules.reachable(board.Value(), pos)
    requires pos !in moves && table == WithEntry(moves, pos, kept)
    ensures !rules.isCheck(Forced(board.Value(), pos, to)) ==> result == WithEntry(moves, pos, kept + {to})
    ensures rules.isCheck(Forced(board.Value(), pos, to)) ==> result == table
  {
    var copy := board.Clone();
    copy.Force(pos, to);
    result := table;
    if !rules.isCheck(copy.Value()) {
      WithEntryInsert(moves, pos, kept, to);
      var entry := if pos in result then result[pos] else {};
      result := result[pos := entry + {to}];
    }
  }

  /** The loop over `reachable` for one square: each destination is tried on a clone of the
      board, and kept unless the forced clone is in check. */
  method RecordDestinations(rules: Rules, board: Board, pos: Position, moves: map<Position, set<Position>>)
    returns (result: map<Position, set<Position>>)
    requires board.Valid() && Applicable(rules, board.Value()) && Movable(board.Value(), pos)
    requires pos !in moves
    ensures result == WithEntry(moves, pos, LegalFrom(rules, board.Value(), pos))
  {
    ghost var b := board.Value();
    result := moves;
    var reachable := rules.reachable(board.Value(), pos);
    var rest := reachable;
    ghost var kept: set<Position> := {};
    while rest != {}
      invariant rest <= reachable
      invariant board.Value() == b
      invariant kept == Kept(rules, b, pos, reachable - rest)
      invariant result == WithEntry(moves, pos, kept)
      decreases |rest|
    {
      var to :| to in rest;
      ghost var done := reachable - rest;
      rest := rest - {to};
      assert reachable - rest == done + {to};
      KeptStep(rules, b, pos, done, to);
      result := TryDestination(rules, board, pos, to, moves, kept, result);
      if !rules.isCheck(Forced(b, pos, to)) {
        kept := kept + {to};
      }
    }
    assert reachable - rest == reachable;
    KeptAll(rules, b, pos, reachable - rest);
    assert kept == LegalFrom(rules, b, pos);
    assert result == WithEntry(moves, pos, LegalFrom(rules, b, pos));
  }

  /** Distinct squares have distinct rank-major indices. */
  lemma SquareIndexUnique(p: Position, q: Position)
    requires InBounds(p) && InBounds(q) && 9 * p.r + p.f == 9 * q.r + q.f
    ensures p == q
  {
  }

  /** Square `pos`, the `n`-th in rank-major order, is not yet in a table of the first `n`
      squares. */
  lemma TableFresh(rules: Rules, b: BoardState, moves: map<Position, set<Position>>, pos: Position, n: nat)
    requires Applicable(rules, b) && TableUpTo(rules, b, moves, n)
    requires InBounds(pos) && 9 * pos.r + pos.f == n
    ensures pos !in moves
  {
  }

  /** A square without a piece of the side to move adds nothing. */
  lemma TableSkip(rules: Rules, b: BoardState, moves: map<Position, set<Position>>, pos: Position, n: nat)
    requires Applicable(rules, b) && TableUpTo(rules, b, moves, n)
    requires InBounds(pos) && 9 * pos.r + pos.f == n && !Movable(b, pos)
    ensures TableUpTo(rules, b, moves, n + 1)
  {
    forall from | Movable(b, from) && 9 * from.r + from.f == n
      ensures false
    {
      SquareIndexUnique(from, pos);
    }
  }

  /** A square of the side to move adds its kept destinations, when there are any. */
  lemma TableAdd(rules: Rules, b: BoardState, moves: map<Position, set<Position>>, pos: Position, n: nat)
    requires Applicable(rules, b) && TableUpTo(rules, b, moves, n)
    requires InBounds(pos) && 9 * pos.r + pos.f == n && Movable(b, pos)
    ensures TableUpTo(rules, b, WithEntry(moves, pos, LegalFrom(rules, b, pos)), n + 1)
  {
    var kept := LegalFrom(rules, b, pos);
    var table := WithEntry(moves, pos, kept);
    forall from
      ensures from in table <==> Movable(b, from) && 9 * from.r + from.f < n + 1 && LegalFrom(rules, b, from) != {}
    {
      if from != pos && Movable(b, from) && 9 * from.r + from.f == n {
        SquareIndexUnique(from, pos);
      }
    }
    forall from | from in table
      ensures table[from] == LegalFrom(rules, b, from)
    {
      if from != pos {
        assert from in moves;
      }
    }
  }

  lemma TableComplete(rules: Rules, b: BoardState, moves: map<Position, set<Position>>)
    requires Applicable(rules, b) && TableUpTo(rules, b, moves, 90)
    ensures IsMoveTable(rules, b, moves)
  {
  }

  /** One run of `listen_update`'s body, sequentially: every square of the side to move, every
      reachable destination, speculated on a clone. */
  method ComputeMoves(rules: Rules, board: Board) returns (moves: map<Position, set<Position>>)
    requires board.Valid() && Applicable(rules, board.Value())
    ensures IsMoveTable(rules, board.Value(), moves)
  {
    ghost var b := board.Value();
    moves := map[];
    for rank := 0 to RANKS
      invariant board.Value() == b
      invariant TableUpTo(rules, b, moves, 9 * rank)
    {
      for file := 0 to FILES
        invariant board.Value() == b
        invariant TableUpTo(rules, b, moves, 9 * rank + file)
      {
        var pos := NewPosition(rank, file);
        TableFresh(rules, b, moves, pos, 9 * rank + file);
        if board.Get(pos).IsColor(board.turn) {
          TableAdd(rules, b, moves, pos, 9 * rank + file);
          moves := RecordDestinations(rules, board, pos, moves);
        } else {
          TableSkip(rules, b, moves, pos, 9 * rank + file);
        }
      }
    }
    TableComplete(rules, b, moves);
  }

  /** The `Moves` resource. */
  class MovesTable {
    var moves: map<Position, set<Position>>

    /** `init_moves`: the table starts empty. */
    constructor Init()
      ensures moves == map[]
    {
      moves := map[];
    }

    /** `listen_update`: the table is rebuilt once per pending update event; the board is only
        read. */
    method ListenUpdate(rules: Rules, info: BoardInfo, events: nat)
      requires info.Valid() && Applicable(rules, info.board.Value())
      modifies this
      ensures events == 0 ==> moves == old(moves)
      ensures events > 0 ==> IsMoveTable(rules, info.board.Value(), moves)
      ensures info.board == old(info.board) && info.board.Value() == old(info.board.Value())
    {
      for k := 0 to events
        invariant k == 0 ==> moves == old(moves)
        invariant k > 0 ==> IsMoveTable(rules, info.board.Value(), moves)
      {
        moves := ComputeMoves(rules, info.board);
      }
    }
  }

  /** Every recorded move starts on a square of the side to move, is reachable, and does not
      leave the forced board in check. */
  lemma MoveTableSound(rules: Rules, b: BoardState, moves: map<Position, set<Position>>, from: Position, to: Position)
    requires Applicable(rules, b) && IsMoveTable(rules, b, moves)
    requires from in moves && to in moves[from]
    ensures Movable(b, from) && moves[from] != {}
    ensures to in rules.reachable(b, from) && InBounds(to)
    ensures !rules.isCheck(Forced(b, from, to))
  {
  }

  /** Every reachable destination whose forced board is not in check is recorded. */
  lemma MoveTableComplete(rules: Rules, b: BoardState, moves: map<Position, set<Position>>, from: Position, to: Position)
    requires Applicable(rules, b) && IsMoveTable(rules, b, moves)
    requires Movable(b, from) && to in rules.reachable(b, from)
    requires !rules.isCheck(Forced(b, from, to))
    ensures from in moves && to in moves[from]
  {
    assert to in LegalFrom(rules, b, from);
  }

  /** `verify_move`'s guard chain for one event: not connected, not this player's turn, a square
      off the board, or a move missing from the table (a missing key counting as no moves) each
      drop the event; otherwise it is passed on unchanged. */
  function VerifyMove(rules: Rules, player: Option<Player>, turn: PieceColor,
                      moves: map<Position, set<Position>>, mv: MoveEvent): (r: Option<MoveEvent>)
    ensures r.Some? ==> r.value == mv
    ensures player.None? ==> r.None?
    ensures player.Some? && turn != player.value.color ==> r.None?
    ensures !rules.legal(mv.from) || !rules.legal(mv.to) ==> r.None?
    ensures mv.from !in moves || mv.to !in moves[mv.from] ==> r.None?
    ensures (player.Some? && turn == player.value.color && rules.legal(mv.from) && rules.legal(mv.to)
             && mv.from in moves && mv.to in moves[mv.from]) ==> r == Some(mv)
  {
    if player.None? then None
    else if turn != player.value.color then None
    else if !rules.legal(mv.from) || !rules.legal(mv.to) then None
    else if !(mv.from in moves && mv.to in moves[mv.from]) then None
    else Some(mv)
  }

  /** A move that passes the guards against the board's move table is a kept move of the
      player's own piece, and every such move on the board passes. */
  lemma VerifyMoveAgainstTable(rules: Rules, b: BoardState, moves: map<Position, set<Position>>,
                               player: Player, mv: MoveEvent)
    requires Applicable(rules, b) && IsMoveTable(rules, b, moves)
    ensures VerifyMove(rules, Some(player), b.turn, moves, mv).Some? <==>
      && b.turn == player.color && rules.legal(mv.from) && rules.legal(mv.to)
      && Movable(b, mv.from) && mv.to in rules.reachable(b, mv.from)
      && !rules.isCheck(Forced(b, mv.from, mv.to))
  {
    if Movable(b, mv.from) && mv.to in rules.reachable(b, mv.from) && !rules.isCheck(Forced(b, mv.from, mv.to)) {
      MoveTableComplete(rules, b, moves, mv.from, mv.to);
    }
  }

  /** `do_move` for one event: force the move on the held board, flip the turn, and build the
      play request carrying the new board's text. The board changes before the player is read;
      without a player the source's `unwrap` panics at that point, which is the None result
      here. The `PieceColor` to `bool` conversion is not part of this model and is a parameter. */
  method DoMove(info: BoardInfo, conn: Connection, mv: MoveEvent, colorBit: PieceColor -> bool)
    returns (req: Option<PlayRequest>)
    requires info.Valid()
    requires InBounds(mv.from) && InBounds(mv.to) && CanForce(info.board.Value(), mv.from)
    modifies info.board
    ensures info.Valid()
    ensures info.board.Value() == Turned(Forced(old(info.board.Value()), mv.from, mv.to))
    ensures conn.player.None? ==> req.None?
    ensures conn.player.Some? ==>
      req == Some(PlayRequest(conn.room, colorBit(conn.player.value.color), Encode(info.board.Value())))
  {
    info.board.Force(mv.from, mv.to);
    info.board.NextTurn();
    if conn.player.None? {
      return None;
    }
    var text := info.Se();
    req := Some(PlayRequest(conn.room, colorBit(conn.player.value.color), text));
  }

  /** A move from the table, on a board whose kings table is in step with the grid, keeps the
      kings table in step, provided it does not land on a king. */
  lemma DoMoveKeepsSync(rules: Rules, b: BoardState, moves: map<Position, set<Position>>, mv: MoveEvent)
    requires Applicable(rules, b) && IsMoveTable(rules, b, moves) && KingsInSync(b)
    requires mv.from in moves && mv.to in moves[mv.from] && Cell(b, mv.to).kind != King
    ensures KingsInSync(Turned(Forced(b, mv.from, mv.to)))
  {
    MoveTableSound(rules, b, moves, mv.from, mv.to);
    ForcedKeepsSync(b, mv.from, mv.to);
  }
}
