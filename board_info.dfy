/** The client's board resource (xiangqi/src/resources/board.rs). */
module BoardResource {
  import opened Prelude
  import opened Boards
  import opened BoardCodec

  class BoardInfo {
    var board: Board

    ghost predicate Valid()
      reads this, board
    {
      board.Valid()
    }

    /** `init_board`: the resource starts with `Board::default()`. */
    constructor Init()
      ensures Valid() && board.Value() == OpeningState()
    {
      board := new Board.Opening();
    }

    /** `BoardInfo::se`: the text form of the held board. */
    method Se() returns (s: string)
      requires Valid()
      ensures s == Encode(board.Value())
    {
      s := BoardToString(board);
    }

    /** `BoardInfo::de`: adopt the parsed board only when the whole text parses; on an error the
        held board is kept as it was. */
    method De(s: string)
      requires Valid()
      modifies this
      ensures Valid()
      ensures Decode(s).Ok? ==> board.Value() == Decode(s).value && fresh(board)
      ensures Decode(s).Err? ==> board == old(board) && board.Value() == old(board.Value())
    {
      var parsed := ParseBoard(s);
      if parsed.Ok? {
        board := new Board.FromState(parsed.value);
      }
    }

    /** `start_game`: a new game starts from `Board::default()`. */
    method StartGame()
      modifies this
      ensures Valid() && board.Value() == OpeningState() && fresh(board)
    {
      board := new Board.Opening();
    }
  }

  /** Reading back what `se` wrote changes nothing, for boards whose kings sit on coordinates the
      digit codec carries. */
  method SeThenDe(info: BoardInfo)
    requires info.Valid() && Serialisable(info.board.Value())
    modifies info
    ensures info.Valid() && info.board.Value() == old(info.board.Value())
  {
    var s := info.Se();
    DecodeEncode(info.board.Value());
    info.De(s);
  }
}
