/** Mouse selection of a move (xiangqi/src/resources/control.rs). The mapping from the cursor to
    a board square (`locate_position`) is not part of this model: the caller passes the square,
    or None when the cursor is outside the window or the camera cannot map it. */
module Control {
  import opened Prelude
  import opened Pieces
  import opened Connect
  import opened Moves

  /** The selection and the move request one frame of `listen_click` produces. */
  datatype Clicked = Clicked(selected: Option<Position>, request: Option<MoveEvent>)

  function ClickStep(selected: Option<Position>, player: Option<Player>, square: Option<Position>,
                     right: bool, left: bool): (c: Clicked)
    ensures player.None? || square.None? ==> c == Clicked(selected, None)
    ensures player.Some? && square.Some? && right ==> c == Clicked(None, None)
    ensures player.Some? && square.Some? && !right && left && selected.Some? ==>
      c == Clicked(None, Some(MoveEvent(selected.value, square.value)))
    ensures player.Some? && square.Some? && !right && left && selected.None? ==>
      c == Clicked(Some(square.value), None)
    ensures !right && !left ==> c == Clicked(selected, None)
    ensures c.request.Some? ==> c.selected.None? && selected.Some? && c.request.value.from == selected.value
  {
    if player.None? || square.None? then Clicked(selected, None)
    else if right then Clicked(None, None)
    else if left then
      match selected
      case Some(from) => Clicked(None, Some(MoveEvent(from, square.value)))
      case None => Clicked(Some(square.value), None)
    else Clicked(selected, None)
  }

  /** `PrevClick`. */
  class PrevClick {
    var selected: Option<Position>

    constructor Init()
      ensures selected == None
    {
      selected := None;
    }

    /** `listen_click`: a right click clears the selection (and wins over a left click); a left
        click either records the square or, with a square already recorded, sends the move
        between the two and clears it. */
    method ListenClick(conn: Connection, square: Option<Position>, right: bool, left: bool)
      returns (request: Option<MoveEvent>)
      modifies this
      ensures Clicked(selected, request) == ClickStep(old(selected), conn.player, square, right, left)
    {
      request := None;
      if conn.player.Some? {
        if square.Some? {
          if right {
            selected := None;
          } else if left {
            if selected.Some? {
              request := Some(MoveEvent(selected.value, square.value));
              selected := None;
            } else {
              selected := Some(square.value);
            }
          }
        }
      }
    }
  }

  /** `listen_end_game`: Escape drops the player, which ends the game. */
  method ListenEndGame(conn: Connection, escape: bool)
    modifies conn
    ensures escape ==> conn.player.None?
    ensures !escape ==> conn.player == old(conn.player)
    ensures conn.url == old(conn.url) && conn.room == old(conn.room)
  {
    if escape {
      conn.player := None;
    }
  }

  /** Two left clicks with nothing selected send exactly one move, from the first square to the
      second, and leave nothing selected. */
  lemma TwoClicksMove(player: Player, a: Position, b: Position)
    ensures var first := ClickStep(None, Some(player), Some(a), false, true);
      var second := ClickStep(first.selected, Some(player), Some(b), false, true);
      first.request.None? && second == Clicked(None, Some(MoveEvent(a, b)))
  {
  }
}
