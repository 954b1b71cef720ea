/** The client's connection resource (xiangqi/src/resources/connect.rs). */
module Connect {
  import opened Prelude
  import opened Pieces
  import opened Transfer

  datatype Player = Player(color: PieceColor)

  /** `Connection`, with the `room` field that the menu writes and the move pipeline reads. */
  class Connection {
    var url: string
    var room: RoomId
    var player: Option<Player>

    /** `Connection::default()`. */
    constructor Init()
      ensures url == "" && room == 0 && player == None
    {
      url, room, player := "", 0, None;
    }

    /** `Connection::is_connected`: a player has been assigned by the relay. */
    function IsConnected(): (c: bool)
      reads this
      ensures c <==> player != None
    {
      player.Some?
    }
  }
}
