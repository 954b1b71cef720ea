/** The request and response records shared by the client and the relay (transfer/src/lib.rs). */
module Transfer {
  import opened Prelude

  /** `RoomId` is a `u64`. */
  type RoomId = n: nat | n < U64

  datatype ConnectResponse = ConnectResponse(player: bool, ok: bool)

  /** `ConnectResponse::default()`, sent with a Conflict status. */
  const DEFAULT_CONNECT_RESPONSE: ConnectResponse := ConnectResponse(false, false)

  datatype PlayRequest = PlayRequest(room: RoomId, player: bool, board: string)

  datatype QueryResponse = QueryResponse(board: Option<string>)
}
