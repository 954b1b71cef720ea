# Xiangqi client and relay, modelled in Dafny

This project models the deterministic core of a two-player Xiangqi (Chinese chess) game. The
game has a Bevy client and a small Rocket relay server. The model covers four parts:

- **Pieces and the board.** The piece kinds and colours, pieces, and signed board positions,
  each with its text codec. The 10 x 9 board holds a kings table and the side to move. The
  model covers:
  - the opening layout;
  - the in-place `force` move and `next_turn`;
  - the board's text form: 90 two-character cell tokens, the decimal king count, `/`, two
    characters per king, and the turn character;
  - the client's board resource, which adopts a parsed board only when the whole text
    parses.
- **The relay's room table.** Rooms pair two players, give each player a FIFO mailbox of
  board texts, and expire after 20 seconds without activity. Each HTTP handler is one atomic
  step on a `map<RoomId, Room>`. The expiry sweep is one pass over that map.
- **The client's move pipeline.** The pipeline has three steps:
  - the legal-move table: every reachable destination of every piece of the side to move,
    speculated on a clone and kept unless the forced board is in check;
  - the guard chain a clicked move must pass;
  - applying an accepted move: `force`, then one `next_turn`, then a play request that
    carries the new board's text.
- **Client state machines.** These are:
  - the room-code hash (base 131, wrapping `u64` arithmetic);
  - the menu defaults (`http://127.0.0.1:8082`, room `example-room-code`);
  - the switch into play;
  - the two-click selection machine, and Escape to leave;
  - the win/lose banner rule and its `GameJustStarted` flag.

Some operations change state in place in the source: `Board`, `BoardInfo`, the `Moves`
resource, the relay's `Games`, `Connection`, `PrevClick` and `GameJustStarted`. These are
classes whose methods name what they modify. Each such method is proved against a function on
values: `Forced`, `Turned`, `Encode`, `Decode`, `IsMoveTable`, `ConnectStep`, `PlayStep`,
`QueryStep`, `Swept`, `ClickStep`, `Banner` and `PolySum`. The properties are proved about
those functions.

The board rules that the pipeline calls sit outside this model. They are `Board::reachable`,
`Board::is_check` and `Position::legal`, and they are passed in as the `Moves.Rules` record.
The table's soundness and completeness are proved relative to them.

The modules follow the source files:

- `Prelude`: board sizes, `Option`, `Result`;
- `Pieces`: xiangqi/src/types/pieces.rs;
- `Boards`: xiangqi/src/types/board.rs, state side;
- `BoardCodec`: xiangqi/src/types/board.rs, text form;
- `BoardResource`: xiangqi/src/resources/board.rs;
- `Connect`: xiangqi/src/resources/connect.rs;
- `Transfer`: transfer/src/lib.rs;
- `Moves`: xiangqi/src/resources/moves.rs;
- `Relay`: server/src/main.rs;
- `Menu`: xiangqi/src/menu/content.rs;
- `WinLose`: xiangqi/src/components/win_lose.rs;
- `Control`: xiangqi/src/resources/control.rs.

## Model

| member | source | states |
|---|---|---|
| Pieces.KindToChar | xiangqi/src/types/pieces.rs:33-46 | every kind encodes to one of the eight characters `-pckabnr` |
| Pieces.KindFromChar | xiangqi/src/types/pieces.rs:16-31 | decoding succeeds exactly on the eight kind characters, and then yields the kind that encodes back to that character |
| Pieces.KindCharRoundTrip | xiangqi/src/types/pieces.rs:16-46 | decoding the character of any kind gives that kind back |
| Pieces.PieceColor.Opposite | xiangqi/src/types/pieces.rs:55-61 | the opposite colour is never the colour itself |
| Pieces.OppositeInvolution | xiangqi/src/types/pieces.rs:56-61 | `opposite` is an involution without a fixed point |
| Pieces.ColorToChar | xiangqi/src/types/pieces.rs:75-82 | every colour encodes to `r` or `b` |
| Pieces.ColorFromChar | xiangqi/src/types/pieces.rs:64-73 | decoding succeeds exactly on `r` and `b`, and then yields the colour that encodes back to that character |
| Pieces.ColorCharRoundTrip | xiangqi/src/types/pieces.rs:64-82 | decoding the character of any colour gives that colour back |
| Pieces.ColorIndex | xiangqi/src/types/pieces.rs:48-53 | the `u8` discriminant is 0 or 1, and 0 exactly for Red |
| Pieces.Piece.IsEmpty | xiangqi/src/types/pieces.rs:99-101 | a cell is empty exactly when its kind is Empty, that is, exactly when its text form starts with `-` |
| Pieces.Piece.IsEnemy | xiangqi/src/types/pieces.rs:103-105 | enemies are a real piece and a real piece of the opposite colour |
| Pieces.Piece.IsAlly | xiangqi/src/types/pieces.rs:107-109 | allies are a real piece and a real piece of the same colour |
| Pieces.Piece.IsSteppable | xiangqi/src/types/pieces.rs:111-113 | a piece may step onto an empty cell or onto a real piece whose colour is opposite to its own raw colour |
| Pieces.Piece.IsKind | xiangqi/src/types/pieces.rs:115-117 | two kinds are equal exactly when their letters are |
| Pieces.Piece.IsColor | xiangqi/src/types/pieces.rs:119-121 | a real piece whose text form carries the colour's letter |
| Pieces.Piece.Color | xiangqi/src/types/pieces.rs:123-129 | `color()` is None exactly when the kind is Empty, and otherwise the stored colour |
| Pieces.ColorMatchesIsColor | xiangqi/src/types/pieces.rs:119-129 | `is_color(c)` holds exactly when `color() == Some(c)` |
| Pieces.EnemyAllyLaws | xiangqi/src/types/pieces.rs:103-109 | enemy and ally are false when either piece is Empty and are symmetric; for two real pieces exactly one holds |
| Pieces.SteppableLaws | xiangqi/src/types/pieces.rs:111-113 | steppable means the other cell is Empty or the raw colours differ; for a real piece this is "Empty or enemy" |
| Pieces.PieceToString | xiangqi/src/types/pieces.rs:151-155 | a piece is written as two characters: a kind character, then a colour character |
| Pieces.ParsePiece | xiangqi/src/types/pieces.rs:141-149 | fewer than two characters is an error; parsing succeeds exactly when the first is a kind character and the second a colour character, and the result writes back as those two |
| Pieces.PieceStringRoundTrip | xiangqi/src/types/pieces.rs:141-155 | parsing a written piece gives back its kind and its stored colour, also for Empty cells |
| Pieces.ParsePieceIgnoresTail | xiangqi/src/types/pieces.rs:141-149 | characters after the first two do not change the parse |
| Pieces.NewPosition | xiangqi/src/types/pieces.rs:161-163 | a `usize` pair is reinterpreted as a signed 64-bit pair |
| Pieces.Rank | xiangqi/src/types/pieces.rs:165-167 | the rank read back as a `usize` is the stored rank whenever that is non-negative |
| Pieces.File | xiangqi/src/types/pieces.rs:169-171 | the file read back as a `usize` is the stored file whenever that is non-negative |
| Pieces.NewPositionAccessors | xiangqi/src/types/pieces.rs:161-171 | `Position::new(r, f).rank() == r` and `.file() == f` for every `usize` pair |
| Pieces.Plus | xiangqi/src/types/pieces.rs:174-179 | addition is componentwise |
| Pieces.Neg | xiangqi/src/types/pieces.rs:188-193 | `p + (-p)` is the origin |
| Pieces.Minus | xiangqi/src/types/pieces.rs:181-186 | `p - q == p + (-q)`, and adding `q` back recovers `p` |
| Pieces.NegInvolution | xiangqi/src/types/pieces.rs:188-193 | `-(-p) == p` |
| Pieces.DigitChar | xiangqi/src/types/pieces.rs:195-203 | a digit 0..9 becomes `'0'..'9'`; below 208 no `u8` wrap-around happens |
| Pieces.CharDigit | xiangqi/src/types/pieces.rs:205-212 | a decimal digit character reads back as its value; every result fits a `u8` |
| Pieces.PositionToString | xiangqi/src/types/pieces.rs:195-203 | a position is written as exactly two characters |
| Pieces.PositionFromString | xiangqi/src/types/pieces.rs:205-212 | the position read from two characters has both coordinates in 0..255 |
| Pieces.DigitRoundTrip | xiangqi/src/types/pieces.rs:195-212 | for every `u8` value, writing a coordinate and reading it back, with wrapping `u8` arithmetic, gives it back |
| Pieces.PositionStringDigits | xiangqi/src/types/pieces.rs:195-203 | a position with both coordinates in 0..9 is written as two digit characters |
| Pieces.PositionStringRoundTrip | xiangqi/src/types/pieces.rs:195-212 | `Position::from(String::from(p)) == p` whenever both coordinates are in 0..255 |
| Boards.Forced | xiangqi/src/types/board.rs:78-84 | the piece at `from` lands on `to`, `from` becomes `Piece::default()`, and every other cell and the turn are unchanged; a moved king updates its colour's entry of the kings table, and nothing else touches that table |
| Boards.ForceSameSquare | xiangqi/src/types/board.rs:78-80 | forcing a square onto itself leaves the grid as it was |
| Boards.Turned | xiangqi/src/types/board.rs:86-88 | the turn flips and the grid and kings are unchanged |
| Boards.TurnedTwice | xiangqi/src/types/board.rs:86-88 | two `next_turn`s are the identity |
| Boards.OpeningRow | xiangqi/src/types/board.rs:12-57 | every opening rank has nine cells |
| Boards.OpeningState | xiangqi/src/types/board.rs:10-66 | the opening board has ten ranks of nine cells |
| Boards.OpeningLayout | xiangqi/src/types/board.rs:12-64 | the opening layout: back ranks R N B A K A B N R for Red (rank 0) and Black (rank 9); cannons on ranks 2 and 7, files 1 and 7; pawns on ranks 3 and 6, even files; every other cell Empty; a kings table of `[(0,4),(9,4)]` holding the Red and Black kings at the colour indices; Red to move |
| Boards.OpeningRowCounts | xiangqi/src/types/board.rs:12-57 | how many pieces and kings of each colour each opening rank holds |
| Boards.OpeningCounts | xiangqi/src/types/board.rs:12-57 | the opening board holds 16 pieces of each colour, exactly one of them a king |
| Boards.OpeningInSync | xiangqi/src/types/board.rs:53-64 | in the opening the kings table has one entry per colour, at that colour's index, each on the square holding that colour's king |
| Boards.ForcedKeepsSync | xiangqi/src/types/board.rs:78-84 | a board whose kings table is in step with the grid allows `force` from any square, and a move that does not land on a king keeps the table in step: a moved king takes its entry along, and other moves leave both kings in place |
| Boards.TurnedKeepsSync | xiangqi/src/types/board.rs:86-88 | `next_turn` keeps the kings table in step with the grid |
| Boards.FillBackRanks | xiangqi/src/types/board.rs:14-28 | the back-rank loop leaves ranks 0 and 9 holding their opening rows, and the other ranks empty |
| Boards.FillCannonRanks | xiangqi/src/types/board.rs:29-40 | the cannon-row loop then fills ranks 2 and 7 |
| Boards.FillPawnRanks | xiangqi/src/types/board.rs:41-52 | the pawn-row loop then fills ranks 3 and 6 |
| Boards.FillMiddleRanks | xiangqi/src/types/board.rs:53-57 | the last loop fills ranks 1, 4, 5 and 8 with `Piece::empty()`, completing the opening grid |
| Boards.Board.Get | xiangqi/src/types/board.rs:70-72 | the cell at an on-board position |
| Boards.Board.Opening | xiangqi/src/types/board.rs:10-66 | `Board::default()` is the opening board |
| Boards.Board.FromState | xiangqi/src/types/board.rs:146-150 | the board object built from parsed parts holds exactly those parts |
| Boards.Board.Clone | xiangqi/src/types/board.rs:3-8 | a clone is a new object with the same value |
| Boards.Board.Force | xiangqi/src/types/board.rs:78-84 | `force` changes the board's value to `Forced(old value, from, to)` and keeps its shape |
| Boards.Board.NextTurn | xiangqi/src/types/board.rs:86-88 | `next_turn` changes the board's value to `Turned(old value)` |
| BoardCodec.EncodeRow | xiangqi/src/types/board.rs:95-99 | a rank is written as two characters per cell |
| BoardCodec.EncodeKings | xiangqi/src/types/board.rs:103-110 | the kings are written as two characters each |
| BoardCodec.Encode | xiangqi/src/types/board.rs:91-113 | the written text has at least three characters and ends with the turn character |
| BoardCodec.NatToDecimal | xiangqi/src/types/board.rs:101 | `to_string` of a count is a non-empty run of decimal digits, a single one exactly below 10 |
| BoardCodec.ParseI32 | xiangqi/src/types/board.rs:138 | a parsed count is an `i32`, read from an optional sign and then decimal digits |
| BoardCodec.DecodeGrid | xiangqi/src/types/board.rs:119-128 | the grid read from the cell tokens has ten ranks, each rank `r` holding tokens `9r .. 9r+8` |
| BoardCodec.FindSlash | xiangqi/src/types/board.rs:129-137 | the index found is the first `/` at or after the start; when none is found there is no `/` left |
| BoardCodec.DecodeKings | xiangqi/src/types/board.rs:139-144 | `len` king tokens give `len` positions |
| BoardCodec.Decode | xiangqi/src/types/board.rs:116-151 | a parsed board is well formed, and its grid is the one read from the 90 cell tokens, all of which are valid; a successful parse has found a `/` after the cells and read the count before it as an `i32`; text shorter than 180 characters is rejected |
| BoardCodec.BoardToString | xiangqi/src/types/board.rs:91-113 | the serialiser's nested loops and the kings loop build exactly `Encode` of the board's value |
| BoardCodec.ParseCells | xiangqi/src/types/board.rs:119-128 | the cell loop succeeds exactly when all 90 tokens are present and valid, and then builds `DecodeGrid` |
| BoardCodec.ReadCount | xiangqi/src/types/board.rs:129-137 | the loop up to `/` fails exactly when no `/` is left, and otherwise returns the text up to the first `/` and the index after it |
| BoardCodec.ParseKings | xiangqi/src/types/board.rs:139-144 | the king loop succeeds exactly when enough characters remain, and then builds `DecodeKings` |
| BoardCodec.ParseBoard | xiangqi/src/types/board.rs:116-151 | the iterator-consuming parser computes exactly `Decode` |
| BoardCodec.DecimalValue | xiangqi/src/types/board.rs:101 | the digits of `to_string(n)` have value `n` |
| BoardCodec.ParseDecimal | xiangqi/src/types/board.rs:138 | a count the serialiser writes parses back to the same count, for counts in the `i32` range |
| BoardCodec.EncodeRowAt | xiangqi/src/types/board.rs:94-99 | cell `f` of a rank sits at characters `2f, 2f+1` of that rank's text |
| BoardCodec.EncodeRowsLength | xiangqi/src/types/board.rs:94-100 | nine-cell ranks take 18 characters each |
| BoardCodec.EncodeRowsAt | xiangqi/src/types/board.rs:94-100 | cell `(r, f)` sits at characters `18r+2f, 18r+2f+1` |
| BoardCodec.EncodeKingsAt | xiangqi/src/types/board.rs:103-110 | king `k` sits at characters `2k, 2k+1` of the kings text |
| BoardCodec.FindSlashSkip | xiangqi/src/types/board.rs:129-137 | skipping characters that are not `/` does not move the first `/` |
| BoardCodec.EncodeLength | xiangqi/src/types/board.rs:91-113 | the text is 180 cell characters, the count's digits, `/`, two per king and the turn; with two kings it is 187 characters |
| BoardCodec.EncodeLayout | xiangqi/src/types/board.rs:91-113 | the order of the parts in the text: cell tokens, count, `/`, king tokens, turn character |
| BoardCodec.DecodeGridOfEncode | xiangqi/src/types/board.rs:119-128 | the cell tokens of a written board parse back to its grid, both as kind and as stored colour |
| BoardCodec.DecodeKingsAt | xiangqi/src/types/board.rs:139-144 | king tokens written by the serialiser read back as the same kings for coordinates in 0..255 |
| BoardCodec.DecodeKingsOfEncode | xiangqi/src/types/board.rs:139-144 | the king tokens of a written board parse back to its kings table |
| BoardCodec.KingsSliceOfEncode | xiangqi/src/types/board.rs:103-110 | the kings text sits right after the `/` |
| BoardCodec.CountOfEncode | xiangqi/src/types/board.rs:129-138 | the first `/` after the cells of a written board ends exactly the written count |
| BoardCodec.TurnOfEncode | xiangqi/src/types/board.rs:111 | the last character of the text is the turn, right after the king tokens |
| BoardCodec.DecodeEncode | xiangqi/src/types/board.rs:91-151 | parsing the text of a board gives back every cell, the kings table and the turn, when its king coordinates are in 0..255 and the count fits an `i32` |
| BoardCodec.DecodeTruncated | xiangqi/src/types/board.rs:122-145 | every proper prefix of a written board is rejected: the parser runs out of input |
| BoardCodec.BadCountRejected | xiangqi/src/types/board.rs:129-138 | a count holding a non-digit (other than a leading sign before digits) is rejected |
| BoardCodec.EmptyCountRejected | xiangqi/src/types/board.rs:138 | an empty count (a `/` right after the cells) is rejected |
| BoardCodec.DecodeParts | xiangqi/src/types/board.rs:139-150 | once the cells, the `/` and the count are read, the parse succeeds exactly when the character after the king tokens is `r` or `b`; the kings are then the king tokens as read, whatever their characters, and the turn is that character's colour |
| BoardCodec.BadTurnRejected | xiangqi/src/types/board.rs:145 | a missing or invalid turn character is rejected |
| BoardCodec.DecodeIgnoresTail | xiangqi/src/types/board.rs:145-150 | characters after the turn character do not change a successful parse |
| BoardCodec.DecodeKingsExtend | xiangqi/src/types/board.rs:139-144 | appending text does not change the king tokens already read |
| BoardResource.BoardInfo.Init | xiangqi/src/resources/board.rs:20-22 | `init_board` installs the opening board |
| BoardResource.BoardInfo.Se | xiangqi/src/resources/board.rs:9-11 | `se` is the text form of the held board |
| BoardResource.BoardInfo.De | xiangqi/src/resources/board.rs:13-17 | on a successful parse a new board holding the parsed value is adopted; on an error the held board object and its value are kept |
| BoardResource.BoardInfo.StartGame | xiangqi/src/resources/board.rs:24-26 | `start_game` installs a new opening board |
| BoardResource.SeThenDe | xiangqi/src/resources/board.rs:9-16 | `de(se())` leaves the held board's value unchanged when its king coordinates are in 0..255 |
| Connect.Connection.Init | xiangqi/src/resources/connect.rs:8-12 | the default connection has an empty URL, room 0 and no player |
| Connect.Connection.IsConnected | xiangqi/src/resources/connect.rs:14-18 | connected exactly when the relay has assigned a player |
| Moves.KeptStep | xiangqi/src/resources/moves.rs:44-47 | trying one more destination keeps it exactly when its forced board is not in check |
| Moves.KeptAll | xiangqi/src/resources/moves.rs:40-47 | once every reachable destination is tried, the kept set is the legal set of the square |
| Moves.WithEntryInsert | xiangqi/src/resources/moves.rs:46 | `entry(pos).or_default().insert(to)` extends the square's kept set by `to` |
| Moves.TryDestination | xiangqi/src/resources/moves.rs:41-47 | one speculation on a clone inserts `to` when and only when the forced board is not in check |
| Moves.RecordDestinations | xiangqi/src/resources/moves.rs:39-49 | after the loop over `reachable`, the square has an entry exactly when some destination is kept, and that entry is its full legal set |
| Moves.SquareIndexUnique | xiangqi/src/resources/moves.rs:35-37 | two on-board squares with the same rank-major index are the same square |
| Moves.TableFresh | xiangqi/src/resources/moves.rs:35-38 | the square being visited has no entry yet |
| Moves.TableSkip | xiangqi/src/resources/moves.rs:38 | a square without a piece of the side to move adds nothing |
| Moves.TableAdd | xiangqi/src/resources/moves.rs:38-50 | a square of the side to move adds exactly its legal set, when that set is non-empty |
| Moves.TableComplete | xiangqi/src/resources/moves.rs:35-53 | the table after all 90 squares is the move table of the board |
| Moves.ComputeMoves | xiangqi/src/resources/moves.rs:33-54 | the map built has a key exactly for the squares of the side to move with at least one kept destination, each mapped to exactly its kept destinations |
| Moves.MovesTable.Init | xiangqi/src/resources/moves.rs:23-25 | the table starts empty |
| Moves.MovesTable.ListenUpdate | xiangqi/src/resources/moves.rs:27-57 | without update events the table is kept; with any, it becomes the move table of the held board, which is not modified because speculation runs on clones |
| Moves.MoveTableSound | xiangqi/src/resources/moves.rs:39-46 | every recorded destination is reachable and on the board, starts from a square of the side to move, and leaves the forced board out of check |
| Moves.MoveTableComplete | xiangqi/src/resources/moves.rs:40-47 | every reachable destination whose forced board is not in check is recorded |
| Moves.VerifyMove | xiangqi/src/resources/moves.rs:66-95 | no move is sent when the client is not connected, when it is not the player's turn, when a square is off the board, or when the table lacks the move (a missing key counts as no moves); otherwise the same move is sent |
| Moves.VerifyMoveAgainstTable | xiangqi/src/resources/moves.rs:68-93 | against the board's move table, a move passes exactly when it is the player's turn, both squares are on the board, and it is a reachable move of the side to move that leaves the board out of check |
| Moves.DoMove | xiangqi/src/resources/moves.rs:105-115 | the board becomes `next_turn(force(from, to))`; with a player, the play request carries the room, the player's bit and the text of that new board; without one there is no request, where the source's `unwrap` panics after the board has changed |
| Moves.DoMoveKeepsSync | xiangqi/src/resources/moves.rs:106-107 | a move taken from the move table that does not land on a king keeps the kings table in step with the grid |
| Relay.Mailbox | server/src/main.rs:35-41 | player `true` reads the `right` mailbox, and player `false` reads `left` |
| Relay.WithMailbox | server/src/main.rs:35-41 | replacing one player's mailbox leaves the other mailbox, the status and the timestamp alone |
| Relay.MailboxRoundTrip | server/src/main.rs:35-41 | writing back the mailbox just read changes nothing, and of two writes to one mailbox the second wins |
| Relay.Expired | server/src/main.rs:47-51 | a room is expired exactly when more than 20 s (in nanoseconds) have passed since its last activity |
| Relay.ExpiryBoundary | server/src/main.rs:47-51 | the bound is strict: a room idle for exactly 20 s is not expired, one idle a nanosecond longer is, and none is expired within 20 s of its last activity |
| Relay.ConnectStep | server/src/main.rs:57-97 | an unseen id gets a room in `One(coin)` with empty mailboxes and the answer `(!coin, ok)`; a `One(p)` room answers `(p, ok)` and becomes Full; a Full room answers Conflict with the default response and stays Full; the timestamp is refreshed in every case and other rooms are untouched |
| Relay.PlayStep | server/src/main.rs:99-113 | on an existing room the board joins the back of the opponent's mailbox, the mover's mailbox and the pairing status stay, the timestamp is refreshed and the answer is Accepted; a missing room leaves the table unchanged and answers ServiceUnavailable; other rooms are untouched |
| Relay.QueryStep | server/src/main.rs:115-127 | on an existing room the front of the caller's own mailbox is taken and returned (None when it is empty), the other mailbox and status stay and the timestamp is refreshed; a missing room leaves the table unchanged and answers None |
| Relay.Swept | server/src/main.rs:140-149 | one sweep removes exactly the rooms that have been idle for strictly more than 20 s and keeps every other room unchanged |
| Relay.Disconnected | server/src/main.rs:129-133 | `disconnect` removes the room whatever its state, and leaves every other room as it was |
| Relay.Games.Init | server/src/main.rs:137 | the room table starts empty |
| Relay.Games.Connect | server/src/main.rs:57-97 | the `connect` handler changes the table and answers as `ConnectStep` |
| Relay.Games.Play | server/src/main.rs:99-113 | the `play` handler changes the table and answers as `PlayStep` |
| Relay.Games.Query | server/src/main.rs:115-127 | the `query` handler changes the table and answers as `QueryStep` |
| Relay.Games.Disconnect | server/src/main.rs:129-133 | the `disconnect` handler changes the table as `Disconnected` |
| Relay.Games.Sweep | server/src/main.rs:141-149 | collecting the expired ids and then removing them one by one leaves exactly `Swept` |
| Relay.Pairing | server/src/main.rs:62-95 | the first two connects to a fresh id are accepted with opposite player bits; a third gets Conflict with `(false, false)`, and the room stays Full with a refreshed timestamp |
| Relay.PlayAllAppends | server/src/main.rs:99-113 | a run of plays appends the boards, in order, to the opponent's mailbox and leaves the mover's alone |
| Relay.QueryAllTakes | server/src/main.rs:115-127 | `n` queries return the first `n` boards of the caller's mailbox in order and leave the rest |
| Relay.Fifo | server/src/main.rs:99-127 | `n` plays by one player, then `n` queries by the other, return the boards in the order they were played |
| Relay.DisconnectIdempotent | server/src/main.rs:129-133 | a second `disconnect` of a room changes nothing, and disconnecting a missing room leaves the table as it is |
| Relay.SweepIdempotent | server/src/main.rs:140-149 | a second sweep at the same time removes nothing |
| Relay.FreshRoomSurvives | server/src/main.rs:43-51 | a room that `connect`, `play` or `query` has just touched is not expired, and survives a sweep at that time |
| WinLose.GameJustStarted.Init | xiangqi/src/components/win_lose.rs:9-13 | `GameJustStarted` defaults to true |
| WinLose.Banner | xiangqi/src/components/win_lose.rs:27-32 | a banner is shown exactly when the flag is clear, no banner exists and the move table is empty; it reads "You Lose!" exactly when the side to move is the player's colour, and "You Win!" otherwise |
| WinLose.ListenWinLose | xiangqi/src/components/win_lose.rs:15-51 | without a player nothing is spawned; with one, each update event spawns the banner that `Banner` chooses and nothing else; the flag is false afterwards in every case |
| WinLose.NoBannerAtStart | xiangqi/src/components/win_lose.rs:9-27 | the first update of a new game never shows a banner |
| Control.ClickStep | xiangqi/src/resources/control.rs:18-42 | with no player or no mapped square nothing changes; a right click clears the selection and wins over a left click; a left click with no selection records the square; a left click with a selection sends exactly one move from it to the square and clears it |
| Control.PrevClick.Init | xiangqi/src/resources/control.rs:3-8 | nothing is selected at first |
| Control.PrevClick.ListenClick | xiangqi/src/resources/control.rs:10-42 | the selection and the request sent follow `ClickStep` |
| Control.ListenEndGame | xiangqi/src/resources/control.rs:44-48 | Escape drops the player; otherwise the connection is unchanged; the URL and room are never touched |
| Control.TwoClicksMove | xiangqi/src/resources/control.rs:29-38 | two left clicks from an empty selection send one move, from the first square to the second, and clear the selection |
| Menu.DefaultMenuTarget | xiangqi/src/menu/content.rs:12-19 | the default contents are the URL `http://127.0.0.1:8082` and the room code `example-room-code`, and that code hashes to room 7578366259321564504, so launching from the defaults connects there |
| Menu.HashStep | xiangqi/src/menu/content.rs:57-62 | one wrapping step of the hash loop keeps `value` and `base` equal to the exact sums reduced mod 2^64 |
| Menu.RoomHash | xiangqi/src/menu/content.rs:55-62 | after the code's characters, `value` is the sum of `c_i * 131^i` mod 2^64 and `base` is `131^k` mod 2^64 |
| Menu.EmptyCodeHash | xiangqi/src/menu/content.rs:55-63 | the empty code hashes to room 0 |
| Menu.OneCharHash | xiangqi/src/menu/content.rs:57-60 | a one-character code hashes to that character's code point |
| Menu.LaunchGame | xiangqi/src/menu/content.rs:53-65 | for each launch event the URL is copied and the room is set to the hash of the code; the player is left alone; one connect event is sent per launch |
| Menu.BootGame | xiangqi/src/menu/content.rs:73-77 | once a player is assigned, the flag is re-armed and the state switches to Play; otherwise nothing changes |

## Left out

- `Board::reachable`, `Board::is_check` and `Position::legal` are not part of this model, and
  no movement rules are invented. They are the parameters of `Moves.Rules`, and
  `Moves.Applicable` states what the pipeline needs of them: destinations on the board, and a
  kings entry for every king of the side to move.
- The `PieceColor` to `bool` conversion is not part of this model. It is the `colorBit`
  parameter of `Moves.DoMove`.
- `Board::turn` and `Piece::kind` are read as fields.
- `TryFrom<&str> for Board`, which `BoardInfo::de` goes through, is modelled as the
  `TryFrom<String>` parser.
- Concurrency is left out: the relay's `RwLock`, the sweep thread and its 20-second `sleep`,
  and the threadpool and `Arc` merge of `listen_update`. Each handler is one atomic step, and
  the move table is built by sequential loops.
- The lock is left out of the sweep. Another handler could refresh a room between the
  collection pass and the removals, and that room would still be removed. The model has no
  such interleaving.
- Relay.Games.Sweep: the source reads the clock again for every room. The model uses one
  `now` for the whole pass, and requires every timestamp to be at most `now`, because the
  source's `Duration` subtraction panics otherwise.
- The wall clock is a `nat` parameter in nanoseconds since the Unix epoch. `rand::random`
  in `RoomStatus::default()` is the `coin` parameter.
- Rocket routing, JSON encoding and status wrapping are left out; the model keeps only the
  returned values and statuses.
- The client's HTTP requests and the polling timer of xiangqi/src/resources/query.rs are left
  out. Its `respond_moves` unwraps the parse instead of going through `de`, so a malformed
  board from the relay panics there. That path is not modelled.
- The event queues are modelled as counts of pending events. The events a system sends are
  returned values: the move request of `listen_click`, the move of `verify_move`, the play
  request of `do_move` (without the HTTP request), and the number of connect events of
  `launch_game`. `UpdateEvent` sends are not modelled.
- `locate_position`, sprites, camera, fonts and images are left out, and so is all
  floating-point rendering. The clicked square is passed to `Control.PrevClick.ListenClick`
  as an `Option<Position>`.
- The spawned banner entity is left out. Whether a banner is already on screen is the
  `bannerShown` parameter, and whether the move table is empty is `movesEmpty`.
- `Connection` in xiangqi/src/resources/connect.rs declares only `url` and `player`. The model
  adds a `room` field, because xiangqi/src/menu/content.rs writes `connect.room` and
  xiangqi/src/resources/moves.rs reads it.
- The egui menu, the plugin wiring and the `Status` state machine are left out. Only the
  `Play` target of `boot_game` is kept.
- Pieces.Plus, Pieces.Neg, Pieces.Minus: use unbounded integers, so `isize` overflow (a panic
  in debug builds) is not modelled.
- Pieces.DigitChar, Pieces.CharDigit: model the `u8` arithmetic as wrapping, the release-build
  behaviour. A debug build panics on overflow instead.
- Pieces.PositionFromString: requires two characters; the source panics on fewer. Only
  `DecodeKings` calls it, and always with two.
- Moves.DoMove: requires both squares on the board and, for a king, its kings entry, as
  `force` does; the source panics otherwise. A missing player is not excluded: the board still
  changes and no request is built.
- Boards.Board.Force: requires both squares on the board and, for a king, its kings entry.
  Otherwise the source panics.
- Boards.Board.Get: requires the square to be on the board; the source's index panics
  otherwise. Its callers, the encoder's grid walk and the move-table loop, pass only on-board
  squares.
- BoardCodec.ParseI32: reads the count as the `i32` that Rust infers for it. A negative
  count gives an empty `0..len` range, so no kings are read.
