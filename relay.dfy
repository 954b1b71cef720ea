/** The relay server's room table (server/src/main.rs): rooms pair two players, hold one FIFO
    mailbox of board texts per player, and expire after 20 seconds without activity. Each
    handler is one atomic step on the table; the clock reading and the coin flip of
    `RoomStatus::default()` are parameters. */
module Relay {
  import opened Prelude
  import opened Transfer

  /** `EXPIRE`, 20 seconds, in nanoseconds: timestamps are `Duration`s since the Unix epoch. */
  const EXPIRE: nat := 20_000_000_000

  /** Which player bit the next joiner gets, or Full once two have joined. */
  datatype RoomStatus = One(player: bool) | Full

  /** `left` is the mailbox of player `false`, `right` that of player `true`. */
  datatype Room = Room(next: RoomStatus, left: seq<string>, right: seq<string>, last: nat)

  /** The HTTP status a handler answers with. */
  datatype Status = Success | Accepted | Conflict | ServiceUnavailable

  type Table = map<RoomId, Room>

  /** `Room::get`, read side: player `true` reads `right`, player `false` reads `left`. */
  function Mailbox(room: Room, player: bool): (q: seq<string>)
    ensures player ==> q == room.right
    ensures !player ==> q == room.left
  {
    if player then room.right else room.left
  }

  /** `Room::get`, write side: the room with the mailbox of `player` replaced. */
  function WithMailbox(room: Room, player: bool, q: seq<string>): (r: Room)
    ensures Mailbox(r, player) == q && Mailbox(r, !player) == Mailbox(room, !player)
    ensures r.next == room.next && r.last == room.last
  {
    if player then room.(right := q) else room.(left := q)
  }

  /** `Room::is_expired`: strictly more than `EXPIRE` since the last activity. The source
      subtracts `Duration`s, which panics when `last` is later than `now`. */
  function Expired(room: Room, now: nat): (e: bool)
    requires room.last <= now
    ensures e <==> room.last + EXPIRE < now
  {
    now - room.last > EXPIRE
  }

  /** Writing back the mailbox just read changes nothing, and of two writes to one mailbox the
      second wins. */
  lemma MailboxRoundTrip(room: Room, player: bool, q1: seq<string>, q2: seq<string>)
    ensures WithMailbox(room, player, Mailbox(room, player)) == room
    ensures WithMailbox(WithMailbox(room, player, q1), player, q2) == WithMailbox(room, player, q2)
  {
  }

  /** The bound is strict: a room idle for exactly 20 seconds is kept, one idle a nanosecond
      longer is expired. */
  lemma ExpiryBoundary(room: Room, t: nat)
    ensures !Expired(room.(last := t), t + EXPIRE)
    ensures Expired(room.(last := t), t + EXPIRE + 1)
    ensures forall now :: t <= now <= t + EXPIRE ==> !Expired(room.(last := t), now)
  {
  }

  // ---------------------------------------------------------------- handlers as values

  datatype Connected = Connected(rooms: Table, status: Status, response: ConnectResponse)

  /** What `connect` does to the table and answers. */
  function ConnectStep(rooms: Table, id: RoomId, now: nat, coin: bool): (c: Connected)
    ensures id in c.rooms && c.rooms[id].last == now
    ensures forall other :: other != id ==> (other in c.rooms <==> other in rooms)
    ensures forall other :: other != id && other in rooms ==> c.rooms[other] == rooms[other]
    ensures id !in rooms ==> c.rooms[id] == Room(One(coin), [], [], now)
    ensures id !in rooms ==> c.status == Success && c.response == ConnectResponse(!coin, true)
    ensures id in rooms ==> c.rooms[id] == rooms[id].(next := Full, last := now)
    ensures id in rooms && rooms[id].next.One? ==>
      c.status == Success && c.response == ConnectResponse(rooms[id].next.player, true)
    ensures id in rooms && rooms[id].next.Full? ==>
      c.status == Conflict && c.response == DEFAULT_CONNECT_RESPONSE
  {
    if id in rooms then
      var room := rooms[id];
      var table := rooms[id := room.(next := Full, last := now)];
      match room.next
      case One(player) => Connected(table, Success, ConnectResponse(player, true))
      case Full => Connected(table, Conflict, DEFAULT_CONNECT_RESPONSE)
    else
      Connected(rooms[id := Room(One(coin), [], [], now)], Success, ConnectResponse(!coin, true))
  }

  datatype Played = Played(rooms: Table, status: Status)

  /** What `play` does: the board goes to the back of the opponent's mailbox. */
  function PlayStep(rooms: Table, id: RoomId, player: bool, board: string, now: nat): (p: Played)
    ensures id !in rooms ==> p == Played(rooms, ServiceUnavailable)
    ensures id in rooms ==> p.status == Accepted && id in p.rooms
    ensures id in rooms ==>
      && Mailbox(p.rooms[id], !player) == Mailbox(rooms[id], !player) + [board]
      && Mailbox(p.rooms[id], player) == Mailbox(rooms[id], player)
      && p.rooms[id].next == rooms[id].next && p.rooms[id].last == now
    ensures id in rooms ==> p.rooms.Keys == rooms.Keys
    ensures forall other :: other != id && other in rooms ==> p.rooms[other] == rooms[other]
  {
    if id in rooms then
      var room := rooms[id].(last := now);
      var opponent := !player;
      Played(rooms[id := WithMailbox(room, opponent, Mailbox(room, opponent) + [board])], Accepted)
    else
      Played(rooms, ServiceUnavailable)
  }

  datatype Queried = Queried(rooms: Table, response: QueryResponse)

  /** What `query` does: the front of the caller's own mailbox is taken, if there is one. */
  function QueryStep(rooms: Table, id: RoomId, player: bool, now: nat): (q: Queried)
    ensures id !in rooms ==> q == Queried(rooms, QueryResponse(None))
    ensures id in rooms ==> q.rooms.Keys == rooms.Keys
    ensures id in rooms && Mailbox(rooms[id], player) == [] ==>
      q.response == QueryResponse(None) && Mailbox(q.rooms[id], player) == []
    ensures id in rooms && Mailbox(rooms[id], player) != [] ==>
      && q.response == QueryResponse(Some(Mailbox(rooms[id], player)[0]))
      && Mailbox(q.rooms[id], player) == Mailbox(rooms[id], player)[1..]
    ensures id in rooms ==>
      && Mailbox(q.rooms[id], !player) == Mailbox(rooms[id], !player)
      && q.rooms[id].next == rooms[id].next && q.rooms[id].last == now
    ensures forall other :: other != id && other in rooms ==> q.rooms[other] == rooms[other]
  {
    if id in rooms then
      var room := rooms[id].(last := now);
      var box := Mailbox(room, player);
      if box == [] then Queried(rooms[id := room], QueryResponse(None))
      else Queried(rooms[id := WithMailbox(room, player, box[1..])], QueryResponse(Some(box[0])))
    else
      Queried(rooms, QueryResponse(None))
  }

  /** What `disconnect` does: the room goes, whatever its state, and no other room changes. */
  function Disconnected(rooms: Table, id: RoomId): (r: Table)
    ensures id !in r
    ensures forall other :: other != id ==> (other in r <==> other in rooms)
    ensures forall other :: other != id && other in rooms ==> r[other] == rooms[other]
  {
    rooms - {id}
  }

  /** The table after one expiry sweep at time `now`. */
  function Swept(rooms: Table, now: nat): (r: Table)
    requires forall id :: id in rooms ==> rooms[id].last <= now
    ensures forall id :: id in r <==> id in rooms && !Expired(rooms[id], now)
    ensures forall id :: id in r ==> r[id] == rooms[id]
  {
    map id | id in rooms && !Expired(rooms[id], now) :: rooms[id]
  }

  // ---------------------------------------------------------------- the server state

  /** `Games`: the shared room table, without its lock. */
  class Games {
    var rooms: Table

    constructor Init()
      ensures rooms == map[]
    {
      rooms := map[];
    }

    /** The `connect` handler. */
    method Connect(id: RoomId, now: nat, coin: bool) returns (status: Status, response: ConnectResponse)
      modifies this
      ensures Connected(rooms, status, response) == ConnectStep(old(rooms), id, now, coin)
    {
      var answer: Option<ConnectResponse>;
      if id in rooms {
        var room := rooms[id];
        room := room.(last := now);
        match room.next {
          case One(player) =>
            answer := Some(ConnectResponse(player, true));
          case Full =>
            answer := None;
        }
        room := room.(next := Full);
        rooms := rooms[id := room];
      } else {
        var room := Room(One(coin), [], [], 0);
        room := room.(last := now);
        rooms := rooms[id := room];
        answer := Some(ConnectResponse(!room.next.player, true));
      }
      match answer {
        case Some(r) =>
          status, response := Success, r;
        case None =>
          status, response := Conflict, DEFAULT_CONNECT_RESPONSE;
      }
    }

    /** The `play` handler. Whether the room is paired is not checked. */
    method Play(id: RoomId, player: bool, board: string, now: nat) returns (status: Status)
      modifies this
      ensures Played(rooms, status) == PlayStep(old(rooms), id, player, board, now)
    {
      if id in rooms {
        var room := rooms[id].(last := now);
        var opponent := !player;
        room := WithMailbox(room, opponent, Mailbox(room, opponent) + [board]);
        rooms := rooms[id := room];
        status := Accepted;
      } else {
        status := ServiceUnavailable;
      }
    }

    /** The `query` handler. */
    method Query(id: RoomId, player: bool, now: nat) returns (response: QueryResponse)
      modifies this
      ensures Queried(rooms, response) == QueryStep(old(rooms), id, player, now)
    {
      var board: Option<string>;
      if id in rooms {
        var room := rooms[id].(last := now);
        var box := Mailbox(room, player);
        if box == [] {
          board := None;
        } else {
          board := Some(box[0]);
          room := WithMailbox(room, player, box[1..]);
        }
        rooms := rooms[id := room];
      } else {
        board := None;
      }
      response := QueryResponse(board);
    }

    /** The `disconnect` handler: the room goes, whatever its state. */
    method Disconnect(id: RoomId)
      modifies this
      ensures rooms == Disconnected(old(rooms), id)
    {
      rooms := rooms - {id};
    }

    /** One pass of the expiry thread: collect the expired ids, then remove them one by one. */
    method Sweep(now: nat)
      requires forall id :: id in rooms ==> rooms[id].last <= now
      modifies this
      ensures rooms == Swept(old(rooms), now)
    {
      var destruct: seq<RoomId> := [];
      var pending := rooms.Keys;
      while pending != {}
        invariant pending <= rooms.Keys
        invariant forall id :: id in destruct <==> id in rooms && id !in pending && Expired(rooms[id], now)
        decreases |pending|
      {
        var id :| id in pending;
        pending := pending - {id};
        if Expired(rooms[id], now) {
          destruct := destruct + [id];
        }
      }
      ghost var start := rooms;
      for k := 0 to |destruct|
        invariant forall id :: id in rooms <==> id in start && id !in destruct[..k]
        invariant forall id :: id in rooms ==> rooms[id] == start[id]
      {
        assert destruct[..k + 1] == destruct[..k] + [destruct[k]];
        rooms := rooms - {destruct[k]};
      }
      assert destruct[..|destruct|] == destruct;
    }
  }

  // ---------------------------------------------------------------- properties

  /** The first two connects to a fresh id are both accepted with opposite player bits; a third
      is refused with the default response, and the room stays Full. */
  lemma Pairing(rooms: Table, id: RoomId, t1: nat, t2: nat, t3: nat, c1: bool, c2: bool, c3: bool)
    requires id !in rooms
    ensures var a := ConnectStep(rooms, id, t1, c1);
      var b := ConnectStep(a.rooms, id, t2, c2);
      var c := ConnectStep(b.rooms, id, t3, c3);
      && a.response.ok && b.response.ok && a.response.player != b.response.player
      && c.status == Conflict && c.response == ConnectResponse(false, false)
      && c.rooms[id].next == Full && c.rooms[id].last == t3
  {
  }

  /** `play` by `player` on a sequence of boards, one after another. */
  function PlayAll(rooms: Table, id: RoomId, player: bool, boards: seq<string>, now: nat): Table
  {
    if boards == [] then rooms
    else PlayAll(PlayStep(rooms, id, player, boards[0], now).rooms, id, player, boards[1..], now)
  }

  /** `n` queries by `player`, one after another, and what they answered. */
  function QueryAll(rooms: Table, id: RoomId, player: bool, n: nat, now: nat): (Table, seq<Option<string>>)
  {
    if n == 0 then (rooms, [])
    else
      var q := QueryStep(rooms, id, player, now);
      var rest := QueryAll(q.rooms, id, player, n - 1, now);
      (rest.0, [q.response.board] + rest.1)
  }

  lemma {:induction false} PlayAllAppends(rooms: Table, id: RoomId, player: bool, boards: seq<string>, now: nat)
    requires id in rooms
    ensures var after := PlayAll(rooms, id, player, boards, now);
      && id in after
      && Mailbox(after[id], !player) == Mailbox(rooms[id], !player) + boards
      && Mailbox(after[id], player) == Mailbox(rooms[id], player)
    decreases |boards|
  {
    if boards != [] {
      var next := PlayStep(rooms, id, player, boards[0], now).rooms;
      PlayAllAppends(next, id, player, boards[1..], now);
      assert [boards[0]] + boards[1..] == boards;
    }
  }

  lemma {:induction false} QueryAllTakes(rooms: Table, id: RoomId, player: bool, n: nat, now: nat)
    requires id in rooms && n <= |Mailbox(rooms[id], player)|
    ensures var box := Mailbox(rooms[id], player);
      var r := QueryAll(rooms, id, player, n, now);
      && id in r.0 && Mailbox(r.0[id], player) == box[n..]
      && r.1 == seq(n, k requires 0 <= k < n => Some(box[k]))
    decreases n
  {
    if n > 0 {
      var box := Mailbox(rooms[id], player);
      var q := QueryStep(rooms, id, player, now);
      QueryAllTakes(q.rooms, id, player, n - 1, now);
      assert box[1..][n - 1..] == box[n..];
    }
  }

  /** FIFO: when the opponent's mailbox is empty, `n` plays followed by `n` queries from the
      other side return the boards in the order they were played. */
  lemma Fifo(rooms: Table, id: RoomId, player: bool, boards: seq<string>, now: nat)
    requires id in rooms && Mailbox(rooms[id], !player) == []
    ensures var r := QueryAll(PlayAll(rooms, id, player, boards, now), id, !player, |boards|, now);
      && r.1 == seq(|boards|, k requires 0 <= k < |boards| => Some(boards[k]))
      && id in r.0 && Mailbox(r.0[id], !player) == []
  {
    PlayAllAppends(rooms, id, player, boards, now);
    var after := PlayAll(rooms, id, player, boards, now);
    assert Mailbox(after[id], !player) == boards;
    QueryAllTakes(after, id, !player, |boards|, now);
  }

  /** A second `disconnect` of the same room changes nothing, and a `disconnect` of a room that
      does not exist leaves the table as it is. */
  lemma DisconnectIdempotent(rooms: Table, id: RoomId)
    ensures Disconnected(Disconnected(rooms, id), id) == Disconnected(rooms, id)
    ensures id !in rooms ==> Disconnected(rooms, id) == rooms
  {
  }

  /** Sweeping twice at the same time removes nothing more. */
  lemma SweepIdempotent(rooms: Table, now: nat)
    requires forall id :: id in rooms ==> rooms[id].last <= now
    ensures Swept(Swept(rooms, now), now) == Swept(rooms, now)
  {
  }

  /** A room any handler has just touched survives a sweep at that time. */
  lemma FreshRoomSurvives(rooms: Table, id: RoomId, player: bool, board: string, now: nat, coin: bool)
    requires forall other :: other in rooms ==> rooms[other].last <= now
    ensures var after := ConnectStep(rooms, id, now, coin).rooms; id in Swept(after, now)
    ensures id in rooms ==> var after := PlayStep(rooms, id, player, board, now).rooms; id in Swept(after, now)
    ensures id in rooms ==> var after := QueryStep(rooms, id, player, now).rooms; id in Swept(after, now)
  {
    var connected := ConnectStep(rooms, id, now, coin).rooms;
    assert !Expired(connected[id], now);
    if id in rooms {
      var played := PlayStep(rooms, id, player, board, now).rooms;
      assert !Expired(played[id], now);
      var queried := QueryStep(rooms, id, player, now).rooms;
      assert !Expired(queried[id], now);
    }
  }
}
