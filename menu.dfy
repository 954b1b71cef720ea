/** The connection menu (xiangqi/src/menu/content.rs): its default contents, the room-code hash
    that turns the typed code into a `RoomId`, and the switch into play. */
module Menu {
  import opened Prelude
  import opened Transfer
  import opened Connect
  import opened WinLose

  datatype MenuContents = MenuContents(url: string, room: string)

  /** `MenuContents::default()`. */
  const DEFAULT_MENU: MenuContents := MenuContents("http://127.0.0.1:8082", "example-room-code")

  /** The multiplier of the room-code hash. */
  const HASH_BASE: nat := 131

  /** The application state of status/states.rs. */
  datatype AppState = MenuState | PlayState

  function Pow(b: nat, n: nat): nat {
    if n == 0 then 1 else Pow(b, n - 1) * b
  }

  /** The exact sum of `c_i * 131^i` over the characters of `s`, each taken as its Unicode
      scalar value (`c as u32 as u64`). */
  function PolySum(s: string): nat {
    if s == [] then 0 else PolySum(s[..|s| - 1]) + (s[|s| - 1] as nat) * Pow(HASH_BASE, |s| - 1)
  }

  /** `u64` wrapping: reducing before an addition does not change the reduced sum. */
  lemma ModAdd(a: int, b: int)
    ensures (a % 0x1_0000_0000_0000_0000 + b % 0x1_0000_0000_0000_0000) % 0x1_0000_0000_0000_0000
      == (a + b) % 0x1_0000_0000_0000_0000
  {
  }

  /** `u64` wrapping: reducing a factor before a multiplication does not change the reduced
      product. */
  lemma ModMul(c: nat, p: nat)
    ensures (c * (p % 0x1_0000_0000_0000_0000)) % 0x1_0000_0000_0000_0000
      == (c * p) % 0x1_0000_0000_0000_0000
  {
    var q := p / 0x1_0000_0000_0000_0000;
    var r := p % 0x1_0000_0000_0000_0000;
    var x := c * q;
    assert c * p == x * 0x1_0000_0000_0000_0000 + c * r;
  }

  lemma PolySumSnoc(s: string, i: nat)
    requires i < |s|
    ensures PolySum(s[..i + 1]) == PolySum(s[..i]) + (s[i] as nat) * Pow(HASH_BASE, i)
  {
    assert s[..i + 1][..i] == s[..i];
  }

  /** One iteration of the hash loop keeps both accumulators equal to the reduced exact values. */
  lemma HashStep(s: string, i: nat, value: nat, base: nat)
    requires i < |s|
    requires value == PolySum(s[..i]) % U64 && base == Pow(HASH_BASE, i) % U64
    ensures (value + ((s[i] as nat) * base) % U64) % U64 == PolySum(s[..i + 1]) % U64
    ensures (base * HASH_BASE) % U64 == Pow(HASH_BASE, i + 1) % U64
  {
    var c := s[i] as nat;
    var p := Pow(HASH_BASE, i);
    PolySumSnoc(s, i);
    ModMul(c, p);
    ModAdd(PolySum(s[..i]), c * p);
    ModMul(HASH_BASE, p);
    assert base * HASH_BASE == HASH_BASE * base;
    assert Pow(HASH_BASE, i + 1) == HASH_BASE * p;
  }

  /** The loop of `launch_game`: `value` and `base` as `u64`s, every addition and
      multiplication wrapping. */
  method RoomHash(room: string) returns (value: RoomId, base: nat)
    ensures value == PolySum(room) % U64
    ensures base == Pow(HASH_BASE, |room|) % U64
  {
    value := 0;
    base := 1;
    for i := 0 to |room|
      invariant value == PolySum(room[..i]) % U64
      invariant base == Pow(HASH_BASE, i) % U64
    {
      HashStep(room, i, value, base);
      value := (value + ((room[i] as nat) * base) % U64) % U64;
      base := (base * HASH_BASE) % U64;
    }
    assert room[..|room|] == room;
  }

  /** The empty code hashes to room 0. */
  lemma EmptyCodeHash()
    ensures PolySum("") % U64 == 0
  {
  }

  /** A one-character code hashes to that character's code point. */
  lemma OneCharHash(c: char)
    ensures PolySum([c]) % U64 == c as nat
  {
    assert [c][..0] == [];
  }

  /** The powers of the hash base that a 17-character code uses. */
  lemma BasePowers()
    ensures Pow(HASH_BASE, 0) == 1
    ensures Pow(HASH_BASE, 1) == 131
    ensures Pow(HASH_BASE, 2) == 17161
    ensures Pow(HASH_BASE, 3) == 2248091
    ensures Pow(HASH_BASE, 4) == 294499921
    ensures Pow(HASH_BASE, 5) == 38579489651
    ensures Pow(HASH_BASE, 6) == 5053913144281
    ensures Pow(HASH_BASE, 7) == 662062621900811
    ensures Pow(HASH_BASE, 8) == 86730203469006241
    ensures Pow(HASH_BASE, 9) == 11361656654439817571
    ensures Pow(HASH_BASE, 10) == 1488377021731616101801
    ensures Pow(HASH_BASE, 11) == 194977389846841709335931
    ensures Pow(HASH_BASE, 12) == 25542038069936263923006961
    ensures Pow(HASH_BASE, 13) == 3346006987161650573913911891
    ensures Pow(HASH_BASE, 14) == 438326915318176225182722457721
    ensures Pow(HASH_BASE, 15) == 57420825906681085498936641961451
    ensures Pow(HASH_BASE, 16) == 7522128193775222200360700096950081
  {
    assert Pow(HASH_BASE, 1) == 131;
    assert Pow(HASH_BASE, 2) == 17161;
    assert Pow(HASH_BASE, 3) == 2248091;
    assert Pow(HASH_BASE, 4) == 294499921;
    assert Pow(HASH_BASE, 5) == 38579489651;
    assert Pow(HASH_BASE, 6) == 5053913144281;
    assert Pow(HASH_BASE, 7) == 662062621900811;
    assert Pow(HASH_BASE, 8) == 86730203469006241;
    assert Pow(HASH_BASE, 9) == 11361656654439817571;
    assert Pow(HASH_BASE, 10) == 1488377021731616101801;
    assert Pow(HASH_BASE, 11) == 194977389846841709335931;
    assert Pow(HASH_BASE, 12) == 25542038069936263923006961;
    assert Pow(HASH_BASE, 13) == 3346006987161650573913911891;
    assert Pow(HASH_BASE, 14) == 438326915318176225182722457721;
    assert Pow(HASH_BASE, 15) == 57420825906681085498936641961451;
    assert Pow(HASH_BASE, 16) == 7522128193775222200360700096950081;
  }

  /** The hash sums of the prefixes of the default room code, a few characters at a time. */
  lemma DefaultCodeHead()
    ensures PolySum("example-room-code"[..6]) == 4199815595817
  {
    var s := "example-room-code";
    assert s[..0] == [];
    BasePowers();
    assert PolySum(s[..1]) == 101 by { PolySumSnoc(s, 0); assert s[0] == 'e'; }
    assert PolySum(s[..2]) == 15821 by { PolySumSnoc(s, 1); assert s[1] == 'x'; }
    assert PolySum(s[..3]) == 1680438 by { PolySumSnoc(s, 2); assert s[2] == 'a'; }
    assert PolySum(s[..4]) == 246722357 by { PolySumSnoc(s, 3); assert s[3] == 'm'; }
    assert PolySum(s[..5]) == 33230713509 by { PolySumSnoc(s, 4); assert s[4] == 'p'; }
    assert PolySum(s[..6]) == 4199815595817 by { PolySumSnoc(s, 5); assert s[5] == 'l'; }
  }

  lemma DefaultCodeMiddle()
    requires PolySum("example-room-code"[..6]) == 4199815595817
    ensures PolySum("example-room-code"[..12]) == 21419016404157257020082938
  {
    var s := "example-room-code";
    BasePowers();
    assert PolySum(s[..7]) == 514645043168198 by { PolySumSnoc(s, 6); assert s[6] == 'e'; }
    assert PolySum(s[..8]) == 30307463028704693 by { PolySumSnoc(s, 7); assert s[7] == '-'; }
    assert PolySum(s[..9]) == 9917550658495416167 by { PolySumSnoc(s, 8); assert s[8] == 'r'; }
    assert PolySum(s[..10]) == 1271061439301315166548 by { PolySumSnoc(s, 9); assert s[9] == 'o'; }
    assert PolySum(s[..11]) == 166480910851510702466459 by { PolySumSnoc(s, 10); assert s[10] == 'o'; }
    assert PolySum(s[..12]) == 21419016404157257020082938 by { PolySumSnoc(s, 11); assert s[11] == 'm'; }
  }

  lemma DefaultCodeTail()
    requires PolySum("example-room-code"[..12]) == 21419016404157257020082938
    ensures PolySum("example-room-code"[..17]) == 765526016875068326902015607213583704
  {
    var s := "example-room-code";
    BasePowers();
    assert PolySum(s[..13]) == 1170810729551289133555396183 by { PolySumSnoc(s, 12); assert s[12] == '-'; }
    assert PolySum(s[..14]) == 332425502458554695951032673392 by { PolySumSnoc(s, 13); assert s[13] == 'c'; }
    assert PolySum(s[..15]) == 48986713102776115691233225480423 by { PolySumSnoc(s, 14); assert s[14] == 'o'; }
    assert PolySum(s[..16]) == 5791069303770884665584897421625523 by { PolySumSnoc(s, 15); assert s[15] == 'd'; }
    assert PolySum(s[..17]) == 765526016875068326902015607213583704 by { PolySumSnoc(s, 16); assert s[16] == 'e'; }
  }

  /** Launching from the default contents connects to the server at `http://127.0.0.1:8082`,
      in the room that the code `example-room-code` hashes to. */
  lemma DefaultMenuTarget()
    ensures DEFAULT_MENU.url == "http://127.0.0.1:8082"
    ensures DEFAULT_MENU.room == "example-room-code"
    ensures PolySum(DEFAULT_MENU.room) % U64 == 7578366259321564504
  {
    DefaultCodeHead();
    DefaultCodeMiddle();
    DefaultCodeTail();
    assert "example-room-code"[..17] == DEFAULT_MENU.room;
  }

  /** `launch_game`: for each launch event, copy the URL and set the room to the hash of the
      code; the player assignment is left alone. Returns the number of connect events sent. */
  method LaunchGame(contents: MenuContents, conn: Connection, events: nat) returns (connects: nat)
    modifies conn
    ensures connects == events
    ensures conn.player == old(conn.player)
    ensures events == 0 ==> conn.url == old(conn.url) && conn.room == old(conn.room)
    ensures events > 0 ==> conn.url == contents.url && conn.room == PolySum(contents.room) % U64
  {
    connects := 0;
    for k := 0 to events
      invariant connects == k
      invariant conn.player == old(conn.player)
      invariant k == 0 ==> conn.url == old(conn.url) && conn.room == old(conn.room)
      invariant k > 0 ==> conn.url == contents.url && conn.room == PolySum(contents.room) % U64
    {
      conn.url := contents.url;
      var value, _ := RoomHash(contents.room);
      conn.room := value;
      connects := connects + 1;
    }
  }

  /** `boot_game`: once the server has assigned a player, re-arm `GameJustStarted` and switch to
      the Play state; otherwise do nothing. */
  method BootGame(conn: Connection, flag: GameJustStarted) returns (next: Option<AppState>)
    modifies flag
    ensures conn.player.Some? ==> flag.started && next == Some(PlayState)
    ensures conn.player.None? ==> flag.started == old(flag.started) && next == None
  {
    next := None;
    if conn.player.Some? {
      flag.started := true;
      next := Some(PlayState);
    }
  }
}
