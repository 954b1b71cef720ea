/** The end-of-game banner (xiangqi/src/components/win_lose.rs). */
module WinLose {
  import opened Prelude
  import opened Pieces
  import opened Connect

  const LOSE_TEXT: string := "You Lose!"
  const WIN_TEXT: string := "You Win!"

  /** `GameJustStarted`: set while no update of the new game has been seen. */
  class GameJustStarted {
    var started: bool

    /** `GameJustStarted::default()`. */
    constructor Init()
      ensures started
    {
      started := true;
    }
  }

  /** The banner for one update event: only after the first update, only while no banner is on
      screen, and only when the side to move has no legal move; the side to move loses. */
  function Banner(started: bool, bannerShown: bool, movesEmpty: bool, turn: PieceColor, player: Player)
    : (r: Option<string>)
    ensures r.Some? <==> !started && !bannerShown && movesEmpty
    ensures r.Some? ==> (r.value == LOSE_TEXT <==> turn == player.color)
    ensures r.Some? ==> (r.value == WIN_TEXT <==> turn != player.color)
  {
    if !started && !bannerShown && movesEmpty then
      Some(if turn == player.color then LOSE_TEXT else WIN_TEXT)
    else None
  }

  /** `listen_win_lose`: with a player assigned, every pending update event is judged; spawned
      banners only appear after the system returns, so every event sees the same "no banner
      yet". The flag is cleared on every run. */
  method ListenWinLose(conn: Connection, flag: GameJustStarted, events: nat, bannerShown: bool,
                       movesEmpty: bool, turn: PieceColor) returns (spawned: seq<string>)
    modifies flag
    ensures !flag.started
    ensures conn.player.None? ==> spawned == []
    ensures conn.player.Some? ==> |spawned| <= events
    ensures conn.player.Some? ==> forall k :: 0 <= k < |spawned| ==>
      Some(spawned[k]) == Banner(old(flag.started), bannerShown, movesEmpty, turn, conn.player.value)
    ensures conn.player.Some? && Banner(old(flag.started), bannerShown, movesEmpty, turn, conn.player.value).Some? ==>
      |spawned| == events
  {
    spawned := [];
    if conn.player.Some? {
      var player := conn.player.value;
      for k := 0 to events
        invariant !(Banner(flag.started, bannerShown, movesEmpty, turn, player).Some?) ==> spawned == []
        invariant Banner(flag.started, bannerShown, movesEmpty, turn, player).Some? ==> |spawned| == k
        invariant forall j :: 0 <= j < |spawned| ==>
          Some(spawned[j]) == Banner(flag.started, bannerShown, movesEmpty, turn, player)
        invariant flag.started == old(flag.started)
      {
        if !flag.started && !bannerShown && movesEmpty {
          var text := if turn == player.color then LOSE_TEXT else WIN_TEXT;
          spawned := spawned + [text];
        }
      }
    }
    flag.started := false;
  }

  /** The first update after a start never shows a banner, whatever the position. */
  lemma NoBannerAtStart(bannerShown: bool, movesEmpty: bool, turn: PieceColor, player: Player)
    ensures Banner(true, bannerShown, movesEmpty, turn, player) == None
  {
  }
}
