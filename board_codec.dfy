/** The board's text form (`From<&Board> for String` and `TryFrom<String> for Board`,
    xiangqi/src/types/board.rs): 90 two-character cell tokens rank by rank, the decimal number of
    kings, `/`, two characters per king, and one turn character. */
module BoardCodec {
  import opened Prelude
  import opened Pieces
  import opened Boards

  /** The cell tokens take the first 180 characters: two for each of the 9 * 10 cells. Index
      arithmetic below is written with the literal grid sizes. */
  const CELL_CHARS: nat := 180

  const I32_MIN: int := -0x8000_0000
  const I32_MAX: int := 0x7fff_ffff

  // ---------------------------------------------------------------- serialising

  function EncodeRow(row: seq<Piece>): (s: string)
    ensures |s| == 2 * |row|
  {
    if row == [] then "" else EncodeRow(row[..|row| - 1]) + PieceToString(row[|row| - 1])
  }

  function EncodeRows(rows: seq<seq<Piece>>): string {
    if rows == [] then "" else EncodeRows(rows[..|rows| - 1]) + EncodeRow(rows[|rows| - 1])
  }

  function EncodeKings(kings: seq<Position>): (s: string)
    ensures |s| == 2 * |kings|
  {
    if kings == [] then "" else EncodeKings(kings[..|kings| - 1]) + PositionToString(kings[|kings| - 1])
  }

  predicate IsDigit(c: char) {
    '0' <= c <= '9'
  }

  predicate AllDigits(d: string) {
    forall k :: 0 <= k < |d| ==> IsDigit(d[k])
  }

  /** `usize::to_string`: the shortest decimal numeral. */
  function NatToDecimal(n: nat): (s: string)
    ensures |s| >= 1 && AllDigits(s)
    ensures n < 10 <==> |s| == 1
  {
    if n < 10 then [(48 + n) as char] else NatToDecimal(n / 10) + [(48 + n % 10) as char]
  }

  /** The serialised form of a board value; it ends with the turn character. */
  function Encode(b: BoardState): (s: string)
    ensures |s| >= 3 && s[|s| - 1] == ColorToChar(b.turn)
  {
    EncodeRows(b.content) + NatToDecimal(|b.kings|) + "/" + EncodeKings(b.kings) + [ColorToChar(b.turn)]
  }

  // ---------------------------------------------------------------- parsing

  /** The value of a non-empty or empty run of decimal digits. */
  function DigitsValue(d: string): nat
    requires AllDigits(d)
  {
    if d == [] then 0 else DigitsValue(d[..|d| - 1]) * 10 + (d[|d| - 1] as int - 48)
  }

  /** `str::parse::<i32>`: an optional sign, then at least one decimal digit, in the `i32` range. */
  function ParseI32(t: string): (r: Option<int>)
    ensures r.Some? ==> I32_MIN <= r.value <= I32_MAX
    ensures r.Some? ==> |t| >= 1 && (AllDigits(t) || AllDigits(t[1..]))
  {
    if |t| == 0 then None
    else if (t[0] == '+' || t[0] == '-') && |t| == 1 then None
    else
      var digits := if t[0] == '+' || t[0] == '-' then t[1..] else t;
      if !AllDigits(digits) then None
      else
        var v: int := if t[0] == '-' then 0 - DigitsValue(digits) else DigitsValue(digits);
        if I32_MIN <= v <= I32_MAX then Some(v) else None
  }

  /** Cell token `k` (rank `k / 9`, file `k % 9`) is present and names a piece. */
  predicate TokenOk(s: string, k: nat) {
    2 * k + 2 <= |s| && ParsePiece(s[2 * k..2 * k + 2]).Ok?
  }

  predicate CellsOk(s: string) {
    forall k :: 0 <= k < 90 ==> TokenOk(s, k)
  }

  function TokenPiece(s: string, k: nat): Piece {
    if TokenOk(s, k) then ParsePiece(s[2 * k..2 * k + 2]).value else EMPTY_PIECE
  }

  /** The first `n` cells of rank `r` as the parser reads them. */
  function RowPrefix(s: string, r: nat, n: nat): (row: seq<Piece>)
    ensures |row| == n
  {
    seq(n, f requires 0 <= f < n => TokenPiece(s, 9 * r + f))
  }

  function DecodeGrid(s: string): (rows: seq<seq<Piece>>)
    ensures |rows| == RANKS && forall r :: 0 <= r < RANKS ==> rows[r] == RowPrefix(s, r, FILES)
  {
    seq(RANKS, r requires 0 <= r < RANKS => RowPrefix(s, r, FILES))
  }

  /** The index of the first `/` at or after `i`. */
  function FindSlash(s: string, i: nat): (r: Option<nat>)
    ensures r.Some? ==> i <= r.value < |s| && s[r.value] == '/'
    ensures r.Some? ==> forall k :: i <= k < r.value ==> s[k] != '/'
    ensures r.None? ==> forall k :: i <= k < |s| ==> s[k] != '/'
    decreases |s| - i
  {
    if i >= |s| then None
    else if s[i] == '/' then Some(i)
    else FindSlash(s, i + 1)
  }

  /** The `m` king tokens starting at index `start`; their characters are not validated. */
  function DecodeKings(s: string, start: nat, m: nat): (kings: seq<Position>)
    requires start + 2 * m <= |s|
    ensures |kings| == m
  {
    if m == 0 then []
    else DecodeKings(s, start, m - 1) + [PositionFromString(s[start + 2 * (m - 1)..start + 2 * m])]
  }

  /** The value `TryFrom<String> for Board` produces, or Err. A negative count reads no kings,
      since `0..len` is then empty. */
  function Decode(s: string): (r: Result<BoardState>)
    ensures r.Ok? ==> WellFormed(r.value)
    ensures r.Ok? ==> CellsOk(s) && r.value.content == DecodeGrid(s)
    ensures r.Ok? ==> FindSlash(s, CELL_CHARS).Some?
    ensures r.Ok? ==> ParseI32(s[CELL_CHARS..FindSlash(s, CELL_CHARS).value]).Some?
    ensures |s| < CELL_CHARS ==> r.Err?
  {
    if !CellsOk(s) then
      assert |s| < CELL_CHARS ==> !TokenOk(s, 89);
      Err
    else match FindSlash(s, CELL_CHARS)
      case None => Err
      case Some(j) =>
        match ParseI32(s[CELL_CHARS..j])
        case None => Err
        case Some(n) =>
          var m: nat := if n < 0 then 0 else n;
          var t := j + 1 + 2 * m;
          if t >= |s| then Err
          else match ColorFromChar(s[t])
            case Err => Err
            case Ok(turn) => Ok(BoardState(DecodeGrid(s), DecodeKings(s, j + 1, m), turn))
  }

  // ---------------------------------------------------------------- the imperative codec

  /** `From<&Board> for String`. */
  method BoardToString(b: Boards.Board) returns (result: string)
    requires b.Valid()
    ensures result == Encode(b.Value())
  {
    result := "";
    for rank := 0 to RANKS
      invariant result == EncodeRows(b.content[..rank])
    {
      for file := 0 to FILES
        invariant result == EncodeRows(b.content[..rank]) + EncodeRow(b.content[rank][..file])
      {
        var piece := b.Get(NewPosition(rank, file));
        assert b.content[rank][..file + 1][..file] == b.content[rank][..file];
        result := result + PieceToString(piece);
      }
      assert b.content[rank][..FILES] == b.content[rank];
      assert b.content[..rank + 1][..rank] == b.content[..rank];
    }
    assert b.content[..RANKS] == b.content;
    result := result + NatToDecimal(|b.kings|);
    result := result + "/";
    var joined := "";
    for k := 0 to |b.kings|
      invariant joined == EncodeKings(b.kings[..k])
    {
      assert b.kings[..k + 1][..k] == b.kings[..k];
      joined := joined + PositionToString(b.kings[k]);
    }
    assert b.kings[..|b.kings|] == b.kings;
    result := result + joined;
    result := result + [ColorToChar(b.turn)];
  }

  /** The cell loop of the parser: 90 tokens of two characters each, rank by rank. */
  method ParseCells(s: string) returns (r: Option<seq<seq<Piece>>>)
    ensures r.Some? <==> CellsOk(s)
    ensures r.Some? ==> r.value == DecodeGrid(s)
  {
    var content: seq<seq<Piece>> := seq(RANKS, _ => []);
    var i: nat := 0;
    for rank := 0 to RANKS
      invariant i == 18 * rank
      invariant |content| == RANKS
      invariant forall k :: 0 <= k < 9 * rank ==> TokenOk(s, k)
      invariant forall r :: 0 <= r < rank ==> content[r] == RowPrefix(s, r, FILES)
      invariant forall r :: rank <= r < RANKS ==> content[r] == []
    {
      for file := 0 to FILES
        invariant i == 2 * (9 * rank + file)
        invariant |content| == RANKS
        invariant forall k :: 0 <= k < 9 * rank + file ==> TokenOk(s, k)
        invariant forall r :: 0 <= r < rank ==> content[r] == RowPrefix(s, r, FILES)
        invariant forall r :: rank < r < RANKS ==> content[r] == []
        invariant content[rank] == RowPrefix(s, rank, file)
      {
        if i + 2 > |s| {
          assert !TokenOk(s, 9 * rank + file);
          return None;
        }
        var token := [s[i], s[i + 1]];
        assert token == s[i..i + 2];
        var piece := ParsePiece(token);
        if piece.Err? {
          assert !TokenOk(s, 9 * rank + file);
          return None;
        }
        assert TokenPiece(s, 9 * rank + file) == piece.value;
        assert RowPrefix(s, rank, file + 1) == RowPrefix(s, rank, file) + [piece.value];
        content := content[rank := content[rank] + [piece.value]];
        i := i + 2;
      }
    }
    assert content == DecodeGrid(s);
    r := Some(content);
  }

  /** The `loop` that collects characters up to the first `/` after index `start`;
      returns the collected text and the index just past the `/`. */
  method ReadCount(s: string, start: nat) returns (r: Option<(string, nat)>)
    requires start <= |s|
    ensures r.None? <==> FindSlash(s, start).None?
    ensures r.Some? ==> var j := FindSlash(s, start).value; r.value == (s[start..j], j + 1)
  {
    var i := start;
    var len := "";
    while true
      invariant start <= i <= |s|
      invariant FindSlash(s, start) == FindSlash(s, i)
      invariant len == s[start..i]
      decreases |s| - i
    {
      if i >= |s| {
        return None;
      }
      var c := s[i];
      i := i + 1;
      if c == '/' {
        break;
      }
      len := len + [c];
    }
    r := Some((len, i));
  }

  /** The king loop: `m` tokens of two characters starting at `start`. */
  method ParseKings(s: string, start: nat, m: nat) returns (r: Option<seq<Position>>)
    requires start <= |s|
    ensures r.Some? <==> start + 2 * m <= |s|
    ensures r.Some? ==> r.value == DecodeKings(s, start, m)
  {
    var kings: seq<Position> := [];
    var i := start;
    for k := 0 to m
      invariant i == start + 2 * k <= |s|
      invariant kings == DecodeKings(s, start, k)
    {
      if i + 2 > |s| {
        return None;
      }
      var token := [s[i], s[i + 1]];
      assert token == s[start + 2 * k..start + 2 * (k + 1)];
      kings := kings + [PositionFromString(token)];
      i := i + 2;
    }
    r := Some(kings);
  }

  /** `TryFrom<String> for Board`, consuming the characters front to back. */
  method ParseBoard(s: string) returns (r: Result<BoardState>)
    ensures r == Decode(s)
  {
    var content := ParseCells(s);
    if content.None? {
      return Err;
    }
    assert TokenOk(s, 89);
    var read := ReadCount(s, CELL_CHARS);
    if read.None? {
      return Err;
    }
    var (len, i) := read.value;
    var count := ParseI32(len);
    if count.None? {
      return Err;
    }
    var m: nat := if count.value < 0 then 0 else count.value;
    var kings := ParseKings(s, i, m);
    if kings.None? {
      return Err;
    }
    var t := i + 2 * m;
    if t >= |s| {
      return Err;
    }
    var turn := ColorFromChar(s[t]);
    if turn.Err? {
      return Err;
    }
    r := Ok(BoardState(content.value, kings.value, turn.value));
  }

  // ---------------------------------------------------------------- properties

  /** A board the text form can carry: the grid shape, a count `i32::from_str` reads back, and
      king coordinates that survive the `u8` digit arithmetic. */
  ghost predicate Serialisable(b: BoardState) {
    && WellFormed(b)
    && |b.kings| <= I32_MAX
    && forall k :: 0 <= k < |b.kings| ==> 0 <= b.kings[k].r < 256 && 0 <= b.kings[k].f < 256
  }

  lemma {:induction false} DecimalValue(n: nat)
    ensures DigitsValue(NatToDecimal(n)) == n
    decreases n
  {
    if n >= 10 {
      DecimalValue(n / 10);
      var d := NatToDecimal(n);
      assert d[..|d| - 1] == NatToDecimal(n / 10);
    }
  }

  /** The count the serialiser writes is the count the parser reads. */
  lemma ParseDecimal(n: nat)
    requires n <= I32_MAX
    ensures ParseI32(NatToDecimal(n)) == Some(n)
  {
    DecimalValue(n);
    assert IsDigit(NatToDecimal(n)[0]);
  }

  lemma {:induction false} EncodeRowAt(row: seq<Piece>, f: nat)
    requires f < |row|
    ensures EncodeRow(row)[2 * f..2 * f + 2] == PieceToString(row[f])
    decreases |row|
  {
    var init := row[..|row| - 1];
    if f < |row| - 1 {
      EncodeRowAt(init, f);
      assert EncodeRow(row)[2 * f..2 * f + 2] == EncodeRow(init)[2 * f..2 * f + 2];
    }
  }

  /** Nine-cell ranks take 18 characters each. */
  lemma {:induction false} EncodeRowsLength(rows: seq<seq<Piece>>)
    requires forall k :: 0 <= k < |rows| ==> |rows[k]| == FILES
    ensures |EncodeRows(rows)| == 18 * |rows|
    decreases |rows|
  {
    if rows != [] {
      EncodeRowsLength(rows[..|rows| - 1]);
    }
  }

  lemma {:induction false} EncodeRowsAt(rows: seq<seq<Piece>>, r: nat, f: nat)
    requires forall k :: 0 <= k < |rows| ==> |rows[k]| == FILES
    requires r < |rows| && f < FILES
    ensures 18 * r + 2 * f + 2 <= |EncodeRows(rows)|
    ensures EncodeRows(rows)[18 * r + 2 * f..18 * r + 2 * f + 2] == PieceToString(rows[r][f])
    decreases |rows|
  {
    var init := rows[..|rows| - 1];
    EncodeRowsLength(rows);
    EncodeRowsLength(init);
    var k := 18 * r + 2 * f;
    if r < |rows| - 1 {
      EncodeRowsAt(init, r, f);
      assert EncodeRows(rows)[k..k + 2] == EncodeRows(init)[k..k + 2];
    } else {
      EncodeRowAt(rows[r], f);
      assert EncodeRows(rows)[k..k + 2] == EncodeRow(rows[r])[2 * f..2 * f + 2];
    }
  }

  lemma {:induction false} EncodeKingsAt(kings: seq<Position>, k: nat)
    requires k < |kings|
    ensures EncodeKings(kings)[2 * k..2 * k + 2] == PositionToString(kings[k])
    decreases |kings|
  {
    var init := kings[..|kings| - 1];
    if k < |kings| - 1 {
      EncodeKingsAt(init, k);
      assert EncodeKings(kings)[2 * k..2 * k + 2] == EncodeKings(init)[2 * k..2 * k + 2];
    }
  }

  /** Skipping characters that are not `/` does not change where the first `/` is found. */
  lemma {:induction false} FindSlashSkip(s: string, i: nat, j: nat)
    requires i <= j <= |s|
    requires forall k :: i <= k < j ==> s[k] != '/'
    ensures FindSlash(s, i) == FindSlash(s, j)
    decreases j - i
  {
    if i < j {
      FindSlashSkip(s, i + 1, j);
    }
  }

  /** The serialised text is 180 cell characters, the count, `/`, two per king, and the turn. */
  lemma EncodeLength(b: BoardState)
    requires WellFormed(b)
    ensures |Encode(b)| == CELL_CHARS + |NatToDecimal(|b.kings|)| + 1 + 2 * |b.kings| + 1
    ensures |b.kings| == 2 ==> |Encode(b)| == 187
  {
    EncodeRowsLength(b.content);
  }

  /** Where the pieces of `Encode(b)` are. */
  lemma EncodeLayout(b: BoardState)
    requires WellFormed(b)
    ensures var s := Encode(b); var j := CELL_CHARS + |NatToDecimal(|b.kings|)|;
      && |s| == j + 2 + 2 * |b.kings|
      && s[..CELL_CHARS] == EncodeRows(b.content)
      && s[CELL_CHARS..j] == NatToDecimal(|b.kings|)
      && s[j] == '/'
      && s[j + 1..j + 1 + 2 * |b.kings|] == EncodeKings(b.kings)
      && s[|s| - 1] == ColorToChar(b.turn)
  {
    EncodeRowsLength(b.content);
  }

  /** The cell part of `Encode(b)` parses back to the grid. */
  lemma DecodeGridOfEncode(b: BoardState)
    requires WellFormed(b)
    ensures CellsOk(Encode(b)) && DecodeGrid(Encode(b)) == b.content
  {
    var s := Encode(b);
    var cells := EncodeRows(b.content);
    EncodeLayout(b);
    forall k | 0 <= k < 90
      ensures TokenOk(s, k) && TokenPiece(s, k) == b.content[k / 9][k % 9]
    {
      EncodeRowsAt(b.content, k / 9, k % 9);
      assert s[2 * k..2 * k + 2] == cells[2 * k..2 * k + 2];
      PieceStringRoundTrip(b.content[k / 9][k % 9]);
    }
    forall r | 0 <= r < RANKS
      ensures DecodeGrid(s)[r] == b.content[r]
    {
      forall f | 0 <= f < FILES
        ensures RowPrefix(s, r, FILES)[f] == b.content[r][f]
      {
        assert (9 * r + f) / 9 == r && (9 * r + f) % 9 == f;
      }
    }
  }

  lemma SliceOfMiddle(p: string, t: string, q: string)
    ensures (p + t + q)[|p|..|p| + |t|] == t
  {
  }

  /** King tokens laid out as `EncodeKings` writes them read back as the same kings. */
  lemma {:induction false} DecodeKingsAt(s: string, start: nat, kings: seq<Position>)
    requires start + 2 * |kings| <= |s|
    requires s[start..start + 2 * |kings|] == EncodeKings(kings)
    requires forall k :: 0 <= k < |kings| ==> 0 <= kings[k].r < 256 && 0 <= kings[k].f < 256
    ensures DecodeKings(s, start, |kings|) == kings
    decreases |kings|
  {
    if kings != [] {
      var n := |kings| - 1;
      var init := kings[..n];
      var ks := EncodeKings(kings);
      assert ks == EncodeKings(init) + PositionToString(kings[n]);
      assert s[start..start + 2 * n] == ks[..2 * n];
      DecodeKingsAt(s, start, init);
      assert s[start + 2 * n..start + 2 * n + 2] == ks[2 * n..];
      PositionStringRoundTrip(kings[n]);
    }
  }

  /** The king part of `Encode(b)` parses back to the kings table. */
  lemma DecodeKingsOfEncode(b: BoardState)
    requires Serialisable(b)
    ensures var j := CELL_CHARS + |NatToDecimal(|b.kings|)|;
      j + 1 + 2 * |b.kings| <= |Encode(b)| && DecodeKings(Encode(b), j + 1, |b.kings|) == b.kings
  {
    var j := CELL_CHARS + |NatToDecimal(|b.kings|)|;
    KingsSliceOfEncode(b);
    DecodeKingsAt(Encode(b), j + 1, b.kings);
  }

  lemma KingsSliceOfEncode(b: BoardState)
    requires WellFormed(b)
    ensures var j := CELL_CHARS + |NatToDecimal(|b.kings|)|;
      j + 1 + 2 * |b.kings| <= |Encode(b)| && Encode(b)[j + 1..j + 1 + 2 * |b.kings|] == EncodeKings(b.kings)
  {
    var prefix := EncodeRows(b.content) + NatToDecimal(|b.kings|) + "/";
    var ks := EncodeKings(b.kings);
    EncodeRowsLength(b.content);
    assert Encode(b) == prefix + ks + [ColorToChar(b.turn)];
    SliceOfMiddle(prefix, ks, [ColorToChar(b.turn)]);
  }

  /** The first `/` after the cells of `Encode(b)` closes the decimal count. */
  lemma CountOfEncode(b: BoardState)
    requires WellFormed(b)
    ensures var j := CELL_CHARS + |NatToDecimal(|b.kings|)|;
      j < |Encode(b)| && FindSlash(Encode(b), CELL_CHARS) == Some(j)
      && Encode(b)[CELL_CHARS..j] == NatToDecimal(|b.kings|)
  {
    var s := Encode(b);
    var dec := NatToDecimal(|b.kings|);
    var j := CELL_CHARS + |dec|;
    EncodeLayout(b);
    forall k | CELL_CHARS <= k < j
      ensures s[k] != '/'
    {
      assert s[k] == dec[k - CELL_CHARS];
    }
    FindSlashSkip(s, CELL_CHARS, j);
  }

  /** Parsing the serialised form of a board gives the board back. */
  lemma DecodeEncode(b: BoardState)
    requires Serialisable(b)
    ensures Decode(Encode(b)) == Ok(b)
  {
    EncodeLength(b);
    DecodeGridOfEncode(b);
    CountOfEncode(b);
    DecodeKingsOfEncode(b);
    ParseDecimal(|b.kings|);
    TurnOfEncode(b);
    ColorCharRoundTrip(b.turn);
  }

  lemma TurnOfEncode(b: BoardState)
    requires WellFormed(b)
    ensures var j := CELL_CHARS + |NatToDecimal(|b.kings|)|;
      j + 1 + 2 * |b.kings| == |Encode(b)| - 1 && Encode(b)[|Encode(b)| - 1] == ColorToChar(b.turn)
  {
    EncodeLength(b);
  }

  /** Every proper prefix of a serialised board is rejected: the parser runs out of input. */
  lemma DecodeTruncated(b: BoardState, n: nat)
    requires Serialisable(b)
    requires n < |Encode(b)|
    ensures Decode(Encode(b)[..n]) == Err
  {
    var s := Encode(b);
    var p := s[..n];
    var dec := NatToDecimal(|b.kings|);
    var j := CELL_CHARS + |dec|;
    EncodeLayout(b);
    if n < CELL_CHARS || !CellsOk(p) {
    } else if n <= j {
      forall k | CELL_CHARS <= k < n
        ensures p[k] != '/'
      {
        assert p[k] == dec[k - CELL_CHARS];
      }
      FindSlashSkip(p, CELL_CHARS, n);
    } else {
      forall k | CELL_CHARS <= k < j
        ensures p[k] != '/'
      {
        assert p[k] == dec[k - CELL_CHARS];
      }
      FindSlashSkip(p, CELL_CHARS, j);
      assert p[CELL_CHARS..j] == dec;
      ParseDecimal(|b.kings|);
    }
  }

  /** A count that is empty, or holds a character other than a digit (a sign is allowed only in
      front, and not on its own), is rejected, whatever follows. */
  lemma BadCountRejected(s: string, j: nat, k: nat)
    requires CellsOk(s) && FindSlash(s, CELL_CHARS) == Some(j)
    requires CELL_CHARS <= k < j
    requires !IsDigit(s[k]) && !(k == CELL_CHARS && (s[k] == '+' || s[k] == '-') && j > CELL_CHARS + 1)
    ensures Decode(s) == Err
  {
    var t := s[CELL_CHARS..j];
    assert t[k - CELL_CHARS] == s[k];
    if k == CELL_CHARS && (s[k] == '+' || s[k] == '-') {
      assert |t| == 1;
    } else if k > CELL_CHARS {
      assert t[1..][k - CELL_CHARS - 1] == s[k];
    }
  }

  lemma EmptyCountRejected(s: string)
    requires CellsOk(s) && FindSlash(s, CELL_CHARS) == Some(CELL_CHARS)
    ensures Decode(s) == Err
  {
  }

  /** Once the cells, the `/` and the count have been read, the parse succeeds exactly when the
      character after the king tokens is a turn character. The king characters themselves are
      never checked: the kings are whatever their two-character tokens read as, and the turn is
      the colour of that character. */
  lemma DecodeParts(s: string, j: nat, n: int)
    requires CellsOk(s) && FindSlash(s, CELL_CHARS) == Some(j) && ParseI32(s[CELL_CHARS..j]) == Some(n)
    ensures var m := if n < 0 then 0 else n; var t := j + 1 + 2 * m;
      && (Decode(s).Ok? <==> t < |s| && s[t] in COLOR_CHARS)
      && (Decode(s).Ok? ==> Decode(s).value.kings == DecodeKings(s, j + 1, m))
      && (Decode(s).Ok? ==> ColorToChar(Decode(s).value.turn) == s[t])
  {
    var m: nat := if n < 0 then 0 else n;
    var t := j + 1 + 2 * m;
    if t < |s| {
      var turn := ColorFromChar(s[t]);
      if turn.Ok? {
        assert Decode(s) == Ok(BoardState(DecodeGrid(s), DecodeKings(s, j + 1, m), turn.value));
      } else {
        assert Decode(s) == Err;
      }
    } else {
      assert Decode(s) == Err;
    }
  }

  /** A missing or invalid turn character is rejected. */
  lemma BadTurnRejected(s: string, j: nat, n: int)
    requires CellsOk(s) && FindSlash(s, CELL_CHARS) == Some(j) && ParseI32(s[CELL_CHARS..j]) == Some(n)
    requires var m := if n < 0 then 0 else n; var t := j + 1 + 2 * m; t >= |s| || s[t] !in COLOR_CHARS
    ensures Decode(s) == Err
  {
  }

  /** Characters after the turn character are never read. */
  lemma DecodeIgnoresTail(s: string, tail: string)
    requires Decode(s).Ok?
    ensures Decode(s + tail) == Decode(s)
  {
    var u := s + tail;
    forall k | 0 <= k < 90
      ensures TokenOk(u, k) && TokenPiece(u, k) == TokenPiece(s, k)
    {
      assert TokenOk(s, k);
      assert u[2 * k..2 * k + 2] == s[2 * k..2 * k + 2];
    }
    forall r, f | 0 <= r < RANKS && 0 <= f < FILES
      ensures RowPrefix(u, r, FILES)[f] == RowPrefix(s, r, FILES)[f]
    {
      assert TokenPiece(u, 9 * r + f) == TokenPiece(s, 9 * r + f);
    }
    forall r | 0 <= r < RANKS
      ensures DecodeGrid(u)[r] == DecodeGrid(s)[r]
    {
      assert RowPrefix(u, r, FILES) == RowPrefix(s, r, FILES);
    }
    assert DecodeGrid(u) == DecodeGrid(s);
    var j := FindSlash(s, CELL_CHARS).value;
    FindSlashSkip(u, CELL_CHARS, j);
    assert u[CELL_CHARS..j] == s[CELL_CHARS..j];
    var n := ParseI32(s[CELL_CHARS..j]).value;
    var m: nat := if n < 0 then 0 else n;
    DecodeKingsExtend(s, tail, j + 1, m);
  }

  lemma {:induction false} DecodeKingsExtend(s: string, tail: string, start: nat, m: nat)
    requires start + 2 * m <= |s|
    ensures DecodeKings(s + tail, start, m) == DecodeKings(s, start, m)
    decreases m
  {
    if m > 0 {
      DecodeKingsExtend(s, tail, start, m - 1);
      assert (s + tail)[start + 2 * (m - 1)..start + 2 * m] == s[start + 2 * (m - 1)..start + 2 * m];
    }
  }
}
