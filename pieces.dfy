/** Piece kinds and colours, pieces, and board coordinates (xiangqi/src/types/pieces.rs). */
module Pieces {
  import opened Prelude

  datatype PieceKind = Empty | Pawn | Cannon | King | Advisor | Bishop | Knight | Rook

  /** Every character the kind codec accepts, one per kind. */
  const KIND_CHARS: string := "-pckabnr"
  /** Every character the colour codec accepts. */
  const COLOR_CHARS: string := "rb"

  function KindToChar(k: PieceKind): (c: char)
    ensures c in KIND_CHARS
  {
    match k
    case Empty => '-'
    case Pawn => 'p'
    case Cannon => 'c'
    case King => 'k'
    case Advisor => 'a'
    case Bishop => 'b'
    case Knight => 'n'
    case Rook => 'r'
  }

  /** `TryFrom<char> for PieceKind`: exactly the eight kind characters decode, each to the kind
      that encodes to it. */
  function KindFromChar(c: char): (r: Result<PieceKind>)
    ensures r.Ok? <==> c in KIND_CHARS
    ensures r.Ok? ==> KindToChar(r.value) == c
  {
    match c
    case '-' => Ok(Empty)
    case 'p' => Ok(Pawn)
    case 'c' => Ok(Cannon)
    case 'k' => Ok(King)
    case 'a' => Ok(Advisor)
    case 'b' => Ok(Bishop)
    case 'n' => Ok(Knight)
    case 'r' => Ok(Rook)
    case _ => Err
  }

  lemma KindCharRoundTrip(k: PieceKind)
    ensures KindFromChar(KindToChar(k)) == Ok(k)
  {
  }

  datatype PieceColor = Red | Black {
    function Opposite(): (o: PieceColor)
      ensures o != this
    {
      match this
      case Red => Black
      case Black => Red
    }
  }

  lemma OppositeInvolution(c: PieceColor)
    ensures c.Opposite().Opposite() == c
    ensures c.Opposite() != c
  {
  }

  function ColorToChar(c: PieceColor): (ch: char)
    ensures ch in COLOR_CHARS
  {
    match c
    case Red => 'r'
    case Black => 'b'
  }

  /** `TryFrom<char> for PieceColor`: exactly `r` and `b` decode. */
  function ColorFromChar(ch: char): (r: Result<PieceColor>)
    ensures r.Ok? <==> ch in COLOR_CHARS
    ensures r.Ok? ==> ColorToChar(r.value) == ch
  {
    match ch
    case 'r' => Ok(Red)
    case 'b' => Ok(Black)
    case _ => Err
  }

  lemma ColorCharRoundTrip(c: PieceColor)
    ensures ColorFromChar(ColorToChar(c)) == Ok(c)
  {
  }

  /** The `u8` discriminant of a colour (Red = 0, Black = 1), used to index the kings table. */
  function ColorIndex(c: PieceColor): (i: nat)
    ensures i < 2
    ensures c == Red <==> i == 0
  {
    match c
    case Red => 0
    case Black => 1
  }

  /** A piece keeps a colour field even when its kind is Empty; only `Color()` hides it. */
  datatype Piece = Piece(kind: PieceKind, color: PieceColor) {

    /** A cell is empty exactly when its text form starts with `-`. */
    function IsEmpty(): (e: bool)
      ensures e <==> IsKind(Empty)
      ensures e <==> PieceToString(this)[0] == '-'
    {
      kind == Empty
    }

    /** Enemies: two real pieces, the other one of the opposite colour. */
    function IsEnemy(other: Piece): (e: bool)
      ensures e <==> !IsEmpty() && other.IsColor(color.Opposite())
    {
      !IsEmpty() && !other.IsEmpty() && color != other.color
    }

    /** Allies: two real pieces, the other one of the same colour. */
    function IsAlly(other: Piece): (a: bool)
      ensures a <==> !IsEmpty() && other.IsColor(color)
    {
      !IsEmpty() && !other.IsEmpty() && color == other.color
    }

    /** Compares the raw colour fields: an Empty `this` still has a colour here. A piece may step
        onto an empty cell or onto a real piece of the opposite colour. */
    function IsSteppable(other: Piece): (st: bool)
      ensures st <==> other.IsEmpty() || other.IsColor(color.Opposite())
    {
      other.IsEmpty() || color != other.color
    }

    /** Kinds compare exactly as their letters do. */
    function IsKind(k: PieceKind): (b: bool)
      ensures b <==> KindToChar(kind) == KindToChar(k)
    {
      kind == k
    }

    /** A real piece whose text form carries the letter of `c`. */
    function IsColor(c: PieceColor): (b: bool)
      ensures b <==> !IsEmpty() && PieceToString(this)[1] == ColorToChar(c)
    {
      !IsEmpty() && color == c
    }

    /** The colour of a real piece; no colour for an Empty cell. */
    function Color(): (r: Option<PieceColor>)
      ensures r.None? <==> kind == Empty
      ensures r.Some? ==> r.value == color
    {
      if IsEmpty() then None else Some(color)
    }
  }

  /** `Piece::default()` and `Piece::empty()`. */
  const EMPTY_PIECE: Piece := Piece(Empty, Red)

  lemma ColorMatchesIsColor(p: Piece, c: PieceColor)
    ensures p.IsColor(c) <==> p.Color() == Some(c)
  {
  }

  lemma EnemyAllyLaws(p: Piece, q: Piece)
    ensures (p.IsEmpty() || q.IsEmpty()) ==> !p.IsEnemy(q) && !p.IsAlly(q)
    ensures p.IsEnemy(q) <==> q.IsEnemy(p)
    ensures p.IsAlly(q) <==> q.IsAlly(p)
    ensures !p.IsEmpty() && !q.IsEmpty() ==> (p.IsEnemy(q) <==> !p.IsAlly(q))
  {
  }

  lemma SteppableLaws(p: Piece, q: Piece)
    ensures p.IsSteppable(q) <==> q.IsEmpty() || p.color != q.color
    ensures !p.IsEmpty() ==> (p.IsSteppable(q) <==> q.IsEmpty() || p.IsEnemy(q))
  {
  }

  /** `From<Piece> for String`: the kind character, then the stored colour character. */
  function PieceToString(p: Piece): (s: string)
    ensures |s| == 2 && s[0] in KIND_CHARS && s[1] in COLOR_CHARS
  {
    [KindToChar(p.kind), ColorToChar(p.color)]
  }

  /** `TryFrom<&str> for Piece`: reads the first two characters; anything after them is ignored. */
  function ParsePiece(t: string): (r: Result<Piece>)
    ensures |t| < 2 ==> r.Err?
    ensures r.Ok? <==> |t| >= 2 && t[0] in KIND_CHARS && t[1] in COLOR_CHARS
    ensures r.Ok? ==> PieceToString(r.value) == t[..2]
  {
    if |t| < 1 then Err
    else match KindFromChar(t[0])
      case Err => Err
      case Ok(kind) =>
        if |t| < 2 then Err
        else match ColorFromChar(t[1])
          case Err => Err
          case Ok(color) => Ok(Piece(kind, color))
  }

  lemma PieceStringRoundTrip(p: Piece)
    ensures ParsePiece(PieceToString(p)) == Ok(p)
  {
  }

  lemma ParsePieceIgnoresTail(t: string, rest: string)
    requires |t| >= 2
    ensures ParsePiece(t + rest) == ParsePiece(t)
  {
  }

  /** A signed (`isize`) rank-file pair; arithmetic on it is unchecked. */
  datatype Position = Pos(r: int, f: int)

  const HALF_U64: int := 0x8000_0000_0000_0000

  /** `Position::new`: a `usize` is reinterpreted as an `isize`. */
  function NewPosition(rank: nat, file: nat): (p: Position)
    requires rank < U64 && file < U64
    ensures -HALF_U64 <= p.r < HALF_U64 && -HALF_U64 <= p.f < HALF_U64
  {
    Pos(if rank < HALF_U64 then rank else rank - U64,
        if file < HALF_U64 then file else file - U64)
  }

  /** `Position::rank`: the `isize` reinterpreted as a `usize`. */
  function Rank(p: Position): (n: nat)
    ensures 0 <= p.r < U64 ==> n == p.r
    ensures n < U64
  {
    p.r % U64
  }

  function File(p: Position): (n: nat)
    ensures 0 <= p.f < U64 ==> n == p.f
    ensures n < U64
  {
    p.f % U64
  }

  lemma NewPositionAccessors(rank: nat, file: nat)
    requires rank < U64 && file < U64
    ensures Rank(NewPosition(rank, file)) == rank
    ensures File(NewPosition(rank, file)) == file
  {
  }

  function Plus(p: Position, q: Position): (s: Position)
    ensures s.r - q.r == p.r && s.f - q.f == p.f
  {
    Pos(p.r + q.r, p.f + q.f)
  }

  function Neg(p: Position): (n: Position)
    ensures Plus(p, n) == Pos(0, 0)
  {
    Pos(-p.r, -p.f)
  }

  function Minus(p: Position, q: Position): (d: Position)
    ensures d == Plus(p, Neg(q))
    ensures Plus(d, q) == p
  {
    Pos(p.r - q.r, p.f - q.f)
  }

  lemma NegInvolution(p: Position)
    ensures Neg(Neg(p)) == p
  {
  }

  /** `(b'0' + x as u8) as char` with the `u8` addition wrapping. */
  function DigitChar(x: nat): (c: char)
    ensures x <= 9 ==> '0' <= c <= '9'
    ensures x < 208 ==> c as int == 48 + x
  {
    ((48 + x % 256) % 256) as char
  }

  /** `c as u8 - b'0'` with the `u8` subtraction wrapping. */
  function CharDigit(c: char): (x: nat)
    ensures x < 256
    ensures '0' <= c <= '9' ==> x == c as int - 48
  {
    (c as int % 256 - 48) % 256
  }

  /** `From<Position> for String`. */
  function PositionToString(p: Position): (s: string)
    ensures |s| == 2
  {
    [DigitChar(Rank(p)), DigitChar(File(p))]
  }

  /** `From<String> for Position`; the source unwraps two characters, so fewer is a panic. */
  function PositionFromString(s: string): (p: Position)
    requires |s| >= 2
    ensures 0 <= p.r < 256 && 0 <= p.f < 256
  {
    Pos(CharDigit(s[0]), CharDigit(s[1]))
  }

  lemma DigitRoundTrip(x: nat)
    requires x < 256
    ensures CharDigit(DigitChar(x)) == x
  {
    var y := (48 + x) % 256;
    assert DigitChar(x) as int == y;
    assert CharDigit(DigitChar(x)) == (y - 48) % 256;
    if x < 208 {
      assert y == 48 + x;
    } else {
      assert y == x - 208;
      assert (y - 48) % 256 == (x - 256) % 256;
    }
  }

  lemma PositionStringDigits(p: Position)
    requires 0 <= p.r <= 9 && 0 <= p.f <= 9
    ensures var s := PositionToString(p); |s| == 2 && '0' <= s[0] <= '9' && '0' <= s[1] <= '9'
  {
  }

  lemma PositionStringRoundTrip(p: Position)
    requires 0 <= p.r < 256 && 0 <= p.f < 256
    ensures PositionFromString(PositionToString(p)) == p
  {
    DigitRoundTrip(p.r);
    DigitRoundTrip(p.f);
  }
}
