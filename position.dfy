/** The bitboard position: two colour planes, six piece planes and the side
    to move. A position is never changed after it is built. */
module Positions {
  import opened Bitboards

  /** `All` is a query-time filter meaning "either colour". */
  datatype Color = White | Black | All

  datatype Piece = Pawn | Bishop | Knight | Rook | Queen | King

  datatype Position = Position(
    white: Bitboard,
    black: Bitboard,
    pawn: Bitboard,
    bishop: Bitboard,
    knight: Bitboard,
    king: Bitboard,
    queen: Bitboard,
    rook: Bitboard,
    turn: Color)

  /** The colour plane `get` selects; `All` is the union of both. */
  function ColorMask(pos: Position, c: Color): Bitboard
  {
    match c
    case Black => pos.black
    case White => pos.white
    case All => pos.white | pos.black
  }

  /** The piece plane `get` selects. */
  function PieceMask(pos: Position, p: Piece): Bitboard
  {
    match p
    case Pawn => pos.pawn
    case Bishop => pos.bishop
    case Knight => pos.knight
    case King => pos.king
    case Queen => pos.queen
    case Rook => pos.rook
  }

  /** Every square holding some piece type. */
  function Occupied(pos: Position): Bitboard
  {
    pos.pawn | pos.bishop | pos.knight | pos.rook | pos.queen | pos.king
  }

  /** The board invariants: no square has both colours, no square has two
      piece types, the piece planes cover exactly the coloured squares, and
      the side to move is a real colour. */
  ghost predicate Valid(pos: Position)
  {
    && pos.white & pos.black == 0
    && (forall p, q :: p != q ==> PieceMask(pos, p) & PieceMask(pos, q) == 0)
    && Occupied(pos) == pos.white | pos.black
    && pos.turn != All
  }

  /** The start-of-game position. */
  function New(): (pos: Position)
    ensures Valid(pos)
    ensures pos.turn == White
  {
    Position(
      white := 0xffff,
      black := 0xffff000000000000,
      pawn := 0xff00000000ff00,
      bishop := 0x2400000000000024,
      knight := 0x4200000000000042,
      queen := 0x1000000000000010,
      king := 0x800000000000008,
      rook := 0x8100000000000081,
      turn := White)
  }

  /** The squares holding the given piece type in the given colour. */
  function Get(pos: Position, piece: Piece, color: Color): Bitboard
  {
    ColorMask(pos, color) & PieceMask(pos, piece)
  }

  /** The answer of `get` lies within both the selected colour plane and
      the selected piece plane. */
  lemma GetWithinPlanes(pos: Position, piece: Piece, color: Color)
    ensures Get(pos, piece, color) & !PieceMask(pos, piece) == 0
    ensures Get(pos, piece, color) & !ColorMask(pos, color) == 0
  {
  }

  /** `get` holds exactly the squares both selected planes hold. */
  lemma GetSquares(pos: Position, piece: Piece, color: Color)
    ensures Squares(Get(pos, piece, color)) ==
              Squares(ColorMask(pos, color)) * Squares(PieceMask(pos, piece))
  {
    SquaresOfIntersection(ColorMask(pos, color), PieceMask(pos, piece));
  }

  /** Square i is in the answer of `get` exactly when it is in both
      selected planes. */
  lemma GetBit(pos: Position, piece: Piece, color: Color, i: nat)
    requires i < 64
    ensures IsSet(Get(pos, piece, color), i) <==>
              IsSet(ColorMask(pos, color), i) && IsSet(PieceMask(pos, piece), i)
  {
    BitOfIntersection(ColorMask(pos, color), PieceMask(pos, piece), i);
  }

  /** Querying `All` is querying both colours. */
  lemma GetAllIsBothColors(pos: Position, p: Piece)
    ensures Get(pos, p, All) == Get(pos, p, White) | Get(pos, p, Black)
  {
  }

  /** Disjoint colour planes give disjoint per-colour answers. */
  lemma GetColorsDisjoint(pos: Position, p: Piece)
    requires pos.white & pos.black == 0
    ensures Get(pos, p, White) & Get(pos, p, Black) == 0
  {
  }

  /** Each answer is the `All` answer filtered by the chosen colour. */
  lemma GetFiltersAll(pos: Position, p: Piece, c: Color)
    ensures Get(pos, p, c) == Get(pos, p, All) & ColorMask(pos, c)
  {
  }

  /** On a valid board two different (piece, colour) queries never share a
      square. */
  lemma GetPairsDisjoint(pos: Position, p: Piece, c: Color, q: Piece, d: Color)
    requires Valid(pos)
    requires c != All && d != All
    requires p != q || c != d
    ensures Get(pos, p, c) & Get(pos, q, d) == 0
  {
  }

  /** On a valid board at most one (piece, colour) pair claims a square. */
  lemma UniqueOwner(pos: Position, i: nat, p: Piece, c: Color, q: Piece, d: Color)
    requires Valid(pos)
    requires i < 64 && c != All && d != All
    requires IsSet(Get(pos, p, c), i) && IsSet(Get(pos, q, d), i)
    ensures p == q && c == d
  {
    if p != q || c != d {
      GetPairsDisjoint(pos, p, c, q, d);
      BitOfIntersection(Get(pos, p, c), Get(pos, q, d), i);
      NoBitOfZero(i);
    }
  }

  /** A square some (piece, colour) pair holds is coloured. */
  lemma OwnedIsColored(pos: Position, i: nat, p: Piece, c: Color)
    requires i < 64 && c != All
    requires IsSet(Get(pos, p, c), i)
    ensures IsSet(pos.white | pos.black, i)
  {
    GetBit(pos, p, c, i);
    BitOfUnion(pos.white, pos.black, i);
    // Splitting on the colour lets each branch see which plane ColorMask
    // selects; without it the solver has to find the case split itself.
    if c == White {
    } else {
    }
  }

  /** The (piece, colour) pair holding a coloured square, when the piece
      planes cover the coloured squares. */
  lemma ColoredHasOwner(pos: Position, i: nat) returns (p: Piece, c: Color)
    requires Occupied(pos) == pos.white | pos.black
    requires i < 64 && IsSet(pos.white | pos.black, i)
    ensures c != All && IsSet(Get(pos, p, c), i)
  {
    BitOfUnion(pos.white, pos.black, i);
    if IsSet(pos.white, i) {
      c := White;
    } else {
      c := Black;
    }
    p := PieceOn(pos, i);
    GetBit(pos, p, c, i);
  }

  /** On a valid board a square is coloured exactly when some piece type
      holds it in some colour. */
  lemma OccupiedHasOwner(pos: Position, i: nat)
    requires Occupied(pos) == pos.white | pos.black
    requires i < 64
    ensures IsSet(pos.white | pos.black, i) <==>
              exists p, c :: c != All && IsSet(Get(pos, p, c), i)
  {
    forall p, c | c != All && IsSet(Get(pos, p, c), i)
      ensures IsSet(pos.white | pos.black, i)
    {
      OwnedIsColored(pos, i, p, c);
    }
    if IsSet(pos.white | pos.black, i) {
      var p, c := ColoredHasOwner(pos, i);
    }
  }

  /** A piece type holding square i, when some piece type does. */
  lemma PieceOn(pos: Position, i: nat) returns (p: Piece)
    requires i < 64 && IsSet(Occupied(pos), i)
    ensures IsSet(PieceMask(pos, p), i)
  {
    BitOfUnion6(pos.pawn, pos.bishop, pos.knight, pos.rook, pos.queen, pos.king, i);
    if IsSet(pos.pawn, i) {
      p := Pawn;
    } else if IsSet(pos.bishop, i) {
      p := Bishop;
    } else if IsSet(pos.knight, i) {
      p := Knight;
    } else if IsSet(pos.rook, i) {
      p := Rook;
    } else if IsSet(pos.queen, i) {
      p := Queen;
    } else {
      p := King;
    }
  }

  // Facts about the start-of-game position.

  lemma NewGetExamples()
    ensures Get(New(), Pawn, White) == 0x000000000000ff00
    ensures Get(New(), Pawn, Black) == 0x00ff000000000000
    ensures Get(New(), Knight, White) == 0x0000000000000042
    ensures Get(New(), King, All) == 0x0800000000000008
    ensures Get(New(), Queen, All) == 0x1000000000000010
  {
  }

  lemma WhiteBit(i: nat)
    requires i < 64
    ensures IsSet(New().white, i) <==> i < 16
  {
  }

  lemma BlackBit(i: nat)
    requires i < 64
    ensures IsSet(New().black, i) <==> 48 <= i
  {
  }

  lemma PawnBit(i: nat)
    requires i < 64
    ensures IsSet(New().pawn, i) <==> 8 <= i < 16 || 48 <= i < 56
  {
  }

  lemma BishopBit(i: nat)
    requires i < 64
    ensures IsSet(New().bishop, i) <==> i == 2 || i == 5 || i == 58 || i == 61
  {
  }

  lemma KnightBit(i: nat)
    requires i < 64
    ensures IsSet(New().knight, i) <==> i == 1 || i == 6 || i == 57 || i == 62
  {
  }

  lemma RookBit(i: nat)
    requires i < 64
    ensures IsSet(New().rook, i) <==> i == 0 || i == 7 || i == 56 || i == 63
  {
  }

  lemma QueenBit(i: nat)
    requires i < 64
    ensures IsSet(New().queen, i) <==> i == 4 || i == 60
  {
  }

  lemma KingBit(i: nat)
    requires i < 64
    ensures IsSet(New().king, i) <==> i == 3 || i == 59
  {
  }

  /** The piece types on squares 0..7 at the start; squares 56..63 hold
      the same types in the same order. */
  const BACK_RANK: seq<Piece> := [Rook, Knight, Bishop, King, Queen, Bishop, Knight, Rook]

  /** Square j of the first rank and square 56 + j of the last rank hold
      piece type BACK_RANK[j] at the start. */
  lemma NewBackRanks(j: nat)
    requires j < 8
    ensures IsSet(PieceMask(New(), BACK_RANK[j]), j)
    ensures IsSet(PieceMask(New(), BACK_RANK[j]), 56 + j)
  {
    BishopBit(j);
    KnightBit(j);
    RookBit(j);
    QueenBit(j);
    KingBit(j);
    BishopBit(56 + j);
    KnightBit(56 + j);
    RookBit(56 + j);
    QueenBit(56 + j);
    KingBit(56 + j);
  }

  lemma WhiteSquares()
    ensures Squares(New().white) == Range(0, 16)
    ensures PopCount(New().white) == 16
  {
    forall i: nat | i < 64 {
      WhiteBit(i);
    }
    assert Squares(New().white) == Range(0, 16);
    RangeSize(0, 16);
  }

  lemma BlackSquares()
    ensures Squares(New().black) == Range(48, 64)
    ensures PopCount(New().black) == 16
  {
    forall i: nat | i < 64 {
      BlackBit(i);
    }
    assert Squares(New().black) == Range(48, 64);
    RangeSize(48, 64);
  }

  lemma PawnSquares()
    ensures Squares(New().pawn) == Range(8, 16) + Range(48, 56)
    ensures PopCount(New().pawn) == 16
  {
    forall i: nat | i < 64 {
      PawnBit(i);
    }
    assert Squares(New().pawn) == Range(8, 16) + Range(48, 56);
    RangeSize(8, 16);
    RangeSize(48, 56);
    assert Range(8, 16) * Range(48, 56) == {};
  }

  lemma BishopSquares()
    ensures Squares(New().bishop) == {2, 5, 58, 61}
    ensures PopCount(New().bishop) == 4
  {
  }

  lemma KnightSquares()
    ensures Squares(New().knight) == {1, 6, 57, 62}
    ensures PopCount(New().knight) == 4
  {
  }

  lemma RookSquares()
    ensures Squares(New().rook) == {0, 7, 56, 63}
    ensures PopCount(New().rook) == 4
  {
  }

  lemma QueenSquares()
    ensures Squares(New().queen) == {4, 60}
    ensures PopCount(New().queen) == 2
  {
  }

  lemma KingSquares()
    ensures Squares(New().king) == {3, 59}
    ensures PopCount(New().king) == 2
  {
  }

  /** The four middle rows, squares 16..47, are empty at the start. */
  lemma NewMiddleEmpty()
    ensures forall i: nat :: 16 <= i < 48 ==> !IsSet(ColorMask(New(), All), i)
  {
    forall i: nat | 16 <= i < 48
      ensures !IsSet(ColorMask(New(), All), i)
    {
      BitOfUnion(New().white, New().black, i);
      WhiteBit(i);
      BlackBit(i);
    }
  }

  /** Population counts of the start-of-game planes. */
  lemma NewPopCounts()
    ensures PopCount(New().white) == 16 && PopCount(New().black) == 16
    ensures PopCount(New().pawn) == 16
    ensures PopCount(New().bishop) == 4 && PopCount(New().knight) == 4
    ensures PopCount(New().rook) == 4
    ensures PopCount(New().queen) == 2 && PopCount(New().king) == 2
  {
    WhiteSquares();
    BlackSquares();
    PawnSquares();
    BishopSquares();
    KnightSquares();
    RookSquares();
    QueenSquares();
    KingSquares();
  }

  /** Thirty-two pieces stand on the board at the start. */
  lemma NewPieceTotal()
    ensures PopCount(ColorMask(New(), All)) == 32
  {
    WhiteSquares();
    BlackSquares();
    PopCountOfDisjointUnion(New().white, New().black);
  }

  /** The `All` queries of the start position see every piece of a type. */
  lemma NewPopCountsAll()
    ensures PopCount(Get(New(), Pawn, All)) == 16
    ensures PopCount(Get(New(), Bishop, All)) == 4
    ensures PopCount(Get(New(), Knight, All)) == 4
    ensures PopCount(Get(New(), Rook, All)) == 4
    ensures PopCount(Get(New(), Queen, All)) == 2
    ensures PopCount(Get(New(), King, All)) == 2
  {
    var pos := New();
    assert Get(pos, Pawn, All) == pos.pawn;
    assert Get(pos, Bishop, All) == pos.bishop;
    assert Get(pos, Knight, All) == pos.knight;
    assert Get(pos, Rook, All) == pos.rook;
    assert Get(pos, Queen, All) == pos.queen;
    assert Get(pos, King, All) == pos.king;
    NewPopCounts();
  }
}
