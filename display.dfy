/** The text form of a position: one character per square, eight squares to
    a line, square 0 first. */
module Display {
  import opened Bitboards
  import opened Positions

  /** The letter of a piece type before its colour is applied. */
  function BaseLetter(p: Piece): (ch: char)
    ensures IsAsciiLower(ch)
  {
    match p
    case Pawn => 'p'
    case Bishop => 'b'
    case Knight => 'n'
    case King => 'k'
    case Queen => 'q'
    case Rook => 'r'
  }

  predicate IsAsciiLower(ch: char)
  {
    'a' <= ch <= 'z'
  }

  predicate IsAsciiUpper(ch: char)
  {
    'A' <= ch <= 'Z'
  }

  /** ASCII lower-casing: upper-case ASCII letters move up by 32, every
      other character is kept. */
  function AsciiLower(ch: char): (r: char)
    ensures IsAsciiUpper(ch) ==> IsAsciiLower(r) && r as int == ch as int + 32
    ensures !IsAsciiUpper(ch) ==> r == ch
  {
    if IsAsciiUpper(ch) then (ch as int + 32) as char else ch
  }

  /** ASCII upper-casing: lower-case ASCII letters move down by 32, every
      other character is kept. */
  function AsciiUpper(ch: char): (r: char)
    ensures IsAsciiLower(ch) ==> IsAsciiUpper(r) && r as int == ch as int - 32
    ensures !IsAsciiLower(ch) ==> r == ch
  {
    if IsAsciiLower(ch) then (ch as int - 32) as char else ch
  }

  /** Lower-casing undoes upper-casing on lower-case letters, and the other
      way round. */
  lemma AsciiCaseRoundTrip(ch: char)
    ensures IsAsciiLower(ch) ==> AsciiLower(AsciiUpper(ch)) == ch
    ensures IsAsciiUpper(ch) ==> AsciiUpper(AsciiLower(ch)) == ch
  {
  }

  /** The character drawn for a piece: lower case for White, upper case for
      Black. `piece_char` in position.rs panics on `All`; here no caller may pass it. */
  function PieceChar(p: Piece, c: Color): (ch: char)
    requires c != All
    ensures c == White ==> IsAsciiLower(ch) && ch == BaseLetter(p)
    ensures c == Black ==> IsAsciiUpper(ch) && AsciiLower(ch) == BaseLetter(p)
    ensures ch != '.'
  {
    var base := BaseLetter(p);
    match c
    case White => AsciiLower(base)
    case Black => AsciiUpper(base)
  }

  /** Different (piece, colour) pairs are drawn differently, so the text
      determines the board. */
  lemma PieceCharInjective(p: Piece, c: Color, q: Piece, d: Color)
    requires c != All && d != All
    requires PieceChar(p, c) == PieceChar(q, d)
    ensures p == q && c == d
  {
  }

  /** The colours and piece types in the order the board is painted. */
  const COLORS: seq<Color> := [White, Black]
  const PIECES: seq<Piece> := [Pawn, Bishop, Rook, Knight, King, Queen]

  /** Pass k of the twelve painting passes: the first six paint White,
      the last six Black, each colour in the order of PIECES. */
  function Pass(k: nat): (r: (Piece, Color))
    requires k < 12
    ensures r.1 != All
    ensures r.1 == White <==> k < 6
    ensures r.0 == PIECES[k % 6]
  {
    if k < 6 then (PIECES[k], COLORS[0]) else (PIECES[k - 6], COLORS[1])
  }

  /** The position of a piece type in PIECES. */
  function PieceIndex(p: Piece): (k: nat)
    ensures k < 6 && PIECES[k] == p
  {
    match p
    case Pawn => 0
    case Bishop => 1
    case Rook => 2
    case Knight => 3
    case King => 4
    case Queen => 5
  }

  /** The pass that paints piece p in colour c. */
  function PassIndex(p: Piece, c: Color): (k: nat)
    requires c != All
    ensures k < 12 && Pass(k) == (p, c)
  {
    var k := PieceIndex(p);
    assert COLORS[0] == White && COLORS[1] == Black;
    if c == White then k else 6 + k
  }

  /** Every pass paints a real colour, and no two passes paint the same
      (piece, colour) pair. */
  lemma PassesDistinct(k: nat)
    requires k < 12
    ensures Pass(k).1 != All
    ensures PassIndex(Pass(k).0, Pass(k).1) == k
  {
  }

  /** The character at square i after the first n passes: the last pass
      whose answer of `get` holds i wins, '.' when none does. */
  function Painted(pos: Position, n: nat, i: nat): char
    requires n <= 12 && i < 64
  {
    if n == 0 then '.'
    else
      var pass := Pass(n - 1);
      if IsSet(Get(pos, pass.0, pass.1), i) then PieceChar(pass.0, pass.1)
      else Painted(pos, n - 1, i)
  }

  /** The 64 cells after all twelve passes. */
  function Board(pos: Position): (cells: seq<char>)
    ensures |cells| == 64
  {
    seq(64, i requires 0 <= i < 64 => Painted(pos, 12, i))
  }

  /** The cells cut into lines of eight, each followed by a newline. */
  function Layout(cells: seq<char>): (s: string)
    requires |cells| % 8 == 0
    ensures |s| == |cells| / 8 * 9
    decreases |cells|
  {
    if cells == [] then ""
    else Layout(cells[..|cells| - 8]) + cells[|cells| - 8..] + "\n"
  }

  /** Line r of the layout holds cells 8r..8r+7 followed by a newline. */
  lemma {:induction false} LayoutAt(cells: seq<char>, r: nat, j: nat)
    requires |cells| % 8 == 0
    requires r < |cells| / 8 && j < 8
    ensures Layout(cells)[9 * r + j] == cells[8 * r + j]
    ensures Layout(cells)[9 * r + 8] == '\n'
    decreases |cells|
  {
    var n := |cells|;
    var front := cells[..n - 8];
    assert Layout(cells) == Layout(front) + cells[n - 8..] + "\n";
    if r < n / 8 - 1 {
      LayoutAt(front, r, j);
    }
  }

  /** A square that piece p of colour c holds, and no other (piece, colour)
      pair does, is drawn with that piece's character once pass
      PassIndex(p, c) has run, and is still '.' before. */
  lemma {:induction false} PaintedByOwner(pos: Position, n: nat, i: nat, p: Piece, c: Color)
    requires n <= 12 && i < 64 && c != All
    requires IsSet(Get(pos, p, c), i)
    requires forall q, d :: d != All && IsSet(Get(pos, q, d), i) ==> q == p && d == c
    ensures Painted(pos, n, i) == if PassIndex(p, c) < n then PieceChar(p, c) else '.'
  {
    if n > 0 {
      PassesDistinct(n - 1);
      PaintedByOwner(pos, n - 1, i, p, c);
    }
  }

  /** On a valid board the owner of a square is its only owner. This is
      UniqueOwner quantified over the second pair, in the form
      PaintedByOwner takes; PaintedByOwner does not require Valid itself
      because carrying Valid through its induction is costly to prove. */
  lemma SoleOwner(pos: Position, i: nat, p: Piece, c: Color)
    requires Valid(pos)
    requires i < 64 && c != All
    requires IsSet(Get(pos, p, c), i)
    ensures forall q, d :: d != All && IsSet(Get(pos, q, d), i) ==> q == p && d == c
  {
    forall q, d | d != All && IsSet(Get(pos, q, d), i)
      ensures q == p && d == c
    {
      UniqueOwner(pos, i, p, c, q, d);
    }
  }

  /** A square no (piece, colour) pair holds stays '.'. */
  lemma {:induction false} PaintedUnowned(pos: Position, n: nat, i: nat)
    requires n <= 12 && i < 64
    requires forall p, c :: c != All ==> !IsSet(Get(pos, p, c), i)
    ensures Painted(pos, n, i) == '.'
  {
    if n > 0 {
      PassesDistinct(n - 1);
      PaintedUnowned(pos, n - 1, i);
    }
  }

  /** On a valid board at most one of the twelve passes writes a given
      square. */
  lemma PassesWriteOnce(pos: Position, i: nat, k: nat, l: nat)
    requires Valid(pos)
    requires i < 64 && k < 12 && l < 12
    requires IsSet(Get(pos, Pass(k).0, Pass(k).1), i)
    requires IsSet(Get(pos, Pass(l).0, Pass(l).1), i)
    ensures k == l
  {
    PassesDistinct(k);
    PassesDistinct(l);
    UniqueOwner(pos, i, Pass(k).0, Pass(k).1, Pass(l).0, Pass(l).1);
  }

  /** On a valid board square i is drawn as piece p of colour c exactly
      when `get(p, c)` holds i. */
  lemma BoardCellOwner(pos: Position, i: nat, p: Piece, c: Color)
    requires Valid(pos)
    requires i < 64 && c != All
    ensures Board(pos)[i] == PieceChar(p, c) <==> IsSet(Get(pos, p, c), i)
  {
    if IsSet(Get(pos, p, c), i) {
      SoleOwner(pos, i, p, c);
      PaintedByOwner(pos, 12, i, p, c);
    } else if Board(pos)[i] == PieceChar(p, c) {
      OccupiedHasOwner(pos, i);
      if IsSet(pos.white | pos.black, i) {
        var q, d := ColoredHasOwner(pos, i);
        SoleOwner(pos, i, q, d);
        PaintedByOwner(pos, 12, i, q, d);
        PieceCharInjective(p, c, q, d);
      } else {
        PaintedUnowned(pos, 12, i);
      }
    }
  }

  /** On a valid board square i is drawn as '.' exactly when neither
      colour plane holds it. */
  lemma BoardCellEmpty(pos: Position, i: nat)
    requires Valid(pos)
    requires i < 64
    ensures Board(pos)[i] == '.' <==> !IsSet(pos.white | pos.black, i)
  {
    OccupiedHasOwner(pos, i);
    if IsSet(pos.white | pos.black, i) {
      var p, c := ColoredHasOwner(pos, i);
      SoleOwner(pos, i, p, c);
      PaintedByOwner(pos, 12, i, p, c);
    } else {
      PaintedUnowned(pos, 12, i);
    }
  }

  /** The test `b & (1 << k) != 0` in position.rs: whether b holds square k. */
  function Probe(b: Bitboard, k: bv7): (hit: bool)
    requires k < 64
    ensures hit <==> BitAt(b, k)
  {
    MaskTest(b, k);
    b & (1 << k) != 0
  }

  /** The bit-vector fact behind Probe, kept in its own lemma so that the
      loop of PaintPass sees only its conclusion. */
  lemma MaskTest(b: Bitboard, k: bv7)
    requires k < 64
    ensures b & (1 << k) != 0 <==> BitAt(b, k)
  {
  }

  /** One painting pass: every square that b holds is overwritten with ch,
      every other square keeps its character. */
  method PaintPass(output: array<char>, b: Bitboard, ch: char)
    requires output.Length == 64
    modifies output
    ensures forall i :: 0 <= i < 64 ==> output[i] == if IsSet(b, i) then ch else old(output[i])
  {
    var mask := 0;
    while mask < 64
      invariant 0 <= mask <= 64
      invariant forall i :: 0 <= i < mask ==> output[i] == if IsSet(b, i) then ch else old(output[i])
      invariant forall i :: mask <= i < 64 ==> output[i] == old(output[i])
    {
      if Probe(b, mask as bv7) {
        output[mask] := ch;
      }
      mask := mask + 1;
    }
  }

  /** The 64 cells of the buffer in position.rs after all twelve passes. */
  method PaintAll(pos: Position) returns (output: array<char>)
    ensures fresh(output) && output[..] == Board(pos)
  {
    output := new char[64](_ => '.');
    for ci := 0 to |COLORS|
      invariant output.Length == 64
      invariant forall i :: 0 <= i < 64 ==> output[i] == Painted(pos, 6 * ci, i)
    {
      var c := COLORS[ci];
      for pi := 0 to |PIECES|
        invariant forall i :: 0 <= i < 64 ==> output[i] == Painted(pos, 6 * ci + pi, i)
      {
        var p := PIECES[pi];
        assert Pass(6 * ci + pi) == (p, c);
        PaintPass(output, Get(pos, p, c), PieceChar(p, c));
      }
    }
  }

  /** The `Display` text of a position: the painted buffer cut into eight
      lines, and the final newline `writeln!` adds. */
  method Render(pos: Position) returns (s: string)
    ensures s == Layout(Board(pos)) + "\n"
    ensures |s| == 73
  {
    var output := PaintAll(pos);
    var out := "";
    for r := 0 to 8
      invariant out == Layout(output[..8 * r])
    {
      assert output[..8 * r + 8][..8 * r] == output[..8 * r];
      assert output[..8 * r + 8][8 * r..] == output[8 * r..8 * r + 8];
      out := out + output[8 * r..8 * r + 8] + "\n";
    }
    assert output[..64] == output[..];
    s := out + "\n";
  }

  /** Line r of the text holds cells 8r..8r+7 in order and ends with a
      newline; one more newline closes the text. */
  lemma TextAt(cells: seq<char>, r: nat, j: nat)
    requires |cells| == 64
    requires r < 8 && j < 8
    ensures (Layout(cells) + "\n")[9 * r + j] == cells[8 * r + j]
    ensures (Layout(cells) + "\n")[9 * r + 8] == '\n'
    ensures (Layout(cells) + "\n")[72] == '\n'
  {
    LayoutAt(cells, r, j);
  }

  // The start-of-game text.

  /** Column j of the first line shows the White piece of BACK_RANK[j], and
      column j of the last line the Black one. */
  lemma NewBackRankCells(j: nat)
    requires j < 8
    ensures Board(New())[j] == PieceChar(BACK_RANK[j], White)
    ensures Board(New())[56 + j] == PieceChar(BACK_RANK[j], Black)
  {
    var pos := New();
    NewBackRanks(j);
    WhiteBit(j);
    BlackBit(56 + j);
    GetBit(pos, BACK_RANK[j], White, j);
    GetBit(pos, BACK_RANK[j], Black, 56 + j);
    BoardCellOwner(pos, j, BACK_RANK[j], White);
    BoardCellOwner(pos, 56 + j, BACK_RANK[j], Black);
  }

  /** The second line shows White pawns and the seventh Black pawns. */
  lemma NewPawnCells(j: nat)
    requires j < 8
    ensures Board(New())[8 + j] == 'p'
    ensures Board(New())[48 + j] == 'P'
  {
    var pos := New();
    PawnBit(8 + j);
    PawnBit(48 + j);
    WhiteBit(8 + j);
    BlackBit(48 + j);
    GetBit(pos, Pawn, White, 8 + j);
    GetBit(pos, Pawn, Black, 48 + j);
    BoardCellOwner(pos, 8 + j, Pawn, White);
    BoardCellOwner(pos, 48 + j, Pawn, Black);
  }

  /** The four middle lines are empty. */
  lemma NewEmptyCells(i: nat)
    requires 16 <= i < 48
    ensures Board(New())[i] == '.'
  {
    NewMiddleEmpty();
    BoardCellEmpty(New(), i);
  }

  /** The letters of the back ranks, column by column. */
  lemma BackRankLetters(j: nat)
    requires j < 8
    ensures PieceChar(BACK_RANK[j], White) == "rnbkqbnr"[j]
    ensures PieceChar(BACK_RANK[j], Black) == "RNBKQBNR"[j]
  {
    if j == 0 {
    } else if j == 1 {
    } else if j == 2 {
    } else if j == 3 {
    } else if j == 4 {
    } else if j == 5 {
    } else if j == 6 {
    } else {
    }
  }

  /** The eight lines of the start board. */
  lemma NewLines()
    ensures Board(New())[0..8] == "rnbkqbnr"
    ensures Board(New())[8..16] == "pppppppp"
    ensures Board(New())[16..24] == "........"
    ensures Board(New())[24..32] == "........"
    ensures Board(New())[32..40] == "........"
    ensures Board(New())[40..48] == "........"
    ensures Board(New())[48..56] == "PPPPPPPP"
    ensures Board(New())[56..64] == "RNBKQBNR"
  {
    forall j: nat | j < 8
      ensures Board(New())[j] == "rnbkqbnr"[j]
      ensures Board(New())[56 + j] == "RNBKQBNR"[j]
    {
      NewBackRankCells(j);
      BackRankLetters(j);
    }
    forall i: nat | 8 <= i < 16
      ensures Board(New())[i] == 'p'
    {
      NewPawnCells(i - 8);
    }
    forall i: nat | 48 <= i < 56
      ensures Board(New())[i] == 'P'
    {
      NewPawnCells(i - 48);
    }
    forall i: nat | 16 <= i < 48
      ensures Board(New())[i] == '.'
    {
      NewEmptyCells(i);
    }
  }

  /** Appending a line of eight cells appends that line and a newline to
      the layout. */
  lemma LayoutLine(cells: seq<char>, r: nat)
    requires |cells| % 8 == 0 && 8 * r + 8 <= |cells|
    ensures Layout(cells[..8 * r + 8]) == Layout(cells[..8 * r]) + cells[8 * r..8 * r + 8] + "\n"
  {
    var front := cells[..8 * r + 8];
    assert front[..8 * r] == cells[..8 * r];
    assert front[8 * r..] == cells[8 * r..8 * r + 8];
  }

  /** The text of the start position. The king plane holds squares 3 and
      59 and the queen plane squares 4 and 60, so the king is drawn before
      the queen on both back ranks. */
  lemma NewText()
    ensures Layout(Board(New())) + "\n" ==
      "rnbkqbnr" + "\n" + "pppppppp" + "\n" + "........" + "\n" + "........" + "\n" +
      "........" + "\n" + "........" + "\n" + "PPPPPPPP" + "\n" + "RNBKQBNR" + "\n" + "\n"
  {
    var b := Board(New());
    NewLines();
    LayoutLine(b, 0);
    LayoutLine(b, 1);
    LayoutLine(b, 2);
    LayoutLine(b, 3);
    LayoutLine(b, 4);
    LayoutLine(b, 5);
    LayoutLine(b, 6);
    LayoutLine(b, 7);
    assert b[..0] == [];
    assert b[..64] == b;
  }
}
