# chess-rust position model

A model of the bitboard chess position in `src/position.rs`. The file has
four parts:

- `Position` stores two colour planes, six piece planes and the side to
  move. A plane is a 64-bit mask, with bit i standing for square i.
- `Position::new` builds the start-of-game position.
- `Position::get` answers "which squares hold piece p of colour c". It ANDs
  one colour plane with one piece plane. `Color::All` selects the union of
  both colour planes.
- `piece_char` and the `Display` implementation draw the board as text.
  They start from a 64-cell buffer of `.` characters and run twelve painting
  passes, one per (colour, piece) pair, in a fixed order. Each pass
  overwrites every square that pair holds. The buffer is then cut into eight
  lines of eight characters, each line ends with a newline, and one more
  newline is appended.

The model has three modules:

- `Bitboards` (`bitboard.dfy`) covers masks as `bv64`, square membership,
  the squares of a mask and population counts.
- `Positions` (`position.dfy`) holds the position value, `New`, `Get`, the
  board invariant `Valid` and the facts about the start position.
- `Display` (`display.dfy`) holds `PieceChar`, the specification of the
  painted buffer (`Painted`, `Board`) and of the line layout (`Layout`), and
  the imperative renderer. The renderer is `PaintPass` (the inner `while`
  loop over an `array<char>`), `PaintAll` (the nested loops over colours and
  pieces) and `Render` (the line loop and the final newline).

A position is never changed after it is built, so it is a datatype. The
renderer changes its buffer in place, so it is written with methods, arrays
and loop invariants.

The text of the start position follows the constants in the code. The
king plane is `0x800000000000008` (squares 3 and 59) and the queen plane is
`0x1000000000000010` (squares 4 and 60), so the king is drawn before the
queen on both back ranks. `NewText` states the whole start text, line by
line.

## Model

| member | source | states |
|---|---|---|
| Positions.ColorMask | src/position.rs:49-53 | the colour plane `get` selects: `White` and `Black` their own plane, `All` the union of both; what it means for squares is stated by `GetBit` and `GetAllIsBothColors` |
| Positions.PieceMask | src/position.rs:54-61 | the piece plane `get` selects for each of the six piece types; what it means for squares is stated by `GetBit` and `PieceOn` |
| Positions.Get | src/position.rs:48-63 | the answer of `get`; its meaning is stated by `GetBit` (square by square) and `GetSquares` (as a set of squares) |
| Positions.New | src/position.rs:34-46 | the start position keeps the board invariants: the colour planes are disjoint, the six piece planes are pairwise disjoint, and together they cover exactly the coloured squares; White is to move |
| Positions.GetWithinPlanes | src/position.rs:48-63 | the answer of `get` lies within the selected piece plane and within the selected colour plane |
| Positions.GetBit | src/position.rs:48-63 | square i is in `get(p, c)` if and only if it is in both selected planes |
| Positions.GetSquares | src/position.rs:48-63 | the squares of `get(p, c)` are the intersection of the squares of the two selected planes |
| Positions.GetAllIsBothColors | src/position.rs:49-53 | `get(p, All)` is the union of `get(p, White)` and `get(p, Black)` |
| Positions.GetColorsDisjoint | src/position.rs:48-63 | when the colour planes are disjoint, the White and Black answers for a piece type share no square |
| Positions.GetFiltersAll | src/position.rs:48-63 | every answer is the `All` answer masked by the selected colour plane |
| Positions.GetPairsDisjoint | src/position.rs:48-63 | on a valid board, different (piece, colour) pairs with real colours have disjoint answers |
| Positions.UniqueOwner | src/position.rs:48-63 | on a valid board at most one (piece, colour) pair holds a given square |
| Positions.OwnedIsColored | src/position.rs:48-63 | a square some (piece, real colour) pair holds is in the union of the colour planes |
| Positions.ColoredHasOwner | src/position.rs:48-63 | when the piece planes cover the colour planes, every coloured square has a (piece, real colour) pair holding it |
| Positions.OccupiedHasOwner | src/position.rs:48-63 | when the piece planes cover the colour planes, a square is coloured if and only if some (piece, real colour) pair holds it |
| Positions.PieceOn | src/position.rs:54-61 | a square in the union of the piece planes is in one of the six piece planes |
| Positions.NewGetExamples | src/position.rs:34-63 | example answers of `get` on the start position, e.g. the White pawns are `0xff00` |
| Positions.WhiteBit | src/position.rs:36 | in the start position White holds exactly squares 0..15 |
| Positions.BlackBit | src/position.rs:37 | in the start position Black holds exactly squares 48..63 |
| Positions.PawnBit | src/position.rs:38 | the start pawns stand exactly on squares 8..15 and 48..55 |
| Positions.WhiteSquares | src/position.rs:36 | the White plane at the start is squares 0..15, sixteen in all |
| Positions.BlackSquares | src/position.rs:37 | the Black plane at the start is squares 48..63, sixteen in all |
| Positions.PawnSquares | src/position.rs:38 | the pawn plane at the start is squares 8..15 and 48..55, sixteen in all |
| Positions.BishopSquares | src/position.rs:39 | the bishop plane at the start is {2, 5, 58, 61}, four in all |
| Positions.KnightSquares | src/position.rs:40 | the knight plane at the start is {1, 6, 57, 62}, four in all |
| Positions.QueenSquares | src/position.rs:41 | the queen plane at the start is {4, 60}, two in all |
| Positions.KingSquares | src/position.rs:42 | the king plane at the start is {3, 59}, two in all |
| Positions.RookSquares | src/position.rs:43 | the rook plane at the start is {0, 7, 56, 63}, four in all |
| Positions.BishopBit | src/position.rs:39 | the start bishops stand exactly on squares 2, 5, 58 and 61 |
| Positions.KnightBit | src/position.rs:40 | the start knights stand exactly on squares 1, 6, 57 and 62 |
| Positions.QueenBit | src/position.rs:41 | the start queens stand exactly on squares 4 and 60 |
| Positions.KingBit | src/position.rs:42 | the start kings stand exactly on squares 3 and 59 |
| Positions.RookBit | src/position.rs:43 | the start rooks stand exactly on squares 0, 7, 56 and 63 |
| Positions.NewBackRanks | src/position.rs:39-43 | at the start, column j of both back ranks holds piece `BACK_RANK[j]`: rook, knight, bishop, king, queen, bishop, knight, rook |
| Positions.NewMiddleEmpty | src/position.rs:36-37 | squares 16..47 are in neither colour plane at the start |
| Positions.NewPopCounts | src/position.rs:36-43 | the start population counts: White 16, Black 16, pawns 16, bishops 4, knights 4, rooks 4, queens 2, kings 2 |
| Positions.NewPieceTotal | src/position.rs:36-37 | thirty-two squares are coloured at the start |
| Positions.NewPopCountsAll | src/position.rs:34-63 | the `All` answers of `get` at the start count 16 pawns, 4 bishops, 4 knights, 4 rooks, 2 queens and 2 kings |
| Display.AsciiLower | src/position.rs:76 | ASCII lower-casing adds 32 to `A`..`Z`, giving `a`..`z`, and keeps every other character |
| Display.AsciiUpper | src/position.rs:77 | ASCII upper-casing subtracts 32 from `a`..`z`, giving `A`..`Z`, and keeps every other character |
| Display.AsciiCaseRoundTrip | src/position.rs:76-77 | lower-casing undoes upper-casing on lower-case letters, and the other way round |
| Display.BaseLetter | src/position.rs:67-74 | every piece type starts from a lower-case ASCII letter |
| Display.PieceChar | src/position.rs:66-81 | White pieces are drawn with their lower-case letter and Black pieces with the upper-case form of it; no piece is drawn as `.`; `All` is not accepted (`piece_char` panics on it) |
| Display.PieceCharInjective | src/position.rs:66-81 | different (piece, real colour) pairs get different characters |
| Display.Pass | src/position.rs:84-95 | pass k paints a real colour, White for the first six passes and Black for the last six, and piece `PIECES[k % 6]` |
| Display.PieceIndex | src/position.rs:85-92 | every piece type has a place in the drawing order |
| Display.PassIndex | src/position.rs:84-95 | every (piece, real colour) pair has a painting pass: White passes come first, then Black |
| Display.PassesDistinct | src/position.rs:84-95 | every pass paints a real colour, and no two passes paint the same pair |
| Display.Painted | src/position.rs:94-106 | the character of a square after the first n passes: the last pass whose answer holds the square wins, `.` when none does; stated by `PaintedByOwner` and `PaintedUnowned` |
| Display.Board | src/position.rs:93 | the painted buffer has 64 cells |
| Display.Layout | src/position.rs:107-112 | cutting cells into lines of eight, each with a newline, gives nine characters per line |
| Display.LayoutAt | src/position.rs:107-112 | character 9r+j of the layout is cell 8r+j, and character 9r+8 is a newline |
| Display.PaintedByOwner | src/position.rs:94-106 | a square only pair (p, c) holds stays `.` until the pass for (p, c) has run, and shows `piece_char(p, c)` from then on |
| Display.SoleOwner | src/position.rs:94-106 | on a valid board the pair holding a square is the only pair holding it |
| Display.PaintedUnowned | src/position.rs:93-106 | a square no pair holds stays `.` through every pass |
| Display.PassesWriteOnce | src/position.rs:94-106 | on a valid board at most one of the twelve passes writes a given buffer cell |
| Display.BoardCellOwner | src/position.rs:93-106 | on a valid board, buffer cell i is `piece_char(p, c)` if and only if bit i of `get(p, c)` is set |
| Display.BoardCellEmpty | src/position.rs:93-106 | on a valid board, buffer cell i is `.` if and only if no colour plane holds square i |
| Display.Probe | src/position.rs:99-100 | the test `b & (1 << k) != 0` holds exactly when square k is in b |
| Display.MaskTest | src/position.rs:99-100 | the single-bit mask test reads bit k of the mask |
| Display.PaintPass | src/position.rs:96-104 | after one pass, every cell whose square is in the mask holds the pass's character and every other cell is unchanged |
| Display.PaintAll | src/position.rs:93-106 | after the nested loops the fresh buffer holds exactly the painted board |
| Display.Render | src/position.rs:83-114 | the text is the painted board laid out in eight lines plus a final newline, 73 characters in all |
| Display.TextAt | src/position.rs:107-113 | in the text of 64 cells, characters 9r..9r+7 are cells 8r..8r+7, character 9r+8 is a newline, and character 72 is the final newline |
| Display.NewBackRankCells | src/position.rs:36-43 | at the start, cell j of the first line is the White piece of column j and cell 56+j is the Black piece of column j |
| Display.NewPawnCells | src/position.rs:36-38 | at the start, cells 8..15 are `p` and cells 48..55 are `P` |
| Display.NewEmptyCells | src/position.rs:36-37 | at the start, cells 16..47 are `.` |
| Display.BackRankLetters | src/position.rs:66-81 | the back-rank pieces are drawn `rnbkqbnr` for White and `RNBKQBNR` for Black |
| Display.NewLines | src/position.rs:34-46 | the eight lines of the start buffer are `rnbkqbnr`, `pppppppp`, four lines of `........`, `PPPPPPPP` and `RNBKQBNR` |
| Display.LayoutLine | src/position.rs:108-112 | appending a line of eight cells appends those cells and a newline to the text |
| Display.NewText | src/position.rs:34-46 | the text written for the start position is `rnbkqbnr`, `pppppppp`, four lines of `........`, `PPPPPPPP`, `RNBKQBNR`, each followed by a newline, then one more newline |

## Left out

- The `std::fmt::Formatter` sink and the `fmt::Result` it returns (src/position.rs:83, 113). `Render` returns the text `writeln!` would write.
- The `#[derive(Debug)]` implementations (src/position.rs:3, 10, 20). They are generated code with no stated behaviour.
- The panic in `piece_char` on `Color::All` (src/position.rs:78). It is modelled as the precondition `c != All`, which the renderer always meets.
- The library helpers `chunks_exact`, `iter().collect()` and `make_ascii_lowercase`/`make_ascii_uppercase`. They are modelled as sequence slicing and explicit ASCII case maps.
- The loop counter `mask` is a `usize` in position.rs. It is an unbounded `nat` here, converted to a 7-bit shift amount for the bit test; it never exceeds 64, so the difference does not matter.
- Population counts and square sets do not appear in position.rs. They are specification notions used to state facts about the start position.
- The side to move is only stored; no operation reads it.
