/** The first Tablut engine (src/tablut.rs). The 9x9 board is packed two
 *  bits per cell into three u64 words: cell p is at bit 2p of the 192-bit
 *  number a.2 a.1 a.0, so word (2p)/64 at shift (2p) mod 64. Positions are
 *  u8 values (bv8) as in the source, `turn` is a bool (true: the defenders
 *  and the king move), and `mov` pushes the whole board on the undo stack
 *  `st`, which `rollback` pops. */
module Tablut {
  import opened Games

  datatype Tile = E | A | D | K

  /** `Tile::from`: the low two bits of a u64. */
  function TileOf(x: bv64): (t: Tile)
  {
    var v := x & 3;
    if v == 1 then A else if v == 2 then D else if v == 3 then K else E
  }

  /** `v as u64`. */
  function Code(t: Tile): (c: bv64)
    ensures c < 4
  {
    match t
    case E => 0
    case A => 1
    case D => 2
    case K => 3
  }

  /** Tile::from reads only the low two bits, and it and `as u64` are
   *  mutually inverse. */
  lemma TileCode(t: Tile, x: bv64)
    ensures TileOf(Code(t)) == t
    ensures TileOf(x) == TileOf(x & 3)
    ensures Code(TileOf(x)) == x & 3
  {
  }

  type Words = (bv64, bv64, bv64)

  /** The field at even shift s of a word. */
  function FieldOf(x: bv64, s: bv64): bv64
    requires s < 64
  {
    (x >> s) & 3
  }

  /** The word with the field at shift s replaced by c, as set writes it. */
  function SetFieldOf(x: bv64, s: bv64, c: bv64): bv64
    requires s < 64 && c < 4
  {
    (x & !(3 << s)) | (c << s)
  }

  lemma FieldSame(x: bv64, s: bv64, c: bv64)
    requires s < 64 && s & 1 == 0 && c < 4
    ensures FieldOf(SetFieldOf(x, s, c), s) == c
  {
  }

  lemma FieldOther(x: bv64, s: bv64, c: bv64, t: bv64)
    requires s < 64 && t < 64 && s & 1 == 0 && t & 1 == 0 && c < 4 && s != t
    ensures FieldOf(SetFieldOf(x, s, c), t) == FieldOf(x, t)
  {
  }

  /** `pos <<= 1` selects the word: a.2 from bit 128 on, a.1 from bit 64
   *  on, a.0 below; the cells 81, ..., 95 exist in a.2 and are never
   *  placed. */
  function WordIx(pos: bv8): (i: nat)
    requires pos < 96
    ensures i < 3
  {
    var p := pos << 1;
    if p >= 128 then 2 else if p >= 64 then 1 else 0
  }

  /** ... and what is left of `pos << 1` is the shift inside it. */
  function ShiftOf(pos: bv8): (s: bv64)
    requires pos < 96
    ensures s < 64 && s & 1 == 0
  {
    var p := pos << 1;
    (if p >= 128 then p - 128 else if p >= 64 then p - 64 else p) as bv64
  }

  lemma ShiftInjective(p: bv8, q: bv8)
    requires p < 96 && q < 96 && WordIx(p) == WordIx(q) && p != q
    ensures ShiftOf(p) != ShiftOf(q)
  {
  }

  function Word(a: Words, i: nat): bv64
    requires i < 3
  {
    if i == 2 then a.2 else if i == 1 then a.1 else a.0
  }

  /** a with word i replaced by x. */
  function PutWord(a: Words, i: nat, x: bv64): (r: Words)
    requires i < 3
    ensures forall j :: j < 3 ==> Word(r, j) == if j == i then x else Word(a, j)
  {
    if i == 2 then (a.0, a.1, x) else if i == 1 then (a.0, x, a.2) else (x, a.1, a.2)
  }

  /** `get`. */
  function Get(a: Words, pos: bv8): Tile
    requires pos < 96
  {
    TileOf(FieldOf(Word(a, WordIx(pos)), ShiftOf(pos)))
  }

  /** `set`: clear the field, then or the code in. */
  function Set(a: Words, pos: bv8, v: Tile): Words
    requires pos < 96
  {
    PutWord(a, WordIx(pos), SetFieldOf(Word(a, WordIx(pos)), ShiftOf(pos), Code(v)))
  }

  /** After set(p, v), get(p) is v and every other cell is unchanged. */
  lemma GetSet(a: Words, p: bv8, v: Tile, q: bv8)
    requires p < 96 && q < 96
    ensures Get(Set(a, p, v), q) == if q == p then v else Get(a, q)
  {
    TileCode(v, 0);
    var x := Word(a, WordIx(p));
    if p == q {
      FieldSame(x, ShiftOf(p), Code(v));
    } else if WordIx(p) == WordIx(q) {
      ShiftInjective(p, q);
      FieldOther(x, ShiftOf(p), Code(v), ShiftOf(q));
    }
  }

  // ---------------------------------------------------------------------
  // Coordinates and the fixed tables

  function Mapc(x: bv8, y: bv8): bv8 { y * 9 + x }

  /** The cells with `BLOCKS` set (is_block, and is_block_um through
   *  unmapc): the camps and the throne (40). */
  predicate Block(q: bv8) {
    q == 3 || q == 4 || q == 5 || q == 13 || q == 27 || q == 35 || q == 36 || q == 37 || q == 40
    || q == 43 || q == 44 || q == 45 || q == 53 || q == 67 || q == 75 || q == 76 || q == 77
  }

  /** `STARTING_POSITION`, indexed by y and then x. */
  const START: seq<seq<Tile>> := [
    [E, E, E, A, A, A, E, E, E],
    [E, E, E, E, A, E, E, E, E],
    [E, E, E, E, D, E, E, E, E],
    [A, E, E, E, D, E, E, E, A],
    [A, A, D, D, K, D, D, A, A],
    [A, E, E, E, D, E, E, E, A],
    [E, E, E, E, D, E, E, E, E],
    [E, E, E, E, A, E, E, E, E],
    [E, E, E, A, A, A, E, E, E]]

  /** The cell q of the board `new` builds: the starting position on the
   *  board, empty beyond it. */
  function StartCell(q: bv8): Tile
  {
    if q < 81 then START[(q / 9) as int][(q % 9) as int] else E
  }

  // ---------------------------------------------------------------------
  // The board as the rules read it

  /** The tile at every u8 position. `get` cannot address the positions
   *  from 96 on; they read as empty here. */
  type Board = bv8 -> Tile

  function View(a: Words): Board
  {
    q => if q < 96 then Get(a, q) else E
  }

  /** The view of the board after set(p, v): v at p, every other cell as
   *  before. */
  lemma ViewSet(a: Words, p: bv8, v: Tile)
    requires p < 96
    ensures forall q: bv8 :: View(Set(a, p, v))(q) == if q == p then v else View(a)(q)
  {
    forall q: bv8 ensures View(Set(a, p, v))(q) == if q == p then v else View(a)(q) {
      if q < 96 { GetSet(a, p, v, q); }
    }
  }

  /** There is at most one king on the board. */
  ghost predicate OneKing(b: Board)
  {
    forall p: bv8, q: bv8 :: p < 81 && q < 81 && b(p) == K && b(q) == K ==> p == q
  }

  /** Every king is off the first and the last row, so that the four cells
   *  around it are on the board. */
  ghost predicate KingRows(b: Board)
  {
    forall q: bv8 :: q < 81 && b(q) == K ==> 9 <= q < 72
  }

  // ---------------------------------------------------------------------
  // state

  /** `WINS`: the other coordinate of a winning edge cell. */
  predicate WinCol(i: bv8) { i == 0 || i == 1 || i == 5 || i == 7 }

  /** The four checks of one entry i of WINS. */
  predicate WinAt(b: Board, i: bv8)
    requires i < 9
  {
    b(Mapc(i, 0)) == K || b(Mapc(i, 8)) == K || b(Mapc(0, i)) == K || b(Mapc(8, i)) == K
  }

  predicate KingOnWin(b: Board)
  {
    WinAt(b, 0) || WinAt(b, 1) || WinAt(b, 5) || WinAt(b, 7)
  }

  /** The n-th cell the scan of the inner 7x7 visits: y = 1 + n / 7 in the
   *  outer loop, x = 1 + n % 7 in the inner one, cell mapc(y, x). */
  function InnerCell(n: bv8): bv8
    requires n < 49
  {
    Mapc(1 + n / 7, 1 + n % 7)
  }

  /** The scan of the inner 7x7 from its n-th cell on. */
  predicate InnerScan(b: Board, n: bv8)
    requires n <= 49
    decreases 49 - n
  {
    n < 49 && (b(InnerCell(n)) == K || InnerScan(b, n + 1))
  }

  /** `state`: Win when a king stands on a winning edge cell, otherwise Going
   *  when one stands on the inner 7x7, otherwise Lose. */
  function StateOn(b: Board): State
  {
    if KingOnWin(b) then Win else if InnerScan(b, 0) then Going else Lose
  }

  /** The scan finds a king exactly when one of the cells it visits holds one. */
  lemma {:induction false} InnerScanFinds(b: Board, n: bv8)
    requires n <= 49
    ensures InnerScan(b, n) == exists j: bv8 :: n <= j < 49 && b(InnerCell(j)) == K
    decreases 49 - n
  {
    if n < 49 {
      InnerScanFinds(b, n + 1);
      if exists j: bv8 :: n <= j < 49 && b(InnerCell(j)) == K {
        var j: bv8 :| n <= j < 49 && b(InnerCell(j)) == K;
        if j != n { assert n + 1 <= j; }
      }
    }
  }

  /** The winning edge cells and the inner 7x7 square, on cell numbers. */
  predicate EdgeWin(q: bv8)
  {
    q < 81 && (((q / 9 == 0 || q / 9 == 8) && WinCol(q % 9)) || ((q % 9 == 0 || q % 9 == 8) && WinCol(q / 9)))
  }

  predicate Inner(q: bv8)
  {
    1 <= q / 9 <= 7 && 1 <= q % 9 <= 7
  }

  /** With one king on the board, the state is Win exactly when it is on a
   *  winning edge cell, and Going exactly when it is otherwise inside the
   *  inner 7x7. */
  lemma StateOfKing(b: Board, q: bv8)
    requires OneKing(b) && q < 81 && b(q) == K
    ensures (StateOn(b) == Win) == EdgeWin(q)
    ensures (StateOn(b) == Going) == (!EdgeWin(q) && Inner(q))
  {
    WinFinds(b, q);
    InnerFinds(b, q);
  }

  lemma WinFinds(b: Board, q: bv8)
    requires OneKing(b) && q < 81 && b(q) == K
    ensures KingOnWin(b) == EdgeWin(q)
  {
    if EdgeWin(q) {
      assert Mapc(q % 9, q / 9) == q;
    }
  }

  lemma InnerFinds(b: Board, q: bv8)
    requires OneKing(b) && q < 81 && b(q) == K
    ensures InnerScan(b, 0) == Inner(q)
  {
    InnerScanFinds(b, 0);
    if InnerScan(b, 0) {
      var j: bv8 :| 0 <= j < 49 && b(InnerCell(j)) == K;
      InnerCellInner(j);
    } else if Inner(q) {
      InnerIndex(q);
    }
  }

  /** The scan visits only cells of the inner 7x7 ... */
  lemma InnerCellInner(j: bv8)
    requires j < 49
    ensures InnerCell(j) < 81 && Inner(InnerCell(j))
  {
  }

  /** ... and it visits all of them. */
  lemma InnerIndex(q: bv8)
    requires q < 81 && Inner(q)
    ensures (q % 9 - 1) * 7 + (q / 9 - 1) < 49
    ensures InnerCell((q % 9 - 1) * 7 + (q / 9 - 1)) == q
  {
  }

  /** Without a king the game is lost. */
  lemma StateNoKing(b: Board)
    requires forall q: bv8 :: q < 81 ==> b(q) != K
    ensures StateOn(b) == Lose
  {
    InnerScanFinds(b, 0);
  }

  /** A game still going with one king has it off the first and last rows. */
  lemma GoingKingRows(b: Board)
    requires OneKing(b) && StateOn(b) == Going
    ensures KingRows(b)
  {
    forall q: bv8 | q < 81 && b(q) == K ensures 9 <= q < 72 {
      StateOfKing(b, q);
    }
  }

  // ---------------------------------------------------------------------
  // Board updates

  /** The board with v at p. */
  function BSet(b: Board, p: bv8, v: Tile): Board
  {
    q => if q == p then v else b(q)
  }

  /** The words and a board agree on every cell. */
  ghost predicate Same(a: Words, b: Board)
  {
    forall q: bv8 :: View(a)(q) == b(q)
  }

  /** set on the words is BSet on the board. */
  lemma SetSame(a: Words, b: Board, p: bv8, v: Tile)
    requires p < 96 && Same(a, b)
    ensures Same(Set(a, p, v), BSet(b, p, v))
  {
    ViewSet(a, p, v);
  }

  lemma OneKingSame(a: Words, b: Board)
    requires Same(a, b)
    ensures OneKing(View(a)) == OneKing(b)
    ensures KingRows(View(a)) == KingRows(b)
  {
  }

  /** Emptying a cell keeps both king invariants. */
  lemma EmptyKeepsKings(b: Board, p: bv8)
    ensures OneKing(b) ==> OneKing(BSet(b, p, E))
    ensures KingRows(b) ==> KingRows(BSet(b, p, E))
  {
  }

  // ---------------------------------------------------------------------
  // Positions and mov

  /** The struct: the packed board, the side to move and the undo stack. */
  datatype Pos = Pos(a: Words, turn: bool, st: seq<Words>)

  /** The pieces that move on a side's turn: D and K when turn holds, A
   *  otherwise. */
  predicate Mover(t: bool, x: Tile)
  {
    if t then x == K || x == D else x == A
  }

  /** `captured(a1, a2)`, with `turn` the side moving (mov calls it before
   *  the flip). A defenders' move takes an attacker at a1 held against a
   *  defender, the king or a block at a2. An attackers' move takes a
   *  defender at a1 held against a defender or a block at a2, or a king at
   *  a1 with an attacker or a block on each of its four sides. The bounds
   *  keep the u8 arithmetic and the BLOCKS lookups in range. */
  predicate Captured(b: Board, turn: bool, a1: bv8, a2: bv8)
    requires a1 < 81 && a2 < 81
    requires !turn && b(a1) == K ==> 9 <= a1 < 72
  {
    if turn then
      b(a1) == A && (b(a2) == D || b(a2) == K || Block(a2))
    else
      (b(a1) == D && (b(a2) == D || Block(a2)))
      || (b(a1) == K && (b(a1 + 9) == A || Block(a1 + 9)) && (b(a1 - 9) == A || Block(a1 - 9))
          && (b(a1 + 1) == A || Block(a1 + 1)) && (b(a1 - 1) == A || Block(a1 - 1)))
  }

  /** What mov demands of `m` on the side `t` to move: both cells on the
   *  board, and on an attackers' move every king off the edge rows and none
   *  at m.0, so that captured's king test stays on the board. */
  ghost predicate MovOkOn(b: Board, t: bool, m: (bv8, bv8))
  {
    m.0 < 81 && m.1 < 81 && (!t ==> KingRows(b) && b(m.0) != K)
  }

  ghost predicate MovOk(p: Pos, m: (bv8, bv8))
  {
    MovOkOn(View(p.a), p.turn, m)
  }

  /** The piece at m.0 lifted and put down at m.1. */
  function PlacedB(b: Board, m: (bv8, bv8)): Board
  {
    BSet(BSet(b, m.0, E), m.1, b(m.0))
  }

  function Placed(a: Words, m: (bv8, bv8)): Words
    requires m.0 < 81 && m.1 < 81
  {
    Set(Set(a, m.0, E), m.1, Get(a, m.0))
  }

  lemma PlacedSame(a: Words, m: (bv8, bv8))
    requires m.0 < 81 && m.1 < 81
    ensures Same(Placed(a, m), PlacedB(View(a), m))
  {
    SetSame(a, View(a), m.0, E);
    SetSame(Set(a, m.0, E), BSet(View(a), m.0, E), m.1, Get(a, m.0));
  }

  /** The cell q emptied when c holds. */
  function ClearB(b: Board, c: bool, q: bv8): Board
  {
    if c then BSet(b, q, E) else b
  }

  lemma ClearKeepsKings(b: Board, c: bool, q: bv8)
    ensures OneKing(b) ==> OneKing(ClearB(b, c, q))
    ensures KingRows(b) ==> KingRows(ClearB(b, c, q))
  {
    EmptyKeepsKings(b, q);
  }

  function Clear(a: Words, c: bool, q: bv8): Words
    requires q < 96
  {
    if c then Set(a, q, E) else a
  }

  lemma ClearSame(a: Words, b: Board, c: bool, q: bv8)
    requires q < 96 && Same(a, b)
    ensures Same(Clear(a, c, q), ClearB(b, c, q))
  {
    if c { SetSame(a, b, q, E); }
  }

  /** One capture check of mov: its guard g holds and captured(a1, a2). */
  predicate Check(b: Board, t: bool, g: bool, a1: bv8, a2: bv8)
    requires g ==> a1 < 81 && a2 < 81
    requires g && !t && b(a1) == K ==> 9 <= a1 < 72
  {
    g && Captured(b, t, a1, a2)
  }

  /** The checks below and above m1, the second reading the board the
   *  first left. */
  function ChecksDownUp(b: Board, t: bool, m1: bv8): (bool, bool)
    requires m1 < 81 && (!t ==> KingRows(b))
  {
    var c1 := Check(b, t, m1 + 18 < 81, m1 + 9, m1 + 18);
    ClearKeepsKings(b, c1, m1 + 9);
    (c1, Check(ClearB(b, c1, m1 + 9), t, m1 >= 18, m1 - 9, m1 - 18))
  }

  /** The checks right and left of m1. */
  function ChecksRightLeft(b: Board, t: bool, m1: bv8): (bool, bool)
    requires m1 < 81 && (!t ==> KingRows(b))
  {
    var c3 := Check(b, t, m1 % 9 < 7, m1 + 1, m1 + 2);
    ClearKeepsKings(b, c3, m1 + 9);
    (c3, Check(ClearB(b, c3, m1 + 9), t, m1 % 9 > 2, m1 - 1, m1 - 2))
  }

  /** The four capture checks of mov after the piece is placed on `b`, in
   *  mov's order (down, up, right, left of m1), each reading the board the
   *  earlier ones left; every one that holds empties m1 + 9, the same cell
   *  for every direction, as written. */
  function CaptureChecks(b: Board, t: bool, m1: bv8): (bool, bool, bool, bool)
    requires m1 < 81 && (!t ==> KingRows(b))
  {
    var d := ChecksDownUp(b, t, m1);
    ClearKeepsKings(b, d.0, m1 + 9);
    ClearKeepsKings(ClearB(b, d.0, m1 + 9), d.1, m1 + 9);
    var e := ChecksRightLeft(ClearB(ClearB(b, d.0, m1 + 9), d.1, m1 + 9), t, m1);
    (d.0, d.1, e.0, e.1)
  }

  /** The cell q emptied by each check that holds. */
  function ClearsB(b: Board, c: (bool, bool, bool, bool), q: bv8): Board
  {
    ClearB(ClearB(ClearB(ClearB(b, c.0, q), c.1, q), c.2, q), c.3, q)
  }

  lemma ClearsKeepKing(b: Board, c: (bool, bool, bool, bool), q: bv8)
    requires OneKing(b)
    ensures OneKing(ClearsB(b, c, q))
  {
    ClearKeepsKings(b, c.0, q);
    var b1 := ClearB(b, c.0, q);
    ClearKeepsKings(b1, c.1, q);
    var b2 := ClearB(b1, c.1, q);
    ClearKeepsKings(b2, c.2, q);
    ClearKeepsKings(ClearB(b2, c.2, q), c.3, q);
  }

  function Clears(a: Words, c: (bool, bool, bool, bool), q: bv8): Words
    requires q < 96
  {
    Clear(Clear(Clear(Clear(a, c.0, q), c.1, q), c.2, q), c.3, q)
  }

  lemma ClearsSame(a: Words, b: Board, c: (bool, bool, bool, bool), q: bv8)
    requires q < 96 && Same(a, b)
    ensures Same(Clears(a, c, q), ClearsB(b, c, q))
  {
    var a1, b1 := Clear(a, c.0, q), ClearB(b, c.0, q);
    ClearSame(a, b, c.0, q);
    var a2, b2 := Clear(a1, c.1, q), ClearB(b1, c.1, q);
    ClearSame(a1, b1, c.1, q);
    var a3, b3 := Clear(a2, c.2, q), ClearB(b2, c.2, q);
    ClearSame(a2, b2, c.2, q);
    ClearSame(a3, b3, c.3, q);
  }

  /** The board after the checks. */
  function CapturesB(b: Board, t: bool, m1: bv8): Board
    requires m1 < 81 && (!t ==> KingRows(b))
  {
    ClearsB(b, CaptureChecks(b, t, m1), m1 + 9)
  }

  /** mov on the board: placed, then captured. */
  function MovB(b: Board, t: bool, m: (bv8, bv8)): (r: Board)
    requires MovOkOn(b, t, m)
  {
    PlacedKings(b, m);
    CapturesB(PlacedB(b, m), t, m.1)
  }

  /** Placing keeps the kings off the edge rows when it is not the king
   *  that moves, and keeps at most one king. */
  lemma PlacedKings(b: Board, m: (bv8, bv8))
    ensures KingRows(b) && b(m.0) != K ==> KingRows(PlacedB(b, m))
    ensures OneKing(b) && m.0 < 81 && m.1 < 81 ==> OneKing(PlacedB(b, m))
  {
    var c := PlacedB(b, m);
    if OneKing(b) && m.0 < 81 && m.1 < 81 {
      forall x: bv8, y: bv8 | x < 81 && y < 81 && c(x) == K && c(y) == K ensures x == y {
        if x == m.1 || y == m.1 {
        }
      }
    }
  }

  /** `mov`: the board pushed on the stack, the piece moved, the captures
   *  applied and the turn passed. */
  function MovSpec(p: Pos, m: (bv8, bv8)): Pos
    requires MovOk(p, m)
  {
    var c := CaptureChecks(PlacedB(View(p.a), m), p.turn, m.1);
    Pos(Clears(Placed(p.a, m), c, m.1 + 9), !p.turn, p.st + [p.a])
  }

  /** The words mov leaves hold the board MovB computes. */
  lemma MovSame(p: Pos, m: (bv8, bv8))
    requires MovOk(p, m)
    ensures Same(MovSpec(p, m).a, MovB(View(p.a), p.turn, m))
  {
    PlacedSame(p.a, m);
    PlacedKings(View(p.a), m);
    var b := PlacedB(View(p.a), m);
    ClearsSame(Placed(p.a, m), b, CaptureChecks(b, p.turn, m.1), m.1 + 9);
  }

  /** `rollback`: the turn passed back and the board popped. */
  function Undo(p: Pos): (r: Pos)
    requires |p.st| > 0
    ensures |r.st| == |p.st| - 1 && r.turn == !p.turn
  {
    Pos(p.st[|p.st| - 1], !p.turn, p.st[..|p.st| - 1])
  }

  /** rollback undoes mov exactly. */
  lemma RoundTrip(p: Pos, m: (bv8, bv8))
    requires MovOk(p, m)
    ensures Undo(MovSpec(p, m)) == p
  {
  }

  /** What mov changes on the board: m.1 gets the piece from m.0, m.0 is
   *  emptied unless it is m.1, m.1 + 9 may be emptied besides, and nothing
   *  else changes. */
  lemma MovFrame(b: Board, t: bool, m: (bv8, bv8))
    requires MovOkOn(b, t, m)
    ensures MovB(b, t, m)(m.1) == b(m.0)
    ensures m.0 != m.1 ==> MovB(b, t, m)(m.0) == E
    ensures MovB(b, t, m)(m.1 + 9) in {E, PlacedB(b, m)(m.1 + 9)}
    ensures forall q: bv8 :: q != m.0 && q != m.1 && q != m.1 + 9 ==> MovB(b, t, m)(q) == b(q)
  {
  }

  /** mov keeps at most one king on the board. */
  lemma OneKingKept(p: Pos, m: (bv8, bv8))
    requires MovOk(p, m) && OneKing(View(p.a))
    ensures OneKing(View(MovSpec(p, m).a))
  {
    MovSame(p, m);
    PlacedKings(View(p.a), m);
    var b := PlacedB(View(p.a), m);
    ClearsKeepKing(b, CaptureChecks(b, p.turn, m.1), m.1 + 9);
    OneKingSame(MovSpec(p, m).a, MovB(View(p.a), p.turn, m));
  }

  // ---------------------------------------------------------------------
  // get_moves

  /** The cell visited i-th on scan line k, in the order get_moves scans
   *  them: the rows left to right (k < 9), the rows right to left (k < 18),
   *  the columns top to bottom (k < 27) and the columns bottom to top. */
  function LineCell(k: bv8, i: bv8): (q: bv8)
    requires k < 36 && i < 9
    ensures q < 81
  {
    if k < 9 then Mapc(i, k) else if k < 18 then Mapc(8 - i, k - 9)
    else if k < 27 then Mapc(k - 18, i) else Mapc(k - 27, 8 - i)
  }

  /** One cell of a scan on the side t to move: a piece of that side
   *  becomes the last mover (128 for none); an empty block ends the run; any
   *  other empty cell is a destination of the last mover. A piece of the
   *  other side changes nothing, as written. */
  function Step(b: Board, t: bool, q: bv8, last: bv8): (seq<(bv8, bv8)>, bv8)
  {
    match b(q)
    case K => ([], if t then q else last)
    case D => ([], if t then q else last)
    case A => ([], if !t then q else last)
    case E =>
      if Block(q) then ([], 128)
      else if last != 128 then ([(last, q)], last)
      else ([], last)
  }

  /** The moves scan line k emits from its i-th cell on. */
  function LineMoves(b: Board, t: bool, k: bv8, i: bv8, last: bv8): seq<(bv8, bv8)>
    requires k < 36 && i <= 9
    decreases 9 - i
  {
    if i == 9 then []
    else
      var r := Step(b, t, LineCell(k, i), last);
      r.0 + LineMoves(b, t, k, i + 1, r.1)
  }

  /** The moves of the first n scan lines, in order. */
  function AllLines(b: Board, t: bool, n: bv8): seq<(bv8, bv8)>
    requires n <= 36
  {
    if n == 0 then [] else AllLines(b, t, n - 1) + LineMoves(b, t, n - 1, 0, 128)
  }

  /** `get_moves` (and `get_moves_sorted`, which returns it). */
  function Moves(p: Pos): seq<(bv8, bv8)>
  {
    AllLines(View(p.a), p.turn, 36)
  }

  /** A move that lifts a piece of the side to move and puts it on an empty
   *  cell that is not a block. */
  predicate Slide(b: Board, t: bool, m: (bv8, bv8))
  {
    m.0 < 81 && m.1 < 81 && Mover(t, b(m.0)) && b(m.1) == E && !Block(m.1)
  }

  /** The cell q lies on scan line k. */
  predicate OnLine(k: bv8, q: bv8)
  {
    if k < 18 then q / 9 == k % 9 else q % 9 == (k - 18) % 9
  }

  /** Both ends of the move lie on one row or one column. */
  predicate Straight(m: (bv8, bv8))
  {
    m.0 / 9 == m.1 / 9 || m.0 % 9 == m.1 % 9
  }

  lemma LineCellOn(k: bv8, i: bv8)
    requires k < 36 && i < 9
    ensures OnLine(k, LineCell(k, i))
  {
  }

  /** The last mover a scan holds: none, or a piece of the side to move on
   *  the line. */
  ghost predicate LastOk(b: Board, t: bool, k: bv8, last: bv8)
  {
    last == 128 || (last < 81 && Mover(t, b(last)) && OnLine(k, last))
  }

  /** One step of the scan keeps the last mover ... */
  lemma StepLast(b: Board, t: bool, k: bv8, q: bv8, last: bv8)
    requires q < 81 && OnLine(k, q) && LastOk(b, t, k, last)
    ensures LastOk(b, t, k, Step(b, t, q, last).1)
  {
  }

  /** ... and emits a slide along the line. */
  lemma StepSlide(b: Board, t: bool, k: bv8, q: bv8, last: bv8)
    requires q < 81 && OnLine(k, q) && LastOk(b, t, k, last)
    ensures forall m :: m in Step(b, t, q, last).0 ==> Slide(b, t, m) && Straight(m)
  {
    if b(q) == E && !Block(q) && last != 128 {
      assert Step(b, t, q, last).0 == [(last, q)];
      OnLineStraight(k, last, q);
    }
  }

  lemma OnLineStraight(k: bv8, p: bv8, q: bv8)
    requires OnLine(k, p) && OnLine(k, q)
    ensures Straight((p, q))
  {
    if k < 18 { assert p / 9 == q / 9; } else { assert p % 9 == q % 9; }
  }

  /** A scan line emits straight slides only. */
  lemma {:induction false} LineMovesSlide(b: Board, t: bool, k: bv8, i: bv8, last: bv8)
    requires k < 36 && i <= 9 && LastOk(b, t, k, last)
    ensures forall m :: m in LineMoves(b, t, k, i, last) ==> Slide(b, t, m) && Straight(m)
    decreases 9 - i
  {
    if i < 9 {
      LineCellOn(k, i);
      StepSlide(b, t, k, LineCell(k, i), last);
      StepLast(b, t, k, LineCell(k, i), last);
      LineMovesSlide(b, t, k, i + 1, Step(b, t, LineCell(k, i), last).1);
    }
  }

  /** Every generated move is a straight slide. */
  lemma {:induction false} AllLinesSlide(b: Board, t: bool, n: bv8)
    requires n <= 36
    ensures forall m :: m in AllLines(b, t, n) ==> Slide(b, t, m) && Straight(m)
    decreases n
  {
    if n > 0 {
      AllLinesSlide(b, t, n - 1);
      LineMovesSlide(b, t, n - 1, 0, 128);
    }
  }

  /** The reference rule for get_moves, stated on the scan lines. A scan
   *  passes over the cell q when it holds a piece of the other side (as
   *  written) or is an empty cell that is not a block. */
  predicate Passes(b: Board, t: bool, q: bv8)
  {
    !Mover(t, b(q)) && (b(q) == E ==> !Block(q))
  }

  /** The cells of scan line k, by step. */
  function Line(k: bv8): bv8 -> bv8
    requires k < 36
  {
    i => if i < 9 then LineCell(k, i) else 0
  }

  /** A scan from step i on along the line whose cells L lists. */
  function ScanMoves(b: Board, t: bool, L: bv8 -> bv8, i: bv8, last: bv8): seq<(bv8, bv8)>
    requires i <= 9
    decreases 9 - i
  {
    if i == 9 then []
    else
      var r := Step(b, t, L(i), last);
      r.0 + ScanMoves(b, t, L, i + 1, r.1)
  }

  /** A scan line is the scan along its cells. */
  lemma {:induction false} LineScan(b: Board, t: bool, k: bv8, i: bv8, last: bv8)
    requires k < 36 && i <= 9
    ensures LineMoves(b, t, k, i, last) == ScanMoves(b, t, Line(k), i, last)
    decreases 9 - i
  {
    if i < 9 {
      assert Line(k)(i) == LineCell(k, i);
      LineScan(b, t, k, i + 1, Step(b, t, LineCell(k, i), last).1);
    }
  }

  /** A piece of the side to move stands at step i0 of the line L, and the
   *  scan passes over every cell after it, up to step i. */
  ghost predicate Open(b: Board, t: bool, L: bv8 -> bv8, i0: bv8, i: bv8)
  {
    i0 < i && Mover(t, b(L(i0)))
    && forall j: bv8 :: i0 < j < i ==> Passes(b, t, L(j))
  }

  /** m is the move from step i0 to step i1 of the line L, and the rule
   *  allows it: the line is open from i0 up to i1, and i1 is an empty
   *  cell that is not a block. */
  ghost predicate MoveOn(b: Board, t: bool, L: bv8 -> bv8, i0: bv8, i1: bv8, m: (bv8, bv8))
  {
    i1 < 9 && Open(b, t, L, i0, i1) && b(L(i1)) == E && !Block(L(i1)) && m == (L(i0), L(i1))
  }

  /** What the scan remembers at step i: `last` is the cell of the one step
   *  from which the line is open up to i, or 128 when there is none. */
  ghost predicate Tracks(b: Board, t: bool, L: bv8 -> bv8, i: bv8, last: bv8)
  {
    (last == 128 || exists i0: bv8 :: Open(b, t, L, i0, i) && last == L(i0))
    && forall i0: bv8 :: Open(b, t, L, i0, i) ==> last == L(i0)
  }

  lemma OpenShrink(b: Board, t: bool, L: bv8 -> bv8, i0: bv8, i: bv8)
    requires i < 9 && Open(b, t, L, i0, i + 1) && i0 < i
    ensures Open(b, t, L, i0, i) && Passes(b, t, L(i))
  {
    assert i0 < i < i + 1;
  }

  lemma OpenGrow(b: Board, t: bool, L: bv8 -> bv8, i0: bv8, i: bv8)
    requires i < 9 && Open(b, t, L, i0, i) && Passes(b, t, L(i))
    ensures Open(b, t, L, i0, i + 1)
  {
    forall j: bv8 | i0 < j < i + 1 ensures Passes(b, t, L(j)) {
      if j != i { assert j < i; }
    }
  }

  lemma OpenHere(b: Board, t: bool, L: bv8 -> bv8, i: bv8)
    requires i < 9 && Mover(t, b(L(i)))
    ensures Open(b, t, L, i, i + 1)
  {
  }

  /** Any step from which the line is open up to i + 1 is the one the scan
   *  remembers after step i. */
  lemma StepUnique(b: Board, t: bool, L: bv8 -> bv8, i: bv8, last: bv8)
    requires i < 9 && Tracks(b, t, L, i, last)
    ensures forall i0: bv8 :: Open(b, t, L, i0, i + 1) ==> Step(b, t, L(i), last).1 == L(i0)
  {
    forall i0: bv8 | Open(b, t, L, i0, i + 1)
      ensures Step(b, t, L(i), last).1 == L(i0)
    {
      if i0 != i {
        OpenShrink(b, t, L, i0, i);
      }
    }
  }

  /** The scan's memory after step i. */
  lemma StepTracks(b: Board, t: bool, L: bv8 -> bv8, i: bv8, last: bv8)
    requires i < 9 && Tracks(b, t, L, i, last)
    ensures Tracks(b, t, L, i + 1, Step(b, t, L(i), last).1)
  {
    var q := L(i);
    StepUnique(b, t, L, i, last);
    if Mover(t, b(q)) {
      OpenHere(b, t, L, i);
    } else if Passes(b, t, q) && last != 128 {
      var i0: bv8 :| Open(b, t, L, i0, i) && last == L(i0);
      OpenGrow(b, t, L, i0, i);
    }
  }

  /** The moves step i emits are those the rule allows that end at step i. */
  lemma StepEmits(b: Board, t: bool, L: bv8 -> bv8, i: bv8, last: bv8)
    requires i < 9 && Tracks(b, t, L, i, last) && forall j: bv8 :: j < 9 ==> L(j) != 128
    ensures forall m :: m in Step(b, t, L(i), last).0 <==> exists i0: bv8 :: MoveOn(b, t, L, i0, i, m)
  {
    var q := L(i);
    if b(q) == E && !Block(q) && last != 128 {
      var i0: bv8 :| Open(b, t, L, i0, i) && last == L(i0);
      assert MoveOn(b, t, L, i0, i, (last, q));
    }
  }

  /** m is allowed on the line L and ends at step i or later. */
  ghost predicate ReachFrom(b: Board, t: bool, L: bv8 -> bv8, i: bv8, m: (bv8, bv8))
  {
    exists i0: bv8, i1: bv8 :: i <= i1 && MoveOn(b, t, L, i0, i1, m)
  }

  lemma ReachSplit(b: Board, t: bool, L: bv8 -> bv8, i: bv8, m: (bv8, bv8))
    requires i < 9
    ensures ReachFrom(b, t, L, i, m) <==> (exists i0: bv8 :: MoveOn(b, t, L, i0, i, m)) || ReachFrom(b, t, L, i + 1, m)
  {
    if ReachFrom(b, t, L, i, m) {
      var i0: bv8, i1: bv8 :| i <= i1 && MoveOn(b, t, L, i0, i1, m);
      if i1 != i { assert i + 1 <= i1; }
    }
    if ReachFrom(b, t, L, i + 1, m) {
      var i0: bv8, i1: bv8 :| i + 1 <= i1 && MoveOn(b, t, L, i0, i1, m);
      assert i <= i1;
    }
  }

  /** A scan from step i on emits exactly the allowed moves ending at step
   *  i or later. */
  lemma {:induction false} ScanReach(b: Board, t: bool, L: bv8 -> bv8, i: bv8, last: bv8)
    requires i <= 9 && Tracks(b, t, L, i, last) && forall j: bv8 :: j < 9 ==> L(j) != 128
    ensures forall m :: m in ScanMoves(b, t, L, i, last) <==> ReachFrom(b, t, L, i, m)
    decreases 9 - i
  {
    if i < 9 {
      var r := Step(b, t, L(i), last);
      StepTracks(b, t, L, i, last);
      StepEmits(b, t, L, i, last);
      ScanReach(b, t, L, i + 1, r.1);
      forall m ensures m in ScanMoves(b, t, L, i, last) <==> ReachFrom(b, t, L, i, m) {
        ReachSplit(b, t, L, i, m);
      }
    }
  }

  /** m is allowed on the line L. */
  ghost predicate Allowed(b: Board, t: bool, L: bv8 -> bv8, m: (bv8, bv8))
  {
    exists i0: bv8, i1: bv8 :: MoveOn(b, t, L, i0, i1, m)
  }

  /** Scan line k emits exactly the moves the rule allows on it. */
  lemma LineReach(b: Board, t: bool, k: bv8)
    requires k < 36
    ensures forall m :: m in LineMoves(b, t, k, 0, 128) <==> Allowed(b, t, Line(k), m)
  {
    LineScan(b, t, k, 0, 128);
    forall j: bv8 | j < 9 ensures Line(k)(j) != 128 {
      assert Line(k)(j) == LineCell(k, j);
    }
    ScanReach(b, t, Line(k), 0, 128);
  }

  /** m is allowed on one of the first n scan lines. */
  ghost predicate OnLines(b: Board, t: bool, n: bv8, m: (bv8, bv8))
  {
    exists k: bv8 :: k < n <= 36 && Allowed(b, t, Line(k), m)
  }

  lemma OnLinesSplit(b: Board, t: bool, n: bv8, m: (bv8, bv8))
    requires 0 < n <= 36
    ensures OnLines(b, t, n, m) <==> Allowed(b, t, Line(n - 1), m) || OnLines(b, t, n - 1, m)
  {
    var n1 := n - 1;
    if OnLines(b, t, n, m) {
      var k: bv8 :| k < n <= 36 && Allowed(b, t, Line(k), m);
      if k != n1 { assert k < n1; }
    }
    if OnLines(b, t, n1, m) {
      var k: bv8 :| k < n1 <= 36 && Allowed(b, t, Line(k), m);
      assert k < n;
    }
  }

  /** The first n scan lines emit exactly the moves the rule allows on
   *  them. */
  lemma {:induction false} AllLinesReach(b: Board, t: bool, n: bv8)
    requires n <= 36
    ensures forall m :: m in AllLines(b, t, n) <==> OnLines(b, t, n, m)
    decreases n
  {
    if n > 0 {
      LineReach(b, t, n - 1);
      AllLinesReach(b, t, n - 1);
      forall m ensures m in AllLines(b, t, n) <==> OnLines(b, t, n, m) {
        OnLinesSplit(b, t, n, m);
      }
    }
  }

  /** get_moves is sound and complete for the rule: its moves are exactly
   *  those from a piece of the side to move, along one of the 36 scan
   *  lines (a row or a column, in either direction), to an empty cell that
   *  is not a block, over cells that are the other side's pieces (as
   *  written) or empty non-blocks. */
  lemma MovesReach(p: Pos)
    ensures forall m :: m in Moves(p) <==> exists k: bv8, i0: bv8, i1: bv8 :: k < 36 && MoveOn(View(p.a), p.turn, Line(k), i0, i1, m)
  {
    AllLinesReach(View(p.a), p.turn, 36);
  }

  /** A generated move satisfies what mov demands once the game is going
   *  with one king. */
  lemma MovesOk(p: Pos, m: (bv8, bv8))
    requires OneKing(View(p.a)) && StateOn(View(p.a)) == Going && m in Moves(p)
    ensures MovOk(p, m)
  {
    AllLinesSlide(View(p.a), p.turn, 36);
    GoingKingRows(View(p.a));
  }

  /** As written, a piece slides past the other side's pieces: with a
   *  defender at cell 0 and an attacker at cell 1, the defenders may move
   *  0 to 2 across the attacker. */
  lemma JumpsOpponent()
    ensures (0, 2) in LineMoves(q => if q == 0 then D else if q == 1 then A else E, true, 0, 0, 128)
  {
    var b: Board := q => if q == 0 then D else if q == 1 then A else E;
    var r0 := Step(b, true, 0, 128);
    var r1 := Step(b, true, 1, r0.1);
    assert r1.1 == 0;
    assert LineMoves(b, true, 0, 0, 128) == LineMoves(b, true, 0, 2, 0);
    assert LineMoves(b, true, 0, 2, 0) == [(0, 2)] + LineMoves(b, true, 0, 3, 0);
  }

  // ---------------------------------------------------------------------
  // The starting position

  /** The only king of the starting position is on the throne (40) ... */
  lemma StartKing(q: bv8)
    requires q < 81
    ensures StartCell(q) == K <==> q == 40
  {
    var y, x := (q / 9) as int, (q % 9) as int;
    assert START[4][4] == K;
    if StartCell(q) == K {
      assert forall i, j :: 0 <= i < 9 && 0 <= j < 9 && START[i][j] == K ==> i == 4 && j == 4;
      assert y == 4 && x == 4;
    }
  }

  /** ... so the game starts going. */
  lemma StartGoing()
    ensures OneKing(StartCell) && StateOn(StartCell) == Going
  {
    forall q: bv8 | q < 81 ensures StartCell(q) == K <==> q == 40 {
      StartKing(q);
    }
    StateOfKing(StartCell, 40);
  }

  /** `STARTING_POSITION[y][x]`. */
  function StartAt(x: bv8, y: bv8): Tile
    requires x < 9 && y < 9
  {
    START[y as int][x as int]
  }

  lemma StartMapc(x: bv8, y: bv8)
    requires x < 9 && y < 9
    ensures Mapc(x, y) < 81 && StartCell(Mapc(x, y)) == StartAt(x, y)
  {
  }

  // ---------------------------------------------------------------------
  // The remaining entry points

  /** `get_static_state`. */
  function Key(p: Pos): (Words, bool)
  {
    (p.a, p.turn)
  }

  /** The cell mapc(y, x) the state scan visits at row y, column x of the
   *  inner 7x7 loop is its ((y - 1) * 7 + x - 1)-th. */
  lemma InnerCellAt(y: bv8, x: bv8)
    requires 1 <= y < 8 && 1 <= x < 8
    ensures (y - 1) * 7 + (x - 1) < 49 && InnerCell((y - 1) * 7 + (x - 1)) == Mapc(y, x)
  {
  }

  /** One step of a scan line, in the form the loop of ScanLine uses. */
  lemma LineStep(b: Board, t: bool, k: bv8, i: bv8, last: bv8, ms: seq<(bv8, bv8)>)
    requires k < 36 && i < 9
    ensures var r := Step(b, t, LineCell(k, i), last);
      ms + LineMoves(b, t, k, i, last) == (ms + r.0) + LineMoves(b, t, k, i + 1, r.1)
  {
  }

  const WINS: seq<bv8> := [0, 1, 5, 7]

  /** One cell of new's loops: the cells before mapc(x, y) hold the
   *  starting position and the others are empty, and putting the cell of
   *  STARTING_POSITION extends that by one. */
  lemma StartStep(b: Board, x: bv8, y: bv8)
    requires x < 9 && y < 9
    requires forall q: bv8 :: b(q) == if q < y * 9 + x then StartCell(q) else E
    ensures forall q: bv8 :: BSet(b, Mapc(x, y), StartAt(x, y))(q) == if q < y * 9 + x + 1 then StartCell(q) else E
  {
    StartMapc(x, y);
  }

  /** The board new starts from is empty. */
  lemma EmptySame()
    ensures Same((0, 0, 0), q => E)
  {
  }

  /** The engine object. */
  class Tablut {
    var a: Words
    var turn: bool
    var st: seq<Words>

    function Abs(): Pos
      reads this
    {
      Pos(a, turn, st)
    }

    /** `set`: the word and the shift chosen from `pos << 1` as written,
     *  then the field cleared and the code or'ed in (SetFieldOf). */
    method SetTile(pos: bv8, v: Tile)
      requires pos < 96
      modifies this
      ensures a == Set(old(a), pos, v) && turn == old(turn) && st == old(st)
    {
      var p := pos << 1;
      if p >= 128 {
        p := p - 128;
        a := (a.0, a.1, SetFieldOf(a.2, p as bv64, Code(v)));
      } else if p >= 64 {
        p := p - 64;
        a := (a.0, SetFieldOf(a.1, p as bv64, Code(v)), a.2);
      } else {
        a := (SetFieldOf(a.0, p as bv64, Code(v)), a.1, a.2);
      }
    }

    /** `get`. */
    method At(pos: bv8) returns (t: Tile)
      requires pos < 96
      ensures t == View(a)(pos)
    {
      t := Get(a, pos);
    }

    /** `new`: the starting position, cell by cell, on an empty board. */
    constructor (t: bool)
      ensures turn == t && st == []
      ensures forall q: bv8 :: View(a)(q) == StartCell(q)
    {
      a, turn, st := (0, 0, 0), t, [];
      new;
      ghost var b: Board := q => E;
      EmptySame();
      var y: bv8 := 0;
      while y < 9
        invariant y <= 9 && turn == t && st == [] && Same(a, b)
        invariant forall q: bv8 :: b(q) == if q < y * 9 then StartCell(q) else E
      {
        b := PutRow(y, b);
        y := y + 1;
      }
    }

    /** The inner loop of new: row y of STARTING_POSITION. */
    method PutRow(y: bv8, ghost b: Board) returns (ghost b': Board)
      requires y < 9 && Same(a, b)
      requires forall q: bv8 :: b(q) == if q < y * 9 then StartCell(q) else E
      modifies this
      ensures turn == old(turn) && st == old(st) && Same(a, b')
      ensures forall q: bv8 :: b'(q) == if q < y * 9 + 9 then StartCell(q) else E
    {
      b' := b;
      var x: bv8 := 0;
      while x < 9
        invariant x <= 9 && turn == old(turn) && st == old(st) && Same(a, b')
        invariant forall q: bv8 :: b'(q) == if q < y * 9 + x then StartCell(q) else E
      {
        StartStep(b', x, y);
        PutStart(x, y, b');
        b' := BSet(b', Mapc(x, y), StartAt(x, y));
        x := x + 1;
      }
    }

    /** One cell of new's loops. */
    method PutStart(x: bv8, y: bv8, ghost b: Board)
      requires x < 9 && y < 9 && Same(a, b)
      modifies this
      ensures turn == old(turn) && st == old(st)
      ensures Same(a, BSet(b, Mapc(x, y), StartAt(x, y)))
    {
      ghost var a0 := a;
      SetTile(Mapc(x, y), START[y as int][x as int]);
      SetSame(a0, b, Mapc(x, y), START[y as int][x as int]);
    }

    /** `turn`. */
    method Turn() returns (t: bool)
      ensures t == turn
    {
      t := turn;
    }

    /** One cell of a scan line of `get_moves`. */
    method ScanStep(k: bv8, i: bv8, last: bv8) returns (emit: seq<(bv8, bv8)>, last': bv8)
      requires k < 36 && i < 9
      ensures (emit, last') == Step(View(a), turn, LineCell(k, i), last)
    {
      var q := LineCell(k, i);
      emit, last' := [], last;
      var t := At(q);
      match t
      case K =>
        if turn { last' := q; }
      case D =>
        if turn { last' := q; }
      case A =>
        if !turn { last' := q; }
      case E =>
        if Block(q) {
          last' := 128;
        } else if last != 128 {
          emit := [(last, q)];
        }
    }

    /** One of the 36 scan lines of `get_moves`. */
    method ScanLine(k: bv8) returns (ms: seq<(bv8, bv8)>)
      requires k < 36
      ensures ms == LineMoves(View(a), turn, k, 0, 128)
    {
      ghost var b := View(a);
      ms := [];
      var last: bv8 := 128;
      var i: bv8 := 0;
      while i < 9
        invariant i <= 9
        invariant ms + LineMoves(b, turn, k, i, last) == LineMoves(b, turn, k, 0, 128)
      {
        LineStep(b, turn, k, i, last, ms);
        var emit;
        emit, last := ScanStep(k, i, last);
        ms := ms + emit;
        i := i + 1;
      }
    }

    /** `get_moves`: the four scans of the rows and columns in both
     *  directions, each a run of scan lines. */
    method GetMoves() returns (ans: seq<(bv8, bv8)>)
      ensures ans == Moves(Abs())
    {
      ghost var b := View(a);
      ans := [];
      var k: bv8 := 0;
      while k < 36
        invariant k <= 36
        invariant ans == AllLines(b, turn, k)
      {
        var ms := ScanLine(k);
        ans := ans + ms;
        k := k + 1;
      }
    }

    /** `get_moves_sorted`: get_moves, unsorted. */
    method GetMovesSorted() returns (ans: seq<(bv8, bv8)>)
      ensures ans == Moves(Abs())
    {
      ans := GetMoves();
    }

    /** `state`: the winning edge cells first, then the inner 7x7. */
    method State() returns (s: State)
      ensures s == StateOn(View(a))
    {
      var w := WinScan();
      if w {
        return Win;
      }
      var g := InnerKing();
      if g {
        return Going;
      }
      return Lose;
    }

    /** The first loop of `state`, over WINS. */
    method WinScan() returns (w: bool)
      ensures w == KingOnWin(View(a))
    {
      ghost var b := View(a);
      var i := 0;
      while i < 4
        invariant 0 <= i <= 4
        invariant forall j :: 0 <= j < i ==> !WinAt(b, WINS[j])
      {
        var v := WINS[i];
        var t0 := At(Mapc(v, 0));
        var t1 := At(Mapc(v, 8));
        var t2 := At(Mapc(0, v));
        var t3 := At(Mapc(8, v));
        if t0 == K || t1 == K || t2 == K || t3 == K {
          return true;
        }
        i := i + 1;
      }
      assert !WinAt(b, WINS[0]) && !WinAt(b, WINS[1]) && !WinAt(b, WINS[2]) && !WinAt(b, WINS[3]);
      return false;
    }

    /** The second loop of `state`, over the inner 7x7. */
    method InnerKing() returns (g: bool)
      ensures g == InnerScan(View(a), 0)
    {
      ghost var b := View(a);
      var y: bv8 := 1;
      while y < 8
        invariant 1 <= y <= 8
        invariant InnerScan(b, 0) == InnerScan(b, (y - 1) * 7)
      {
        var x: bv8 := 1;
        while x < 8
          invariant 1 <= x <= 8
          invariant InnerScan(b, 0) == InnerScan(b, (y - 1) * 7 + (x - 1))
        {
          InnerCellAt(y, x);
          var t := At(Mapc(y, x));
          if t == K {
            return true;
          }
          x := x + 1;
        }
        y := y + 1;
      }
      return false;
    }

    /** One capture check of `mov`, on the board `b` the words hold; `d` is
     *  its outcome. */
    method CaptureCheck(g: bool, a1: bv8, a2: bv8, q: bv8, ghost b: Board, ghost d: bool)
      requires q < 96 && Same(a, b) && (g ==> a1 < 81 && a2 < 81) && (!turn ==> KingRows(b))
      requires d == Check(b, turn, g, a1, a2)
      modifies this
      ensures turn == old(turn) && st == old(st)
      ensures a == Clear(old(a), d, q) && Same(a, ClearB(b, d, q))
    {
      ghost var a0 := a;
      if g {
        OneKingSame(a, b);
        if Captured(View(a), turn, a1, a2) {
          SetTile(q, E);
        }
      }
      ClearSame(a0, b, d, q);
    }

    /** The first half of `mov`: the board pushed, the piece moved. */
    method Place(m: (bv8, bv8))
      requires m.0 < 81 && m.1 < 81
      modifies this
      ensures a == Placed(old(a), m) && turn == old(turn) && st == old(st) + [old(a)]
    {
      st := st + [a];
      var x := Get(a, m.0);
      SetTile(m.0, E);
      SetTile(m.1, x);
    }

    /** The second half: the four capture checks on the board `b` the words
     *  hold, each reading the board the earlier ones left. */
    method Captures(m1: bv8, ghost b: Board)
      requires m1 < 81 && Same(a, b) && (!turn ==> KingRows(b))
      modifies this
      ensures turn == old(turn) && st == old(st)
      ensures a == Clears(old(a), CaptureChecks(b, turn, m1), m1 + 9)
    {
      ghost var b2 := CapturesDownUp(m1, b);
      CapturesRightLeft(m1, b2);
    }

    /** The checks below and above m1. */
    method CapturesDownUp(m1: bv8, ghost b: Board) returns (ghost b2: Board)
      requires m1 < 81 && Same(a, b) && (!turn ==> KingRows(b))
      modifies this
      ensures turn == old(turn) && st == old(st)
      ensures var d := ChecksDownUp(b, turn, m1);
        b2 == ClearB(ClearB(b, d.0, m1 + 9), d.1, m1 + 9) && a == Clear(Clear(old(a), d.0, m1 + 9), d.1, m1 + 9)
      ensures Same(a, b2) && (!turn ==> KingRows(b2))
    {
      ghost var d := ChecksDownUp(b, turn, m1);
      CaptureCheck(m1 + 18 < 81, m1 + 9, m1 + 18, m1 + 9, b, d.0);
      ghost var b1 := ClearB(b, d.0, m1 + 9);
      ClearKeepsKings(b, d.0, m1 + 9);
      CaptureCheck(m1 >= 18, m1 - 9, m1 - 18, m1 + 9, b1, d.1);
      b2 := ClearB(b1, d.1, m1 + 9);
      ClearKeepsKings(b1, d.1, m1 + 9);
    }

    /** The checks right and left of m1. */
    method CapturesRightLeft(m1: bv8, ghost b: Board)
      requires m1 < 81 && Same(a, b) && (!turn ==> KingRows(b))
      modifies this
      ensures turn == old(turn) && st == old(st)
      ensures var e := ChecksRightLeft(b, turn, m1); a == Clear(Clear(old(a), e.0, m1 + 9), e.1, m1 + 9)
    {
      ghost var e := ChecksRightLeft(b, turn, m1);
      CaptureCheck(m1 % 9 < 7, m1 + 1, m1 + 2, m1 + 9, b, e.0);
      ClearKeepsKings(b, e.0, m1 + 9);
      CaptureCheck(m1 % 9 > 2, m1 - 1, m1 - 2, m1 + 9, ClearB(b, e.0, m1 + 9), e.1);
    }

    /** `mov`. */
    method Mov(m: (bv8, bv8))
      requires MovOk(Abs(), m)
      modifies this
      ensures Abs() == MovSpec(old(Abs()), m)
    {
      ghost var a0 := a;
      Place(m);
      PlacedSame(a0, m);
      PlacedKings(View(a0), m);
      Captures(m.1, PlacedB(View(a0), m));
      turn := !turn;
    }

    /** `rollback`: unwrap panics on an empty stack. */
    method Rollback()
      requires |st| > 0
      modifies this
      ensures Abs() == Undo(old(Abs()))
    {
      turn := !turn;
      a := st[|st| - 1];
      st := st[..|st| - 1];
    }
  }

  // ---------------------------------------------------------------------
  // The game instance

  /** The engine as a stack game, for a given heuristic (the source leaves
   *  `heuristic` unimplemented). Valid positions have at most one king. */
  ghost function StackInstance(h: Pos -> int): StackGame<Pos, (bv8, bv8), (Words, bool)>
  {
    StackGame(
      (p: Pos) => p.turn,
      (p: Pos) => Moves(p),
      (p: Pos) => Key(p),
      (p: Pos) => StateOn(View(p.a)),
      h,
      (p: Pos, m: (bv8, bv8)) => if MovOk(p, m) then MovSpec(p, m) else p,
      (p: Pos) => if |p.st| > 0 then Undo(p) else p,
      (p: Pos) => OneKing(View(p.a)))
  }

  /** A generated move from a valid position still being played is one mov
   *  accepts, keeps one king, and is undone by rollback. */
  lemma MoveLawful(p: Pos, m: (bv8, bv8))
    requires OneKing(View(p.a)) && StateOn(View(p.a)) == Going && m in Moves(p)
    ensures MovOk(p, m) && OneKing(View(MovSpec(p, m).a)) && Undo(MovSpec(p, m)) == p
  {
    MovesOk(p, m);
    OneKingKept(p, m);
    RoundTrip(p, m);
  }

  lemma InstanceLawful(h: Pos -> int)
    requires forall p :: InI64(h(p))
    ensures StackLaws(StackInstance(h))
  {
    var G := StackInstance(h);
    forall p, m | G.valid(p) && G.state(p) == Going && m in G.moves(p)
      ensures G.valid(G.mov(p, m)) && G.undo(G.mov(p, m)) == p
    {
      MoveLawful(p, m);
    }
  }
}
