/** Tablut with draw detection (src/tablut_with_draw.rs). The 9x9 board is
 *  packed two bits per cell into 21 bytes: cell p is field p & 3 of byte
 *  p >> 2. `turn` is a u32 counter whose parity gives the side to move
 *  (even: the defenders and the king), and `vis` holds every packed board
 *  seen so far, with its side to move, so that a repetition is a draw. */
module TablutWithDraw {
  import opened Games
  import opened Sorting

  datatype Tile = E | A | D | K

  /** `Tile::from`: the low two bits of a byte. */
  function TileOf(x: bv8): (t: Tile)
  {
    var v := x & 3;
    if v == 1 then A else if v == 2 then D else if v == 3 then K else E
  }

  /** `v as u8`. */
  function Code(t: Tile): (c: bv8)
    ensures c < 4
  {
    match t
    case E => 0
    case A => 1
    case D => 2
    case K => 3
  }

  /** Tile::from reads only the low two bits, and it and `as u8` are
   *  mutually inverse. */
  lemma TileCode(t: Tile, x: bv8)
    ensures TileOf(Code(t)) == t
    ensures TileOf(x) == TileOf(x & 3)
    ensures Code(TileOf(x)) == x & 3
  {
  }

  // ---------------------------------------------------------------------
  // Coordinates and the fixed tables

  const CELLS: nat := 81
  const TWO32: nat := 0x1_0000_0000

  function Mapc(x: nat, y: nat): nat { 9 * y + x }

  function Unmapc(p: nat): (nat, nat) { (p % 9, p / 9) }

  lemma MapcUnmapc(x: nat, y: nat, p: nat)
    requires x < 9 && y < 9 && p < CELLS
    ensures Mapc(x, y) < CELLS && Unmapc(Mapc(x, y)) == (x, y)
    ensures Unmapc(p).0 < 9 && Unmapc(p).1 < 9 && Mapc(Unmapc(p).0, Unmapc(p).1) == p
  {
  }

  /** The cells with `GOAL` set: edge cells the king escapes to. */
  predicate Goal(q: int) {
    q == 1 || q == 2 || q == 6 || q == 7 || q == 9 || q == 17 || q == 18 || q == 26
    || q == 54 || q == 62 || q == 63 || q == 71 || q == 73 || q == 74 || q == 78 || q == 79
  }
  /** The cells with `BLOCKS` set: the camps and the throne (40). */
  predicate Block(q: int) {
    q == 3 || q == 4 || q == 5 || q == 13 || q == 27 || q == 35 || q == 36 || q == 37 || q == 40
    || q == 43 || q == 44 || q == 45 || q == 53 || q == 67 || q == 75 || q == 76 || q == 77
  }
  /** The cells with `CAPTURE_AID` set: they count as an enemy in a capture. */
  predicate Aid(q: int) { q == 3 || q == 5 || q == 13 || q == 27 || q == 35 || q == 37 || q == 40 || q == 43 || q == 45 || q == 53 || q == 67 || q == 75 || q == 77 }
  /** The throne and the four cells around it, where the king is only taken
   *  by being surrounded. */
  predicate Throne(q: int) { q == 40 || q == 31 || q == 39 || q == 41 || q == 49 }

  /** `STARTING_POSITION`, indexed by y and then x. */
  const START: seq<seq<Tile>> := [
    [E, E, E, A, A, A, E, E, E],
    [E, E, E, E, A, E, E, E, E],
    [E, E, E, E, D, E, E, E, E],
    [A, E, E, E, D, E, E, E, A],
    [A, A, D, D, K, D, D, A, A],
    [A, E, E, E, D, E, E, E, A],
    [E, E, E, E, D, E, E, E, E],
    [E, E, E, E, A, E, E, E, E],
    [E, E, E, A, A, A, E, E, E]]

  // ---------------------------------------------------------------------
  // The packed board

  /** Field k of a byte, `(x >> k >> k) & 3`. */
  function FieldOf(x: bv8, k: bv8): (r: bv8)
    requires k < 4
    ensures r < 4
  {
    (x >> k >> k) & 3
  }

  /** The byte with field k replaced by c, as set writes it. */
  function SetFieldOf(x: bv8, k: bv8, c: bv8): bv8
    requires k < 4 && c < 4
  {
    (x & !(3 << k << k)) | (c << k << k)
  }

  lemma FieldSet(x: bv8, k: bv8, c: bv8, j: bv8)
    requires k < 4 && c < 4 && j < 4
    ensures FieldOf(SetFieldOf(x, k, c), j) == if j == k then c else FieldOf(x, j)
  {
  }

  /** A byte is determined by its four fields. */
  lemma FieldsInjective(x: bv8, y: bv8)
    requires FieldOf(x, 0) == FieldOf(y, 0) && FieldOf(x, 1) == FieldOf(y, 1)
    requires FieldOf(x, 2) == FieldOf(y, 2) && FieldOf(x, 3) == FieldOf(y, 3)
    ensures x == y
  {
  }

  /** The field of cell p within its byte, p % 4 as a bv8. */
  function Lane(p: nat): (k: bv8)
    ensures k < 4
  {
    var r := p % 4;
    if r == 0 then 0 else if r == 1 then 1 else if r == 2 then 2 else 3
  }

  /** On a u8 position, `pos >> 2` is the byte and `pos & 3` the field. */
  lemma PosBits(pos: bv8)
    ensures (pos >> 2) as int == pos as int / 4 && pos & 3 == Lane(pos as int)
  {
  }

  /** `get`. Positions 81 to 83 are the unused fields of the last byte. */
  function Get(b: seq<bv8>, p: nat): Tile
    requires |b| == 21 && p < 84
  {
    TileOf(FieldOf(b[p / 4], Lane(p)))
  }

  /** `set`. */
  function Set(b: seq<bv8>, p: nat, v: Tile): (r: seq<bv8>)
    requires |b| == 21 && p < 84
    ensures |r| == 21
  {
    b[p / 4 := SetFieldOf(b[p / 4], Lane(p), Code(v))]
  }

  /** After set(p, v), get(p) is v and every other cell is unchanged. */
  lemma GetSet(b: seq<bv8>, p: nat, v: Tile, q: nat)
    requires |b| == 21 && p < 84 && q < 84
    ensures Get(Set(b, p, v), q) == if q == p then v else Get(b, q)
  {
    if q / 4 == p / 4 {
      FieldSet(b[p / 4], Lane(p), Code(v), Lane(q));
      TileCode(v, 0);
    }
  }

  lemma SetCells(b: seq<bv8>, p: nat, v: Tile)
    requires |b| == 21 && p < 84
    ensures forall q :: 0 <= q < 84 ==> Get(Set(b, p, v), q) == if q == p then v else Get(b, q)
  {
    forall q | 0 <= q < 84 ensures Get(Set(b, p, v), q) == if q == p then v else Get(b, q) {
      GetSet(b, p, v, q);
    }
  }

  /** The cells of a packed board, the view the rules below work on. */
  function Cells(b: seq<bv8>): (c: seq<Tile>)
    requires |b| == 21
    ensures |c| == 84
  {
    seq(84, (q: int) requires 0 <= q < 84 => Get(b, q))
  }

  /** set(p, v) updates the cell view at p and nowhere else. */
  lemma CellsSet(b: seq<bv8>, p: nat, v: Tile)
    requires |b| == 21 && p < 84
    ensures Cells(Set(b, p, v)) == Cells(b)[p := v]
  {
    SetCells(b, p, v);
  }

  /** A packed board is determined by its cells, so positions can be told
   *  apart in the cell view exactly as by their bytes. */
  lemma CellsInjective(b: seq<bv8>, c: seq<bv8>)
    requires |b| == 21 && |c| == 21 && Cells(b) == Cells(c)
    ensures b == c
  {
    forall i | 0 <= i < 21 ensures b[i] == c[i] {
      forall j | 0 <= j < 4 ensures FieldOf(b[i], Lane(j)) == FieldOf(c[i], Lane(j)) {
        var q := 4 * i + j;
        assert q / 4 == i && Lane(q) == Lane(j);
        assert Get(b, q) == Cells(b)[q] == Cells(c)[q] == Get(c, q);
        TileCode(E, FieldOf(b[i], Lane(j)));
        TileCode(E, FieldOf(c[i], Lane(j)));
      }
      assert Lane(0) == 0 && Lane(1) == 1 && Lane(2) == 2 && Lane(3) == 3;
      FieldsInjective(b[i], c[i]);
    }
  }

  // ---------------------------------------------------------------------
  // Positions

  /** The value of the struct, with the board and the recorded positions
   *  in the cell view. */
  datatype Pos = Pos(board: seq<Tile>, turn: nat, state: State, vis: set<(seq<Tile>, bool)>)

  predicate Wf(p: Pos)
  {
    |p.board| == 84 && p.turn < TWO32
  }

  /** `turn()`: `(turn & 1) == 0`, the defenders move. */
  predicate Turn(p: Pos) { p.turn % 2 == 0 }

  /** `turn += 1` and `turn -= 1` on a u32. */
  function Inc32(t: nat): nat { if t + 1 == TWO32 then 0 else t + 1 }
  function Dec32(t: nat): nat { if t == 0 then TWO32 - 1 else t - 1 }

  lemma IncDec(t: nat)
    requires t < TWO32
    ensures Inc32(t) < TWO32 && Dec32(Inc32(t)) == t
    ensures (Inc32(t) % 2 == 0) == (t % 2 != 0)
  {
  }

  /** `get_static_state`. */
  function Key(p: Pos): (seq<Tile>, bool) { (p.board, Turn(p)) }

  /** The interior 7x7 square. */
  predicate Interior(q: nat) { 1 <= q / 9 <= 7 && 1 <= q % 9 <= 7 }

  /** Every king on the board, except possibly one on cell `but`, is in the
   *  interior (`but` >= 81 excepts nothing). */
  predicate KingInside(c: seq<Tile>, but: nat)
    requires |c| == 84
  {
    forall q :: 0 <= q < CELLS && q != but && c[q] == K ==> Interior(q)
  }

  // ---------------------------------------------------------------------
  // Captures

  /** A cell counts as hostile to the king. */
  predicate Hostile(c: seq<Tile>, q: nat)
    requires |c| == 84 && q < 84
  {
    c[q] == A || Aid(q)
  }

  /** `captured(a1, a2)` for the side `t` (turn()) to move. Testing a king
   *  reads its four neighbours, which must be on the board. */
  predicate Captured(c: seq<Tile>, t: bool, a1: nat, a2: nat)
    requires |c| == 84 && a1 < CELLS && a2 < CELLS
    requires !t && c[a1] == K ==> 9 <= a1 <= 71
  {
    if t then
      c[a1] == A && (c[a2] == D || c[a2] == K || Aid(a2))
    else
      (c[a1] == D && (c[a2] == A || Aid(a2)))
      || (c[a1] == K && Hostile(c, a1 + 9) && Hostile(c, a1 - 9) && Hostile(c, a1 + 1) && Hostile(c, a1 - 1))
      || (c[a1] == K && !Throne(a1) && (c[a2] == A || Aid(a2)))
  }

  /** One capture check of mov: when the guard holds and the piece at a1
   *  is captured against a2, the cell is emptied, and a king so taken
   *  loses the game. */
  function CaptureAt(c: seq<Tile>, st: State, t: bool, m1: nat, a1: int, a2: int, guard: bool): (r: (seq<Tile>, State))
    requires |c| == 84
    requires guard ==> 0 <= a1 < CELLS && 0 <= a2 < CELLS && a1 != m1
    requires !t ==> KingInside(c, m1)
    ensures |r.0| == 84 && (!t ==> KingInside(r.0, m1))
  {
    if guard && Captured(c, t, a1, a2) then
      (c[a1 := E], if c[a1] == K then Lose else st)
    else (c, st)
  }

  /** The four capture checks of mov, in the source's order: below, above,
   *  right and left of the destination m1. Check d looks at A1(m1, d)
   *  against A2(m1, d) when Guard(m1, d) holds. */
  predicate Guard(m1: nat, d: nat)
  {
    if d == 0 then m1 + 18 < CELLS
    else if d == 1 then m1 >= 18
    else if d == 2 then m1 % 9 < 7
    else m1 % 9 >= 2
  }

  function A1(m1: nat, d: nat): int
  {
    if d == 0 then m1 + 9 else if d == 1 then m1 - 9 else if d == 2 then m1 + 1 else m1 - 1
  }

  function A2(m1: nat, d: nat): int
  {
    if d == 0 then m1 + 18 else if d == 1 then m1 - 18 else if d == 2 then m1 + 2 else m1 - 2
  }

  /** The capture checks d, d + 1, ..., 3 in turn. */
  function CaptureSteps(c: seq<Tile>, st: State, t: bool, m1: nat, d: nat): (r: (seq<Tile>, State))
    requires |c| == 84 && m1 < CELLS && d <= 4
    requires !t ==> KingInside(c, m1)
    ensures |r.0| == 84
    decreases 4 - d
  {
    if d == 4 then (c, st)
    else
      var r1 := CaptureAt(c, st, t, m1, A1(m1, d), A2(m1, d), Guard(m1, d));
      CaptureSteps(r1.0, r1.1, t, m1, d + 1)
  }

  /** The piece on m0 moved to m1. */
  function Moved(c: seq<Tile>, m0: nat, m1: nat): (r: seq<Tile>)
    requires |c| == 84 && m0 < CELLS && m1 < CELLS
    ensures |r| == 84
  {
    c[m0 := E][m1 := c[m0]]
  }

  /** What mov demands: both cells on the board and, when the attackers
   *  move, no king on the edge (captured reads a king's neighbours). */
  predicate MovOk(p: Pos, m: (nat, nat))
  {
    Wf(p) && m.0 < CELLS && m.1 < CELLS && (!Turn(p) ==> KingInside(p.board, CELLS))
  }

  /** `mov`. From equal cells (the sentinel of a side without moves) the
   *  side to move, the one without moves, is declared the winner: Win (the
   *  first player's) when turn() held, Lose otherwise, and only the turn
   *  advances. Otherwise the piece moves, the four captures are tested, a
   *  king on a goal wins, the turn advances and the new position is
   *  recorded, a repeated one being a draw. */
  function MovSpec(p: Pos, m: (nat, nat)): (r: Pos)
    requires MovOk(p, m)
    ensures Wf(r)
  {
    if m.0 == m.1 then
      Pos(p.board, Inc32(p.turn), if Turn(p) then Win else Lose, p.vis)
    else
      var c2 := Moved(p.board, m.0, m.1);
      var (c6, s6) := CaptureSteps(c2, p.state, Turn(p), m.1, 0);
      var s7 := if Goal(m.1) && c6[m.1] == K then Win else s6;
      var t := Inc32(p.turn);
      var key := (c6, t % 2 == 0);
      Pos(c6, t, if key in p.vis then Draw else s7, p.vis + {key})
  }

  /** The token of mov_with_rollback: the move, and the four cells around
   *  the destination packed two bits each (below, above, right, left). */
  type Token = ((nat, nat), bv8)

  function Saved(c: seq<Tile>, q: int, guard: bool): (r: bv8)
    requires |c| == 84 && (guard ==> 0 <= q < CELLS)
    ensures r < 4
  {
    if guard then Code(c[q]) else 0
  }

  function Packed(c: seq<Tile>, m1: nat): bv8
    requires |c| == 84 && m1 < CELLS
  {
    Saved(c, m1 + 9, m1 + 9 < CELLS) | (Saved(c, m1 - 9, m1 >= 9) << 2)
    | (Saved(c, m1 + 1, m1 + 1 < CELLS) << 4) | (Saved(c, m1 - 1, m1 >= 1) << 6)
  }

  lemma PackFields(c0: bv8, c1: bv8, c2: bv8, c3: bv8)
    requires c0 < 4 && c1 < 4 && c2 < 4 && c3 < 4
    ensures var x := c0 | (c1 << 2) | (c2 << 4) | (c3 << 6);
      x & 3 == c0 && (x >> 2) & 3 == c1 && (x >> 4) & 3 == c2 && (x >> 6) & 3 == c3
  {
  }

  /** `mov_with_rollback`. */
  function MovR(p: Pos, m: (nat, nat)): (r: (Pos, Token))
    requires MovOk(p, m)
  {
    (MovSpec(p, m), (m, Packed(p.board, m.1)))
  }

  /** The board part of rollback: the four saved cells are written back,
   *  then the piece returns from m.1 to m.0 and m.1 is emptied. */
  function Unmoved(c: seq<Tile>, m: (nat, nat), rb: bv8): (r: seq<Tile>)
    requires |c| == 84 && m.0 < CELLS && m.1 < CELLS
    ensures |r| == 84
  {
    var m1 := m.1;
    var c1 := if m1 + 9 < CELLS then c[m1 + 9 := TileOf(rb)] else c;
    var c2 := if m1 >= 9 then c1[m1 - 9 := TileOf(rb >> 2)] else c1;
    var c3 := if m1 + 1 < CELLS then c2[m1 + 1 := TileOf(rb >> 4)] else c2;
    var c4 := if m1 >= 1 then c3[m1 - 1 := TileOf(rb >> 6)] else c3;
    c4[m.0 := c4[m1]][m1 := E]
  }

  /** `rollback` as written: unless the state is a draw the current
   *  position is removed from vis; turn goes back, the state becomes
   *  Going and the board is restored. */
  function RollbackAsWritten(p: Pos, r: Token): (q: Pos)
    requires Wf(p) && r.0.0 < CELLS && r.0.1 < CELLS
    ensures Wf(q)
  {
    var vis := if p.state != Draw then p.vis - {Key(p)} else p.vis;
    Pos(Unmoved(p.board, r.0, r.1), Dec32(p.turn), Going, vis)
  }

  /** For the sentinel, rollback as written moves "the piece on m.1" to m.0
   *  and empties m.1; they are the same cell, so a piece standing on the
   *  throne vanishes, as the king does from the starting position. */
  lemma SentinelRollbackAsWritten(p: Pos)
    requires Wf(p) && Turn(p) && p.board[40] != E
    ensures MovOk(p, (40, 40))
    ensures RollbackAsWritten(MovR(p, (40, 40)).0, MovR(p, (40, 40)).1).board[40] == E
    ensures RollbackAsWritten(MovR(p, (40, 40)).0, MovR(p, (40, 40)).1) != p
  {
  }

  /** `rollback`, corrected: the sentinel changed only the turn and the
   *  state, so that is all its rollback undoes. */
  function RollbackSpec(p: Pos, r: Token): (q: Pos)
    requires Wf(p) && r.0.0 < CELLS && r.0.1 < CELLS
    ensures Wf(q)
  {
    if r.0.0 == r.0.1 then Pos(p.board, Dec32(p.turn), Going, p.vis)
    else RollbackAsWritten(p, r)
  }

  // ---------------------------------------------------------------------
  // What mov changes, and the round trip

  /** q is one of the cells the capture checks d, ..., 3 look at. */
  predicate NearFrom(m1: nat, q: nat, d: nat)
  {
    (d == 0 && Guard(m1, 0) && q == m1 + 9) || (d <= 1 && Guard(m1, 1) && q + 9 == m1)
    || (d <= 2 && Guard(m1, 2) && q == m1 + 1) || (d <= 3 && Guard(m1, 3) && q + 1 == m1)
  }

  /** q is one of the cells mov tests for a capture around m1. */
  predicate Near(m1: nat, q: nat) { NearFrom(m1, q, 0) }

  lemma CaptureAtEffect(c: seq<Tile>, st: State, t: bool, m1: nat, a1: int, a2: int, guard: bool)
    requires |c| == 84
    requires guard ==> 0 <= a1 < CELLS && 0 <= a2 < CELLS && a1 != m1
    requires !t ==> KingInside(c, m1)
    ensures var r := CaptureAt(c, st, t, m1, a1, a2, guard);
      && (forall q :: 0 <= q < 84 && (!guard || q != a1) ==> r.0[q] == c[q])
      && (guard ==> r.0[a1] == c[a1] || r.0[a1] == E)
      && (t ==> r.1 == st)
      && (r.1 == st || r.1 == Lose)
      && (guard && c[a1] == K && r.0[a1] == E ==> r.1 == Lose)
  {
  }

  /** The capture checks change only the cells they look at, each only by
   *  emptying it. */
  lemma {:induction false} CaptureStepsCells(c: seq<Tile>, st: State, t: bool, m1: nat, d: nat)
    requires |c| == 84 && m1 < CELLS && d <= 4
    requires !t ==> KingInside(c, m1)
    ensures var r := CaptureSteps(c, st, t, m1, d);
      && (forall q :: 0 <= q < 84 && !NearFrom(m1, q, d) ==> r.0[q] == c[q])
      && (forall q :: 0 <= q < 84 && NearFrom(m1, q, d) ==> r.0[q] == c[q] || r.0[q] == E)
    decreases 4 - d
  {
    if d < 4 {
      var r1 := CaptureAt(c, st, t, m1, A1(m1, d), A2(m1, d), Guard(m1, d));
      CaptureAtEffect(c, st, t, m1, A1(m1, d), A2(m1, d), Guard(m1, d));
      CaptureStepsCells(r1.0, r1.1, t, m1, d + 1);
    }
  }

  /** On the defenders' move the state stays; otherwise it can only become
   *  Lose, and it does when the king is taken. */
  lemma {:induction false} CaptureStepsState(c: seq<Tile>, st: State, t: bool, m1: nat, d: nat)
    requires |c| == 84 && m1 < CELLS && d <= 4
    requires !t ==> KingInside(c, m1)
    ensures var r := CaptureSteps(c, st, t, m1, d);
      && (t ==> r.1 == st)
      && (r.1 == st || r.1 == Lose)
      && (forall q :: 0 <= q < 84 && NearFrom(m1, q, d) && c[q] == K && r.0[q] == E ==> r.1 == Lose)
    decreases 4 - d
  {
    if d < 4 {
      var r1 := CaptureAt(c, st, t, m1, A1(m1, d), A2(m1, d), Guard(m1, d));
      CaptureAtEffect(c, st, t, m1, A1(m1, d), A2(m1, d), Guard(m1, d));
      CaptureStepsState(r1.0, r1.1, t, m1, d + 1);
      CaptureStepsCells(r1.0, r1.1, t, m1, d + 1);
      var r := CaptureSteps(c, st, t, m1, d);
      assert r == CaptureSteps(r1.0, r1.1, t, m1, d + 1);
      forall q | 0 <= q < 84 && NearFrom(m1, q, d) && c[q] == K && r.0[q] == E ensures r.1 == Lose {
        if Guard(m1, d) && q == A1(m1, d) {
          if r1.0[q] == K { assert !NearFrom(m1, q, d + 1); }
        }
      }
    }
  }

  /** mov on an ordinary move: only the source, the destination and the
   *  four cells around it change; the piece arrives; a cell around it can
   *  only be emptied; the turn advances by one; the new position joins
   *  vis. */
  lemma MovBoard(p: Pos, m: (nat, nat))
    requires MovOk(p, m) && m.0 != m.1
    ensures var r := MovSpec(p, m);
      && r.turn == Inc32(p.turn)
      && r.board[m.1] == p.board[m.0]
      && r.board[m.0] == E
      && (forall q :: 0 <= q < 84 && q != m.0 && q != m.1 && !Near(m.1, q) ==> r.board[q] == p.board[q])
      && (forall q :: 0 <= q < 84 && q != m.0 && Near(m.1, q) ==> r.board[q] == p.board[q] || r.board[q] == E)
      && r.vis == p.vis + {Key(r)}
  {
    CaptureStepsCells(Moved(p.board, m.0, m.1), p.state, Turn(p), m.1, 0);
    assert !Near(m.1, m.1);
  }

  /** From a position not yet drawn, mov on an ordinary move draws exactly
   *  when the new position was already in vis. */
  lemma MovDraw(p: Pos, m: (nat, nat))
    requires MovOk(p, m) && m.0 != m.1 && p.state != Draw
    ensures var r := MovSpec(p, m); (r.state == Draw) <==> Key(r) in p.vis
  {
    CaptureStepsState(Moved(p.board, m.0, m.1), p.state, Turn(p), m.1, 0);
  }

  /** The piece on m.0 belongs to the side to move, as in every generated
   *  move: the defenders move D or K, the attackers A. */
  predicate Mover(p: Pos, m: (nat, nat))
    requires Wf(p) && m.0 < CELLS
  {
    Starts(OneSide(Turn(p)), p.board[m.0])
  }

  /** The state after an ordinary move of the mover's own piece from a
   *  position still being played: unless it is a draw, a win exactly when
   *  the king reached a goal, and a king taken means Lose. */
  lemma MovState(p: Pos, m: (nat, nat))
    requires MovOk(p, m) && m.0 != m.1 && p.state == Going && Mover(p, m)
    ensures var r := MovSpec(p, m);
      && (r.state != Draw ==> (r.state == Win) == (Goal(m.1) && p.board[m.0] == K))
      && (forall q :: 0 <= q < 84 && q != m.0 && Near(m.1, q) && p.board[q] == K && r.board[q] == E ==> r.state in {Lose, Draw})
  {
    var c2 := Moved(p.board, m.0, m.1);
    CaptureStepsCells(c2, p.state, Turn(p), m.1, 0);
    CaptureStepsState(c2, p.state, Turn(p), m.1, 0);
    assert !Near(m.1, m.1);
  }

  /** The token holds the four cells around the destination. */
  lemma PackedCells(c: seq<Tile>, m1: nat)
    requires |c| == 84 && m1 < CELLS
    ensures var rb := Packed(c, m1);
      && (m1 + 9 < CELLS ==> TileOf(rb) == c[m1 + 9])
      && (m1 >= 9 ==> TileOf(rb >> 2) == c[m1 - 9])
      && (m1 + 1 < CELLS ==> TileOf(rb >> 4) == c[m1 + 1])
      && (m1 >= 1 ==> TileOf(rb >> 6) == c[m1 - 1])
  {
    var c0, c1 := Saved(c, m1 + 9, m1 + 9 < CELLS), Saved(c, m1 - 9, m1 >= 9);
    var c2, c3 := Saved(c, m1 + 1, m1 + 1 < CELLS), Saved(c, m1 - 1, m1 >= 1);
    PackFields(c0, c1, c2, c3);
    var rb := Packed(c, m1);
    TileCode(E, rb);
    TileCode(E, rb >> 2);
    TileCode(E, rb >> 4);
    TileCode(E, rb >> 6);
    if m1 + 9 < CELLS { TileCode(c[m1 + 9], 0); }
    if m1 >= 9 { TileCode(c[m1 - 9], 0); }
    if m1 + 1 < CELLS { TileCode(c[m1 + 1], 0); }
    if m1 >= 1 { TileCode(c[m1 - 1], 0); }
  }

  /** Unmoved, one assignment at a time. */
  lemma UnmovedSteps(c: seq<Tile>, c1: seq<Tile>, c2: seq<Tile>, c3: seq<Tile>, c4: seq<Tile>,
                     n: seq<Tile>, m: (nat, nat), rb: bv8)
    requires |c| == 84 && m.0 < CELLS && m.1 < CELLS
    requires c1 == if m.1 + 9 < CELLS then c[m.1 + 9 := TileOf(rb)] else c
    requires c2 == if m.1 >= 9 then c1[m.1 - 9 := TileOf(rb >> 2)] else c1
    requires c3 == if m.1 + 1 < CELLS then c2[m.1 + 1 := TileOf(rb >> 4)] else c2
    requires c4 == if m.1 >= 1 then c3[m.1 - 1 := TileOf(rb >> 6)] else c3
    requires n == c4[m.0 := c4[m.1]][m.1 := E]
    ensures n == Unmoved(c, m, rb)
  {
  }

  /** Unmoved undoes a board change that moved the piece from m.0 to the
   *  empty m.1 and otherwise touched only the cells around m.1, when the
   *  token holds their old contents. */
  lemma UnmovedRestores(c: seq<Tile>, n: seq<Tile>, m: (nat, nat), rb: bv8)
    requires |c| == 84 && |n| == 84 && m.0 < CELLS && m.1 < CELLS && m.0 != m.1
    requires c[m.1] == E && n[m.1] == c[m.0]
    requires forall q :: 0 <= q < 84 && q != m.0 && q != m.1 && !Near(m.1, q) ==> n[q] == c[q]
    requires m.1 + 9 < CELLS ==> TileOf(rb) == c[m.1 + 9]
    requires m.1 >= 9 ==> TileOf(rb >> 2) == c[m.1 - 9]
    requires m.1 + 1 < CELLS ==> TileOf(rb >> 4) == c[m.1 + 1]
    requires m.1 >= 1 ==> TileOf(rb >> 6) == c[m.1 - 1]
    ensures Unmoved(n, m, rb) == c
  {
    var u := Unmoved(n, m, rb);
    forall k | 0 <= k < 84 ensures u[k] == c[k] {
      if k != m.1 && k != m.0 && Near(m.1, k) {
        assert k == m.1 + 9 || k + 9 == m.1 || k == m.1 + 1 || k + 1 == m.1;
      }
    }
  }

  /** rollback(mov_with_rollback(m)) restores the position exactly, for an
   *  ordinary move onto an empty cell and for the sentinel, from a
   *  position still being played. */
  lemma RoundTrip(p: Pos, m: (nat, nat))
    requires MovOk(p, m) && p.state == Going
    requires m.0 != m.1 ==> p.board[m.1] == E
    ensures RollbackSpec(MovR(p, m).0, MovR(p, m).1) == p
  {
    var (q, tok) := MovR(p, m);
    IncDec(p.turn);
    if m.0 != m.1 {
      MovBoard(p, m);
      MovDraw(p, m);
      PackedCells(p.board, m.1);
      UnmovedRestores(p.board, q.board, m, tok.1);
    }
  }

  // ---------------------------------------------------------------------
  // Move generation

  /** The 36 scan lines of get_moves, in the source's order: k / 9 is the
   *  direction (0 right along row k % 9, 1 left along it, 2 down column
   *  k % 9, 3 up it) and i the step along the line. */
  function LineCell(k: nat, i: nat): (q: nat)
    requires k < 36 && i < 9
    ensures q < CELLS
  {
    var j := k % 9;
    if k / 9 == 0 then Mapc(i, j)
    else if k / 9 == 1 then Mapc(8 - i, j)
    else if k / 9 == 2 then Mapc(j, i)
    else Mapc(j, 8 - i)
  }

  /** How far `last` may be from an empty block for the move to go on:
   *  2 along a row, 2 * 9 along a column. */
  function Gap(k: nat): nat { if k / 9 < 2 then 2 else 18 }

  /** `p - last` on the scans that go forward, `last - p` on the others. */
  function Dist(k: nat, p: int, last: int): int { if k / 9 % 2 == 0 then p - last else last - p }

  /** Whose pieces start moves: the side to move (get_moves: the
   *  attackers A, the defenders D and K), or every piece (the mobility
   *  terms of heuristic). */
  datatype Side = OneSide(t: bool) | Every

  predicate Starts(sd: Side, x: Tile)
  {
    x != E && (sd.Every? || sd.t == (x != A))
  }

  /** One step of a scan: `li` is the step of `last` (-1 for 128, none).
   *  At an empty cell the scan stops at a block, unless `last` is a block
   *  close enough; otherwise it emits (last, p). A piece becomes `last`
   *  when it starts moves, and clears it otherwise. */
  function Step(c: seq<Tile>, sd: Side, k: nat, i: nat, li: int): (r: (seq<(nat, nat)>, int))
    requires |c| == 84 && k < 36 && i < 9 && -1 <= li < i
    ensures -1 <= r.1 <= i && |r.0| <= 1
  {
    var p := LineCell(k, i);
    if c[p] == E then
      if Block(p) && (li < 0 || !Block(LineCell(k, li)) || Dist(k, p, LineCell(k, li)) > Gap(k)) then ([], -1)
      else if li >= 0 then ([(LineCell(k, li), p)], li)
      else ([], li)
    else ([], if Starts(sd, c[p]) then i else -1)
  }

  /** The moves one scan line emits from step i on. */
  function LineMoves(c: seq<Tile>, sd: Side, k: nat, i: nat, li: int): seq<(nat, nat)>
    requires |c| == 84 && k < 36 && i <= 9 && -1 <= li < i
    decreases 9 - i
  {
    if i == 9 then []
    else
      var r := Step(c, sd, k, i, li);
      r.0 + LineMoves(c, sd, k, i + 1, r.1)
  }

  /** One step of a scan, with the moves already emitted in front. */
  lemma LineStep(c: seq<Tile>, sd: Side, k: nat, i: nat, li: int, ms: seq<(nat, nat)>)
    requires |c| == 84 && k < 36 && i < 9 && -1 <= li < i
    ensures ms + LineMoves(c, sd, k, i, li)
            == (ms + Step(c, sd, k, i, li).0) + LineMoves(c, sd, k, i + 1, Step(c, sd, k, i, li).1)
  {
  }

  /** The moves of scan lines 0, ..., n - 1, in that order. */
  function AllLines(c: seq<Tile>, sd: Side, n: nat): seq<(nat, nat)>
    requires |c| == 84 && n <= 36
  {
    if n == 0 then [] else AllLines(c, sd, n - 1) + LineMoves(c, sd, n - 1, 0, -1)
  }

  /** `get_moves`: the moves of the four scans, or the sentinel (40, 40)
   *  when there are none. */
  function Moves(p: Pos): seq<(nat, nat)>
    requires Wf(p)
  {
    MovesOn(p.board, Turn(p))
  }

  /** The same on a cell view with t the side to move. */
  function MovesOn(c: seq<Tile>, t: bool): seq<(nat, nat)>
    requires |c| == 84
  {
    var ms := AllLines(c, OneSide(t), 36);
    if ms == [] then [(40, 40)] else ms
  }

  /** The reference rule for a move, stated on the line: a piece that
   *  starts moves stands at step i0; every cell after it up to step i1 is
   *  empty; and an empty block on the way is passed only by a piece that
   *  itself stands on a block at most two steps back. */
  predicate Open(c: seq<Tile>, sd: Side, k: nat, i0: int, i: nat)
    requires |c| == 84 && k < 36 && i <= 9
  {
    0 <= i0 < i && Starts(sd, c[LineCell(k, i0)])
    && forall j :: i0 < j < i ==> Passable(c, k, i0, j)
  }

  predicate Passable(c: seq<Tile>, k: nat, i0: nat, j: nat)
    requires |c| == 84 && k < 36 && i0 < j < 9
  {
    c[LineCell(k, j)] == E && (Block(LineCell(k, j)) ==> Block(LineCell(k, i0)) && j - i0 <= 2)
  }

  predicate Reach(c: seq<Tile>, sd: Side, k: nat, i0: int, i1: int)
    requires |c| == 84 && k < 36
  {
    0 <= i0 < i1 < 9 && Open(c, sd, k, i0, i1) && Passable(c, k, i0, i1)
  }

  /** m is the move from step i0 to step i1 of line k, and the rule allows it. */
  predicate MoveOn(c: seq<Tile>, sd: Side, k: nat, i0: int, i1: int, m: (nat, nat))
    requires |c| == 84 && k < 36
  {
    Reach(c, sd, k, i0, i1) && m == (LineCell(k, i0), LineCell(k, i1))
  }

  /** The source's distance test on a line is the test on steps. */
  lemma DistSteps(k: nat, i0: nat, i: nat)
    requires k < 36 && i0 < i < 9
    ensures (Dist(k, LineCell(k, i), LineCell(k, i0)) > Gap(k)) == (i - i0 > 2)
  {
  }

  /** What the scan remembers at step i: `li` is the one step from which
   *  the cells up to i are open. */
  predicate Tracks(c: seq<Tile>, sd: Side, k: nat, i: nat, li: int)
    requires |c| == 84 && k < 36 && i <= 9
  {
    (li >= 0 ==> Open(c, sd, k, li, i))
    && forall i0 :: 0 <= i0 < i && Open(c, sd, k, i0, i) ==> li == i0
  }

  lemma StepTracks(c: seq<Tile>, sd: Side, k: nat, i: nat, li: int)
    requires |c| == 84 && k < 36 && i < 9 && -1 <= li < i && Tracks(c, sd, k, i, li)
    ensures var r := Step(c, sd, k, i, li);
      && Tracks(c, sd, k, i + 1, r.1)
      && forall m :: m in r.0 <==> exists i0 :: MoveOn(c, sd, k, i0, i, m)
  {
    var r := Step(c, sd, k, i, li);
    if li >= 0 { DistSteps(k, li, i); }
    var i1 := i + 1;
    forall i0 | 0 <= i0 < i1 && Open(c, sd, k, i0, i1) ensures r.1 == i0 {
      if i0 < i {
        assert Open(c, sd, k, i0, i) && Passable(c, k, i0, i);
      }
    }
    if r.1 >= 0 {
      if r.1 < i {
        forall j | r.1 < j < i + 1 ensures Passable(c, k, r.1, j) {
        }
      }
    }
    forall m ensures m in r.0 <==> exists i0 :: MoveOn(c, sd, k, i0, i, m) {
      if m in r.0 {
        assert MoveOn(c, sd, k, li, i, m);
      }
      if exists i0 :: MoveOn(c, sd, k, i0, i, m) {
        var i0 :| MoveOn(c, sd, k, i0, i, m);
        assert li == i0;
        DistSteps(k, i0, i);
      }
    }
  }

  /** A scan from step i on emits exactly the allowed moves ending at step
   *  i or later. */
  lemma {:induction false} LineMovesReach(c: seq<Tile>, sd: Side, k: nat, i: nat, li: int)
    requires |c| == 84 && k < 36 && i <= 9 && -1 <= li < i && Tracks(c, sd, k, i, li)
    ensures forall m :: m in LineMoves(c, sd, k, i, li) <==> exists i0, i1 :: i <= i1 && MoveOn(c, sd, k, i0, i1, m)
    decreases 9 - i
  {
    if i < 9 {
      var r := Step(c, sd, k, i, li);
      StepTracks(c, sd, k, i, li);
      LineMovesReach(c, sd, k, i + 1, r.1);
      forall m ensures m in LineMoves(c, sd, k, i, li) <==> exists i0, i1 :: i <= i1 && MoveOn(c, sd, k, i0, i1, m) {
        if exists i0, i1 :: i <= i1 && MoveOn(c, sd, k, i0, i1, m) {
          var i0, i1 :| i <= i1 && MoveOn(c, sd, k, i0, i1, m);
          if i1 == i { assert m in r.0; }
        }
      }
    }
  }

  /** The reference rule: m slides along one of the scan lines. */
  predicate Slide(c: seq<Tile>, sd: Side, m: (nat, nat))
    requires |c| == 84
  {
    exists k, i0, i1 :: 0 <= k < 36 && 0 <= i0 < i1 < 9 && MoveOn(c, sd, k, i0, i1, m)
  }

  lemma {:induction false} AllLinesReach(c: seq<Tile>, sd: Side, n: nat)
    requires |c| == 84 && n <= 36
    ensures forall m :: m in AllLines(c, sd, n) <==> exists k, i0, i1 :: 0 <= k < n && MoveOn(c, sd, k, i0, i1, m)
  {
    if n > 0 {
      LineMovesReach(c, sd, n - 1, 0, -1);
      AllLinesReach(c, sd, n - 1);
      forall m ensures m in AllLines(c, sd, n) <==> exists k, i0, i1 :: 0 <= k < n && MoveOn(c, sd, k, i0, i1, m) {
        if exists k, i0, i1 :: 0 <= k < n && MoveOn(c, sd, k, i0, i1, m) {
          var k, i0, i1 :| 0 <= k < n && MoveOn(c, sd, k, i0, i1, m);
          if k == n - 1 { assert m in LineMoves(c, sd, n - 1, 0, -1); }
        }
      }
    }
  }

  /** get_moves is sound and complete for the rule: apart from the
   *  sentinel, returned when nothing slides, its moves are exactly the
   *  slides of the side to move. */
  lemma MovesAreSlides(p: Pos)
    requires Wf(p)
    ensures forall m :: m in AllLines(p.board, OneSide(Turn(p)), 36) <==> Slide(p.board, OneSide(Turn(p)), m)
    ensures Moves(p) == [(40, 40)] || forall m :: m in Moves(p) <==> Slide(p.board, OneSide(Turn(p)), m)
    ensures (Moves(p) == [(40, 40)]) == (forall m :: !Slide(p.board, OneSide(Turn(p)), m))
  {
    AllLinesReach(p.board, OneSide(Turn(p)), 36);
    var ms := AllLines(p.board, OneSide(Turn(p)), 36);
    if ms != [] {
      assert ms[0] in ms;
    }
  }

  /** Two steps of a line lie in the line's row or column, (i1 - i0) cells
   *  or (i1 - i0) rows apart in the scan's direction. */
  lemma LineGeometry(k: nat, i0: nat, i1: nat)
    requires k < 36 && i0 < i1 < 9
    ensures var q0, q1 := LineCell(k, i0), LineCell(k, i1);
      && (k / 9 == 0 ==> q0 / 9 == q1 / 9 && q1 - q0 == i1 - i0)
      && (k / 9 == 1 ==> q0 / 9 == q1 / 9 && q0 - q1 == i1 - i0)
      && (k / 9 == 2 ==> q0 % 9 == q1 % 9 && q1 - q0 == 9 * (i1 - i0))
      && (k / 9 == 3 ==> q0 % 9 == q1 % 9 && q0 - q1 == 9 * (i1 - i0))
  {
    var j := k % 9;
    if k / 9 == 0 { MapcUnmapc(i0, j, 0); MapcUnmapc(i1, j, 0); }
    else if k / 9 == 1 { MapcUnmapc(8 - i0, j, 0); MapcUnmapc(8 - i1, j, 0); }
    else if k / 9 == 2 { MapcUnmapc(j, i0, 0); MapcUnmapc(j, i1, 0); }
    else { MapcUnmapc(j, 8 - i0, 0); MapcUnmapc(j, 8 - i1, 0); }
  }

  /** What every slide is: between two distinct cells of one row or one
   *  column, from a piece of the side onto an empty cell; onto a block only
   *  from a block at most two steps away. */
  lemma SlideFacts(c: seq<Tile>, sd: Side, m: (nat, nat))
    requires |c| == 84 && Slide(c, sd, m)
    ensures m.0 < CELLS && m.1 < CELLS && m.0 != m.1
    ensures Starts(sd, c[m.0]) && c[m.1] == E
    ensures m.0 / 9 == m.1 / 9 || m.0 % 9 == m.1 % 9
    ensures m.0 / 9 == m.1 / 9 ==> -8 <= m.0 - m.1 <= 8
    ensures Block(m.1) ==>
      Block(m.0) && (if m.0 / 9 == m.1 / 9 then -2 <= m.0 - m.1 <= 2 else -18 <= m.0 - m.1 <= 18)
  {
    var k, i0, i1 :| 0 <= k < 36 && 0 <= i0 < i1 < 9 && MoveOn(c, sd, k, i0, i1, m);
    LineGeometry(k, i0, i1);
    assert Passable(c, k, i0, i1);
  }

  /** Where a king may stand while the game goes on: in the interior, and
   *  on a block only on the throne. */
  predicate KingSafe(c: seq<Tile>)
    requires |c| == 84
  {
    forall q :: 0 <= q < CELLS && c[q] == K ==> Interior(q) && (Block(q) ==> q == 40)
  }

  /** Every border cell other than the corners is a goal or a block. */
  lemma BorderCovered(q: nat)
    requires q < CELLS && !Interior(q) && !Goal(q) && !Block(q)
    ensures q == 0 || q == 8 || q == 72 || q == 80
  {
  }

  /** A king that keeps to the rules stays safe: its slide out of the
   *  interior can only reach a goal, which ends the game, and from the
   *  throne no block is within two steps. */
  lemma KingSlideSafe(c: seq<Tile>, m: (nat, nat))
    requires |c| == 84 && KingSafe(c) && Slide(c, OneSide(true), m) && c[m.0] == K && !Goal(m.1)
    ensures Interior(m.1) && !Block(m.1)
  {
    SlideFacts(c, OneSide(true), m);
    if !Interior(m.1) && !Block(m.1) { BorderCovered(m.1); }
  }

  /** A board change that moves a piece from m.0 to m.1 and otherwise only
   *  empties cells keeps the king safe, when a king so moved lands safely. */
  lemma KingSafeAfter(c: seq<Tile>, n: seq<Tile>, m: (nat, nat))
    requires |c| == 84 && |n| == 84 && m.0 < CELLS && m.1 < CELLS && KingSafe(c)
    requires n[m.1] == c[m.0] && n[m.0] == E
    requires forall q :: 0 <= q < 84 && q != m.0 && q != m.1 && !Near(m.1, q) ==> n[q] == c[q]
    requires forall q :: 0 <= q < 84 && q != m.0 && Near(m.1, q) ==> n[q] == c[q] || n[q] == E
    requires c[m.0] == K ==> Interior(m.1) && !Block(m.1)
    ensures KingSafe(n)
  {
    forall q | 0 <= q < CELLS && n[q] == K ensures Interior(q) && (Block(q) ==> q == 40) {
      if q != m.1 {
        assert c[q] == K;
      }
    }
  }

  /** From a position still being played with a safe king, a generated
   *  move that leaves the game going leaves the king safe. */
  lemma KingSafeKept(p: Pos, m: (nat, nat))
    requires Wf(p) && p.state == Going && KingSafe(p.board) && m in Moves(p)
    ensures MovOk(p, m)
    ensures MovSpec(p, m).state == Going ==> KingSafe(MovSpec(p, m).board)
  {
    MovesAreSlides(p);
    if m != (40, 40) {
      SlideFacts(p.board, OneSide(Turn(p)), m);
      MovBoard(p, m);
      MovState(p, m);
      var r := MovSpec(p, m);
      if r.state == Going {
        if p.board[m.0] == K { KingSlideSafe(p.board, m); }
        KingSafeAfter(p.board, r.board, m);
      }
    }
  }

  // ---------------------------------------------------------------------
  // Move ordering

  /** `ORDI`, by `turn & 1` (0: the defenders) and by distance; lower
   *  sorts first. */
  const ORDI: seq<seq<int>> := [[9, 4, 5, 3, 6, 7, 2, 1, 0], [9, 5, 2, 4, 3, 7, 1, 6, 0]]

  /** The distance of get_moves_sorted: the difference of the cells, in
   *  rows when it is at least 9. */
  function MoveDist(m: (nat, nat)): nat
  {
    var dif := if m.0 > m.1 then m.0 - m.1 else m.1 - m.0;
    if dif >= 9 then dif / 9 else dif
  }

  /** The sort key of get_moves_sorted for the side in row. */
  function OrdiOf(row: nat): ((nat, nat)) -> int
  {
    (m: (nat, nat)) => OrdiKey(row, m)
  }

  /** The sort key; distances outside the table, which no generated move
   *  has, get 0. */
  function OrdiKey(row: nat, m: (nat, nat)): int
  {
    if row < 2 && MoveDist(m) < 9 then ORDI[row][MoveDist(m)] else 0
  }

  /** Every generated move, the sentinel included, has a distance inside
   *  the table. */
  lemma MovesDist(p: Pos, m: (nat, nat))
    requires Wf(p) && m in Moves(p)
    ensures MoveDist(m) < 9
  {
    MovesAreSlides(p);
    if m != (40, 40) {
      SlideFacts(p.board, OneSide(Turn(p)), m);
    }
  }

  /** `get_moves_sorted`: the moves, reordered by the key of the side to
   *  move. */
  function MovesSorted(p: Pos): (r: seq<(nat, nat)>)
    requires Wf(p)
    ensures multiset(r) == multiset(Moves(p))
    ensures SortedBy(r, OrdiOf(p.turn % 2))
  {
    SortByKey(Moves(p), OrdiOf(p.turn % 2))
  }

  // ---------------------------------------------------------------------
  // The heuristic

  /** The material term: 6 per defender and -3 per attacker on cells
   *  0, ..., i - 1. */
  function Material(c: seq<Tile>, i: nat): int
    requires |c| == 84 && i <= CELLS
  {
    if i == 0 then 0
    else Material(c, i - 1) + (if c[i - 1] == D then 6 else if c[i - 1] == A then -3 else 0)
  }

  /** The mobility weight of a piece: 2 for a defender, 4 for the king,
   *  -1 for an attacker. */
  function Weight(x: Tile): int
  {
    match x
    case D => 2
    case K => 4
    case A => -1
    case E => 0
  }

  /** The mobility term: the weight of the moving piece summed over moves. */
  function Mobility(c: seq<Tile>, ms: seq<(nat, nat)>): int
  {
    if ms == [] then 0
    else
      var m := ms[|ms| - 1];
      Mobility(c, ms[..|ms| - 1]) + (if m.0 < |c| then Weight(c[m.0]) else 0)
  }

  /** `heuristic`: the decided states score 32768, -32768 and 0; a game
   *  going scores -16, plus 1 on the defenders' move and -1 on the
   *  attackers', plus the material, plus the mobility of every piece over
   *  the same scans as get_moves. */
  function Heuristic(p: Pos): (h: int)
    requires Wf(p)
    ensures -32768 <= h <= 32768
    ensures p.state == Going ==> -32768 < h < 32768
  {
    match p.state
    case Win => 32768
    case Lose => -32768
    case Draw => 0
    case Going => ScoreRange(p.board, Turn(p)); Score(p.board, Turn(p))
  }

  /** The score of a game going, with t the side to move. */
  function Score(c: seq<Tile>, t: bool): int
    requires |c| == 84
  {
    -16 + (if t then 1 else -1) + Material(c, CELLS) + Mobility(c, AllLines(c, Every, 36))
  }

  /** A scan line emits at most one move per step. */
  lemma {:induction false} LineMovesLength(c: seq<Tile>, sd: Side, k: nat, i: nat, li: int)
    requires |c| == 84 && k < 36 && i <= 9 && -1 <= li < i
    ensures |LineMoves(c, sd, k, i, li)| <= 9 - i
    decreases 9 - i
  {
    if i < 9 {
      LineMovesLength(c, sd, k, i + 1, Step(c, sd, k, i, li).1);
    }
  }

  lemma {:induction false} AllLinesLength(c: seq<Tile>, sd: Side, n: nat)
    requires |c| == 84 && n <= 36
    ensures |AllLines(c, sd, n)| <= 9 * n
  {
    if n > 0 {
      LineMovesLength(c, sd, n - 1, 0, -1);
      AllLinesLength(c, sd, n - 1);
    }
  }

  lemma {:induction false} MaterialBound(c: seq<Tile>, i: nat)
    requires |c| == 84 && i <= CELLS
    ensures -3 * i <= Material(c, i) <= 6 * i
  {
    if i > 0 { MaterialBound(c, i - 1); }
  }

  lemma {:induction false} MobilityBound(c: seq<Tile>, ms: seq<(nat, nat)>)
    ensures -|ms| <= Mobility(c, ms) <= 4 * |ms|
  {
    if ms != [] { MobilityBound(c, ms[..|ms| - 1]); }
  }

  /** The score of a game going lies strictly between the scores of a loss
   *  and a win. */
  lemma ScoreRange(c: seq<Tile>, t: bool)
    requires |c| == 84
    ensures -32768 < Score(c, t) < 32768
  {
    var ms := AllLines(c, Every, 36);
    AllLinesLength(c, Every, 36);
    MaterialBound(c, CELLS);
    MobilityBound(c, ms);
  }

  // ---------------------------------------------------------------------
  // The starting position

  /** The cell view of `new`: STARTING_POSITION, and the three unused
   *  fields left at zero. */
  function StartCells(): (c: seq<Tile>)
    ensures |c| == 84
  {
    seq(84, (q: int) requires 0 <= q < 84 => if q < CELLS then START[q / 9][q % 9] else E)
  }

  /** `new(t)`: turn 0 when the defenders start (t) and 1 otherwise; the
   *  starting position is the only one seen. */
  function Start(t: bool): (p: Pos)
    ensures Wf(p) && Turn(p) == t && p.state == Going && p.vis == {Key(p)}
  {
    var p := Pos(StartCells(), if t then 0 else 1, Going, {});
    p.(vis := {Key(p)})
  }

  /** The king starts on the throne, safe. */
  lemma StartSafe(t: bool)
    ensures StartCells()[40] == K && KingSafe(Start(t).board)
  {
  }

  /** Mobility adds up over concatenation. */
  lemma {:induction false} MobilityAppend(c: seq<Tile>, a: seq<(nat, nat)>, b: seq<(nat, nat)>)
    ensures Mobility(c, a + b) == Mobility(c, a) + Mobility(c, b)
    decreases |b|
  {
    if b != [] {
      assert (a + b)[..|a + b| - 1] == a + b[..|b| - 1];
      MobilityAppend(c, a, b[..|b| - 1]);
    } else {
      assert a + b == a;
    }
  }

  /** One step of a scan line of the mobility term. */
  lemma MobilityLineStep(c: seq<Tile>, k: nat, i: nat, li: int)
    requires |c| == 84 && k < 36 && i < 9 && -1 <= li < i
    ensures Mobility(c, LineMoves(c, Every, k, i, li))
            == Mobility(c, Step(c, Every, k, i, li).0) + Mobility(c, LineMoves(c, Every, k, i + 1, Step(c, Every, k, i, li).1))
  {
    var r := Step(c, Every, k, i, li);
    MobilityAppend(c, r.0, LineMoves(c, Every, k, i + 1, r.1));
  }

  /** The mobility of lines 0, ..., k, from that of lines 0, ..., k - 1. */
  lemma MobilityLines(c: seq<Tile>, k: nat)
    requires |c| == 84 && k < 36
    ensures Mobility(c, AllLines(c, Every, k + 1))
            == Mobility(c, AllLines(c, Every, k)) + Mobility(c, LineMoves(c, Every, k, 0, -1))
  {
    MobilityAppend(c, AllLines(c, Every, k), LineMoves(c, Every, k, 0, -1));
  }

  // ---------------------------------------------------------------------
  // The recorded positions

  /** The recorded positions in the cell view. */
  function VisOf(vis: set<(seq<bv8>, bool)>): set<(seq<Tile>, bool)>
  {
    set e | e in vis && |e.0| == 21 :: (Cells(e.0), e.1)
  }

  predicate AllBoards(vis: set<(seq<bv8>, bool)>)
  {
    forall e | e in vis :: |e.0| == 21
  }

  /** Inserting a packed position inserts its cell view; the packed position
   *  is there exactly when its cell view is; removing it removes its cell
   *  view. */
  lemma VisInsert(vis: set<(seq<bv8>, bool)>, b: seq<bv8>, t: bool)
    requires |b| == 21
    ensures VisOf(vis + {(b, t)}) == VisOf(vis) + {(Cells(b), t)}
  {
  }

  lemma VisHas(vis: set<(seq<bv8>, bool)>, b: seq<bv8>, t: bool)
    requires |b| == 21 && AllBoards(vis)
    ensures ((b, t) in vis) == ((Cells(b), t) in VisOf(vis))
  {
    if (Cells(b), t) in VisOf(vis) {
      var e :| e in vis && |e.0| == 21 && (Cells(e.0), e.1) == (Cells(b), t);
      CellsInjective(e.0, b);
    }
  }

  lemma VisRemove(vis: set<(seq<bv8>, bool)>, b: seq<bv8>, t: bool)
    requires |b| == 21 && AllBoards(vis)
    ensures VisOf(vis - {(b, t)}) == VisOf(vis) - {(Cells(b), t)}
  {
    forall x | x in VisOf(vis) - {(Cells(b), t)} ensures x in VisOf(vis - {(b, t)}) {
      var e :| e in vis && |e.0| == 21 && (Cells(e.0), e.1) == x;
      assert e != (b, t);
    }
    forall x | x in VisOf(vis - {(b, t)}) ensures x != (Cells(b), t) {
      var e :| e in vis - {(b, t)} && |e.0| == 21 && (Cells(e.0), e.1) == x;
      if x == (Cells(b), t) { CellsInjective(e.0, b); }
    }
  }

  // ---------------------------------------------------------------------
  // The struct

  /** The cell view of the cells 0, ..., n - 1 of the starting position,
   *  the rest still empty. */
  function Filled(n: nat): (c: seq<Tile>)
    ensures |c| == 84
  {
    seq(84, (q: int) requires 0 <= q < 84 => if q < n then StartCells()[q] else E)
  }

  lemma FilledStep(x: nat, y: nat)
    requires x < 9 && y < 9
    ensures Filled(Mapc(x, y) + 1) == Filled(Mapc(x, y))[Mapc(x, y) := START[y][x]]
  {
    var n := Mapc(x, y);
    MapcUnmapc(x, y, 0);
    assert StartCells()[n] == START[y][x];
    var a, b := Filled(n + 1), Filled(n)[n := START[y][x]];
    assert forall q :: 0 <= q < 84 ==> a[q] == b[q];
  }

  /** A zeroed board is empty. */
  lemma CellsZero(b: seq<bv8>)
    requires |b| == 21 && forall i :: 0 <= i < 21 ==> b[i] == 0
    ensures Cells(b) == Filled(0)
  {
  }

  class Board {
    const board: array<bv8>
    var turn: nat
    var state: State
    var vis: set<(seq<bv8>, bool)>

    ghost predicate Valid()
      reads this
    {
      board.Length == 21 && turn < TWO32 && AllBoards(vis)
    }

    function Abs(): (p: Pos)
      reads this, board
      requires Valid()
      ensures Wf(p)
    {
      Pos(Cells(board[..]), turn, state, VisOf(vis))
    }

    /** `get`. */
    function At(pos: nat): (t: Tile)
      reads this, board
      requires Valid() && pos < 84
      ensures t == Get(board[..], pos)
    {
      TileOf(FieldOf(board[pos / 4], Lane(pos)))
    }

    /** `set`: clear the field, then or in the tile. */
    method SetTile(pos: nat, v: Tile)
      requires Valid() && pos < 84
      modifies board
      ensures Valid() && board[..] == Set(old(board[..]), pos, v)
    {
      var i, k := pos / 4, Lane(pos);
      board[i] := board[i] & !(3 << k << k);
      board[i] := board[i] | (Code(v) << k << k);
    }

    /** `get_static_state`. */
    function StaticState(): (r: (seq<bv8>, bool))
      reads this, board
      requires Valid()
      ensures |r.0| == 21 && (Cells(r.0), r.1) == Key(Abs())
    {
      (board[..], turn % 2 == 0)
    }

    constructor (t: bool)
      ensures Valid() && Abs() == Start(t) && fresh(board)
    {
      board := new bv8[21](i => 0);
      turn := if t then 0 else 1;
      state := Going;
      vis := {};
      new;
      CellsZero(board[..]);
      var y := 0;
      while y < 9
        invariant 0 <= y <= 9 && Valid() && turn == (if t then 0 else 1) && state == Going && vis == {}
        invariant Cells(board[..]) == Filled(9 * y)
      {
        var x := 0;
        while x < 9
          invariant 0 <= x <= 9 && Valid() && turn == (if t then 0 else 1) && state == Going && vis == {}
          invariant Cells(board[..]) == Filled(Mapc(x, y))
        {
          FilledStep(x, y);
          CellsSet(board[..], Mapc(x, y), START[y][x]);
          SetTile(Mapc(x, y), START[y][x]);
          x := x + 1;
        }
        y := y + 1;
      }
      assert Filled(CELLS) == StartCells();
      var key := StaticState();
      VisInsert(vis, key.0, key.1);
      vis := vis + {key};
    }

    /** Capture check d of `mov` around m1 (below, above, right, left):
     *  `captured` is read off the cells of the packed board. */
    method Capture(m1: nat, d: nat)
      requires Valid() && m1 < CELLS && d < 4
      requires turn % 2 != 0 ==> KingInside(Cells(board[..]), m1)
      modifies this, board
      ensures Valid() && turn == old(turn) && vis == old(vis)
      ensures (Cells(board[..]), state) == CaptureAt(old(Cells(board[..])), old(state), old(turn) % 2 == 0, m1, A1(m1, d), A2(m1, d), Guard(m1, d))
      ensures CaptureSteps(old(Cells(board[..])), old(state), old(turn) % 2 == 0, m1, d)
        == CaptureSteps(Cells(board[..]), state, turn % 2 == 0, m1, d + 1)
    {
      var a1, a2 := A1(m1, d), A2(m1, d);
      if Guard(m1, d) && Captured(Cells(board[..]), turn % 2 == 0, a1, a2) {
        if At(a1) == K {
          state := Lose;
        }
        CellsSet(board[..], a1, E);
        SetTile(a1, E);
      }
    }

    /** The four capture checks of `mov` around m1, in order. */
    method Captures(m1: nat)
      requires Valid() && m1 < CELLS && (turn % 2 != 0 ==> KingInside(Cells(board[..]), m1))
      modifies this, board
      ensures Valid() && turn == old(turn) && vis == old(vis)
      ensures (Cells(board[..]), state) == CaptureSteps(old(Cells(board[..])), old(state), old(turn) % 2 == 0, m1, 0)
    {
      Capture(m1, 0);
      Capture(m1, 1);
      Capture(m1, 2);
      Capture(m1, 3);
    }

    /** The end of `mov`: the king on a goal wins, the turn advances, and
     *  a position already recorded is a draw. */
    method Record(m1: nat)
      requires Valid() && m1 < CELLS
      modifies this
      ensures Valid()
      ensures var s := if Goal(m1) && old(Abs()).board[m1] == K then Win else old(state);
        var t := Inc32(old(turn));
        var key := (old(Abs()).board, t % 2 == 0);
        Abs() == Pos(old(Abs()).board, t, if key in old(Abs()).vis then Draw else s, old(Abs()).vis + {key})
    {
      if Goal(m1) && At(m1) == K {
        state := Win;
      }
      turn := Inc32(turn);
      var key := StaticState();
      VisHas(vis, key.0, key.1);
      VisInsert(vis, key.0, key.1);
      if key in vis {
        state := Draw;
      }
      vis := vis + {key};
    }

    /** `mov`. */
    method Mov(m: (nat, nat))
      requires Valid() && MovOk(Abs(), m)
      modifies this, board
      ensures Valid() && Abs() == MovSpec(old(Abs()), m)
    {
      if m.0 == m.1 {
        state := if turn % 2 == 0 then Win else Lose;
        turn := Inc32(turn);
        return;
      }
      var x := At(m.0);
      CellsSet(board[..], m.0, E);
      SetTile(m.0, E);
      CellsSet(board[..], m.1, x);
      SetTile(m.1, x);
      Captures(m.1);
      Record(m.1);
    }

    /** `mov_with_rollback`: the four cells around the destination, two
     *  bits each, then the move. */
    method MovWithRollback(m: (nat, nat)) returns (r: Token)
      requires Valid() && MovOk(Abs(), m)
      modifies this, board
      ensures Valid() && (Abs(), r) == MovR(old(Abs()), m)
    {
      ghost var c := Abs().board;
      var rb: bv8 := 0;
      if m.1 + 9 < CELLS {
        rb := rb | Code(At(m.1 + 9));
      }
      if m.1 >= 9 {
        rb := rb | (Code(At(m.1 - 9)) << 2);
      }
      if m.1 + 1 < CELLS {
        rb := rb | (Code(At(m.1 + 1)) << 4);
      }
      if m.1 >= 1 {
        rb := rb | (Code(At(m.1 - 1)) << 6);
      }
      assert rb == Packed(c, m.1);
      Mov(m);
      r := (m, rb);
    }

    /** The board part of `rollback`. */
    /** One neighbour of rollback: cell q gets v when ok holds. */
    method RestoreIf(ok: bool, q: int, v: Tile)
      requires Valid() && (ok ==> 0 <= q < 84)
      modifies board
      ensures Valid() && Cells(board[..]) == if ok then old(Cells(board[..]))[q := v] else old(Cells(board[..]))
    {
      if ok {
        CellsSet(board[..], q, v);
        SetTile(q, v);
      }
    }

    /** The board part of `rollback`: the four neighbours of m.1 from the
     *  token, then the piece back from m.1 to m.0. */
    method Restore(m: (nat, nat), rb: bv8)
      requires Valid() && m.0 < CELLS && m.1 < CELLS
      modifies board
      ensures Valid() && Cells(board[..]) == Unmoved(old(Cells(board[..])), m, rb)
    {
      ghost var c := Cells(board[..]);
      var m1 := m.1;
      RestoreIf(m1 + 9 < CELLS, m1 + 9, TileOf(rb));
      ghost var c1 := Cells(board[..]);
      RestoreIf(m1 >= 9, m1 - 9, TileOf(rb >> 2));
      ghost var c2 := Cells(board[..]);
      RestoreIf(m1 + 1 < CELLS, m1 + 1, TileOf(rb >> 4));
      ghost var c3 := Cells(board[..]);
      RestoreIf(m1 >= 1, m1 - 1, TileOf(rb >> 6));
      ghost var c4 := Cells(board[..]);
      var t := At(m1);
      assert t == c4[m1];
      CellsSet(board[..], m.0, t);
      SetTile(m.0, t);
      CellsSet(board[..], m1, E);
      SetTile(m1, E);
      UnmovedSteps(c, c1, c2, c3, c4, Cells(board[..]), m, rb);
    }

    /** `rollback`, corrected for the sentinel, which changed only the turn
     *  and the state. */
    method Rollback(r: Token)
      requires Valid() && r.0.0 < CELLS && r.0.1 < CELLS
      modifies this, board
      ensures Valid() && Abs() == RollbackSpec(old(Abs()), r)
    {
      var (m, rb) := r;
      if m.0 == m.1 {
        turn := Dec32(turn);
        state := Going;
        return;
      }
      if state != Draw {
        var key := StaticState();
        VisRemove(vis, key.0, key.1);
        vis := vis - {key};
      }
      turn := Dec32(turn);
      state := Going;
      Restore(m, rb);
    }

    /** One step of a scan line of `get_moves`: the cell at step i of line
     *  k, with `last` 128 when no piece of the side to move can slide on. */
    method ScanStep(k: nat, sd: Side, i: nat, last: nat, ghost li: int) returns (emit: seq<(nat, nat)>, last': nat, ghost li': int)
      requires Valid() && k < 36 && i < 9 && -1 <= li < i
      requires last == if li < 0 then 128 else LineCell(k, li)
      ensures (emit, li') == Step(Cells(board[..]), sd, k, i, li)
      ensures last' == if li' < 0 then 128 else LineCell(k, li')
    {
      var p := LineCell(k, i);
      var t := At(p);
      assert t == Cells(board[..])[p];
      emit, last', li' := [], last, li;
      if t == E {
        if Block(p) && (last == 128 || !Block(last) || Dist(k, p, last) > Gap(k)) {
          last', li' := 128, -1;
        } else if last != 128 {
          emit := [(last, p)];
        }
      } else if Starts(sd, t) {
        last', li' := p, i;
      } else {
        last', li' := 128, -1;
      }
    }

    /** One of the 36 scan lines of `get_moves`. */
    method ScanLine(k: nat, sd: Side) returns (ms: seq<(nat, nat)>)
      requires Valid() && k < 36
      ensures ms == LineMoves(Cells(board[..]), sd, k, 0, -1)
    {
      ghost var c := Cells(board[..]);
      ms := [];
      var last: nat := 128;
      ghost var li: int := -1;
      var i := 0;
      while i < 9
        invariant 0 <= i <= 9 && -1 <= li < i
        invariant last == if li < 0 then 128 else LineCell(k, li)
        invariant ms + LineMoves(c, sd, k, i, li) == LineMoves(c, sd, k, 0, -1)
        decreases 9 - i
      {
        LineStep(c, sd, k, i, li, ms);
        var emit;
        emit, last, li := ScanStep(k, sd, i, last, li);
        ms := ms + emit;
        i := i + 1;
      }
    }

    /** `get_moves`: the four scans, then the sentinel (40, 40) when no
     *  move was found. */
    method GetMoves() returns (ans: seq<(nat, nat)>)
      requires Valid()
      ensures ans == MovesOn(Cells(board[..]), turn % 2 == 0)
    {
      ghost var c := Cells(board[..]);
      var sd := OneSide(turn % 2 == 0);
      ans := [];
      var k := 0;
      while k < 36
        invariant 0 <= k <= 36
        invariant ans == AllLines(c, sd, k)
      {
        var ms := ScanLine(k, sd);
        ans := ans + ms;
        k := k + 1;
      }
      if ans == [] {
        ans := [(40, 40)];
      }
    }

    /** `get_moves_sorted`: get_moves ordered by ORDI on the side to move. */
    method GetMovesSorted() returns (ans: seq<(nat, nat)>)
      requires Valid()
      ensures ans == MovesSorted(Abs())
    {
      ans := GetMoves();
      ans := SortByKey(ans, OrdiOf(turn % 2));
    }

    /** One step of a scan line of `heuristic`: every piece becomes
     *  `last`, and a move adds the weight of `last`; `lastp` is left as it
     *  was when `last` is cleared. */
    method MobilityStep(k: nat, i: nat, last: Tile, lastp: nat, ghost li: int)
      returns (add: int, last': Tile, lastp': nat, ghost li': int)
      requires Valid() && k < 36 && i < 9 && -1 <= li < i
      requires (last == E) == (li < 0)
      requires li >= 0 ==> lastp == LineCell(k, li) && last == Cells(board[..])[lastp]
      ensures var r := Step(Cells(board[..]), Every, k, i, li);
        add == Mobility(Cells(board[..]), r.0) && li' == r.1
      ensures (last' == E) == (li' < 0)
      ensures li' >= 0 ==> lastp' == LineCell(k, li') && last' == Cells(board[..])[lastp']
    {
      var p := LineCell(k, i);
      var t := At(p);
      assert t == Cells(board[..])[p];
      add, last', lastp', li' := 0, last, lastp, li;
      if t == E {
        if Block(p) && (last == E || !Block(lastp) || Dist(k, p, lastp) > Gap(k)) {
          last', li' := E, -1;
        } else if last != E {
          add := Weight(last);
          assert Mobility(Cells(board[..]), [(lastp, p)]) == Weight(last);
        }
      } else {
        last', lastp', li' := t, p, i;
      }
    }

    /** The mobility sum of one scan line of `heuristic`. */
    method MobilityLine(k: nat) returns (w: int)
      requires Valid() && k < 36
      ensures w == Mobility(Cells(board[..]), LineMoves(Cells(board[..]), Every, k, 0, -1))
    {
      ghost var c := Cells(board[..]);
      w := 0;
      var last := E;
      var lastp: nat := 128;
      ghost var li: int := -1;
      var i := 0;
      while i < 9
        invariant 0 <= i <= 9 && -1 <= li < i
        invariant (last == E) == (li < 0)
        invariant li >= 0 ==> lastp == LineCell(k, li) && last == c[lastp]
        invariant w + Mobility(c, LineMoves(c, Every, k, i, li)) == Mobility(c, LineMoves(c, Every, k, 0, -1))
        decreases 9 - i
      {
        MobilityLineStep(c, k, i, li);
        var add;
        add, last, lastp, li := MobilityStep(k, i, last, lastp, li);
        w := w + add;
        i := i + 1;
      }
    }

    /** `heuristic`. */
    method HeuristicM() returns (h: int)
      requires Valid()
      ensures h == Heuristic(Abs())
    {
      if state == Win {
        return 32768;
      } else if state == Lose {
        return -32768;
      } else if state == Draw {
        return 0;
      }
      ghost var c := Cells(board[..]);
      h := -16 + if turn % 2 == 0 then 1 else -1;
      ghost var base := h;
      var i := 0;
      while i < CELLS
        invariant 0 <= i <= CELLS && h == base + Material(c, i)
      {
        var t := At(i);
        assert t == c[i];
        if t == D {
          h := h + 6;
        }
        if t == A {
          h := h - 3;
        }
        i := i + 1;
      }
      ghost var h1 := h;
      var k := 0;
      while k < 36
        invariant 0 <= k <= 36
        invariant h == h1 + Mobility(c, AllLines(c, Every, k))
      {
        var w := MobilityLine(k);
        MobilityLines(c, k);
        h := h + w;
        k := k + 1;
      }
    }
  }

  /** The corrected game as a token game; positions still being played keep
   *  the king where the capture rule expects it. */
  function TokenInstance(): TokenGame<Pos, (nat, nat), Token, (seq<Tile>, bool)>
  {
    TokenGame(
      (p: Pos) => Turn(p),
      (p: Pos) => if Wf(p) then Moves(p) else [],
      (p: Pos) => if Wf(p) then MovesSorted(p) else [],
      (p: Pos) => Key(p),
      (p: Pos) => p.state,
      (p: Pos) => if Wf(p) then Heuristic(p) else 0,
      (p: Pos, m: (nat, nat)) => if MovOk(p, m) then MovSpec(p, m) else p,
      (p: Pos, m: (nat, nat)) => if MovOk(p, m) then MovR(p, m) else (p, (m, 0)),
      (p: Pos, r: Token) => if Wf(p) && r.0.0 < CELLS && r.0.1 < CELLS then RollbackSpec(p, r) else p,
      (p: Pos) => Wf(p) && (p.state == Going ==> KingSafe(p.board)))
  }

  lemma InstanceLawful()
    ensures TokenLaws(TokenInstance())
  {
    var G := TokenInstance();
    forall p, m | G.valid(p) && G.state(p) == Going && m in G.moves(p)
      ensures G.movR(p, m).0 == G.mov(p, m) && G.valid(G.mov(p, m))
      ensures G.undo(G.movR(p, m).0, G.movR(p, m).1) == p
    {
      MoveLawful(p, m);
    }
  }

  /** A generated move from a valid position still being played is
   *  allowed, keeps the king safe while the game goes on, and is undone by
   *  its token. */
  lemma MoveLawful(p: Pos, m: (nat, nat))
    requires Wf(p) && p.state == Going && KingSafe(p.board) && m in Moves(p)
    ensures MovOk(p, m)
    ensures MovSpec(p, m).state == Going ==> KingSafe(MovSpec(p, m).board)
    ensures RollbackSpec(MovR(p, m).0, MovR(p, m).1) == p
  {
    KingSafeKept(p, m);
    MovesAreSlides(p);
    if m != (40, 40) {
      SlideFacts(p.board, OneSide(Turn(p)), m);
    }
    RoundTrip(p, m);
  }
}
