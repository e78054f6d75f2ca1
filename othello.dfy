/** Othello (src/othello.rs). The struct keeps the board in two u64 words:
 *  bit p of the first says whether cell p holds a piece, bit p of the
 *  second whether that piece belongs to the first player (the side for
 *  which `turn` is true). Cell p is (x, y) = (p mod 8, p div 8). Move 64 is
 *  the pass move, and `pass` (a u8) counts passes. The token returned by
 *  `mov_with_rollback` is the pair of words.
 *
 *  The rules are stated on a value `Pos` whose words are read as 64
 *  booleans each (`Words.Bits`); the class `Board` keeps the words and is
 *  proved against those rules. */
module Othello {
  import opened Games
  import opened Words
  import Sorting

  // ---------------------------------------------------------------- coordinates

  predicate OnBoard(x: int, y: int) { 0 <= x < 8 && 0 <= y < 8 }

  /** mapc: the cell at (x, y). */
  function Mapc(x: int, y: int): (r: nat)
    requires OnBoard(x, y)
    ensures r < 64
  {
    8 * y + x
  }

  /** unmapc: the coordinates of cell p. */
  function Unmapc(p: nat): (int, int)
  {
    (p % 8, p / 8)
  }

  /** The source computes mapc as `(y << 3) | x` on u8; on the board this
   *  is the arithmetic above. */
  lemma MapcShift(x: bv8, y: bv8)
    requires x < 8 && y < 8
    ensures ((y << 3) | x) as int == Mapc(x as int, y as int)
  {
  }

  /** The source computes unmapc as `(p & 7, p >> 3)` on u8. */
  lemma UnmapcMask(p: bv8)
    ensures (p & 7) as int == Unmapc(p as int).0 && (p >> 3) as int == Unmapc(p as int).1
  {
  }

  /** mapc and unmapc are mutually inverse on the board. */
  lemma MapcUnmapc(x: int, y: int)
    requires OnBoard(x, y)
    ensures Unmapc(Mapc(x, y)) == (x, y)
  {
  }

  lemma UnmapcMapc(p: nat)
    requires p < 64
    ensures OnBoard(Unmapc(p).0, Unmapc(p).1) && Mapc(Unmapc(p).0, Unmapc(p).1) == p
  {
  }

  lemma MapcInjective(x: int, y: int, x2: int, y2: int)
    requires OnBoard(x, y) && OnBoard(x2, y2)
    ensures (Mapc(x, y) == Mapc(x2, y2)) == (x == x2 && y == y2)
  {
  }

  const DIRS: seq<(int, int)> := [(0, 1), (-1, 1), (-1, 0), (-1, -1), (0, -1), (1, -1), (1, 0), (1, 1)]

  predicate IsDir(dx: int, dy: int)
  {
    -1 <= dx <= 1 && -1 <= dy <= 1 && (dx != 0 || dy != 0)
  }

  lemma DirsAreDirs(d: nat)
    requires d < 8
    ensures IsDir(DIRS[d].0, DIRS[d].1)
  {
  }

  /** x moved j steps of dx (dx is -1, 0 or 1). */
  function Along(x: int, j: int, dx: int): int
  {
    if dx == 1 then x + j else if dx == -1 then x - j else x
  }

  /** Steps left along the direction before leaving the board (from a
   *  cell with -1 <= x, y <= 8, where it is never negative). */
  function Ahead(x: int, y: int, dx: int, dy: int): int
  {
    (if dx > 0 then 8 - x else if dx < 0 then x + 1 else 0) +
    (if dy > 0 then 8 - y else if dy < 0 then y + 1 else 0)
  }

  // ---------------------------------------------------------------- positions

  datatype Pos = Pos(occ: seq<bool>, col: seq<bool>, turn: bool, pass: nat)

  predicate Sized(p: Pos) { |p.occ| == 64 && |p.col| == 64 }

  predicate Wf(p: Pos) { Sized(p) && p.pass < 256 }

  /** Colour bits only where there are pieces. */
  ghost predicate ColourInOcc(p: Pos)
    requires Sized(p)
  {
    forall q :: 0 <= q < 64 ==> p.col[q] ==> p.occ[q]
  }

  /** add_piece(q, c). */
  function AddPiece(p: Pos, q: nat, c: bool): Pos
    requires Sized(p) && q < 64
  {
    p.(occ := p.occ[q := true], col := p.col[q := p.col[q] || c])
  }

  /** The empty board, with t to move. */
  function Empty(t: bool): (r: Pos)
    ensures Wf(r)
  {
    Pos(seq(64, _ => false), seq(64, _ => false), t, 0)
  }

  /** `new`: the empty board with pieces added on (3,3) and (4,4) for the
   *  first player and on (3,4) and (4,3) for the second. */
  function Start(t: bool): (r: Pos)
    ensures Wf(r) && ColourInOcc(r) && r.turn == t && r.pass == 0
    ensures forall q :: 0 <= q < 64 ==> r.occ[q] == (q == 27 || q == 28 || q == 35 || q == 36)
    ensures forall q :: 0 <= q < 64 ==> r.col[q] == (q == 27 || q == 36)
  {
    var a := AddPiece(Empty(t), Mapc(3, 3), true);
    var b := AddPiece(a, Mapc(4, 4), true);
    var c := AddPiece(b, Mapc(3, 4), false);
    AddPiece(c, Mapc(4, 3), false)
  }

  // ---------------------------------------------------------------- reversable and reverse

  /** The loop of `reversable` from cell (x, y) on: an empty cell or the
   *  edge answers false, a piece of colour t answers `found`, and an
   *  opposing piece sets `found` and steps on. */
  predicate Scan(p: Pos, t: bool, x: int, y: int, dx: int, dy: int, found: bool)
    requires Sized(p) && IsDir(dx, dy) && -1 <= x <= 8 && -1 <= y <= 8
    decreases Ahead(x, y, dx, dy)
  {
    if !OnBoard(x, y) then false
    else if !p.occ[Mapc(x, y)] then false
    else if p.col[Mapc(x, y)] == t then found
    else Scan(p, t, x + dx, y + dy, dx, dy, true)
  }

  /** A scan that succeeds without a piece found succeeds with one. */
  lemma {:induction false} ScanFound(p: Pos, t: bool, x: int, y: int, dx: int, dy: int)
    requires Sized(p) && IsDir(dx, dy) && -1 <= x <= 8 && -1 <= y <= 8
    requires Scan(p, t, x, y, dx, dy, false)
    ensures Scan(p, t, x, y, dx, dy, true)
    decreases Ahead(x, y, dx, dy)
  {
  }

  /** `reversable(t, (x, y), dir)`. */
  predicate Reversable(p: Pos, t: bool, x: int, y: int, dx: int, dy: int)
    requires Sized(p) && OnBoard(x, y) && IsDir(dx, dy)
  {
    Scan(p, t, x + dx, y + dy, dx, dy, false)
  }

  ghost predicate Opp(p: Pos, t: bool, x: int, y: int)
    requires Sized(p)
  {
    OnBoard(x, y) && p.occ[Mapc(x, y)] && p.col[Mapc(x, y)] != t
  }

  ghost predicate Own(p: Pos, t: bool, x: int, y: int)
    requires Sized(p)
  {
    OnBoard(x, y) && p.occ[Mapc(x, y)] && p.col[Mapc(x, y)] == t
  }

  /** Seen from (x, y): the cells 1..k steps away hold opposing pieces and
   *  the cell k + 1 steps away holds a piece of colour t. */
  ghost predicate Run(p: Pos, t: bool, x: int, y: int, dx: int, dy: int, k: nat)
    requires Sized(p)
  {
    (forall j :: 1 <= j <= k ==> Opp(p, t, Along(x, j, dx), Along(y, j, dy))) &&
    Own(p, t, Along(x, k + 1, dx), Along(y, k + 1, dy))
  }

  lemma RunStep(p: Pos, t: bool, x: int, y: int, nx: int, ny: int, dx: int, dy: int, k: nat)
    requires Sized(p) && IsDir(dx, dy) && nx == x + dx && ny == y + dy
    requires Opp(p, t, nx, ny) && Run(p, t, nx, ny, dx, dy, k)
    ensures Run(p, t, x, y, dx, dy, k + 1)
  {
    forall j | 1 <= j <= k + 1 ensures Opp(p, t, Along(x, j, dx), Along(y, j, dy)) {
      if j > 1 {
        assert Along(x, j, dx) == Along(nx, j - 1, dx) && Along(y, j, dy) == Along(ny, j - 1, dy);
      }
    }
    assert Along(x, k + 2, dx) == Along(nx, k + 1, dx) && Along(y, k + 2, dy) == Along(ny, k + 1, dy);
  }

  lemma RunStepBack(p: Pos, t: bool, x: int, y: int, nx: int, ny: int, dx: int, dy: int, k: nat)
    requires Sized(p) && IsDir(dx, dy) && nx == x + dx && ny == y + dy
    requires k >= 1 && Run(p, t, x, y, dx, dy, k)
    ensures Opp(p, t, nx, ny) && Run(p, t, nx, ny, dx, dy, k - 1)
  {
    assert Along(x, 1, dx) == nx && Along(y, 1, dy) == ny;
    forall j | 1 <= j <= k - 1 ensures Opp(p, t, Along(nx, j, dx), Along(ny, j, dy)) {
      assert Along(nx, j, dx) == Along(x, j + 1, dx) && Along(ny, j, dy) == Along(y, j + 1, dy);
    }
    assert Along(nx, k, dx) == Along(x, k + 1, dx) && Along(ny, k, dy) == Along(y, k + 1, dy);
  }

  /** The scan stops at the cell next to (x, y): it is empty, off the
   *  board, or holds a piece of colour t. */
  lemma ScanRunStop(p: Pos, t: bool, x: int, y: int, dx: int, dy: int, found: bool)
    requires Sized(p) && IsDir(dx, dy) && OnBoard(x, y)
    requires !Opp(p, t, x + dx, y + dy)
    ensures Scan(p, t, x + dx, y + dy, dx, dy, found) <==>
            exists k: nat :: (found || k >= 1) && Run(p, t, x, y, dx, dy, k)
  {
    var nx, ny := x + dx, y + dy;
    assert Along(x, 1, dx) == nx && Along(y, 1, dy) == ny;
    forall k: nat | k >= 1 ensures !Run(p, t, x, y, dx, dy, k) {
      assert !Opp(p, t, Along(x, 1, dx), Along(y, 1, dy));
    }
    if Own(p, t, nx, ny) {
      assert Scan(p, t, nx, ny, dx, dy, found) == found;
      if found { assert Run(p, t, x, y, dx, dy, 0); }
    } else {
      assert !Scan(p, t, nx, ny, dx, dy, found);
      assert !Run(p, t, x, y, dx, dy, 0);
    }
  }

  /** At an opposing piece the scan steps on with a piece found. */
  lemma ScanOppStep(p: Pos, t: bool, x: int, y: int, dx: int, dy: int, found: bool)
    requires Sized(p) && IsDir(dx, dy) && Opp(p, t, x, y)
    ensures -1 <= x + dx <= 8 && -1 <= y + dy <= 8
    ensures Scan(p, t, x, y, dx, dy, found) == Scan(p, t, x + dx, y + dy, dx, dy, true)
  {
  }

  /** The cell next to (x, y) holds an opposing piece: the scan steps on,
   *  and a Run seen from the next cell is one step longer seen from
   *  (x, y). */
  lemma ScanRunOpp(p: Pos, t: bool, x: int, y: int, nx: int, ny: int, dx: int, dy: int, found: bool)
    requires Sized(p) && IsDir(dx, dy) && OnBoard(x, y) && nx == x + dx && ny == y + dy
    requires Opp(p, t, nx, ny)
    requires Scan(p, t, nx + dx, ny + dy, dx, dy, true) <==> exists k: nat :: Run(p, t, nx, ny, dx, dy, k)
    ensures Scan(p, t, nx, ny, dx, dy, found) <==>
            exists k: nat :: (found || k >= 1) && Run(p, t, x, y, dx, dy, k)
  {
    ScanOppStep(p, t, nx, ny, dx, dy, found);
    if Scan(p, t, nx + dx, ny + dy, dx, dy, true) {
      var k: nat :| Run(p, t, nx, ny, dx, dy, k);
      RunStep(p, t, x, y, nx, ny, dx, dy, k);
      assert (found || k + 1 >= 1) && Run(p, t, x, y, dx, dy, k + 1);
    } else if k: nat :| (found || k >= 1) && Run(p, t, x, y, dx, dy, k) {
      assert Along(x, 1, dx) == nx && Along(y, 1, dy) == ny;
      assert k != 0 by { assert !Own(p, t, Along(x, 1, dx), Along(y, 1, dy)); }
      RunStepBack(p, t, x, y, nx, ny, dx, dy, k);
      assert false;
    }
  }

  /** The scan that starts next to (x, y) succeeds iff a Run is seen from
   *  (x, y), of at least one opposing piece unless one was already found. */
  lemma {:induction false} ScanRun(p: Pos, t: bool, x: int, y: int, dx: int, dy: int, found: bool)
    requires Sized(p) && IsDir(dx, dy) && OnBoard(x, y)
    ensures Scan(p, t, x + dx, y + dy, dx, dy, found) <==>
            exists k: nat :: (found || k >= 1) && Run(p, t, x, y, dx, dy, k)
    decreases Ahead(x + dx, y + dy, dx, dy)
  {
    var nx, ny := x + dx, y + dy;
    if Opp(p, t, nx, ny) {
      ScanRun(p, t, nx, ny, dx, dy, true);
      ScanRunOpp(p, t, x, y, nx, ny, dx, dy, found);
    } else {
      ScanRunStop(p, t, x, y, dx, dy, found);
    }
  }

  /** `reversable` holds iff, looking from (x, y) along the direction, at
   *  least one opposing piece is followed by a piece of colour t. */
  lemma ReversableIff(p: Pos, t: bool, x: int, y: int, dx: int, dy: int)
    requires Sized(p) && OnBoard(x, y) && IsDir(dx, dy)
    ensures Reversable(p, t, x, y, dx, dy) <==> exists k: nat :: k >= 1 && Run(p, t, x, y, dx, dy, k)
  {
    ScanRun(p, t, x, y, dx, dy, false);
  }

  /** Changing the colour of a cell behind (x, y) does not change the scan. */
  lemma {:induction false} ScanIgnoresBehind(p: Pos, p2: Pos, c: nat, t: bool, x: int, y: int, dx: int, dy: int,
                                             cx: int, cy: int, found: bool)
    requires Sized(p) && Sized(p2) && IsDir(dx, dy) && -1 <= x <= 8 && -1 <= y <= 8
    requires OnBoard(cx, cy) && c == Mapc(cx, cy) && Ahead(x, y, dx, dy) < Ahead(cx, cy, dx, dy)
    requires p2.occ == p.occ
    requires forall q :: 0 <= q < 64 && q != c ==> p2.col[q] == p.col[q]
    ensures Scan(p2, t, x, y, dx, dy, found) == Scan(p, t, x, y, dx, dy, found)
    decreases Ahead(x, y, dx, dy)
  {
    if OnBoard(x, y) {
      MapcInjective(x, y, cx, cy);
      ScanIgnoresBehind(p, p2, c, t, x + dx, y + dy, dx, dy, cx, cy, true);
    }
  }

  /** From p to r only opposing occupied pieces changed colour, and they
   *  became t's. */
  ghost predicate FlipsOnly(p: Pos, r: Pos, t: bool)
    requires Sized(p) && Sized(r)
  {
    forall q :: 0 <= q < 64 && r.col[q] != p.col[q] ==> p.occ[q] && p.col[q] != t && r.col[q] == t
  }

  lemma FlipsTrans(p: Pos, a: Pos, r: Pos, t: bool)
    requires Sized(p) && Sized(a) && Sized(r) && a.occ == p.occ
    requires FlipsOnly(p, a, t) && FlipsOnly(a, r, t)
    ensures FlipsOnly(p, r, t)
  {
    forall q | 0 <= q < 64 && r.col[q] != p.col[q] ensures p.occ[q] && p.col[q] != t && r.col[q] == t {
      if a.col[q] == p.col[q] {
        assert r.col[q] != a.col[q];
      }
    }
  }

  /** flip(c): the colour bit of cell c inverted. */
  function FlipAt(p: Pos, c: nat): Pos
    requires Sized(p) && c < 64
  {
    p.(col := p.col[c := !p.col[c]])
  }

  /** The loop of `reverse` from cell (x, y) on: flip until a piece of
   *  colour t. The source runs it only where the scan succeeds, so it never
   *  leaves the board; the model stops at the edge. */
  function FlipRun(p: Pos, t: bool, x: int, y: int, dx: int, dy: int): (r: Pos)
    requires Sized(p) && IsDir(dx, dy) && -1 <= x <= 8 && -1 <= y <= 8
    ensures Sized(r) && r.occ == p.occ && r.turn == p.turn && r.pass == p.pass
    decreases Ahead(x, y, dx, dy)
  {
    if !OnBoard(x, y) || p.col[Mapc(x, y)] == t then p
    else FlipRun(FlipAt(p, Mapc(x, y)), t, x + dx, y + dy, dx, dy)
  }

  /** `reverse` changes only opposing pieces, to t. */
  lemma {:induction false} FlipRunEffect(p: Pos, t: bool, x: int, y: int, dx: int, dy: int)
    requires Sized(p) && IsDir(dx, dy) && -1 <= x <= 8 && -1 <= y <= 8
    requires Scan(p, t, x, y, dx, dy, true)
    ensures FlipsOnly(p, FlipRun(p, t, x, y, dx, dy), t)
    decreases Ahead(x, y, dx, dy)
  {
    var c := Mapc(x, y);
    if p.col[c] != t {
      var p1 := FlipAt(p, c);
      var nx, ny := x + dx, y + dy;
      ScanOpp(p, t, x, y, nx, ny, dx, dy);
      ScanIgnoresBehind(p, p1, c, t, nx, ny, dx, dy, x, y, true);
      FlipRunOpp(p, t, x, y, nx, ny, dx, dy);
      FlipRunEffect(p1, t, nx, ny, dx, dy);
      assert FlipsOnly(p, p1, t);
      FlipsTrans(p, p1, FlipRun(p1, t, nx, ny, dx, dy), t);
    }
  }

  /** One step of the loop of `reverse` at (x, y), whose next cell is
   *  (nx, ny): after flipping the opposing piece at (x, y) the scan from the
   *  next cell still succeeds, and the rest of the flipping is the same. */
  lemma FlipStepInv(p: Pos, p1: Pos, t: bool, x: int, y: int, nx: int, ny: int, dx: int, dy: int, goal: Pos)
    requires Sized(p) && IsDir(dx, dy) && OnBoard(x, y) && nx == x + dx && ny == y + dy
    requires Scan(p, t, x, y, dx, dy, true) && p.col[Mapc(x, y)] != t
    requires FlipRun(p, t, x, y, dx, dy) == goal
    requires p1 == FlipAt(p, Mapc(x, y))
    ensures Sized(p1) && -1 <= nx <= 8 && -1 <= ny <= 8 && Scan(p1, t, nx, ny, dx, dy, true)
    ensures FlipRun(p1, t, nx, ny, dx, dy) == goal
    ensures 0 <= Ahead(nx, ny, dx, dy) < Ahead(x, y, dx, dy)
  {
    var c := Mapc(x, y);
    ScanOpp(p, t, x, y, nx, ny, dx, dy);
    ScanIgnoresBehind(p, p1, c, t, nx, ny, dx, dy, x, y, true);
    FlipRunOpp(p, t, x, y, nx, ny, dx, dy);
  }

  lemma ScanOpp(p: Pos, t: bool, x: int, y: int, nx: int, ny: int, dx: int, dy: int)
    requires Sized(p) && IsDir(dx, dy) && OnBoard(x, y) && nx == x + dx && ny == y + dy
    requires Scan(p, t, x, y, dx, dy, true) && p.col[Mapc(x, y)] != t
    ensures -1 <= nx <= 8 && -1 <= ny <= 8
    ensures p.occ[Mapc(x, y)] && Scan(p, t, nx, ny, dx, dy, true)
  {
  }

  lemma FlipRunOpp(p: Pos, t: bool, x: int, y: int, nx: int, ny: int, dx: int, dy: int)
    requires Sized(p) && IsDir(dx, dy) && OnBoard(x, y) && nx == x + dx && ny == y + dy
    requires p.col[Mapc(x, y)] != t
    ensures -1 <= nx <= 8 && -1 <= ny <= 8
    ensures FlipRun(p, t, x, y, dx, dy) == FlipRun(FlipAt(p, Mapc(x, y)), t, nx, ny, dx, dy)
  {
  }

  /** One step of the loop of `reversable` at (x, y), whose next cell is
   *  (nx, ny): an empty cell answers false, a piece of colour t answers
   *  `found`, and an opposing piece leaves the answer to the next cell. */
  lemma ScanStepInv(p: Pos, t: bool, x: int, y: int, nx: int, ny: int, dx: int, dy: int, found: bool, goal: bool)
    requires Sized(p) && IsDir(dx, dy) && OnBoard(x, y) && nx == x + dx && ny == y + dy
    requires Scan(p, t, x, y, dx, dy, found) == goal
    ensures !p.occ[Mapc(x, y)] ==> !goal
    ensures p.occ[Mapc(x, y)] && p.col[Mapc(x, y)] == t ==> goal == found
    ensures -1 <= nx <= 8 && -1 <= ny <= 8 && 0 <= Ahead(nx, ny, dx, dy) < Ahead(x, y, dx, dy)
    ensures p.occ[Mapc(x, y)] && p.col[Mapc(x, y)] != t ==> Scan(p, t, nx, ny, dx, dy, true) == goal
  {
  }

  // ---------------------------------------------------------------- mov and rollback

  /** One iteration of the loop of `mov`: reverse direction (dx, dy) if
   *  it is reversable for the side to move. */
  function ApplyDir(p: Pos, x: int, y: int, dx: int, dy: int): (r: Pos)
    requires Sized(p) && OnBoard(x, y) && IsDir(dx, dy)
    ensures Sized(r) && r.occ == p.occ && r.turn == p.turn && r.pass == p.pass
  {
    if Reversable(p, p.turn, x, y, dx, dy) then
      ScanFound(p, p.turn, x + dx, y + dy, dx, dy);
      FlipRun(p, p.turn, x + dx, y + dy, dx, dy)
    else p
  }

  /** The loop over DIRS[d..] of `mov`: reverse each direction that is
   *  reversable on the board as it stands. */
  function ApplyDirs(p: Pos, x: int, y: int, d: nat): (r: Pos)
    requires Sized(p) && OnBoard(x, y) && d <= 8
    ensures Sized(r) && r.occ == p.occ && r.turn == p.turn && r.pass == p.pass
    decreases 8 - d
  {
    if d == 8 then p
    else
      DirsAreDirs(d);
      ApplyDirs(ApplyDir(p, x, y, DIRS[d].0, DIRS[d].1), x, y, d + 1)
  }

  /** Each direction changes only opposing pieces, to the mover's. */
  lemma ApplyDirEffect(p: Pos, x: int, y: int, dx: int, dy: int)
    requires Sized(p) && OnBoard(x, y) && IsDir(dx, dy)
    ensures FlipsOnly(p, ApplyDir(p, x, y, dx, dy), p.turn)
  {
    if Reversable(p, p.turn, x, y, dx, dy) {
      ScanFound(p, p.turn, x + dx, y + dy, dx, dy);
      FlipRunEffect(p, p.turn, x + dx, y + dy, dx, dy);
    }
  }

  lemma {:induction false} ApplyDirsEffect(p: Pos, x: int, y: int, d: nat)
    requires Sized(p) && OnBoard(x, y) && d <= 8
    ensures FlipsOnly(p, ApplyDirs(p, x, y, d), p.turn)
    decreases 8 - d
  {
    if d < 8 {
      DirsAreDirs(d);
      var p1 := ApplyDir(p, x, y, DIRS[d].0, DIRS[d].1);
      ApplyDirEffect(p, x, y, DIRS[d].0, DIRS[d].1);
      ApplyDirsEffect(p1, x, y, d + 1);
      FlipsTrans(p, p1, ApplyDirs(p, x, y, d), p.turn);
    }
  }

  /** One iteration of the loop of `mov`, from the board p to p1. */
  lemma ApplyDirsStep(p: Pos, p1: Pos, x: int, y: int, d: nat, goal: Pos)
    requires Sized(p) && OnBoard(x, y) && d < 8 && ApplyDirs(p, x, y, d) == goal
    requires IsDir(DIRS[d].0, DIRS[d].1) && p1 == ApplyDir(p, x, y, DIRS[d].0, DIRS[d].1)
    ensures Sized(p1) && ApplyDirs(p1, x, y, d + 1) == goal
  {
  }

  /** mov(m): a move onto a cell reverses every reversable direction and
   *  then adds the mover's piece; the pass move 64 only counts the pass
   *  (a wrapping u8). The turn always passes. */
  function MovSpec(p: Pos, m: nat): Pos
    requires Sized(p) && m <= 64
  {
    if m != 64 then
      var q := ApplyDirs(p, m % 8, m / 8, 0);
      AddPiece(q, m, p.turn).(turn := !p.turn)
    else p.(pass := (p.pass + 1) % 256, turn := !p.turn)
  }

  /** The token: the board before the move. */
  function MovR(p: Pos, m: nat): (Pos, (seq<bool>, seq<bool>))
    requires Sized(p) && m <= 64
  {
    (MovSpec(p, m), (p.occ, p.col))
  }

  /** rollback(rb) as written: restore the board, decrement a nonzero pass
   *  counter whatever move is undone, pass the turn back. */
  function RollbackAsWritten(p: Pos, rb: (seq<bool>, seq<bool>)): Pos
  {
    Pos(rb.0, rb.1, !p.turn, if p.pass != 0 then p.pass - 1 else 0)
  }

  /** As written, undo restores the position exactly when the undone move
   *  was a pass (from a counter other than 255) or no pass had been made. */
  lemma RoundTripAsWritten(p: Pos, m: nat)
    requires Wf(p) && m <= 64
    ensures RollbackAsWritten(MovR(p, m).0, MovR(p, m).1) == p <==>
            (if m == 64 then p.pass != 255 else p.pass == 0)
  {
  }

  /** A concrete case: after one pass, a move on (3,2) and its undo leave
   *  the pass counter at 0 instead of 1. */
  lemma PassLostAsWritten()
    ensures var p := Start(true).(pass := 1);
            p.pass == 1 && RollbackAsWritten(MovR(p, 19).0, MovR(p, 19).1).pass == 0
  {
  }

  /** rollback(rb), corrected: the pass counter is stepped back (wrapping)
   *  only when the undone move was the pass, which is exactly when the
   *  board is the one in the token. */
  function RollbackSpec(p: Pos, rb: (seq<bool>, seq<bool>)): Pos
  {
    var wasPass := rb == (p.occ, p.col);
    Pos(rb.0, rb.1, !p.turn, if wasPass then (p.pass + 255) % 256 else p.pass)
  }

  /** A move onto an empty cell occupies that cell with the mover's colour,
   *  changes no other occupancy, flips only opposing pieces to the mover's
   *  colour, keeps colours inside occupancy, passes the turn and keeps the
   *  pass counter. */
  lemma MovEffect(p: Pos, m: nat)
    requires Sized(p) && ColourInOcc(p) && m < 64 && !p.occ[m]
    ensures var r := MovSpec(p, m);
            Sized(r) && r.turn == !p.turn && r.pass == p.pass &&
            r.occ == p.occ[m := true] && r.col[m] == p.turn &&
            (forall q :: 0 <= q < 64 && q != m && r.col[q] != p.col[q] ==>
               p.occ[q] && p.col[q] != p.turn && r.col[q] == p.turn) &&
            ColourInOcc(r)
  {
    var a := ApplyDirs(p, m % 8, m / 8, 0);
    ApplyDirsEffect(p, m % 8, m / 8, 0);
    assert !a.col[m];
  }

  /** The pass move changes only the pass counter and the turn. */
  lemma PassEffect(p: Pos)
    requires Sized(p)
    ensures MovSpec(p, 64) == p.(pass := (p.pass + 1) % 256, turn := !p.turn)
  {
  }

  /** The corrected undo restores every move onto an empty cell, and the
   *  pass. */
  lemma RoundTrip(p: Pos, m: nat)
    requires Wf(p) && m <= 64 && (m == 64 || !p.occ[m])
    ensures Wf(MovSpec(p, m))
    ensures RollbackSpec(MovR(p, m).0, MovR(p, m).1) == p
  {
    if m != 64 {
      var r := MovSpec(p, m);
      assert r.occ[m] && !p.occ[m];
    }
  }

  // ---------------------------------------------------------------- moves

  /** Some direction of DIRS[d..] is reversable: the inner loop of
   *  `get_moves`, which stops at the first. */
  predicate AnyDir(p: Pos, x: int, y: int, d: nat)
    requires Sized(p) && OnBoard(x, y) && d <= 8
    decreases 8 - d
  {
    d < 8 && (DirsAreDirs(d); Reversable(p, p.turn, x, y, DIRS[d].0, DIRS[d].1) || AnyDir(p, x, y, d + 1))
  }

  lemma {:induction false} AnyDirIff(p: Pos, x: int, y: int, d: nat)
    requires Sized(p) && OnBoard(x, y) && d <= 8
    ensures AnyDir(p, x, y, d) <==>
            exists e :: d <= e < 8 && IsDir(DIRS[e].0, DIRS[e].1) && Reversable(p, p.turn, x, y, DIRS[e].0, DIRS[e].1)
    decreases 8 - d
  {
    if d < 8 {
      AnyDirIff(p, x, y, d + 1);
      DirsAreDirs(d);
      var dx, dy := DIRS[d].0, DIRS[d].1;
      if Reversable(p, p.turn, x, y, dx, dy) {
        assert d <= d < 8 && IsDir(DIRS[d].0, DIRS[d].1) && Reversable(p, p.turn, x, y, DIRS[d].0, DIRS[d].1);
      } else if e :| d <= e < 8 && IsDir(DIRS[e].0, DIRS[e].1) && Reversable(p, p.turn, x, y, DIRS[e].0, DIRS[e].1) {
        assert d + 1 <= e;
      }
    }
  }

  /** A legal cell is empty and has a reversable direction. */
  predicate Legal(p: Pos, q: nat)
    requires Sized(p) && q < 64
  {
    !p.occ[q] && AnyDir(p, q % 8, q / 8, 0)
  }

  /** Legality of every cell, cell by cell. */
  function Legals(p: Pos): (r: seq<bool>)
    requires Sized(p)
    ensures |r| == 64
  {
    seq(64, (q: int) => 0 <= q < 64 && Legal(p, q))
  }

  /** The indices below n whose flag is set, in increasing order. */
  function Cells(b: seq<bool>, n: nat): (r: seq<nat>)
    requires n <= |b|
    ensures |r| <= n
  {
    if n == 0 then [] else Cells(b, n - 1) + (if b[n - 1] then [n - 1] else [])
  }

  /** Cells holds exactly the set indices below n, in increasing order. */
  lemma {:induction false} CellsSpec(b: seq<bool>, n: nat)
    requires n <= |b|
    ensures forall q: nat :: q in Cells(b, n) <==> q < n && b[q]
    ensures forall i, j :: 0 <= i < j < |Cells(b, n)| ==> Cells(b, n)[i] < Cells(b, n)[j]
    ensures forall i :: 0 <= i < |Cells(b, n)| ==> Cells(b, n)[i] < n
  {
    if n > 0 {
      CellsSpec(b, n - 1);
    }
  }

  /** The legal cells below n, in row-major order. */
  function LegalUpTo(p: Pos, n: nat): seq<nat>
    requires Sized(p) && n <= 64
  {
    Cells(Legals(p), n)
  }

  /** One cell of the loop of `get_moves`: cell q is appended when legal. */
  lemma LegalUpToStep(p: Pos, q: nat, prev: seq<nat>, legal: bool, ans: seq<nat>)
    requires Sized(p) && q < 64 && prev == LegalUpTo(p, q) && legal == Legal(p, q)
    requires ans == if legal then prev + [q] else prev
    ensures ans == LegalUpTo(p, q + 1)
  {
    assert Legals(p)[q] == legal;
  }

  /** LegalUpTo holds exactly the legal cells below n, in increasing order. */
  lemma LegalUpToSpec(p: Pos, n: nat)
    requires Sized(p) && n <= 64
    ensures forall q: nat :: q in LegalUpTo(p, n) <==> q < n && Legal(p, q)
    ensures forall i, j :: 0 <= i < j < |LegalUpTo(p, n)| ==> LegalUpTo(p, n)[i] < LegalUpTo(p, n)[j]
    ensures forall i :: 0 <= i < |LegalUpTo(p, n)| ==> LegalUpTo(p, n)[i] < n
  {
    CellsSpec(Legals(p), n);
    forall q: nat | q < n ensures Legals(p)[q] == Legal(p, q) {
    }
  }

  /** get_moves: the legal cells in row-major order, or the pass move. */
  function Moves(p: Pos): seq<nat>
    requires Sized(p)
  {
    var l := LegalUpTo(p, 64);
    if l == [] then [64] else l
  }

  /** A cell is legal iff it is empty and some direction is reversable. */
  lemma LegalIff(p: Pos, q: nat)
    requires Sized(p) && q < 64
    ensures Legal(p, q) <==>
            !p.occ[q] && exists e :: 0 <= e < 8 && IsDir(DIRS[e].0, DIRS[e].1) &&
                                     Reversable(p, p.turn, q % 8, q / 8, DIRS[e].0, DIRS[e].1)
  {
    AnyDirIff(p, q % 8, q / 8, 0);
  }

  /** A move is generated iff it is a legal cell, or it is the pass and no
   *  cell is legal; the cells come in increasing order. */
  lemma MovesSpec(p: Pos, m: nat)
    requires Sized(p)
    ensures m in Moves(p) <==> (m < 64 && Legal(p, m)) || (m == 64 && forall q :: 0 <= q < 64 ==> !Legal(p, q))
    ensures forall i, j :: 0 <= i < j < |Moves(p)| ==> Moves(p)[i] < Moves(p)[j]
  {
    var l := LegalUpTo(p, 64);
    LegalUpToSpec(p, 64);
    if l != [] {
      assert l[0] in l;
      assert Moves(p) == l;
      assert m in Moves(p) <==> m < 64 && Legal(p, m);
    } else {
      assert Moves(p) == [64];
      forall q | 0 <= q < 64 ensures !Legal(p, q) {
        assert q !in l;
      }
    }
  }

  lemma MovesOnBoard(p: Pos, m: nat)
    requires Sized(p) && m in Moves(p)
    ensures m <= 64 && (m == 64 || !p.occ[m])
  {
    LegalUpToSpec(p, 64);
  }

  const WEIGHTS: seq<int> := [
    4, -3, 2, 2, 2, 2, -3, 4, -3, -4, -1, -1, -1, -1, -4, -3, 2, -1, 1, 0, 0, 1, -1, 2, 2, -1, 0, 1,
    1, 0, -1, 2, 2, -1, 0, 1, 1, 0, -1, 2, 2, -1, 1, 0, 0, 1, -1, 2, -3, -4, -1, -1, -1, -1, -4, -3,
    4, -3, 2, 2, 2, 2, -3, 4]

  /** The sort key `-WEIGHTS[x]`. The source would index WEIGHTS out of
   *  bounds for the pass move, but the pass is only ever sorted alone, and
   *  a sort of one element asks no key. */
  function WeightKey(x: nat): int { if x < 64 then -WEIGHTS[x] else 0 }

  lemma PassSortsAlone(s: seq<nat>, r: seq<nat>)
    requires multiset(r) == multiset(s)
    ensures s == [64] ==> r == [64]
  {
    if s == [64] {
      Sorting.SameLength(r, s);
      assert r[0] in multiset(r);
    }
  }

  /** get_moves_sorted: the moves by descending weight. */
  function MovesSorted(p: Pos): (r: seq<nat>)
    requires Sized(p)
    ensures multiset(r) == multiset(Moves(p))
    ensures forall i, j :: 0 <= i < j < |r| && r[i] < 64 && r[j] < 64 ==> WEIGHTS[r[i]] >= WEIGHTS[r[j]]
    ensures Moves(p) == [64] ==> r == [64]
  {
    var r := Sorting.SortByKey(Moves(p), WeightKey);
    assert forall i, j :: 0 <= i < j < |r| ==> WeightKey(r[i]) <= WeightKey(r[j]);
    PassSortsAlone(Moves(p), r);
    r
  }

  // ---------------------------------------------------------------- state

  /** count_ones over the first n bits. */
  function CountOnes(w: seq<bool>, n: nat): nat
    requires n <= |w|
  {
    if n == 0 then 0 else CountOnes(w, n - 1) + (if w[n - 1] then 1 else 0)
  }

  /** Number of pieces of side t among the first n cells. */
  ghost function Pieces(p: Pos, t: bool, n: nat): nat
    requires Sized(p) && n <= 64
  {
    if n == 0 then 0 else Pieces(p, t, n - 1) + (if p.occ[n - 1] && p.col[n - 1] == t then 1 else 0)
  }

  /** state: Going while some cell is empty and fewer than two passes were
   *  made (passes are never reset); otherwise decided by the count of
   *  first-player colour bits against 32. */
  function StateOf(p: Pos): State
    requires Sized(p)
  {
    if false in p.occ && p.pass < 2 then Going
    else
      var n := CountOnes(p.col, 64);
      if n <= 31 then Lose else if n == 32 then Draw else Win
  }

  lemma {:induction false} PiecesOnFull(p: Pos, n: nat)
    requires Sized(p) && n <= 64 && ColourInOcc(p) && false !in p.occ
    ensures Pieces(p, true, n) == CountOnes(p.col, n)
    ensures Pieces(p, true, n) + Pieces(p, false, n) == n
  {
    if n > 0 {
      PiecesOnFull(p, n - 1);
      assert p.occ[n - 1];
    }
  }

  /** On a full board the result compares the two sides' piece counts. */
  lemma FullBoardState(p: Pos)
    requires Sized(p) && ColourInOcc(p) && false !in p.occ
    ensures StateOf(p) == Win <==> Pieces(p, true, 64) > Pieces(p, false, 64)
    ensures StateOf(p) == Draw <==> Pieces(p, true, 64) == Pieces(p, false, 64)
    ensures StateOf(p) == Lose <==> Pieces(p, true, 64) < Pieces(p, false, 64)
  {
    PiecesOnFull(p, 64);
  }

  /** get_static_state. */
  function Key(p: Pos): (seq<bool>, seq<bool>, bool) { (p.occ, p.col, p.turn) }

  // ---------------------------------------------------------------- the struct

  class Board {
    var occ: Word
    var col: Word
    var turn: bool
    var pass: nat

    function Abs(): Pos
      reads this
    {
      Pos(Bits(occ), Bits(col), turn, pass)
    }

    ghost predicate Valid()
      reads this
    {
      Wf(Abs())
    }

    constructor (t: bool)
      ensures Valid() && Abs() == Start(t)
    {
      occ, col, turn, pass := 0, 0, t, 0;
      new;
      BitsZero();
      assert Abs() == Empty(t);
      AddPieceM(Mapc(3, 3), true);
      AddPieceM(Mapc(4, 4), true);
      AddPieceM(Mapc(3, 4), false);
      AddPieceM(Mapc(4, 3), false);
    }

    /** add_piece: `c as u64` shifted to p is zero when c is false. */
    method AddPieceM(q: nat, c: bool)
      requires q < 64
      modifies this
      ensures Abs() == AddPiece(old(Abs()), q, c)
    {
      SetBitBits(occ, q);
      SetBitBits(col, q);
      occ := SetBit(occ, q);
      if c {
        col := SetBit(col, q);
      }
    }

    method Flip(q: nat)
      requires q < 64
      modifies this
      ensures Abs() == FlipAt(old(Abs()), q)
    {
      FlipBitBits(col, q);
      col := FlipBit(col, q);
    }

    /** has_piece and get_piece. */
    function HasPiece(q: nat): (r: bool)
      requires q < 64
      reads this
      ensures r == Abs().occ[q]
    {
      BitsAt(occ, q);
      TestBit(occ, q)
    }

    function GetPiece(q: nat): (r: bool)
      requires q < 64
      reads this
      ensures r == Abs().col[q]
    {
      BitsAt(col, q);
      TestBit(col, q)
    }

    /** reversable: steps along the direction until an empty cell, the edge
     *  or a piece of colour t. */
    method IsReversable(t: bool, x0: int, y0: int, dx: int, dy: int) returns (r: bool)
      requires OnBoard(x0, y0) && IsDir(dx, dy)
      ensures r == Reversable(Abs(), t, x0, y0, dx, dy)
    {
      ghost var p := Abs();
      ghost var goal := Reversable(p, t, x0, y0, dx, dy);
      var x, y := x0 + dx, y0 + dy;
      var found := false;
      while x < 8 && y < 8 && x >= 0 && y >= 0
        invariant -1 <= x <= 8 && -1 <= y <= 8
        invariant Scan(p, t, x, y, dx, dy, found) == goal
        decreases Ahead(x, y, dx, dy)
      {
        var c := Mapc(x, y);
        var nx, ny := x + dx, y + dy;
        ScanStepInv(p, t, x, y, nx, ny, dx, dy, found, goal);
        if !HasPiece(c) {
          return false;
        } else if GetPiece(c) == t {
          return found;
        } else {
          found := true;
        }
        x, y := nx, ny;
      }
      r := false;
    }

    /** reverse: flips until a piece of colour t; called where reversable. */
    method Reverse(t: bool, x0: int, y0: int, dx: int, dy: int)
      requires OnBoard(x0, y0) && IsDir(dx, dy) && Reversable(Abs(), t, x0, y0, dx, dy)
      modifies this
      ensures Abs() == FlipRun(old(Abs()), t, x0 + dx, y0 + dy, dx, dy)
    {
      ghost var p0 := Abs();
      var x, y := x0 + dx, y0 + dy;
      ScanFound(p0, t, x, y, dx, dy);
      ghost var goal := FlipRun(p0, t, x, y, dx, dy);
      while GetPiece(Mapc(x, y)) != t
        invariant -1 <= x <= 8 && -1 <= y <= 8 && Sized(Abs()) && Scan(Abs(), t, x, y, dx, dy, true)
        invariant FlipRun(Abs(), t, x, y, dx, dy) == goal
        decreases Ahead(x, y, dx, dy)
      {
        ghost var p := Abs();
        var c := Mapc(x, y);
        var nx, ny := x + dx, y + dy;
        FlipStepInv(p, FlipAt(p, c), t, x, y, nx, ny, dx, dy, goal);
        Flip(c);
        x, y := nx, ny;
      }
    }

    /** The loop over DIRS inside `get_moves`: whether some direction is
     *  reversable from (x, y) for the side to move; it stops at the first. */
    method AnyReversable(x: int, y: int) returns (any: bool)
      requires OnBoard(x, y)
      ensures any == AnyDir(Abs(), x, y, 0)
    {
      ghost var p := Abs();
      var d := 0;
      while d < 8
        invariant 0 <= d <= 8 && AnyDir(p, x, y, 0) == AnyDir(p, x, y, d)
      {
        DirsAreDirs(d);
        var r := IsReversable(turn, x, y, DIRS[d].0, DIRS[d].1);
        if r {
          return true;
        }
        d := d + 1;
      }
      return false;
    }

    /** get_moves: the empty cells in row-major order with a reversable
     *  direction, or the pass move. */
    method GetMoves() returns (ans: seq<nat>)
      ensures ans == Moves(Abs())
    {
      ghost var p := Abs();
      ans := [];
      var y := 0;
      while y < 8
        invariant 0 <= y <= 8 && ans == LegalUpTo(p, 8 * y)
      {
        var x := 0;
        while x < 8
          invariant 0 <= x <= 8 && ans == LegalUpTo(p, 8 * y + x)
        {
          var q := Mapc(x, y);
          MapcUnmapc(x, y);
          var legal := false;
          if !HasPiece(q) {
            legal := AnyReversable(x, y);
          }
          ghost var prev := ans;
          if legal {
            ans := ans + [q];
          }
          LegalUpToStep(p, q, prev, legal, ans);
          x := x + 1;
        }
        y := y + 1;
      }
      if ans == [] {
        ans := [64];
      }
    }

    method GetMovesSorted() returns (ans: seq<nat>)
      ensures ans == MovesSorted(Abs())
    {
      var movs := GetMoves();
      ans := Sorting.SortByKey(movs, WeightKey);
    }

    /** The body of the loop of `mov`: reverse direction (dx, dy) if it is
     *  reversable for the side to move. */
    method MovDir(x: int, y: int, dx: int, dy: int)
      requires Valid() && OnBoard(x, y) && IsDir(dx, dy)
      modifies this
      ensures Valid() && Abs() == ApplyDir(old(Abs()), x, y, dx, dy)
    {
      ghost var p := Abs();
      var r := IsReversable(turn, x, y, dx, dy);
      if r {
        ScanFound(p, p.turn, x + dx, y + dy, dx, dy);
        Reverse(turn, x, y, dx, dy);
      }
    }

    method Mov(m: nat)
      requires Valid() && m <= 64
      modifies this
      ensures Valid() && Abs() == MovSpec(old(Abs()), m)
    {
      if m != 64 {
        var (x, y) := Unmapc(m);
        UnmapcMapc(m);
        ghost var goal := ApplyDirs(Abs(), x, y, 0);
        var d := 0;
        while d < 8
          invariant 0 <= d <= 8 && Valid() && ApplyDirs(Abs(), x, y, d) == goal
        {
          ghost var p := Abs();
          DirsAreDirs(d);
          MovDir(x, y, DIRS[d].0, DIRS[d].1);
          ApplyDirsStep(p, Abs(), x, y, d, goal);
          d := d + 1;
        }
        AddPieceM(m, turn);
      } else {
        pass := (pass + 1) % 256;
      }
      turn := !turn;
    }

    method MovWithRollback(m: nat) returns (rb: (Word, Word))
      requires Valid() && m <= 64
      modifies this
      ensures Valid() && (Abs(), (Bits(rb.0), Bits(rb.1))) == MovR(old(Abs()), m)
    {
      rb := (occ, col);
      Mov(m);
    }

    /** rollback, with the correction that only the undo of a pass steps
     *  the pass counter back. */
    method Rollback(rb: (Word, Word))
      requires Valid()
      modifies this
      ensures Valid() && Abs() == RollbackSpec(old(Abs()), (Bits(rb.0), Bits(rb.1)))
    {
      if rb == (occ, col) {
        pass := (pass + 255) % 256;
      } else {
        if Bits(rb.0) == Bits(occ) { BitsInjective(rb.0, occ); }
        if Bits(rb.1) == Bits(col) { BitsInjective(rb.1, col); }
      }
      occ, col := rb.0, rb.1;
      turn := !turn;
    }
  }

  /** Othello as a token game (with the corrected undo). The source has no
   *  heuristic, so one is a parameter of the instance. */
  function TokenInstance(h: Pos -> int): TokenGame<Pos, nat, (seq<bool>, seq<bool>), (seq<bool>, seq<bool>, bool)>
  {
    TokenGame(
      (p: Pos) => p.turn,
      (p: Pos) => if Sized(p) then Moves(p) else [],
      (p: Pos) => if Sized(p) then MovesSorted(p) else [],
      (p: Pos) => Key(p),
      (p: Pos) => if Sized(p) then StateOf(p) else Draw,
      h,
      (p: Pos, m: nat) => if Sized(p) && m <= 64 then MovSpec(p, m) else p,
      (p: Pos, m: nat) => if Sized(p) && m <= 64 then MovR(p, m) else (p, (p.occ, p.col)),
      (p: Pos, rb: (seq<bool>, seq<bool>)) => RollbackSpec(p, rb),
      Wf)
  }

  lemma InstanceLawful(h: Pos -> int)
    requires forall p :: InI64(h(p))
    ensures TokenLaws(TokenInstance(h))
  {
    var G := TokenInstance(h);
    forall p, m | G.valid(p) && m in G.moves(p)
      ensures G.movR(p, m).0 == G.mov(p, m) && G.valid(G.mov(p, m))
      ensures G.undo(G.movR(p, m).0, G.movR(p, m).1) == p
    {
      MovesOnBoard(p, m);
      RoundTrip(p, m);
    }
  }
}
