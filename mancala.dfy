/** Mancala (src/mancala.rs). Pits 0..5 belong to the first player and 6 is
 *  its store; pits 7..12 belong to the second player and 13 is its store.
 *  `turn` is true when the first player moves. Cells are u8 and, as in a
 *  release build, their arithmetic wraps modulo 256. `mov` pushes
 *  (pit, stones taken, captured) onto the undo stack `st`; `rollback` pops it. */
module Mancala {
  import opened Games

  function Inc(x: nat): nat { (x + 1) % 256 }
  function Dec(x: nat): nat { (x + 255) % 256 }
  function AddU8(x: nat, y: nat): nat { (x + y) % 256 }
  function SubU8(x: nat, y: nat): nat { (x - y) % 256 }

  datatype Entry = Entry(m: nat, count: nat, cap: bool)
  datatype Pos = Pos(a: seq<nat>, turn: bool, st: seq<Entry>)

  predicate Cells(a: seq<nat>) { |a| == 14 && forall i :: 0 <= i < 14 ==> a[i] < 256 }

  /** Cells are u8 and so is every recorded stone count. */
  predicate Wf(p: Pos)
  {
    Cells(p.a) && forall k :: 0 <= k < |p.st| ==> p.st[k].count < 256
  }

  /** rollback() panics on an empty stack (`unwrap`), on a pit index out of
   *  range, and when a capture is recorded at a landing cell past 12
   *  (`12 - i` underflows). */
  predicate RollbackDefined(p: Pos)
  {
    |p.st| > 0 &&
    var e := p.st[|p.st| - 1];
    e.m < 14 && (e.cap ==> LandLoop(e.m, e.count, SkipOf(e.m < 6)) <= 12)
  }

  function Start(t: bool): Pos
  {
    Pos([4, 4, 4, 4, 4, 4, 0, 4, 4, 4, 4, 4, 4, 0], t, [])
  }

  /** The opponent's store, which the mover's sowing passes over. */
  function SkipOf(turn: bool): nat { if turn then 13 else 6 }

  /** Sum of the cells of a sequence. */
  function Sum(s: seq<nat>): nat
  {
    if s == [] then 0 else Sum(s[..|s| - 1]) + s[|s| - 1]
  }

  // ---------------------------------------------------------------- moves

  /** The non-empty pits among lo..hi-1, from hi-1 down to lo. */
  function PitsDown(a: seq<nat>, lo: nat, hi: nat): (r: seq<nat>)
    requires lo <= hi <= |a|
    ensures forall k :: k in r <==> lo <= k < hi && a[k] != 0
    ensures forall x :: 0 <= x < |r| ==> r[x] < hi
    ensures forall x, y :: 0 <= x < y < |r| ==> r[x] > r[y]
    decreases hi - lo
  {
    if lo == hi then []
    else if a[hi - 1] != 0 then [hi - 1] + PitsDown(a, lo, hi - 1)
    else PitsDown(a, lo, hi - 1)
  }

  /** get_moves: the mover's non-empty pits in descending order; on the
   *  second player's turn the range includes store 13, as written. */
  function Moves(p: Pos): seq<nat>
    requires Wf(p)
  {
    if p.turn then PitsDown(p.a, 0, 6) else PitsDown(p.a, 7, 14)
  }

  lemma MovesAreOwn(p: Pos, m: nat)
    requires Wf(p) && m in Moves(p)
    ensures m < 14 && p.a[m] != 0 && m != 6
    ensures p.turn == (m < 6)
  {
  }

  // ---------------------------------------------------------------- state and heuristic

  /** The u8 `sum()` of the cells lo..hi-1. */
  function SumU8(a: seq<nat>, lo: nat, hi: nat): nat
    requires lo <= hi <= |a|
  {
    Sum(a[lo..hi]) % 256
  }

  function StateOf(p: Pos): State
    requires Wf(p)
  {
    var sumhd := SumU8(p.a, 0, 6);
    var sumhu := SumU8(p.a, 7, 13);
    if sumhd == 0 || sumhu == 0 then
      var sumd := AddU8(sumhd, p.a[6]);
      var sumu := AddU8(sumhu, p.a[13]);
      if sumd > sumu then Win else if sumd < sumu then Lose else Draw
    else if p.a[6] > 24 then Win
    else if p.a[13] > 24 then Lose
    else Going
  }

  const W: seq<int> := [7, 6, 5, 4, 3, 2, 8, -7, -6, -5, -4, -3, -2, -8]

  /** The weighted sum of the first n cells. */
  function Weighted(a: seq<nat>, n: nat): int
    requires n <= |a| && n <= 14
  {
    if n == 0 then 0 else Weighted(a, n - 1) + W[n - 1] * a[n - 1]
  }

  function Heuristic(p: Pos): int
    requires Wf(p)
  {
    match StateOf(p)
    case Win => 32768
    case Lose => -32768
    case _ => Weighted(p.a, 14)
  }

  lemma {:induction false} WeightedBound(a: seq<nat>, n: nat)
    requires Cells(a) && n <= 14
    ensures -8 * 255 * n <= Weighted(a, n) <= 8 * 255 * n
  {
    if n > 0 {
      WeightedBound(a, n - 1);
      assert -8 <= W[n - 1] <= 8;
      assert -8 * 255 <= W[n - 1] * a[n - 1] <= 8 * 255;
    }
  }

  /** A position that is not decided scores strictly between the Lose and
   *  Win scores, so a decided result always dominates. */
  lemma HeuristicBounds(p: Pos)
    requires Wf(p)
    ensures StateOf(p) == Win <==> Heuristic(p) == 32768
    ensures StateOf(p) == Lose <==> Heuristic(p) == -32768
    ensures -32768 <= Heuristic(p) <= 32768
  {
    WeightedBound(p.a, 14);
  }

  lemma {:induction false} SumZero(s: seq<nat>)
    requires Sum(s) == 0
    ensures forall i :: 0 <= i < |s| ==> s[i] == 0
  {
    if s != [] {
      SumZero(s[..|s| - 1]);
      forall i | 0 <= i < |s| ensures s[i] == 0 {
        if i < |s| - 1 { assert s[i] == s[..|s| - 1][i]; }
      }
    }
  }

  lemma {:induction false} SumOfZeros(s: seq<nat>)
    requires forall i :: 0 <= i < |s| ==> s[i] == 0
    ensures Sum(s) == 0
  {
    if s != [] {
      SumOfZeros(s[..|s| - 1]);
    }
  }

  /** In a Going position the side to move has a move. */
  lemma GoingHasMoves(p: Pos)
    requires Wf(p) && StateOf(p) == Going
    ensures Moves(p) != []
  {
    var lo := if p.turn then 0 else 7;
    if Moves(p) == [] {
      var s := p.a[lo..lo + 6];
      forall i | 0 <= i < 6 ensures s[i] == 0 {
        assert lo + i !in Moves(p);
      }
      SumOfZeros(s);
      assert false;
    }
  }

  // ---------------------------------------------------------------- sowing

  /** The sowing loop of `mov`: from pit i, drop x stones one per cell,
   *  passing over cell s. Returns the cells and the last index reached. */
  function SowLoop(a: seq<nat>, i: nat, x: nat, s: nat): (r: (seq<nat>, nat))
    requires Cells(a) && i < 14 && s < 14
    ensures Cells(r.0) && r.1 < 14
    decreases x, if (i + 1) % 14 == s then 1 else 0
  {
    if x == 0 then (a, i)
    else
      var j := (i + 1) % 14;
      if j == s then SowLoop(a, j, x, s)
      else SowLoop(a[j := Inc(a[j])], j, x - 1, s)
  }

  /** The first loop of `rollback`: the same walk, for the index only. */
  function LandLoop(i: nat, x: nat, s: nat): (r: nat)
    requires i < 14 && s < 14
    ensures r < 14
    decreases x, if (i + 1) % 14 == s then 1 else 0
  {
    if x == 0 then i
    else
      var j := (i + 1) % 14;
      if j == s then LandLoop(j, x, s) else LandLoop(j, x - 1, s)
  }

  /** The second loop of `rollback`: walk backwards from i taking one stone
   *  from each cell other than s, x times. */
  function UnsowLoop(a: seq<nat>, i: nat, x: nat, s: nat): (r: (seq<nat>, nat))
    requires Cells(a) && i < 14 && s < 14
    ensures Cells(r.0) && r.1 < 14
    decreases x, if i == s then 1 else 0
  {
    if x == 0 then (a, i)
    else if i == s then UnsowLoop(a, (i + 13) % 14, x, s)
    else UnsowLoop(a[i := Dec(a[i])], (i + 13) % 14, x - 1, s)
  }

  lemma {:induction false} LandIsSowIndex(a: seq<nat>, i: nat, x: nat, s: nat)
    requires Cells(a) && i < 14 && s < 14
    ensures LandLoop(i, x, s) == SowLoop(a, i, x, s).1
    decreases x, if (i + 1) % 14 == s then 1 else 0
  {
    if x > 0 {
      var j := (i + 1) % 14;
      if j == s { LandIsSowIndex(a, j, x, s); }
      else { LandIsSowIndex(a[j := Inc(a[j])], j, x - 1, s); }
    }
  }

  /** Unsowing x + y stones is unsowing x, then y. */
  lemma {:induction false} UnsowSplit(a: seq<nat>, i: nat, x: nat, y: nat, s: nat)
    requires Cells(a) && i < 14 && s < 14
    ensures UnsowLoop(a, i, x + y, s) ==
            UnsowLoop(UnsowLoop(a, i, x, s).0, UnsowLoop(a, i, x, s).1, y, s)
    decreases x, if i == s then 1 else 0
  {
    if x > 0 {
      if i == s { UnsowSplit(a, (i + 13) % 14, x, y, s); }
      else { UnsowSplit(a[i := Dec(a[i])], (i + 13) % 14, x - 1, y, s); }
    }
  }

  /** The inverse walk undoes the sowing, provided the first cell after i is
   *  not the one passed over. */
  lemma {:induction false} UnsowSow(a: seq<nat>, i: nat, x: nat, s: nat)
    requires Cells(a) && i < 14 && s < 14 && (i + 1) % 14 != s
    ensures UnsowLoop(SowLoop(a, i, x, s).0, SowLoop(a, i, x, s).1, x, s) == (a, i)
    decreases x
  {
    if x > 0 {
      var j := (i + 1) % 14;
      var b := a[j := Inc(a[j])];
      UnsowOne(a, i, s);
      var r := SowLoop(a, i, x, s);
      assert r == SowLoop(b, j, x - 1, s);
      UnsowSplit(r.0, r.1, x - 1, 1, s);
      if (j + 1) % 14 != s {
        UnsowSow(b, j, x - 1, s);
      } else if x - 1 > 0 {
        assert r == SowLoop(b, s, x - 1, s);
        UnsowSow(b, s, x - 1, s);
        UnsowSkip(b, j, s);
      }
    }
  }

  /** One step back from the cell just sown undoes it. */
  lemma UnsowOne(a: seq<nat>, i: nat, s: nat)
    requires Cells(a) && i < 14 && s < 14 && (i + 1) % 14 != s
    ensures var j := (i + 1) % 14;
            UnsowLoop(a[j := Inc(a[j])], j, 1, s) == (a, i)
  {
    var j := (i + 1) % 14;
    var b := a[j := Inc(a[j])];
    assert b[j := Dec(b[j])] == a;
    assert (j + 13) % 14 == i;
    assert UnsowLoop(b, j, 1, s) == UnsowLoop(a, i, 0, s);
  }

  /** From the passed-over cell the backward walk steps to the cell before. */
  lemma UnsowSkip(b: seq<nat>, j: nat, s: nat)
    requires Cells(b) && j < 14 && s == (j + 1) % 14
    ensures UnsowLoop(b, s, 1, s) == UnsowLoop(b, j, 1, s)
  {
    assert (s + 13) % 14 == j;
  }

  /** Taking the captured stones back out of pit i returns them to the
   *  opposite pit. */
  lemma CaptureRoundTrip(b: seq<nat>, i: nat, turn: bool)
    requires Cells(b) && i < 14
    ensures Captures(b, i, turn) ==> i <= 12
    ensures UndoCapture(Capture(b, i, turn), i, Captures(b, i, turn)) == b
  {
  }

  /** Sowing adds exactly x stones when nothing wraps, and never touches
   *  the cell passed over. */
  lemma {:induction false} SowConserves(a: seq<nat>, i: nat, x: nat, s: nat)
    requires Cells(a) && i < 14 && s < 14 && Sum(a) + x <= 255
    ensures Sum(SowLoop(a, i, x, s).0) == Sum(a) + x
    ensures SowLoop(a, i, x, s).0[s] == a[s]
    decreases x, if (i + 1) % 14 == s then 1 else 0
  {
    if x > 0 {
      var j := (i + 1) % 14;
      if j == s {
        SowConserves(a, j, x, s);
      } else {
        CellBelowSum(a, j);
        SumUpdate(a, j, a[j] + 1);
        assert Inc(a[j]) == a[j] + 1;
        SowConserves(a[j := Inc(a[j])], j, x - 1, s);
      }
    }
  }

  lemma {:induction false} SumUpdate(a: seq<nat>, j: nat, v: nat)
    requires j < |a|
    ensures Sum(a[j := v]) == Sum(a) - a[j] + v
    decreases |a|
  {
    var n := |a| - 1;
    var b := a[j := v];
    assert b[..n] == if j == n then a[..n] else a[..n][j := v];
    if j < n { SumUpdate(a[..n], j, v); }
  }

  lemma {:induction false} CellBelowSum(a: seq<nat>, j: nat)
    requires j < |a|
    ensures a[j] <= Sum(a)
    decreases |a|
  {
    if j < |a| - 1 {
      CellBelowSum(a[..|a| - 1], j);
    }
  }

  lemma {:induction false} TwoCellsBelowSum(a: seq<nat>, i: nat, j: nat)
    requires i < |a| && j < |a| && i != j
    ensures a[i] + a[j] <= Sum(a)
  {
    SumUpdate(a, i, 0);
    CellBelowSum(a[i := 0], j);
  }

  // ---------------------------------------------------------------- mov and rollback

  /** Whether the last stone, at i, lands in a previously empty pit of the
   *  mover's own side. */
  predicate Captures(b: seq<nat>, i: nat, turn: bool)
    requires |b| == 14 && i < 14
  {
    b[i] == 1 && ((turn && i < 6) || (!turn && i > 6 && i < 13))
  }

  /** The capture of `mov`: the opposite pit is added to pit i and emptied
   *  when the last stone landed in an empty own pit. */
  function Capture(b: seq<nat>, i: nat, turn: bool): (r: seq<nat>)
    requires Cells(b) && i < 14
    ensures Cells(r)
  {
    if Captures(b, i, turn) then b[i := AddU8(b[i], b[12 - i])][12 - i := 0] else b
  }

  /** mov(m): take the stones of pit m, sow them, capture the opposite pit
   *  when the last stone lands in an empty own pit, and pass the turn unless
   *  the last stone lands in the mover's own store. */
  function MovSpec(p: Pos, m: nat): (q: Pos)
    requires Wf(p) && m < 14
    ensures Wf(q)
  {
    var c := p.a[m];
    var s := SkipOf(p.turn);
    var (b, i) := SowLoop(p.a[m := 0], m, c, s);
    var cap := Captures(b, i, p.turn);
    var b2 := Capture(b, i, p.turn);
    var keep := (i == 6 && p.turn) || (i == 13 && !p.turn);
    Pos(b2, if keep then p.turn else !p.turn, p.st + [Entry(m, c, cap)])
  }

  /** rollback(): pop the entry, recompute the landing cell, undo the
   *  capture, take the sown stones back and refill pit m. */
  /** The capture undone: pit i's stones but one go back opposite. */
  function UndoCapture(b: seq<nat>, i: nat, cap: bool): (r: seq<nat>)
    requires Cells(b) && i < 14 && (cap ==> i <= 12)
    ensures Cells(r)
  {
    if cap then b[12 - i := AddU8(b[12 - i], SubU8(b[i], 1))][i := 1] else b
  }

  function RollbackSpec(p: Pos): (q: Pos)
    requires Wf(p) && RollbackDefined(p)
    ensures Wf(q)
  {
    var e := p.st[|p.st| - 1];
    var turn := e.m < 6;
    var s := SkipOf(turn);
    var i := LandLoop(e.m, e.count, s);
    var b := UndoCapture(p.a, i, e.cap);
    var (d, j) := UnsowLoop(b, i, e.count, s);
    Pos(d[j := e.count], turn, p.st[..|p.st| - 1])
  }

  /** Undo after move restores the cells, the turn and the stack. */
  lemma RoundTrip(p: Pos, m: nat)
    requires Wf(p) && m < 14 && p.turn == (m < 6)
    ensures RollbackDefined(MovSpec(p, m))
    ensures RollbackSpec(MovSpec(p, m)) == p
  {
    var c := p.a[m];
    var s := SkipOf(p.turn);
    var a0 := p.a[m := 0];
    var r := SowLoop(a0, m, c, s);
    var b, i := r.0, r.1;
    LandIsSowIndex(a0, m, c, s);
    UnsowSow(a0, m, c, s);
    var cap := Captures(b, i, p.turn);
    var q := MovSpec(p, m);
    assert q.st == p.st + [Entry(m, c, cap)];
    assert q.st[..|q.st| - 1] == p.st;
    assert LandLoop(m, c, s) == i;
    CaptureRoundTrip(b, i, p.turn);
    assert UndoCapture(q.a, i, cap) == b;
    assert UnsowLoop(b, i, c, s) == (a0, m);
    assert a0[m := c] == p.a;
  }

  /** mov conserves the stones when nothing wraps. */
  lemma MovConserves(p: Pos, m: nat)
    requires Wf(p) && m < 14 && Sum(p.a) <= 255
    ensures Sum(MovSpec(p, m).a) == Sum(p.a)
  {
    var c := p.a[m];
    var s := SkipOf(p.turn);
    var a0 := p.a[m := 0];
    SumUpdate(p.a, m, 0);
    SowConserves(a0, m, c, s);
    var r := SowLoop(a0, m, c, s);
    CaptureConserves(r.0, r.1, p.turn);
    assert MovSpec(p, m).a == Capture(r.0, r.1, p.turn);
  }

  lemma CaptureConserves(b: seq<nat>, i: nat, turn: bool)
    requires Cells(b) && i < 14 && Sum(b) <= 255
    ensures Sum(Capture(b, i, turn)) == Sum(b)
  {
    if Captures(b, i, turn) {
      var o := 12 - i;
      TwoCellsBelowSum(b, i, o);
      assert AddU8(b[i], b[o]) == b[i] + b[o];
      SumUpdate(b, i, b[i] + b[o]);
      SumUpdate(b[i := b[i] + b[o]], o, 0);
    }
  }


  /** A generated move never drops a stone into the opponent's store. */
  lemma MovSkipsOpponentStore(p: Pos, m: nat)
    requires Wf(p) && m in Moves(p)
    ensures MovSpec(p, m).a[SkipOf(p.turn)] == p.a[SkipOf(p.turn)]
  {
    var c := p.a[m];
    var s := SkipOf(p.turn);
    SowStoreUntouched(p.a[m := 0], m, c, s);
  }

  lemma {:induction false} SowStoreUntouched(a: seq<nat>, i: nat, x: nat, s: nat)
    requires Cells(a) && i < 14 && s < 14
    ensures SowLoop(a, i, x, s).0[s] == a[s]
    decreases x, if (i + 1) % 14 == s then 1 else 0
  {
    if x > 0 {
      var j := (i + 1) % 14;
      if j == s { SowStoreUntouched(a, j, x, s); }
      else { SowStoreUntouched(a[j := Inc(a[j])], j, x - 1, s); }
    }
  }

  // ---------------------------------------------------------------- the struct

  class Board {
    const a: array<nat>
    var turn: bool
    var st: seq<Entry>

    ghost predicate Valid()
      reads this, a
    {
      Wf(Abs())
    }

    function Abs(): Pos
      reads this, a
    {
      Pos(a[..], turn, st)
    }

    constructor (t: bool)
      ensures Valid() && fresh(a) && Abs() == Start(t)
    {
      a := new nat[14](i => if i == 6 || i == 13 then 0 else 4);
      turn := t;
      st := [];
      new;
      assert a[..] == Start(t).a;
    }

    /** The sowing loop of `mov`, from pit i0 with x0 stones. */
    method Sow(i0: nat, x0: nat) returns (i: nat)
      requires Cells(a[..]) && i0 < 14
      modifies a
      ensures Cells(a[..]) && i < 14
      ensures (a[..], i) == SowLoop(old(a[..]), i0, x0, SkipOf(turn))
    {
      var s := SkipOf(turn);
      i := i0;
      var x: nat := x0;
      while x != 0
        invariant Cells(a[..]) && i < 14
        invariant SowLoop(a[..], i, x, s) == SowLoop(old(a[..]), i0, x0, s)
        decreases x, if (i + 1) % 14 == s then 1 else 0
      {
        i := (i + 1) % 14;
        if (i == 13 && turn) || (i == 6 && !turn) {
          continue;
        }
        a[i] := Inc(a[i]);
        x := x - 1;
      }
    }

    /** The capture step of `mov` at the last pit i. */
    method CaptureM(i: nat) returns (cap: bool)
      requires Cells(a[..]) && i < 14
      modifies a
      ensures cap == Captures(old(a[..]), i, turn)
      ensures a[..] == Capture(old(a[..]), i, turn)
    {
      cap := a[i] == 1 && ((turn && i < 6) || (!turn && i > 6 && i < 13));
      if cap {
        var o := 12 - i;
        a[i] := AddU8(a[i], a[o]);
        a[o] := 0;
      }
    }

    method Mov(m: nat)
      requires Valid() && m < 14
      modifies this, a
      ensures Valid()
      ensures Abs() == MovSpec(old(Abs()), m)
    {
      ghost var p := Abs();
      var c := a[m];
      var rb := Entry(m, c, false);
      a[m] := 0;
      var i := Sow(m, c);
      var cap := CaptureM(i);
      if cap {
        rb := rb.(cap := true);
      }
      if !((i == 6 && turn) || (i == 13 && !turn)) {
        turn := !turn;
      }
      st := st + [rb];
    }

    /** The capture-undoing step of `rollback` at pit i. */
    method UndoCaptureM(i: nat, cap: bool)
      requires Cells(a[..]) && i < 14 && (cap ==> i <= 12)
      modifies a
      ensures a[..] == UndoCapture(old(a[..]), i, cap)
    {
      if cap {
        a[12 - i] := AddU8(a[12 - i], SubU8(a[i], 1));
        a[i] := 1;
      }
    }

    method Rollback()
      requires Valid() && RollbackDefined(Abs())
      modifies this, a
      ensures Valid()
      ensures Abs() == RollbackSpec(old(Abs()))
    {
      ghost var p := Abs();
      var rb := st[|st| - 1];
      st := st[..|st| - 1];
      turn := rb.m < 6;
      var i := Land(rb.m, rb.count);
      UndoCaptureM(i, rb.cap);
      i := Unsow(i, rb.count);
      a[i] := rb.count;
    }

    /** The first loop of rollback: where the recorded sowing ended. */
    method Land(m: nat, count: nat) returns (i: nat)
      requires m < 14
      ensures i == LandLoop(m, count, SkipOf(turn))
    {
      var s := SkipOf(turn);
      i := m;
      var x: nat := count;
      while x != 0
        invariant i < 14
        invariant LandLoop(i, x, s) == LandLoop(m, count, s)
        decreases x, if (i + 1) % 14 == s then 1 else 0
      {
        i := (i + 1) % 14;
        if (i == 13 && turn) || (i == 6 && !turn) {
          continue;
        }
        x := x - 1;
      }
    }

    /** The second loop of rollback: take one stone back from each sown cell. */
    method Unsow(i0: nat, count: nat) returns (i: nat)
      requires Cells(a[..]) && i0 < 14
      modifies a
      ensures Cells(a[..])
      ensures (a[..], i) == UnsowLoop(old(a[..]), i0, count, SkipOf(turn))
    {
      var s := SkipOf(turn);
      i := i0;
      var x: nat := count;
      while x != 0
        invariant Cells(a[..]) && i < 14
        invariant UnsowLoop(a[..], i, x, s) == UnsowLoop(old(a[..]), i0, count, s)
        decreases x, if i == s then 1 else 0
      {
        if (i == 13 && turn) || (i == 6 && !turn) {
          i := (i + 13) % 14;
          continue;
        }
        a[i] := Dec(a[i]);
        i := (i + 13) % 14;
        x := x - 1;
      }
    }
  }

  /** Mancala as a stack game. */
  function StackInstance(): StackGame<Pos, nat, (seq<nat>, bool)>
  {
    StackGame(
      (p: Pos) => p.turn,
      (p: Pos) => if Wf(p) then Moves(p) else [],
      (p: Pos) => (p.a, p.turn),
      (p: Pos) => if Wf(p) then StateOf(p) else Draw,
      (p: Pos) => if Wf(p) then Heuristic(p) else 0,
      (p: Pos, m: nat) => if Wf(p) && m < 14 then MovSpec(p, m) else p,
      (p: Pos) => if Wf(p) && RollbackDefined(p) then RollbackSpec(p) else p,
      Wf)
  }

  lemma InstanceLawful()
    ensures StackLaws(StackInstance())
  {
    var G := StackInstance();
    forall p, m | G.valid(p) && m in G.moves(p)
      ensures G.valid(G.mov(p, m)) && G.undo(G.mov(p, m)) == p
    {
      MovesAreOwn(p, m);
      RoundTrip(p, m);
    }
    forall p | G.valid(p) ensures InI64(G.heuristic(p)) {
      HeuristicBounds(p);
    }
  }
}
