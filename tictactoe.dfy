/** Tic-tac-toe (src/tictactoe.rs). Nine cells hold 1 (the first player),
 *  0 (the second player) or 2 (empty); `turn` is true when the first
 *  player moves. The token returned by `mov_with_rollback` is the cell. */
module Tictactoe {
  import opened Games

  const EMPTY: nat := 2

  /** The value of the struct: the cells and the side to move. */
  datatype Pos = Pos(a: seq<nat>, turn: bool)

  predicate Wf(p: Pos) { |p.a| == 9 }

  function Start(t: bool): Pos { Pos([2, 2, 2, 2, 2, 2, 2, 2, 2], t) }

  /** The lines in the order the source inspects them: row j, then column j,
   *  for j = 0, 1, 2, then the two diagonals. */
  const LINES: seq<(nat, nat, nat)> :=
    [(0, 1, 2), (0, 3, 6), (3, 4, 5), (1, 4, 7), (6, 7, 8), (2, 5, 8), (0, 4, 8), (2, 4, 6)]

  /** Line l holds three equal non-empty cells. */
  predicate Complete(a: seq<nat>, l: nat)
    requires |a| == 9 && l < 8
  {
    var (i, j, k) := LINES[l];
    a[i] == a[j] && a[i] == a[k] && a[i] != EMPTY
  }

  function Owner(a: seq<nat>, l: nat): nat
    requires |a| == 9 && l < 8
  {
    a[LINES[l].0]
  }

  /** get_moves: the empty cells from index i on, in ascending order. */
  function MovesFrom(a: seq<nat>, i: nat): (r: seq<nat>)
    requires |a| == 9 && i <= 9
    ensures forall k :: k in r <==> i <= k < 9 && a[k] == EMPTY
    ensures forall x :: 0 <= x < |r| ==> i <= r[x]
    ensures forall x, y :: 0 <= x < y < |r| ==> r[x] < r[y]
    decreases 9 - i
  {
    if i == 9 then []
    else if a[i] == EMPTY then [i] + MovesFrom(a, i + 1)
    else MovesFrom(a, i + 1)
  }

  function Moves(p: Pos): seq<nat>
    requires Wf(p)
  {
    MovesFrom(p.a, 0)
  }

  /** The state found by inspecting the lines from l on, then the board. */
  function StateFrom(a: seq<nat>, l: nat): (r: State)
    requires |a| == 9 && l <= 8
    ensures r == Win ==> exists k :: l <= k < 8 && Complete(a, k) && Owner(a, k) == 1
    ensures r == Lose ==> exists k :: l <= k < 8 && Complete(a, k) && Owner(a, k) != 1
    ensures (r == Draw || r == Going) <==> forall k :: l <= k < 8 ==> !Complete(a, k)
    ensures r == Draw ==> EMPTY !in a
    ensures r == Going ==> EMPTY in a
    decreases 8 - l
  {
    if l == 8 then (if EMPTY in a then Going else Draw)
    else if Complete(a, l) then (if Owner(a, l) == 1 then Win else Lose)
    else StateFrom(a, l + 1)
  }

  function StateOf(p: Pos): State
    requires Wf(p)
  {
    StateFrom(p.a, 0)
  }

  /** A position where nobody can move is never Going. */
  lemma NoMovesNotGoing(p: Pos)
    requires Wf(p) && Moves(p) == []
    ensures StateOf(p) != Going
  {
  }

  /** get_static_state: the cells and the turn. */
  function Key(p: Pos): (seq<nat>, bool) { (p.a, p.turn) }

  /** mov: the mover's mark at m, and the turn passes. */
  function MovSpec(p: Pos, m: nat): Pos
    requires Wf(p) && m < 9
  {
    Pos(p.a[m := if p.turn then 1 else 0], !p.turn)
  }

  /** rollback(r): cell r emptied, and the turn passes back. */
  function RollbackSpec(p: Pos, r: nat): Pos
    requires Wf(p) && r < 9
  {
    Pos(p.a[r := EMPTY], !p.turn)
  }

  /** Undoing a move onto an empty cell restores the position. */
  lemma {:induction false} RoundTrip(p: Pos, m: nat)
    requires Wf(p) && m < 9 && p.a[m] == EMPTY
    ensures RollbackSpec(MovSpec(p, m), m) == p
  {
    var q := RollbackSpec(MovSpec(p, m), m);
    assert q.a == p.a by {
      forall k | 0 <= k < 9 ensures q.a[k] == p.a[k] {
        if k == m {
          assert q.a[k] == EMPTY;
        }
      }
    }
  }

  /** The mover's mark lands on m and nothing else changes. */
  lemma MovChangesOnlyM(p: Pos, m: nat)
    requires Wf(p) && m < 9
    ensures Wf(MovSpec(p, m)) && MovSpec(p, m).turn == !p.turn
    ensures MovSpec(p, m).a[m] == (if p.turn then 1 else 0)
    ensures forall k :: 0 <= k < 9 && k != m ==> MovSpec(p, m).a[k] == p.a[k]
  {
  }

  /** The struct, whose array the moves assign in place. */
  class Board {
    const a: array<nat>
    var turn: bool

    ghost predicate Valid()
      reads this
    {
      a.Length == 9
    }

    function Abs(): Pos
      reads this, a
    {
      Pos(a[..], turn)
    }

    constructor (t: bool)
      ensures Valid() && fresh(a) && Abs() == Start(t)
    {
      a := new nat[9](_ => EMPTY);
      turn := t;
      new;
      assert a[..] == Start(t).a;
    }

    method Mov(m: nat)
      requires Valid() && m < 9
      modifies this`turn, a
      ensures Valid()
      ensures Abs() == MovSpec(old(Abs()), m)
    {
      a[m] := if turn then 1 else 0;
      turn := !turn;
    }

    method MovWithRollback(m: nat) returns (r: nat)
      requires Valid() && m < 9
      modifies this`turn, a
      ensures Valid() && r == m
      ensures Abs() == MovSpec(old(Abs()), m)
    {
      Mov(m);
      r := m;
    }

    method Rollback(r: nat)
      requires Valid() && r < 9
      modifies this`turn, a
      ensures Valid()
      ensures Abs() == RollbackSpec(old(Abs()), r)
    {
      a[r] := EMPTY;
      turn := !turn;
    }
  }

  /** Tic-tac-toe as a token game. The source has no heuristic, so one is a
   *  parameter of the instance. */
  function TokenInstance(h: Pos -> int): TokenGame<Pos, nat, nat, (seq<nat>, bool)>
  {
    TokenGame(
      (p: Pos) => p.turn,
      (p: Pos) => if Wf(p) then Moves(p) else [],
      (p: Pos) => if Wf(p) then Moves(p) else [],
      Key,
      (p: Pos) => if Wf(p) then StateOf(p) else Draw,
      h,
      (p: Pos, m: nat) => if Wf(p) && m < 9 then MovSpec(p, m) else p,
      (p: Pos, m: nat) => (if Wf(p) && m < 9 then MovSpec(p, m) else p, m),
      (p: Pos, r: nat) => if Wf(p) && r < 9 then RollbackSpec(p, r) else p,
      Wf)
  }

  lemma InstanceLawful(h: Pos -> int)
    requires forall p :: InI64(h(p))
    ensures TokenLaws(TokenInstance(h))
  {
    var G := TokenInstance(h);
    forall p, m | G.valid(p) && m in G.moves(p)
      ensures G.movR(p, m).0 == G.mov(p, m) && G.valid(G.mov(p, m))
      ensures G.undo(G.movR(p, m).0, G.movR(p, m).1) == p
    {
      RoundTrip(p, m);
    }
  }
}
