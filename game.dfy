/** The abstract game interface shared by the rules engines and the search
 *  engines (src/game.rs). A game is given by a record of functions over its
 *  position type `P`; its laws are predicates that an instance proves and a
 *  search engine requires. Two undo conventions are in use: a token returned
 *  by `mov_with_rollback` and consumed by `rollback`, and an undo stack kept
 *  inside the position (`mov` pushes, `rollback` pops). */
module Games {

  datatype State = Win | Lose | Draw | Going

  const I64_MIN: int := -0x8000_0000_0000_0000
  const I64_MAX: int := 0x7fff_ffff_ffff_ffff
  const U32_MAX: int := 0xffff_ffff

  predicate InI64(x: int) { I64_MIN <= x <= I64_MAX }

  function Max(x: int, y: int): int { if x >= y then x else y }
  function Min(x: int, y: int): int { if x <= y then x else y }

  /** A game whose moves are undone with a token (`type R`). */
  datatype TokenGame<!P, !M, !R, K> = TokenGame(
    turn: P -> bool,           // true: the maximising side moves
    moves: P -> seq<M>,        // get_moves
    movesSorted: P -> seq<M>,  // get_moves_sorted
    key: P -> K,               // get_static_state
    state: P -> State,
    heuristic: P -> int,
    mov: (P, M) -> P,
    movR: (P, M) -> (P, R),    // mov_with_rollback: new position and token
    undo: (P, R) -> P,         // rollback(r)
    valid: P -> bool)          // the representation invariant

  /** A game whose moves are undone with an internal stack. */
  datatype StackGame<!P, !M, K> = StackGame(
    turn: P -> bool,
    moves: P -> seq<M>,
    key: P -> K,
    state: P -> State,
    heuristic: P -> int,
    mov: (P, M) -> P,          // pushes onto the undo stack
    undo: P -> P,              // rollback(): pops it
    valid: P -> bool)

  /** The laws of a token game: a move generated in a position still being
   *  played (the only kind the engines expand) keeps the position valid and
   *  is undone exactly by its token; the sorted moves are a permutation of
   *  the moves; the heuristic is an i64. */
  ghost predicate TokenLaws<P(!new), M(!new), R, K>(G: TokenGame<P, M, R, K>)
  {
    (forall p, m | G.valid(p) && G.state(p) == Going && m in G.moves(p) ::
       G.movR(p, m).0 == G.mov(p, m) && G.valid(G.mov(p, m)) &&
       G.undo(G.movR(p, m).0, G.movR(p, m).1) == p)
    && (forall p | G.valid(p) :: multiset(G.movesSorted(p)) == multiset(G.moves(p)))
    && (forall p | G.valid(p) :: InI64(G.heuristic(p)))
  }

  ghost predicate StackLaws<P(!new), M(!new), K>(G: StackGame<P, M, K>)
  {
    (forall p, m | G.valid(p) && G.state(p) == Going && m in G.moves(p) ::
       G.valid(G.mov(p, m)) && G.undo(G.mov(p, m)) == p)
    && (forall p | G.valid(p) :: InI64(G.heuristic(p)))
  }

  /** What the laws give for one move of a stack game still being played:
   *  the child is valid and rollback undoes it. */
  lemma StackChildLaw<P(!new), M(!new), K>(G: StackGame<P, M, K>, p: P, m: M)
    requires StackLaws(G) && G.valid(p) && G.state(p) == Going && m in G.moves(p)
    ensures G.valid(G.mov(p, m)) && G.undo(G.mov(p, m)) == p
  {
  }

  /** What the laws give for one generated move of a token game still
   *  being played: the token move is the move, the child is valid and the
   *  token undoes it. */
  lemma TokenChildLaw<P(!new), M(!new), R, K>(G: TokenGame<P, M, R, K>, p: P, m: M)
    requires TokenLaws(G) && G.valid(p) && G.state(p) == Going && m in G.moves(p)
    ensures G.movR(p, m).0 == G.mov(p, m) && G.valid(G.mov(p, m))
    ensures G.undo(G.movR(p, m).0, G.movR(p, m).1) == p
  {
  }

  /** Reference depth-limited minimax over the sorted moves of a token game:
   *  the value the fail-hard alpha-beta search must agree with. An empty max
   *  is i64::MIN and an empty min is i64::MAX, as in the engines. */
  ghost function Minimax<P, M, R, K>(G: TokenGame<P, M, R, K>, p: P, depth: nat): int
    decreases depth, 1, 0
  {
    if G.state(p) != Going || depth == 0 then G.heuristic(p)
    else if G.turn(p) then MaxOver(G, p, G.movesSorted(p), depth - 1)
    else MinOver(G, p, G.movesSorted(p), depth - 1)
  }

  /** The value of the child reached by `m`. */
  ghost function ChildValue<P, M, R, K>(G: TokenGame<P, M, R, K>, p: P, m: M, d: nat): int
    decreases d, 2, 0
  {
    Minimax(G, G.movR(p, m).0, d)
  }

  ghost function MaxOver<P, M, R, K>(G: TokenGame<P, M, R, K>, p: P, ms: seq<M>, d: nat): int
    decreases d + 1, 0, |ms|
  {
    if ms == [] then I64_MIN
    else Max(MaxOver(G, p, ms[..|ms| - 1], d), ChildValue(G, p, ms[|ms| - 1], d))
  }

  ghost function MinOver<P, M, R, K>(G: TokenGame<P, M, R, K>, p: P, ms: seq<M>, d: nat): int
    decreases d + 1, 0, |ms|
  {
    if ms == [] then I64_MAX
    else Min(MinOver(G, p, ms[..|ms| - 1], d), ChildValue(G, p, ms[|ms| - 1], d))
  }

  /** The fail-hard alpha-beta contract: a value `r` answers the window
   *  (a, b) for the true value `v` when it is exact inside the window and on
   *  the right side of the bound outside it. */
  predicate Window(v: int, a: int, b: int, r: int)
  {
    (v <= a ==> r <= a) && (v >= b ==> r >= b) && (a < v < b ==> r == v)
  }

  lemma {:induction false} MaxOverBounds<P, M, R, K>(G: TokenGame<P, M, R, K>, p: P, ms: seq<M>, d: nat)
    ensures forall i :: 0 <= i < |ms| ==> ChildValue(G, p, ms[i], d) <= MaxOver(G, p, ms, d)
    ensures ms != [] ==> exists i :: 0 <= i < |ms| && MaxOver(G, p, ms, d) == Max(I64_MIN, ChildValue(G, p, ms[i], d))
    ensures I64_MIN <= MaxOver(G, p, ms, d)
    decreases |ms|
  {
    if ms != [] {
      var init := ms[..|ms| - 1];
      MaxOverBounds(G, p, init, d);
      forall i | 0 <= i < |ms| ensures ChildValue(G, p, ms[i], d) <= MaxOver(G, p, ms, d) {
        if i < |ms| - 1 { assert ms[i] == init[i]; }
      }
      if init != [] && MaxOver(G, p, init, d) >= ChildValue(G, p, ms[|ms| - 1], d) {
        var i :| 0 <= i < |init| && MaxOver(G, p, init, d) == Max(I64_MIN, ChildValue(G, p, init[i], d));
        assert ms[i] == init[i];
      } else {
        assert MaxOver(G, p, ms, d) == Max(I64_MIN, ChildValue(G, p, ms[|ms| - 1], d));
      }
    }
  }

  lemma {:induction false} MinOverBounds<P, M, R, K>(G: TokenGame<P, M, R, K>, p: P, ms: seq<M>, d: nat)
    ensures forall i :: 0 <= i < |ms| ==> MinOver(G, p, ms, d) <= ChildValue(G, p, ms[i], d)
    ensures ms != [] ==> exists i :: 0 <= i < |ms| && MinOver(G, p, ms, d) == Min(I64_MAX, ChildValue(G, p, ms[i], d))
    ensures MinOver(G, p, ms, d) <= I64_MAX
    decreases |ms|
  {
    if ms != [] {
      var init := ms[..|ms| - 1];
      MinOverBounds(G, p, init, d);
      forall i | 0 <= i < |ms| ensures MinOver(G, p, ms, d) <= ChildValue(G, p, ms[i], d) {
        if i < |ms| - 1 { assert ms[i] == init[i]; }
      }
      if init != [] && MinOver(G, p, init, d) <= ChildValue(G, p, ms[|ms| - 1], d) {
        var i :| 0 <= i < |init| && MinOver(G, p, init, d) == Min(I64_MAX, ChildValue(G, p, init[i], d));
        assert ms[i] == init[i];
      } else {
        assert MinOver(G, p, ms, d) == Min(I64_MAX, ChildValue(G, p, ms[|ms| - 1], d));
      }
    }
  }

  /** Under the laws, the reference value of a valid position is an i64. */
  lemma {:induction false} MinimaxInRange<P(!new), M(!new), R, K>(G: TokenGame<P, M, R, K>, p: P, depth: nat)
    requires TokenLaws(G) && G.valid(p)
    ensures InI64(Minimax(G, p, depth))
    decreases depth
  {
    if G.state(p) != Going || depth == 0 {
    } else {
      var ms := G.movesSorted(p);
      forall i | 0 <= i < |ms| ensures InI64(ChildValue(G, p, ms[i], depth - 1)) {
        assert ms[i] in multiset(G.moves(p));
        MinimaxInRange(G, G.movR(p, ms[i]).0, depth - 1);
      }
      if G.turn(p) { MaxOverBounds(G, p, ms, depth - 1); } else { MinOverBounds(G, p, ms, depth - 1); }
    }
  }

  /** When every valid position's heuristic lies in [lo, hi] and every
   *  valid position still being played has a move, so does every reference
   *  value: an empty max or min never shows through. */
  lemma {:induction false} MinimaxBounded<P(!new), M(!new), R, K>(G: TokenGame<P, M, R, K>, p: P, depth: nat, lo: int, hi: int)
    requires TokenLaws(G) && G.valid(p)
    requires forall q | G.valid(q) :: lo <= G.heuristic(q) <= hi
    requires forall q | G.valid(q) && G.state(q) == Going :: |G.movesSorted(q)| > 0
    requires I64_MIN <= lo
    ensures lo <= Minimax(G, p, depth) <= hi
    decreases depth
  {
    if G.state(p) != Going || depth == 0 {
    } else {
      var ms := G.movesSorted(p);
      forall i | 0 <= i < |ms| ensures lo <= ChildValue(G, p, ms[i], depth - 1) <= hi {
        assert ms[i] in multiset(G.moves(p));
        MinimaxBounded(G, G.movR(p, ms[i]).0, depth - 1, lo, hi);
      }
      if G.turn(p) { MaxOverBounds(G, p, ms, depth - 1); } else { MinOverBounds(G, p, ms, depth - 1); }
    }
  }

  /** The first n reads of a clock oracle all report that the time is not up. */
  ghost predicate Quiet(tl: nat -> bool, n: nat)
  {
    forall k :: 0 <= k < n ==> !tl(k)
  }

  lemma QuietStep(tl: nat -> bool, n: nat)
    requires Quiet(tl, n) && !tl(n)
    ensures Quiet(tl, n + 1)
  {
  }

  /** What the laws give for one sorted move of a position still being
   *  played: the child is valid, its token undoes it, and its value is an
   *  i64. */
  lemma ChildLaw<P(!new), M(!new), R, K>(G: TokenGame<P, M, R, K>, p: P, m: M, d: nat)
    requires TokenLaws(G) && G.valid(p) && G.state(p) == Going && m in G.movesSorted(p)
    ensures G.valid(G.movR(p, m).0) && G.undo(G.movR(p, m).0, G.movR(p, m).1) == p
    ensures InI64(ChildValue(G, p, m, d))
  {
    assert m in multiset(G.moves(p));
    MinimaxInRange(G, G.movR(p, m).0, d);
  }

  /** One child of a fail-hard max node: with a the running bound of the
   *  children ms[..k], the new bound is again the running bound unless it
   *  reached b, when the whole maximum reached b too. */
  lemma MaxStep<P, M, R, K>(G: TokenGame<P, M, R, K>, p: P, ms: seq<M>, d: nat, k: nat, a0: int, a: int, b: int, h: int)
    requires k < |ms| && a == Max(a0, MaxOver(G, p, ms[..k], d)) && a < b
    requires Window(ChildValue(G, p, ms[k], d), a, b, h)
    ensures Max(a, h) < b ==> Max(a, h) == Max(a0, MaxOver(G, p, ms[..k + 1], d))
    ensures Max(a, h) >= b ==> MaxOver(G, p, ms, d) >= b
  {
    assert ms[..k + 1][..k] == ms[..k];
    assert ms[..k + 1][k] == ms[k];
    MaxOverBounds(G, p, ms, d);
  }

  lemma MinStep<P, M, R, K>(G: TokenGame<P, M, R, K>, p: P, ms: seq<M>, d: nat, k: nat, a: int, b0: int, b: int, h: int)
    requires k < |ms| && b == Min(b0, MinOver(G, p, ms[..k], d)) && a < b
    requires Window(ChildValue(G, p, ms[k], d), a, b, h)
    ensures a < Min(b, h) ==> Min(b, h) == Min(b0, MinOver(G, p, ms[..k + 1], d))
    ensures a >= Min(b, h) ==> MinOver(G, p, ms, d) <= a
  {
    assert ms[..k + 1][..k] == ms[..k];
    assert ms[..k + 1][k] == ms[k];
    MinOverBounds(G, p, ms, d);
  }

  /** A fail-hard answer for a window open on the far side moves the bound
   *  exactly as the true value would. */
  lemma WindowExact(t: bool, v: int, a: int, b: int, h: int)
    requires InI64(v) && InI64(h) && Window(v, a, b, h) && a < b
    requires if t then b == I64_MAX else a == I64_MIN
    ensures t ==> Max(a, h) == Max(a, v)
    ensures !t ==> Min(b, h) == Min(b, v)
  {
  }

  /** `x` is strictly better than `y` for the side `t` (true: maximising). */
  predicate Better(t: bool, x: int, y: int) { if t then x > y else x < y }

  /** The index of the first strictly best of the children ms[..k], the
   *  first one when none is better than it. */
  ghost function Best<P, M, R, K>(G: TokenGame<P, M, R, K>, p: P, ms: seq<M>, d: nat, k: nat): (r: nat)
    requires 0 < k <= |ms|
    ensures r < k
  {
    if k == 1 then 0
    else
      var i := Best(G, p, ms, d, k - 1);
      if Better(G.turn(p), ChildValue(G, p, ms[k - 1], d), ChildValue(G, p, ms[i], d)) then k - 1 else i
  }

  /** No child of ms[..k] is better than Best, and every one before it is
   *  worse. */
  lemma {:induction false} BestIsFirst<P, M, R, K>(G: TokenGame<P, M, R, K>, p: P, ms: seq<M>, d: nat, k: nat)
    requires 0 < k <= |ms|
    ensures forall j :: 0 <= j < k ==>
      !Better(G.turn(p), ChildValue(G, p, ms[j], d), ChildValue(G, p, ms[Best(G, p, ms, d, k)], d))
    ensures forall j :: 0 <= j < Best(G, p, ms, d, k) ==>
      Better(G.turn(p), ChildValue(G, p, ms[Best(G, p, ms, d, k)], d), ChildValue(G, p, ms[j], d))
  {
    if k > 1 {
      BestIsFirst(G, p, ms, d, k - 1);
    }
  }

  /** Children after k that are not better than the best so far leave it
   *  the best. */
  lemma {:induction false} BestKept<P, M, R, K>(G: TokenGame<P, M, R, K>, p: P, ms: seq<M>, d: nat, k: nat)
    requires 0 < k <= |ms|
    requires forall j :: k <= j < |ms| ==>
      !Better(G.turn(p), ChildValue(G, p, ms[j], d), ChildValue(G, p, ms[Best(G, p, ms, d, k)], d))
    ensures Best(G, p, ms, d, |ms|) == Best(G, p, ms, d, k)
    decreases |ms| - k
  {
    if k < |ms| {
      BestKept(G, p, ms, d, k + 1);
    }
  }

  /** One root child of `minimax_move`: when the answer h moves the
   *  running best res exactly as the child's value would, taking the child
   *  exactly when it is strictly better keeps the choice on Best and res on
   *  its value. */
  lemma RootStep<P, M, R, K>(G: TokenGame<P, M, R, K>, p: P, ms: seq<M>, d: nat, k: nat, res: int, h: int)
    requires k < |ms| && InI64(ChildValue(G, p, ms[k], d))
    requires k == 0 ==> res == if G.turn(p) then I64_MIN else I64_MAX
    requires k > 0 ==> res == ChildValue(G, p, ms[Best(G, p, ms, d, k)], d)
    requires if G.turn(p) then Max(res, h) == Max(res, ChildValue(G, p, ms[k], d))
             else Min(res, h) == Min(res, ChildValue(G, p, ms[k], d))
    ensures Best(G, p, ms, d, k + 1) == if Better(G.turn(p), h, res) then k else if k == 0 then 0 else Best(G, p, ms, d, k)
    ensures (if Better(G.turn(p), h, res) then h else res) == ChildValue(G, p, ms[Best(G, p, ms, d, k + 1)], d)
  {
  }

  /** A root search cut off at k, because the best so far is already the
   *  largest (smallest) i64, settles on the same child as the full one. */
  lemma RootCut<P(!new), M(!new), R, K>(G: TokenGame<P, M, R, K>, p: P, d: nat, k: nat)
    requires TokenLaws(G) && G.valid(p) && G.state(p) == Going && 0 < k <= |G.movesSorted(p)|
    requires k < |G.movesSorted(p)| ==>
      ChildValue(G, p, G.movesSorted(p)[Best(G, p, G.movesSorted(p), d, k)], d) == if G.turn(p) then I64_MAX else I64_MIN
    ensures Best(G, p, G.movesSorted(p), d, |G.movesSorted(p)|) == Best(G, p, G.movesSorted(p), d, k)
  {
    var ms := G.movesSorted(p);
    forall j | k <= j < |ms|
      ensures !Better(G.turn(p), ChildValue(G, p, ms[j], d), ChildValue(G, p, ms[Best(G, p, ms, d, k)], d))
    {
      ChildLaw(G, p, ms[j], d);
    }
    BestKept(G, p, ms, d, k);
  }

  /** The root move `minimax_move` settles on: the first strictly best of
   *  the sorted moves. */
  ghost function RootChoice<P, M, R, K>(G: TokenGame<P, M, R, K>, p: P, d: nat): M
    requires |G.movesSorted(p)| > 0
  {
    var ms := G.movesSorted(p);
    ms[Best(G, p, ms, d, |ms|)]
  }

  /** Root move i is the first strictly best child for the side to move:
   *  no child is better and every earlier child is worse. */
  ghost predicate FirstBest<P, M, R, K>(G: TokenGame<P, M, R, K>, p: P, ms: seq<M>, d: nat, i: int)
  {
    0 <= i < |ms| &&
    if G.turn(p) then
      (forall j :: 0 <= j < |ms| ==> ChildValue(G, p, ms[j], d) <= ChildValue(G, p, ms[i], d)) &&
      (forall j :: 0 <= j < i ==> ChildValue(G, p, ms[j], d) < ChildValue(G, p, ms[i], d))
    else
      (forall j :: 0 <= j < |ms| ==> ChildValue(G, p, ms[i], d) <= ChildValue(G, p, ms[j], d)) &&
      (forall j :: 0 <= j < i ==> ChildValue(G, p, ms[i], d) < ChildValue(G, p, ms[j], d))
  }

  /** The root choice is the first strictly best root move, and in a
   *  position still being played it has the reference value of the
   *  position. */
  lemma RootChoiceBest<P(!new), M(!new), R, K>(G: TokenGame<P, M, R, K>, p: P, d: nat)
    requires TokenLaws(G) && G.valid(p) && G.state(p) == Going && |G.movesSorted(p)| > 0
    ensures FirstBest(G, p, G.movesSorted(p), d, Best(G, p, G.movesSorted(p), d, |G.movesSorted(p)|))
    ensures ChildValue(G, p, RootChoice(G, p, d), d) == Minimax(G, p, d + 1)
  {
    var ms := G.movesSorted(p);
    BestIsFirst(G, p, ms, d, |ms|);
    FirstBestValue(G, p, d, Best(G, p, ms, d, |ms|));
  }

  /** The first strictly best root move of a position still being played
   *  has the reference value of the position. */
  lemma FirstBestValue<P(!new), M(!new), R, K>(G: TokenGame<P, M, R, K>, p: P, d: nat, i: int)
    requires TokenLaws(G) && G.valid(p) && G.state(p) == Going
    requires FirstBest(G, p, G.movesSorted(p), d, i)
    ensures ChildValue(G, p, G.movesSorted(p)[i], d) == Minimax(G, p, d + 1)
  {
    var ms := G.movesSorted(p);
    assert ms[i] in multiset(G.moves(p));
    MinimaxInRange(G, G.movR(p, ms[i]).0, d);
    if G.turn(p) {
      MaxOverBounds(G, p, ms, d);
      var j :| 0 <= j < |ms| && MaxOver(G, p, ms, d) == Max(I64_MIN, ChildValue(G, p, ms[j], d));
    } else {
      MinOverBounds(G, p, ms, d);
      var j :| 0 <= j < |ms| && MinOver(G, p, ms, d) == Min(I64_MAX, ChildValue(G, p, ms[j], d));
    }
  }

  /** A fail-hard answer for the widest window that is an i64 is exact. */
  lemma WidestWindow(v: int, r: int)
    requires InI64(v) && InI64(r) && Window(v, I64_MIN, I64_MAX, r)
    ensures r == v
  {
  }
}
