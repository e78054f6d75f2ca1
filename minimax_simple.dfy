/** The plain alpha-beta engine (src/minimax_simple.rs): fail-hard minimax
 *  over the sorted moves of a token game, one shared position that every
 *  move is applied to and undone on, and iterative deepening that stops at
 *  the first depth whose search is cut short by the clock.
 *
 *  The wall clock is an oracle: `clock(k)` is the answer of the k-th read
 *  of "the time since get_mov started exceeds the limit", and `clockReads`
 *  counts them. */
module MinimaxSimple {
  import opened Games

  class MinimaxSimple<P(!new), M(!new), R, K> {
    const G: TokenGame<P, M, R, K>
    var g: P
    var nnw: bv8
    var clock: nat -> bool
    var clockReads: nat
    var lastAns: M
    var endedEarly: bool

    /** `new`: the game's start position is passed in, as is the default
     *  move. */
    constructor (G: TokenGame<P, M, R, K>, start: P, fallback: M)
      ensures this.G == G && g == start && nnw == 0 && clockReads == 0
      ensures lastAns == fallback && !endedEarly
    {
      this.G := G;
      g := start;
      nnw := 0;
      clock := _ => false;
      clockReads := 0;
      lastAns := fallback;
      endedEarly := false;
    }

    /** The budget check of an inner node: the counter wraps around at 256,
     *  the clock is read only when the search has not already stopped and
     *  the counter has just wrapped to 0, and a stop is sticky. */
    method Tick() returns (stop: bool)
      modifies this
      ensures nnw == old(nnw) + 1
      ensures stop == (old(endedEarly) || (nnw == 0 && clock(old(clockReads))))
      ensures clockReads == old(clockReads) + (if !old(endedEarly) && nnw == 0 then 1 else 0)
      ensures endedEarly == stop
      ensures g == old(g) && clock == old(clock) && lastAns == old(lastAns)
    {
      nnw := nnw + 1;
      if endedEarly {
        stop := true;
      } else if nnw == 0 {
        stop := clock(clockReads);
        clockReads := clockReads + 1;
        endedEarly := stop;
      } else {
        stop := false;
      }
    }

    /** `minimax`: a decided position or depth 0 answers the heuristic
     *  without touching the budget. Otherwise the children are searched in
     *  sorted order until the window closes or the search stops. A max node
     *  never answers below the incoming a, a min node never above the
     *  incoming b, and a search that did not stop answers the window for the
     *  reference value; the position is the same on return. */
    method Minimax(a0: int, b0: int, depth: nat) returns (r: int)
      requires TokenLaws(G) && G.valid(g) && InI64(a0) && InI64(b0) && a0 < b0
      modifies this
      decreases depth, 2
      ensures g == old(g) && clock == old(clock) && lastAns == old(lastAns)
      ensures InI64(r)
      ensures old(endedEarly) ==> endedEarly
      ensures G.state(g) != Going || depth == 0 ==>
        r == G.heuristic(g) && nnw == old(nnw) && clockReads == old(clockReads) && endedEarly == old(endedEarly)
      ensures G.state(g) == Going && depth > 0 ==> if G.turn(g) then a0 <= r else r <= b0
      ensures !endedEarly ==> Window(Games.Minimax(G, g, depth), a0, b0, r)
    {
      if G.state(g) != Going || depth == 0 {
        return G.heuristic(g);
      }
      var t := G.turn(g);
      var res := if t then a0 else b0;
      var stop := Tick();
      if stop {
        return res;
      }
      r := Children(res, a0, b0, depth - 1);
    }

    /** The child loop of `minimax`, from the running result res, which is
     *  a0 on the max side and b0 on the min side. */
    method Children(res0: int, a0: int, b0: int, d: nat) returns (r: int)
      requires TokenLaws(G) && G.valid(g) && G.state(g) == Going && InI64(a0) && InI64(b0) && a0 < b0
      requires res0 == if G.turn(g) then a0 else b0
      modifies this
      decreases d + 1, 1
      ensures g == old(g) && clock == old(clock) && lastAns == old(lastAns)
      ensures InI64(r) && (old(endedEarly) ==> endedEarly)
      ensures if G.turn(g) then a0 <= r else r <= b0
      ensures !endedEarly ==> Window(Games.Minimax(G, g, d + 1), a0, b0, r)
    {
      var t := G.turn(g);
      var res := res0;
      var moves := G.movesSorted(g);
      var a, b := a0, b0;
      var k := 0;
      while k < |moves|
        invariant 0 <= k <= |moves| && g == old(g)
        invariant clock == old(clock) && lastAns == old(lastAns) && (old(endedEarly) ==> endedEarly)
        invariant InI64(a) && InI64(b) && a < b
        invariant if t then res == a && b == b0 && a0 <= a else res == b && a == a0 && b <= b0
        invariant !endedEarly ==>
          if t then a == Max(a0, MaxOver(G, g, moves[..k], d)) else b == Min(b0, MinOver(G, g, moves[..k], d))
      {
        var h := Explore(moves[k], a, b, d);
        if t {
          if !endedEarly {
            MaxStep(G, g, moves, d, k, a0, a, b, h);
          }
          res := Max(res, h);
          a := Max(a, h);
        } else {
          if !endedEarly {
            MinStep(G, g, moves, d, k, a, b0, b, h);
          }
          res := Min(res, h);
          b := Min(b, h);
        }
        k := k + 1;
        if a >= b || endedEarly {
          break;
        }
      }
      if !endedEarly && k == |moves| {
        assert moves[..k] == moves;
      }
      r := res;
    }

    /** One child of a search: the move is made with its token, searched
     *  with the window, and undone. */
    method Explore(m: M, a: int, b: int, d: nat) returns (h: int)
      requires TokenLaws(G) && G.valid(g) && G.state(g) == Going && m in G.movesSorted(g)
      requires InI64(a) && InI64(b) && a < b
      modifies this
      decreases d + 1, 0
      ensures g == old(g) && clock == old(clock) && lastAns == old(lastAns) && (old(endedEarly) ==> endedEarly)
      ensures InI64(h) && InI64(ChildValue(G, g, m, d))
      ensures !endedEarly ==> Window(ChildValue(G, g, m, d), a, b, h)
    {
      ChildLaw(G, g, m, d);
      var (q, rb) := G.movR(g, m);
      g := q;
      h := Minimax(a, b, d);
      g := G.undo(g, rb);
    }

    /** `minimax_move`: the root search with the widest window. It reports
     *  whether the search stopped early; when it did not, `last_ans` becomes
     *  the first strictly best root move, and otherwise it is kept. */
    method MinimaxMove(depth: nat) returns (early: bool)
      requires TokenLaws(G) && G.valid(g) && G.state(g) == Going && depth >= 1 && |G.movesSorted(g)| > 0
      modifies this
      ensures g == old(g) && clock == old(clock)
      ensures early == endedEarly && (old(endedEarly) ==> early)
      ensures early ==> lastAns == old(lastAns)
      ensures !early ==> lastAns == RootChoice(G, g, depth - 1)
    {
      var d := depth - 1;
      var a, b := I64_MIN, I64_MAX;
      var moves := G.movesSorted(g);
      var t := G.turn(g);
      var res := if t then a else b;
      var ans := moves[0];
      var k := 0;
      while k < |moves|
        invariant 0 <= k <= |moves| && g == old(g)
        invariant clock == old(clock) && lastAns == old(lastAns) && (old(endedEarly) ==> endedEarly)
        invariant InI64(a) && InI64(b) && a < b
        invariant if t then res == a && b == I64_MAX else res == b && a == I64_MIN
        invariant !endedEarly && k > 0 ==>
          ans == moves[Best(G, g, moves, d, k)] && res == ChildValue(G, g, ans, d)
        invariant k == 0 ==> ans == moves[0] && res == if t then I64_MIN else I64_MAX
      {
        var m := moves[k];
        var h := Explore(m, a, b, d);
        if !endedEarly {
          WindowExact(t, ChildValue(G, g, m, d), a, b, h);
          RootStep(G, g, moves, d, k, res, h);
        }
        if t {
          if h > res {
            res := h;
            ans := m;
          }
          a := Max(a, h);
        } else {
          if h < res {
            res := h;
            ans := m;
          }
          b := Min(b, h);
        }
        k := k + 1;
        if a >= b || endedEarly {
          break;
        }
      }
      if endedEarly {
        early := true;
      } else {
        RootCut(G, g, d, k);
        lastAns := ans;
        early := false;
      }
    }

    /** `get_mov`: search depth 1, 2, ... until a search stops early, and
     *  answer `last_ans`, which the last completed depth set. The deepening
     *  ends at u32::MAX at the latest. `completed` is that last completed
     *  depth, 0 when the depth 1 search already stopped; below the cap, the
     *  search at depth `completed + 1` is the one that stopped early. */
    method GetMov(tl: nat -> bool) returns (m: M, ghost completed: nat)
      requires TokenLaws(G) && G.valid(g) && G.state(g) == Going && |G.movesSorted(g)| > 0
      modifies this
      ensures g == old(g) && clock == tl && m == lastAns
      ensures completed == 0 ==> m == old(lastAns)
      ensures completed > 0 ==> m == RootChoice(G, g, completed - 1)
      ensures completed <= U32_MAX && (completed < U32_MAX ==> endedEarly)
    {
      var depth := 1;
      clock := tl;
      clockReads := 0;
      endedEarly := false;
      completed := 0;
      while depth <= U32_MAX
        invariant 1 <= depth <= U32_MAX + 1 && completed == depth - 1
        invariant g == old(g) && clock == tl
        invariant completed == 0 ==> lastAns == old(lastAns)
        invariant completed > 0 ==> lastAns == RootChoice(G, g, completed - 1)
        decreases U32_MAX + 1 - depth
      {
        var early := MinimaxMove(depth);
        if early {
          break;
        }
        completed := depth;
        depth := depth + 1;
      }
      m := lastAns;
    }

    /** `mov`: the move is played on the position. */
    method Mov(m: M)
      modifies this
      ensures g == G.mov(old(g), m)
      ensures nnw == old(nnw) && clockReads == old(clockReads) && lastAns == old(lastAns) && endedEarly == old(endedEarly)
    {
      g := G.mov(g, m);
    }
  }

  /** With the widest window, a search that did not stop early answers
   *  exactly the reference value. */
  lemma WidestSearch<P(!new), M(!new), R, K>(G: TokenGame<P, M, R, K>, p: P, depth: nat, r: int)
    requires TokenLaws(G) && G.valid(p) && InI64(r)
    requires Window(Minimax(G, p, depth), I64_MIN, I64_MAX, r)
    ensures r == Minimax(G, p, depth)
  {
    MinimaxInRange(G, p, depth);
    WidestWindow(Minimax(G, p, depth), r);
  }
}
