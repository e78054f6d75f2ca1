/** The alpha-beta engine with a transposition table (src/minimax_hard.rs).
 *  It works on a stack game: `mov` pushes, `rollback` pops. The table maps
 *  the static state of a position to a stored value and the depth it was
 *  searched to; moves are tried in the order of their children's stored
 *  values, best first, unknown children being ranked as the running result.
 *
 *  The wall clock of `get_mov` is an oracle: `clock(k)` is the answer of the
 *  k-th read of "more than 250 ms have passed since get_mov started". */
module MinimaxHard {
  import opened Games
  import opened Sorting

  type Table<K> = map<K, (int, nat)>

  /** Every stored value is an i64. */
  ghost predicate TableOk<K>(table: Table<K>)
  {
    forall k :: k in table ==> InI64(table[k].0)
  }

  /** No key is dropped and no stored depth decreases. */
  ghost predicate Grows<K>(t0: Table<K>, t1: Table<K>)
  {
    forall k :: k in t0 ==> k in t1 && t0[k].1 <= t1[k].1
  }

  /** Every entry is an old one, or was stored by a search of at most `depth`. */
  ghost predicate Within<K>(t0: Table<K>, t1: Table<K>, depth: nat)
  {
    forall k :: k in t1 ==> (k in t0 && t1[k] == t0[k]) || t1[k].1 <= depth
  }

  /** When a stored entry of depth `stored` answers a search of `depth`:
   *  always when it is at least as deep, and also when it is at most 4
   *  shallower and the search depth lies strictly between 4 and 14. */
  predicate Hit(depth: nat, stored: nat)
  {
    depth <= stored || (depth <= stored + 4 && 4 < depth < 14)
  }

  /** The stored depth of a key, 0 when it is absent. */
  function OldDepth<K>(table: Table<K>, k: K): (r: nat)
    ensures k !in table ==> r == 0
    ensures k in table ==> r == table[k].1
  {
    if k in table then table[k].1 else 0
  }

  /** The stored value of the child reached by m, or `res` when the child is
   *  not in the table. */
  function ChildGuess<P, M(!new), K>(G: StackGame<P, M, K>, table: Table<K>, p: P, res: int, m: M): int
  {
    var q := G.mov(p, m);
    if G.key(q) in table then table[G.key(q)].0 else res
  }

  /** The sort key of a move, with the negation done on unbounded integers:
   *  on the max side the key is minus the guess, so that the ascending sort
   *  puts the best guess first. */
  function OrderKey<P, M(!new), K>(G: StackGame<P, M, K>, table: Table<K>, p: P, res: int): (key: M -> int)
    ensures forall m :: key(m) == if G.turn(p) then -ChildGuess(G, table, p, res, m) else ChildGuess(G, table, p, res, m)
  {
    m => var v := ChildGuess(G, table, p, res, m); if G.turn(p) then -v else v
  }

  /** A smaller key is exactly a better guess for the side to move. */
  lemma KeyOrder<P, M(!new), K>(G: StackGame<P, M, K>, table: Table<K>, p: P, res: int, m1: M, m2: M)
    ensures OrderKey(G, table, p, res)(m1) < OrderKey(G, table, p, res)(m2)
        <==> Better(G.turn(p), ChildGuess(G, table, p, res, m1), ChildGuess(G, table, p, res, m2))
  {
  }

  /** In a list sorted by that key, an earlier move never has a worse guess
   *  than a later one. */
  lemma SortedBestFirst<P, M(!new), K>(G: StackGame<P, M, K>, table: Table<K>, p: P, res: int, ms: seq<(int, M)>, i: int, j: int)
    requires SortedBy(ms, FstOf())
    requires forall x :: x in ms ==> x.0 == OrderKey(G, table, p, res)(x.1)
    requires 0 <= i < j < |ms|
    ensures !Better(G.turn(p), ChildGuess(G, table, p, res, ms[j].1), ChildGuess(G, table, p, res, ms[i].1))
  {
    assert FstOf()(ms[i]) <= FstOf()(ms[j]);
    KeyOrder(G, table, p, res, ms[j].1, ms[i].1);
  }

  /** Negation of an i64 as the release build computes it: -i64::MIN wraps
   *  to i64::MIN. */
  function Neg64(v: int): (r: int)
    requires InI64(v)
    ensures InI64(r)
    ensures v != I64_MIN ==> r == -v
  {
    if v == I64_MIN then I64_MIN else -v
  }

  /** The sort key as written, with the wrapping negation. */
  function OrderKeyAsWritten<P, M(!new), K>(G: StackGame<P, M, K>, table: Table<K>, p: P, res: int, m: M): int
    requires InI64(res) && TableOk(table)
  {
    var v := ChildGuess(G, table, p, res, m);
    if G.turn(p) then Neg64(v) else v
  }

  /** At a max node whose running result is still i64::MIN (the root, or any
   *  node searched with a = i64::MIN), an unknown child gets the wrapped key
   *  i64::MIN and is sorted before a known child whose stored value is 0,
   *  although its guess is the worst possible: the order is not best first. */
  lemma UnknownFirstAsWritten<P, M(!new), K>(G: StackGame<P, M, K>, table: Table<K>, p: P, m1: M, m2: M)
    requires TableOk(table) && G.turn(p)
    requires G.key(G.mov(p, m1)) !in table
    requires G.key(G.mov(p, m2)) in table && table[G.key(G.mov(p, m2))].0 == 0
    ensures OrderKeyAsWritten(G, table, p, I64_MIN, m1) < OrderKeyAsWritten(G, table, p, I64_MIN, m2)
    ensures !Better(G.turn(p), ChildGuess(G, table, p, I64_MIN, m1), ChildGuess(G, table, p, I64_MIN, m2))
    ensures OrderKey(G, table, p, I64_MIN)(m2) < OrderKey(G, table, p, I64_MIN)(m1)
  {
  }

  /** The first of the examined children whose value strictly beats the
   *  starting result `init` and every child before it; -1 when none does. */
  function FirstBetter(t: bool, init: int, hs: seq<int>): (r: int)
    ensures -1 <= r < |hs|
    ensures r == -1 ==> forall j :: 0 <= j < |hs| ==> !Better(t, hs[j], init)
    ensures r >= 0 ==> Better(t, hs[r], init)
    ensures r >= 0 ==> forall j :: 0 <= j < |hs| ==> !Better(t, hs[j], hs[r])
    ensures r >= 0 ==> forall j :: 0 <= j < r ==> Better(t, hs[r], hs[j])
  {
    if hs == [] then -1
    else
      var i := FirstBetter(t, init, hs[..|hs| - 1]);
      var last := hs[|hs| - 1];
      if Better(t, last, if i == -1 then init else hs[i]) then |hs| - 1 else i
  }

  class MinimaxHard<P(!new), M(!new), K(==)> {
    const G: StackGame<P, M, K>
    var g: P
    var table: Table<K>
    var clock: nat -> bool
    var clockReads: nat

    /** `new`: the game's start position is passed in; the table is empty. */
    constructor (G: StackGame<P, M, K>, start: P)
      ensures this.G == G && g == start && table == map[] && clockReads == 0
    {
      this.G := G;
      g := start;
      table := map[];
      clock := _ => false;
      clockReads := 0;
    }

    /** The cached key of one move: the move is made, the child looked up and
     *  the move rolled back. */
    method ChildKey(m: M, res: int) returns (key: int)
      requires StackLaws(G) && G.valid(g) && G.state(g) == Going && m in G.moves(g)
      modifies this
      ensures g == old(g) && table == old(table) && clock == old(clock) && clockReads == old(clockReads)
      ensures key == OrderKey(G, table, g, res)(m)
    {
      StackChildLaw(G, g, m);
      g := G.mov(g, m);
      var v := res;
      if G.key(g) in table {
        v := table[G.key(g)].0;
      }
      g := G.undo(g);
      key := if G.turn(g) then -v else v;
    }

    /** `sort_by_cached_key`: every move paired with its key, computed once,
     *  and the pairs sorted by the key. */
    method OrderedMoves(res: int) returns (ms: seq<(int, M)>)
      requires StackLaws(G) && G.valid(g) && G.state(g) == Going
      modifies this
      ensures g == old(g) && table == old(table) && clock == old(clock) && clockReads == old(clockReads)
      ensures multiset(ms) == multiset(Keyed(G.moves(g), OrderKey(G, table, g, res)))
      ensures SortedBy(ms, FstOf()) && |ms| == |G.moves(g)|
      ensures forall x :: x in ms ==> x.1 in G.moves(g) && x.0 == OrderKey(G, table, g, res)(x.1)
    {
      var moves := G.moves(g);
      ghost var key := OrderKey(G, table, g, res);
      var pairs: seq<(int, M)> := [];
      var i := 0;
      while i < |moves|
        invariant 0 <= i <= |moves| && |pairs| == i
        invariant g == old(g) && table == old(table) && clock == old(clock) && clockReads == old(clockReads)
        invariant forall j :: 0 <= j < i ==> pairs[j] == (key(moves[j]), moves[j])
      {
        var k := ChildKey(moves[i], res);
        pairs := pairs + [(k, moves[i])];
        i := i + 1;
      }
      assert pairs == Keyed(moves, key);
      ms := SortByKey(pairs, FstOf());
      KeyedSorted(moves, key);
      SameLength(ms, pairs);
    }

    /** `minimax`: a decided position or depth 0 answers the heuristic. A
     *  table hit answers the stored value. Otherwise all children are
     *  searched in key order until the window closes, and the result is
     *  stored when the search is deeper than the stored one and deeper than
     *  4. A max node never answers below the incoming a, a min node never
     *  above the incoming b. The position is the same on return. */
    method Minimax(a0: int, b0: int, depth: nat) returns (r: int)
      requires StackLaws(G) && G.valid(g) && TableOk(table) && InI64(a0) && InI64(b0)
      modifies this
      decreases depth, 1
      ensures g == old(g) && clock == old(clock) && clockReads == old(clockReads)
      ensures TableOk(table) && InI64(r)
      ensures Grows(old(table), table) && Within(old(table), table, depth)
      ensures G.state(g) != Going || depth == 0 ==> r == G.heuristic(g) && table == old(table)
      ensures G.state(g) == Going && depth > 0 && G.key(g) in old(table) && Hit(depth, old(table)[G.key(g)].1) ==>
        r == old(table)[G.key(g)].0 && table == old(table)
      ensures G.state(g) == Going && depth > 0 && !(G.key(g) in old(table) && Hit(depth, old(table)[G.key(g)].1)) ==>
        (if G.turn(g) then a0 <= r else r <= b0)
        && (depth > OldDepth(old(table), G.key(g)) && depth > 4 ==> G.key(g) in table && table[G.key(g)] == (r, depth))
    {
      if G.state(g) != Going || depth == 0 {
        return G.heuristic(g);
      }
      var key := G.key(g);
      var oldDepth := 0;
      if key in table {
        var x := table[key];
        if Hit(depth, x.1) {
          return x.0;
        }
        oldDepth := x.1;
      }
      r := Children(a0, b0, depth - 1);
      if depth > oldDepth && depth > 4 {
        table := table[key := (r, depth)];
      }
    }

    /** The child loop of `minimax` over every move, in key order, from the
     *  running result a0 on the max side and b0 on the min side. */
    method Children(a0: int, b0: int, d: nat) returns (r: int)
      requires StackLaws(G) && G.valid(g) && G.state(g) == Going && TableOk(table) && InI64(a0) && InI64(b0)
      modifies this
      decreases d + 1, 0
      ensures g == old(g) && clock == old(clock) && clockReads == old(clockReads)
      ensures TableOk(table) && InI64(r)
      ensures Grows(old(table), table) && Within(old(table), table, d)
      ensures if G.turn(g) then a0 <= r else r <= b0
    {
      var t := G.turn(g);
      var res := if t then a0 else b0;
      var ms := OrderedMoves(res);
      var a, b := a0, b0;
      var k := 0;
      while k < |ms|
        invariant 0 <= k <= |ms| && g == old(g) && clock == old(clock) && clockReads == old(clockReads)
        invariant TableOk(table) && Grows(old(table), table) && Within(old(table), table, d)
        invariant InI64(a) && InI64(b)
        invariant if t then res == a && a0 <= a else res == b && b <= b0
      {
        var h := Child(ms[k].1, a, b, d);
        if t {
          res := Max(res, h);
          a := Max(a, h);
        } else {
          res := Min(res, h);
          b := Min(b, h);
        }
        k := k + 1;
        if a >= b {
          break;
        }
      }
      r := res;
    }

    /** One child: the move is pushed, searched with the window, and popped. */
    method Child(m: M, a: int, b: int, d: nat) returns (h: int)
      requires StackLaws(G) && G.valid(g) && G.state(g) == Going && m in G.moves(g)
      requires TableOk(table) && InI64(a) && InI64(b)
      modifies this
      decreases d, 2
      ensures g == old(g) && clock == old(clock) && clockReads == old(clockReads)
      ensures TableOk(table) && InI64(h)
      ensures Grows(old(table), table) && Within(old(table), table, d)
    {
      StackChildLaw(G, g, m);
      g := G.mov(g, m);
      h := Minimax(a, b, d);
      g := G.undo(g);
    }

    /** `minimax_move`: the root search with the widest window over the first
     *  3 moves in key order (6 when depth is at most 3). The answer starts as
     *  the first generated move and becomes the first examined child that
     *  strictly beats the running result; the result is stored as in
     *  `minimax`. `ms` is the key order and `hs` the values of the examined
     *  children. */
    method MinimaxMove(depth: nat) returns (ans: M, ghost ms: seq<(int, M)>, ghost hs: seq<int>)
      requires StackLaws(G) && G.valid(g) && TableOk(table)
      requires G.state(g) == Going && depth >= 1 && |G.moves(g)| > 0
      modifies this
      ensures g == old(g) && clock == old(clock) && clockReads == old(clockReads)
      ensures TableOk(table) && Grows(old(table), table)
      ensures multiset(ms) == multiset(Keyed(G.moves(g), OrderKey(G, old(table), g, if G.turn(g) then I64_MIN else I64_MAX)))
      ensures SortedBy(ms, FstOf())
      ensures 0 < |hs| <= |ms| && |hs| <= (if depth > 3 then 3 else 6)
      ensures ans in G.moves(g)
      ensures var i := FirstBetter(G.turn(g), if G.turn(g) then I64_MIN else I64_MAX, hs);
        (i == -1 ==> ans == G.moves(g)[0]) && (i >= 0 ==> ans == ms[i].1)
      ensures var i := FirstBetter(G.turn(g), if G.turn(g) then I64_MIN else I64_MAX, hs);
        depth > OldDepth(old(table), G.key(g)) && depth > 4 ==>
        G.key(g) in table && table[G.key(g)] == (if i == -1 then (if G.turn(g) then I64_MIN else I64_MAX) else hs[i], depth)
    {
      var key := G.key(g);
      var oldDepth := OldDepth(table, key);
      var init := if G.turn(g) then I64_MIN else I64_MAX;
      var moves := G.moves(g);
      var order := OrderedMoves(init);
      ms := order;
      var res;
      ans, res, hs := RootChildren(order, if depth > 3 then 3 else 6, depth - 1, moves[0]);
      if depth > oldDepth && depth > 4 {
        table := table[key := (res, depth)];
      }
    }

    /** The child loop of `minimax_move` over the first `width` pairs of the
     *  key order: it answers the chosen move, the running result and the
     *  values of the examined children. */
    method RootChildren(order: seq<(int, M)>, width: nat, d: nat, fallback: M) returns (ans: M, res: int, hs: seq<int>)
      requires StackLaws(G) && G.valid(g) && G.state(g) == Going && TableOk(table)
      requires forall x :: x in order ==> x.1 in G.moves(g)
      requires |order| > 0 && width > 0 && fallback in G.moves(g)
      modifies this
      ensures g == old(g) && clock == old(clock) && clockReads == old(clockReads)
      ensures TableOk(table) && Grows(old(table), table) && Within(old(table), table, d)
      ensures 0 < |hs| <= |order| && |hs| <= width && ans in G.moves(g) && InI64(res)
      ensures var init := if G.turn(g) then I64_MIN else I64_MAX; var i := FirstBetter(G.turn(g), init, hs);
        (i == -1 ==> ans == fallback && res == init) && (i >= 0 ==> ans == order[i].1 && res == hs[i])
    {
      var t := G.turn(g);
      var a, b := I64_MIN, I64_MAX;
      var init := if t then a else b;
      res := init;
      ans := fallback;
      hs := [];
      ghost var best := -1;
      var k := 0;
      while k < |order| && k < width
        invariant 0 <= k <= |order| && k <= width && |hs| == k
        invariant g == old(g) && clock == old(clock) && clockReads == old(clockReads)
        invariant TableOk(table) && Grows(old(table), table) && Within(old(table), table, d)
        invariant InI64(a) && InI64(b) && InI64(res) && ans in G.moves(g)
        invariant if t then res == a && b == I64_MAX else res == b && a == I64_MIN
        invariant best == FirstBetter(t, init, hs)
        invariant best == -1 ==> ans == fallback && res == init
        invariant best >= 0 ==> ans == order[best].1 && res == hs[best]
      {
        var m := order[k].1;
        var h := Child(m, a, b, d);
        FirstBetterStep(t, init, hs, h);
        hs := hs + [h];
        best := FirstBetter(t, init, hs);
        if t {
          if h > res {
            res := h;
            ans := m;
          }
          a := Max(a, h);
        } else {
          if h < res {
            res := h;
            ans := m;
          }
          b := Min(b, h);
        }
        k := k + 1;
        if a >= b {
          break;
        }
      }
    }

    /** `get_mov`: search depth 1, then read the clock before each deeper
     *  search and stop at the first read that reports more than 250 ms; the
     *  answer is the move of the last search. `reached` is that last depth;
     *  a u32 depth ends the deepening at u32::MAX at the latest. */
    method GetMov(tl: nat -> bool) returns (ans: M, ghost reached: nat)
      requires StackLaws(G) && G.valid(g) && TableOk(table) && G.state(g) == Going && |G.moves(g)| > 0
      modifies this
      ensures g == old(g) && clock == tl && TableOk(table) && Grows(old(table), table)
      ensures ans in G.moves(g) && 1 <= reached <= U32_MAX
      ensures Quiet(tl, reached - 1)
      ensures reached < U32_MAX ==> clockReads == reached && tl(reached - 1)
    {
      clock := tl;
      clockReads := 0;
      var depth := 1;
      ans := Search(1);
      while depth < U32_MAX
        invariant 1 <= depth <= U32_MAX && clockReads == depth - 1
        invariant g == old(g) && clock == tl && TableOk(table) && Grows(old(table), table)
        invariant ans in G.moves(g)
        invariant Quiet(tl, depth - 1)
        decreases U32_MAX - depth
      {
        var over := clock(clockReads);
        clockReads := clockReads + 1;
        if over {
          break;
        }
        QuietStep(tl, depth - 1);
        depth := depth + 1;
        ans := Search(depth);
      }
      reached := depth;
    }

    /** One search of the deepening, with only what `get_mov` needs of it. */
    method Search(depth: nat) returns (ans: M)
      requires StackLaws(G) && G.valid(g) && TableOk(table) && G.state(g) == Going && |G.moves(g)| > 0 && depth >= 1
      modifies this
      ensures g == old(g) && clock == old(clock) && clockReads == old(clockReads)
      ensures TableOk(table) && Grows(old(table), table) && ans in G.moves(g)
    {
      ghost var ms, hs;
      ans, ms, hs := MinimaxMove(depth);
    }

    /** `mov`: the move is pushed onto the position; the table is kept. */
    method Mov(m: M)
      modifies this
      ensures g == G.mov(old(g), m)
      ensures table == old(table) && clockReads == old(clockReads)
    {
      g := G.mov(g, m);
    }
  }

  /** One more examined child: it becomes the choice exactly when it beats
   *  the running result. */
  lemma FirstBetterStep(t: bool, init: int, hs: seq<int>, h: int)
    ensures FirstBetter(t, init, hs + [h]) ==
      var i := FirstBetter(t, init, hs); if Better(t, h, if i == -1 then init else hs[i]) then |hs| else i
  {
    assert (hs + [h])[..|hs|] == hs;
  }
}
