/** The alpha-beta engine that keeps its search tree (src/minimax_final.rs).
 *  Every node remembers the value and the depth of its last search and its
 *  children, so that the next, one deeper, pass of the iterative deepening
 *  starts from the previous pass's move ordering, and a played move re-roots
 *  the tree at the matching child.
 *
 *  The tree is owned by the engine and handed to `minimax` by exclusive
 *  reference, so it is modelled as a value that the search takes and gives
 *  back. The clock is an oracle as in the plain engine: `clock(k)` is the
 *  k-th answer of "the time limit (less 20 ms) has passed". */
module MinimaxFinal {
  import opened Games
  import opened Sorting

  datatype Tree<M> = Tree(val: int, depth: nat, children: seq<(M, Tree<M>)>)

  datatype Option<T> = None | Some(value: T)

  /** `Tree::new`: value 0, depth 0, no children. */
  function Fresh<M>(): (t: Tree<M>)
    ensures t.val == 0 && t.depth == 0 && t.children == []
  {
    Tree(0, 0, [])
  }

  /** The tree invariant at position p: every value is an i64, the children
   *  of an expanded node are exactly the moves of p, each once per time it
   *  is generated, and each child's subtree fits the position it leads to. */
  ghost predicate Fits<P, M(!new), R, K>(G: TokenGame<P, M, R, K>, p: P, t: Tree<M>)
    decreases t
  {
    InI64(t.val)
    && (t.children == [] || multiset(Firsts(t.children)) == multiset(G.moves(p)))
    && forall i :: 0 <= i < |t.children| ==> Fits(G, G.mov(p, t.children[i].0), t.children[i].1)
  }

  /** The children to search, each fitting the position its move leads to,
   *  and their moves a permutation of the moves of p. */
  ghost predicate ChildrenFit<P, M(!new), R, K>(G: TokenGame<P, M, R, K>, p: P, cs: seq<(M, Tree<M>)>)
  {
    multiset(Firsts(cs)) == multiset(G.moves(p)) && SubtreesFit(G, p, cs)
  }

  ghost predicate SubtreesFit<P, M(!new), R, K>(G: TokenGame<P, M, R, K>, p: P, cs: seq<(M, Tree<M>)>)
  {
    forall i :: 0 <= i < |cs| ==> Fits(G, G.mov(p, cs[i].0), cs[i].1)
  }

  /** Replacing the subtree of child i by one that fits keeps the children
   *  fitting, with the same moves. */
  lemma FitUpdate<P, M(!new), R, K>(G: TokenGame<P, M, R, K>, p: P, cs: seq<(M, Tree<M>)>, i: nat, sub: Tree<M>)
    requires i < |cs| && SubtreesFit(G, p, cs) && Fits(G, G.mov(p, cs[i].0), sub)
    ensures SubtreesFit(G, p, cs[i := (cs[i].0, sub)])
    ensures Firsts(cs[i := (cs[i].0, sub)]) == Firsts(cs)
  {
    UpdateSecond(cs, i, sub);
  }

  /** A node whose value is a proven win or loss (beyond ±30000), or that was
   *  already searched this deep, is not searched again. */
  predicate Settled<M>(t: Tree<M>, depth: nat)
  {
    t.val > 30000 || t.val < -30000 || t.depth >= depth
  }

  /** A fresh node for every move. */
  function FreshChildren<M>(ms: seq<M>): (cs: seq<(M, Tree<M>)>)
    ensures Firsts(cs) == ms
    ensures forall i :: 0 <= i < |cs| ==> cs[i] == (ms[i], Fresh())
  {
    seq(|ms|, i requires 0 <= i < |ms| => (ms[i], Fresh()))
  }

  /** The sort key of a child: its value, negated on the max side so that
   *  the ascending sort puts the best value first. */
  function ValKey<M(!new)>(t: bool): (key: ((M, Tree<M>)) -> int)
    ensures forall c :: key(c) == if t then -c.1.val else c.1.val
  {
    (c: (M, Tree<M>)) => if t then -c.1.val else c.1.val
  }

  /** The children a search goes through: fresh nodes for the generated
   *  moves on the first visit, the old children re-sorted afterwards. */
  function Arrange<P, M(!new), R, K>(G: TokenGame<P, M, R, K>, p: P, t: Tree<M>): (cs: seq<(M, Tree<M>)>)
    ensures t.children == [] ==> cs == FreshChildren(G.moves(p))
    ensures t.children != [] ==> multiset(cs) == multiset(t.children) && SortedBy(cs, ValKey(G.turn(p)))
  {
    if t.children == [] then FreshChildren(G.moves(p)) else SortByKey(t.children, ValKey(G.turn(p)))
  }

  /** The children to search fit the position. */
  lemma ArrangeFits<P(!new), M(!new), R, K>(G: TokenGame<P, M, R, K>, p: P, t: Tree<M>)
    requires Fits(G, p, t)
    ensures ChildrenFit(G, p, Arrange(G, p, t))
  {
    var cs := Arrange(G, p, t);
    if t.children != [] {
      FirstsPerm(cs, t.children);
      forall i | 0 <= i < |cs| ensures Fits(G, G.mov(p, cs[i].0), cs[i].1) {
        assert cs[i] in multiset(t.children);
        var j :| 0 <= j < |t.children| && t.children[j] == cs[i];
      }
    }
  }

  /** The running a of a max node after the given children: the largest of
   *  a0 and their values. */
  function FoldMax<M>(a0: int, cs: seq<(M, Tree<M>)>): int
  {
    if cs == [] then a0 else Max(FoldMax(a0, cs[..|cs| - 1]), cs[|cs| - 1].1.val)
  }

  /** The max fold is the least upper bound of a0 and the children's
   *  values. */
  lemma {:induction false} FoldMaxBounds<M>(a0: int, cs: seq<(M, Tree<M>)>)
    ensures a0 <= FoldMax(a0, cs) && forall i :: 0 <= i < |cs| ==> cs[i].1.val <= FoldMax(a0, cs)
    ensures FoldMax(a0, cs) == a0 || exists i :: 0 <= i < |cs| && FoldMax(a0, cs) == cs[i].1.val
  {
    if cs != [] {
      var init := cs[..|cs| - 1];
      FoldMaxBounds(a0, init);
      assert forall i :: 0 <= i < |init| ==> init[i] == cs[i];
    }
  }

  /** The running b of a min node after the given children: the smallest of
   *  b0 and their values. */
  function FoldMin<M>(b0: int, cs: seq<(M, Tree<M>)>): int
  {
    if cs == [] then b0 else Min(FoldMin(b0, cs[..|cs| - 1]), cs[|cs| - 1].1.val)
  }

  /** The min fold is the greatest lower bound of b0 and the children's
   *  values. */
  lemma {:induction false} FoldMinBounds<M>(b0: int, cs: seq<(M, Tree<M>)>)
    ensures FoldMin(b0, cs) <= b0 && forall i :: 0 <= i < |cs| ==> FoldMin(b0, cs) <= cs[i].1.val
    ensures FoldMin(b0, cs) == b0 || exists i :: 0 <= i < |cs| && FoldMin(b0, cs) == cs[i].1.val
  {
    if cs != [] {
      var init := cs[..|cs| - 1];
      FoldMinBounds(b0, init);
      assert forall i :: 0 <= i < |init| ==> init[i] == cs[i];
    }
  }

  /** What a child loop did with the children cs0: it searched the first k
   *  of them, at least one when there are any, replacing their subtrees
   *  and keeping the rest, and v is the fold over the searched ones (a on
   *  the max side t, b on the min side). It stopped right after the first
   *  child that closed the window, or after the last child: the window was
   *  still open before child k - 1. */
  ghost predicate Searched<M>(t: bool, a0: int, b0: int, cs0: seq<(M, Tree<M>)>, cs: seq<(M, Tree<M>)>, k: nat, v: int)
  {
    k <= |cs0| && |cs| == |cs0| && Firsts(cs) == Firsts(cs0)
    && (forall i :: k <= i < |cs0| ==> cs[i] == cs0[i])
    && (|cs0| > 0 ==> k > 0)
    && v == (if t then FoldMax(a0, cs[..k]) else FoldMin(b0, cs[..k]))
    && (k < |cs0| ==> if t then v >= b0 else v <= a0)
    && (k > 1 ==> if t then FoldMax(a0, cs[..k - 1]) < b0 else a0 < FoldMin(b0, cs[..k - 1]))
  }

  /** Replacing the subtree of child i and folding up to it, max side. */
  lemma FoldMaxStep<M>(a0: int, cs: seq<(M, Tree<M>)>, i: nat, sub: Tree<M>)
    requires i < |cs|
    ensures FoldMax(a0, cs[i := (cs[i].0, sub)][..i + 1]) == Max(FoldMax(a0, cs[..i]), sub.val)
  {
    UpdatePrefix(cs, i, (cs[i].0, sub));
    assert (cs[..i] + [(cs[i].0, sub)])[..i] == cs[..i];
  }

  /** The same on the min side. */
  lemma FoldMinStep<M>(b0: int, cs: seq<(M, Tree<M>)>, i: nat, sub: Tree<M>)
    requires i < |cs|
    ensures FoldMin(b0, cs[i := (cs[i].0, sub)][..i + 1]) == Min(FoldMin(b0, cs[..i]), sub.val)
  {
    UpdatePrefix(cs, i, (cs[i].0, sub));
    assert (cs[..i] + [(cs[i].0, sub)])[..i] == cs[..i];
  }

  /** The max fold only grows with the prefix. */
  lemma {:induction false} FoldMaxMono<M>(a0: int, cs: seq<(M, Tree<M>)>, j: nat, n: nat)
    requires j <= n <= |cs|
    ensures FoldMax(a0, cs[..j]) <= FoldMax(a0, cs[..n])
    decreases n - j
  {
    if j < n {
      FoldMaxMono(a0, cs, j + 1, n);
      assert cs[..j + 1][..j] == cs[..j];
    }
  }

  /** The min fold only shrinks with the prefix. */
  lemma {:induction false} FoldMinMono<M>(b0: int, cs: seq<(M, Tree<M>)>, j: nat, n: nat)
    requires j <= n <= |cs|
    ensures FoldMin(b0, cs[..n]) <= FoldMin(b0, cs[..j])
    decreases n - j
  {
    if j < n {
      FoldMinMono(b0, cs, j + 1, n);
      assert cs[..j + 1][..j] == cs[..j];
    }
  }

  /** A child loop stops at the first child that closes the window: after
   *  none of the earlier children was the window closed. */
  lemma SearchedStops<M>(t: bool, a0: int, b0: int, cs0: seq<(M, Tree<M>)>, cs: seq<(M, Tree<M>)>, k: nat, v: int)
    requires Searched(t, a0, b0, cs0, cs, k, v)
    ensures forall j :: 1 <= j < k ==> if t then FoldMax(a0, cs[..j]) < b0 else a0 < FoldMin(b0, cs[..j])
    ensures k < |cs0| ==> if t then FoldMax(a0, cs[..k]) >= b0 else FoldMin(b0, cs[..k]) <= a0
  {
    forall j | 1 <= j < k ensures if t then FoldMax(a0, cs[..j]) < b0 else a0 < FoldMin(b0, cs[..j]) {
      if t {
        FoldMaxMono(a0, cs, j, k - 1);
      } else {
        FoldMinMono(b0, cs, j, k - 1);
      }
    }
  }

  /** The key of `max_by_key` at the root: the depth searched, then the
   *  value oriented for the side to move. */
  function Rank<M>(c: (M, Tree<M>), t: bool): (int, int)
  {
    (c.1.depth, if t then c.1.val else -c.1.val)
  }

  /** Lexicographic order of ranks. */
  predicate Above(x: (int, int), y: (int, int))
  {
    x.0 > y.0 || (x.0 == y.0 && x.1 > y.1)
  }

  /** `max_by_key`: the index of a child of greatest rank, the last one of
   *  them when several tie. */
  function LastMax<M>(cs: seq<(M, Tree<M>)>, t: bool): (i: nat)
    requires |cs| > 0
    ensures i < |cs|
    ensures forall j :: 0 <= j < |cs| ==> !Above(Rank(cs[j], t), Rank(cs[i], t))
    ensures forall j :: i < j < |cs| ==> Above(Rank(cs[i], t), Rank(cs[j], t))
  {
    if |cs| == 1 then 0
    else
      var i := LastMax(cs[..|cs| - 1], t);
      if Above(Rank(cs[i], t), Rank(cs[|cs| - 1], t)) then i else |cs| - 1
  }

  class MinimaxFinal<P(!new), M(==, !new), R, K> {
    const G: TokenGame<P, M, R, K>
    var g: P
    var curDepth: nat
    var tree: Tree<M>
    var nnw: bv8
    var clock: nat -> bool
    var clockReads: nat
    var endedEarly: bool

    /** `new`: the game's start position is passed in; the tree is fresh. */
    constructor (G: TokenGame<P, M, R, K>, start: P)
      ensures this.G == G && g == start && curDepth == 0 && tree == Fresh()
      ensures nnw == 0 && clockReads == 0 && !endedEarly
    {
      this.G := G;
      g := start;
      curDepth := 0;
      tree := Fresh();
      nnw := 0;
      clock := _ => false;
      clockReads := 0;
      endedEarly := false;
    }

    /** The budget check of a node that is searched: the counter wraps at
     *  256, the clock is read only when it has just wrapped to 0 and the
     *  search has not stopped yet, and a stop is sticky. */
    method Tick() returns (stop: bool)
      modifies this
      ensures nnw == old(nnw) + 1
      ensures stop == (old(endedEarly) || (nnw == 0 && clock(old(clockReads))))
      ensures clockReads == old(clockReads) + (if !old(endedEarly) && nnw == 0 then 1 else 0)
      ensures endedEarly == stop
      ensures g == old(g) && clock == old(clock) && tree == old(tree) && curDepth == old(curDepth)
    {
      nnw := nnw + 1;
      if endedEarly {
        stop := true;
      } else if nnw == 0 {
        stop := clock(clockReads);
        clockReads := clockReads + 1;
        endedEarly := stop;
      } else {
        stop := false;
      }
    }

    /** `minimax` on the node t, which it gives back updated as r. A decided
     *  position or depth 0 stores the heuristic and the depth. A settled
     *  node, or a stop at this node's own budget check, gives t back
     *  untouched. Otherwise the node searches `order`, the arranged
     *  children, in turn until the first one that closes the window, and stores the running a
     *  (max side) or b (min side) and the depth, even when the search
     *  stopped on the way; the children past the k examined ones are kept
     *  as they were. */
    method Minimax(a0: int, b0: int, depth: nat, t: Tree<M>) returns (r: Tree<M>, ghost order: seq<(M, Tree<M>)>, ghost k: nat)
      requires TokenLaws(G) && G.valid(g) && Fits(G, g, t) && InI64(a0) && InI64(b0)
      modifies this
      decreases depth, 4
      ensures g == old(g) && clock == old(clock) && tree == old(tree) && curDepth == old(curDepth)
      ensures old(endedEarly) ==> endedEarly
      ensures Fits(G, g, r)
      ensures G.state(g) != Going || depth == 0 ==>
        r == t.(val := G.heuristic(g), depth := depth)
        && nnw == old(nnw) && clockReads == old(clockReads) && endedEarly == old(endedEarly)
      ensures G.state(g) == Going && depth > 0 && Settled(t, depth) ==>
        r == t && nnw == old(nnw) && clockReads == old(clockReads) && endedEarly == old(endedEarly)
      ensures (G.state(g) == Going && depth > 0 && !Settled(t, depth)
        && (old(endedEarly) || (old(nnw) + 1 == 0 && clock(old(clockReads))))) ==>
        r == t && endedEarly
      ensures (G.state(g) == Going && depth > 0 && !Settled(t, depth)
        && !(old(endedEarly) || (old(nnw) + 1 == 0 && clock(old(clockReads))))) ==>
        order == Arrange(G, g, t) && r.depth == depth && Searched(G.turn(g), a0, b0, order, r.children, k, r.val)
    {
      order, k := [], 0;
      if G.state(g) != Going || depth == 0 {
        r := t.(val := G.heuristic(g), depth := depth);
        return;
      }
      if Settled(t, depth) {
        r := t;
        return;
      }
      var stop := Tick();
      if stop {
        r := t;
        return;
      }
      var cs := Arrange(G, g, t);
      ArrangeFits(G, g, t);
      order := cs;
      var v;
      if G.turn(g) {
        cs, v, k := MaxChildren(a0, b0, depth - 1, cs);
      } else {
        cs, v, k := MinChildren(a0, b0, depth - 1, cs);
      }
      r := Tree(v, depth, cs);
    }

    /** The child loop of `minimax` on the max side: each child is searched
     *  with the current window and replaced by its updated subtree, raising
     *  a; the loop stops right after the first child that closes the
     *  window, or after the last child. */
    method MaxChildren(a0: int, b0: int, d: nat, cs0: seq<(M, Tree<M>)>) returns (cs: seq<(M, Tree<M>)>, v: int, ghost k: nat)
      requires TokenLaws(G) && G.valid(g) && G.state(g) == Going && ChildrenFit(G, g, cs0)
      requires InI64(a0) && InI64(b0)
      modifies this
      decreases d + 1, 3
      ensures g == old(g) && clock == old(clock) && tree == old(tree) && curDepth == old(curDepth)
      ensures old(endedEarly) ==> endedEarly
      ensures ChildrenFit(G, g, cs) && InI64(v)
      ensures Searched(true, a0, b0, cs0, cs, k, v)
    {
      var a := a0;
      cs := cs0;
      var i := 0;
      while i < |cs|
        invariant 0 <= i <= |cs| == |cs0| && Firsts(cs) == Firsts(cs0)
        invariant g == old(g) && clock == old(clock) && tree == old(tree) && curDepth == old(curDepth)
        invariant old(endedEarly) ==> endedEarly
        invariant SubtreesFit(G, g, cs)
        invariant forall j :: i <= j < |cs| ==> cs[j] == cs0[j]
        invariant a == FoldMax(a0, cs[..i]) && InI64(a)
        invariant i > 0 ==> a < b0
        invariant i > 1 ==> FoldMax(a0, cs[..i - 1]) < b0
      {
        ghost var j := i;
        cs, a := VisitMax(cs, i, a0, a, b0, d);
        i := i + 1;
        assert i - 1 == j;
        assert i > 1 ==> FoldMax(a0, cs[..i - 1]) < b0;
        if a >= b0 {
          break;
        }
      }
      k := i;
      v := a;
    }

    /** The child loop of `minimax` on the min side: each child is searched
     *  with the current window and replaced by its updated subtree, raising
     *  b; the loop stops right after the first child that closes the
     *  window, or after the last child. */
    method MinChildren(a0: int, b0: int, d: nat, cs0: seq<(M, Tree<M>)>) returns (cs: seq<(M, Tree<M>)>, v: int, ghost k: nat)
      requires TokenLaws(G) && G.valid(g) && G.state(g) == Going && ChildrenFit(G, g, cs0)
      requires InI64(a0) && InI64(b0)
      modifies this
      decreases d + 1, 3
      ensures g == old(g) && clock == old(clock) && tree == old(tree) && curDepth == old(curDepth)
      ensures old(endedEarly) ==> endedEarly
      ensures ChildrenFit(G, g, cs) && InI64(v)
      ensures Searched(false, a0, b0, cs0, cs, k, v)
    {
      var b := b0;
      cs := cs0;
      var i := 0;
      while i < |cs|
        invariant 0 <= i <= |cs| == |cs0| && Firsts(cs) == Firsts(cs0)
        invariant g == old(g) && clock == old(clock) && tree == old(tree) && curDepth == old(curDepth)
        invariant old(endedEarly) ==> endedEarly
        invariant SubtreesFit(G, g, cs)
        invariant forall j :: i <= j < |cs| ==> cs[j] == cs0[j]
        invariant b == FoldMin(b0, cs[..i]) && InI64(b)
        invariant i > 0 ==> a0 < b
        invariant i > 1 ==> a0 < FoldMin(b0, cs[..i - 1])
      {
        ghost var j := i;
        cs, b := VisitMin(cs, i, a0, b0, b, d);
        i := i + 1;
        assert i - 1 == j;
        assert i > 1 ==> a0 < FoldMin(b0, cs[..i - 1]);
        if a0 >= b {
          break;
        }
      }
      k := i;
      v := b;
    }

    /** One turn of the max loop: child i is searched with the window
     *  (a, b0) and replaced, and a rises to the fold up to it. */
    method VisitMax(cs0: seq<(M, Tree<M>)>, i: nat, a0: int, a: int, b0: int, d: nat) returns (cs: seq<(M, Tree<M>)>, a1: int)
      requires TokenLaws(G) && G.valid(g) && G.state(g) == Going && i < |cs0|
      requires multiset(Firsts(cs0)) == multiset(G.moves(g)) && SubtreesFit(G, g, cs0)
      requires InI64(a) && InI64(b0) && a == FoldMax(a0, cs0[..i])
      modifies this
      decreases d + 1, 2
      ensures g == old(g) && clock == old(clock) && tree == old(tree) && curDepth == old(curDepth)
      ensures old(endedEarly) ==> endedEarly
      ensures |cs| == |cs0| && cs == cs0[i := (cs0[i].0, cs[i].1)] && InI64(a1)
      ensures SubtreesFit(G, g, cs) && Firsts(cs) == Firsts(cs0)
      ensures FoldMax(a0, cs[..i]) == a && a1 == FoldMax(a0, cs[..i + 1])
    {
      var h;
      cs, h := Visit(cs0, i, a, b0, d);
      FoldMaxStep(a0, cs0, i, cs[i].1);
      assert cs[..i] == cs0[..i];
      a1 := Max(a, h);
    }

    /** One turn of the min loop: child i is searched with the window
     *  (a0, b) and replaced, and b falls to the fold up to it. */
    method VisitMin(cs0: seq<(M, Tree<M>)>, i: nat, a0: int, b0: int, b: int, d: nat) returns (cs: seq<(M, Tree<M>)>, b1: int)
      requires TokenLaws(G) && G.valid(g) && G.state(g) == Going && i < |cs0|
      requires multiset(Firsts(cs0)) == multiset(G.moves(g)) && SubtreesFit(G, g, cs0)
      requires InI64(a0) && InI64(b) && b == FoldMin(b0, cs0[..i])
      modifies this
      decreases d + 1, 2
      ensures g == old(g) && clock == old(clock) && tree == old(tree) && curDepth == old(curDepth)
      ensures old(endedEarly) ==> endedEarly
      ensures |cs| == |cs0| && cs == cs0[i := (cs0[i].0, cs[i].1)] && InI64(b1)
      ensures SubtreesFit(G, g, cs) && Firsts(cs) == Firsts(cs0)
      ensures FoldMin(b0, cs[..i]) == b && b1 == FoldMin(b0, cs[..i + 1])
    {
      var h;
      cs, h := Visit(cs0, i, a0, b, d);
      FoldMinStep(b0, cs0, i, cs[i].1);
      assert cs[..i] == cs0[..i];
      b1 := Min(b, h);
    }

    /** The loop body of `minimax`: child i is searched and its subtree
     *  replaced; h is its new value. */
    method Visit(cs0: seq<(M, Tree<M>)>, i: nat, a: int, b: int, d: nat) returns (cs: seq<(M, Tree<M>)>, h: int)
      requires TokenLaws(G) && G.valid(g) && G.state(g) == Going && i < |cs0|
      requires multiset(Firsts(cs0)) == multiset(G.moves(g)) && SubtreesFit(G, g, cs0)
      requires InI64(a) && InI64(b)
      modifies this
      decreases d + 1, 1
      ensures g == old(g) && clock == old(clock) && tree == old(tree) && curDepth == old(curDepth)
      ensures old(endedEarly) ==> endedEarly
      ensures |cs| == |cs0| && cs == cs0[i := (cs0[i].0, cs[i].1)] && h == cs[i].1.val && InI64(h)
      ensures SubtreesFit(G, g, cs) && Firsts(cs) == Firsts(cs0)
    {
      var m := cs0[i].0;
      assert m in multiset(G.moves(g)) by {
        assert Firsts(cs0)[i] == m;
      }
      assert Fits(G, G.mov(g, m), cs0[i].1);
      var sub := Step(m, cs0[i].1, a, b, d);
      FitUpdate(G, g, cs0, i, sub);
      cs := cs0[i := (m, sub)];
      h := sub.val;
    }

    /** One child: the move is made with its token, its subtree searched and
     *  the move undone. */
    method Step(m: M, sub: Tree<M>, a: int, b: int, d: nat) returns (r: Tree<M>)
      requires TokenLaws(G) && G.valid(g) && G.state(g) == Going && m in G.moves(g)
      requires Fits(G, G.mov(g, m), sub) && InI64(a) && InI64(b)
      modifies this
      decreases d + 1, 0
      ensures g == old(g) && clock == old(clock) && tree == old(tree) && curDepth == old(curDepth)
      ensures old(endedEarly) ==> endedEarly
      ensures Fits(G, G.mov(g, m), r)
    {
      TokenChildLaw(G, g, m);
      var (q, rb) := G.movR(g, m);
      g := q;
      ghost var order, k;
      r, order, k := Minimax(a, b, d, sub);
      g := G.undo(g, rb);
    }

    /** `get_mov`: deepen from the stored tree while its root value is not a
     *  proven result and the search did not stop, then step `cur_depth`
     *  back if the last pass stopped, keep the tree and answer the root
     *  child of greatest (depth, value) rank, the last of equals. An
     *  unexpanded root has no child to answer: that is the panic of
     *  `unwrap`, modelled as None. `cur_depth` is a u32, so the deepening
     *  ends at u32::MAX at the latest; `passes` counts the passes. */
    method GetMov(tl: nat -> bool) returns (ans: Option<M>, ghost passes: nat)
      requires TokenLaws(G) && G.valid(g) && Fits(G, g, tree) && curDepth <= U32_MAX
      modifies this
      ensures g == old(g) && clock == tl && Fits(G, g, tree) && curDepth <= U32_MAX
      ensures endedEarly || tree.val <= -30000 || tree.val >= 30000 || old(curDepth) + passes == U32_MAX
      ensures curDepth == old(curDepth) + passes - (if endedEarly && old(curDepth) + passes != 0 then 1 else 0)
      ensures tree.children == [] <==> ans == None
      ensures ans.Some? ==> ans.value == tree.children[LastMax(tree.children, G.turn(g))].0
    {
      clock := tl;
      clockReads := 0;
      endedEarly := false;
      var t := tree;
      passes := 0;
      while -30000 < t.val < 30000 && !endedEarly && curDepth < U32_MAX
        invariant g == old(g) && clock == tl && Fits(G, g, t)
        invariant curDepth == old(curDepth) + passes <= U32_MAX
        decreases U32_MAX - curDepth
      {
        curDepth := curDepth + 1;
        ghost var order, k;
        t, order, k := Minimax(I64_MIN, I64_MAX, curDepth, t);
        passes := passes + 1;
      }
      if endedEarly && curDepth != 0 {
        curDepth := curDepth - 1;
      }
      if t.children == [] {
        ans := None;
      } else {
        ans := Some(t.children[LastMax(t.children, G.turn(g))].0);
      }
      tree := t;
    }

    /** `mov`: the tree becomes the subtree of the first child played with
     *  m, or a fresh node when there is none; `cur_depth` goes down by one,
     *  stopping at 0; the move is played. */
    method Mov(m: M)
      modifies this
      ensures g == G.mov(old(g), m)
      ensures curDepth == if old(curDepth) != 0 then old(curDepth) - 1 else 0
      ensures (exists i :: 0 <= i < |old(tree).children| && old(tree).children[i].0 == m
                && tree == old(tree).children[i].1
                && forall j :: 0 <= j < i ==> old(tree).children[j].0 != m)
        || ((forall i :: 0 <= i < |old(tree).children| ==> old(tree).children[i].0 != m) && tree == Fresh())
      ensures old(Fits(G, g, tree)) ==> Fits(G, g, tree)
    {
      var cs := tree.children;
      tree := Fresh();
      var i := 0;
      while i < |cs|
        invariant 0 <= i <= |cs| && tree == Fresh()
        invariant forall j :: 0 <= j < i ==> cs[j].0 != m
      {
        if cs[i].0 == m {
          tree := cs[i].1;
          break;
        }
        i := i + 1;
      }
      if curDepth != 0 {
        curDepth := curDepth - 1;
      }
      g := G.mov(g, m);
    }
  }
}
