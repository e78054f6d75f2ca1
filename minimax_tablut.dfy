/** The alpha-beta engine specialised to Tablut with draws
 *  (src/minimax_tablut.rs): its own evaluation `heur`, which prefers
 *  faster wins and slower losses, the plain fail-hard search over the
 *  sorted moves, a root search without cutoff that keeps statistics of the
 *  moves it sees and the moves it picks, and a deepening loop on a clock of
 *  100 ms (elapsed milliseconds times 20 above 2000).
 *
 *  The statistics are arrays of usize counters, modelled as unbounded
 *  naturals: `mftot` and `mdftot` count the root moves seen, by the pair of
 *  cells and by the distance moved, `mf` and `mdf` the moves chosen. */
module MinimaxTablut {
  import opened Games
  import opened TablutWithDraw

  /** 2^32, as an int, the bound of every evaluation below. */
  const LIM: int := 0x1_0000_0000

  /** `heur`: a win scores 32768 less the turn counter, a loss -32768 plus
   *  it, a draw 0, and a game going the same as the game's heuristic. */
  function Heur(p: Pos): (h: int)
    requires Wf(p)
    ensures -LIM < h < LIM
    ensures p.state == Going ==> h == Heuristic(p)
  {
    match p.state
    case Win => 32768 - p.turn
    case Lose => -32768 + p.turn
    case Draw => 0
    case Going => Heuristic(p)
  }

  /** A win in fewer turns scores higher, a loss in fewer turns lower, and
   *  within the first 32768 turns a win scores above a draw, which scores
   *  above a loss. */
  lemma FasterWinsHigher(p: Pos, q: Pos)
    requires Wf(p) && Wf(q) && p.turn < q.turn
    ensures p.state == Win && q.state == Win ==> Heur(p) > Heur(q)
    ensures p.state == Lose && q.state == Lose ==> Heur(p) < Heur(q)
    ensures q.turn < 32768 && p.state == Draw ==> (q.state == Win ==> Heur(q) > Heur(p)) && (q.state == Lose ==> Heur(q) < Heur(p))
  {
  }

  /** Tablut with draws evaluated by `heur`. */
  function HeurGame(): TokenGame<Pos, (nat, nat), Token, (seq<Tile>, bool)>
  {
    TokenInstance().(heuristic := (p: Pos) => if Wf(p) then Heur(p) else 0)
  }

  /** The laws hold with `heur`, every reference value lies strictly
   *  between -2^32 and 2^32, and a game going always has a move. */
  lemma HeurLawful()
    ensures TokenLaws(HeurGame())
    ensures forall q | HeurGame().valid(q) && HeurGame().state(q) == Going :: |HeurGame().movesSorted(q)| > 0
    ensures forall q | HeurGame().valid(q) :: -LIM < HeurGame().heuristic(q) < LIM
  {
    InstanceLawful();
    var G, T := HeurGame(), TokenInstance();
    assert forall p :: G.moves(p) == T.moves(p) && G.movesSorted(p) == T.movesSorted(p);
    forall q | G.valid(q) && G.state(q) == Going ensures |G.movesSorted(q)| > 0 {
      MovesNonEmpty(q);
    }
  }

  lemma MovesNonEmpty(p: Pos)
    requires Wf(p)
    ensures |MovesSorted(p)| > 0
  {
    assert |Moves(p)| > 0;
    assert |multiset(MovesSorted(p))| == |multiset(Moves(p))|;
  }

  type Game = TokenGame<Pos, (nat, nat), Token, (seq<Tile>, bool)>

  /** What the engine uses of the game it plays: the laws, and at every
   *  position and move the facts of `LinkedAt` and `MoveLinked`. */
  ghost predicate Linked(G: Game)
  {
    && TokenLaws(G)
    && (forall q :: LinkedAt(G, q))
    && (forall q, m :: MoveLinked(G, q, m))
  }

  /** The positions, sides, states and sorted moves of G are those of
   *  Tablut with draws, and its evaluation is `heur`. */
  ghost predicate LinkedAt(G: Game, q: Pos)
  {
    && (G.valid(q) <==> Wf(q) && (q.state == Going ==> KingSafe(q.board)))
    && (Wf(q) ==> G.state(q) == q.state && G.turn(q) == Turn(q))
    && (Wf(q) ==> G.movesSorted(q) == MovesSorted(q) && G.heuristic(q) == Heur(q))
  }

  /** An allowed move of G is the board's move, with the board's token. */
  ghost predicate MoveLinked(G: Game, q: Pos, m: (nat, nat))
  {
    MovOk(q, m) ==> G.movR(q, m) == MovR(q, m)
  }

  lemma HeurLinked()
    ensures Linked(HeurGame())
  {
    HeurLawful();
  }

  /** The reference value of a valid position under `heur` is far from the
   *  ends of i64. */
  lemma LinkedBounded(G: Game, p: Pos, d: nat)
    requires Linked(G) && G.valid(p)
    ensures -LIM < Minimax(G, p, d) < LIM
  {
    forall q | G.valid(q) ensures -LIM < G.heuristic(q) < LIM {
      assert LinkedAt(G, q);
    }
    forall q | G.valid(q) && G.state(q) == Going ensures |G.movesSorted(q)| > 0 {
      assert LinkedAt(G, q);
      MovesNonEmpty(q);
    }
    MinimaxBounded(G, p, d, -LIM + 1, LIM - 1);
  }

  /** A child of a valid position still being played is valid, and its
   *  value is far from the ends of i64. */
  lemma ChildBounded(G: Game, p: Pos, m: (nat, nat), d: nat)
    requires Linked(G) && G.valid(p) && G.state(p) == Going && m in G.movesSorted(p)
    ensures G.valid(G.movR(p, m).0)
    ensures InI64(ChildValue(G, p, m, d)) && -LIM < ChildValue(G, p, m, d) < LIM
  {
    ChildLaw(G, p, m, d);
    LinkedBounded(G, G.movR(p, m).0, d);
  }

  /** A sorted move of a valid position still being played is allowed on
   *  the board, moves as the board moves and is undone by its token. */
  lemma LinkedChild(G: Game, p: Pos, m: (nat, nat))
    requires Linked(G) && G.valid(p) && G.state(p) == Going && m in G.movesSorted(p)
    ensures MovOk(p, m) && G.movR(p, m) == MovR(p, m)
    ensures RollbackSpec(MovR(p, m).0, MovR(p, m).1) == p
  {
    assert LinkedAt(G, p);
    assert m in multiset(Moves(p));
    MoveLawful(p, m);
    assert MoveLinked(G, p, m);
  }

  /** The cells of a generated move are on the board and it moves fewer
   *  than 9 steps. */
  lemma SortedCells(p: Pos)
    requires Wf(p)
    ensures forall m :: m in MovesSorted(p) ==> m.0 < CELLS && m.1 < CELLS && MoveDist(m) < 9
  {
    forall m | m in MovesSorted(p) ensures m.0 < CELLS && m.1 < CELLS && MoveDist(m) < 9 {
      assert m in multiset(Moves(p));
      MovesDist(p, m);
      MovesAreSlides(p);
      if m != (40, 40) {
        SlideFacts(p.board, OneSide(Turn(p)), m);
      }
    }
  }

  /** The counter index of a move: 81 times its first cell plus its second,
   *  on unbounded integers. */
  function Index(m: (nat, nat)): nat
  {
    81 * m.0 + m.1
  }

  /** Different moves on the board have different indices, all below 81 * 81. */
  lemma IndexInjective(m: (nat, nat), n: (nat, nat))
    requires m.0 < CELLS && m.1 < CELLS && n.0 < CELLS && n.1 < CELLS
    ensures Index(m) < 6561
    ensures Index(m) == Index(n) ==> m == n
  {
  }

  /** The index as written: `m.0 * 81 + m.1` is computed on u8, so it wraps
   *  modulo 256 before it is cast to usize. */
  function IndexAsWritten(m: (nat, nat)): nat
  {
    (81 * m.0 + m.1) % 256
  }

  /** As written, the vertical slide 3 -> 21 and the horizontal slide 0 -> 8
   *  share the counter 8, and no move reaches a counter past 255. */
  lemma IndexCollisionAsWritten()
    ensures IndexAsWritten((3, 21)) == IndexAsWritten((0, 8)) == 8
    ensures Index((3, 21)) != Index((0, 8))
    ensures forall m :: IndexAsWritten(m) < 256
  {
  }

  /** The indices and the distances of a list of moves. */
  function Indices(ms: seq<(nat, nat)>): (r: seq<nat>)
    ensures |r| == |ms| && forall j :: 0 <= j < |ms| ==> r[j] == Index(ms[j])
  {
    seq(|ms|, j requires 0 <= j < |ms| => Index(ms[j]))
  }

  function Dists(ms: seq<(nat, nat)>): (r: seq<nat>)
    ensures |r| == |ms| && forall j :: 0 <= j < |ms| ==> r[j] == MoveDist(ms[j])
  {
    seq(|ms|, j requires 0 <= j < |ms| => MoveDist(ms[j]))
  }

  predicate Below(ix: seq<nat>, n: nat)
  {
    forall j :: 0 <= j < |ix| ==> ix[j] < n
  }

  /** The counters s after one increment at each of the indices in turn. */
  function Bumped(s: seq<nat>, ix: seq<nat>): (r: seq<nat>)
    requires Below(ix, |s|)
    ensures |r| == |s|
  {
    if ix == [] then s
    else
      var r0 := Bumped(s, ix[..|ix| - 1]);
      var i := ix[|ix| - 1];
      r0[i := r0[i] + 1]
  }

  /** Each counter goes up by the number of times its index occurs. */
  lemma {:induction false} BumpedCounts(s: seq<nat>, ix: seq<nat>, i: nat)
    requires Below(ix, |s|) && i < |s|
    ensures Bumped(s, ix)[i] == s[i] + multiset(ix)[i]
    decreases |ix|
  {
    if ix != [] {
      var init := ix[..|ix| - 1];
      assert ix == init + [ix[|ix| - 1]];
      BumpedCounts(s, init, i);
    }
  }

  /** Increments at a then at b are increments at a + b. */
  lemma {:induction false} BumpedAppend(s: seq<nat>, a: seq<nat>, b: seq<nat>)
    requires Below(a, |s|) && Below(b, |s|)
    ensures Below(a + b, |s|) && Below(b, |Bumped(s, a)|)
    ensures Bumped(Bumped(s, a), b) == Bumped(s, a + b)
    decreases |b|
  {
    if b != [] {
      var init, i := b[..|b| - 1], b[|b| - 1];
      assert (a + b)[..|a + b| - 1] == a + init;
      BumpedAppend(s, a, init);
    } else {
      assert a + b == a;
    }
  }

  /** Every move of ms is on the board and moves fewer than 9 steps. */
  predicate OnBoard(ms: seq<(nat, nat)>)
  {
    forall j :: 0 <= j < |ms| ==> ms[j].0 < CELLS && ms[j].1 < CELLS
  }

  /** One move of a list on the board, on its own. */
  lemma OnBoardAt(ms: seq<(nat, nat)>, i: nat)
    requires OnBoard(ms) && i < |ms|
    ensures OnBoard([ms[i]])
  {
    assert [ms[i]][0] == ms[i];
  }

  /** A move on the board moves fewer than 9 steps. */
  lemma DistBelow(m: (nat, nat))
    requires m.0 < CELLS && m.1 < CELLS
    ensures MoveDist(m) < 9
  {
  }

  /** The indices of moves on the board are below 81 * 81 and their
   *  distances below 9. */
  lemma OnBoardBelow(ms: seq<(nat, nat)>)
    requires OnBoard(ms)
    ensures Below(Indices(ms), 6561) && Below(Dists(ms), 9)
  {
    forall j | 0 <= j < |ms| ensures Indices(ms)[j] < 6561 && Dists(ms)[j] < 9 {
      IndexInjective(ms[j], ms[j]);
      DistBelow(ms[j]);
    }
  }

  /** The four statistics arrays, as values. */
  datatype Counters = Counters(mf: seq<nat>, mftot: seq<nat>, mdf: seq<nat>, mdftot: seq<nat>)

  predicate Sized(c: Counters)
  {
    |c.mf| == 6561 && |c.mftot| == 6561 && |c.mdf| == 9 && |c.mdftot| == 9
  }

  /** The counters c after the root moves `seen` and the chosen moves
   *  `chosen` are counted. */
  function After(c: Counters, seen: seq<(nat, nat)>, chosen: seq<(nat, nat)>): (r: Counters)
    requires Sized(c) && OnBoard(seen) && OnBoard(chosen)
    ensures Sized(r)
  {
    OnBoardBelow(seen);
    OnBoardBelow(chosen);
    Counters(Bumped(c.mf, Indices(chosen)), Bumped(c.mftot, Indices(seen)),
             Bumped(c.mdf, Dists(chosen)), Bumped(c.mdftot, Dists(seen)))
  }

  /** Counting nothing changes nothing. */
  lemma AfterNone(c: Counters)
    requires Sized(c)
    ensures After(c, [], []) == c
  {
    assert Indices([]) == [] && Dists([]) == [];
  }

  /** Counting one move seen, or one move chosen, raises one counter at its
   *  index and one at its distance. */
  lemma AfterOne(c: Counters, m: (nat, nat))
    requires Sized(c) && OnBoard([m])
    ensures Index(m) < 6561 && MoveDist(m) < 9
    ensures After(c, [m], []) == c.(mftot := c.mftot[Index(m) := c.mftot[Index(m)] + 1],
                                    mdftot := c.mdftot[MoveDist(m) := c.mdftot[MoveDist(m)] + 1])
    ensures After(c, [], [m]) == c.(mf := c.mf[Index(m) := c.mf[Index(m)] + 1],
                                    mdf := c.mdf[MoveDist(m) := c.mdf[MoveDist(m)] + 1])
  {
    assert [m][0] == m;
    IndexInjective(m, m);
    DistBelow(m);
    assert Indices([m]) == [Index(m)] && Dists([m]) == [MoveDist(m)];
    assert Indices([]) == [] && Dists([]) == [];
    assert [Index(m)][..0] == [] && [MoveDist(m)][..0] == [];
    assert Bumped(c.mftot, [Index(m)]) == c.mftot[Index(m) := c.mftot[Index(m)] + 1];
    assert Bumped(c.mdftot, [MoveDist(m)]) == c.mdftot[MoveDist(m) := c.mdftot[MoveDist(m)] + 1];
    assert Bumped(c.mf, []) == c.mf && Bumped(c.mdf, []) == c.mdf;
    assert After(c, [m], []) == Counters(c.mf, Bumped(c.mftot, [Index(m)]), c.mdf, Bumped(c.mdftot, [MoveDist(m)]));
  }

  /** Each counter goes up by the number of counted moves with its index or
   *  its distance. */
  lemma AfterCounts(c: Counters, seen: seq<(nat, nat)>, chosen: seq<(nat, nat)>)
    requires Sized(c) && OnBoard(seen) && OnBoard(chosen)
    ensures forall i :: 0 <= i < 6561 ==> After(c, seen, chosen).mftot[i] == c.mftot[i] + multiset(Indices(seen))[i]
    ensures forall i :: 0 <= i < 6561 ==> After(c, seen, chosen).mf[i] == c.mf[i] + multiset(Indices(chosen))[i]
    ensures forall i :: 0 <= i < 9 ==> After(c, seen, chosen).mdftot[i] == c.mdftot[i] + multiset(Dists(seen))[i]
    ensures forall i :: 0 <= i < 9 ==> After(c, seen, chosen).mdf[i] == c.mdf[i] + multiset(Dists(chosen))[i]
  {
    OnBoardBelow(seen);
    OnBoardBelow(chosen);
    var r := After(c, seen, chosen);
    forall i | 0 <= i < 6561
      ensures r.mftot[i] == c.mftot[i] + multiset(Indices(seen))[i]
      ensures r.mf[i] == c.mf[i] + multiset(Indices(chosen))[i]
    {
      BumpedCounts(c.mftot, Indices(seen), i);
      BumpedCounts(c.mf, Indices(chosen), i);
    }
    forall i | 0 <= i < 9
      ensures r.mdftot[i] == c.mdftot[i] + multiset(Dists(seen))[i]
      ensures r.mdf[i] == c.mdf[i] + multiset(Dists(chosen))[i]
    {
      BumpedCounts(c.mdftot, Dists(seen), i);
      BumpedCounts(c.mdf, Dists(chosen), i);
    }
  }

  /** Counting in two goes is counting once. */
  lemma AfterAppend(c: Counters, s1: seq<(nat, nat)>, c1: seq<(nat, nat)>, s2: seq<(nat, nat)>, c2: seq<(nat, nat)>)
    requires Sized(c) && OnBoard(s1) && OnBoard(c1) && OnBoard(s2) && OnBoard(c2)
    ensures OnBoard(s1 + s2) && OnBoard(c1 + c2)
    ensures After(After(c, s1, c1), s2, c2) == After(c, s1 + s2, c1 + c2)
  {
    assert OnBoard(s1 + s2) by {
      forall j | 0 <= j < |s1 + s2| ensures (s1 + s2)[j].0 < CELLS && (s1 + s2)[j].1 < CELLS {
        if j >= |s1| { assert (s1 + s2)[j] == s2[j - |s1|]; }
      }
    }
    assert OnBoard(c1 + c2) by {
      forall j | 0 <= j < |c1 + c2| ensures (c1 + c2)[j].0 < CELLS && (c1 + c2)[j].1 < CELLS {
        if j >= |c1| { assert (c1 + c2)[j] == c2[j - |c1|]; }
      }
    }
    assert Indices(s1 + s2) == Indices(s1) + Indices(s2);
    assert Indices(c1 + c2) == Indices(c1) + Indices(c2);
    assert Dists(s1 + s2) == Dists(s1) + Dists(s2);
    assert Dists(c1 + c2) == Dists(c1) + Dists(c2);
    OnBoardBelow(s1);
    OnBoardBelow(s2);
    OnBoardBelow(c1);
    OnBoardBelow(c2);
    BumpedAppend(c.mf, Indices(c1), Indices(c2));
    BumpedAppend(c.mftot, Indices(s1), Indices(s2));
    BumpedAppend(c.mdf, Dists(c1), Dists(c2));
    BumpedAppend(c.mdftot, Dists(s1), Dists(s2));
  }

  /** ms, n times over: the root moves of n searches of one position. */
  function Repeat(ms: seq<(nat, nat)>, n: nat): (r: seq<(nat, nat)>)
    ensures OnBoard(ms) ==> OnBoard(r)
  {
    if n == 0 then [] else
      var r0 := Repeat(ms, n - 1);
      assert OnBoard(ms) ==> OnBoard(r0 + ms) by {
        if OnBoard(ms) && OnBoard(r0) {
          forall j | 0 <= j < |r0 + ms| ensures (r0 + ms)[j].0 < CELLS && (r0 + ms)[j].1 < CELLS {
            if j >= |r0| { assert (r0 + ms)[j] == ms[j - |r0|]; }
          }
        }
      }
      r0 + ms
  }

  class MinimaxTablut {
    /** The game as the search sees it: Tablut with draws under `heur`. */
    const G: Game
    const g: Board
    const mf: array<nat>
    const mftot: array<nat>
    const mdf: array<nat>
    const mdftot: array<nat>

    ghost predicate Valid()
      reads this, g
    {
      Linked(G) && g.Valid() && mf.Length == 6561 && mftot.Length == 6561 && mdf.Length == 9 && mdftot.Length == 9
      && mf != mftot && mdf != mdftot
    }

    /** The statistics arrays, as values. */
    ghost function Snap(): (c: Counters)
      reads this, mf, mftot, mdf, mdftot
      requires mf.Length == 6561 && mftot.Length == 6561 && mdf.Length == 9 && mdftot.Length == 9
      ensures Sized(c)
    {
      Counters(mf[..], mftot[..], mdf[..], mdftot[..])
    }

    /** `new`: Tablut's start position with t to move, all counters 0. */
    constructor (t: bool)
      ensures Valid() && G == HeurGame() && g.Abs() == Start(t) && fresh(g) && fresh(g.board)
      ensures fresh(mf) && fresh(mftot) && fresh(mdf) && fresh(mdftot)
      ensures forall i :: 0 <= i < 6561 ==> mf[i] == 0 && mftot[i] == 0
      ensures forall i :: 0 <= i < 9 ==> mdf[i] == 0 && mdftot[i] == 0
    {
      G := HeurGame();
      HeurLinked();
      g := new Board(t);
      var f := Zeros(6561);
      var ft := Zeros(6561);
      var d := Zeros(9);
      var dt := Zeros(9);
      mf, mftot, mdf, mdftot := f, ft, d, dt;
    }

    /** `heur`. */
    method HeurM() returns (h: int)
      requires Valid()
      ensures h == Heur(g.Abs()) && h == G.heuristic(g.Abs())
    {
      assert LinkedAt(G, g.Abs());
      if g.state == Win {
        h := 32768 - g.turn;
      } else if g.state == Lose {
        h := -32768 + g.turn;
      } else if g.state == Draw {
        h := 0;
      } else {
        h := g.HeuristicM();
      }
    }

    /** `state() != Going`, through the board. */
    method Decided() returns (b: bool)
      requires Valid()
      ensures b == (G.state(g.Abs()) != Going) && b == (g.Abs().state != Going)
    {
      assert LinkedAt(G, g.Abs());
      b := g.state != Going;
    }

    /** `turn()`, through the board. */
    method ToMove() returns (t: bool)
      requires Valid()
      ensures t == G.turn(g.Abs()) && t == Turn(g.Abs())
    {
      assert LinkedAt(G, g.Abs());
      t := g.turn % 2 == 0;
    }

    /** `get_moves_sorted`, through the board: a position still being
     *  played has a move, and every move is on the board and moves fewer
     *  than 9 steps. */
    method SortedMoves() returns (ms: seq<(nat, nat)>)
      requires Valid()
      ensures ms == G.movesSorted(g.Abs()) && |ms| > 0 && OnBoard(ms)
    {
      assert LinkedAt(G, g.Abs());
      MovesNonEmpty(g.Abs());
      SortedCells(g.Abs());
      ms := g.GetMovesSorted();
    }

    /** `mov_with_rollback`, through the board: G's move and token. */
    method Play(m: (nat, nat)) returns (rb: Token)
      requires Valid() && G.valid(g.Abs()) && G.state(g.Abs()) == Going && m in G.movesSorted(g.Abs())
      modifies g, g.board
      ensures Valid() && (g.Abs(), rb) == G.movR(old(g.Abs()), m)
    {
      LinkedChild(G, g.Abs(), m);
      rb := g.MovWithRollback(m);
    }

    /** `rollback`, through the board: the token of a move played from p0
     *  restores p0. */
    method Undo(ghost p0: Pos, ghost m: (nat, nat), rb: Token)
      requires Valid() && G.valid(p0) && G.state(p0) == Going && m in G.movesSorted(p0)
      requires g.Abs() == G.movR(p0, m).0 && rb == G.movR(p0, m).1
      modifies g, g.board
      ensures Valid() && g.Abs() == p0
    {
      LinkedChild(G, p0, m);
      SortedCells(p0);
      g.Rollback(rb);
    }

    /** `minimax`: a decided position or depth 0 answers `heur`; otherwise
     *  the children are searched in sorted order until the window closes.
     *  The answer is the window for the reference value under `heur`, and
     *  the position is the same on return. */
    method Minimax(a0: int, b0: int, depth: nat) returns (r: int)
      requires Valid() && G.valid(g.Abs()) && InI64(a0) && InI64(b0) && a0 < b0
      modifies g, g.board
      decreases depth, 2
      ensures Valid() && g.Abs() == old(g.Abs())
      ensures InI64(r) && Window(Games.Minimax(G, g.Abs(), depth), a0, b0, r)
      ensures G.state(g.Abs()) != Going || depth == 0 ==> r == Heur(g.Abs())
      ensures G.state(g.Abs()) == Going && depth > 0 ==> if G.turn(g.Abs()) then a0 <= r else r <= b0
    {
      var decided := Decided();
      if decided || depth == 0 {
        r := HeurM();
        assert Linked(G);
        return;
      }
      r := Children(a0, b0, depth - 1);
    }

    /** The child loop of `minimax`. */
    method Children(a0: int, b0: int, d: nat) returns (r: int)
      requires Valid() && G.valid(g.Abs()) && G.state(g.Abs()) == Going
      requires InI64(a0) && InI64(b0) && a0 < b0
      modifies g, g.board
      decreases d + 1, 1
      ensures Valid() && g.Abs() == old(g.Abs())
      ensures InI64(r) && (if G.turn(g.Abs()) then a0 <= r else r <= b0)
      ensures Window(Games.Minimax(G, g.Abs(), d + 1), a0, b0, r)
    {
      ghost var p := g.Abs();
      var moves := SortedMoves();
      var t := ToMove();
      var res := if t then a0 else b0;
      var a, b := a0, b0;
      var k := 0;
      while k < |moves|
        invariant 0 <= k <= |moves| && Valid() && g.Abs() == p
        invariant InI64(a) && InI64(b) && a < b
        invariant if t then res == a && b == b0 && a0 <= a else res == b && a == a0 && b <= b0
        invariant if t then a == Max(a0, MaxOver(G, p, moves[..k], d)) else b == Min(b0, MinOver(G, p, moves[..k], d))
      {
        var h := Explore(moves[k], a, b, d);
        if t {
          MaxStep(G, p, moves, d, k, a0, a, b, h);
          res := Max(res, h);
          a := Max(a, h);
        } else {
          MinStep(G, p, moves, d, k, a, b0, b, h);
          res := Min(res, h);
          b := Min(b, h);
        }
        k := k + 1;
        if a >= b {
          break;
        }
      }
      if k == |moves| {
        assert moves[..k] == moves;
      }
      r := res;
    }

    /** One child: the move is made with its token, searched with the window
     *  and undone. */
    method Explore(m: (nat, nat), a: int, b: int, d: nat) returns (h: int)
      requires Valid() && G.valid(g.Abs()) && G.state(g.Abs()) == Going && m in G.movesSorted(g.Abs())
      requires InI64(a) && InI64(b) && a < b
      modifies g, g.board
      decreases d + 1, 0
      ensures Valid() && g.Abs() == old(g.Abs())
      ensures InI64(h) && -LIM < ChildValue(G, g.Abs(), m, d) < LIM
      ensures Window(ChildValue(G, g.Abs(), m, d), a, b, h)
    {
      ghost var p := g.Abs();
      ChildBounded(G, p, m, d);
      var rb := Play(m);
      h := Minimax(a, b, d);
      Undo(p, m, rb);
    }

    /** `minimax_move`: every root move is searched, with no cutoff, and the
     *  first strictly best becomes the answer, `moves[0]` by default. Every
     *  root move is counted as seen, in `mdftot` by its distance and in
     *  `mftot` by its index, and the answer as chosen, in `mdf` and `mf`.
     *  The source panics on a decided position or depth 0. */
    method MinimaxMove(depth: nat) returns (ans: (nat, nat))
      requires Valid() && G.valid(g.Abs()) && G.state(g.Abs()) == Going && depth >= 1
      modifies g, g.board, mf, mftot, mdf, mdftot
      ensures Valid() && g.Abs() == old(g.Abs())
      ensures |G.movesSorted(g.Abs())| > 0 && ans == RootChoice(G, g.Abs(), depth - 1)
      ensures OnBoard(G.movesSorted(g.Abs())) && OnBoard([ans])
      ensures Snap() == After(old(Snap()), G.movesSorted(g.Abs()), [ans])
    {
      ghost var c0 := Snap();
      var moves := SortedMoves();
      ans := RootSearch(moves, depth - 1);
      Record(ans);
      SeenThenChosen(c0, moves, ans);
    }

    /** The loop of `minimax_move` over the sorted moves, with the widest
     *  window and no cutoff. */
    method RootSearch(moves: seq<(nat, nat)>, d: nat) returns (ans: (nat, nat))
      requires Valid() && G.valid(g.Abs()) && G.state(g.Abs()) == Going
      requires moves == G.movesSorted(g.Abs()) && |moves| > 0 && OnBoard(moves)
      modifies g, g.board, mftot, mdftot
      ensures Valid() && g.Abs() == old(g.Abs())
      ensures ans == RootChoice(G, g.Abs(), d) && OnBoard([ans])
      ensures Snap() == After(old(Snap()), moves, [])
    {
      ghost var p := g.Abs();
      ghost var c0 := Snap();
      var a, b := I64_MIN, I64_MAX;
      var t := ToMove();
      var res := if t then a else b;
      ans := moves[0];
      // The first root move, before the loop over the others.
      AfterNone(c0);
      assert moves[..0] == [];
      a, b, res, ans := RootChild(p, c0, moves, d, 0, t, a, b, res, ans);
      var k := 1;
      while k < |moves|
        invariant 1 <= k <= |moves| && Valid() && g.Abs() == p
        invariant InI64(a) && InI64(b) && a < b
        invariant if t then res == a && b == I64_MAX else res == b && a == I64_MIN
        invariant ans == moves[Best(G, p, moves, d, k)] && res == ChildValue(G, p, ans, d)
        invariant OnBoard(moves[..k]) && Snap() == After(c0, moves[..k], [])
      {
        a, b, res, ans := RootChild(p, c0, moves, d, k, t, a, b, res, ans);
        k := k + 1;
      }
      RootCut(G, p, d, k);
      assert moves[..k] == moves;
      OnBoardAt(moves, Best(G, p, moves, d, k));
    }

    /** The k-th root move: counted as seen, searched with the window
     *  (a, b) and compared with the best so far. */
    method RootChild(ghost p: Pos, ghost c0: Counters, moves: seq<(nat, nat)>, d: nat, k: nat, t: bool, a: int, b: int, res: int, ans: (nat, nat))
      returns (a': int, b': int, res': int, ans': (nat, nat))
      requires Valid() && g.Abs() == p && G.valid(p) && G.state(p) == Going
      requires moves == G.movesSorted(p) && k < |moves| && t == G.turn(p)
      requires Sized(c0) && OnBoard(moves) && Snap() == After(c0, moves[..k], [])
      requires InI64(a) && InI64(b) && a < b
      requires if t then res == a && b == I64_MAX else res == b && a == I64_MIN
      requires k > 0 ==> ans == moves[Best(G, p, moves, d, k)] && res == ChildValue(G, p, ans, d)
      requires k == 0 ==> ans == moves[0] && res == if t then I64_MIN else I64_MAX
      modifies g, g.board, mftot, mdftot
      ensures Valid() && g.Abs() == p
      ensures OnBoard(moves[..k + 1]) && Snap() == After(c0, moves[..k + 1], [])
      ensures InI64(a') && InI64(b') && a' < b'
      ensures if t then res' == a' && b' == I64_MAX else res' == b' && a' == I64_MIN
      ensures ans' == moves[Best(G, p, moves, d, k + 1)] && res' == ChildValue(G, p, ans', d)
    {
      Visit(c0, moves, k);
      var m := moves[k];
      var h := Explore(m, a, b, d);
      WindowExact(t, ChildValue(G, p, m, d), a, b, h);
      RootStep(G, p, moves, d, k, res, h);
      a', b', res', ans' := a, b, res, ans;
      if t {
        if h > res {
          res', ans' := h, m;
        }
        a' := Max(a, h);
      } else {
        if h < res {
          res', ans' := h, m;
        }
        b' := Min(b, h);
      }
    }

    /** The k-th root move is counted as seen after the ones before it. */
    method Visit(ghost c0: Counters, moves: seq<(nat, nat)>, k: nat)
      requires Valid() && Sized(c0) && OnBoard(moves) && k < |moves|
      requires Snap() == After(c0, moves[..k], [])
      modifies mftot, mdftot
      ensures Valid() && OnBoard(moves[..k + 1]) && Snap() == After(c0, moves[..k + 1], [])
    {
      CountStep(c0, moves, k);
      Count(moves[k]);
    }

    /** The statistics of one root move seen: one more at its distance and
     *  one more at its index. */
    method Count(m: (nat, nat))
      requires Valid() && OnBoard([m])
      modifies mftot, mdftot
      ensures Valid() && Snap() == After(old(Snap()), [m], [])
    {
      AfterOne(Snap(), m);
      var dif := if m.0 > m.1 then m.0 - m.1 else m.1 - m.0;
      var dist := if dif >= 9 then dif / 9 else dif;
      mdftot[dist] := mdftot[dist] + 1;
      mftot[m.0 * 81 + m.1] := mftot[m.0 * 81 + m.1] + 1;
    }

    /** The statistics of the move chosen: one more at its distance and one
     *  more at its index. */
    method Record(m: (nat, nat))
      requires Valid() && OnBoard([m])
      modifies mf, mdf
      ensures Valid() && Snap() == After(old(Snap()), [], [m])
    {
      AfterOne(Snap(), m);
      var dif := if m.0 > m.1 then m.0 - m.1 else m.1 - m.0;
      var dist := if dif >= 9 then dif / 9 else dif;
      mdf[dist] := mdf[dist] + 1;
      mf[m.0 * 81 + m.1] := mf[m.0 * 81 + m.1] + 1;
    }

    /** `get_mov`: search depth 1, then read the clock before each deeper
     *  search and stop at the first read that reports the time is up; the
     *  answer is the move of the last search. `chosen` holds the answers of
     *  the searches, one per depth, so that `|chosen|` is the depth reached;
     *  a u32 depth ends the deepening at u32::MAX at the latest. Every search
     *  counts all root moves and its answer. */
    method GetMov(tl: nat -> bool) returns (ans: (nat, nat), ghost chosen: seq<(nat, nat)>)
      requires Valid() && G.valid(g.Abs()) && G.state(g.Abs()) == Going
      modifies g, g.board, mf, mftot, mdf, mdftot
      ensures Valid() && g.Abs() == old(g.Abs())
      ensures 1 <= |chosen| <= U32_MAX && |G.movesSorted(g.Abs())| > 0
      ensures chosen == Choices(G, g.Abs(), |chosen|) && ans == chosen[|chosen| - 1]
      ensures Quiet(tl, |chosen| - 1)
      ensures |chosen| < U32_MAX ==> TimeUp(tl, |chosen|)
      ensures OnBoard(G.movesSorted(g.Abs())) && OnBoard(chosen)
      ensures Snap() == After(old(Snap()), Repeat(G.movesSorted(g.Abs()), |chosen|), chosen)
    {
      ghost var c0 := Snap();
      var first := MinimaxMove(1);
      assert [first] == Choices(G, g.Abs(), 1);
      assert Repeat(G.movesSorted(g.Abs()), 1) == G.movesSorted(g.Abs());
      ans, chosen := Deepening(tl, g.Abs(), c0, first);
    }

    /** The deepening loop of `get_mov` after the depth 1 search, which
     *  answered `first`. */
    method Deepening(tl: nat -> bool, ghost p: Pos, ghost c0: Counters, first: (nat, nat)) returns (ans: (nat, nat), ghost chosen: seq<(nat, nat)>)
      requires Valid() && g.Abs() == p && G.valid(p) && G.state(p) == Going && |G.movesSorted(p)| > 0
      requires Sized(c0) && OnBoard(G.movesSorted(p)) && OnBoard([first])
      requires [first] == Choices(G, p, 1)
      requires Snap() == After(c0, Repeat(G.movesSorted(p), 1), [first])
      modifies g, g.board, mf, mftot, mdf, mdftot
      ensures Valid() && g.Abs() == p
      ensures 1 <= |chosen| <= U32_MAX
      ensures chosen == Choices(G, p, |chosen|) && ans == chosen[|chosen| - 1]
      ensures Quiet(tl, |chosen| - 1)
      ensures |chosen| < U32_MAX ==> TimeUp(tl, |chosen|)
      ensures OnBoard(chosen)
      ensures Snap() == After(c0, Repeat(G.movesSorted(p), |chosen|), chosen)
    {
      var depth := 1;
      ans := first;
      chosen := [first];
      var over := false;
      while depth < U32_MAX && !over
        invariant 1 <= depth <= U32_MAX && |chosen| == depth
        invariant Valid() && g.Abs() == p
        invariant chosen == Choices(G, p, depth) && ans == chosen[depth - 1]
        invariant Quiet(tl, depth - 1) && (over ==> TimeUp(tl, depth))
        invariant OnBoard(chosen)
        invariant Snap() == After(c0, Repeat(G.movesSorted(p), depth), chosen)
        decreases U32_MAX - depth, if over then 0 else 1
      {
        over := ReadClock(tl, depth - 1);
        if !over {
          ans, chosen := Deepen(depth, p, c0, chosen);
          depth := depth + 1;
        }
      }
    }

    /** One more search of `get_mov`, one depth deeper. */
    method Deepen(depth: nat, ghost p: Pos, ghost c0: Counters, ghost chosen: seq<(nat, nat)>) returns (ans: (nat, nat), ghost chosen': seq<(nat, nat)>)
      requires Valid() && g.Abs() == p && G.valid(p) && G.state(p) == Going && |G.movesSorted(p)| > 0
      requires depth >= 1 && chosen == Choices(G, p, depth)
      requires Sized(c0) && OnBoard(G.movesSorted(p)) && OnBoard(chosen)
      requires Snap() == After(c0, Repeat(G.movesSorted(p), depth), chosen)
      modifies g, g.board, mf, mftot, mdf, mdftot
      ensures Valid() && g.Abs() == p
      ensures chosen' == Choices(G, p, depth + 1) && ans == chosen'[depth] && OnBoard(chosen')
      ensures Snap() == After(c0, Repeat(G.movesSorted(p), depth + 1), chosen')
    {
      ans := MinimaxMove(depth + 1);
      chosen' := chosen + [ans];
      DeepenStep(c0, G.movesSorted(p), depth, chosen, ans);
    }

    /** `mov`: the move is played on the position. */
    method Mov(m: (nat, nat))
      requires Valid() && MovOk(g.Abs(), m)
      modifies g, g.board
      ensures Valid() && g.Abs() == MovSpec(old(g.Abs()), m)
    {
      g.Mov(m);
    }
  }

  /** The last of n reads of the clock says the time is up. */
  ghost predicate TimeUp(tl: nat -> bool, n: nat)
  {
    n > 0 && tl(n - 1)
  }

  /** The n-th read of the clock, when the n reads before it all said the
   *  time was not up. */
  method ReadClock(tl: nat -> bool, n: nat) returns (over: bool)
    requires Quiet(tl, n)
    ensures over == TimeUp(tl, n + 1) && (!over ==> Quiet(tl, n + 1))
  {
    over := tl(n);
    if !over {
      QuietStep(tl, n);
    }
  }

  /** The answers of the root searches of depths 1 to n, in order. */
  ghost function Choices(G: Game, p: Pos, n: nat): (r: seq<(nat, nat)>)
    requires |G.movesSorted(p)| > 0
    ensures |r| == n
  {
    if n == 0 then [] else Choices(G, p, n - 1) + [RootChoice(G, p, n - 1)]
  }

  /** The d-th answer is the root choice of the search with d moves below
   *  the root. */
  lemma {:induction false} ChoicesAt(G: Game, p: Pos, n: nat, d: nat)
    requires |G.movesSorted(p)| > 0 && d < n
    ensures Choices(G, p, n)[d] == RootChoice(G, p, d)
  {
    if d < n - 1 {
      ChoicesAt(G, p, n - 1, d);
    }
  }

  /** A new array of n counters, all 0. */
  method Zeros(n: nat) returns (a: array<nat>)
    ensures fresh(a) && a.Length == n && forall i :: 0 <= i < n ==> a[i] == 0
  {
    a := new nat[n];
    forall i | 0 <= i < n {
      a[i] := 0;
    }
  }

  /** Counting the root moves of a search and then its answer is counting
   *  both at once. */
  lemma SeenThenChosen(c: Counters, seen: seq<(nat, nat)>, m: (nat, nat))
    requires Sized(c) && OnBoard(seen) && OnBoard([m])
    ensures After(After(c, seen, []), [], [m]) == After(c, seen, [m])
  {
    AfterAppend(c, seen, [], [], [m]);
    assert seen + [] == seen && [] + [m] == [m];
  }

  /** Counting n searches and then one more is counting n + 1 searches. */
  lemma DeepenStep(c: Counters, ms: seq<(nat, nat)>, n: nat, chosen: seq<(nat, nat)>, m: (nat, nat))
    requires Sized(c) && OnBoard(ms) && OnBoard(chosen) && OnBoard([m])
    ensures OnBoard(chosen + [m])
    ensures After(After(c, Repeat(ms, n), chosen), ms, [m]) == After(c, Repeat(ms, n + 1), chosen + [m])
  {
    AfterAppend(c, Repeat(ms, n), chosen, ms, [m]);
  }

  /** Counting the moves before k and then the k-th is counting the moves
   *  up to k. */
  lemma CountStep(c: Counters, moves: seq<(nat, nat)>, k: nat)
    requires Sized(c) && OnBoard(moves) && k < |moves|
    ensures OnBoard(moves[..k]) && OnBoard([moves[k]]) && OnBoard(moves[..k + 1])
    ensures After(After(c, moves[..k], []), [moves[k]], []) == After(c, moves[..k + 1], [])
  {
    assert moves[..k + 1] == moves[..k] + [moves[k]];
    AfterAppend(c, moves[..k], [], [moves[k]], []);
  }
}
