/** The move resolver: where a piece lands for a thrown step count. A back-do
    (-1) takes one backward edge; any other count walks forward that many edges,
    using the shortcut table on the first edge only, and stops at the finish. */
module Movement {
  import opened Options
  import opened Board

  /** The step count of a back-do throw. */
  const BackDo: int := -1

  /** The successor of `cur` on a forward walk. `first` holds only for the
      first edge of a move; nodes the tables leave undefined lead to the finish. */
  function ForwardStep(cur: int, first: bool): (r: int)
    ensures OnBoard(cur) ==> OnBoard(r)
    ensures r != Home
    ensures !first ==> (r == Terminal <==> cur == 19 || cur == 28 || !IsNode(cur))
  {
    if first && FastNode(cur).Some? then FastNode(cur).value
    else NextNode(cur).GetOr(Terminal)
  }

  /** The forward walk from `cur` when `i` of `steps` edges have been taken. */
  function Walk(cur: int, i: nat, steps: int): (r: int)
    ensures OnBoard(cur) ==> OnBoard(r)
    ensures i < steps ==> r != Home
    decreases steps - i
  {
    if i >= steps then cur
    else
      var next := ForwardStep(cur, i == 0);
      if next == Terminal then next else Walk(next, i + 1, steps)
  }

  /** The landing node of a piece at `position` for a throw of `steps`. */
  function Resolve(position: int, steps: int): (r: int)
    ensures OnBoard(position) ==> OnBoard(r)
    ensures steps != BackDo && steps <= 0 ==> r == position
    ensures steps == BackDo ==> (r == position <==> !IsNode(position))
    ensures steps >= 1 ==> r != Home
  {
    if steps == BackDo then PrevNode(position).GetOr(position)
    else Walk(position, 0, steps)
  }

  /** The source's loop, statement for statement: a back-do looks up one
      backward edge; otherwise up to `steps` forward edges are taken, the
      shortcut table is consulted only when `i == 0`, and the loop breaks as
      soon as the finish is reached. `taken` counts the table lookups. */
  method ResolveMove(position: int, steps: int) returns (dest: int, taken: nat)
    ensures dest == Resolve(position, steps)
    ensures steps == BackDo ==> taken == 1
    ensures steps != BackDo ==> taken <= (if steps > 0 then steps else 0)
    ensures steps != BackDo && taken < steps ==> dest == Terminal
  {
    dest := position;
    taken := 0;
    if steps == BackDo {
      dest := PrevNode(position).GetOr(position);
      taken := 1;
    } else {
      var i := 0;
      while i < steps
        invariant 0 <= i <= (if steps > 0 then steps else 0)
        invariant taken == i
        invariant Walk(dest, i, steps) == Walk(position, 0, steps)
        decreases steps - i
      {
        dest := ForwardStep(dest, i == 0);
        i := i + 1;
        taken := i;
        if dest == Terminal {
          break;
        }
      }
    }
  }

  /** The plain forward chain: `k` edges of the forward table from `n` with no
      shortcut and no early exit (the finish is a fixed point, because the
      forward table leaves it undefined). */
  function Chain(n: int, k: nat): int
    decreases k
  {
    if k == 0 then n else Chain(NextNode(n).GetOr(Terminal), k - 1)
  }

  lemma {:induction false} ChainFromTerminal(k: nat)
    ensures Chain(Terminal, k) == Terminal
  {
    if k > 0 {
      ChainFromTerminal(k - 1);
    }
  }

  lemma {:induction false} WalkIsChain(cur: int, i: nat, steps: int)
    requires 1 <= i <= steps
    ensures Walk(cur, i, steps) == Chain(cur, steps - i)
    decreases steps - i
  {
    if i < steps {
      var next := ForwardStep(cur, false);
      if next == Terminal {
        ChainFromTerminal(steps - i - 1);
      } else {
        WalkIsChain(next, i + 1, steps);
      }
    }
  }

  /** A forward move of `k >= 1` steps is its first edge (the shortcut when
      the start has one, else the forward table) followed by `k - 1` plain
      forward edges: the shortcut is never taken mid-move, and stopping early
      at the finish does not change the landing node. */
  lemma {:induction false} ShortcutOnlyOnFirstStep(n: int, k: int)
    requires k >= 1
    ensures Resolve(n, k) == Chain(ForwardStep(n, true), k - 1)
  {
    var first := ForwardStep(n, true);
    if first == Terminal {
      ChainFromTerminal(k - 1);
    } else if k > 1 {
      WalkIsChain(first, 1, k);
    }
  }

  /** Plain forward chains compose. */
  lemma {:induction false} ChainCompose(n: int, a: nat, b: nat)
    ensures Chain(n, a + b) == Chain(Chain(n, a), b)
    decreases a
  {
    if a > 0 {
      ChainCompose(NextNode(n).GetOr(Terminal), a - 1, b);
    }
  }

  /** Splitting a move does not split the walk: a move of `a + b` steps is a
      move of `a` steps followed by `b` plain edges, never by a second move
      (which could take a shortcut again). */
  lemma {:induction false} MoveThenPlainEdges(n: int, a: int, b: nat)
    requires a >= 1
    ensures Resolve(n, a + b) == Chain(Resolve(n, a), b)
  {
    ShortcutOnlyOnFirstStep(n, a + b);
    ShortcutOnlyOnFirstStep(n, a);
    ChainCompose(ForwardStep(n, true), a - 1, b);
  }

  /** The corners take their shortcut only when a move starts on them; a
      piece passing through 5 or 10 mid-move stays on the ring, and the centre
      always continues to 27. */
  lemma JunctionExamples()
    ensures Resolve(5, 1) == 20 && Resolve(10, 1) == 25 && Resolve(22, 1) == 27
    ensures Resolve(4, 2) == 6 && Resolve(9, 2) == 11
    ensures Resolve(20, 3) == 27 && Resolve(25, 3) == 27
    ensures Resolve(18, 5) == Terminal && Resolve(0, BackDo) == 19
  {
  }

  /** Closure: from any board node, every move lands on a board node or the
      finish (so never on 23 or 24). */
  lemma MovesStayOnBoard(n: int, steps: int)
    requires IsNode(n)
    ensures OnBoard(Resolve(n, steps))
    ensures Resolve(n, steps) != 23 && Resolve(n, steps) != 24
  {
  }

  /** One step forward then a back-do returns to the start exactly when the
      start is not 19 or 28 (which reach the finish) and not 26 (whose
      successor 22 steps back to 21). */
  lemma ForwardThenBack(n: int)
    requires IsNode(n)
    ensures Resolve(Resolve(n, 1), BackDo) == n <==> n != 19 && n != 26 && n != 28
  {
    assert Resolve(n, 1) == ForwardStep(n, true);
    if FastNode(n).Some? {
      FastThenPrev(n);
    } else {
      NextThenPrev(n);
    }
  }

  /** A back-do then one step forward returns to the start exactly when the
      start is not home (which jumps back to 19) and not 6 or 11 (whose
      backward neighbours 5 and 10 take their shortcut on the next move). */
  lemma BackThenForward(n: int)
    requires IsNode(n)
    ensures Resolve(Resolve(n, BackDo), 1) == n <==> n != Home && n != 6 && n != 11
  {
    assert Resolve(Resolve(n, BackDo), 1) == ForwardStep(PrevNode(n).value, true);
  }
}
