/** The yut-nori board as three static lookup tables over integer node ids.
    Node 0 is home, 1..19 the outer ring, 20..22 the diagonal from corner 5
    into the centre (22), 25..28 the diagonal from corner 10 through the centre
    towards the finish, and 99 the finish. There are no nodes 23 and 24. */
module Board {
  import opened Options

  /** The node every piece starts from. */
  const Home: int := 0

  /** The finish. No table maps it, and a piece there never moves again. */
  const Terminal: int := 99

  /** The keys of the forward and backward tables. */
  predicate IsNode(n: int) {
    0 <= n <= 22 || 25 <= n <= 28
  }

  /** A position a piece can hold: a board node or the finish. */
  predicate OnBoard(n: int) {
    IsNode(n) || n == Terminal
  }

  /** The forward table: the outer ring ends in the finish after 19, the
      diagonals run 20-21-22 and 25-26-22, and the centre always exits 22-27-28
      to the finish. */
  function NextNode(n: int): (r: Option<int>)
    ensures r.Some? <==> IsNode(n)
    ensures r.Some? ==> OnBoard(r.value) && r.value != Home
  {
    match n
    case 0 => Some(1)
    case 1 => Some(2)
    case 2 => Some(3)
    case 3 => Some(4)
    case 4 => Some(5)
    case 5 => Some(6)
    case 6 => Some(7)
    case 7 => Some(8)
    case 8 => Some(9)
    case 9 => Some(10)
    case 10 => Some(11)
    case 11 => Some(12)
    case 12 => Some(13)
    case 13 => Some(14)
    case 14 => Some(15)
    case 15 => Some(16)
    case 16 => Some(17)
    case 17 => Some(18)
    case 18 => Some(19)
    case 19 => Some(Terminal)
    case 20 => Some(21)
    case 21 => Some(22)
    case 25 => Some(26)
    case 26 => Some(22)
    case 22 => Some(27)
    case 27 => Some(28)
    case 28 => Some(Terminal)
    case _ => None
  }

  /** The shortcut table, consulted only on the first step of a move: the two
      corners 5 and 10 enter the diagonals and the centre 22 turns to 27. */
  function FastNode(n: int): (r: Option<int>)
    ensures r.Some? <==> n == 5 || n == 10 || n == 22
    ensures r.Some? ==> IsNode(r.value) && r.value >= 20
  {
    match n
    case 5 => Some(20)
    case 10 => Some(25)
    case 22 => Some(27)
    case _ => None
  }

  /** The backward table used by a back-do throw. It reverses the forward
      edges, sends home (0) to 19, and sends the centre 22 back along the
      diagonal from corner 5 (to 21). */
  function PrevNode(n: int): (r: Option<int>)
    ensures r.Some? <==> IsNode(n)
    ensures r.Some? ==> IsNode(r.value)
  {
    match n
    case 1 => Some(0)
    case 2 => Some(1)
    case 3 => Some(2)
    case 4 => Some(3)
    case 5 => Some(4)
    case 6 => Some(5)
    case 7 => Some(6)
    case 8 => Some(7)
    case 9 => Some(8)
    case 10 => Some(9)
    case 11 => Some(10)
    case 12 => Some(11)
    case 13 => Some(12)
    case 14 => Some(13)
    case 15 => Some(14)
    case 16 => Some(15)
    case 17 => Some(16)
    case 18 => Some(17)
    case 19 => Some(18)
    case 0 => Some(19)
    case 20 => Some(5)
    case 21 => Some(20)
    case 25 => Some(10)
    case 26 => Some(25)
    case 22 => Some(21)
    case 27 => Some(22)
    case 28 => Some(27)
    case _ => None
  }

  /** Backward undoes forward on every node except the two that lead to the
      finish (19 and 28, since the finish has no backward edge) and 26, whose
      successor 22 leads back to 21 instead. */
  lemma NextThenPrev(n: int)
    requires IsNode(n)
    ensures PrevNode(NextNode(n).value) == Some(n) <==> n != 19 && n != 26 && n != 28
  {
  }

  /** Backward also undoes every shortcut edge: 5-20, 10-25 and 22-27. */
  lemma FastThenPrev(n: int)
    requires FastNode(n).Some?
    ensures PrevNode(FastNode(n).value) == Some(n)
  {
  }

  /** Forward undoes backward on every node except home (whose backward edge
      jumps to 19) and the first nodes of the two diagonals (20 and 25, whose
      backward edge lands on a corner whose plain successor stays on the ring). */
  lemma PrevThenNext(n: int)
    requires IsNode(n)
    ensures NextNode(PrevNode(n).value) == Some(n) <==> n != Home && n != 20 && n != 25
  {
  }
}
