/** The turn order of the room: the ids of the players in join order, read
    circularly. */
module TurnOrder {
  import opened Modular

  /** The keys of a map are distinct. */
  predicate Distinct(ids: seq<string>) {
    forall i, j :: 0 <= i < j < |ids| ==> ids[i] != ids[j]
  }

  /** The position of the first occurrence of `id` in `ids`, or -1 when there
      is none (the array search of the source). */
  function IndexOf(ids: seq<string>, id: string): (r: int)
    ensures -1 <= r < |ids|
    ensures r == -1 <==> id !in ids
    ensures r >= 0 ==> ids[r] == id && forall j :: 0 <= j < r ==> ids[j] != id
  {
    if |ids| == 0 then -1
    else if ids[0] == id then 0
    else
      var k := IndexOf(ids[1..], id);
      if k < 0 then -1 else k + 1
  }

  /** The player who holds the turn after `current`: the next id in join
      order, wrapping from the last to the first; when `current` is not in the
      list (its holder left), the first id. */
  function PassTurn(ids: seq<string>, current: string): (r: string)
    requires |ids| > 0
    ensures r in ids
    ensures current !in ids ==> r == ids[0]
  {
    ModSmall(IndexOf(ids, current) + 1, |ids|);
    ids[(IndexOf(ids, current) + 1) % |ids|]
  }

  /** The turn holder after `n` passes starting from `current`. */
  function PassTurnTimes(ids: seq<string>, current: string, n: nat): string
    requires |ids| > 0
    decreases n
  {
    if n == 0 then current else PassTurn(ids, PassTurnTimes(ids, current, n - 1))
  }

  /** With distinct ids, passing from the player at position `k` hands the
      turn to position `k + 1`, or back to 0 from the last position. */
  lemma PassTurnFrom(ids: seq<string>, k: nat)
    requires Distinct(ids)
    requires k < |ids|
    ensures PassTurn(ids, ids[k]) == ids[if k + 1 < |ids| then k + 1 else 0]
  {
    var r := IndexOf(ids, ids[k]);
    assert r == k;
    ModSmall(k + 1, |ids|);
  }

  /** The seat after seat `k` at a table of `m`. */
  function NextSeat(k: nat, m: nat): (r: nat)
    requires k < m
    ensures r < m
  {
    if k + 1 < m then k + 1 else 0
  }

  /** The seat reached from seat `i` after `n` moves round a table of `m`. */
  function SeatAfter(i: nat, n: nat, m: nat): (r: nat)
    requires i < m
    ensures r < m
    decreases n
  {
    if n == 0 then i else NextSeat(SeatAfter(i, n - 1, m), m)
  }

  lemma {:induction false} SeatAfterIsMod(i: nat, n: nat, m: nat)
    requires i < m
    ensures SeatAfter(i, n, m) == (i + n) % m
    decreases n
  {
    if n == 0 {
      ModSmall(i, m);
    } else {
      SeatAfterIsMod(i, n - 1, m);
      ModSucc(i + (n - 1), m);
    }
  }

  /** Within two rounds the seat is reached by plain counting. */
  lemma {:induction false} SeatAfterWithinTwoRounds(i: nat, n: nat, m: nat)
    requires i < m
    requires i + n < 2 * m
    ensures SeatAfter(i, n, m) == if i + n < m then i + n else i + n - m
    decreases n
  {
    if n > 0 {
      SeatAfterWithinTwoRounds(i, n - 1, m);
    }
  }

  lemma {:induction false} PassTurnTimesSeat(ids: seq<string>, i: nat, n: nat)
    requires Distinct(ids)
    requires i < |ids|
    ensures PassTurnTimes(ids, ids[i], n) == ids[SeatAfter(i, n, |ids|)]
    decreases n
  {
    if n > 0 {
      var k := SeatAfter(i, n - 1, |ids|);
      assert PassTurnTimes(ids, ids[i], n - 1) == ids[k] by {
        PassTurnTimesSeat(ids, i, n - 1);
      }
      assert PassTurn(ids, ids[k]) == ids[NextSeat(k, |ids|)] by {
        PassTurnFrom(ids, k);
      }
    }
  }

  /** Turn order is circular: starting from the player at position `i`,
      `n` passes hand the turn to the player at position `(i + n) mod |ids|`. */
  lemma TurnOrderIsCircular(ids: seq<string>, i: nat, n: nat)
    requires Distinct(ids)
    requires i < |ids|
    ensures PassTurnTimes(ids, ids[i], n) == ids[(i + n) % |ids|]
  {
    PassTurnTimesSeat(ids, i, n);
    SeatAfterIsMod(i, n, |ids|);
  }

  /** After as many passes as there are players, the turn is back with its
      holder. */
  lemma FullRoundReturnsTheTurn(ids: seq<string>, i: nat)
    requires Distinct(ids)
    requires i < |ids|
    ensures PassTurnTimes(ids, ids[i], |ids|) == ids[i]
  {
    PassTurnTimesSeat(ids, i, |ids|);
    SeatAfterWithinTwoRounds(i, |ids|, |ids|);
  }

  /** How many passes take the turn from seat `i` to seat `j` at a table
      of `m`, counting forward round the table. */
  function PassesBetween(i: nat, j: nat, m: nat): nat
    requires i < m && j < m
  {
    if i <= j then j - i else m - i + j
  }

  /** Within fewer passes than there are players, every player holds the
      turn: player `j` after `PassesBetween(i, j)` passes from player `i`. */
  lemma EveryPlayerGetsTheTurn(ids: seq<string>, i: nat, j: nat)
    requires Distinct(ids)
    requires i < |ids| && j < |ids|
    ensures PassesBetween(i, j, |ids|) < |ids|
    ensures PassTurnTimes(ids, ids[i], PassesBetween(i, j, |ids|)) == ids[j]
  {
    var n := PassesBetween(i, j, |ids|);
    PassTurnTimesSeat(ids, i, n);
    SeatAfterWithinTwoRounds(i, n, |ids|);
    assert SeatAfter(i, n, |ids|) == j;
  }
}
