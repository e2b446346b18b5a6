/** The yut-nori room: its shared state and the handlers that change it. Each
    handler is a pure function from the state before a message to the state
    after it; a message the room ignores yields the state unchanged. */
module Room {
  import opened Board
  import opened Movement
  import opened TurnOrder

  /** The two phases of a turn: throw the sticks, then move one piece. */
  datatype Phase = Throwing | Moving

  datatype Team = Red | Blue

  datatype Piece = Piece(id: string, position: int)

  datatype Player = Player(sessionId: string, teamColor: Team, pieces: seq<Piece>)

  /** The room state. `players` lists the player records in join order, which
      is the key order of the room's player map and hence the turn order. */
  datatype State = State(
    players: seq<Player>,
    currentTurnId: string,
    lastThrowResult: string,
    lastThrowSteps: int,
    gamePhase: Phase)

  /** Every player joins with this many pieces. */
  const PiecesPerPlayer: nat := 4

  /** The state of a freshly created room. */
  const InitialState: State := State([], "", "", 0, Throwing)

  // ---------------------------------------------------------------------------
  // Throw outcomes

  datatype Outcome = Outcome(name: string, steps: int)

  /** The result table a throw draws from, indexed by the draw. */
  const Outcomes: seq<Outcome> := [
    Outcome("도", 1),
    Outcome("개", 2),
    Outcome("걸", 3),
    Outcome("윷", 4),
    Outcome("모", 5),
    Outcome("빽도", BackDo)
  ]

  /** The step counts a throw can produce. */
  const ThrowSteps: set<int> := {1, 2, 3, 4, 5, BackDo}

  /** The traditional name of each step count. */
  function OutcomeName(steps: int): string {
    match steps
    case 1 => "도"
    case 2 => "개"
    case 3 => "걸"
    case 4 => "윷"
    case 5 => "모"
    case -1 => "빽도"
    case _ => ""
  }

  /** The result table lists each step count exactly once under its name, so
      a uniform draw makes the six results equally likely. */
  lemma OutcomeTable()
    ensures forall d :: 0 <= d < |Outcomes| ==>
      Outcomes[d].steps in ThrowSteps && Outcomes[d].name == OutcomeName(Outcomes[d].steps)
    ensures forall v :: v in ThrowSteps ==> exists d :: 0 <= d < |Outcomes| && Outcomes[d].steps == v
    ensures forall d, e :: 0 <= d < e < |Outcomes| ==> Outcomes[d].steps != Outcomes[e].steps
  {
    assert Outcomes[0].steps == 1;
    assert Outcomes[1].steps == 2;
    assert Outcomes[2].steps == 3;
    assert Outcomes[3].steps == 4;
    assert Outcomes[4].steps == 5;
    assert Outcomes[5].steps == BackDo;
  }

  // ---------------------------------------------------------------------------
  // The player map

  /** The session ids in join order: the keys of the player map. */
  function Ids(players: seq<Player>): (ids: seq<string>)
    ensures |ids| == |players|
    ensures forall i :: 0 <= i < |players| ==> ids[i] == players[i].sessionId
  {
    seq(|players|, i requires 0 <= i < |players| => players[i].sessionId)
  }

  /** The map's keys are distinct: a session id names at most one record. */
  predicate DistinctIds(players: seq<Player>) {
    Distinct(Ids(players))
  }

  /** The position of the record stored under `sid` (the map lookup), or -1
      when there is none. */
  function Find(players: seq<Player>, sid: string): (r: int)
    ensures -1 <= r < |players|
    ensures r == -1 <==> sid !in Ids(players)
    ensures r >= 0 ==> players[r].sessionId == sid
    ensures DistinctIds(players) ==>
      forall p :: 0 <= p < |players| && players[p].sessionId == sid ==> r == p
  {
    IndexOf(Ids(players), sid)
  }

  // ---------------------------------------------------------------------------
  // Joining and leaving

  /** The decimal digit of `k`. */
  function Digit(k: nat): char
    requires k < 10
  {
    (('0' as int) + k) as char
  }

  /** The id of piece `k` of the player `sid`: the session id, "-p" and the
      piece number. */
  function PieceId(sid: string, k: nat): string
    requires k < 10
  {
    sid + "-p" + [Digit(k)]
  }

  /** The team of the player who joins when `count` players are present:
      red and blue alternate by join order. */
  function TeamFor(count: nat): Team {
    if count % 2 == 0 then Red else Blue
  }

  /** The record a player `sid` gets on joining a room of `count` players:
      four pieces, numbered in order, all at home. */
  predicate IsJoinRecord(pl: Player, sid: string, count: nat) {
    && pl.sessionId == sid
    && pl.teamColor == TeamFor(count)
    && |pl.pieces| == PiecesPerPlayer
    && forall k :: 0 <= k < |pl.pieces| ==> pl.pieces[k] == Piece(PieceId(sid, k), Home)
  }

  function JoinRecord(sid: string, count: nat): (pl: Player)
    ensures IsJoinRecord(pl, sid, count)
  {
    Player(sid, TeamFor(count), seq(PiecesPerPlayer, k requires 0 <= k < PiecesPerPlayer => Piece(PieceId(sid, k), Home)))
  }

  /** A player joins: a fresh record is stored under the session id (appended
      in join order; a record already stored under that id is replaced where
      it stands, as a map does), and the first player to join takes the turn. */
  function Join(s: State, sid: string): (r: State)
    ensures sid in Ids(r.players)
    ensures sid !in Ids(s.players) ==>
      && |r.players| == |s.players| + 1
      && r.players[..|s.players|] == s.players
      && IsJoinRecord(r.players[|s.players|], sid, |s.players|)
    ensures forall p :: 0 <= p < |s.players| && s.players[p].sessionId == sid && DistinctIds(s.players) ==>
      && |r.players| == |s.players|
      && IsJoinRecord(r.players[p], sid, |s.players|)
      && forall q :: 0 <= q < |s.players| && q != p ==> r.players[q] == s.players[q]
    ensures r.currentTurnId == if |r.players| == 1 then sid else s.currentTurnId
    ensures r.gamePhase == s.gamePhase
    ensures r.lastThrowSteps == s.lastThrowSteps && r.lastThrowResult == s.lastThrowResult
    ensures DistinctIds(s.players) ==> DistinctIds(r.players)
  {
    var record := JoinRecord(sid, |s.players|);
    var p := Find(s.players, sid);
    var players := if p < 0 then s.players + [record] else s.players[p := record];
    assert Ids(players)[if p < 0 then |s.players| else p] == sid;
    s.(players := players, currentTurnId := if |players| == 1 then sid else s.currentTurnId)
  }

  /** The player list without the record of `sid`, in the same order. */
  function RemoveId(players: seq<Player>, sid: string): (r: seq<Player>)
    ensures |r| <= |players|
    ensures forall i :: 0 <= i < |r| ==> r[i].sessionId != sid
    ensures sid !in Ids(players) ==> r == players
  {
    if |players| == 0 then []
    else
      var tail := players[1..];
      var rest := RemoveId(tail, sid);
      if players[0].sessionId == sid then rest
      else
        assert sid !in Ids(players) ==> sid !in Ids(tail) by {
          if sid !in Ids(players) {
            assert forall t :: 0 <= t < |tail| ==> Ids(tail)[t] == Ids(players)[t + 1];
          }
        }
        [players[0]] + rest
  }

  /** Every record that survives a removal was there before. */
  lemma {:induction false} RemoveIdKeepsRecords(players: seq<Player>, sid: string)
    ensures forall i :: 0 <= i < |RemoveId(players, sid)| ==> RemoveId(players, sid)[i] in players
  {
    if |players| > 0 {
      var tail := players[1..];
      RemoveIdKeepsRecords(tail, sid);
      var rest := RemoveId(tail, sid);
      forall i | 0 <= i < |rest|
        ensures rest[i] in players
      {
        assert rest[i] in tail;
      }
    }
  }

  lemma IdsTail(players: seq<Player>)
    requires |players| > 0
    ensures Ids(players[1..]) == Ids(players)[1..]
    ensures DistinctIds(players) ==> players[0].sessionId !in Ids(players[1..])
    ensures DistinctIds(players) ==> DistinctIds(players[1..])
  {
    var tail := players[1..];
    assert Ids(tail) == Ids(players)[1..];
    if DistinctIds(players) {
      forall t | 0 <= t < |tail|
        ensures Ids(tail)[t] != players[0].sessionId
      {
        assert tail[t] == players[t + 1];
      }
    }
  }

  lemma DistinctCons(pl: Player, rest: seq<Player>)
    requires DistinctIds(rest)
    requires pl.sessionId !in Ids(rest)
    ensures DistinctIds([pl] + rest)
  {
    var r := [pl] + rest;
    forall j | 0 < j < |r|
      ensures r[0].sessionId != r[j].sessionId
    {
      assert Ids(rest)[j - 1] == r[j].sessionId;
    }
  }

  /** Removing an id keeps the remaining ids distinct. */
  lemma {:induction false} RemoveIdKeepsDistinct(players: seq<Player>, sid: string)
    requires DistinctIds(players)
    ensures DistinctIds(RemoveId(players, sid))
  {
    if |players| > 0 {
      var tail := players[1..];
      IdsTail(players);
      RemoveIdKeepsDistinct(tail, sid);
      RemoveIdKeepsRecords(tail, sid);
      var rest := RemoveId(tail, sid);
      if players[0].sessionId != sid {
        assert players[0].sessionId !in Ids(rest) by {
          forall j | 0 <= j < |rest|
            ensures Ids(rest)[j] != players[0].sessionId
          {
            assert rest[j] in tail;
            var t :| 0 <= t < |tail| && tail[t] == rest[j];
            assert Ids(tail)[t] == rest[j].sessionId;
            assert Ids(rest)[j] == rest[j].sessionId;
          }
        }
        DistinctCons(players[0], rest);
      }
    }
  }

  /** With distinct ids, removing `sid` cuts out exactly its one record and
      keeps the others in order. */
  lemma {:induction false} RemoveIdCutsOut(players: seq<Player>, sid: string, p: nat)
    requires DistinctIds(players)
    requires p < |players| && players[p].sessionId == sid
    ensures RemoveId(players, sid) == players[..p] + players[p + 1..]
  {
    var tail := players[1..];
    if p == 0 {
      assert sid !in Ids(tail) by {
        IdsTail(players);
      }
      assert players[..p] + players[p + 1..] == tail;
    } else {
      var rest := RemoveId(tail, sid);
      assert RemoveId(players, sid) == [players[0]] + rest by {
        assert players[p].sessionId != players[0].sessionId;
      }
      assert rest == tail[..p - 1] + tail[p..] by {
        IdsTail(players);
        RemoveIdCutsOut(tail, sid, p - 1);
      }
      assert [players[0]] + (tail[..p - 1] + tail[p..]) == players[..p] + players[p + 1..] by {
        assert players[..p] == [players[0]] + tail[..p - 1];
        assert players[p + 1..] == tail[p..];
      }
    }
  }

  /** A player leaves: its record, and with it its pieces, is removed; the
      turn is not reassigned. */
  function Leave(s: State, sid: string): (r: State)
    ensures sid !in Ids(r.players)
    ensures forall i :: 0 <= i < |r.players| ==> r.players[i] in s.players
    ensures sid !in Ids(s.players) ==> r == s
    ensures DistinctIds(s.players) ==>
      forall p :: 0 <= p < |s.players| && s.players[p].sessionId == sid ==>
        r.players == s.players[..p] + s.players[p + 1..]
    ensures DistinctIds(s.players) ==> DistinctIds(r.players)
    ensures r.currentTurnId == s.currentTurnId && r.gamePhase == s.gamePhase
    ensures r.lastThrowSteps == s.lastThrowSteps && r.lastThrowResult == s.lastThrowResult
  {
    RemoveIdKeepsRecords(s.players, sid);
    if DistinctIds(s.players) then
      RemoveIdKeepsDistinct(s.players, sid);
      assert forall p :: 0 <= p < |s.players| && s.players[p].sessionId == sid ==>
        RemoveId(s.players, sid) == s.players[..p] + s.players[p + 1..] by {
        forall p | 0 <= p < |s.players| && s.players[p].sessionId == sid
          ensures RemoveId(s.players, sid) == s.players[..p] + s.players[p + 1..]
        {
          RemoveIdCutsOut(s.players, sid, p);
        }
      }
      s.(players := RemoveId(s.players, sid))
    else
      s.(players := RemoveId(s.players, sid))
  }

  // ---------------------------------------------------------------------------
  // Throwing and moving

  /** The `throw_yut` handler. Only the turn holder may throw, and only in the
      throwing phase; `draw` is the index into the result table that the
      uniform random draw picked. Every accepted throw, whatever its result,
      leads to the moving phase: there is no bonus throw. */
  function Throw(s: State, sender: string, draw: int): (r: State)
    requires 0 <= draw < |Outcomes|
    ensures r == s <==> sender != s.currentTurnId || s.gamePhase != Throwing
    ensures r != s ==>
      && r.gamePhase == Moving
      && r.lastThrowSteps in ThrowSteps
      && r.lastThrowResult == OutcomeName(r.lastThrowSteps)
      && r.players == s.players && r.currentTurnId == s.currentTurnId
  {
    if sender != s.currentTurnId || s.gamePhase != Throwing then s
    else
      OutcomeTable();
      var result := Outcomes[draw];
      s.(lastThrowResult := result.name, lastThrowSteps := result.steps, gamePhase := Moving)
  }

  /** Piece `k` of `pl` exists and has not finished. */
  predicate Movable(pl: Player, k: int) {
    0 <= k < |pl.pieces| && pl.pieces[k].position != Terminal
  }

  /** `after` is `before` with piece `k` of player `p` moved to `dest`, and
      nothing else changed: same players in the same order, same teams, same
      piece ids, every other piece of every player where it was. */
  predicate OnlyPieceMoved(before: seq<Player>, after: seq<Player>, p: int, k: int, dest: int) {
    && |after| == |before|
    && forall q :: 0 <= q < |before| ==>
      && after[q].sessionId == before[q].sessionId
      && after[q].teamColor == before[q].teamColor
      && |after[q].pieces| == |before[q].pieces|
      && forall c :: 0 <= c < |before[q].pieces| ==>
        after[q].pieces[c] ==
          if q == p && c == k then before[q].pieces[c].(position := dest) else before[q].pieces[c]
  }

  /** The `move_piece` handler. It is ignored unless the sender holds the turn
      in the moving phase, has a record, and picked a piece that exists and
      has not finished. Otherwise that one piece moves by the last throw, the
      phase returns to throwing and the turn passes to the next player. */
  function MovePiece(s: State, sender: string, pieceIndex: int): (r: State)
    requires DistinctIds(s.players)
    ensures sender != s.currentTurnId || s.gamePhase != Moving || sender !in Ids(s.players) ==> r == s
    ensures forall p :: 0 <= p < |s.players| && s.players[p].sessionId == sender && !Movable(s.players[p], pieceIndex) ==>
      r == s
    ensures forall p :: 0 <= p < |s.players| && s.players[p].sessionId == sender == s.currentTurnId &&
                        s.gamePhase == Moving && Movable(s.players[p], pieceIndex) ==>
      && OnlyPieceMoved(s.players, r.players, p, pieceIndex,
                        Resolve(s.players[p].pieces[pieceIndex].position, s.lastThrowSteps))
      && r.gamePhase == Throwing
      && r.currentTurnId == PassTurn(Ids(s.players), sender)
      && r.lastThrowSteps == s.lastThrowSteps && r.lastThrowResult == s.lastThrowResult
  {
    if sender != s.currentTurnId || s.gamePhase != Moving then s
    else
      var p := Find(s.players, sender);
      if p < 0 then s
      else
        var player := s.players[p];
        if !Movable(player, pieceIndex) then s
        else
          var piece := player.pieces[pieceIndex];
          var moved := piece.(position := Resolve(piece.position, s.lastThrowSteps));
          var players := s.players[p := player.(pieces := player.pieces[pieceIndex := moved])];
          assert Ids(players) == Ids(s.players);
          s.(players := players, gamePhase := Throwing, currentTurnId := PassTurn(Ids(players), s.currentTurnId))
  }
}
