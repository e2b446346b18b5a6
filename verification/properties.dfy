/** Properties of the room as a whole: the state invariant every handler
    keeps, and what sequences of messages do. */
module RoomProperties {
  import opened Board
  import opened Movement
  import opened TurnOrder
  import opened Room

  /** A player record as joining creates it and moving keeps it: four pieces
      with their numbered ids, each on the board or finished. */
  predicate WellFormedPlayer(pl: Player) {
    && |pl.pieces| == PiecesPerPlayer
    && forall k :: 0 <= k < |pl.pieces| ==>
      pl.pieces[k].id == PieceId(pl.sessionId, k) && OnBoard(pl.pieces[k].position)
  }

  /** The room invariant: distinct session ids, well-formed records, and in
      the moving phase a step count and name that a throw produced. */
  predicate Valid(s: State) {
    && DistinctIds(s.players)
    && (forall p :: 0 <= p < |s.players| ==> WellFormedPlayer(s.players[p]))
    && (s.gamePhase == Moving ==>
          s.lastThrowSteps in ThrowSteps && s.lastThrowResult == OutcomeName(s.lastThrowSteps))
  }

  lemma InitialStateValid()
    ensures Valid(InitialState)
  {
  }

  lemma ThrowKeepsValid(s: State, sender: string, draw: int)
    requires Valid(s)
    requires 0 <= draw < |Outcomes|
    ensures Valid(Throw(s, sender, draw))
  {
  }

  lemma JoinRecordWellFormed(pl: Player, sid: string, count: nat)
    requires IsJoinRecord(pl, sid, count)
    ensures WellFormedPlayer(pl)
  {
  }

  lemma JoinKeepsValid(s: State, sid: string)
    requires Valid(s)
    ensures Valid(Join(s, sid))
  {
    var r := Join(s, sid);
    var n := |s.players|;
    if sid !in Ids(s.players) {
      JoinRecordWellFormed(r.players[n], sid, n);
      forall p | 0 <= p < |r.players|
        ensures WellFormedPlayer(r.players[p])
      {
        if p < n {
          assert r.players[p] == r.players[..n][p];
        }
      }
    } else {
      var q := Find(s.players, sid);
      JoinRecordWellFormed(r.players[q], sid, n);
    }
  }

  lemma LeaveKeepsValid(s: State, sid: string)
    requires Valid(s)
    ensures Valid(Leave(s, sid))
  {
    var r := Leave(s, sid);
    forall p | 0 <= p < |r.players|
      ensures WellFormedPlayer(r.players[p])
    {
      assert r.players[p] in s.players;
    }
  }

  /** Moving keeps every piece on the board or finished, because every move
      from a board node lands on a board node or the finish. */
  lemma MovePieceKeepsValid(s: State, sender: string, pieceIndex: int)
    requires Valid(s)
    ensures Valid(MovePiece(s, sender, pieceIndex))
  {
    var r := MovePiece(s, sender, pieceIndex);
    if r != s {
      var p := Find(s.players, sender);
      assert Ids(r.players) == Ids(s.players);
      forall q | 0 <= q < |r.players|
        ensures WellFormedPlayer(r.players[q])
      {
        assert WellFormedPlayer(s.players[q]);
      }
    }
  }

  /** A finished piece stays finished: no `move_piece` message moves it. (A
      `Join` under an id that already has a record replaces that record and so
      sends its pieces home; that is a re-join, not a move.) */
  lemma FinishedPiecesStayFinished(s: State, sender: string, pieceIndex: int, q: nat, c: nat)
    requires DistinctIds(s.players)
    requires q < |s.players| && c < |s.players[q].pieces|
    requires s.players[q].pieces[c].position == Terminal
    ensures q < |MovePiece(s, sender, pieceIndex).players|
    ensures c < |MovePiece(s, sender, pieceIndex).players[q].pieces|
    ensures MovePiece(s, sender, pieceIndex).players[q].pieces[c].position == Terminal
  {
    var r := MovePiece(s, sender, pieceIndex);
    if r != s {
      var p := Find(s.players, sender);
    }
  }

  /** Once a throw is accepted nobody can throw again until a piece has
      moved. */
  lemma NoBonusThrow(s: State, sender: string, draw: int, other: string, draw2: int)
    requires 0 <= draw < |Outcomes| && 0 <= draw2 < |Outcomes|
    requires sender == s.currentTurnId && s.gamePhase == Throwing
    ensures Throw(s, sender, draw).gamePhase == Moving
    ensures Throw(Throw(s, sender, draw), other, draw2) == Throw(s, sender, draw)
  {
  }

  /** A full turn: the holder throws, then moves a piece that has not
      finished. The piece lands where the thrown result takes it, the phase
      returns to throwing, and the turn goes to the next player in join
      order, wrapping from the last to the first. */
  lemma FullTurn(s: State, p: nat, draw: int, pieceIndex: int)
    requires Valid(s)
    requires p < |s.players| && s.players[p].sessionId == s.currentTurnId
    requires s.gamePhase == Throwing
    requires 0 <= draw < |Outcomes|
    requires Movable(s.players[p], pieceIndex)
    ensures var t := MovePiece(Throw(s, s.currentTurnId, draw), s.currentTurnId, pieceIndex);
      && t.gamePhase == Throwing
      && t.currentTurnId == s.players[if p + 1 < |s.players| then p + 1 else 0].sessionId
      && OnlyPieceMoved(s.players, t.players, p, pieceIndex,
                        Resolve(s.players[p].pieces[pieceIndex].position, Outcomes[draw].steps))
  {
    var holder := s.currentTurnId;
    var s1 := Throw(s, holder, draw);
    assert s1.players == s.players;
    assert s1.lastThrowSteps == Outcomes[draw].steps;
    PassTurnFrom(Ids(s.players), p);
  }

  /** A leaving turn holder stalls the room: the turn stays with the departed
      id, so the throw and move of every other sender are ignored. */
  lemma HolderLeavingStallsTheRoom(s: State, sender: string, draw: int, pieceIndex: int)
    requires DistinctIds(s.players)
    requires 0 <= draw < |Outcomes|
    requires sender != s.currentTurnId
    ensures var t := Leave(s, s.currentTurnId);
      && t.currentTurnId !in Ids(t.players)
      && Throw(t, sender, draw) == t
      && MovePiece(t, sender, pieceIndex) == t
  {
  }

  /** A newcomer who leaves again restores the room, except that the first
      joiner of an empty room keeps the turn after leaving. */
  lemma JoinThenLeave(s: State, sid: string)
    requires DistinctIds(s.players)
    requires sid !in Ids(s.players)
    ensures Leave(Join(s, sid), sid).players == s.players
    ensures |s.players| > 0 ==> Leave(Join(s, sid), sid) == s
    ensures |s.players| == 0 ==> Leave(Join(s, sid), sid) == s.(currentTurnId := sid)
  {
    var j := Join(s, sid);
    assert j.players == s.players + [j.players[|s.players|]] by {
      assert j.players == j.players[..|s.players|] + [j.players[|s.players|]];
    }
    RemoveIdCutsOut(j.players, sid, |s.players|);
    assert j.players[..|s.players|] == s.players;
  }

  /** The room after A and B have joined: A holds the turn, and every piece
      of A waits at home. */
  lemma TwoPlayerRoom()
    ensures var s0 := Join(Join(InitialState, "A"), "B");
      && Valid(s0)
      && |s0.players| == 2
      && s0.players[0].sessionId == "A" && s0.players[1].sessionId == "B"
      && s0.currentTurnId == "A"
      && s0.gamePhase == Throwing
      && Movable(s0.players[0], 0) && s0.players[0].pieces[0].position == Home
  {
    var a := Join(InitialState, "A");
    InitialStateValid();
    JoinKeepsValid(InitialState, "A");
    assert |a.players| == 1 && a.players[0].sessionId == "A" && a.currentTurnId == "A";
    assert a.players[0].pieces[0].position == Home;
    assert "B" !in Ids(a.players) by {
      assert Ids(a.players) == ["A"];
    }
    JoinKeepsValid(a, "B");
  }

  /** The opening of a two-player room: A and B join, A throws a 3 and moves
      piece 0 from home to node 3; the phase returns to throwing and the turn
      passes to B. */
  lemma TwoPlayerOpening()
    ensures var s0 := Join(Join(InitialState, "A"), "B");
      && s0.currentTurnId == "A"
      && Throw(s0, "A", 2).lastThrowSteps == 3
      && var s2 := MovePiece(Throw(s0, "A", 2), "A", 0);
      && s2.players[0].pieces[0].position == 3
      && s2.gamePhase == Throwing
      && s2.currentTurnId == "B"
  {
    var s0 := Join(Join(InitialState, "A"), "B");
    TwoPlayerRoom();
    assert Outcomes[2].steps == 3;
    assert Resolve(Home, 3) == 3;
    FullTurn(s0, 0, 2, 0);
  }
}
