# Yut-nori room engine, modelled in Dafny

This project models the game engine of the yut-nori room of a Colyseus
multiplayer server (`server/src/rooms/YutnoriRoom.ts`). The engine has four parts:

- **Board tables.** Three static tables drive movement. The forward table covers
  the outer ring 0..19 (19 leads to the finish 99) and the diagonals 20-21-22,
  25-26-22 and 22-27-28-99. The shortcut table (5→20, 10→25, 22→27) is used only
  on the first step of a move. The backward table is used by a back-do (빽도)
  throw; it sends home (0) to 19.
- **Move resolver.** A back-do (-1) takes one backward edge. If the node has no
  backward edge, the piece stays where it is. Any other step count walks forward
  that many edges. The walk checks the shortcut table only on the first edge. A
  node with no forward edge leads to the finish, and the walk stops as soon as it
  reaches the finish.
- **Turn state machine.** `throw_yut` is accepted only from the turn holder in
  the `throwing` phase. It picks one of six results (도 1, 개 2, 걸 3, 윷 4, 모 5,
  빽도 -1) and always moves the phase to `moving`. `move_piece` is accepted only
  from the turn holder in the `moving` phase, and only for a piece that exists
  and has not finished. It moves that one piece, sets the phase back to
  `throwing` and passes the turn.
- **Room bookkeeping.** `onJoin` creates a record with a team colour that
  alternates by join order and four numbered pieces at home. The first joiner
  takes the turn. `onLeave` deletes the record. `passTurn` hands the turn to the
  next player in join order, wrapping around. If the holder is gone, the turn
  goes to the first player.

Modules:

- `Options` (`options.dfy`): the lookup result type.
- `Board` (`board.dfy`): the three tables and their inverse-edge facts.
- `Movement` (`movement.dfy`): the resolver, both as a function and as the
  source's loop, plus the walk lemmas.
- `Modular` (`modular.dfy`): remainder arithmetic.
- `TurnOrder` (`turnorder.dfy`): `indexOf` and `passTurn` over the join-ordered
  ids, and the circular-order lemmas.
- `Room` (`room.dfy`): the state and the four handlers.
- `RoomProperties` (`properties.dfy`): the room invariant, and lemmas about
  sequences of messages.

Modelling choices:

- The Colyseus schema classes become immutable datatypes.
- The player map becomes a sequence in insertion order, because the turn order is
  the map's key order. The map's distinct keys become the `DistinctIds`
  condition. `MovePiece` requires it, and every handler preserves it.
- `Math.random()` becomes the argument `draw`, an index 0..5 into the result
  table.
- Each handler is a pure function from the state before a message to the state
  after it. An ignored message returns the state unchanged.
- If the sender holds the turn but has no record, `move_piece` in the source
  throws a `TypeError` at `player.pieces` before it changes anything. The model
  leaves the state unchanged in that case.
- If `onJoin` runs with a session id that already has a record, the model
  replaces that record in place, as a JavaScript `Map` does with an existing key.
  The model assumes the transport does not hand out a session id that is
  already in the room, so this case should not arise in practice; nothing in
  the room's own code enforces it.

The room implements none of the following yut-nori rules, so the model has
none of them either:

- weighted sticks;
- bonus throws for 윷 and 모;
- a pending-throw stack;
- power-ups;
- stacking;
- capture;
- victory detection and a finished phase;
- the post-game room transition;
- a centre-junction rule that depends on the direction of arrival.

Nodes 23 and 24 do not exist, and node 22 always continues to 27.

## Model

| member | source | states |
|---|---|---|
| Board.NextNode | server/src/rooms/YutnoriRoom.ts:23-53 | the forward table is defined exactly on the board nodes 0..22 and 25..28; every successor is a board node or the finish, and never home |
| Board.FastNode | server/src/rooms/YutnoriRoom.ts:55 | the shortcut table is defined exactly on 5, 10 and 22, and leads onto the diagonals (nodes 20 and above) |
| Board.PrevNode | server/src/rooms/YutnoriRoom.ts:57-85 | the backward table is defined exactly on the board nodes and stays on them |
| Board.NextThenPrev | server/src/rooms/YutnoriRoom.ts:23-85 | backward undoes forward on every node except 19, 28 (to the finish) and 26 (22 steps back to 21), and fails on those three |
| Board.FastThenPrev | server/src/rooms/YutnoriRoom.ts:55-85 | backward undoes each shortcut edge: 20→5, 25→10, 27→22 |
| Board.PrevThenNext | server/src/rooms/YutnoriRoom.ts:23-85 | forward undoes backward on every node except home, 20 and 25, and fails on those three |
| Movement.ForwardStep | server/src/rooms/YutnoriRoom.ts:147-151 | one forward edge never leaves the board or lands on home; a non-first edge reaches the finish exactly from 19, 28 or an unmapped node |
| Movement.Walk | server/src/rooms/YutnoriRoom.ts:146-153 | the remaining forward walk stays on the board and, once an edge is taken, never ends on home |
| Movement.Resolve | server/src/rooms/YutnoriRoom.ts:140-155 | a move from the board lands on the board or the finish; a back-do stays put exactly off the board; a non-positive count other than -1 moves nothing; a forward move never lands on home |
| Movement.ResolveMove | server/src/rooms/YutnoriRoom.ts:140-155 | the source's loop computes the resolver's landing node, looks up at most `steps` edges (one for a back-do), and stops short only at the finish |
| Movement.ShortcutOnlyOnFirstStep | server/src/rooms/YutnoriRoom.ts:146-153 | a forward move of k ≥ 1 is its first edge (shortcut if the start has one) followed by k-1 plain forward edges; the early stop at the finish does not change the landing node |
| Movement.MoveThenPlainEdges | server/src/rooms/YutnoriRoom.ts:146-153 | a move of a+b steps is a move of a steps followed by b plain forward edges, never a second shortcut |
| Movement.JunctionExamples | server/src/rooms/YutnoriRoom.ts:23-85 | 5→20, 10→25, 22→27 on a first step; 4+2 lands on 6 and 9+2 on 11 (corners passed mid-move stay on the ring); both diagonals reach 27 through the centre; 18+5 finishes; a back-do from home lands on 19 |
| Movement.MovesStayOnBoard | server/src/rooms/YutnoriRoom.ts:140-155 | from any board node every move, forward or back-do, lands on a board node or the finish, never on 23 or 24 |
| Movement.ForwardThenBack | server/src/rooms/YutnoriRoom.ts:143-153 | one step forward then a back-do returns to the start exactly when the start is not 19, 26 or 28 |
| Movement.BackThenForward | server/src/rooms/YutnoriRoom.ts:143-153 | a back-do then one step forward returns to the start exactly when the start is not home, 6 or 11 |
| TurnOrder.IndexOf | server/src/rooms/YutnoriRoom.ts:194 | the index is -1 exactly when the id is absent, and otherwise the first position holding it |
| TurnOrder.PassTurn | server/src/rooms/YutnoriRoom.ts:192-196 | with a non-empty player list the new holder is always a current player, and the first player when the old holder is gone |
| TurnOrder.PassTurnFrom | server/src/rooms/YutnoriRoom.ts:192-196 | with distinct ids, passing from the player at position k gives the player at position k+1, wrapping from the last position to the first |
| TurnOrder.TurnOrderIsCircular | server/src/rooms/YutnoriRoom.ts:192-196 | n passes from the player at position i give the player at position (i + n) mod the player count |
| TurnOrder.FullRoundReturnsTheTurn | server/src/rooms/YutnoriRoom.ts:192-196 | as many passes as there are players bring the turn back to its holder |
| TurnOrder.EveryPlayerGetsTheTurn | server/src/rooms/YutnoriRoom.ts:192-196 | every player gets the turn within fewer passes than there are players |
| Room.OutcomeTable | server/src/rooms/YutnoriRoom.ts:106-114 | the six results carry the step counts 1, 2, 3, 4, 5, -1, each once under its own name, so a uniform draw makes them equally likely |
| Room.Throw | server/src/rooms/YutnoriRoom.ts:99-118 | a throw changes the state exactly when the sender holds the turn in the throwing phase; then the step count is one of 1..5 or -1, the name matches it, the phase becomes moving, and the players and the turn holder are untouched |
| Room.Find | server/src/rooms/YutnoriRoom.ts:134 | the lookup by session id finds the sender's record when there is one, and reports absence otherwise |
| Room.JoinRecord | server/src/rooms/YutnoriRoom.ts:164-174 | a new record has the session id, the team for its join position, and four pieces `<id>-p0..p3`, all at home |
| Room.Join | server/src/rooms/YutnoriRoom.ts:163-180 | a newcomer's record is appended after the existing ones, which stay unchanged, with red for an even player count before joining and blue for an odd one; a known id is replaced in place; whoever is then the only record takes the turn, and otherwise the turn is left alone; the phase and last throw are untouched; ids stay distinct |
| Room.RemoveId | server/src/rooms/YutnoriRoom.ts:189 | no record with the removed id remains, the list does not grow, and nothing changes when the id is absent |
| Room.RemoveIdKeepsRecords | server/src/rooms/YutnoriRoom.ts:189 | every record left after a deletion was present before |
| Room.RemoveIdKeepsDistinct | server/src/rooms/YutnoriRoom.ts:189 | deleting an id from a map with distinct ids leaves the ids distinct |
| Room.RemoveIdCutsOut | server/src/rooms/YutnoriRoom.ts:189 | with distinct ids, deleting cuts out exactly the one record and keeps the others in join order |
| Room.Leave | server/src/rooms/YutnoriRoom.ts:188-190 | leaving removes only that player's record and its pieces, keeps the others in join order, and touches neither the turn holder nor the phase nor the last throw |
| Room.MovePiece | server/src/rooms/YutnoriRoom.ts:127-160 | the state is unchanged when the sender does not hold the turn, the phase is not moving, the sender has no record, or the chosen piece is missing or finished; otherwise only the chosen piece moves, to where the last throw takes it, the phase returns to throwing and the turn passes on |
| RoomProperties.InitialStateValid | server/src/rooms/YutnoriRoom.ts:14-20 | a fresh room satisfies the room invariant |
| RoomProperties.ThrowKeepsValid | server/src/rooms/YutnoriRoom.ts:99-118 | throwing keeps the room invariant, so the moving phase always holds a real throw result |
| RoomProperties.JoinKeepsValid | server/src/rooms/YutnoriRoom.ts:163-180 | joining keeps the room invariant (distinct ids; four numbered pieces per player, each on the board or finished) |
| RoomProperties.LeaveKeepsValid | server/src/rooms/YutnoriRoom.ts:188-190 | leaving keeps the room invariant |
| RoomProperties.MovePieceKeepsValid | server/src/rooms/YutnoriRoom.ts:127-160 | moving keeps the room invariant; in particular no piece ever stands on 23, 24 or off the board |
| RoomProperties.FinishedPiecesStayFinished | server/src/rooms/YutnoriRoom.ts:137-138 | a `move_piece` message never moves a piece that stands at the finish |
| RoomProperties.NoBonusThrow | server/src/rooms/YutnoriRoom.ts:99-118 | after an accepted throw, no further throw by anyone changes the state until a piece has moved |
| RoomProperties.FullTurn | server/src/rooms/YutnoriRoom.ts:99-160 | a throw followed by a move of an unfinished piece moves exactly that piece by the thrown result, returns to the throwing phase, and gives the turn to the next player in join order |
| RoomProperties.HolderLeavingStallsTheRoom | server/src/rooms/YutnoriRoom.ts:99-104 | once the turn holder leaves, the turn stays with an id that has no record, so every other sender's throw and move is ignored |
| RoomProperties.JoinThenLeave | server/src/rooms/YutnoriRoom.ts:163-190 | a newcomer who leaves again restores the room, except that the first joiner of an empty room keeps the turn |
| RoomProperties.TwoPlayerOpening | server/src/rooms/YutnoriRoom.ts:99-196 | in a two-player room, A's throw of 걸 (3) and move of piece 0 put it on node 3, return to the throwing phase and give the turn to B |

## Left out

- Chat handlers and all `broadcast` calls: they only send notifications and never change the game state.
- `Math.random()`: the draw is an argument, so the model says nothing about its distribution beyond the uniform table.
- Colyseus plumbing: `setState`, `maxClients`, schema decorators and the synchronisation of state to clients.
- Non-integer `move_piece` payloads: `pieceIndex` is an integer here. The source would also accept, for example, the string `"1"` as an array index.
- `passTurn` on an empty room: the source would store `undefined`. Its only caller runs after the sender's record was found, so the model requires a non-empty player list.
- `TableRoom.ts` (an asynchronous room-creation call), `LobbyRoom.ts` and `OneCardRoom.ts` (chat relays), and the server and client bootstrap files: these are not part of this model.
