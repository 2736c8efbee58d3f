/**
 * The game registry of the Node server (backend/server.js): a table from game
 * id to game record, filled by `createGame`, and the `joinGame` and `move`
 * socket handlers that update a record in place or reject the event.
 *
 * The socket transport (rooms, emits to other sockets) is reduced to the
 * reply each handler produces.  The two helpers the `move` handler calls but
 * the file never defines, `getPlayerSymbol` and `serializeGameState`, are
 * parameters of the handler.
 */
module Server {
  import opened Common

  /** One entry of `games`: player slots hold socket ids (`null` for an open seat). */
  datatype Game = Game(
    players: seq<Slot<string>>,
    gameBoard: seq<Slot<Symbol>>,
    currentPlayer: Symbol,
    winner: Option<Symbol>)

  /** What the server sends back for a join. */
  datatype JoinReply = GameStart | GameError(message: string)

  /** What the server sends back for a move; `S` is whatever `serializeGameState` produces. */
  datatype MoveReply<S> = GameStateUpdate(state: S) | MoveError(message: string)

  const JoinErrorMessage: string := "Game not found or already full"
  const MoveErrorMessage: string := "Invalid move"

  /**
   * The shape every stored record keeps: two player slots, and at least nine
   * cells but no more than a JavaScript array can hold.
   */
  predicate WellFormed(g: Game) {
    |g.players| == 2 && 9 <= |g.gameBoard| <= MaxArrayLength
  }

  predicate AllWellFormed(games: map<string, Game>) {
    forall id :: id in games ==> WellFormed(games[id])
  }

  /**
   * The record `createGame(player1, player2)` stores: the two given seats,
   * nine `null` cells, X to play and no winner.
   */
  function NewGame(player1: Slot<string>, player2: Slot<string>): (g: Game)
    ensures WellFormed(g)
    ensures g.players == [player1, player2]
    ensures |g.gameBoard| == 9 && forall i :: 0 <= i < 9 ==> g.gameBoard[i] == Null
    ensures g.currentPlayer == X && g.winner == None
  {
    Game([player1, player2], Nulls(9), X, None)
  }

  /**
   * `createGame` with the id that `generateGameId` drew: the record is stored
   * under that id, replacing whatever was there, and no other entry changes.
   */
  function Create(games: map<string, Game>, gameId: string, player1: Slot<string>, player2: Slot<string>)
    : (r: map<string, Game>)
    ensures r.Keys == games.Keys + {gameId}
    ensures r[gameId].players == [player1, player2]
    ensures |r[gameId].gameBoard| == 9 && forall i :: 0 <= i < 9 ==> r[gameId].gameBoard[i] == Null
    ensures r[gameId].currentPlayer == X && r[gameId].winner == None
    ensures forall id :: id in games && id != gameId ==> r[id] == games[id]
  {
    games[gameId := NewGame(player1, player2)]
  }

  /** The guard of the `joinGame` handler: the game exists and its second seat is falsy. */
  function CanJoin(games: map<string, Game>, gameId: string): (b: bool)
    ensures b <==> gameId in games && (|games[gameId].players| < 2 || games[gameId].players[1] in {Hole, Null, Val("")})
  {
    gameId in games && !Truthy(At(games[gameId].players, 1))
  }

  /**
   * The `joinGame` handler: on success the joiner takes the second seat and
   * nothing else changes; otherwise the table is untouched and the joiner is
   * told the game is missing or full.
   */
  function Join(games: map<string, Game>, gameId: string, joiner: string): (r: (map<string, Game>, JoinReply))
    requires AllWellFormed(games)
    ensures AllWellFormed(r.0)
    ensures r.1 == GameStart <==> CanJoin(games, gameId)
    ensures r.1 != GameStart ==> r.0 == games && r.1 == GameError(JoinErrorMessage)
    ensures r.0.Keys == games.Keys
    ensures r.1 == GameStart ==>
      && r.0[gameId].players == [games[gameId].players[0], Val(joiner)]
      && r.0[gameId].gameBoard == games[gameId].gameBoard
      && r.0[gameId].currentPlayer == games[gameId].currentPlayer
      && r.0[gameId].winner == games[gameId].winner
    ensures forall id :: id in games && id != gameId ==> r.0[id] == games[id]
  {
    if CanJoin(games, gameId) then
      var g := games[gameId];
      (games[gameId := g.(players := g.players[1 := Val(joiner)])], GameStart)
    else
      (games, GameError(JoinErrorMessage))
  }

  /** `game.players.includes(socket.id)`. */
  function IsPlayer(g: Game, mover: string): (b: bool)
    ensures b <==> exists i :: 0 <= i < |g.players| && g.players[i] == Val(mover)
  {
    Val(mover) in g.players
  }

  /**
   * The three-part guard of the `move` handler.  `symbolOf` stands for
   * `getPlayerSymbol`; `None` is any result that is not `'X'` or `'O'`.
   * Whether the target cell is empty plays no part.
   */
  function CanMove(games: map<string, Game>, gameId: string, mover: string, symbolOf: string -> Option<Symbol>)
    : (b: bool)
    ensures b ==> gameId in games && symbolOf(mover).Some? && Val(mover) in games[gameId].players
    ensures gameId in games && Val(mover) in games[gameId].players ==>
      (b <==> symbolOf(mover) == Some(games[gameId].currentPlayer))
  {
    && gameId in games
    && IsPlayer(games[gameId], mover)
    && symbolOf(mover) == Some(games[gameId].currentPlayer)
  }

  /**
   * The table after a `move` event: an accepted move writes the current
   * player's symbol at `index` (JavaScript array semantics); there is no
   * win or draw check and no change of turn.
   */
  function Move(games: map<string, Game>, gameId: string, index: int, mover: string, symbolOf: string -> Option<Symbol>)
    : (r: map<string, Game>)
    requires AllWellFormed(games)
    ensures AllWellFormed(r)
    ensures r.Keys == games.Keys
    ensures !CanMove(games, gameId, mover, symbolOf) ==> r == games
    ensures CanMove(games, gameId, mover, symbolOf) ==>
      && r[gameId].players == games[gameId].players
      && r[gameId].currentPlayer == games[gameId].currentPlayer
      && r[gameId].winner == games[gameId].winner
      && (0 <= index < |games[gameId].gameBoard| ==>
            && |r[gameId].gameBoard| == |games[gameId].gameBoard|
            && r[gameId].gameBoard[index] == Val(games[gameId].currentPlayer)
            && forall j :: 0 <= j < |games[gameId].gameBoard| && j != index ==>
                 r[gameId].gameBoard[j] == games[gameId].gameBoard[j])
      && (!(0 <= index < |games[gameId].gameBoard|) ==>
            r[gameId].gameBoard == Assign(games[gameId].gameBoard, index, games[gameId].currentPlayer))
    ensures forall id :: id in games && id != gameId ==> r[id] == games[id]
  {
    if CanMove(games, gameId, mover, symbolOf) then
      var g := games[gameId];
      games[gameId := g.(gameBoard := Assign(g.gameBoard, index, g.currentPlayer))]
    else
      games
  }

  /** The reply to a `move` event: the serialized record after the write, or the error. */
  function MoveReplyFor<S>(games: map<string, Game>, gameId: string, index: int, mover: string,
                           symbolOf: string -> Option<Symbol>, serialize: Game -> S): (r: MoveReply<S>)
    requires AllWellFormed(games)
    ensures r.GameStateUpdate? <==> CanMove(games, gameId, mover, symbolOf)
    ensures r.GameStateUpdate? ==> r.state == serialize(Move(games, gameId, index, mover, symbolOf)[gameId])
    ensures r.MoveError? ==> r.message == MoveErrorMessage
  {
    if CanMove(games, gameId, mover, symbolOf) then
      GameStateUpdate(serialize(Move(games, gameId, index, mover, symbolOf)[gameId]))
    else
      MoveError(MoveErrorMessage)
  }

  /** The server process: the module-level `games` object. */
  class GameServer {
    var games: map<string, Game>

    ghost predicate Valid()
      reads this
    {
      AllWellFormed(games)
    }

    /** At start-up `games` is `{}`. */
    constructor ()
      ensures Valid() && games == map[]
    {
      games := map[];
    }

    /** `createGame(player1, player2)`, given the id `generateGameId` returned. */
    method CreateGame(newId: string, player1: Slot<string>, player2: Slot<string>) returns (gameId: string)
      requires Valid()
      modifies this
      ensures Valid()
      ensures gameId == newId
      ensures games == Create(old(games), newId, player1, player2)
    {
      gameId := newId;
      games := games[gameId := NewGame(player1, player2)];
    }

    /** The `createGame` event: the creating socket sits in the first seat, the second is `null`. */
    method OnCreateGame(newId: string, creator: string) returns (created: string)
      requires Valid()
      modifies this
      ensures Valid()
      ensures created == newId
      ensures games == Create(old(games), newId, Val(creator), Null)
      ensures games[created].players == [Val(creator), Null]
    {
      created := CreateGame(newId, Val(creator), Null);
    }

    /** The `joinGame` event from socket `joiner`. */
    method OnJoinGame(gameId: string, joiner: string) returns (reply: JoinReply)
      requires Valid()
      modifies this
      ensures Valid()
      ensures (games, reply) == Join(old(games), gameId, joiner)
    {
      var game := if gameId in games then Some(games[gameId]) else None;
      if game.Some? && !Truthy(At(game.value.players, 1)) {
        var g := game.value;
        games := games[gameId := g.(players := g.players[1 := Val(joiner)])];
        reply := GameStart;
      } else {
        reply := GameError(JoinErrorMessage);
      }
    }

    /** The `move` event `{gameId, index}` from socket `mover`. */
    method OnMove<S>(gameId: string, index: int, mover: string,
                     symbolOf: string -> Option<Symbol>, serialize: Game -> S) returns (reply: MoveReply<S>)
      requires Valid()
      modifies this
      ensures Valid()
      ensures games == Move(old(games), gameId, index, mover, symbolOf)
      ensures reply == MoveReplyFor(old(games), gameId, index, mover, symbolOf, serialize)
    {
      var game := if gameId in games then Some(games[gameId]) else None;
      if game.Some? && Val(mover) in game.value.players && symbolOf(mover) == Some(game.value.currentPlayer) {
        var g := game.value;
        g := g.(gameBoard := Assign(g.gameBoard, index, g.currentPlayer));
        games := games[gameId := g];
        reply := GameStateUpdate(serialize(g));
      } else {
        reply := MoveError(MoveErrorMessage);
      }
    }
  }

  /** A second join to the same game fails once a non-empty id holds the second seat. */
  lemma JoinFillsGame(games: map<string, Game>, gameId: string, joiner: string, other: string)
    requires AllWellFormed(games) && joiner != ""
    requires Join(games, gameId, joiner).1 == GameStart
    ensures var after := Join(games, gameId, joiner).0;
      Join(after, gameId, other) == (after, GameError(JoinErrorMessage))
  {
  }

  /** A game made by the `createGame` event takes exactly one joiner. */
  lemma CreatedGameIsJoinable(games: map<string, Game>, gameId: string, creator: string, joiner: string)
    requires AllWellFormed(games)
    ensures var created := Create(games, gameId, Val(creator), Null);
      AllWellFormed(created) && Join(created, gameId, joiner).1 == GameStart
      && Join(created, gameId, joiner).0[gameId].players == [Val(creator), Val(joiner)]
  {
  }

  /**
   * The join guard looks only at the second seat, so the creator who joins
   * their own open game takes that seat too, and the game is then closed to
   * everyone else.
   */
  lemma CreatorFillsOwnGame(games: map<string, Game>, gameId: string, creator: string, other: string)
    requires AllWellFormed(games) && creator != ""
    ensures var created := Create(games, gameId, Val(creator), Null);
      var (joined, reply) := Join(created, gameId, creator);
      && reply == GameStart
      && joined[gameId].players == [Val(creator), Val(creator)]
      && Join(joined, gameId, other) == (joined, GameError(JoinErrorMessage))
  {
    var created := Create(games, gameId, Val(creator), Null);
    var joined := Join(created, gameId, creator).0;
    assert At(joined[gameId].players, 1) == Val(creator);
  }

  /** One `move` event: game id, cell index, and the socket that sent it. */
  datatype MoveEvent = MoveEvent(gameId: string, index: int, mover: string)

  /** The table after a run of `move` events handled in order. */
  function MoveAll(games: map<string, Game>, events: seq<MoveEvent>, symbolOf: string -> Option<Symbol>)
    : (r: map<string, Game>)
    requires AllWellFormed(games)
    ensures AllWellFormed(r)
    decreases |events|
  {
    if events == [] then games
    else
      var e := events[0];
      MoveAll(Move(games, e.gameId, e.index, e.mover, symbolOf), events[1..], symbolOf)
  }

  /**
   * Moves never seat or unseat anyone, never change whose turn it is and
   * never declare a winner: the server leaves all of that to the clients.
   * So a mover the guard accepts once is accepted again on every later move.
   */
  lemma {:induction false} MovesKeepSeatsAndTurn(games: map<string, Game>, events: seq<MoveEvent>,
                                                 symbolOf: string -> Option<Symbol>)
    requires AllWellFormed(games)
    ensures var r := MoveAll(games, events, symbolOf);
      && r.Keys == games.Keys
      && forall id :: id in games ==>
           && r[id].players == games[id].players
           && r[id].currentPlayer == games[id].currentPlayer
           && r[id].winner == games[id].winner
           && (forall mover :: CanMove(games, id, mover, symbolOf) <==> CanMove(r, id, mover, symbolOf))
    decreases |events|
  {
    if events != [] {
      var e := events[0];
      MovesKeepSeatsAndTurn(Move(games, e.gameId, e.index, e.mover, symbolOf), events[1..], symbolOf);
    }
  }

  /**
   * Occupancy is not checked: a move the guard accepts overwrites a cell
   * already taken, with the current player's symbol.
   */
  lemma OccupiedCellIsOverwritten(games: map<string, Game>, gameId: string, index: int, mover: string,
                                  symbolOf: string -> Option<Symbol>)
    requires AllWellFormed(games) && CanMove(games, gameId, mover, symbolOf)
    requires 0 <= index < 9 && games[gameId].gameBoard[index].Val?
    ensures var r := Move(games, gameId, index, mover, symbolOf);
      r[gameId].gameBoard[index] == Val(games[gameId].currentPlayer)
      && MoveReplyFor(games, gameId, index, mover, symbolOf, (g: Game) => g).GameStateUpdate?
  {
  }

  /**
   * The `move` guard looks at neither the board nor the winner: replacing
   * them leaves the verdict as it was, so a full board or a finished game
   * does not stop a move.
   */
  lemma GuardIgnoresBoardAndWinner(games: map<string, Game>, gameId: string, mover: string,
                                   symbolOf: string -> Option<Symbol>, board: seq<Slot<Symbol>>, winner: Option<Symbol>)
    requires gameId in games
    ensures var changed := games[gameId := games[gameId].(gameBoard := board, winner := winner)];
      CanMove(changed, gameId, mover, symbolOf) <==> CanMove(games, gameId, mover, symbolOf)
  {
  }
}
