/**
 * The multiplayer component of the second front end (client/src/Game.js):
 * its state record, the socket handlers that replace parts of it, the guard
 * that decides whether a click on a square is sent to the server, and the
 * player id it reads from, or writes to, the `playerId` cookie on mount.
 *
 * Message payloads are records of what the handlers read.  A field the
 * payload may leave out is a `Slot`: `Hole` for `undefined`, `Null` for
 * `null`.  Emitting to the socket is reduced to the message a handler would
 * emit.
 */
module ClientGame {
  import opened Common
  import opened Text
  import opened Utils

  /** A board cell as the squares read it: a symbol and the id of its image. */
  datatype Mark = Mark(symbol: string, imageId: string)

  /** The tallies `{X, O, draws}`. */
  datatype Results = Results(x: int, o: int, draws: int)

  /** The component state. */
  datatype State = State(
    gameId: Slot<string>,
    board: seq<Slot<Mark>>,
    currentPlayer: Slot<string>,
    winner: Slot<string>,
    joinGameId: string,
    playerSymbol: Slot<string>,
    isGameCreated: bool,
    isGameStarted: bool,
    results: Results,
    showNewGameButton: bool,
    myGames: seq<string>,
    shareableLink: Slot<string>,
    opponentId: Slot<string>)

  /** Payload of `gameCreated`. */
  datatype CreatedData = CreatedData(gameId: Slot<string>, shareableLink: Slot<string>)

  /** Payload of `gameStart`. */
  datatype StartData = StartData(gameId: Slot<string>, players: seq<Slot<string>>)

  /** Payload of `rejoinedGame`. */
  datatype RejoinData = RejoinData(gameId: Slot<string>, playerSymbol: Slot<string>, opponentId: Slot<string>)

  /** Payload of `gameStateUpdate` and of `newGameStarted`. */
  datatype BoardData = BoardData(board: seq<Slot<Mark>>, currentPlayer: Slot<string>, winner: Slot<string>,
                                 results: Results)

  /** The `move` message a click emits. */
  datatype MoveMsg = MoveMsg(gameId: Slot<string>, index: int, playerId: Slot<string>)

  /** The `joinGame` message. */
  datatype JoinMsg = JoinMsg(gameId: string, playerId: Slot<string>)

  /**
   * The state the constructor sets: no game, nine `null` cells, X to play,
   * no winner, zero tallies, nothing created or started.  The share link and
   * the opponent are not set, so they read as `undefined`.
   */
  function Initial(): (s: State)
    ensures s.gameId == Null && s.winner == Null && s.playerSymbol == Null
    ensures |s.board| == 9 && forall j :: 0 <= j < 9 ==> s.board[j] == Null
    ensures s.currentPlayer == Val("X") && s.joinGameId == ""
    ensures !s.isGameCreated && !s.isGameStarted && !s.showNewGameButton
    ensures s.results == Results(0, 0, 0) && s.myGames == []
    ensures s.shareableLink == Hole && s.opponentId == Hole
  {
    State(Null, Nulls(9), Val("X"), Null, "", Null, false, false, Results(0, 0, 0), false, [], Hole, Hole)
  }

  /** `handleGameCreated`: the game id and the share link from the payload; the game counts as created. */
  function GameCreated(s: State, data: CreatedData): (r: State)
    ensures r.gameId == data.gameId && r.shareableLink == data.shareableLink && r.isGameCreated
    ensures r.(gameId := s.gameId, shareableLink := s.shareableLink, isGameCreated := s.isGameCreated) == s
  {
    s.(gameId := data.gameId, shareableLink := data.shareableLink, isGameCreated := true)
  }

  /**
   * `players.find(id => id !== me)`: the first seat holding someone else
   * (an empty seat counts), or `undefined` when every seat holds `me`.
   */
  function FindOpponent(players: seq<Slot<string>>, me: Slot<string>): (r: Slot<string>)
    ensures (forall j :: 0 <= j < |players| ==> players[j] == me) ==> r == Hole
    ensures (exists k :: 0 <= k < |players| && players[k] != me) ==>
      exists k :: 0 <= k < |players| && players[k] != me && r == players[k]
        && forall j :: 0 <= j < k ==> players[j] == me
    decreases |players|
  {
    if players == [] then Hole
    else if players[0] != me then players[0]
    else
      var r := FindOpponent(players[1..], me);
      assert forall j :: 1 <= j < |players| ==> players[j] == players[1..][j - 1];
      r
  }

  /** The symbol `handleGameStart` picks: X for whoever sits in the first seat, O for anyone else. */
  function SymbolFor(players: seq<Slot<string>>, me: Slot<string>): (sym: string)
    ensures sym == "X" <==> At(players, 0) == me
    ensures sym == "X" || sym == "O"
  {
    if At(players, 0) == me then "X" else "O"
  }

  /**
   * `handleGameStart`: the game id from the payload, the game created and
   * started, this player's symbol and the opponent read off the seats.
   */
  function GameStart(s: State, data: StartData, playerId: Slot<string>): (r: State)
    ensures r.gameId == data.gameId && r.isGameStarted && r.isGameCreated
    ensures r.playerSymbol == Val(SymbolFor(data.players, playerId))
    ensures r.opponentId == FindOpponent(data.players, playerId)
    ensures r.(gameId := s.gameId, isGameStarted := s.isGameStarted, playerSymbol := s.playerSymbol,
               isGameCreated := s.isGameCreated, opponentId := s.opponentId) == s
  {
    s.(gameId := data.gameId, isGameStarted := true, playerSymbol := Val(SymbolFor(data.players, playerId)),
       isGameCreated := true, opponentId := FindOpponent(data.players, playerId))
  }

  /** `handleRejoinedGame`: id, symbol and opponent taken verbatim; the game is created and started. */
  function RejoinedGame(s: State, data: RejoinData): (r: State)
    ensures r.gameId == data.gameId && r.playerSymbol == data.playerSymbol && r.opponentId == data.opponentId
    ensures r.isGameCreated && r.isGameStarted
    ensures r.(gameId := s.gameId, playerSymbol := s.playerSymbol, isGameCreated := s.isGameCreated,
               isGameStarted := s.isGameStarted, opponentId := s.opponentId) == s
  {
    s.(gameId := data.gameId, playerSymbol := data.playerSymbol, isGameCreated := true,
       isGameStarted := true, opponentId := data.opponentId)
  }

  /**
   * `gameEnded` in `handleGameStateUpdate`: the winner is anything but
   * `null` (so also a missing one), or the board has no `null` cell.
   */
  function GameEnded(data: BoardData): (b: bool)
    ensures !b <==> data.winner == Null && Null in data.board
  {
    data.winner != Null || !IncludesNull(data.board)
  }

  /**
   * `handleGameStateUpdate`: board, turn, winner and tallies from the
   * payload, and the New Game button shown exactly when the game ended.
   */
  function GameStateUpdate(s: State, data: BoardData): (r: State)
    ensures r.board == data.board && r.currentPlayer == data.currentPlayer
    ensures r.winner == data.winner && r.results == data.results
    ensures r.showNewGameButton <==> data.winner != Null || !IncludesNull(data.board)
    ensures r.(board := s.board, currentPlayer := s.currentPlayer, winner := s.winner,
               showNewGameButton := s.showNewGameButton, results := s.results) == s
  {
    s.(board := data.board, currentPlayer := data.currentPlayer, winner := data.winner,
       showNewGameButton := GameEnded(data), results := data.results)
  }

  /**
   * `handleNewGameStarted`: board, turn and tallies from the payload, the
   * winner cleared to `null` and the New Game button hidden.
   */
  function NewGameStarted(s: State, data: BoardData): (r: State)
    ensures r.board == data.board && r.currentPlayer == data.currentPlayer && r.results == data.results
    ensures r.winner == Null && !r.showNewGameButton
    ensures r.(board := s.board, currentPlayer := s.currentPlayer, winner := s.winner,
               showNewGameButton := s.showNewGameButton, results := s.results) == s
  {
    s.(board := data.board, currentPlayer := data.currentPlayer, winner := Null,
       showNewGameButton := false, results := data.results)
  }

  /** `handleMyGamesList`: the listed ids replace `myGames`. */
  function MyGamesList(s: State, games: seq<string>): (r: State)
    ensures r.myGames == games && r.(myGames := s.myGames) == s
  {
    s.(myGames := games)
  }

  /** `handleJoinGameInputChange`: the text typed replaces `joinGameId`. */
  function JoinGameInputChange(s: State, value: string): (r: State)
    ensures r.joinGameId == value && r.(joinGameId := s.joinGameId) == s
  {
    s.(joinGameId := value)
  }

  /**
   * The guard of `handleSquareClick`: the game has started, the cell is
   * falsy, the winner is falsy, and it is this player's symbol's turn.
   */
  function CanSend(s: State, index: int): (b: bool)
    ensures b <==> && s.isGameStarted && At(s.board, index) in {Hole, Null} && s.winner in {Hole, Null, Val("")}
                   && s.playerSymbol == s.currentPlayer
  {
    s.isGameStarted && !At(s.board, index).Val? && !Truthy(s.winner) && s.playerSymbol == s.currentPlayer
  }

  /** The `move` message a click on square `index` emits, if any; the state never changes. */
  function ClickMove(s: State, index: int, playerId: Slot<string>): (m: Option<MoveMsg>)
    ensures m.Some? <==> s.isGameStarted && !At(s.board, index).Val? && !Truthy(s.winner)
                         && s.playerSymbol == s.currentPlayer
    ensures m.Some? ==> m.value.gameId == s.gameId && m.value.index == index && m.value.playerId == playerId
  {
    if CanSend(s, index) then Some(MoveMsg(s.gameId, index, playerId)) else None
  }

  /** The `playerId` cookie is missing or empty. */
  function NoPlayerId(cookie: string): (b: bool)
    ensures !b <==> exists id :: GetCookie("playerId", cookie) == Some(id) && id != ""
  {
    var found := GetCookie("playerId", cookie);
    found.None? || found.value == ""
  }

  /**
   * The player id `componentDidMount` settles on, given `document.cookie`,
   * twelve random draws and the expiry date the clock gives, with the cookie
   * string it writes when it had to make a new id: the cookie's id when it
   * is there and non-empty, otherwise a fresh id stored for 365 days.
   */
  function PlayerIdOnMount(cookie: string, draws: seq<Draw>, expiresAt: string): (r: (string, Option<string>))
    requires |draws| == 12
    ensures !NoPlayerId(cookie) ==> r.0 == GetCookie("playerId", cookie).value && r.1 == None
    ensures NoPlayerId(cookie) ==>
      && r.0 == GeneratePlayerId(draws)
      && r.1 == Some(SetCookie("playerId", Some(r.0), 365, expiresAt, false, DefaultSameSite))
    ensures ';' !in r.0
  {
    var found := GetCookie("playerId", cookie);
    if found.Some? && found.value != "" then (found.value, None)
    else
      var id := GeneratePlayerId(draws);
      GeneratedIdIsCookieSafe(draws);
      (id, Some(SetCookie("playerId", Some(id), 365, expiresAt, false, DefaultSameSite)))
  }

  /**
   * The first lines of `componentDidMount`: keep the id the `playerId`
   * cookie holds, or generate one and write the cookie for it.
   */
  method SettlePlayerId(cookie: string, draws: seq<Draw>, expiresAt: string)
    returns (playerId: string, written: Option<string>)
    requires |draws| == 12
    ensures (playerId, written) == PlayerIdOnMount(cookie, draws, expiresAt)
  {
    var id := GetCookie("playerId", cookie);
    if id.None? || id.value == "" {
      id := Some(GeneratePlayerId(draws));
      written := Some(SetCookie("playerId", id, 365, expiresAt, false, DefaultSameSite));
    } else {
      written := None;
    }
    playerId := id.value;
  }

  /** The `gameStart` seats as seen by the two players: opposite symbols, each the other's opponent. */
  lemma SeatsGetOppositeSymbols(s: State, gameId: Slot<string>, first: Slot<string>, second: Slot<string>)
    requires first != second
    ensures var data := StartData(gameId, [first, second]);
      var a := GameStart(s, data, first);
      var b := GameStart(s, data, second);
      && a.playerSymbol == Val("X") && b.playerSymbol == Val("O")
      && a.opponentId == second && b.opponentId == first
  {
    var players := [first, second];
    assert players[1..] == [second];
    assert FindOpponent(players, first) == second;
    assert FindOpponent([second], second) == Hole;
  }

  /** A player who finds no one else seated gets no opponent. */
  lemma AloneHasNoOpponent(s: State, gameId: Slot<string>, me: Slot<string>)
    ensures GameStart(s, StartData(gameId, [me, Null]), me).opponentId == (if me == Null then Hole else Null)
  {
    var players: seq<Slot<string>> := [me, Null];
    var rest: seq<Slot<string>> := [Null];
    assert players[1..] == rest;
    assert rest[1..] == [];
    assert FindOpponent(players, me) == FindOpponent(rest, me);
  }

  /** Rejoining with the symbol and opponent the server would hand out lands in the same state as starting. */
  lemma RejoinMatchesStart(s: State, data: StartData, playerId: Slot<string>)
    ensures RejoinedGame(s, RejoinData(data.gameId, Val(SymbolFor(data.players, playerId)),
                                       FindOpponent(data.players, playerId)))
         == GameStart(s, data, playerId)
  {
  }

  /** A game that is created but not yet started sends no moves. */
  lemma CreatedGameSendsNoMoves(s: State, data: CreatedData, index: int, playerId: Slot<string>)
    requires !s.isGameStarted
    ensures ClickMove(GameCreated(s, data), index, playerId) == None
  {
  }

  /**
   * With a settled winner (`null` or a non-empty symbol) and a board
   * without holes, the New Game button appears exactly when no square can
   * be clicked any more, for the player whose turn it is.
   */
  lemma ButtonIffBoardClosed(s: State, data: BoardData, playerId: Slot<string>)
    requires s.isGameStarted && s.playerSymbol == data.currentPlayer
    requires data.winner == Null || Truthy(data.winner)
    requires forall j :: 0 <= j < |data.board| ==> data.board[j] != Hole
    ensures var r := GameStateUpdate(s, data);
      r.showNewGameButton <==> forall i :: 0 <= i < |r.board| ==> ClickMove(r, i, playerId).None?
  {
    var r := GameStateUpdate(s, data);
    if !r.showNewGameButton {
      var j :| 0 <= j < |data.board| && data.board[j] == Null;
      assert ClickMove(r, j, playerId).Some?;
    }
  }

  /**
   * An update whose winner field is missing shows the New Game button, yet
   * a `null` cell can still be clicked and the move is sent.
   */
  lemma MissingWinnerEndsButStaysOpen(s: State, data: BoardData, index: int, playerId: Slot<string>)
    requires data.winner == Hole && s.isGameStarted && s.playerSymbol == data.currentPlayer
    requires 0 <= index < |data.board| && data.board[index] == Null
    ensures GameStateUpdate(s, data).showNewGameButton
    ensures ClickMove(GameStateUpdate(s, data), index, playerId).Some?
  {
  }

  /** A new game is a state update with the winner cleared, when the new board has a `null` cell. */
  lemma NewGameIsClearedUpdate(s: State, data: BoardData)
    requires IncludesNull(data.board)
    ensures NewGameStarted(s, data) == GameStateUpdate(s, data.(winner := Null))
  {
  }

  /** An id read from the cookie is kept and nothing is written; the round trip through the jar. */
  lemma MountKeepsStoredId(jar: seq<Pair>, j: nat, draws: seq<Draw>, expiresAt: string)
    requires |draws| == 12
    requires j < |jar| && forall i :: 0 <= i < |jar| ==> WellFormedPair(jar[i])
    requires jar[j].name == "playerId" && jar[j].value != ""
    requires forall i :: 0 <= i < |jar| && i != j ==> jar[i].name != "playerId"
    ensures PlayerIdOnMount(DocumentCookie(jar), draws, expiresAt) == (jar[j].value, None)
  {
    GetCookieFindsPair(jar, j);
  }

  /** The cookie written for a new id, split into its attributes. */
  lemma NewIdCookie(id: string, expiresAt: string)
    requires ';' !in id && ';' !in expiresAt
    ensures Split(SetCookie("playerId", Some(id), 365, expiresAt, false, DefaultSameSite), "; ")
         == ["playerId=" + id, "expires=" + expiresAt, "path=/", "SameSite=Lax"]
  {
    assert "SameSite=" + DefaultSameSite == "SameSite=Lax";
    assert "playerId" + "=" + id == "playerId=" + id;
    assert ';' !in "playerId" && ';' !in DefaultSameSite;
    SetCookieAttributes("playerId", Some(id), 365, expiresAt, false, DefaultSameSite);
  }

  /**
   * Without a stored id, the new id has the generated shape and the cookie
   * written for it splits into `playerId=<id>`, the expiry, `path=/` and
   * `SameSite=Lax`.
   */
  lemma MountWritesNewId(jar: seq<Pair>, draws: seq<Draw>, expiresAt: string)
    requires |draws| == 12 && ';' !in expiresAt
    requires forall i :: 0 <= i < |jar| ==> WellFormedPair(jar[i]) && jar[i].name != "playerId"
    ensures var r := PlayerIdOnMount(DocumentCookie(jar), draws, expiresAt);
      && |r.0| == 14 && r.0[4] == '-' && r.0[9] == '-'
      && r.1.Some?
      && Split(r.1.value, "; ") == ["playerId=" + r.0, "expires=" + expiresAt, "path=/", "SameSite=Lax"]
  {
    GetCookieMissing(jar, "playerId");
    GeneratedIdFormat(draws);
    GeneratedIdIsCookieSafe(draws);
    NewIdCookie(GeneratePlayerId(draws), expiresAt);
  }

  /** The React component: its state fields, and the `playerId` it keeps outside the state. */
  class Game {
    var gameId: Slot<string>
    var board: seq<Slot<Mark>>
    var currentPlayer: Slot<string>
    var winner: Slot<string>
    var joinGameId: string
    var playerSymbol: Slot<string>
    var isGameCreated: bool
    var isGameStarted: bool
    var results: Results
    var showNewGameButton: bool
    var myGames: seq<string>
    var shareableLink: Slot<string>
    var opponentId: Slot<string>
    var playerId: Slot<string>

    function Current(): State
      reads this
    {
      State(gameId, board, currentPlayer, winner, joinGameId, playerSymbol, isGameCreated, isGameStarted,
            results, showNewGameButton, myGames, shareableLink, opponentId)
    }

    /** The constructor; `playerId` stays `undefined` until the component mounts. */
    constructor ()
      ensures Current() == Initial() && playerId == Hole
    {
      gameId, board, currentPlayer, winner := Null, Nulls(9), Val("X"), Null;
      joinGameId, playerSymbol, isGameCreated, isGameStarted := "", Null, false, false;
      results, showNewGameButton, myGames := Results(0, 0, 0), false, [];
      shareableLink, opponentId, playerId := Hole, Hole, Hole;
    }

    /**
     * `componentDidMount` without the `listMyGames` emit: settle the player
     * id, then, when the page URL carries a truthy `gameId`, put it in
     * `joinGameId` and join that game.
     */
    method ComponentDidMount(cookie: string, draws: seq<Draw>, expiresAt: string, urlGameId: Slot<string>)
      returns (written: Option<string>, join: Option<JoinMsg>)
      requires |draws| == 12
      modifies this
      ensures playerId == Val(PlayerIdOnMount(cookie, draws, expiresAt).0)
      ensures written == PlayerIdOnMount(cookie, draws, expiresAt).1
      ensures Truthy(urlGameId) ==>
        Current() == JoinGameInputChange(old(Current()), urlGameId.v)
        && join == Some(JoinMsg(urlGameId.v, playerId))
      ensures !Truthy(urlGameId) ==> Current() == old(Current()) && join == None
    {
      var id;
      id, written := SettlePlayerId(cookie, draws, expiresAt);
      playerId := Val(id);
      if Truthy(urlGameId) {
        joinGameId := urlGameId.v;
        join := Some(JoinMsg(joinGameId, playerId));
      } else {
        join := None;
      }
    }

    method HandleGameCreated(data: CreatedData)
      modifies this
      ensures Current() == GameCreated(old(Current()), data) && playerId == old(playerId)
    {
      gameId, shareableLink, isGameCreated := data.gameId, data.shareableLink, true;
    }

    method HandleGameStart(data: StartData)
      modifies this
      ensures Current() == GameStart(old(Current()), data, playerId) && playerId == old(playerId)
    {
      var symbol := if At(data.players, 0) == playerId then "X" else "O";
      var opponent := FindOpponent(data.players, playerId);
      gameId, isGameStarted, playerSymbol, isGameCreated, opponentId := data.gameId, true, Val(symbol), true, opponent;
    }

    method HandleRejoinedGame(data: RejoinData)
      modifies this
      ensures Current() == RejoinedGame(old(Current()), data) && playerId == old(playerId)
    {
      gameId, playerSymbol, isGameCreated, isGameStarted, opponentId :=
        data.gameId, data.playerSymbol, true, true, data.opponentId;
    }

    method HandleGameStateUpdate(data: BoardData)
      modifies this
      ensures Current() == GameStateUpdate(old(Current()), data) && playerId == old(playerId)
    {
      var gameEnded := data.winner != Null || !IncludesNull(data.board);
      board, currentPlayer, winner, showNewGameButton, results :=
        data.board, data.currentPlayer, data.winner, gameEnded, data.results;
    }

    /** `handleSquareClick(index)`: changes nothing, and emits the move when the guard holds. */
    method HandleSquareClick(index: int) returns (sent: Option<MoveMsg>)
      ensures sent == ClickMove(Current(), index, playerId)
    {
      if isGameStarted && !At(board, index).Val? && !Truthy(winner) && playerSymbol == currentPlayer {
        sent := Some(MoveMsg(gameId, index, playerId));
      } else {
        sent := None;
      }
    }

    method HandleMyGamesList(games: seq<string>)
      modifies this
      ensures Current() == MyGamesList(old(Current()), games) && playerId == old(playerId)
    {
      myGames := games;
    }

    method HandleJoinGameInputChange(value: string)
      modifies this
      ensures Current() == JoinGameInputChange(old(Current()), value) && playerId == old(playerId)
    {
      joinGameId := value;
    }

    /** `joinGame`: the `joinGame` message for the id in `joinGameId`; the state is untouched. */
    method JoinGame() returns (join: JoinMsg)
      ensures join.gameId == joinGameId && join.playerId == playerId
    {
      join := JoinMsg(joinGameId, playerId);
    }

    /** `joinGameDirectly(gameId)`: put the id in `joinGameId`, then join that game. */
    method JoinGameDirectly(gameId: string) returns (join: JoinMsg)
      modifies this
      ensures Current() == JoinGameInputChange(old(Current()), gameId) && playerId == old(playerId)
      ensures join == JoinMsg(gameId, playerId)
    {
      joinGameId := gameId;
      join := JoinGame();
    }

    method HandleNewGameStarted(data: BoardData)
      modifies this
      ensures Current() == NewGameStarted(old(Current()), data) && playerId == old(playerId)
    {
      board, currentPlayer, winner, showNewGameButton, results :=
        data.board, data.currentPlayer, Null, false, data.results;
    }
  }
}
