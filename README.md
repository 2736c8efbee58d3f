# X-s-and-O-s: a Dafny model of the game registry, the two board components and the cookie helpers

The repository is a two-player noughts-and-crosses game played over socket.io.
This project models the four parts of it that hold logic, each in its own module:

- `Server` (`server.dfy`): the Node server's `games` table (backend/server.js).
  `createGame` stores a fresh record. The `joinGame` handler seats a second player.
  The `move` handler writes one cell after a three-part guard. The class
  `GameServer` holds the table as a `map` and updates it in place. The functions
  `Create`, `Join` and `Move` state what each handler leaves behind.
- `LocalGame` (`local_game.dfy`): the single-board React component of the first
  front end (frontend/tic-tac-toe/src/Game.js). It covers a local click, a move
  relayed by the server, and the status line.
- `ClientGame` (`client_game.dfy`): the multiplayer React component of the second
  front end (client/src/Game.js). It covers the state record, the socket handlers
  that replace parts of it, the guard that decides whether a click is sent, and
  how the player id is settled on mount.
- `Utils` (`utils.dfy`): `getCookie`, `setCookie` and `generatePlayerId`
  (client/src/utils.js).

Two shared modules support them:

- `Common` (`common.dfy`) models JavaScript arrays. A slot is a hole, `null` or a
  value, and writing past the end grows the array with holes.
- `Text` (`text.dfy`) models `indexOf`, `split` and `join` on strings.

Each React component is a class whose fields are the component's state. Each
handler is a method whose postcondition ties the new state to a function of the
old one. The lemmas are stated about those functions. The helpers that the source
calls but does not define are parameters: `calculateWinner`, `getPlayerSymbol`
and `serializeGameState`. The following are inputs: the cookie jar, the expiry
date the clock gives, the twelve random draws of `generatePlayerId`, the game id
`generateGameId` draws, and the socket id of the sender.

Three things about the code shape the model:

- The `move` handler (backend/server.js:74-89) checks neither whether the cell
  is free nor whether the game is over. It detects no win or draw and does not
  toggle the turn. It writes the current player's symbol even over a taken
  cell, and leaves `currentPlayer` and `winner` as they were
  (`Server.OccupiedCellIsOverwritten`, `Server.MovesKeepSeatsAndTurn`,
  `Server.GuardIgnoresBoardAndWinner`).
- The `joinGame` handler (backend/server.js:61-71) only checks whether the
  second seat is falsy. The creator of an open game who joins it takes the second
  seat as well, and the game is then closed to everyone
  (`Server.CreatorFillsOwnGame`). Once the second seat holds a non-empty id,
  every join, by the player in it or by anyone else, gets the error "Game not
  found or already full" (`Server.JoinFillsGame`).
- The server emits `gameCreated` with the bare id string and `gameStart` with no
  payload (backend/server.js:57, 66). The client handlers read `data.gameId`,
  `data.shareableLink` and `data.players` (client/src/Game.js:66-96). The
  client model takes the payloads the client reads, as records. The other way
  round, the client sends `joinGame` as `{ gameId, playerId }`
  (client/src/Game.js:143) while the server uses that argument itself as the key
  (backend/server.js:61-62), so such a join finds no game. Each side is modelled
  as its own code has it.

## Model

| member | source | states |
|---|---|---|
| Common.Truthy | client/src/Game.js:52 | a string that may be missing is truthy iff it is not undefined, `null` or `""` |
| Common.Symbol.Other | frontend/tic-tac-toe/src/Game.js:36 | the `currentPlayer === 'X' ? 'O' : 'X'` toggle always yields the other symbol |
| Common.OtherInvolution | frontend/tic-tac-toe/src/Game.js:36-39 | toggling twice gives back the symbol toggled |
| Common.At | client/src/Game.js:125 | `a[i]` is the element for an index inside the array and undefined otherwise |
| Common.Nulls | backend/server.js:34 | `Array(n).fill(null)` has `n` cells, all `null` |
| Common.IncludesNull | client/src/Game.js:109 | `a.includes(null)` holds iff `null` is among the cells, and fails iff every cell is not `null` |
| Common.Assign | backend/server.js:78 | `a[i] = v` on an array: for an array index, the element at `i` becomes `v`, every other element is unchanged, the length becomes `max(len, i+1)`, and any gap reads as a hole; a write at a non-index leaves the elements alone |
| Server.NewGame | backend/server.js:32-37 | the record `createGame` stores: `players` is the two given seats, the board is nine `null` cells, X is to play and there is no winner; it has the shape every stored record keeps |
| Server.Create | backend/server.js:27-39 | the record is stored under the drawn id with `players = [p1, p2]`, nine `null` cells, X to play and no winner; an existing entry with that id is replaced; every other entry and key is unchanged |
| Server.CanJoin | backend/server.js:62-63 | the join guard holds iff the game exists and its second seat is missing, a hole, `null` or the empty string |
| Server.Join | backend/server.js:61-71 | the join succeeds iff the game exists and its second seat is falsy; on success only `players[1]` changes, to the joiner; on failure the table is unchanged and the reply is "Game not found or already full"; keys and other games are never touched |
| Server.Move | backend/server.js:74-79 | rejected moves leave the table unchanged; an accepted move writes `currentPlayer` at `index` and changes no other cell, seat, turn or winner, whatever the cell held; other games are unchanged |
| Server.IsPlayer | backend/server.js:76 | `players.includes(id)` holds iff some seat holds exactly that id |
| Server.CanMove | backend/server.js:75-76 | an accepted mover's game exists, the mover is seated and `getPlayerSymbol` gives a symbol; for a seated mover of an existing game, the guard holds iff that symbol is `currentPlayer` |
| Server.MoveReplyFor | backend/server.js:80-88 | the reply is a state update iff the guard holds (game exists, mover seated, `getPlayerSymbol(mover)` equals `currentPlayer`), carrying the serialized record after the write; otherwise "Invalid move" |
| Server.GameServer.constructor | backend/server.js:24 | the table starts empty |
| Server.GameServer.CreateGame | backend/server.js:27-40 | returns the drawn id and leaves the table as `Create` says |
| Server.GameServer.OnCreateGame | backend/server.js:52-58 | the creator sits in seat 0 and seat 1 is `null` |
| Server.GameServer.OnJoinGame | backend/server.js:61-71 | the table and the reply are those of `Join` |
| Server.GameServer.OnMove | backend/server.js:74-89 | the table is that of `Move` and the reply that of `MoveReplyFor` |
| Server.JoinFillsGame | backend/server.js:63-64 | once a joiner with a non-empty id takes the second seat, every later join of that game fails and changes nothing |
| Server.CreatorFillsOwnGame | backend/server.js:54-66 | the creator (with a non-empty id) who joins their own fresh game is seated twice, gets `gameStart`, and any later join of that game fails and changes nothing |
| Server.CreatedGameIsJoinable | backend/server.js:54-64 | a game made by the `createGame` event accepts a joiner, who lands in the second seat beside the creator |
| Server.MovesKeepSeatsAndTurn | backend/server.js:76-79 | over any run of moves, no game's seats, turn or winner change, and a mover the guard accepts stays accepted |
| Server.OccupiedCellIsOverwritten | backend/server.js:76-78 | an accepted move on a taken cell overwrites it with the current player's symbol and is answered with a state update |
| Server.GuardIgnoresBoardAndWinner | backend/server.js:76-78 | replacing a game's board and winner does not change whether a move is accepted, so neither a taken cell nor a finished game stops one |
| Text.IndexOf | client/src/utils.js:3 | the result is the first position where the separator occurs, or none when it occurs nowhere |
| Text.Split | client/src/utils.js:3-4 | at least one part; the parts joined by the separator give the string back; no part contains the separator |
| Utils.Marker | client/src/utils.js:3 | the split marker `"; " + name + "="` starts with `;` and is three characters longer than the name |
| Utils.FirstField | client/src/utils.js:4 | `split(';').shift()` is a prefix of its input that holds no `;` and ends at the first `;` or at the end of the input |
| Utils.GetCookie | client/src/utils.js:1-5 | a value is returned iff `"; name="` occurs in `"; " + cookie` and not again after its first occurrence; the value is the text after it up to the next `;`, and never holds a `;` |
| Utils.GetCookieFindsPair | client/src/utils.js:2-4 | in a jar of well-formed pairs where a name occurs once, `getCookie(name)` returns that pair's value |
| Utils.GetCookieMissing | client/src/utils.js:2-4 | for a name no pair carries, `getCookie` returns undefined |
| Utils.SuffixNameNotMatched | client/src/utils.js:2-3 | the cookie `xplayerId=abc` is not found under `playerId` |
| Utils.SetCookie | client/src/utils.js:7-18 | the cookie string starts with `name=` |
| Utils.JoinAttributes | client/src/utils.js:15-17 | the string `setCookie` builds is its attributes joined by `"; "` |
| Utils.SetCookieAttributes | client/src/utils.js:8-17 | with `;`-free parts, the string splits into `name=value`, then `expires=…` only for non-zero `days`, then `path=/`, then `Secure` only when `secure`, then `SameSite=…`; a missing value gives `name=` |
| Utils.HexDigit | client/src/utils.js:24 | `v.toString(16)`: the digit `0`-`9` for values below ten, `a`-`f` above |
| Utils.HexValue | client/src/utils.js:24 | the value of a lower-case hex digit, the inverse of `toString(16)` |
| Utils.Callback | client/src/utils.js:21-24 | the callback returns a value below 16, and the draw itself for a matched `x` |
| Utils.Replace | client/src/utils.js:21-25 | the filled template has the template's length, a hex digit at each `x` and the template's character elsewhere |
| Utils.ReplaceDigits | client/src/utils.js:21-24 | each digit read back gives its draw in order, so the masking branch for characters other than `x` is never taken |
| Utils.TemplateShape | client/src/utils.js:21 | the template has fourteen characters, twelve of them `x` and `-` at 4 and 9 |
| Utils.GeneratePlayerId | client/src/utils.js:20-26 | the id is as long as the template `xxxx-xxxx-xxxx` |
| Utils.GeneratedIdFormat | client/src/utils.js:20-26 | a generated id has fourteen characters, `-` at positions 4 and 9, lower-case hex elsewhere, and the draws recoverable from the digits in order |
| Utils.GeneratedIdIsCookieSafe | client/src/utils.js:20-26 | a generated id holds neither `;` nor `=` |
| LocalGame.Initial | frontend/tic-tac-toe/src/Game.js:10-14 | nine `null` cells, X to play, no winner |
| LocalGame.CanClick | frontend/tic-tac-toe/src/Game.js:46 | a click passes iff there is no winner and the cell reads as a hole, undefined or `null` |
| LocalGame.Click | frontend/tic-tac-toe/src/Game.js:45-61 | a click whose cell is falsy while there is no winner writes the current symbol at `index` only, toggles the turn and sets `winner` from `calculateWinner` on the new board; any other click changes nothing |
| LocalGame.ServerMove | frontend/tic-tac-toe/src/Game.js:33-43 | unguarded: the symbol opposite to `currentPlayer` is written at `index` only, the turn is toggled, `winner` comes from `calculateWinner` |
| LocalGame.Status | frontend/tic-tac-toe/src/Game.js:77-86 | the status line is never shorter than "Draw!" (what it says is stated by the three `StatusReports` lemmas) |
| LocalGame.StatusReportsWinner | frontend/tic-tac-toe/src/Game.js:79-80 | the line starts with "Winner: " iff there is a winner, and the winner's symbol follows |
| LocalGame.StatusReportsNextPlayer | frontend/tic-tac-toe/src/Game.js:77-85 | the line starts with "Next player: " iff there is no winner and a `null` cell is left, and `currentPlayer`'s symbol follows |
| LocalGame.StatusDistinguishes | frontend/tic-tac-toe/src/Game.js:77-86 | two states with the same line have the same winner and, while play goes on, the same player to move |
| LocalGame.StatusReportsDraw | frontend/tic-tac-toe/src/Game.js:81-82 | the line is "Draw!" iff there is no winner and no cell is `null` |
| LocalGame.InitialStatus | frontend/tic-tac-toe/src/Game.js:77-86 | a new game shows "Next player: X" |
| LocalGame.ClicksKeepNineCells | frontend/tic-tac-toe/src/Game.js:93-105 | clicks on the rendered squares 0 to 8 keep the board at nine cells |
| LocalGame.ClicksKeepMarks | frontend/tic-tac-toe/src/Game.js:46-48 | no run of clicks overwrites a cell that holds a symbol |
| LocalGame.WinnerFreezesClicks | frontend/tic-tac-toe/src/Game.js:46 | once there is a winner, clicks change nothing |
| LocalGame.InitialAlternating | frontend/tic-tac-toe/src/Game.js:10-14 | the initial state has as many X as O with X to move |
| LocalGame.ClickKeepsAlternating | frontend/tic-tac-toe/src/Game.js:45-55 | a click keeps the X count equal to the O count when X is to move, and one higher when O is to move |
| LocalGame.ClicksAlternate | frontend/tic-tac-toe/src/Game.js:45-55 | the same holds after any run of clicks on the rendered squares |
| LocalGame.RelayKeepsMirror | frontend/tic-tac-toe/src/Game.js:33-55 | a clicking component and a component relaying that move keep equal boards and winners, and their turns stay opposite |
| LocalGame.RelayFromSameStateDiverges | frontend/tic-tac-toe/src/Game.js:36-48 | from one state, a click and the relayed move write different symbols in the clicked cell |
| LocalGame.Game.constructor | frontend/tic-tac-toe/src/Game.js:8-14 | the component starts in the initial state |
| LocalGame.Game.HandleSquareClick | frontend/tic-tac-toe/src/Game.js:45-61 | the new state is `Click` of the old one, and the index is sent exactly when the guard held |
| LocalGame.Game.HandleMoveFromServer | frontend/tic-tac-toe/src/Game.js:33-43 | the new state is `ServerMove` of the old one |
| LocalGame.Game.RenderGameStatus | frontend/tic-tac-toe/src/Game.js:77-86 | the line is `Status` of the current state |
| ClientGame.Initial | client/src/Game.js:11-23 | no game id, nine `null` cells, X to play, `null` winner and symbol, zero tallies, nothing created or started, no games listed |
| ClientGame.GameCreated | client/src/Game.js:66-70 | game id and share link from the payload, the game marked created, nothing else changed |
| ClientGame.FindOpponent | client/src/Game.js:88 | `find`: the first seat whose occupant differs from this player, or undefined when every seat holds this player |
| ClientGame.SymbolFor | client/src/Game.js:87 | X iff the first seat holds this player, otherwise O |
| ClientGame.GameStart | client/src/Game.js:86-96 | game id from the payload, created and started, the symbol and opponent read off the seats, nothing else changed |
| ClientGame.RejoinedGame | client/src/Game.js:98-106 | id, symbol and opponent copied verbatim, created and started set, nothing else changed |
| ClientGame.GameEnded | client/src/Game.js:109 | the game has not ended iff the winner is exactly `null` and some cell is `null` |
| ClientGame.GameStateUpdate | client/src/Game.js:108-117 | board, turn, winner and tallies copied; the New Game button shows iff the winner is not `null` or no cell is `null`; nothing else changed |
| ClientGame.NewGameStarted | client/src/Game.js:158-166 | board, turn and tallies copied, winner reset to `null`, button hidden, nothing else changed |
| ClientGame.MyGamesList | client/src/Game.js:130-132 | the listed ids replace `myGames`, nothing else changes |
| ClientGame.JoinGameInputChange | client/src/Game.js:150-152 | the typed text replaces `joinGameId`, nothing else changes |
| ClientGame.CanSend | client/src/Game.js:125 | a click is sent iff the game started, the cell reads as a hole or `null`, the winner is undefined, `null` or empty, and the player's symbol is `currentPlayer` |
| ClientGame.ClickMove | client/src/Game.js:123-136 | a move is emitted iff the game started, the cell is falsy, the winner is falsy and the player's symbol equals `currentPlayer`; it carries the game id, the index and the player id |
| ClientGame.NoPlayerId | client/src/Game.js:41-42 | a new id is needed iff `getCookie('playerId')` gives no non-empty value |
| ClientGame.PlayerIdOnMount | client/src/Game.js:40-46 | a non-empty `playerId` cookie is kept and nothing is written; otherwise a generated id is used and stored for 365 days; the id never holds `;` |
| ClientGame.SettlePlayerId | client/src/Game.js:41-45 | the id and the cookie written are those of `PlayerIdOnMount` |
| ClientGame.SeatsGetOppositeSymbols | client/src/Game.js:87-88 | with two different seats, the first player gets X and the second O, and each is the other's opponent |
| ClientGame.AloneHasNoOpponent | client/src/Game.js:88 | next to an empty seat, the opponent is `null`, or undefined when this player's id is itself `null` |
| ClientGame.RejoinMatchesStart | client/src/Game.js:86-106 | rejoining with the symbol and opponent that `gameStart` would compute gives the same state as `gameStart` |
| ClientGame.CreatedGameSendsNoMoves | client/src/Game.js:123-128 | before `gameStart`, a created game sends no move |
| ClientGame.ButtonIffBoardClosed | client/src/Game.js:108-128 | with a `null` or non-empty winner and a board without holes, the New Game button shows iff no square of the board can be clicked by the player to move |
| ClientGame.MissingWinnerEndsButStaysOpen | client/src/Game.js:109-125 | an update without a winner field shows the New Game button, yet a click on a `null` cell is still sent |
| ClientGame.NewGameIsClearedUpdate | client/src/Game.js:158-166 | when the new board has a `null` cell, a new game is a state update with the winner cleared |
| ClientGame.MountKeepsStoredId | client/src/Game.js:41-42 | with a stored non-empty `playerId`, the mount keeps that id and writes no cookie |
| ClientGame.NewIdCookie | client/src/Game.js:44 | the cookie written for a new id splits into `playerId=<id>`, `expires=…`, `path=/`, `SameSite=Lax` |
| ClientGame.MountWritesNewId | client/src/Game.js:42-45 | without a stored id, the new id has the generated shape and the written cookie carries it with those attributes |
| ClientGame.Game.constructor | client/src/Game.js:9-23 | the component starts in the initial state, with no player id yet |
| ClientGame.Game.ComponentDidMount | client/src/Game.js:40-55 | the player id is settled as `PlayerIdOnMount` says; a truthy `gameId` from the URL becomes `joinGameId` and is joined; otherwise the state is unchanged |
| ClientGame.Game.HandleGameCreated | client/src/Game.js:66-70 | the new state is `GameCreated` of the old one |
| ClientGame.Game.HandleGameStart | client/src/Game.js:86-96 | the new state is `GameStart` of the old one |
| ClientGame.Game.HandleRejoinedGame | client/src/Game.js:98-106 | the new state is `RejoinedGame` of the old one |
| ClientGame.Game.HandleGameStateUpdate | client/src/Game.js:108-117 | the new state is `GameStateUpdate` of the old one |
| ClientGame.Game.HandleSquareClick | client/src/Game.js:123-128 | nothing changes; the emitted move is `ClickMove` of the state |
| ClientGame.Game.HandleMyGamesList | client/src/Game.js:130-132 | the new state is `MyGamesList` of the old one |
| ClientGame.Game.HandleJoinGameInputChange | client/src/Game.js:150-152 | the new state is `JoinGameInputChange` of the old one |
| ClientGame.Game.JoinGame | client/src/Game.js:142-144 | the `joinGame` message carries `joinGameId` and the player id; nothing changes |
| ClientGame.Game.JoinGameDirectly | client/src/Game.js:146-148 | the given id replaces `joinGameId` as `JoinGameInputChange` says, then that id is joined with the player id |
| ClientGame.Game.HandleNewGameStarted | client/src/Game.js:158-166 | the new state is `NewGameStarted` of the old one |

## Left out

- Transport: socket.io connections, rooms, emits to other sockets, and the express static files and root route (backend/server.js:2-21, 101-105). Each handler is reduced to the table update and the reply or message it produces.
- `generateGameId` (backend/server.js:43-45) draws its id from `Math.random().toString(36)`. The id is an input of `CreateGame` and `OnCreateGame`. `createGame` never looks at `games[gameId]` before storing (backend/server.js:28-37), so `Create` overwrites an existing entry with the same id.
- `getPlayerSymbol` and `serializeGameState` are called by the `move` handler, but backend/server.js neither defines nor imports them. As written, the guard at backend/server.js:76 would throw a ReferenceError for every move by a seated socket of an existing game; a missing game or an unseated socket still gets "Invalid move", since `&&` stops early. The model assumes both helpers are defined elsewhere. `calculateWinner` is imported from a front-end utilities file that is not part of this model. All three are parameters, with no win-line logic assumed.
- `games` is a plain object, so a game id like `constructor` would hit an inherited property. The model's table is a map with no inherited keys.
- Non-numeric or fractional move indices are left out. A move index is an integer; a negative one or one past 2^32 - 2 writes a property rather than an element, and the model leaves the elements unchanged.
- `[...board]` turns holes into `undefined` elements. The model keeps them as holes, which every read the components make treats the same way.
- Client cells and payload fields that are falsy but not `null`, such as `0` or `false`, are not modelled. A cell is a hole, `null` or a mark; a string field is a hole, `null` or a string.
- The `Date` arithmetic of `setCookie` and the `document.cookie` setter are left out. The expiry string is an input, and the cookie string is returned rather than stored. How the browser turns that string into the next `document.cookie` is not modelled.
- The `listMyGames` emit (client/src/Game.js:48) is left out, as are the emitters `createGame` (:138-140) and `startNewGame` (:154-156). Each only sends a message and changes no state.
- The URL parsing of `componentDidMount` is left out: the `gameId` query parameter is an input.
- `handleGameError`, `shareGameLink` (`navigator.share`, `alert`), console logging, `componentWillUnmount`, rendering (`render`, `renderSquare`, the App, GameBoard, Square and GameStatus components) and the Cloudinary images are left out.
- The server's disconnect handler is empty (backend/server.js:94-98) and is left out.
- No shown server emits `rejoinedGame`, `myGamesList` or `newGameStarted`, or keeps tallies. Those client handlers are modelled only by what they do with a payload.
- `setState` is taken to apply at once. React's batching of updates is not modelled.
- LocalGame.Status: its own contract only bounds the line's length. What the line says in each case is stated by `StatusReportsWinner`, `StatusReportsDraw` and `StatusReportsNextPlayer`.
- Utils.GeneratePlayerId: its own contract only states the length. The format is stated by `GeneratedIdFormat`.
- Utils.SetCookie: its own contract only states the `name=` prefix. The order of the attributes is stated by `JoinAttributes` and `SetCookieAttributes`.
