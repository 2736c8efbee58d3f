/**
 * The single-board component of the first front end
 * (frontend/tic-tac-toe/src/Game.js): a 3x3 board, whose turn it is and
 * the winner, changed by a click on a square or by a move relayed from the
 * server, and the status line rendered from them.
 *
 * `calculateWinner` comes from a file that is not part of this model; it is
 * a parameter.  The socket is reduced to the move a click sends.
 */
module LocalGame {
  import opened Common

  /** The component state `{board, currentPlayer, winner}`. */
  datatype State = State(board: seq<Slot<Symbol>>, currentPlayer: Symbol, winner: Option<Symbol>)

  /** The state the constructor sets: nine `null` cells, X to play, no winner. */
  function Initial(): (s: State)
    ensures |s.board| == 9 && forall j :: 0 <= j < 9 ==> s.board[j] == Null
    ensures s.currentPlayer == X && s.winner == None
  {
    State(Nulls(9), X, None)
  }

  /** The guard of `handleSquareClick`: the cell is falsy and there is no winner. */
  function CanClick(s: State, index: int): (b: bool)
    ensures b <==> s.winner == None && At(s.board, index) in {Hole, Null}
  {
    !At(s.board, index).Val? && s.winner.None?
  }

  /**
   * The state after `handleSquareClick(index)`.  A click the guard lets
   * through writes the current player's symbol at `index` and nowhere else,
   * hands the turn to the other symbol and asks `calculateWinner` about the
   * new board; any other click changes nothing.
   */
  function Click(s: State, index: int, calculateWinner: seq<Slot<Symbol>> -> Option<Symbol>): (r: State)
    ensures !CanClick(s, index) ==> r == s
    ensures CanClick(s, index) ==>
      && r.currentPlayer == s.currentPlayer.Other()
      && r.winner == calculateWinner(r.board)
      && r.board == Assign(s.board, index, s.currentPlayer)
    ensures CanClick(s, index) && IsArrayIndex(index) && index < |s.board| ==>
      && |r.board| == |s.board|
      && r.board[index] == Val(s.currentPlayer)
      && forall j :: 0 <= j < |s.board| && j != index ==> r.board[j] == s.board[j]
  {
    if CanClick(s, index) then
      var newBoard := Assign(s.board, index, s.currentPlayer);
      State(newBoard, s.currentPlayer.Other(), calculateWinner(newBoard))
    else
      s
  }

  /**
   * The state after `handleMoveFromServer({index})`.  There is no guard: the
   * symbol opposite to `currentPlayer` is written at `index`, whatever the
   * cell held, and then the turn is toggled.
   */
  function ServerMove(s: State, index: int, calculateWinner: seq<Slot<Symbol>> -> Option<Symbol>): (r: State)
    ensures r.currentPlayer == s.currentPlayer.Other()
    ensures r.winner == calculateWinner(r.board)
    ensures r.board == Assign(s.board, index, s.currentPlayer.Other())
    ensures IsArrayIndex(index) && index < |s.board| ==>
      && |r.board| == |s.board|
      && r.board[index] == Val(s.currentPlayer.Other())
      && forall j :: 0 <= j < |s.board| && j != index ==> r.board[j] == s.board[j]
  {
    var newBoard := Assign(s.board, index, s.currentPlayer.Other());
    State(newBoard, s.currentPlayer.Other(), calculateWinner(newBoard))
  }

  /**
   * `renderGameStatus()`: the winner first, then a draw when no cell is
   * `null`, and otherwise the player to move.
   */
  function Status(s: State): (t: string)
    ensures |t| >= 5
  {
    if s.winner.Some? then "Winner: " + s.winner.value.Text()
    else if !IncludesNull(s.board) then "Draw!"
    else "Next player: " + s.currentPlayer.Text()
  }

  /** The status line announces a winner exactly when there is one, and names that winner. */
  lemma StatusReportsWinner(s: State)
    ensures var t := Status(s);
      (|t| >= 8 && t[..8] == "Winner: ") <==> s.winner.Some?
    ensures s.winner.Some? ==> Status(s)[8..] == s.winner.value.Text()
  {
    var t := Status(s);
    if s.winner.None? && IncludesNull(s.board) {
      assert t[..8] == "Next pla";
    }
  }

  /**
   * The status line names the player to move exactly when there is no winner
   * and a `null` cell is left, and then it names `currentPlayer`.
   */
  lemma StatusReportsNextPlayer(s: State)
    ensures var t := Status(s);
      (|t| >= 13 && t[..13] == "Next player: ") <==> s.winner.None? && IncludesNull(s.board)
    ensures s.winner.None? && IncludesNull(s.board) ==> Status(s)[13..] == s.currentPlayer.Text()
  {
    var t := Status(s);
    if s.winner.Some? {
      assert t[0] == 'W';
    }
  }

  /**
   * The status line tells the states apart that matter to the players: two
   * states with the same line have the same winner, and while play goes on,
   * the same player to move.
   */
  lemma StatusDistinguishes(s: State, s': State)
    requires Status(s) == Status(s')
    ensures s.winner == s'.winner
    ensures s.winner.None? && IncludesNull(s.board) ==> s.currentPlayer == s'.currentPlayer
  {
    StatusReportsWinner(s);
    StatusReportsWinner(s');
    StatusReportsNextPlayer(s);
    StatusReportsNextPlayer(s');
    if s.winner.Some? {
      TextDistinguishes(s.winner.value, s'.winner.value);
    } else if IncludesNull(s.board) {
      TextDistinguishes(s.currentPlayer, s'.currentPlayer);
    }
  }

  /** Different symbols print differently. */
  lemma TextDistinguishes(a: Symbol, b: Symbol)
    requires a.Text() == b.Text()
    ensures a == b
  {
  }

  /** The status line reads "Draw!" exactly when there is no winner and no `null` cell is left. */
  lemma StatusReportsDraw(s: State)
    ensures Status(s) == "Draw!" <==> s.winner.None? && !IncludesNull(s.board)
  {
    var t := Status(s);
    if s.winner.Some? {
      assert t[0] == 'W';
    } else if IncludesNull(s.board) {
      assert t[0] == 'N';
    }
  }

  /** A new game asks X to move. */
  lemma InitialStatus()
    ensures Status(Initial()) == "Next player: X"
  {
    assert Initial().board[0] == Null;
  }

  /** The clicks of a session, handled one after the other. */
  function ClickAll(s: State, indices: seq<int>, calculateWinner: seq<Slot<Symbol>> -> Option<Symbol>): State
    decreases |indices|
  {
    if indices == [] then s else ClickAll(Click(s, indices[0], calculateWinner), indices[1..], calculateWinner)
  }

  /** The squares are rendered for indices 0 to 8 only, so clicks keep a nine-cell board. */
  lemma {:induction false} ClicksKeepNineCells(s: State, indices: seq<int>,
                                               calculateWinner: seq<Slot<Symbol>> -> Option<Symbol>)
    requires |s.board| == 9
    requires forall k :: 0 <= k < |indices| ==> 0 <= indices[k] < 9
    ensures |ClickAll(s, indices, calculateWinner).board| == 9
    decreases |indices|
  {
    if indices != [] {
      ClicksKeepNineCells(Click(s, indices[0], calculateWinner), indices[1..], calculateWinner);
    }
  }

  /** Clicks never overwrite a mark: a cell holding a symbol keeps it through any run of clicks. */
  lemma {:induction false} ClicksKeepMarks(s: State, indices: seq<int>,
                                           calculateWinner: seq<Slot<Symbol>> -> Option<Symbol>, j: int)
    requires 0 <= j < |s.board| && s.board[j].Val?
    ensures var r := ClickAll(s, indices, calculateWinner);
      j < |r.board| && r.board[j] == s.board[j]
    decreases |indices|
  {
    if indices != [] {
      var next := Click(s, indices[0], calculateWinner);
      assert j < |next.board| && next.board[j] == s.board[j];
      ClicksKeepMarks(next, indices[1..], calculateWinner, j);
    }
  }

  /** Once there is a winner, clicks change nothing. */
  lemma {:induction false} WinnerFreezesClicks(s: State, indices: seq<int>,
                                               calculateWinner: seq<Slot<Symbol>> -> Option<Symbol>)
    requires s.winner.Some?
    ensures ClickAll(s, indices, calculateWinner) == s
    decreases |indices|
  {
    if indices != [] {
      WinnerFreezesClicks(s, indices[1..], calculateWinner);
    }
  }

  /** How many cells of `b` hold `m`. */
  function Marks(b: seq<Slot<Symbol>>, m: Symbol): nat
    decreases |b|
  {
    if b == [] then 0 else (if b[0] == Val(m) then 1 else 0) + Marks(b[1..], m)
  }

  /** Writing a symbol into a cell that held none adds one mark of that symbol and no other. */
  lemma {:induction false} MarksAfterWrite(b: seq<Slot<Symbol>>, i: int, v: Symbol, m: Symbol)
    requires 0 <= i < |b| && !b[i].Val?
    ensures Marks(b[i := Val(v)], m) == Marks(b, m) + (if v == m then 1 else 0)
    decreases |b|
  {
    if i > 0 {
      MarksAfterWrite(b[1..], i - 1, v, m);
      assert b[i := Val(v)][1..] == b[1..][i - 1 := Val(v)];
    } else {
      assert b[i := Val(v)][1..] == b[1..];
    }
  }

  /**
   * The alternation a game played by clicks keeps: nine cells, as many X as
   * O when X is to move, and one X more when O is to move.
   */
  predicate Alternating(s: State) {
    && |s.board| == 9
    && (s.currentPlayer == X ==> Marks(s.board, X) == Marks(s.board, O))
    && (s.currentPlayer == O ==> Marks(s.board, X) == Marks(s.board, O) + 1)
  }

  lemma InitialAlternating()
    ensures Alternating(Initial())
  {
    NoMarksInNulls(Initial().board, X);
    NoMarksInNulls(Initial().board, O);
  }

  /** A board of `null` cells holds no mark. */
  lemma {:induction false} NoMarksInNulls(b: seq<Slot<Symbol>>, m: Symbol)
    requires forall j :: 0 <= j < |b| ==> b[j] == Null
    ensures Marks(b, m) == 0
    decreases |b|
  {
    if b != [] {
      NoMarksInNulls(b[1..], m);
    }
  }

  /** A click on a rendered square keeps the alternation. */
  lemma ClickKeepsAlternating(s: State, index: int, calculateWinner: seq<Slot<Symbol>> -> Option<Symbol>)
    requires Alternating(s) && 0 <= index < 9
    ensures Alternating(Click(s, index, calculateWinner))
  {
    if CanClick(s, index) {
      assert Click(s, index, calculateWinner).board == s.board[index := Val(s.currentPlayer)];
      MarksAfterWrite(s.board, index, s.currentPlayer, X);
      MarksAfterWrite(s.board, index, s.currentPlayer, O);
    }
  }

  /** Every game played by clicks alone, from the initial state, alternates X and O. */
  lemma {:induction false} ClicksAlternate(s: State, indices: seq<int>,
                                           calculateWinner: seq<Slot<Symbol>> -> Option<Symbol>)
    requires Alternating(s)
    requires forall k :: 0 <= k < |indices| ==> 0 <= indices[k] < 9
    ensures Alternating(ClickAll(s, indices, calculateWinner))
    decreases |indices|
  {
    if indices != [] {
      ClickKeepsAlternating(s, indices[0], calculateWinner);
      ClicksAlternate(Click(s, indices[0], calculateWinner), indices[1..], calculateWinner);
    }
  }

  /**
   * Two components whose boards agree and whose turns are opposite stay that
   * way when one handles a click and the other the relayed move: the relay
   * writes the symbol opposite to its own turn, which is the clicker's.
   */
  lemma RelayKeepsMirror(mine: State, theirs: State, index: int,
                         calculateWinner: seq<Slot<Symbol>> -> Option<Symbol>)
    requires mine.board == theirs.board && theirs.currentPlayer == mine.currentPlayer.Other()
    requires CanClick(mine, index)
    ensures var a := Click(mine, index, calculateWinner);
      var b := ServerMove(theirs, index, calculateWinner);
      a.board == b.board && b.currentPlayer == a.currentPlayer.Other() && a.winner == b.winner
  {
    OtherInvolution(mine.currentPlayer);
  }

  /**
   * Two components in the same state disagree after one handles a click and
   * the other the relayed move: the relay writes the other symbol.
   */
  lemma RelayFromSameStateDiverges(s: State, index: int, calculateWinner: seq<Slot<Symbol>> -> Option<Symbol>)
    requires CanClick(s, index) && IsArrayIndex(index) && index < |s.board|
    ensures Click(s, index, calculateWinner).board[index] != ServerMove(s, index, calculateWinner).board[index]
  {
  }

  /** The React component: its state fields, and `calculateWinner` fixed at construction. */
  class Game {
    var board: seq<Slot<Symbol>>
    var currentPlayer: Symbol
    var winner: Option<Symbol>
    const calculateWinner: seq<Slot<Symbol>> -> Option<Symbol>

    function Current(): State
      reads this
    {
      State(board, currentPlayer, winner)
    }

    constructor (calculateWinner: seq<Slot<Symbol>> -> Option<Symbol>)
      ensures Current() == Initial()
      ensures this.calculateWinner == calculateWinner
    {
      board := Nulls(9);
      currentPlayer := X;
      winner := None;
      this.calculateWinner := calculateWinner;
    }

    /** `handleSquareClick(index)`; `sent` is the index passed to `sendMoveToServer`, if any. */
    method HandleSquareClick(index: int) returns (sent: Option<int>)
      modifies this
      ensures Current() == Click(old(Current()), index, calculateWinner)
      ensures sent == if CanClick(old(Current()), index) then Some(index) else None
    {
      if !At(board, index).Val? && winner.None? {
        var newBoard := Assign(board, index, currentPlayer);
        board, currentPlayer, winner := newBoard, currentPlayer.Other(), calculateWinner(newBoard);
        sent := Some(index);
      } else {
        sent := None;
      }
    }

    /** `handleMoveFromServer({index})`. */
    method HandleMoveFromServer(index: int)
      modifies this
      ensures Current() == ServerMove(old(Current()), index, calculateWinner)
    {
      var newBoard := Assign(board, index, currentPlayer.Other());
      board, currentPlayer, winner := newBoard, currentPlayer.Other(), calculateWinner(newBoard);
    }

    /** `renderGameStatus()`. */
    function RenderGameStatus(): (t: string)
      reads this
      ensures t == Status(Current())
    {
      Status(Current())
    }
  }
}
