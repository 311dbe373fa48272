/**
 * Playing a move: the checks a move must pass, then the board update, the
 * hand-over of the turn and the end-of-game bookkeeping.
 */
module PlayMove {
  import opened Wrappers
  import opened Text
  import opened Errors
  import opened Model
  import opened Mocks
  import GameService

  datatype PlayMoveCommand = PlayMoveCommand(gameId: int, username: string, column: int)

  /** The colour of a player's tokens: '1' for the host, '2' for anyone else. */
  function ColorOf(d: GameDetail, userName: string): (color: char)
    ensures color != GameService.Empty && color != GameService.Separator
    ensures color == '1' <==> userName == d.host
    ensures color == '2' <==> userName != d.host
  {
    if d.host == userName then '1' else '2'
  }

  /** The player whose turn follows: the guest after the host, the host after anyone else. */
  function NextPlayer(d: GameDetail, current: Option<string>): Option<string> {
    if Some(d.host) == current then d.guest else Some(d.host)
  }

  /** With two distinct players, the turn passes back and forth between them. */
  lemma TurnsAlternate(d: GameDetail)
    requires d.guest.Some? && d.guest.value != d.host
    ensures NextPlayer(d, Some(d.host)) == d.guest
    ensures NextPlayer(d, d.guest) == Some(d.host)
    ensures NextPlayer(d, NextPlayer(d, Some(d.host))) == Some(d.host)
  {
  }

  /** The fetched game exists and the user is its host or its guest. */
  predicate Plays(game: Result<GameDetail, Error>, userName: string) {
    game.Success? && (game.value.host == userName || game.value.guest == Some(userName))
  }

  /**
   * The refusal a move meets before anything is written, in the order the
   * checks are made: an unknown game, or one the user does not play in,
   * is reported as not found; then a game not running, a move out of turn
   * and an invalid column.
   */
  function MoveRefusal(game: Result<GameDetail, Error>, request: PlayMoveCommand): (refusal: Option<Error>)
    reads if game.Success? then {game.value.board} else {}
    requires game.Success? ==> GameService.WellFormed(game.value.board.state)
    ensures refusal.None? <==>
      game.Success?
      && (game.value.host == request.username || game.value.guest == Some(request.username))
      && game.value.status == StatusInProgress
      && game.value.board.currentPlayer == Some(request.username)
      && 0 <= request.column < GameService.Columns
      && GameService.IsColumnFree(game.value.board.state, request.column)
    ensures game.Failure? ==> refusal == Some(GameWithIdNotFound(request.gameId))
    ensures game.Success? && game.value.host != request.username && game.value.guest != Some(request.username)
      ==> refusal == Some(GameWithIdNotFound(request.gameId))
    ensures Plays(game, request.username) && game.value.status != StatusInProgress
      ==> refusal == Some(WaitingForOtherPlayer)
    ensures Plays(game, request.username) && game.value.status == StatusInProgress
      && game.value.board.currentPlayer != Some(request.username)
      ==> refusal == Some(NotYourTurnToPlay)
    ensures Plays(game, request.username) && game.value.status == StatusInProgress
      && game.value.board.currentPlayer == Some(request.username)
      && !(0 <= request.column < GameService.Columns && GameService.IsColumnFree(game.value.board.state, request.column))
      ==> refusal == Some(InvalidMove)
  {
    if game.Failure? then Some(GameWithIdNotFound(request.gameId))
    else
      var d := game.value;
      if d.host != request.username && d.guest != Some(request.username) then Some(GameWithIdNotFound(request.gameId))
      else if d.status != StatusInProgress then Some(WaitingForOtherPlayer)
      else if d.board.currentPlayer != Some(request.username) then Some(NotYourTurnToPlay)
      else if !GameService.ValidateMove(d.board.state, request.column) then Some(InvalidMove)
      else None
  }

  /** The board state after the move: the player's token dropped into the column. */
  function StateAfterMove(d: GameDetail, state: string, request: PlayMoveCommand): (after: string)
    requires GameService.WellFormed(state) && 0 <= request.column < GameService.Columns
    ensures GameService.WellFormed(after)
    ensures GameService.Parse(after) == GameService.Drop(GameService.Parse(state), request.column, ColorOf(d, request.username))
  {
    var g := GameService.Drop(GameService.Parse(state), request.column, ColorOf(d, request.username));
    assert forall i :: 0 <= i < |g| ==> GameService.Separator !in g[i] by {
      GameService.DropChangesOnlyLandingCell(GameService.Parse(state), request.column, ColorOf(d, request.username));
    }
    SplitJoin(g, GameService.Separator);
    GameService.Serialize(g)
  }

  class PlayMoveCommandHandler {
    const gameQueryRepository: GameQueryRepositoryMock
    const gameRepository: GameRepositoryMock
    const boardRepository: BoardRepositoryMock

    constructor (gameQueryRepository: GameQueryRepositoryMock, gameRepository: GameRepositoryMock,
                 boardRepository: BoardRepositoryMock)
      ensures this.gameQueryRepository == gameQueryRepository && this.gameRepository == gameRepository
      ensures this.boardRepository == boardRepository
    {
      this.gameQueryRepository := gameQueryRepository;
      this.gameRepository := gameRepository;
      this.boardRepository := boardRepository;
    }

    /**
     * Plays the move. A refused move writes nothing. An accepted one drops
     * the token on the game's board, saves the new state and the next
     * player to the board store, then finishes the game when the mover has
     * four in a row and again, with no winner, when the top row is full;
     * the second write prevails when both apply.
     */
    method Handle(request: PlayMoveCommand) returns (r: Result<int, Error>)
      requires var game := gameQueryRepository.GetOne(request.gameId);
        game.Success? ==> GameService.WellFormed(game.value.board.state)
      modifies gameQueryRepository.TargetBoard(request.gameId)`state, boardRepository.Target(request.gameId)
      modifies gameRepository.Target(request.gameId)
      ensures var refusal := old(MoveRefusal(gameQueryRepository.GetOne(request.gameId), request));
        refusal.Some? ==>
        r == Failure(refusal.value)
        && unchanged(old(gameQueryRepository.TargetBoard(request.gameId)))
        && unchanged(old(boardRepository.Target(request.gameId)))
        && unchanged(old(gameRepository.Target(request.gameId)))
      ensures var game := old(gameQueryRepository.GetOne(request.gameId));
        old(MoveRefusal(game, request)).None? ==>
        var d := game.value;
        var newState := StateAfterMove(d, old(d.board.state), request);
        GameService.WellFormed(newState)
        && d.board.state == newState
        && (old(FirstBoardWithId(boardRepository.boards, request.gameId)).None? ==>
              r == Failure(Unexpected("Board with ID " + IntToString(request.gameId) + " not found."))
              && unchanged(old(gameRepository.Target(request.gameId))))
        && (old(FirstBoardWithId(boardRepository.boards, request.gameId)).Some? ==>
              var b := boardRepository.boards[old(FirstBoardWithId(boardRepository.boards, request.gameId)).value];
              b.state == newState && b.currentPlayer == NextPlayer(d, Some(request.username)) && b.id == request.gameId)
      ensures var game := old(gameQueryRepository.GetOne(request.gameId));
        old(MoveRefusal(game, request)).None? && old(FirstBoardWithId(boardRepository.boards, request.gameId)).Some? ==>
        var d := game.value;
        var newState := StateAfterMove(d, old(d.board.state), request);
        var won := GameService.HasFour(GameService.Parse(newState), ColorOf(d, request.username));
        var draw := GameService.CheckDraw(newState);
        (!won && !draw ==> r == Success(request.gameId) && unchanged(old(gameRepository.Target(request.gameId))))
        && (won || draw ==>
              match old(FirstWithId(gameRepository.games, request.gameId))
              case None => r == Failure(NoGameWithId(request.gameId))
              case Some(i) =>
                var g := gameRepository.games[i];
                r == Success(request.gameId) && g.status == StatusFinished
                && g.winner == (if draw then None else Some(request.username))
                && g.id == request.gameId && g.guest == old(g.guest))
    {
      var game := gameQueryRepository.GetOne(request.gameId);
      if game.Failure? {
        return Failure(GameWithIdNotFound(request.gameId));
      }
      var d := game.value;
      if d.host != request.username && d.guest != Some(request.username) {
        return Failure(GameWithIdNotFound(request.gameId));
      }
      if d.status != StatusInProgress {
        return Failure(WaitingForOtherPlayer);
      }
      var board := d.board;
      if board.currentPlayer != Some(request.username) {
        return Failure(NotYourTurnToPlay);
      }
      if !GameService.ValidateMove(board.state, request.column) {
        return Failure(InvalidMove);
      }

      r := PlayValidMove(d, request);
    }

    /**
     * Steps 3 to 5 of a move, once it has passed every check: the board is
     * updated and saved, then the result of the game is recorded.
     */
    method PlayValidMove(d: GameDetail, request: PlayMoveCommand) returns (r: Result<int, Error>)
      requires GameService.WellFormed(d.board.state) && 0 <= request.column < GameService.Columns
      requires d.board.currentPlayer == Some(request.username) && d.gameId == request.gameId
      modifies d.board`state, boardRepository.Target(d.gameId), gameRepository.Target(d.gameId)
      ensures d.board.state == StateAfterMove(d, old(d.board.state), request)
      ensures old(FirstBoardWithId(boardRepository.boards, d.gameId)).None? ==>
        r == Failure(Unexpected("Board with ID " + IntToString(d.gameId) + " not found."))
        && unchanged(old(gameRepository.Target(d.gameId)))
      ensures old(FirstBoardWithId(boardRepository.boards, d.gameId)).Some? ==>
        var b := boardRepository.boards[old(FirstBoardWithId(boardRepository.boards, d.gameId)).value];
        b.state == d.board.state && b.currentPlayer == NextPlayer(d, Some(request.username)) && b.id == d.gameId
      ensures old(FirstBoardWithId(boardRepository.boards, d.gameId)).Some? ==>
        var won := GameService.HasFour(GameService.Parse(d.board.state), ColorOf(d, request.username));
        var draw := GameService.CheckDraw(d.board.state);
        (!won && !draw ==> r == Success(d.gameId) && unchanged(old(gameRepository.Target(d.gameId))))
        && (won || draw ==>
              match old(FirstWithId(gameRepository.games, d.gameId))
              case None => r == Failure(NoGameWithId(d.gameId))
              case Some(i) =>
                var g := gameRepository.games[i];
                r == Success(d.gameId) && g.status == StatusFinished
                && g.winner == (if draw then None else Some(request.username))
                && g.id == d.gameId && g.guest == old(g.guest))
    {
      ghost var gameFound := FirstWithId(gameRepository.games, d.gameId);
      ghost var gameTargets := gameRepository.Target(d.gameId);
      var userColor := if d.host == request.username then '1' else '2';
      var saved := SaveMove(d, request);
      if saved.Fail? {
        assert unchanged(gameTargets);
        return Failure(saved.error);
      }
      assert IdsOf(gameRepository.games) == old(IdsOf(gameRepository.games));
      assert FirstWithId(gameRepository.games, d.gameId) == gameFound;
      assert gameRepository.Target(d.gameId) == gameTargets;
      var recorded := RecordResult(d.gameId, request.username, d.board.state, userColor);
      if recorded.Fail? {
        return Failure(recorded.error);
      }
      return Success(d.gameId);
    }

    /**
     * Steps 3 and 4 of a move: the token is dropped on the game's board,
     * then the new state and the next player are saved to the board store.
     */
    method SaveMove(d: GameDetail, request: PlayMoveCommand) returns (r: Outcome<Error>)
      requires GameService.WellFormed(d.board.state) && 0 <= request.column < GameService.Columns
      requires d.board.currentPlayer == Some(request.username)
      modifies d.board`state, boardRepository.Target(d.gameId)
      ensures d.board.state == StateAfterMove(d, old(d.board.state), request)
      ensures old(FirstBoardWithId(boardRepository.boards, d.gameId)).None? ==>
        r == Fail(Unexpected("Board with ID " + IntToString(d.gameId) + " not found."))
      ensures old(FirstBoardWithId(boardRepository.boards, d.gameId)).Some? ==>
        var b := boardRepository.boards[old(FirstBoardWithId(boardRepository.boards, d.gameId)).value];
        r == Pass && b.state == d.board.state && b.currentPlayer == NextPlayer(d, Some(request.username)) && b.id == d.gameId
    {
      ghost var found := FirstBoardWithId(boardRepository.boards, d.gameId);
      ghost var targets := boardRepository.Target(d.gameId);
      var board := d.board;
      var userColor := if d.host == request.username then '1' else '2';
      var updated := GameService.UpdateBoard(board.state, userColor, request.column);
      assert updated == StateAfterMove(d, board.state, request);
      board.state := updated;

      var nextCurrentPlayer := if Some(d.host) == board.currentPlayer then d.guest else Some(d.host);
      assert BoardIdsOf(boardRepository.boards) == old(BoardIdsOf(boardRepository.boards));
      assert FirstBoardWithId(boardRepository.boards, d.gameId) == found;
      assert boardRepository.Target(d.gameId) == targets;
      r := boardRepository.UpdateBoard(d.gameId, board.state, nextCurrentPlayer);
    }

    /**
     * Step 5 of a move: the game is finished with the mover as winner when
     * the mover's colour has four in a row, and finished again with no
     * winner when the top row is full.
     */
    method RecordResult(gameId: int, userName: string, state: string, userColor: char) returns (r: Outcome<Error>)
      requires GameService.WellFormed(state)
      modifies gameRepository.Target(gameId)
      ensures var won, draw := GameService.HasFour(GameService.Parse(state), userColor), GameService.CheckDraw(state);
        !won && !draw ==> r == Pass && unchanged(old(gameRepository.Target(gameId)))
      ensures var won, draw := GameService.HasFour(GameService.Parse(state), userColor), GameService.CheckDraw(state);
        won || draw ==>
        match old(FirstWithId(gameRepository.games, gameId))
        case None => r == Fail(NoGameWithId(gameId))
        case Some(i) =>
          var g := gameRepository.games[i];
          r == Pass && g.status == StatusFinished && g.winner == (if draw then None else Some(userName))
          && g.id == gameId && g.guest == old(g.guest)
    {
      var won := GameService.CheckWin(state, userColor);
      if won {
        r := gameRepository.Finished(gameId, Some(userName));
        if r.Fail? {
          return;
        }
      }
      var draw := GameService.CheckDraw(state);
      if draw {
        r := gameRepository.Finished(gameId, None);
        return;
      }
      return Pass;
    }
  }
}
