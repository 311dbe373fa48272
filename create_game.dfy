/** Creating a game: the command that builds the new game and its handler. */
module CreateGame {
  import opened Wrappers
  import opened Errors
  import opened Model
  import opened Mocks
  import opened PlayerStatus
  import GameService

  /** The request to create a game; it builds the game at once, waiting for a guest, on an empty board the host moves first on. */
  class CreateGameCommand {
    const game: Connect4Game

    constructor (gameName: string, hostName: string)
      ensures fresh(game) && fresh(game.board)
      ensures game.id == 0 && game.name == gameName && game.host == hostName && game.status == StatusWaiting
      ensures game.guest.None? && game.winner.None?
      ensures game.board.currentPlayer == Some(hostName) && game.board.state == GameService.EmptyBoardState
    {
      var board := new Board(hostName, GameService.EmptyBoardState);
      game := new Connect4Game(gameName, hostName, StatusWaiting, board);
    }
  }

  /** Whether a game name is accepted: 3 to 50 characters. */
  predicate ValidGameName(name: string) {
    3 <= |name| <= 50
  }

  class CreateGameCommandHandler {
    const gameRepository: GameRepositoryMock
    const playerStatus: PlayerStatusService

    constructor (gameRepository: GameRepositoryMock, playerStatus: PlayerStatusService)
      ensures this.gameRepository == gameRepository && this.playerStatus == playerStatus
    {
      this.gameRepository := gameRepository;
      this.playerStatus := playerStatus;
    }

    /**
     * Stores the requested game and returns its new id. A host already busy
     * in a waiting or running game is refused first, then a name of the
     * wrong length; a refusal stores nothing.
     */
    method Handle(request: CreateGameCommand) returns (r: Result<int, Error>)
      modifies gameRepository, request.game`id
      ensures var busy := old(FirstBusyGame(playerStatus.gameRepo.games, request.game.host));
        busy.Some? ==> r == Failure(NewBusyUser(BusyMessage(busy.value, "create a new game"), busy))
      ensures var busy := old(FirstBusyGame(playerStatus.gameRepo.games, request.game.host));
        busy.None? && !ValidGameName(request.game.name) ==> r == Failure(InvalidGameName)
      ensures r.Failure? ==> gameRepository.games == old(gameRepository.games) && request.game.id == old(request.game.id)
      ensures r.Success? <==>
        old(FirstBusyGame(playerStatus.gameRepo.games, request.game.host)).None? && ValidGameName(request.game.name)
      ensures r.Success? ==>
        r.value == request.game.id == old(gameRepository.NextId())
        && gameRepository.games == old(gameRepository.games) + [request.game]
    {
      var userName := request.game.host;
      var busyGameId := playerStatus.CheckIfUserIsBusy(userName);
      if busyGameId.Some? {
        return Failure(NewBusyUser(BusyMessage(busyGameId.value, "create a new game"), busyGameId));
      }
      if |request.game.name| < 3 || |request.game.name| > 50 {
        return Failure(InvalidGameName);
      }
      var id := gameRepository.Create(request.game);
      return Success(id);
    }
  }
}
