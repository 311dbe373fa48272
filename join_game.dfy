/** Joining a game as its guest. */
module JoinGame {
  import opened Wrappers
  import opened Errors
  import opened Model
  import opened Mocks
  import opened Text
  import opened PlayerStatus

  datatype JoinGameCommand = JoinGameCommand(gameId: int, userName: string)

  /** A game can be joined when it is found and is waiting for players. */
  predicate Joinable(game: Result<GameDetail, Error>) {
    game.Success? && game.value.status == StatusWaiting
  }

  class JoinGameCommandHandler {
    const gameRepository: GameRepositoryMock
    const playerStatus: PlayerStatusService
    const gameQueryRepository: GameQueryRepositoryMock

    constructor (gameRepository: GameRepositoryMock, playerStatus: PlayerStatusService,
                 gameQueryRepository: GameQueryRepositoryMock)
      ensures this.gameRepository == gameRepository && this.playerStatus == playerStatus
      ensures this.gameQueryRepository == gameQueryRepository
    {
      this.gameRepository := gameRepository;
      this.playerStatus := playerStatus;
      this.gameQueryRepository := gameQueryRepository;
    }

    /**
     * Makes the user the guest of a waiting game and starts it. A busy user
     * is refused, and so is a game that is missing or not waiting, which is
     * reported as not found; a refusal writes nothing.
     */
    method Handle(request: JoinGameCommand) returns (r: Result<int, Error>)
      modifies gameRepository.Target(request.gameId)
      ensures var refusal := JoinRefusal(old(FirstBusyGame(playerStatus.gameRepo.games, request.userName)),
                                         old(gameQueryRepository.GetOne(request.gameId)),
                                         old(FirstWithId(gameRepository.games, request.gameId)), request.gameId);
        && (refusal.Some? ==> r == Failure(refusal.value) && unchanged(old(gameRepository.Target(request.gameId))))
        && (refusal.None? ==> r == Success(request.gameId))
      ensures r.Success? ==>
        var g := gameRepository.games[old(FirstWithId(gameRepository.games, request.gameId)).value];
        g.id == request.gameId && g.status == StatusInProgress && g.guest == Some(request.userName)
        && g.winner == old(g.winner)
    {
      ghost var targets := gameRepository.Target(request.gameId);
      var userName := request.userName;
      var busyGameId := playerStatus.CheckIfUserIsBusy(userName);
      assert unchanged(targets);
      if busyGameId.Some? {
        return Failure(NewBusyUser(BusyMessage(busyGameId.value, "join a new game"), busyGameId));
      }
      var game := gameQueryRepository.GetOne(request.gameId);
      if game.Failure? || game.value.status != StatusWaiting {
        return Failure(GameWithIdNotFound(request.gameId));
      }
      assert gameRepository.Target(request.gameId) == targets;
      var written := gameRepository.InProgress(request.gameId, userName);
      if written.Fail? {
        assert targets == {};
        assert unchanged(targets);
        return Failure(written.error);
      }
      return Success(request.gameId);
    }
  }

  /**
   * Why a join is refused, given the user's first busy game, the game as
   * the query side shows it and where the write side stores it; none when
   * the join goes ahead.
   */
  function JoinRefusal(busy: Option<int>, game: Result<GameDetail, Error>, found: Option<nat>, gameId: int): (refusal: Option<Error>)
    ensures busy.Some? ==> refusal == Some(NewBusyUser(BusyMessage(busy.value, "join a new game"), busy))
    ensures busy.None? && !Joinable(game) ==> refusal == Some(GameWithIdNotFound(gameId))
    ensures busy.None? && Joinable(game) && found.None? ==> refusal == Some(NoGameWithId(gameId))
    ensures refusal.None? <==> busy.None? && Joinable(game) && found.Some?
  {
    if busy.Some? then Some(NewBusyUser(BusyMessage(busy.value, "join a new game"), busy))
    else if !Joinable(game) then Some(GameWithIdNotFound(gameId))
    else if found.None? then Some(NoGameWithId(gameId))
    else None
  }

  /**
   * The host of a waiting game, whatever the case of the name they give, is
   * busy, so every join they ask for is refused while their game waits.
   */
  lemma WaitingHostIsBusy(games: seq<Connect4Game>, userName: string, i: int)
    requires 0 <= i < |games|
    requires games[i].status == StatusWaiting && EqualsIgnoreCase(games[i].host, userName)
    ensures FirstBusyGame(games, userName).Some?
  {
    assert BusyGameSpecification(userName)(GameDetailOf(games[i]));
  }
}
