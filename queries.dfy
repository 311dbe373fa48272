/**
 * The read side: the paged lists of waiting and finished games, and the
 * detailed view of a game the user is playing.
 */
module Queries {
  import opened Wrappers
  import opened Text
  import opened Errors
  import opened Model
  import opened Mocks
  import opened PlayerStatus
  import opened GameListFilter

  /** The exception a method call on a null user name raises. */
  const NullReference: Error := Unexpected("Object reference not set to an instance of an object.")

  /** A page never holds more entries than its limit, and none for a limit of zero or less. */
  function PageBound(limit: int): nat {
    if limit < 0 then 0 else limit
  }

  /** The waiting-game entries of the games, in order. */
  function WaitingDtos(games: seq<Connect4Game>): (dtos: seq<WaitingGameDto>)
    reads games
    ensures |dtos| == |games|
    ensures forall i :: 0 <= i < |games| ==> dtos[i] == WaitingGameDtoOf(games[i])
  {
    seq(|games|, i requires 0 <= i < |games| reads games => WaitingGameDtoOf(games[i]))
  }

  /** The finished-game entries of the games, in order. */
  function FinishedDtos(games: seq<Connect4Game>): (dtos: seq<FinishedGameDto>)
    reads games
    ensures |dtos| == |games|
    ensures forall i :: 0 <= i < |games| ==> dtos[i] == FinishedGameDtoOf(games[i])
  {
    seq(|games|, i requires 0 <= i < |games| reads games => FinishedGameDtoOf(games[i]))
  }

  /** A request for a page of games; the user name is never set by default. */
  datatype GetWaitingGamesQuery = GetWaitingGamesQuery(
    categoryFilter: Option<string>, limit: Option<int>, offset: Option<int>, userName: Option<string>)
  {
    function LimitOrDefault(): int {
      match limit case None => 10 case Some(l) => l
    }

    function OffsetOrDefault(): int {
      match offset case None => 0 case Some(o) => o
    }
  }

  /** A request for a page of finished games; the user name defaults to the empty string. */
  datatype GetFinishedGamesQuery = GetFinishedGamesQuery(
    categoryFilter: Option<string>, limit: Option<int>, offset: Option<int>, userName: string := "")
  {
    function LimitOrDefault(): int {
      match limit case None => 10 case Some(l) => l
    }

    function OffsetOrDefault(): int {
      match offset case None => 0 case Some(o) => o
    }
  }

  class GetWaitingGamesQueryHandler {
    const gameRepository: GameQueryRepositoryMock
    const playerStatus: PlayerStatusService

    constructor (gameRepository: GameQueryRepositoryMock, playerStatus: PlayerStatusService)
      ensures this.gameRepository == gameRepository && this.playerStatus == playerStatus
    {
      this.gameRepository := gameRepository;
      this.playerStatus := playerStatus;
    }

    /**
     * One page of the games the category filter lets through, as waiting-game
     * entries. A busy user gets no list, and a missing user name fails in the
     * busy check.
     */
    method Handle(request: GetWaitingGamesQuery) returns (r: Result<seq<WaitingGameDto>, Error>)
      ensures request.userName.None? ==> r == Failure(NullReference)
      ensures request.userName.Some? ==>
        var busy := FirstBusyGame(playerStatus.gameRepo.games, request.userName.value);
        busy.Some? ==> r == Failure(NewBusyUser(BusyMessage(busy.value, "access waiting games"), busy))
      ensures r.Success? <==>
        request.userName.Some? && FirstBusyGame(playerStatus.gameRepo.games, request.userName.value).None?
      ensures r.Success? ==>
        var page := gameRepository.Find(request.LimitOrDefault(), request.OffsetOrDefault(),
                                         GameListFilterSpecification(request.categoryFilter));
        r.value == WaitingDtos(page)
        && |r.value| <= PageBound(request.LimitOrDefault())
        && forall g :: g in page ==> g in gameRepository.games && GameListFilterSpecification(request.categoryFilter)(GameDetailOf(g))
    {
      if request.userName.None? {
        return Failure(NullReference);
      }
      var userName := request.userName.value;
      var busyGameId := playerStatus.CheckIfUserIsBusy(userName);
      if busyGameId.Some? {
        return Failure(NewBusyUser(BusyMessage(busyGameId.value, "access waiting games"), busyGameId));
      }
      var specification := GameListFilterSpecification(request.categoryFilter);
      var page := gameRepository.Find(request.LimitOrDefault(), request.OffsetOrDefault(), specification);
      return Success(WaitingDtos(page));
    }
  }

  class GetFinishedGamesQueryHandler {
    const gameRepository: GameQueryRepositoryMock
    const playerStatus: PlayerStatusService

    constructor (gameRepository: GameQueryRepositoryMock, playerStatus: PlayerStatusService)
      ensures this.gameRepository == gameRepository && this.playerStatus == playerStatus
    {
      this.gameRepository := gameRepository;
      this.playerStatus := playerStatus;
    }

    /** One page of the games the category filter lets through, as finished-game entries; a busy user gets no list. */
    method Handle(request: GetFinishedGamesQuery) returns (r: Result<seq<FinishedGameDto>, Error>)
      ensures var busy := FirstBusyGame(playerStatus.gameRepo.games, request.userName);
        busy.Some? ==> r == Failure(NewBusyUser(BusyMessage(busy.value, "access finished games"), busy))
      ensures r.Success? <==> FirstBusyGame(playerStatus.gameRepo.games, request.userName).None?
      ensures r.Success? ==>
        var page := gameRepository.Find(request.LimitOrDefault(), request.OffsetOrDefault(),
                                         GameListFilterSpecification(request.categoryFilter));
        r.value == FinishedDtos(page)
        && |r.value| <= PageBound(request.LimitOrDefault())
        && forall g :: g in page ==> g in gameRepository.games && GameListFilterSpecification(request.categoryFilter)(GameDetailOf(g))
    {
      var userName := request.userName;
      var busyGameId := playerStatus.CheckIfUserIsBusy(userName);
      if busyGameId.Some? {
        return Failure(NewBusyUser(BusyMessage(busyGameId.value, "access finished games"), busyGameId));
      }
      var specification := GameListFilterSpecification(request.categoryFilter);
      var page := gameRepository.Find(request.LimitOrDefault(), request.OffsetOrDefault(), specification);
      return Success(FinishedDtos(page));
    }
  }

  /**
   * With a category reading "finished-<user>" once trimmed and lower-cased,
   * every entry of the page is a stored finished game the user hosted or
   * joined, names compared ignoring case.
   */
  lemma FinishedPageHoldsUsersFinishedGames(repo: GameQueryRepositoryMock, limit: int, offset: int,
                                            filter: string, userName: string)
    requires Lower(Trim(filter)) == "finished-" + userName
    ensures forall g :: g in repo.Find(limit, offset, GameListFilterSpecification(Some(filter))) ==>
      g in repo.games && EqualsIgnoreCase(g.status, StatusFinished)
      && (EqualsIgnoreCase(g.host, userName) || (g.guest.Some? && EqualsIgnoreCase(g.guest.value, userName)))
  {
    forall g | g in repo.Find(limit, offset, GameListFilterSpecification(Some(filter)))
      ensures EqualsIgnoreCase(g.status, StatusFinished)
        && (EqualsIgnoreCase(g.host, userName) || (g.guest.Some? && EqualsIgnoreCase(g.guest.value, userName)))
    {
      FinishedFilter(filter, userName, GameDetailOf(g));
    }
  }

  /** With the category "waiting", every entry of the page is a stored game waiting for players. */
  lemma WaitingPageHoldsWaitingGames(repo: GameQueryRepositoryMock, limit: int, offset: int, filter: string)
    requires Lower(Trim(filter)) == "waiting"
    ensures forall g :: g in repo.Find(limit, offset, GameListFilterSpecification(Some(filter))) ==>
      g in repo.games && EqualsIgnoreCase(g.status, StatusWaiting)
  {
    forall g | g in repo.Find(limit, offset, GameListFilterSpecification(Some(filter)))
      ensures EqualsIgnoreCase(g.status, StatusWaiting)
    {
      WaitingFilter(filter, GameDetailOf(g));
    }
  }

  datatype GetPlayingGameQuery = GetPlayingGameQuery(gameId: int, userName: string)

  class GetPlayingGameQueryHandler {
    const gameRepository: GameQueryRepositoryMock

    constructor (gameRepository: GameQueryRepositoryMock)
      ensures this.gameRepository == gameRepository
    {
      this.gameRepository := gameRepository;
    }

    /**
     * The detailed view of the game, shown only to its host or guest; anyone
     * else is told it does not exist. A missing game is reported by the
     * repository itself, so its exception is the one that propagates.
     */
    method Handle(request: GetPlayingGameQuery) returns (r: Result<GameDetail, Error>)
      ensures var game := gameRepository.GetOne(request.gameId);
        r.Success? <==> game.Success? && (game.value.host == request.userName || game.value.guest == Some(request.userName))
      ensures r.Success? ==> r == gameRepository.GetOne(request.gameId) && r.value.gameId == request.gameId
      ensures gameRepository.GetOne(request.gameId).Failure? ==> r == Failure(GameWithIdNotFound(request.gameId))
      ensures var game := gameRepository.GetOne(request.gameId);
        game.Success? && game.value.host != request.userName && game.value.guest != Some(request.userName)
        ==> r == Failure(GameNotFound("Game " + IntToString(request.gameId) + " not found."))
    {
      var game := gameRepository.GetOne(request.gameId);
      if game.Failure? {
        return Failure(game.error);
      }
      var playingGame := game.value;
      if playingGame.host != request.userName && playingGame.guest != Some(request.userName) {
        return Failure(GameNotFound("Game " + IntToString(request.gameId) + " not found."));
      }
      return Success(playingGame);
    }
  }
}
