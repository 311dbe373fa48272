/** Leaving a game: a waiting game is withdrawn, a running one is forfeited. */
module LeaveGame {
  import opened Wrappers
  import opened Errors
  import opened Model
  import opened Mocks

  datatype LeaveGameCommand = LeaveGameCommand(gameId: int, userName: string)

  /** What leaving does to a game, by its status and the user's place in it. */
  datatype LeaveAction =
    | DeleteGame                       // the host withdraws a game nobody has joined
    | Forfeit(winner: Option<string>)  // a player quits a running game; the other one wins
    | AlreadyFinished                  // nothing left to leave
    | Refuse                           // reported as a missing game

  function LeaveActionFor(d: GameDetail, userName: string): (a: LeaveAction)
    ensures a.DeleteGame? <==> d.status == StatusWaiting && d.host == userName
    ensures a.Forfeit? <==> d.status == StatusInProgress && (d.host == userName || d.guest == Some(userName))
    ensures a.Forfeit? && d.host == userName ==> a.winner == d.guest
    ensures a.Forfeit? && d.host != userName ==> a.winner == Some(d.host)
    ensures a.Forfeit? && d.guest != Some(d.host) ==> a.winner != Some(userName)
    ensures a.AlreadyFinished? <==> d.status == StatusFinished
    ensures d.host != userName && d.guest != Some(userName) ==> a.AlreadyFinished? || a.Refuse?
  {
    if d.status == StatusWaiting && d.host == userName then DeleteGame
    else if d.status == StatusInProgress && (d.guest == Some(userName) || d.host == userName) then
      Forfeit(if d.host == userName then d.guest else Some(d.host))
    else if d.status == StatusFinished then AlreadyFinished
    else Refuse
  }

  class LeaveGameCommandHandler {
    const gameRepository: GameRepositoryMock
    const gameQueryRepository: GameQueryRepositoryMock

    constructor (gameRepository: GameRepositoryMock, gameQueryRepository: GameQueryRepositoryMock)
      ensures this.gameRepository == gameRepository && this.gameQueryRepository == gameQueryRepository
    {
      this.gameRepository := gameRepository;
      this.gameQueryRepository := gameQueryRepository;
    }

    /**
     * Carries out `LeaveActionFor` on the game with the id: deletes it,
     * finishes it with the other player as winner, does nothing, or reports
     * it as not found. Only deleting changes the store's list, and only
     * forfeiting changes a game.
     */
    method Handle(request: LeaveGameCommand) returns (r: Outcome<Error>)
      modifies gameRepository, gameRepository.Target(request.gameId)
      ensures var game := old(gameQueryRepository.GetOne(request.gameId));
        game.Failure? || LeaveActionFor(game.value, request.userName).Refuse?
        ==> r == Fail(GameWithIdNotFound(request.gameId))
      ensures var game := old(gameQueryRepository.GetOne(request.gameId));
        game.Success? && LeaveActionFor(game.value, request.userName).AlreadyFinished? ==> r == Pass
      ensures var game := old(gameQueryRepository.GetOne(request.gameId));
        !(game.Success? && LeaveActionFor(game.value, request.userName).DeleteGame?)
        ==> gameRepository.games == old(gameRepository.games)
      ensures var game := old(gameQueryRepository.GetOne(request.gameId));
        !(game.Success? && LeaveActionFor(game.value, request.userName).Forfeit?)
        ==> unchanged(old(gameRepository.Target(request.gameId)))
      ensures var game := old(gameQueryRepository.GetOne(request.gameId));
        game.Success? && LeaveActionFor(game.value, request.userName).DeleteGame? ==>
        match old(FirstWithId(gameRepository.games, request.gameId))
        case None => r == Fail(NoGameWithId(request.gameId))
        case Some(i) => r == Pass && gameRepository.games == old(gameRepository.games[..i] + gameRepository.games[i + 1..])
      ensures var game := old(gameQueryRepository.GetOne(request.gameId));
        game.Success? && LeaveActionFor(game.value, request.userName).Forfeit? ==>
        match old(FirstWithId(gameRepository.games, request.gameId))
        case None => r == Fail(NoGameWithId(request.gameId))
        case Some(i) =>
          var g := gameRepository.games[i];
          r == Pass && g.status == StatusFinished && g.winner == LeaveActionFor(game.value, request.userName).winner
          && g.id == request.gameId && g.guest == old(g.guest)
    {
      var username := request.userName;
      var game := gameQueryRepository.GetOne(request.gameId);
      if game.Failure? {
        return Fail(GameWithIdNotFound(request.gameId));
      }
      var d := game.value;
      if d.status == StatusWaiting && d.host == username {
        r := gameRepository.Delete(request.gameId);
      } else if d.status == StatusInProgress && (d.guest == Some(username) || d.host == username) {
        var winner := if d.host == username then d.guest else Some(d.host);
        r := gameRepository.Finished(request.gameId, winner);
      } else if d.status == StatusFinished {
        return Pass;
      } else {
        return Fail(GameWithIdNotFound(request.gameId));
      }
    }
  }
}
