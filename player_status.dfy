/**
 * The player-status service: whether a user is already taking part in a
 * game that is waiting for players or in progress, which bars them from
 * creating, joining or browsing games.
 */
module PlayerStatus {
  import opened Wrappers
  import opened Text
  import opened Model
  import opened Mocks

  /**
   * BusyGameSpecification: a waiting or running game where the user is host
   * or guest. The user name is lower-cased once, each game's names on every
   * test; the status comparison is case-sensitive.
   */
  function BusyGameSpecification(userName: string): Specification {
    var u := Lower(userName);
    (d: GameDetail) =>
      (d.status == StatusWaiting || d.status == StatusInProgress)
      && (Lower(d.host) == u || (d.guest.Some? && Lower(d.guest.value) == u))
  }

  /** The service's busy test and the test the player-status mock applies are the same condition. */
  lemma BusySpecificationMatchesMock(userName: string, d: GameDetail)
    ensures BusyGameSpecification(userName)(d) <==> BusyInMock(d, userName)
  {
  }

  /**
   * The busy test ignores the case of the user name, never holds for a
   * finished game, and holds for a waiting or running game the user hosts.
   */
  lemma BusySpecificationProperties(userName: string, d: GameDetail)
    ensures BusyGameSpecification(Lower(userName))(d) == BusyGameSpecification(userName)(d)
    ensures d.status == StatusFinished ==> !BusyGameSpecification(userName)(d)
    ensures (d.status == StatusWaiting || d.status == StatusInProgress) && d.host == userName
      ==> BusyGameSpecification(userName)(d)
  {
    LowerIsIdempotent(userName);
  }

  /** The first game of the list keeping the user busy. */
  predicate FirstBusyAt(games: seq<Connect4Game>, userName: string, i: int)
    reads games
  {
    0 <= i < |games| && BusyGameSpecification(userName)(GameDetailOf(games[i]))
    && forall j :: 0 <= j < i ==> !BusyGameSpecification(userName)(GameDetailOf(games[j]))
  }

  /** The id of the first game of the list keeping the user busy, or none when the user is free. */
  function FirstBusyGame(games: seq<Connect4Game>, userName: string): (r: Option<int>)
    reads games
    ensures r.None? <==> forall j :: 0 <= j < |games| ==> !BusyGameSpecification(userName)(GameDetailOf(games[j]))
    ensures r.Some? ==> exists i :: FirstBusyAt(games, userName, i) && games[i].id == r.value
  {
    if games == [] then None
    else if BusyGameSpecification(userName)(GameDetailOf(games[0])) then
      assert FirstBusyAt(games, userName, 0);
      Some(games[0].id)
    else
      var r := FirstBusyGame(games[1..], userName);
      if r.Some? then
        var i :| FirstBusyAt(games[1..], userName, i) && games[1..][i].id == r.value;
        assert FirstBusyAt(games, userName, i + 1);
        r
      else
        r
  }

  /** The store filtered by the busy test is headed by the first busy game. */
  lemma {:induction false} FirstBusyIsHead(games: seq<Connect4Game>, userName: string)
    ensures Where(games, BusyGameSpecification(userName)) == [] <==> FirstBusyGame(games, userName).None?
    ensures Where(games, BusyGameSpecification(userName)) != [] ==>
      FirstBusyGame(games, userName) == Some(Where(games, BusyGameSpecification(userName))[0].id)
  {
    var spec := BusyGameSpecification(userName);
    if games != [] && !spec(GameDetailOf(games[0])) {
      assert Where(games, spec) == Where(games[1..], spec);
      FirstBusyIsHead(games[1..], userName);
    }
  }

  class PlayerStatusService {
    const gameRepo: GameQueryRepositoryMock

    constructor (gameRepo: GameQueryRepositoryMock)
      ensures this.gameRepo == gameRepo
    {
      this.gameRepo := gameRepo;
    }

    /**
     * The id of the first stored game keeping the user busy, or null when
     * the user is free. The waiting-game view is consulted before the
     * detailed view; both are filtered by the same test, so the detailed
     * view never decides the answer.
     */
    method CheckIfUserIsBusy(userName: string) returns (gameId: Option<int>)
      ensures gameId == FirstBusyGame(gameRepo.games, userName)
    {
      var spec := BusyGameSpecification(userName);
      var waitingGames := gameRepo.FindAll(spec);
      var inProgressGames := gameRepo.FindAll(spec);
      FirstBusyIsHead(gameRepo.games, userName);
      if waitingGames != [] {
        return Some(WaitingGameDtoOf(waitingGames[0]).gameId);
      } else if inProgressGames != [] {
        assert false;
      }
      return None;
    }
  }
}
