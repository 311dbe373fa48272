/**
 * The conversions between the stored rows and the domain objects: the
 * status enum of a stored game and the status string of the domain, and
 * the board and game conversions in both directions.
 */
module Extensions {
  import opened Wrappers
  import opened Text
  import opened Errors
  import opened Model

  /** The stored status; an enum variable can also hold a value outside the declared members. */
  datatype GameStatusSqlite = WaitingForPlayers | InProgress | Finished | Undefined(code: int)

  datatype UserSqlite = UserSqlite(id: int, username: string)

  datatype BoardSqlite = BoardSqlite(id: int, currentPlayer: Option<UserSqlite>, state: string)

  datatype GameSqlite = GameSqlite(
    id: int, name: string, host: UserSqlite, guest: Option<UserSqlite>, winner: Option<UserSqlite>,
    status: GameStatusSqlite, board: BoardSqlite)

  /** The InvalidOperationException an unknown status raises. */
  function UnknownStatus(shown: string): Error {
    Unexpected("Unknown game status: " + shown)
  }

  /** The status switch of `GameSqlite.ToDomain`. */
  function StatusToDomain(status: GameStatusSqlite): (r: Result<string, Error>)
    ensures r.Success? <==> !status.Undefined?
    ensures r.Success? ==> r.value in {StatusWaiting, StatusInProgress, StatusFinished}
    ensures status.Undefined? ==> r == Failure(UnknownStatus(IntToString(status.code)))
  {
    match status
    case WaitingForPlayers => Success(StatusWaiting)
    case InProgress => Success(StatusInProgress)
    case Finished => Success(StatusFinished)
    case Undefined(code) => Failure(UnknownStatus(IntToString(code)))
  }

  /** The status switch of `Connect4Game.ToSqlite`: exact, case-sensitive matches only. */
  function StatusToSqlite(status: string): (r: Result<GameStatusSqlite, Error>)
    ensures r.Success? <==> status in {StatusWaiting, StatusInProgress, StatusFinished}
    ensures r.Success? ==> !r.value.Undefined?
    ensures r.Failure? ==> r == Failure(UnknownStatus(status))
  {
    if status == StatusWaiting then Success(WaitingForPlayers)
    else if status == StatusInProgress then Success(InProgress)
    else if status == StatusFinished then Success(Finished)
    else Failure(UnknownStatus(status))
  }

  /** The two status conversions are inverse to each other on the three statuses. */
  lemma StatusRoundTrips(stored: GameStatusSqlite, status: string)
    ensures !stored.Undefined? ==> StatusToSqlite(StatusToDomain(stored).value) == Success(stored)
    ensures StatusToSqlite(status).Success? ==> StatusToDomain(StatusToSqlite(status).value) == Success(status)
  {
  }

  /** `BoardSqlite.ToDomain`: a new board, id 0, with a missing current player read as "". */
  method BoardToDomain(sqlite: BoardSqlite) returns (board: Board)
    ensures fresh(board)
    ensures board.id == 0 && board.state == sqlite.state
    ensures sqlite.currentPlayer.None? ==> board.currentPlayer == Some("")
    ensures sqlite.currentPlayer.Some? ==> board.currentPlayer == Some(sqlite.currentPlayer.value.username)
  {
    var currentPlayer := match sqlite.currentPlayer case None => "" case Some(u) => u.username;
    board := new Board(currentPlayer, sqlite.state);
  }

  /** `Board.ToSqlite`: the state is copied and the given host becomes the current player. */
  function BoardToSqlite(domain: Board, host: UserSqlite): (row: BoardSqlite)
    reads domain
    ensures row.state == domain.state && row.currentPlayer == Some(host) && row.id == 0
  {
    BoardSqlite(0, Some(host), domain.state)
  }

  function UsernameOf(user: Option<UserSqlite>): Option<string> {
    match user case None => None case Some(u) => Some(u.username)
  }

  /** `GameSqlite.ToDomain`: the stored game as a domain game, failing on an unknown status. */
  method GameToDomain(sqlite: GameSqlite) returns (r: Result<Connect4Game, Error>)
    ensures r.Failure? <==> sqlite.status.Undefined?
    ensures r.Failure? ==> r.error == UnknownStatus(IntToString(sqlite.status.code))
    ensures r.Success? ==>
      var game := r.value;
      fresh(game) && fresh(game.board)
      && game.id == sqlite.id && game.name == sqlite.name && game.host == sqlite.host.username
      && Success(game.status) == StatusToDomain(sqlite.status)
      && game.guest == UsernameOf(sqlite.guest) && game.winner == UsernameOf(sqlite.winner)
      && game.board.state == sqlite.board.state && game.board.id == 0
      && game.board.currentPlayer == Some(match sqlite.board.currentPlayer case None => "" case Some(u) => u.username)
  {
    var status := StatusToDomain(sqlite.status);
    if status.Failure? {
      return Failure(status.error);
    }
    var board := BoardToDomain(sqlite.board);
    var game := new Connect4Game.Load(sqlite.id, sqlite.name, sqlite.host.username, status.value, board,
                                      UsernameOf(sqlite.guest), UsernameOf(sqlite.winner));
    return Success(game);
  }

  /** `Connect4Game.ToSqlite`: the row for a domain game, given its stored users and board. */
  function GameToSqlite(domain: Connect4Game, host: UserSqlite, guest: Option<UserSqlite>,
                        winner: Option<UserSqlite>, board: BoardSqlite): (r: Result<GameSqlite, Error>)
    reads domain
    ensures r.Failure? <==> StatusToSqlite(domain.status).Failure?
    ensures r.Failure? ==> r.error == UnknownStatus(domain.status)
    ensures r.Success? ==>
      r.value.id == domain.id && r.value.name == domain.name && r.value.host == host
      && r.value.guest == guest && r.value.winner == winner && r.value.board == board
      && StatusToDomain(r.value.status) == Success(domain.status)
  {
    match StatusToSqlite(domain.status)
    case Failure(e) => Failure(e)
    case Success(status) => Success(GameSqlite(domain.id, domain.name, host, guest, winner, status, board))
  }

  /**
   * Storing a game and loading it back keeps its id, name, players, status
   * and board state, provided the stored users are the game's players. The
   * board itself does not survive: the loaded one is new, has id 0, and
   * gives the turn to the host, whoever was to move before.
   */
  method StoreAndLoad(game: Connect4Game, host: UserSqlite, guest: Option<UserSqlite>, winner: Option<UserSqlite>)
    returns (r: Result<Connect4Game, Error>)
    requires host.username == game.host
    requires UsernameOf(guest) == game.guest && UsernameOf(winner) == game.winner
    ensures r.Failure? <==> StatusToSqlite(game.status).Failure?
    ensures r.Success? ==>
      fresh(r.value) && r.value.id == game.id && r.value.name == game.name && r.value.host == game.host
      && r.value.guest == game.guest && r.value.winner == game.winner && r.value.status == game.status
      && r.value.board.state == game.board.state
      && fresh(r.value.board) && r.value.board.id == 0 && r.value.board.currentPlayer == Some(game.host)
  {
    var row := GameToSqlite(game, host, guest, winner, BoardToSqlite(game.board, host));
    if row.Failure? {
      return Failure(row.error);
    }
    r := GameToDomain(row.value);
  }
}
