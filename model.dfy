/**
 * The shared model: the Board and Connect4Game entities, whose fields the
 * engine updates in place, and the read-side views of a game (GameDetail,
 * FinishedGameDto, WaitingGameDto).
 *
 * The status of a game is a plain string, as in the source; the three
 * statuses the engine writes are the constants below.
 */
module Model {
  import opened Wrappers

  const StatusWaiting: string := "WaitingForPlayers"
  const StatusInProgress: string := "InProgress"
  const StatusFinished: string := "Finished"

  /** A Connect 4 board: the player to move and the serialised grid. */
  class Board {
    var id: int
    /** Null once the turn has passed to a guest who never joined. */
    var currentPlayer: Option<string>
    var state: string

    /** A board not yet stored: its id is 0 until the database assigns one. */
    constructor (currentPlayer: string, state: string)
      ensures id == 0 && this.currentPlayer == Some(currentPlayer) && this.state == state
    {
      id := 0;
      this.currentPlayer := Some(currentPlayer);
      this.state := state;
    }

    /** A board loaded from storage with its id. */
    constructor WithId(id: int, currentPlayer: string, state: string)
      ensures this.id == id && this.currentPlayer == Some(currentPlayer) && this.state == state
    {
      this.id := id;
      this.currentPlayer := Some(currentPlayer);
      this.state := state;
    }

    method UpdateBoard(state: string)
      modifies this`state
      ensures this.state == state
    {
      this.state := state;
    }
  }

  /**
   * A game. Name, host and board are fixed at construction; the id is set
   * when the game is stored; status, guest and winner change as it is played.
   */
  class Connect4Game {
    var id: int
    const name: string
    const host: string
    var guest: Option<string>
    var winner: Option<string>
    var status: string
    const board: Board

    /** A new game, not yet stored: its id is 0. */
    constructor (name: string, host: string, status: string, board: Board,
                 guest: Option<string> := None, winner: Option<string> := None)
      ensures id == 0 && this.name == name && this.host == host && this.status == status
      ensures this.board == board && this.guest == guest && this.winner == winner
    {
      id := 0;
      this.name := name;
      this.host := host;
      this.guest := guest;
      this.winner := winner;
      this.status := status;
      this.board := board;
    }

    /** A game loaded from storage with its id. */
    constructor Load(id: int, name: string, host: string, status: string, board: Board,
                     guest: Option<string> := None, winner: Option<string> := None)
      ensures this.id == id && this.name == name && this.host == host && this.status == status
      ensures this.board == board && this.guest == guest && this.winner == winner
    {
      this.id := id;
      this.name := name;
      this.host := host;
      this.guest := guest;
      this.winner := winner;
      this.status := status;
      this.board := board;
    }

    method WaitingForPlayers()
      modifies this`status
      ensures status == StatusWaiting
    {
      status := StatusWaiting;
    }

    method InProgress(guest: string)
      modifies this`status, this`guest
      ensures status == StatusInProgress && this.guest == Some(guest)
    {
      status := StatusInProgress;
      this.guest := Some(guest);
    }

    /** Ends the game; a null winner records a draw. */
    method Finished(winner: Option<string>)
      modifies this`status, this`winner
      ensures status == StatusFinished && this.winner == winner
    {
      status := StatusFinished;
      this.winner := winner;
    }
  }

  /**
   * The detailed view of a game. It copies the game's fields but shares its
   * Board object, so a change made through the view's board is a change to
   * the game's board.
   */
  datatype GameDetail = GameDetail(
    gameId: int, gameName: string, host: string, guest: Option<string>,
    winner: Option<string>, status: string, board: Board)
  {
    /** Rebuilds a game from the view; the view holds no name, so the game is named "SomeName". */
    method ToConnect4Game() returns (game: Connect4Game)
      ensures fresh(game)
      ensures game.id == gameId && game.name == "SomeName" && game.host == host && game.status == status
      ensures game.board == board && game.guest == guest && game.winner == winner
    {
      game := new Connect4Game.Load(gameId, "SomeName", host, status, board, guest, winner);
    }
  }

  /** The GameDetail constructor: a snapshot of the game's fields and a reference to its board. */
  function GameDetailOf(game: Connect4Game): (d: GameDetail)
    reads game
    ensures d.board == game.board
  {
    GameDetail(game.id, game.name, game.host, game.guest, game.winner, game.status, game.board)
  }

  /** A view and back gives the same game but for its name, sharing the same board. */
  method DetailRoundTrip(game: Connect4Game) returns (copy: Connect4Game)
    ensures fresh(copy) && copy != game
    ensures copy.id == game.id && copy.host == game.host && copy.status == game.status
    ensures copy.guest == game.guest && copy.winner == game.winner && copy.board == game.board
    ensures copy.name == "SomeName"
  {
    copy := GameDetailOf(game).ToConnect4Game();
  }

  /** A condition on games, evaluated on their detailed view. */
  type Specification = GameDetail -> bool

  /** The finished-game list entry: a missing guest or winner shows as the empty string. */
  datatype FinishedGameDto = FinishedGameDto(gameName: string, host: string, guest: string, winner: string)

  function FinishedGameDtoOf(game: Connect4Game): (dto: FinishedGameDto)
    reads game
    ensures dto.gameName == game.name && dto.host == game.host
    ensures game.guest.None? ==> dto.guest == ""
    ensures game.guest.Some? ==> dto.guest == game.guest.value
    ensures game.winner.None? ==> dto.winner == ""
    ensures game.winner.Some? ==> dto.winner == game.winner.value
  {
    FinishedGameDto(game.name, game.host,
                    match game.guest case None => "" case Some(g) => g,
                    match game.winner case None => "" case Some(w) => w)
  }

  /** The waiting-game list entry. */
  datatype WaitingGameDto = WaitingGameDto(gameId: int, gameName: string, host: string)

  function WaitingGameDtoOf(game: Connect4Game): (dto: WaitingGameDto)
    reads game
    ensures dto.gameId == game.id && dto.gameName == game.name && dto.host == game.host
  {
    WaitingGameDto(game.id, game.name, game.host)
  }
}
