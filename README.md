# Connect 4 game-session engine, modelled in Dafny

This project models the core of a Connect 4 web service written in C#.
That core is the game-session engine:

- The board algorithm: the board is stored as six rows of seven characters joined by `;`. The algorithm validates a move, drops a token, and detects a win or a draw.
- The Board and Connect4Game entities and their state transitions.
- The busy-player rule: a user taking part in a waiting or running game may not create, join or browse games.
- The category filter of the game lists (`waiting`, `finished-<user>`, `playing-<user>`).
- The four command handlers: create, join, leave and play a move.
- The three query handlers: waiting games, finished games, and one playing game.
- The in-memory repositories the handlers are written against.
- Conversion between stored rows and domain objects.
- The token blacklist, the exception-to-HTTP-response filter, and the UI's board-to-array helper.

Entities whose fields the source updates in place are classes:

- `Board` and `Connect4Game`.
- The repositories, which hold sequences of references.
- The handlers and the exception context.

Views and commands are datatypes. `GameDetail` shares its `Board` object with the stored game. So the in-place board update of a move is a change to the stored game's board, as in the source.

Exceptions are the `Errors.Error` datatype:

- Each handler returns a `Result` or `Outcome`. The contract lists the exact error for each refusal.
- The non-domain exceptions the in-memory stores throw are `Unexpected`, with their messages. So are an unknown enum value and a null dereference.

Each imperative operation is proved against a specification function:

- `CheckWin` returns whether `HasFour` holds on the parsed grid. `HasFour` is the existence of four equal tokens in a line.
- `UpdateBoard` returns the serialisation of `Drop`, the grid with the token in the lowest empty cell of the column.
- `CheckIfUserIsBusy` returns `FirstBusyGame`.
- The handlers' results and new store states are stated in terms of these functions and the repositories' lookup functions.

Lemmas then relate the specification functions:

- A move is valid exactly when the column has room.
- A draw is exactly a full board.
- Drops preserve gravity and never destroy a four.
- The filter ignores case.
- Consecutive pages concatenate.
- The busy test ignores case and never holds for finished games.
- The status conversions are mutually inverse.

## Model

| member | source | states |
|---|---|---|
| GameService.IsColumnFree | Connect4.Domain/Services/GameService.cs:281-288 | a column whose top cell is empty always has a cell for a dropped token, and on a board obeying gravity it is free exactly when it has one |
| GameService.CheckDraw | Connect4.Domain/Services/GameService.cs:144-156 | on a well-formed board a draw is declared exactly when no column accepts a move |
| GameService.ValidateMove | Connect4.Domain/Services/GameService.cs:63-80 | a move accepted by the validation is in a column between 0 and 6 |
| GameService.ValidMoveIffRoomInColumn | Connect4.Domain/Services/GameService.cs:63-80 | on a board obeying gravity, a move is valid exactly when the column is in range and still has an empty cell |
| GameService.UpdateBoard | Connect4.Domain/Services/GameService.cs:89-107 | the new state is the old grid with the player's token in the lowest empty cell of the column; a full column leaves the state as it was; the result is again six rows of seven |
| GameService.DropChangesOnlyLandingCell | Connect4.Domain/Services/GameService.cs:89-107 | dropping a token changes only the landing cell, and that cell gets the player's colour |
| GameService.DropPreservesGravity | Connect4.Domain/Services/GameService.cs:89-107 | if no token floats above an empty cell before a drop, none does after it |
| GameService.PlayAllKeepsGravity | Connect4.Domain/Services/GameService.cs:89-107 | any sequence of moves from a board obeying gravity leaves a board obeying gravity |
| GameService.DropKeepsFour | Connect4.Domain/Services/GameService.cs:89-107 | a four in a row that exists before a drop still exists after it |
| GameService.CheckWin | Connect4.Domain/Services/GameService.cs:115-137 | the player has won exactly when four of their tokens lie in a horizontal, vertical or diagonal line anywhere on the board |
| GameService.CheckHorizontal | Connect4.Domain/Services/GameService.cs:166-185 | true exactly when a horizontal run of four of the colour passes within three columns of the cell |
| GameService.CheckVertical | Connect4.Domain/Services/GameService.cs:195-214 | true exactly when a vertical run of four of the colour passes within three rows of the cell |
| GameService.CheckDiagonal | Connect4.Domain/Services/GameService.cs:224-273 | true exactly when a run of four of the colour on either diagonal through the cell contains it |
| GameService.ScanDownRight | Connect4.Domain/Services/GameService.cs:224-273 | the consecutive-count scan along the down-right diagonal finds four exactly when such a run contains the cell |
| GameService.ScanUpRight | Connect4.Domain/Services/GameService.cs:224-273 | the consecutive-count scan along the up-right diagonal finds four exactly when such a run contains the cell |
| GameService.FoundFourIsFour | Connect4.Domain/Services/GameService.cs:115-137 | a run found near any cell is a four in a row on the board |
| GameService.DrawIffBoardFull | Connect4.Domain/Services/GameService.cs:144-156 | testing the top row for an empty cell is, on a board obeying gravity, the same as testing that every cell is filled |
| GameService.EmptyBoardParses | Connect4.Domain/Commands/CreateGameCommand.cs:19 | the initial board string parses to six rows of seven empty cells and is not a draw |
| GameService.EmptyGridHasNoFour | Connect4.Domain/Commands/CreateGameCommand.cs:19 | an empty board obeys gravity and holds no four for any player |
| Model.Board.constructor | Connect4.Common/Model/Board.cs:25-29 | a new board has id 0 and the given current player and state |
| Model.Board.WithId | Connect4.Common/Model/Board.cs:37-41 | a loaded board has the given id, current player and state |
| Model.Board.UpdateBoard | Connect4.Common/Model/Board.cs:47-50 | only the state changes |
| Model.Connect4Game.constructor | Connect4.Common/Model/Connect4Game.cs:49-64 | a new game has id 0 and the given name, host, status, board, guest and winner |
| Model.Connect4Game.Load | Connect4.Common/Model/Connect4Game.cs:76-92 | a loaded game has the given id and fields |
| Model.Connect4Game.WaitingForPlayers | Connect4.Common/Model/Connect4Game.cs:97 | sets the status to waiting and changes nothing else, with no guard on the previous status |
| Model.Connect4Game.InProgress | Connect4.Common/Model/Connect4Game.cs:103-107 | sets the status to in progress and the guest, changing nothing else |
| Model.Connect4Game.Finished | Connect4.Common/Model/Connect4Game.cs:113-117 | sets the status to finished and the winner (none for a draw), changing nothing else |
| Model.GameDetailOf | Connect4.Common/Model/GameDetail.cs:69-78 | the detailed view refers to the game's own board object |
| Model.GameDetail.ToConnect4Game | Connect4.Common/Model/GameDetail.cs:52-63 | a new game with the view's fields, the name "SomeName" and the view's board object |
| Model.DetailRoundTrip | Connect4.Common/Model/GameDetail.cs:52-78 | game to view to game keeps id, host, players, status and the shared board, and loses the name |
| Model.FinishedGameDtoOf | Connect4.Common/Model/FinishedGameDto.cs:38-44 | a missing guest or winner shows as the empty string; present ones are copied |
| Model.WaitingGameDtoOf | Connect4.Common/Model/WaitingGameDto.cs:32-37 | the entry carries the game's id, name and host |
| Errors.NewBusyUser | Connect4.Domain/Exceptions/BusyUserException.cs:12-15 | a busy-user exception keeps its message and stores a missing game id as 0 |
| Mocks.GameRepositoryMock.NextId | Connect4.Domain.Tests/Mocks/GameRepositoryMock.cs:27-32 | the id given to a new game is 1 in an empty store and otherwise one more than the largest stored id, so it differs from every stored id |
| Mocks.GameRepositoryMock.Create | Connect4.Domain.Tests/Mocks/GameRepositoryMock.cs:27-32 | the game gets that id, is appended, and the id is returned |
| Mocks.GameRepositoryMock.Update | Connect4.Domain.Tests/Mocks/GameRepositoryMock.cs:40-50 | the first game with the id is removed and the new one appended, keeping the length; a missing id fails with the store's message and changes nothing |
| Mocks.GameRepositoryMock.WaitingForPlayers | Connect4.Domain.Tests/Mocks/GameRepositoryMock.cs:57-66 | the first game with the id becomes waiting; a missing id fails; the list is unchanged |
| Mocks.GameRepositoryMock.InProgress | Connect4.Domain.Tests/Mocks/GameRepositoryMock.cs:74-83 | the first game with the id gets the guest and becomes in progress; a missing id fails |
| Mocks.GameRepositoryMock.Finished | Connect4.Domain.Tests/Mocks/GameRepositoryMock.cs:91-100 | the first game with the id becomes finished with the given winner; a missing id fails |
| Mocks.GameRepositoryMock.Delete | Connect4.Domain.Tests/Mocks/GameRepositoryMock.cs:107-116 | the first game with the id is removed, the others keep their order; a missing id fails |
| Mocks.GameRepositoryMock.Add | Connect4.Domain.Tests/Mocks/GameRepositoryMock.cs:122-125 | the game is appended as it is |
| Mocks.GameQueryRepositoryMock.AddGame | Connect4.Domain.Tests/Mocks/GameQueryRepositoryMock.cs:22-25 | the game is appended |
| Mocks.GameQueryRepositoryMock.ClearGames | Connect4.Domain.Tests/Mocks/GameQueryRepositoryMock.cs:30-33 | the store becomes empty |
| Mocks.GameQueryRepositoryMock.FindAll | Connect4.Domain.Tests/Mocks/GameQueryRepositoryMock.cs:42-56 | exactly the stored games satisfying the specification, in store order |
| Mocks.GameQueryRepositoryMock.Find | Connect4.Domain.Tests/Mocks/GameQueryRepositoryMock.cs:67-83 | at most `limit` matching stored games, taken after skipping `offset` matches |
| Mocks.GameQueryRepositoryMock.ConsecutivePages | Connect4.Domain.Tests/Mocks/GameQueryRepositoryMock.cs:67-83 | two consecutive pages of size n together are the page of size 2n |
| Mocks.GameQueryRepositoryMock.GetOne | Connect4.Domain.Tests/Mocks/GameQueryRepositoryMock.cs:91-99 | the view of the first game with the id, sharing its board; not-found exactly when no stored game has the id |
| Mocks.GameQueryRepositoryMock.Add | Connect4.Domain.Tests/Mocks/GameQueryRepositoryMock.cs:105-108 | the game is appended |
| Mocks.BoardRepositoryMock.UpdateBoard | Connect4.Domain.Tests/Mocks/BoardRepositoryMock.cs:27-37 | the first board with the id gets the new state and current player; a missing id fails and changes nothing |
| Mocks.BoardRepositoryMock.Add | Connect4.Domain.Tests/Mocks/BoardRepositoryMock.cs:43-46 | the board is appended |
| Mocks.PlayerStatusServiceMock.AddGame | Connect4.Domain.Tests/Mocks/PlayerStatusServiceMock.cs:19-22 | the game is stored under its id, replacing any earlier one |
| Mocks.PlayerStatusServiceMock.ClearGames | Connect4.Domain.Tests/Mocks/PlayerStatusServiceMock.cs:27-30 | the store becomes empty |
| Mocks.PlayerStatusServiceMock.CheckIfUserIsBusy | Connect4.Domain.Tests/Mocks/PlayerStatusServiceMock.cs:37-47 | none exactly when no stored game keeps the user busy; otherwise the id of a stored game that does |
| PlayerStatus.BusySpecificationMatchesMock | Connect4.Domain/Services/PlayerStatusService.cs:98-108 | the service's busy condition and the player-status mock's are the same |
| PlayerStatus.BusySpecificationProperties | Connect4.Domain/Services/PlayerStatusService.cs:91-108 | the busy test ignores the case of the user name, never holds for a finished game, and holds for a waiting or running game the user hosts |
| PlayerStatus.FirstBusyGame | Connect4.Domain/Services/PlayerStatusService.cs:48-72 | none exactly when no stored game keeps the user busy; otherwise the id of the first such game |
| PlayerStatus.FirstBusyIsHead | Connect4.Domain/Services/PlayerStatusService.cs:52-63 | the busy games found are empty exactly when there is no first busy game, and otherwise the first found is that game |
| PlayerStatus.PlayerStatusService.CheckIfUserIsBusy | Connect4.Domain/Services/PlayerStatusService.cs:48-72 | returns the id of the first stored game keeping the user busy, or none |
| GameListFilter.GameListFilterSpecification | Connect4.Domain/Repositories/GameListFilterSpecification.cs:23-35 | a missing filter, or one made only of white space, lets every game through; otherwise the filter means what its lower-cased, trimmed text means, in either order of the two steps |
| GameListFilter.ToExpression | Connect4.Domain/Repositories/GameListFilterSpecification.cs:29-83 | an empty text matches every game, "waiting" the waiting games, "finished-" and "playing-" followed by a name the finished or running games of the user named by all the text after the prefix, and any other text no game |
| GameListFilter.ParticipantFilter | Connect4.Domain/Repositories/GameListFilterSpecification.cs:45-79 | for a text starting with its prefix, the split on the first '-' always has two parts, so the filter matches the games with the status where the user after the prefix is host or guest |
| GameListFilter.WaitingFilter | Connect4.Domain/Repositories/GameListFilterSpecification.cs:38-41 | a filter reading "waiting" after trimming and lower-casing lets through exactly the waiting games, status compared ignoring case |
| GameListFilter.FinishedFilter | Connect4.Domain/Repositories/GameListFilterSpecification.cs:45-61 | "finished-u" lets through exactly the finished games where u is host or guest, ignoring case |
| GameListFilter.PlayingFilter | Connect4.Domain/Repositories/GameListFilterSpecification.cs:64-79 | "playing-u" lets through exactly the running games where u is host or guest, ignoring case |
| GameListFilter.UnknownFilterMatchesNothing | Connect4.Domain/Repositories/GameListFilterSpecification.cs:82 | any other non-blank filter lets nothing through |
| GameListFilter.FilterIgnoresCase | Connect4.Domain/Repositories/GameListFilterSpecification.cs:23-26 | the filter's meaning does not depend on the case of its letters |
| CreateGame.CreateGameCommand.constructor | Connect4.Domain/Commands/CreateGameCommand.cs:14-19 | the command holds a fresh waiting game with id 0, no guest or winner, and an empty board whose current player is the host |
| CreateGame.CreateGameCommandHandler.Handle | Connect4.Domain/Commands/CreateGameCommandHandler.cs:39-54 | a busy host is refused with the busy game's id; otherwise a name shorter than 3 or longer than 50 is refused; otherwise the game is stored under the next id, which is returned; a refusal stores nothing |
| JoinGame.JoinGameCommandHandler.Handle | Connect4.Domain/Commands/JoinGameCommandHandler.cs:47-65 | a busy user is refused; a game that is missing or not waiting is reported not found; a game the game store lacks fails there; otherwise the game gets the user as guest and starts, keeping its winner; a refusal changes nothing |
| JoinGame.JoinRefusal | Connect4.Domain/Commands/JoinGameCommandHandler.cs:49-62 | a join is refused, in this order, when the user is busy, when the game is missing or not waiting, and when the game store has no game with the id; it goes through exactly when all three checks pass |
| JoinGame.WaitingHostIsBusy | Connect4.Domain/Commands/JoinGameCommandHandler.cs:49-54 | the host of a waiting game is busy whatever the case of the name they give, so every join they ask for is refused |
| LeaveGame.LeaveActionFor | Connect4.Domain/Commands/LeaveGameCommandHandler.cs:51-67 | the host leaving a waiting game deletes it; a participant leaving a running game forfeits it to the other player (the guest, possibly none, when the host leaves); a finished game is left as it is; anything else is refused |
| LeaveGame.LeaveGameCommandHandler.Handle | Connect4.Domain/Commands/LeaveGameCommandHandler.cs:42-70 | carries out that action on the store: deletion, or finishing with the other player as winner, or nothing; a refusal or a missing game is reported as not found |
| PlayMove.ColorOf | Connect4.Domain/Commands/PlayMoveCommandHandler.cs:100 | the host plays '1' and anyone else '2', never the empty or separator character |
| PlayMove.TurnsAlternate | Connect4.Domain/Commands/PlayMoveCommandHandler.cs:106 | after the host the turn passes to the guest, after the guest back to the host |
| PlayMove.MoveRefusal | Connect4.Domain/Commands/PlayMoveCommandHandler.cs:67-97 | a move is accepted exactly when the game exists, the user takes part, it is running, it is the user's turn and the column is in range with room; a missing game or a user who does not take part gives "Game with id N not found.", a game not running "Waiting for the other player to join the game.", a move out of turn "It is not your turn to play." and a bad column "Invalid move." |
| PlayMove.StateAfterMove | Connect4.Domain/Commands/PlayMoveCommandHandler.cs:100-101 | the state after the move is well formed and is the old grid with the player's token dropped |
| PlayMove.PlayMoveCommandHandler.Handle | Connect4.Domain/Commands/PlayMoveCommandHandler.cs:64-122 | a refused move changes nothing; an accepted one changes only the state of the game's board, saves that state with the next player to the stored board, which keeps its id, then finishes the game, keeping its id and guest, with the mover as winner on a four or with no winner when the top row is full |
| PlayMove.PlayMoveCommandHandler.PlayValidMove | Connect4.Domain/Commands/PlayMoveCommandHandler.cs:99-121 | for a move that passed its checks: the shared board holds the dropped token; a missing stored board fails before the result is recorded; otherwise the stored board keeps its id and has the new state and the other player's turn, and the game is finished, keeping its id and guest, on a four or a full top row and left alone otherwise |
| PlayMove.PlayMoveCommandHandler.SaveMove | Connect4.Domain/Commands/PlayMoveCommandHandler.cs:99-108 | the shared board gets the new state and the stored board keeps its id and gets that state and the other player's turn; a missing stored board fails |
| PlayMove.PlayMoveCommandHandler.RecordResult | Connect4.Domain/Commands/PlayMoveCommandHandler.cs:110-119 | with neither a four nor a full top row nothing is written; otherwise the game is finished, keeping its id and guest, and the draw check runs last, so a winning move that fills the top row leaves no winner |
| Queries.GetWaitingGamesQueryHandler.Handle | Connect4.Domain/Queries/GetWaitingGamesQueryHandler.cs:42-59 | a missing user name is a null dereference; a busy user is refused; otherwise the page of games matching the filter, at most `limit` entries |
| Queries.WaitingPageHoldsWaitingGames | Connect4.Domain/Queries/GetWaitingGamesQueryHandler.cs:53-58 | with the filter "waiting" every listed game is stored and waiting |
| Queries.GetFinishedGamesQueryHandler.Handle | Connect4.Domain/Queries/GetFinishedGamesQueryHandler.cs:42-58 | a busy user is refused; otherwise the page of games matching the filter, at most `limit` entries |
| Queries.FinishedPageHoldsUsersFinishedGames | Connect4.Domain/Queries/GetFinishedGamesQueryHandler.cs:52-57 | with the filter "finished-u" every listed game is stored, finished, and has u as host or guest |
| Queries.GetPlayingGameQueryHandler.Handle | Connect4.Domain/Queries/GetPlayingGameQueryHandler.cs:37-54 | the game's view exactly when it exists and the user takes part in it; a missing game fails with the repository's "Game with id N not found.", and a game the user does not play in with "Game N not found." |
| Extensions.StatusToDomain | Connect4.Infrastructure/Model/Extensions.cs:15-21 | the three stored statuses map to their names; any other enum value fails with "Unknown game status" |
| Extensions.StatusToSqlite | Connect4.Infrastructure/Model/Extensions.cs:44-50 | exactly the three status names, matched case-sensitively, convert; any other fails with "Unknown game status" |
| Extensions.StatusRoundTrips | Connect4.Infrastructure/Model/Extensions.cs:9-53 | the two status conversions are inverse to each other on the three statuses |
| Extensions.BoardToDomain | Connect4.Infrastructure/Model/Extensions.cs:55-61 | a new board with id 0 and the stored state; a missing current player becomes "" |
| Extensions.BoardToSqlite | Connect4.Infrastructure/Model/Extensions.cs:63-70 | the stored board has the state and the given host as current player |
| Extensions.GameToDomain | Connect4.Infrastructure/Model/Extensions.cs:9-27 | a new game with the stored id, name, user names and status name on a new board with id 0, the stored state and the stored current player, "" when there is none; an unknown status fails |
| Extensions.GameToSqlite | Connect4.Infrastructure/Model/Extensions.cs:29-53 | the row carries the game's id, name, status and the given users and board; an unknown status name fails |
| Extensions.StoreAndLoad | Connect4.Infrastructure/Model/Extensions.cs:9-70 | storing and loading a game keeps its id, name, players, status and board state, but the loaded board is new, has id 0 and hands the turn to the host whoever was to move |
| BoardUtilities.GetBoardArrayFromString | Connect4.UI/Data/BoardUtilities.cs:7-24 | an array as high as the number of rows and as wide as the first row, cell [i, j] being character j of row i, and '\0' where a shorter row ends |
| BoardUtilities.GetEmptyBoard | Connect4.UI/Data/BoardUtilities.cs:26-28 | a 6 by 7 array of '\0' |
| TokenBlacklist.TokenBlacklistService.BlacklistToken | Connect4.Domain/Services/TokenBlacklistService.cs:36-39 | the token is revoked until the expiry, replacing any earlier expiry |
| TokenBlacklist.TokenBlacklistService.IsTokenBlacklisted | Connect4.Domain/Services/TokenBlacklistService.cs:42-59 | true exactly when the token is listed with an expiry after now; an expired entry for it is removed; nothing else changes |
| TokenBlacklist.AfterCheck | Connect4.Domain/Services/TokenBlacklistService.cs:51-56 | a check keeps every other entry and keeps the checked one exactly when it is still live |
| TokenBlacklist.RevokedUntilExpiry | Connect4.Domain/Services/TokenBlacklistService.cs:36-59 | a token just revoked is reported revoked exactly until its expiry, and other tokens' answers are unaffected |
| TokenBlacklist.CheckKeepsAnswers | Connect4.Domain/Services/TokenBlacklistService.cs:42-59 | removing an expired entry never changes any answer at that instant or later |
| ExceptionFilter.ResultFor | Connect4.API/HttpResponseExceptionFilter.cs:29-92 | domain exceptions get a 4xx status and keep their message (401 unauthorized, 409 busy with the game id, 404 not found, 403 not your turn, 400 other); any other exception gets 500 and a generic message |
| ExceptionFilter.HttpResponseExceptionFilter.OnException | Connect4.API/HttpResponseExceptionFilter.cs:29-92 | every exception gets exactly that response and is marked handled |

## Left out

- Asynchrony, MediatR dispatch, dependency injection, console logging and the HTTP controllers are not modelled. Handlers are plain method calls.
- The SQLite repositories and the Entity Framework context are not part of this model. The handlers run against the in-memory repositories, as the domain's own tests do. Only the row/domain conversions are modelled.
- Login, password hashing, JWT creation and the UI services are not part of this model.
- Game status is kept as the string the source uses, not an enumeration. The three statuses the engine writes are constants, and any other string can still occur.
- Strings are sequences of characters. `Length` counts characters rather than UTF-16 code units, and `ToLower` and case-insensitive comparison fold only ASCII letters. The filter's `StartsWith` tests are ordinal, whereas .NET's default comparison is culture-sensitive and skips ignorable characters such as a soft hyphen.
- The clock is not modelled. `TokenBlacklistService.IsTokenBlacklisted` takes the current instant as a parameter, and instants are integers.
- Concurrent access to the blacklist dictionary is not modelled.
- GameService.UpdateBoard, GameService.CheckWin and GameService.ValidateMove: these require a well-formed state (six rows of seven cells). On any other string the source would throw an index exception. GameService.CheckDraw needs no such condition, since splitting always yields a first row.
- GameService.UpdateBoard: this also requires the column to be between 0 and 6, where the source throws an index exception. Every caller validates the column first.
- PlayMove.PlayMoveCommandHandler.Handle: this requires the fetched game's board state to be well formed.
- PlayMove.PlayMoveCommandHandler.Handle: the check that the fetched object's runtime type is `GameDetail` always passes, so it is not modelled.
- PlayMove.PlayMoveCommandHandler.SaveMove: the `ToConnect4Game` copy the source makes and never reads is not made.
- BoardUtilities.GetBoardArrayFromString: this requires that no row is longer than the first. The source indexes past the array's width otherwise.
- Errors.NewBusyUser: the exception is a value, so the settable `GameId` property is a field update of that value rather than a mutation.
- The handlers' null checks on `GetOne` results are not modelled, because the repository throws `GameNotFound` instead of returning null.
- The `parts.Length != 2` fallbacks of the game-list filter are never reached. A filter starting with "finished-" or "playing-" always contains a '-'.
