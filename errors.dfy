/**
 * The exceptions the engine throws. The domain exceptions form a hierarchy
 * in the source (every kind below except `Unexpected` is a DomainException);
 * here they are one flat datatype, and `Unexpected` stands for any other
 * exception (the generic ones the in-memory repositories throw, an invalid
 * enum value during conversion).
 */
module Errors {
  import opened Wrappers
  import opened Text

  datatype Error =
    | Unauthorized(message: string)
    | BusyUser(message: string, gameId: int)
    | GameNotFound(message: string)
    | NotYourTurn(message: string)
    | Domain(message: string)
    | Unexpected(message: string)
  {
    /** Whether the exception derives from DomainException. */
    predicate IsDomain() {
      !Unexpected?
    }
  }

  /** The BusyUserDomainException constructor: a missing game id is stored as 0. */
  function NewBusyUser(message: string, gameId: Option<int>): (e: Error)
    ensures e.BusyUser? && e.message == message
    ensures gameId.None? ==> e.gameId == 0
    ensures gameId.Some? ==> e.gameId == gameId.value
  {
    BusyUser(message, match gameId case None => 0 case Some(id) => id)
  }

  /** The message of a busy user's refusal, `action` being what was refused. */
  function BusyMessage(gameId: int, action: string): string {
    "You are busy in game " + IntToString(gameId) + ", cannot " + action + "."
  }

  /** The GameNotFoundException most handlers and the query repository throw. */
  function GameWithIdNotFound(gameId: int): Error {
    GameNotFound("Game with id " + IntToString(gameId) + " not found.")
  }

  const InvalidMove: Error := Domain("Invalid move.")
  const InvalidGameName: Error := Domain("Invalid game name")
  const WaitingForOtherPlayer: Error := NotYourTurn("Waiting for the other player to join the game.")
  const NotYourTurnToPlay: Error := NotYourTurn("It is not your turn to play.")
}
