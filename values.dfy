/** Result codes shared by every part of the game, and an Option type. */
module Values {

  datatype Option<T> = None | Some(value: T)

  /** The game's return codes; Code() is the integer each stands for. */
  datatype ReturnValue =
    | Moved
    | ExitGame
    | EverythingOk
    | InvalidMoveCommand
    | InvalidCommand
    | InvalidCard
    | InvalidArgCount
    | InvalidFile
    | OutOfMemory
    | UnidentifiedError
  {
    function Code(): int {
      match this
      case Moved => 2
      case ExitGame => 1
      case EverythingOk => 0
      case InvalidMoveCommand => -1
      case InvalidCommand => -2
      case InvalidCard => -3
      case InvalidArgCount => -4
      case InvalidFile => -5
      case OutOfMemory => -6
      case UnidentifiedError => -7
    }
  }

  /** Errors at or below this code end the game loop. */
  const QuitGameErrors := -4
}
