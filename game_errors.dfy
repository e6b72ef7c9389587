/** The rejection reasons shared by every game engine. */
module GameErrors {
  datatype GameError =
    | IllegalMove(message: string)
    | GameNotInProgress
    | WrongTurn
    | InvalidPlayer
}
