/** The match state and outcome enums (GameLogic/GameState.h). */
module GameStates {
  datatype GameState = NotStarted | InProgress | Paused | GameOver

  datatype GameOverType = None | Win | Draw
}
