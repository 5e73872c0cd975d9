/** The run-wide state resource of src/game/level.rs: current level, score, lives,
    the player's paddle and a pending request to load a level. */
module RunState {
  import opened Geometry

  /** Lives a player starts a level with (`PLAYER_DEFAULT_BALLS`). */
  const PlayerDefaultBalls: int := 99

  /** A request to load the level with the given id. */
  datatype LoadLevelEvent = LoadLevelEvent(level: nat)

  class LevelState {
    var level: nat
    var score: int
    var lives: int
    var playerPaddleEnt: Option<Entity>
    var loadLevelEvent: Option<LoadLevelEvent>
    var levelWidth: nat
    var levelHeight: nat

    /** `LevelState::new`: level 0, no score, three lives, no paddle yet, and the
        given load request pending. */
    constructor (levelWidth: nat, levelHeight: nat, loadLevelEvent: LoadLevelEvent)
      ensures level == 0 && score == 0 && lives == 3 && playerPaddleEnt == None
      ensures this.loadLevelEvent == Some(loadLevelEvent)
      ensures this.levelWidth == levelWidth && this.levelHeight == levelHeight
    {
      level := 0;
      score := 0;
      lives := 3;
      playerPaddleEnt := None;
      this.loadLevelEvent := Some(loadLevelEvent);
      this.levelWidth := levelWidth;
      this.levelHeight := levelHeight;
    }

    /** `setup`, once a level is built: the level id and paddle are recorded, the
        score is reset, lives refilled to the default and the load request
        cleared; the playfield size stays. */
    method Setup(level: nat, playerPaddleEnt: Entity)
      modifies this
      ensures this.level == level && score == 0 && lives == PlayerDefaultBalls
      ensures this.playerPaddleEnt == Some(playerPaddleEnt) && loadLevelEvent == None
      ensures levelWidth == old(levelWidth) && levelHeight == old(levelHeight)
    {
      this.level := level;
      score := 0;
      lives := PlayerDefaultBalls;
      this.playerPaddleEnt := Some(playerPaddleEnt);
      loadLevelEvent := None;
    }
  }
}
