/** The server's tunables (server_logic/constants.js). Lengths are in pixels. */
module Constants {

  /** Distance a bullet travels in one tick. */
  const BULLET_SPEED: real := 15.0

  /** Width and height of the world. */
  const GAME_WIDTH: real := 1920.0
  const GAME_HEIGHT: real := 1080.0

  /** Side of a player's square hit box. */
  const PLAYER_SIZE: real := 100.0

  /** Side of a bullet's square hit box. */
  const BULLET_SIZE: real := 4.0

  /** Health a player starts with. */
  const MAX_HEALTH: real := 100.0

  /** Health a bullet takes from the player it hits. */
  const BULLET_DAMAGE: real := 20.0

  /** Bullets are kept while inside the world grown by this margin on every side. */
  const WORLD_MARGIN: real := 50.0

  /** Bullet positions are broadcast once per this many ticks that have clients. */
  const BULLET_BROADCAST_PERIOD: nat := 3
}
