/**
 * The records the server keeps and the messages it exchanges with its clients.
 * Numbers are JavaScript numbers taken as exact reals; positions of players are the CSS
 * strings the clients send (`"123px"`), positions of bullets are numbers.
 */
module Entities {
  import opened Wrappers
  import opened OrderedMap

  /** A player's position as the client reports it: CSS `left` and `top` strings. */
  datatype Pos = Pos(x: string, y: string)

  /** A player record of the server's store; `color` is absent until a client sends one. */
  datatype Player = Player(
    id: string,
    name: string,
    pos: Pos,
    barrelRotation: real,
    health: real,
    color: Option<string>)

  /** A bullet in flight; `angle` is in degrees, 0 pointing up and growing clockwise. */
  datatype Bullet = Bullet(id: string, x: real, y: real, angle: real, playerId: string)

  /** The players of the store, in the order `for...in` visits them. */
  type Players = Table<Player>

  /**
   * The payload of a `gameState` message, after the source's type checks: a field is `None`
   * when it is missing or fails its check (a falsy `pos`, a non-number `barrelRotation` or
   * `health`, a non-string `color` or `name`). Any other field of the payload is ignored.
   */
  datatype PlayerPatch = PlayerPatch(
    pos: Option<Pos>,
    barrelRotation: Option<real>,
    health: Option<real>,
    color: Option<string>,
    name: Option<string>)

  /** The payload of a `fireBullet` message; `playerId` is whatever the client claims. */
  datatype FirePayload = FirePayload(id: string, x: real, y: real, angle: real, playerId: Option<string>)

  /** The payload of a `message` (chat) message. */
  datatype ChatPayload = ChatPayload(message: Option<string>, playerName: Option<string>)

  /** What the server reports when a bullet hits a player. */
  datatype Collision = Collision(
    bulletId: string,
    shooterId: string,
    hitPlayerId: string,
    bulletX: real,
    bulletY: real,
    playerPosition: Pos)

  /** The events the server emits, by name. */
  datatype Event =
    | GameStateSync(players: Players)
    | PlayerJoined(player: Option<Player>)
    | ChatMessage(senderId: string, message: Option<string>, playerName: Option<string>, timestamp: string)
    | PlayerStateUpdate(playerId: string, playerData: Option<Player>)
    | NewBullet(bullet: Bullet)
    | PlayerDisconnected(playerId: string)
    | BulletCollision(collision: Collision)
    | BulletUpdate(bullets: seq<Bullet>)
    | PlayerUpdate(allPlayers: Players)

  /**
   * Who receives an emitted event: the sending socket only (`socket.emit`), every socket but
   * the sender (`socket.broadcast.emit`), or every socket (`io.emit`).
   */
  datatype Audience = ToSender | ToOthers | ToAll

  datatype Outbound = Outbound(audience: Audience, event: Event)
}
