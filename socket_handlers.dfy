/**
 * The per-connection handlers (server_logic/socket_handlers.js). Each handler acts on the one
 * shared store for the socket `sid` it belongs to and returns the events it emits, in order.
 */
module SocketHandlers {
  import opened Wrappers
  import opened OrderedMap
  import opened Entities
  import opened GameState

  /** The bullet the server files for a `fireBullet` payload: the sender owns it, whatever the payload claims. */
  function BulletFromPayload(data: FirePayload, sid: string): (b: Bullet)
    ensures b.playerId == sid
    ensures b.id == data.id && b.x == data.x && b.y == data.y && b.angle == data.angle
  {
    Bullet(data.id, data.x, data.y, data.angle, sid)
  }

  /** The `connection` handler: file a default player, sync the newcomer, announce it to the others. */
  method OnConnection(store: Store, sid: string) returns (out: seq<Outbound>)
    requires store.Valid()
    modifies store
    ensures store.Valid()
    ensures store.players == Put(old(store.players), sid, NewPlayer(sid)) && store.bullets == old(store.bullets)
    ensures out == [Outbound(ToSender, GameStateSync(store.players)),
                    Outbound(ToOthers, PlayerJoined(Get(store.players, sid)))]
  {
    store.AddPlayer(sid);
    out := [Outbound(ToSender, GameStateSync(store.players)),
            Outbound(ToOthers, PlayerJoined(Get(store.players, sid)))];
  }

  /**
   * The `message` handler: relay the chat message to every socket, the sender included, tagged
   * with the sender's id; `now` is the ISO time of receipt.
   */
  method OnMessage(sid: string, data: ChatPayload, now: string) returns (out: seq<Outbound>)
    ensures out == [Outbound(ToAll, ChatMessage(sid, data.message, data.playerName, now))]
  {
    out := [Outbound(ToAll, ChatMessage(sid, data.message, data.playerName, now))];
  }

  /** The `gameState` handler: merge the payload into the sender's record and pass the record on. */
  method OnGameState(store: Store, sid: string, data: PlayerPatch) returns (out: seq<Outbound>)
    requires store.Valid()
    modifies store
    ensures store.Valid()
    ensures sid in old(store.players.entries) ==>
      store.players == Put(old(store.players), sid, Merge(old(store.players.entries[sid]), data))
    ensures sid !in old(store.players.entries) ==> store.players == old(store.players)
    ensures store.bullets == old(store.bullets)
    ensures out == [Outbound(ToOthers, PlayerStateUpdate(sid, Get(store.players, sid)))]
  {
    store.UpdatePlayer(sid, data);
    out := [Outbound(ToOthers, PlayerStateUpdate(sid, Get(store.players, sid)))];
  }

  /** The `fireBullet` handler: file the bullet, owned by the sender, and announce it to everyone. */
  method OnFireBullet(store: Store, sid: string, data: FirePayload) returns (out: seq<Outbound>)
    requires store.Valid()
    modifies store
    ensures store.Valid()
    ensures store.bullets == old(store.bullets) + [BulletFromPayload(data, sid)]
    ensures store.players == old(store.players)
    ensures out == [Outbound(ToAll, NewBullet(BulletFromPayload(data, sid)))]
  {
    var bullet := Bullet(data.id, data.x, data.y, data.angle, sid);
    store.AddBullet(bullet);
    out := [Outbound(ToAll, NewBullet(bullet))];
  }

  /** The `disconnect` handler: drop the player and tell everyone; its bullets stay in flight. */
  method OnDisconnect(store: Store, sid: string) returns (out: seq<Outbound>)
    requires store.Valid()
    modifies store
    ensures store.Valid()
    ensures store.players == Delete(old(store.players), sid) && store.bullets == old(store.bullets)
    ensures out == [Outbound(ToAll, PlayerDisconnected(sid))]
  {
    store.RemovePlayer(sid);
    out := [Outbound(ToAll, PlayerDisconnected(sid))];
  }

  // ---------------------------------------------------------------------------------------

  /** A client cannot fire in someone else's name: the claimed owner is ignored. */
  lemma FireIgnoresClaim(data: FirePayload, sid: string, claim: Option<string>)
    ensures BulletFromPayload(data.(playerId := claim), sid) == BulletFromPayload(data, sid)
    ensures BulletFromPayload(data, sid).playerId == sid
  {
  }

  /**
   * A connection always leaves the sender with a full-health default record in the store, listed
   * after every player already there, and the newcomer's sync already contains it; a socket id
   * seen for the first time is announced to the others as that record.
   */
  lemma ConnectionFilesDefault(t: Players, sid: string)
    requires Consistent(t)
    ensures var u := Put(t, sid, NewPlayer(sid));
      && Consistent(u)
      && Get(u, sid) == Some(NewPlayer(sid))
      && u.entries[sid].health == 100.0
      && (sid !in t.entries ==> u.keys == t.keys + [sid])
      && (sid in t.entries ==> u.keys == t.keys)
  {
  }

  /** A socket that connects and then disconnects leaves the players exactly as they were. */
  lemma ConnectThenDisconnect(t: Players, sid: string)
    requires Consistent(t) && sid !in t.entries
    ensures Delete(Put(t, sid, NewPlayer(sid)), sid) == t
  {
    PutThenDelete(t, sid, NewPlayer(sid));
  }
}
