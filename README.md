# game-sync in Dafny

This project is a Dafny model of the core of game-sync, a small multiplayer arena shooter. The
server is a Node.js program that speaks over socket.io. The client is a set of browser scripts.
The model covers:

- **The server's store** (`server_logic/game_state.js`). This is a record of players, keyed by
  socket id, plus a list of bullets in flight. The model is the class `GameState.Store`.
- **The bullet pass** (`server_logic/bullet_logic.js`). Each tick, every bullet moves one step
  along its heading. It is compared with every player but its shooter. The first player it
  overlaps, in key order, loses `BULLET_DAMAGE` health, and the bullet is dropped. The pass
  also drops bullets that are more than 50 px outside the 1920×1080 arena, and reports one
  `bulletCollision` event per hit.
- **The 120 Hz loop** (`server_logic/game_loop.js`). Every tick runs the bullet pass. A tick
  while nobody is connected does nothing more. Otherwise every third such tick sends
  `bulletUpdate`, but only when there are bullets. Then the tick sends `playerUpdate`, but
  only when there are players. A tick that sends both sends the bullets first. The model is
  the class `GameLoop.Loop`.
- **The socket handlers** (`server_logic/socket_handlers.js`). These are methods that change
  the store and return the events they emit, each tagged with its audience.
- **The client's bullet list** (`public/js/bullet-manager.js`). The server's list is reconciled
  by id: an existing bullet object is updated in place and reused, and an unknown id gets a
  new object.
- **The client's player view** (`public/js/player-manager.js`). This covers the stored player
  records, the player elements on the page, the health bars (clamped and coloured), the
  own-health display and the death trigger.
- **The client's input handling** (`public/js/game-controller.js`). This covers angle
  normalisation, the shortest turn between two angles, keyboard movement clamped to the
  arena, the 300 ms firing cooldown with its bullet ids, and acceptance of the player's name.

Modelling choices:

- JavaScript numbers are modelled as `real`. NaN appears only where the source can produce it
  from text: `parseInt`, modelled by `JsText.ParseInt`, returns `None` for NaN.
- Player positions are the source's `"<int>px"` strings. `JsText` models `parseInt` (leading
  white space, sign, `0x` prefix, longest digit run), `String.prototype.replace` with a string
  pattern, `trim`, and the rendering of integers.
- A JavaScript object or `Map` is modelled as an `OrderedMap.Table`. This is a map plus its
  keys in insertion order, which is the order `for...in` visits them.
- Sine and cosine are a parameter `trig` of the bullet pass. Clocks (`Date.now`) are
  parameters of the operations that read them. Emitted events are returned as
  `seq<Outbound>`, not sent.
- Where the code updates state in place, the model does too:
  - `Store`, `Loop` and the client `Manager`s are classes.
  - The `forEach` of the bullet pass is a `while` loop.
  - The client's bullet objects are `ClientBullet` objects. Their reuse (aliasing) is stated
    in the contracts.
- Each class method is proved against a function that specifies it. Those functions carry the
  lemmas.

On four points the code is easy to misread; the model follows it:

- `checkCollision` treats a player's `pos` as the top-left corner of its 100×100 box, not
  its centre.
- The player view draws a new element's health bar at the raw health, unclamped and always
  green. Only a redraw clamps the width and picks the colour band.
- The server never removes a player whose health falls to 0 or below. The client fires its
  death handling on every update at or below 0.
- Health is never clamped on the server.

## Model

| member | source | states |
|---|---|---|
| JsText.ParseIntSkipsBlank | server_logic/bullet_logic.js:6-7 | `parseInt` skips any leading white space, then reads an optional sign and the digits |
| JsText.ParseIntOfRendered | public/js/game-controller.js:155-156 | `parseInt` reads back any integer written in decimal and followed by a non-digit suffix such as `px` |
| JsText.ParsePxFormatPx | server_logic/bullet_logic.js:6-7 | a coordinate written as `${i}px` reads back as `i`, both after removing `px` and through plain `parseInt` |
| JsText.IntToStringInjective | public/js/game-controller.js:319 | different integers render as different decimal strings |
| JsText.Utf16Length | public/js/game-controller.js:36-37 | `.length` counts UTF-16 code units: at least one and at most two per character |
| JsText.Utf16LengthPlane | public/js/game-controller.js:36-37 | on characters of the Basic Multilingual Plane, `.length` is the number of characters |
| JsText.TrimIdempotent | public/js/game-controller.js:36-37 | trimming a trimmed string changes nothing |
| OrderedMap.Empty | server_logic/game_state.js:3 | the empty object is well formed and has no entries |
| OrderedMap.Put | server_logic/game_state.js:8-14 | assigning a key keeps the key order duplicate-free and in step with the entries |
| OrderedMap.Without | server_logic/game_state.js:38 | the key order after a delete holds exactly the other keys and is no longer |
| OrderedMap.Delete | server_logic/game_state.js:38 | `delete` removes exactly that key's entry |
| OrderedMap.DeleteValid | server_logic/game_state.js:37-39 | deleting keeps the object well formed and drops the key from the order |
| OrderedMap.DeleteIdempotent | server_logic/game_state.js:37-39 | deleting twice is deleting once |
| OrderedMap.DeleteAbsent | server_logic/game_state.js:37-39 | deleting an absent key changes nothing |
| OrderedMap.PutThenDelete | server_logic/game_state.js:7-39 | adding a new key and deleting it restores the object, order included |
| GameState.Store.constructor | server_logic/game_state.js:2-5 | the store starts with no players and no bullets |
| GameState.Store.AddPlayer | server_logic/game_state.js:7-15 | `addPlayer` files the default record under the id, replacing any record there, and leaves the bullets alone |
| GameState.Store.UpdatePlayer | server_logic/game_state.js:17-35 | an unknown id changes nothing; a known id gets its record merged with the patch in place; the bullets are untouched |
| GameState.Store.RemovePlayer | server_logic/game_state.js:37-39 | `removePlayer` deletes exactly that key and leaves the bullets alone |
| GameState.Store.AddBullet | server_logic/game_state.js:41-43 | `addBullet` appends the bullet and leaves the players alone |
| GameState.Merge | server_logic/game_state.js:17-35 | an update never changes a record's `id` |
| GameState.MergeCompose | server_logic/game_state.js:19-33 | two updates in turn equal one update whose patch takes each field from the later patch when it carries one and from the earlier otherwise, so an update only overwrites the fields it carries |
| GameState.MergeIdempotent | server_logic/game_state.js:17-35 | applying the same update twice is applying it once |
| GameState.MergeEmptyPatch | server_logic/game_state.js:17-35 | an update with no valid field leaves the record as it was |
| GameState.RemoveTwiceThenRejoin | server_logic/game_state.js:7-39 | removing twice equals removing once, and a rejoin gets a fresh record with full health at the end of the order |
| BulletLogic.FirstHitSpec | server_logic/bullet_logic.js:28-47 | the victim is the first key, in iteration order, that is not the shooter and whose box the bullet overlaps; every earlier key is missed |
| BulletLogic.VictimIgnoresDamage | server_logic/bullet_logic.js:28-47 | who gets hit depends only on the key order and the positions, so damage dealt earlier in the tick does not change the victim |
| BulletLogic.CollisionIsSharedPoint | server_logic/bullet_logic.js:4-14 | `checkCollision` holds exactly when the 4 px bullet box and the 100 px player box share an interior point, so boxes that only touch do not collide |
| BulletLogic.UnreadablePositionNeverHit | server_logic/bullet_logic.js:6-13 | a player whose position does not parse (NaN) is never hit |
| BulletLogic.Advance | server_logic/bullet_logic.js:19-50 | one bullet's turn adds and removes no player |
| BulletLogic.Process | server_logic/bullet_logic.js:19-50 | the whole sweep adds and removes no player, and yields one moved bullet and one removal flag per bullet (what each of them is: `ProcessMoved`, `ProcessHits`, `ProcessCollisionList`) |
| BulletLogic.CollisionFor | server_logic/bullet_logic.js:28-47 | a bullet reports a collision exactly when, moved, it overlaps a non-shooter; the collision carries the bullet's id and shooter and names a player of the store that is not the shooter and whose box the moved bullet overlaps |
| BulletLogic.ProcessMoved | server_logic/bullet_logic.js:23-25 | the i-th bullet after the sweep is the i-th bullet moved one step along its heading |
| BulletLogic.PrefixVictim | server_logic/bullet_logic.js:28-47 | when a bullet takes its turn, every player is still where the tick began, so its victim is the one it would have alone |
| BulletLogic.ProcessHits | server_logic/bullet_logic.js:28-47 | the i-th bullet is flagged for removal exactly when, moved, it overlaps a player other than its shooter at the positions the tick began with |
| BulletLogic.ProcessCollisionList | server_logic/bullet_logic.js:19-50 | the collisions are, in bullet order, one per flagged bullet, each with that bullet's id, shooter, moved position, its first victim in key order and that victim's position |
| BulletLogic.SurvivorsSpec | server_logic/bullet_logic.js:19-61 | a bullet survives the tick exactly when it is some bullet moved one step that hits nobody and lies within the arena plus the 50 px margin |
| BulletLogic.ScanPlayers | server_logic/bullet_logic.js:28-49 | the `for...in` loop with its `break` finds the first non-shooter the bullet overlaps, or nobody |
| BulletLogic.Step | server_logic/bullet_logic.js:19-50 | one iteration of the `forEach` does what `Advance` specifies |
| BulletLogic.MoveAndHit | server_logic/bullet_logic.js:19-50 | the `forEach` over the bullets computes `Process` |
| BulletLogic.Sweep | server_logic/bullet_logic.js:53-61 | the `filter` keeps exactly the bullets `Keep` keeps, in order |
| BulletLogic.Emit | server_logic/bullet_logic.js:64-68 | one `bulletCollision` event goes to everyone per collision, in order |
| BulletLogic.UpdateBullets | server_logic/bullet_logic.js:16-69 | the store's players keep their keys and order and take the swept health, the bullets become the survivors (`SurvivorsSpec`), and the collisions (`ProcessCollisionList`) are announced, one event each, in order |
| BulletLogic.ProcessOnlyHealth | server_logic/bullet_logic.js:44 | the sweep changes no field of any player but its health |
| BulletLogic.ProcessCollisions | server_logic/bullet_logic.js:28-47 | there is exactly one collision per bullet flagged as hit; each names a victim in the store that is not the shooter (which victim: `ProcessCollisionList`) |
| BulletLogic.ProcessHealth | server_logic/bullet_logic.js:44 | each player loses exactly 20 health per collision naming it, with no floor |
| BulletLogic.KeepSound | server_logic/bullet_logic.js:53-61 | every survivor is a moved bullet that was not hit and lies within the arena plus a 50 px margin, bounds included |
| BulletLogic.KeepComplete | server_logic/bullet_logic.js:53-61 | every moved bullet that was not hit and lies within those bounds survives |
| BulletLogic.KeepCount | server_logic/bullet_logic.js:53-61 | no more bullets survive than were not hit |
| GameLoop.NextCounter | server_logic/game_loop.js:19-24 | the bullet counter stays within 0..2 and does not move on a tick with no client |
| GameLoop.Loop.constructor | server_logic/game_loop.js:4-5 | no timer runs and the counter is 0 |
| GameLoop.Loop.Start | server_logic/game_loop.js:7-14 | starting clears the running timer, if any, so exactly one timer runs afterwards |
| GameLoop.Loop.Stop | server_logic/game_loop.js:47-53 | stopping leaves no timer running, and stopping twice is harmless |
| GameLoop.Loop.Tick | server_logic/game_loop.js:14-42 | a tick runs the bullet pass even with nobody connected, then emits the collisions followed by the broadcasts due, and advances the counter |
| GameLoop.Loop.Broadcast | server_logic/game_loop.js:18-34 | after the bullet pass, a tick emits the broadcasts due for the counter and the store, and advances the counter |
| GameLoop.EveryThirdTick | server_logic/game_loop.js:22-28 | after `n` connected ticks the counter is `(c + n) % 3`, and the bullets were due `(c + n) / 3` times |
| GameLoop.BroadcastsShape | server_logic/game_loop.js:18-34 | nothing goes out with no client; with clients, the players go out exactly when there are any, and the bullets exactly on a due tick with bullets in flight |
| SocketHandlers.BulletFromPayload | server_logic/socket_handlers.js:42-48 | the stored bullet copies id, position and angle, and its owner is the sending socket |
| SocketHandlers.OnConnection | server_logic/socket_handlers.js:4-14 | a connection files the default record, sends the whole player table to the newcomer, and announces the newcomer's record to the others |
| SocketHandlers.OnMessage | server_logic/socket_handlers.js:17-26 | a chat message goes to everyone, tagged with the sender's id and the time |
| SocketHandlers.OnGameState | server_logic/socket_handlers.js:28-37 | the sender's record is merged only if it exists, and the others receive the record as it stands afterwards |
| SocketHandlers.OnFireBullet | server_logic/socket_handlers.js:40-52 | the bullet is appended to the store and announced to everyone, and the players are untouched |
| SocketHandlers.OnDisconnect | server_logic/socket_handlers.js:55-61 | the sender's record is deleted and everyone is told |
| SocketHandlers.FireIgnoresClaim | server_logic/socket_handlers.js:42-48 | whatever owner the client claims, the bullet belongs to the sending socket |
| SocketHandlers.ConnectionFilesDefault | server_logic/socket_handlers.js:8-14 | the joined record is the default one with full health, a newcomer is last in the order, and a reconnecting id keeps its place |
| SocketHandlers.ConnectThenDisconnect | server_logic/socket_handlers.js:4-61 | a connection followed by its disconnection leaves the players as they were, order included |
| BulletManager.ClientBullet.constructor | public/js/bullet-manager.js:60-68 | a new bullet object carries the server's fields and the time of the update |
| BulletManager.FirstIndexSpec | public/js/bullet-manager.js:49 | `find` stops at the first bullet with that id, or at the end exactly when there is none |
| BulletManager.Manager.constructor | public/js/bullet-manager.js:3-5 | no bullets and no animation frame |
| BulletManager.Manager.AddBullet | public/js/bullet-manager.js:38-43 | a new object with the time of the update is appended |
| BulletManager.Manager.Find | public/js/bullet-manager.js:49 | the search returns the index of the first bullet with that id |
| BulletManager.Manager.Reconcile | public/js/bullet-manager.js:47-71 | an existing bullet object is updated in place and reused; otherwise a new one is made; no other bullet object changes |
| BulletManager.Manager.Rebuild | public/js/bullet-manager.js:47-72 | the new list follows the server's ids in order, reuses the first existing object per id, and leaves dropped objects unchanged |
| BulletManager.Manager.UpdateBullets | public/js/bullet-manager.js:45-83 | after an update the client's ids are the server's, in order, and every bullet carries the time; with distinct server ids, each object shows its server bullet; objects are reused by id; dropped ones are untouched |
| BulletManager.Manager.RemoveBullet | public/js/bullet-manager.js:137-146 | the list loses exactly the bullets with that id, the rest kept in order |
| BulletManager.Manager.ClearAllBullets | public/js/bullet-manager.js:260-270 | no bullets and no animation frame remain |
| BulletManager.DroppingMembers | public/js/bullet-manager.js:139 | what remains are objects of the old list without that id, and every other object remains |
| BulletManager.DroppingAbsent | public/js/bullet-manager.js:139 | removing an id not in the list changes nothing |
| BulletManager.DroppingIdempotent | public/js/bullet-manager.js:139 | removing the same id twice is removing it once |
| BulletManager.OutOfViewportIsDisjoint | public/js/bullet-manager.js:239-254 | a bullet is out of the viewport exactly when its 8 px square shares no point with the window |
| PlayerManager.HealthPercent | public/js/player-manager.js:124 | the displayed percentage is health clamped to 0..100 |
| PlayerManager.JsRound | public/js/player-manager.js:170 | `Math.round` gives the integer nearest to the health, halves rounded up |
| PlayerManager.Manager.constructor | public/js/player-manager.js:3 | no records; the only element on the page is one's own character, if known |
| PlayerManager.Manager.CreatePlayer | public/js/player-manager.js:17-91 | `createPlayer` builds a new element, or redraws the existing one |
| PlayerManager.Manager.UpdatePlayer | public/js/player-manager.js:93-150 | `updatePlayer` redraws the existing element, or builds a new one |
| PlayerManager.Manager.AddElement | public/js/player-manager.js:26-88 | a new element gets a bar at the raw health and the record is stored |
| PlayerManager.Manager.Redraw | public/js/player-manager.js:103-149 | an existing element's bar, if any, is clamped and coloured, and the record is replaced |
| PlayerManager.Manager.UpdateOwnHealth | public/js/player-manager.js:163-196 | the own display shows the clamped width, the rounded text, the colour band and the pulse, and the death handling is triggered at 0 or below |
| PlayerManager.Manager.RemovePlayer | public/js/player-manager.js:300-307 | only a player whose element is on the page loses its element, bar and record |
| PlayerManager.Manager.ClearAllPlayers | public/js/player-manager.js:309-318 | every element but one's own goes, and the records are cleared |
| PlayerManager.Manager.SyncInitialPlayers | public/js/player-manager.js:5-15 | the view is cleared, then every listed player but oneself is created, in key order |
| PlayerManager.Manager.UpdateAllPlayers | public/js/player-manager.js:152-161 | each listed player is updated in key order; one's own entry only drives the own display; the key `"undefined"` is skipped |
| PlayerManager.CreateIsUpdate | public/js/player-manager.js:17-24 | `createPlayer` and `updatePlayer` have the same effect, and both leave the player on the page and stored |
| PlayerManager.TierMonotone | public/js/player-manager.js:128-136 | more health never gives a weaker colour band |
| PlayerManager.PulseIsDarkRed | public/js/player-manager.js:168-188 | the pulse runs exactly in the dark-red band, which is health 25 or less; at 0 or below the bar is empty and pulsing |
| PlayerManager.HealthPercentIdempotent | public/js/player-manager.js:124 | clamping a clamped percentage changes nothing |
| PlayerManager.DeathTrigger | public/js/player-manager.js:191-194 | the death handling fires once per update at health 0 or below, and only when the own display is on the page |
| PlayerManager.RemoveIdempotent | public/js/player-manager.js:300-307 | removing an unknown player changes nothing, removing twice is removing once, and the record is gone afterwards |
| PlayerManager.SyncOneEffect | public/js/player-manager.js:10-14 | one step of the initial sync stores the listed record and puts an element on the page, except for oneself |
| PlayerManager.SyncFromPlayers | public/js/player-manager.js:10-14 | after the loop, the stored records are exactly the listed players but oneself, in listed order, each with an element |
| PlayerManager.SyncResult | public/js/player-manager.js:5-15 | after `syncInitialPlayers`, the stored records are exactly the server's players but oneself, in key order, each with an element |
| PlayerManager.UpdateOneEffect | public/js/player-manager.js:153-159 | one step stores another player's record and keeps the rest; one's own entry touches only the own display |
| PlayerManager.UpdateAllStores | public/js/player-manager.js:152-161 | afterwards every listed player but oneself and `"undefined"` is stored with the server's record |
| PlayerManager.UpdateAllKeeps | public/js/player-manager.js:152-161 | no record is dropped, records not listed are unchanged, and no element disappears |
| PlayerManager.UpdateAllHud | public/js/player-manager.js:152-161 | the own display shows one's own listed health, and is untouched when oneself is not listed |
| GameController.Wrap360 | public/js/game-controller.js:259-263 | the reference normalisation lies in [0, 360) and is a whole number of turns away from the angle |
| GameController.Wrap360Unique | public/js/game-controller.js:259-263 | no other angle in [0, 360) is a whole number of turns away from the angle |
| GameController.Wrap360Identity | public/js/game-controller.js:259-263 | an angle already in [0, 360) is left as it is |
| GameController.NormalizeAngle | public/js/game-controller.js:259-263 | the two loops end with the angle in [0, 360), a whole number of turns from where it started |
| GameController.Rem360 | public/js/game-controller.js:268-272 | JavaScript's `% 360` lies strictly between -360 and 360 and has the sign of the angle |
| GameController.NormalizedIsWrap | public/js/game-controller.js:267-272 | the remainder plus 360 when negative equals the reference normalisation |
| GameController.ShortestAngleDifference | public/js/game-controller.js:266-285 | the difference lies in [-180, 180] |
| GameController.ShortestAngleCongruent | public/js/game-controller.js:266-285 | the difference is `target - current` up to whole turns |
| GameController.ShortestAngleIsShortest | public/js/game-controller.js:266-285 | no turn from `current` to `target` is shorter |
| GameController.Lower | public/js/game-controller.js:99-103 | key names are lower-cased letter by letter, other characters kept |
| GameController.Axis | public/js/game-controller.js:158-174 | opposite keys cancel; a single key moves 5 px its way |
| GameController.Clamp | public/js/game-controller.js:178-179 | the clamped coordinate lies in [0, hi] and is unchanged when already inside |
| GameController.Controller.constructor | public/js/game-controller.js:3-32 | the game is inactive with no keys, no shot, no timer and handle counter 0; a stored name that is non-empty and at least 2 UTF-16 code units long once trimmed fills the field and enables the button, otherwise both keep what the page gave them |
| GameController.Controller.OnNameInput | public/js/game-controller.js:86-89 | the field takes the value and the button is enabled exactly when the trimmed name is 2 or more UTF-16 code units long; no other field changes |
| GameController.Controller.StartGameLoop | public/js/game-controller.js:136-144 | a new local timer is registered under the next handle and the previous one is not cleared; no other field changes |
| GameController.Controller.SubmitName | public/js/game-controller.js:35-60 | a name is accepted exactly when, trimmed, it is 2 or more UTF-16 code units long; then the trimmed name becomes the player name, is stored and goes to the socket, and the game and a new local timer start, with no other field changed; otherwise nothing changes at all |
| GameController.Controller.ClearSavedName | public/js/game-controller.js:63-70 | the stored name is forgotten, the field emptied and the button disabled; no other field changes |
| GameController.Controller.KeyDown | public/js/game-controller.js:97-100 | the lower-cased key is marked down and the first input is recorded; no other field changes |
| GameController.Controller.KeyUp | public/js/game-controller.js:102-104 | the lower-cased key is marked up; no other field changes |
| GameController.Controller.StopGame | public/js/game-controller.js:365-368 | the game becomes inactive; no other field changes, so the local timer keeps running |
| GameController.Controller.HandleMovement | public/js/game-controller.js:146-192 | a move happens exactly when a direction key is held; the position sent and written back is the read position plus the keys' steps, clamped to x in [0, 1820] and y in [0, 980]; otherwise the element is untouched; only `isMoving` and the element change |
| GameController.Controller.HandleMouseClick | public/js/game-controller.js:287-328 | a bullet is sent exactly when the game is active, 300 ms have passed since the last shot and the element exists; its id is `<socket id>-<time>`; the time is recorded only when a bullet is sent; no other field changes |
| GameController.ShotIdInjective | public/js/game-controller.js:319 | one player's shots fired at different times carry different ids |
| GameController.ShotsSpaced | public/js/game-controller.js:291-294 | in any run of clicks, each shot is one of the clicks and comes 300 ms or more after the previous shot |
| GameController.ShotIdsDistinct | public/js/game-controller.js:291-327 | the bullets one player sends during a run of clicks all have different ids |
| GameController.MoveReadBack | public/js/game-controller.js:155-184 | the position written as `<n>px` reads back as `n` on the next frame |
| GameController.TargetBounded | public/js/game-controller.js:158-179 | from inside the arena, a frame stays inside and moves at most 5 px per axis; opposite keys cancel; with no key held the element stays put |
| GameController.SavedNameRestored | public/js/game-controller.js:27-41 | an accepted name is still acceptable when restored from storage |
| GameController.AstralNameAccepted | public/js/game-controller.js:36-37 | a name of the single character U+1D49C is accepted, being two UTF-16 code units long |

## Left out

- Floating point: numbers are exact reals, and NaN and Infinity exist only as the `None` of
  `parseInt`. Sine and cosine are a parameter, so the bullet step is exact.
- `GameController.NormalizeAngle`: it terminates only because the reals are exact. In
  doubles, the loops of public/js/game-controller.js:259-263 never end for an infinite angle,
  or for one of magnitude 2^62 or more, where adding or subtracting 360 rounds back to the
  same value. Termination is a property of the model, not of the source.
- The client's per-frame local bullet motion (`updateLocalBullets`, `startLocalBulletLoop` in
  `public/js/bullet-manager.js`). This is float motion driven by `requestAnimationFrame`.
- The barrel rotation (`handleBarrelRotation`, `sendBarrelRotation`) and the bullet spawn
  point. These are `atan2`, sine and cosine arithmetic. `HandleMouseClick` takes the spawn
  point and angle as a given `Aim`.
- `sendPlayerUpdate`'s reading of the barrel angle back from the CSS transform, with
  `parseFloat`. The model returns the coordinates sent.
- Mouse tracking (`mousePos`). It only feeds the barrel rotation.
- The DOM: element creation, CSS, name labels, colours, notifications, the game-over overlay,
  `handleCollision` and `cleanupOldBullets`. The player view keeps only the data the logic
  reads: which elements exist, the health bars and the own-health display.
- `showGameOverScreen`, disconnecting and reconnecting. The death handling is counted in
  `deathTriggers` and not carried out.
- The `playerData.user_id` fallback for a missing `id` in `createPlayer`/`updatePlayer`.
  Records always carry an `id`.
- JavaScript's ordering of integer-like object keys (`"1"`, `"2"`, …) before other keys.
  Socket ids are not integer-like, so the keys keep insertion order.
- Malformed payloads. A handler that would throw on `null` data or a missing `pos` is not
  modelled.
- `GameState.Store.UpdatePlayer`: positions are typed `Pos` with string coordinates, but
  `updatePlayer` checks only that `pos` is truthy (server_logic/game_state.js:19-21). A patch
  such as `pos: {x: 5, y: 5}` is therefore stored as it is. The next tick's `checkCollision`
  then calls `.replace` on a number (server_logic/bullet_logic.js:6-7), which throws inside
  the `setInterval` callback with no handler. The model cannot express such a position, so it
  does not capture this failure, which the code shows.
- `toLowerCase` beyond ASCII letters (`GameController.Lower`), and `trim` beyond the white space
  characters `JsText.IsWhite` lists. Strings are sequences of Unicode characters, not of UTF-16 code
  units. `.length` is modelled by `JsText.Utf16Length`. `trim` removes only characters of the
  Basic Multilingual Plane, so trimming characters and trimming code units agree. Lone
  surrogates cannot be expressed.
- `JsText.DigitsValue` is defined for any string, not only digit runs. It is used only on digit
  runs.
- Timers and the clock: `setInterval` handles are modelled as numbers the host hands out, and
  `Date.now()` and the ISO time of chat messages are parameters.
- The socket.io transport and the number of connected sockets, which is a parameter of the
  tick.
- The other scripts of the repository: routing and static serving (`server.js`,
  `server_logic/routes.js`), socket wiring (`public/js/socket-client.js`,
  `public/js/socket-setup.js`, `public/js/main.js`), the chat UI
  (`public/js/message-handler.js`) and the legacy `public/js/character.js`.
