/**
 * The physics and collision pass (server_logic/bullet_logic.js): each tick every bullet moves
 * one step, hits at most one player other than its shooter, and is dropped when it has hit
 * someone or has left the world.
 */
module BulletLogic {
  import opened Wrappers
  import opened OrderedMap
  import opened Entities
  import opened Constants
  import opened JsText
  import opened GameState

  /**
   * `Math.sin` and `Math.cos` of an angle given in degrees (the source converts to radians
   * first). The model takes this as a parameter instead of computing floating-point trigonometry.
   */
  datatype SinCos = SinCos(sin: real, cos: real)

  /** A bullet one step further along its heading; only `x` and `y` change. */
  function Moved(b: Bullet, trig: real -> SinCos): Bullet {
    var sc := trig(b.angle);
    b.(x := b.x + BULLET_SPEED * sc.sin, y := b.y - BULLET_SPEED * sc.cos)
  }

  /**
   * `checkCollision`: the player's CSS position is read with `parseInt`; a position that does not
   * parse is `NaN`, against which every comparison is false.
   */
  function CheckCollision(b: Bullet, p: Player): bool {
    match (ParsePx(p.pos.x), ParsePx(p.pos.y))
    case (Some(px), Some(py)) =>
      && b.x < px as real + PLAYER_SIZE
      && b.x + BULLET_SIZE > px as real
      && b.y < py as real + PLAYER_SIZE
      && b.y + BULLET_SIZE > py as real
    case _ => false
  }

  /** Whether `b` hits the player filed under `id`: someone other than its shooter, overlapping it. */
  predicate Hits(b: Bullet, id: string, entries: map<string, Player>) {
    id != b.playerId && id in entries && CheckCollision(b, entries[id])
  }

  /** For each key in visiting order, whether `b` hits that player. */
  function HitFlags(b: Bullet, keys: seq<string>, entries: map<string, Player>): (flags: seq<bool>)
    ensures |flags| == |keys|
  {
    seq(|keys|, j requires 0 <= j < |keys| => Hits(b, keys[j], entries))
  }

  /** The place of the first `true` in `flags`, or `|flags|` when there is none. */
  function FirstTrue(flags: seq<bool>): (r: nat)
    ensures r <= |flags|
  {
    if |flags| == 0 then 0
    else if flags[0] then 0
    else 1 + FirstTrue(flags[1..])
  }

  /** `FirstTrue` finds a `true`, when there is one, and skips only `false`s on the way. */
  lemma {:induction false} FirstTrueSpec(flags: seq<bool>)
    ensures var r := FirstTrue(flags);
      && (r < |flags| ==> flags[r])
      && (forall j :: 0 <= j < r ==> !flags[j])
  {
    if |flags| > 0 && !flags[0] {
      FirstTrueSpec(flags[1..]);
    }
  }

  /** The place in `keys` of the first player that `b` hits, or `|keys|` when it hits nobody. */
  function FirstHit(b: Bullet, keys: seq<string>, entries: map<string, Player>): (r: nat)
    ensures r <= |keys|
  {
    FirstTrue(HitFlags(b, keys, entries))
  }

  /** Whether a bullet lies in the world grown by the margin, bounds included. */
  predicate InWorld(b: Bullet) {
    && -WORLD_MARGIN <= b.x <= GAME_WIDTH + WORLD_MARGIN
    && -WORLD_MARGIN <= b.y <= GAME_HEIGHT + WORLD_MARGIN
  }

  /**
   * What the `forEach` of `updateBullets` has built so far: the players with the damage dealt,
   * the bullets moved, their `shouldRemove` flags, and the collisions recorded.
   */
  datatype Progress = Progress(
    entries: map<string, Player>,
    moved: seq<Bullet>,
    hit: seq<bool>,
    collisions: seq<Collision>)

  /**
   * One iteration of the `forEach`: move the bullet, scan the players in visiting order for the
   * first one other than the shooter that it overlaps, and on a hit record the collision, flag
   * the bullet and take `BULLET_DAMAGE` off that player's health.
   */
  function Advance(keys: seq<string>, acc: Progress, b: Bullet, trig: real -> SinCos): (r: Progress)
    ensures r.entries.Keys == acc.entries.Keys
  {
    var m := Moved(b, trig);
    var i := FirstHit(m, keys, acc.entries);
    if i < |keys| then
      var v := keys[i];
      FirstTrueSpec(HitFlags(m, keys, acc.entries));
      var p := acc.entries[v];
      Progress(
        acc.entries[v := p.(health := p.health - BULLET_DAMAGE)],
        acc.moved + [m],
        acc.hit + [true],
        acc.collisions + [Collision(m.id, m.playerId, v, m.x, m.y, p.pos)])
    else
      Progress(acc.entries, acc.moved + [m], acc.hit + [false], acc.collisions)
  }

  /** The `forEach` over the bullets `bs`, starting from the players of `t`. */
  function Process(t: Players, bs: seq<Bullet>, trig: real -> SinCos): (r: Progress)
    ensures r.entries.Keys == t.entries.Keys
    ensures |r.moved| == |bs| && |r.hit| == |bs|
  {
    if bs == [] then Progress(t.entries, [], [], [])
    else Advance(t.keys, Process(t, bs[..|bs| - 1], trig), bs[|bs| - 1], trig)
  }

  /** The final `filter`: the moved bullets not flagged for removal that are still in the world. */
  function Keep(moved: seq<Bullet>, hit: seq<bool>): seq<Bullet>
    requires |moved| == |hit|
  {
    if moved == [] then []
    else
      var n := |moved| - 1;
      Keep(moved[..n], hit[..n]) + (if !hit[n] && InWorld(moved[n]) then [moved[n]] else [])
  }

  /** The bullets still in flight after the pass over `bs`, in their order. */
  function Survivors(t: Players, bs: seq<Bullet>, trig: real -> SinCos): seq<Bullet> {
    var r := Process(t, bs, trig);
    Keep(r.moved, r.hit)
  }

  /** Each collision emitted to every socket. */
  function Announce(cs: seq<Collision>): seq<Outbound> {
    seq(|cs|, n requires 0 <= n < |cs| => Outbound(ToAll, BulletCollision(cs[n])))
  }

  /**
   * The `for...in` scan of `updateBullets` for one bullet: the first player, in visiting order,
   * that is not the shooter and overlaps the bullet; the scan stops there.
   */
  method ScanPlayers(b: Bullet, keys: seq<string>, entries: map<string, Player>) returns (victim: Option<string>)
    requires forall k :: k in keys ==> k in entries
    ensures victim == (var i := FirstHit(b, keys, entries); if i < |keys| then Some(keys[i]) else None)
  {
    victim := None;
    var j := 0;
    ghost var flags := HitFlags(b, keys, entries);
    ghost var first := FirstTrue(flags);
    FirstTrueSpec(flags);
    while j < |keys|
      invariant 0 <= j <= first
    {
      var playerId := keys[j];
      assert flags[j] == Hits(b, playerId, entries);
      if playerId != b.playerId {
        var player := entries[playerId];
        if CheckCollision(b, player) {
          assert flags[j] && first == j;
          victim := Some(playerId);
          break;
        }
      }
      assert !flags[j];
      j := j + 1;
    }
  }

  /** The filter at the end of `updateBullets`. */
  method Sweep(moved: seq<Bullet>, shouldRemove: seq<bool>) returns (kept: seq<Bullet>)
    requires |moved| == |shouldRemove|
    ensures kept == Keep(moved, shouldRemove)
  {
    kept := [];
    var k := 0;
    while k < |moved|
      invariant 0 <= k <= |moved|
      invariant kept == Keep(moved[..k], shouldRemove[..k])
    {
      assert moved[..k + 1][..k] == moved[..k];
      assert shouldRemove[..k + 1][..k] == shouldRemove[..k];
      if !shouldRemove[k] && InWorld(moved[k]) {
        kept := kept + [moved[k]];
      }
      k := k + 1;
    }
    assert moved[..k] == moved && shouldRemove[..k] == shouldRemove;
  }

  /** `collisions.forEach(c => io.emit("bulletCollision", c))`. */
  method Emit(collisions: seq<Collision>) returns (out: seq<Outbound>)
    ensures out == Announce(collisions)
  {
    out := [];
    var n := 0;
    while n < |collisions|
      invariant 0 <= n <= |collisions|
      invariant out == Announce(collisions[..n])
    {
      out := out + [Outbound(ToAll, BulletCollision(collisions[n]))];
      n := n + 1;
    }
    assert collisions[..n] == collisions;
  }

  /** The pass over one more bullet is one more step. */
  lemma ProcessStep(t: Players, bs: seq<Bullet>, i: nat, trig: real -> SinCos)
    requires i < |bs|
    ensures Process(t, bs[..i + 1], trig) == Advance(t.keys, Process(t, bs[..i], trig), bs[i], trig)
  {
    var prefix := bs[..i + 1];
    assert prefix[..i] == bs[..i] && prefix[i] == bs[i];
  }

  /** The body of the `forEach` of `updateBullets`, for the bullet `bullet`. */
  method Step(keys: seq<string>, entries0: map<string, Player>, moved0: seq<Bullet>, shouldRemove0: seq<bool>,
              collisions0: seq<Collision>, bullet: Bullet, trig: real -> SinCos)
    returns (entries: map<string, Player>, moved: seq<Bullet>, shouldRemove: seq<bool>, collisions: seq<Collision>)
    requires forall k :: k in keys ==> k in entries0
    ensures Progress(entries, moved, shouldRemove, collisions)
      == Advance(keys, Progress(entries0, moved0, shouldRemove0, collisions0), bullet, trig)
  {
    entries, moved, shouldRemove, collisions := entries0, moved0, shouldRemove0, collisions0;
    var b := Moved(bullet, trig);
    var victim := ScanPlayers(b, keys, entries);
    if victim.Some? {
      var playerId := victim.value;
      var player := entries[playerId];
      collisions := collisions + [Collision(b.id, b.playerId, playerId, b.x, b.y, player.pos)];
      entries := entries[playerId := player.(health := player.health - BULLET_DAMAGE)];
      shouldRemove := shouldRemove + [true];
    } else {
      shouldRemove := shouldRemove + [false];
    }
    moved := moved + [b];
  }

  /** The `forEach` of `updateBullets`, over the players of `t` and the bullets `bs`. */
  method MoveAndHit(t: Players, bs: seq<Bullet>, trig: real -> SinCos)
    returns (entries: map<string, Player>, moved: seq<Bullet>, shouldRemove: seq<bool>, collisions: seq<Collision>)
    requires t.Valid()
    ensures Progress(entries, moved, shouldRemove, collisions) == Process(t, bs, trig)
  {
    entries := t.entries;
    moved, shouldRemove, collisions := [], [], [];
    var i := 0;
    while i < |bs|
      invariant 0 <= i <= |bs|
      invariant Progress(entries, moved, shouldRemove, collisions) == Process(t, bs[..i], trig)
    {
      ProcessStep(t, bs, i, trig);
      entries, moved, shouldRemove, collisions := Step(t.keys, entries, moved, shouldRemove, collisions, bs[i], trig);
      i := i + 1;
    }
    assert bs[..i] == bs;
  }

  /** `updateBullets`: one physics pass over the store, returning the collision events. */
  method UpdateBullets(store: Store, trig: real -> SinCos) returns (out: seq<Outbound>)
    requires store.Valid()
    modifies store
    ensures store.Valid()
    ensures var r := Process(old(store.players), old(store.bullets), trig);
      && store.players == Table(old(store.players).keys, r.entries)
      && store.bullets == Keep(r.moved, r.hit)
      && out == Announce(r.collisions)
  {
    var t := store.players;
    var entries, moved, shouldRemove, collisions := MoveAndHit(t, store.bullets, trig);
    ProcessOnlyHealth(t, store.bullets, trig);
    store.players := Table(t.keys, entries);
    store.bullets := Sweep(moved, shouldRemove);
    out := Emit(collisions);
  }

  // ---------------------------------------------------------------------------------------

  /** Damage only ever changes health: every other field of every player stays as it was. */
  lemma {:induction false} ProcessOnlyHealth(t: Players, bs: seq<Bullet>, trig: real -> SinCos)
    ensures var d := Process(t, bs, trig).entries;
      forall k :: k in d ==> d[k] == t.entries[k].(health := d[k].health)
  {
    if bs != [] {
      ProcessOnlyHealth(t, bs[..|bs| - 1], trig);
    }
  }

  /** The scan stops at a player `b` hits, and every player it passed over is one `b` misses. */
  lemma FirstHitSpec(b: Bullet, keys: seq<string>, entries: map<string, Player>)
    ensures var i := FirstHit(b, keys, entries);
      && (i < |keys| ==> Hits(b, keys[i], entries))
      && (forall j :: 0 <= j < i ==> !Hits(b, keys[j], entries))
  {
    var flags := HitFlags(b, keys, entries);
    FirstTrueSpec(flags);
    forall j | 0 <= j < FirstHit(b, keys, entries) ensures !Hits(b, keys[j], entries) {
      assert !flags[j];
    }
  }

  /**
   * Damage dealt earlier in the pass never changes which player a later bullet hits: the scan
   * reads positions only.
   */
  lemma VictimIgnoresDamage(b: Bullet, keys: seq<string>, e1: map<string, Player>, e2: map<string, Player>)
    requires e1.Keys == e2.Keys
    requires forall k :: k in e1 ==> e2[k].pos == e1[k].pos
    ensures FirstHit(b, keys, e1) == FirstHit(b, keys, e2)
  {
    assert HitFlags(b, keys, e1) == HitFlags(b, keys, e2);
  }

  /** Whether `u` lies strictly inside the interval that starts at `lo` and spans `size`. */
  predicate Within(u: real, lo: real, size: real) {
    lo < u < lo + size
  }

  /**
   * For a player whose position the client wrote as `${x}px`/`${y}px`, a collision is exactly
   * an overlap of the two boxes, each with its top-left corner at its position: some point lies
   * strictly inside both the bullet's square and the player's square.
   */
  lemma CollisionIsSharedPoint(b: Bullet, p: Player, x: int, y: int)
    requires p.pos == Pos(FormatPx(x), FormatPx(y))
    ensures CheckCollision(b, p) <==>
      exists u, v :: && Within(u, b.x, BULLET_SIZE) && Within(u, x as real, PLAYER_SIZE)
                     && Within(v, b.y, BULLET_SIZE) && Within(v, y as real, PLAYER_SIZE)
  {
    ParsePxFormatPx(x);
    ParsePxFormatPx(y);
    if CheckCollision(b, p) {
      var u := (Max(b.x, x as real) + Min(b.x + BULLET_SIZE, x as real + PLAYER_SIZE)) / 2.0;
      var v := (Max(b.y, y as real) + Min(b.y + BULLET_SIZE, y as real + PLAYER_SIZE)) / 2.0;
      assert Within(u, b.x, BULLET_SIZE) && Within(u, x as real, PLAYER_SIZE);
      assert Within(v, b.y, BULLET_SIZE) && Within(v, y as real, PLAYER_SIZE);
    }
  }

  function Max(a: real, b: real): real { if a < b then b else a }
  function Min(a: real, b: real): real { if a < b then a else b }

  /**
   * A player whose position `parseInt` cannot read is never hit. The position is then `NaN`,
   * and in JavaScript every comparison with `NaN` is false, so none of the four overlap tests
   * of `checkCollision` holds; `CheckCollision` stands for that rule by answering `false`.
   */
  lemma UnreadablePositionNeverHit(b: Bullet, p: Player)
    requires ParsePx(p.pos.x).None? || ParsePx(p.pos.y).None?
    ensures !CheckCollision(b, p)
  {
  }

  /** How many of the flags are set. */
  function CountTrue(flags: seq<bool>): (n: nat)
    ensures n <= |flags|
  {
    if |flags| == 0 then 0 else CountTrue(flags[..|flags| - 1]) + (if flags[|flags| - 1] then 1 else 0)
  }

  /** How many of the collisions hit the player `k`. */
  function HitsOn(cs: seq<Collision>, k: string): (n: nat)
    ensures n <= |cs|
  {
    if |cs| == 0 then 0 else HitsOn(cs[..|cs| - 1], k) + (if cs[|cs| - 1].hitPlayerId == k then 1 else 0)
  }

  /**
   * Every bullet hits at most one player, so there is one collision per flagged bullet; no
   * bullet hits its own shooter, and the player hit is one of the store's.
   */
  lemma {:induction false} ProcessCollisions(t: Players, bs: seq<Bullet>, trig: real -> SinCos)
    requires t.Valid()
    ensures var r := Process(t, bs, trig);
      && |r.collisions| == CountTrue(r.hit)
      && forall n :: 0 <= n < |r.collisions| ==>
           && r.collisions[n].hitPlayerId != r.collisions[n].shooterId
           && r.collisions[n].hitPlayerId in t.entries
  {
    if bs != [] {
      var prev := Process(t, bs[..|bs| - 1], trig);
      ProcessCollisions(t, bs[..|bs| - 1], trig);
      var m := Moved(bs[|bs| - 1], trig);
      FirstHitSpec(m, t.keys, prev.entries);
      var r := Process(t, bs, trig);
      assert r.hit[..|r.hit| - 1] == prev.hit;
    }
  }

  /**
   * A player's health after the pass is its health before, less `BULLET_DAMAGE` for every
   * collision that hit it; health is never clamped, and a player is never removed, however low
   * its health goes.
   */
  lemma {:induction false} ProcessHealth(t: Players, bs: seq<Bullet>, trig: real -> SinCos, k: string)
    requires t.Valid() && k in t.entries
    ensures var r := Process(t, bs, trig);
      r.entries[k].health == t.entries[k].health - BULLET_DAMAGE * HitsOn(r.collisions, k) as real
  {
    if bs != [] {
      var prev := Process(t, bs[..|bs| - 1], trig);
      ProcessHealth(t, bs[..|bs| - 1], trig, k);
      var m := Moved(bs[|bs| - 1], trig);
      FirstHitSpec(m, t.keys, prev.entries);
      var r := Process(t, bs, trig);
      if |r.collisions| > |prev.collisions| {
        assert r.collisions[..|r.collisions| - 1] == prev.collisions;
      }
    }
  }

  /**
   * The collision bullet `b` reports in the pass, judged against the players of `t` as they
   * stood when the tick began: the first player in visiting order, other than the shooter, that
   * the moved bullet overlaps; `None` when it overlaps nobody.
   */
  function CollisionFor(t: Players, b: Bullet, trig: real -> SinCos): (r: Option<Collision>)
    ensures r.Some? <==> FirstHit(Moved(b, trig), t.keys, t.entries) < |t.keys|
    ensures r.Some? ==> && r.value.bulletId == b.id && r.value.shooterId == b.playerId
                        && r.value.hitPlayerId != b.playerId && r.value.hitPlayerId in t.entries
                        && CheckCollision(Moved(b, trig), t.entries[r.value.hitPlayerId])
  {
    var m := Moved(b, trig);
    var i := FirstHit(m, t.keys, t.entries);
    if i < |t.keys| then
      FirstHitSpec(m, t.keys, t.entries);
      Some(Collision(b.id, b.playerId, t.keys[i], m.x, m.y, t.entries[t.keys[i]].pos))
    else None
  }

  /** The collisions of bullets `bs`, each judged on its own, in bullet order. */
  function Collisions(t: Players, bs: seq<Bullet>, trig: real -> SinCos): seq<Collision> {
    if bs == [] then []
    else
      var n := |bs| - 1;
      Collisions(t, bs[..n], trig) + (match CollisionFor(t, bs[n], trig) case Some(c) => [c] case None => [])
  }

  /** The i-th bullet the pass yields is the i-th bullet moved one step. */
  lemma {:induction false} ProcessMoved(t: Players, bs: seq<Bullet>, trig: real -> SinCos)
    ensures forall i :: 0 <= i < |bs| ==> Process(t, bs, trig).moved[i] == Moved(bs[i], trig)
  {
    if bs != [] {
      var n := |bs| - 1;
      ProcessMoved(t, bs[..n], trig);
      forall i | 0 <= i < n ensures Process(t, bs, trig).moved[i] == Moved(bs[i], trig) {
        assert bs[..n][i] == bs[i];
      }
    }
  }

  /**
   * Before bullet `bs[n]` takes its turn, the players are still where the tick began: the
   * damage dealt so far changes no position, so that bullet's victim is the one it would have
   * had alone.
   */
  lemma PrefixVictim(t: Players, bs: seq<Bullet>, n: nat, trig: real -> SinCos)
    requires n < |bs|
    ensures var prev := Process(t, bs[..n], trig);
      && FirstHit(Moved(bs[n], trig), t.keys, prev.entries) == FirstHit(Moved(bs[n], trig), t.keys, t.entries)
      && forall k :: k in t.entries ==> k in prev.entries && prev.entries[k].pos == t.entries[k].pos
  {
    var prev := Process(t, bs[..n], trig);
    ProcessOnlyHealth(t, bs[..n], trig);
    assert forall k :: k in t.entries ==> prev.entries[k].pos == t.entries[k].pos;
    VictimIgnoresDamage(Moved(bs[n], trig), t.keys, t.entries, prev.entries);
  }

  /**
   * The pass flags a bullet exactly when, moved one step, it overlaps a player other than its
   * shooter at the positions the tick began with, whatever the bullets before it did.
   */
  lemma {:induction false} ProcessHits(t: Players, bs: seq<Bullet>, trig: real -> SinCos)
    ensures forall i :: 0 <= i < |bs| ==>
      (Process(t, bs, trig).hit[i] <==> FirstHit(Moved(bs[i], trig), t.keys, t.entries) < |t.keys|)
  {
    if bs != [] {
      var n := |bs| - 1;
      ProcessHits(t, bs[..n], trig);
      PrefixVictim(t, bs, n, trig);
      var r := Process(t, bs, trig);
      forall i | 0 <= i < n
        ensures r.hit[i] <==> FirstHit(Moved(bs[i], trig), t.keys, t.entries) < |t.keys|
      {
        assert bs[..n][i] == bs[i];
      }
    }
  }

  /**
   * The collisions of the pass are those of the flagged bullets, one each, in bullet order,
   * each naming the bullet's own id and shooter, its victim and that victim's position.
   */
  lemma {:induction false} ProcessCollisionList(t: Players, bs: seq<Bullet>, trig: real -> SinCos)
    ensures Process(t, bs, trig).collisions == Collisions(t, bs, trig)
  {
    if bs != [] {
      var n := |bs| - 1;
      ProcessCollisionList(t, bs[..n], trig);
      PrefixVictim(t, bs, n, trig);
    }
  }

  /**
   * A bullet is still in flight after the pass exactly when it is some bullet moved one step
   * that overlaps no player other than its shooter and lies in the world grown by the margin.
   */
  lemma SurvivorsSpec(t: Players, bs: seq<Bullet>, trig: real -> SinCos)
    ensures forall x :: x in Survivors(t, bs, trig) <==>
      exists i :: && 0 <= i < |bs| && x == Moved(bs[i], trig) && InWorld(x)
                  && FirstHit(x, t.keys, t.entries) == |t.keys|
  {
    var r := Process(t, bs, trig);
    ProcessMoved(t, bs, trig);
    ProcessHits(t, bs, trig);
    KeepSound(r.moved, r.hit);
    KeepComplete(r.moved, r.hit);
  }

  /** Every bullet the filter keeps is in the world and is a moved bullet that hit nobody. */
  lemma {:induction false} KeepSound(moved: seq<Bullet>, hit: seq<bool>)
    requires |moved| == |hit|
    ensures forall x :: x in Keep(moved, hit) ==> InWorld(x) && exists i :: 0 <= i < |moved| && moved[i] == x && !hit[i]
  {
    if moved != [] {
      var n := |moved| - 1;
      KeepSound(moved[..n], hit[..n]);
    }
  }

  /** Every moved bullet that hit nobody and is still in the world is kept. */
  lemma {:induction false} KeepComplete(moved: seq<Bullet>, hit: seq<bool>)
    requires |moved| == |hit|
    ensures forall i :: 0 <= i < |moved| && !hit[i] && InWorld(moved[i]) ==> moved[i] in Keep(moved, hit)
  {
    if moved != [] {
      var n := |moved| - 1;
      KeepComplete(moved[..n], hit[..n]);
      forall i | 0 <= i < n && !hit[i] && InWorld(moved[i]) ensures moved[i] in Keep(moved, hit) {
        assert moved[..n][i] == moved[i] && hit[..n][i] == hit[i];
      }
    }
  }

  /** Each bullet that hit someone is one fewer bullet in flight. */
  lemma {:induction false} KeepCount(moved: seq<Bullet>, hit: seq<bool>)
    requires |moved| == |hit|
    ensures |Keep(moved, hit)| <= |moved| - CountTrue(hit)
  {
    if moved != [] {
      var n := |moved| - 1;
      KeepCount(moved[..n], hit[..n]);
    }
  }
}
