/**
 * The client's list of bullets in flight (public/js/bullet-manager.js). The list holds bullet
 * objects; a `bulletUpdate` from the server rebuilds the list in the server's order, reusing
 * the object already held for a known id and updating it in place.
 */
module BulletManager {
  import opened Wrappers
  import opened Entities

  /** The side of the square a bullet is drawn as, in pixels. */
  const DRAWN_BULLET_SIZE: real := 8.0

  /** A bullet object of the client; its id is never reassigned. */
  class ClientBullet {
    const id: string
    var x: real
    var y: real
    var angle: real
    var playerId: string
    /** `Date.now()` at the last time the server reported this bullet. */
    var lastServerUpdate: real

    constructor (b: Bullet, now: real)
      ensures View() == b && lastServerUpdate == now
    {
      id, x, y, angle, playerId := b.id, b.x, b.y, b.angle, b.playerId;
      lastServerUpdate := now;
    }

    /** The fields the server reports, as a value. */
    function View(): Bullet
      reads this
    {
      Bullet(id, x, y, angle, playerId)
    }
  }

  /** The ids of a list of bullet objects, in order. */
  function IdsOf(bs: seq<ClientBullet>): (ids: seq<string>)
    ensures |ids| == |bs|
    ensures forall i :: 0 <= i < |bs| ==> ids[i] == bs[i].id
  {
    seq(|bs|, i requires 0 <= i < |bs| => bs[i].id)
  }

  /** The place of the first occurrence of `id` in `ids`, or `|ids|` when it does not occur. */
  function FirstIndex(ids: seq<string>, id: string): (k: nat)
    ensures k <= |ids|
  {
    if |ids| == 0 then 0
    else if ids[0] == id then 0
    else 1 + FirstIndex(ids[1..], id)
  }

  /** `FirstIndex` finds the first occurrence, and finds one whenever there is one. */
  lemma {:induction false} FirstIndexSpec(ids: seq<string>, id: string)
    ensures var k := FirstIndex(ids, id);
      && (k < |ids| ==> ids[k] == id)
      && (forall j :: 0 <= j < k ==> ids[j] != id)
      && (k == |ids| <==> id !in ids)
  {
    if |ids| > 0 && ids[0] != id {
      FirstIndexSpec(ids[1..], id);
      assert ids == [ids[0]] + ids[1..];
    }
  }

  /** No two of the server's bullets share an id. */
  predicate DistinctIds(server: seq<Bullet>) {
    forall i, j :: 0 <= i < j < |server| ==> server[i].id != server[j].id
  }

  /** `bs.filter(b => b.id !== id)`. */
  function Dropping(bs: seq<ClientBullet>, id: string): seq<ClientBullet> {
    if bs == [] then []
    else
      var n := |bs| - 1;
      Dropping(bs[..n], id) + (if bs[n].id != id then [bs[n]] else [])
  }

  /**
   * Whether a bullet drawn at `(x, y)` lies wholly outside a viewport of width `w` and
   * height `h`.
   */
  predicate IsBulletOutOfViewport(x: real, y: real, w: real, h: real) {
    || x + DRAWN_BULLET_SIZE < 0.0
    || x > w
    || y + DRAWN_BULLET_SIZE < 0.0
    || y > h
  }

  class Manager {
    /** `BulletManager.bullets`. */
    var bullets: seq<ClientBullet>
    /** The pending animation frame of the local loop, `null` when there is none. */
    var animationFrameId: Option<nat>

    constructor ()
      ensures bullets == [] && animationFrameId == None
    {
      bullets := [];
      animationFrameId := None;
    }

    /** `addBullet`: stamp a bullet the server announced and append it. */
    method AddBullet(data: Bullet, now: real) returns (b: ClientBullet)
      modifies this
      ensures fresh(b) && b.View() == data && b.lastServerUpdate == now
      ensures bullets == old(bullets) + [b]
      ensures animationFrameId == old(animationFrameId)
    {
      b := new ClientBullet(data, now);
      bullets := bullets + [b];
    }

    /** `this.bullets.find(b => b.id === id)`, as a place in the list. */
    method Find(id: string) returns (k: nat)
      ensures k == FirstIndex(IdsOf(bullets), id)
    {
      k := 0;
      ghost var ids := IdsOf(bullets);
      FirstIndexSpec(ids, id);
      while k < |bullets| && bullets[k].id != id
        invariant k <= FirstIndex(ids, id)
      {
        k := k + 1;
      }
    }

    /**
     * The callback of the `map` in `updateBullets`: the object held for the server bullet's id,
     * overwritten with the server's fields, or a new object when none is held.
     */
    method Reconcile(s: Bullet, now: real) returns (b: ClientBullet)
      modifies bullets
      ensures b.View() == s && b.lastServerUpdate == now
      ensures var k := FirstIndex(IdsOf(bullets), s.id);
        if k < |bullets| then b == bullets[k] else fresh(b)
      ensures forall o :: o in bullets && o != b ==> unchanged(o)
    {
      var k := Find(s.id);
      if k < |bullets| {
        b := bullets[k];
        FirstIndexSpec(IdsOf(bullets), s.id);
        b.x, b.y, b.angle, b.playerId := s.x, s.y, s.angle, s.playerId;
        b.lastServerUpdate := now;
      } else {
        b := new ClientBullet(s, now);
      }
    }

    /**
     * The `map` of `updateBullets`: one object per server bullet, in the server's order, each
     * the object held for that id or a new one. Objects held but not reused are left as they were.
     */
    method Rebuild(server: seq<Bullet>, now: real) returns (updated: seq<ClientBullet>)
      modifies bullets
      ensures |updated| == |server|
      ensures forall i :: 0 <= i < |server| ==>
        && updated[i].id == server[i].id
        && updated[i].lastServerUpdate == now
        && (DistinctIds(server) ==> updated[i].View() == server[i])
      ensures forall i :: 0 <= i < |server| ==>
        var k := FirstIndex(IdsOf(bullets), server[i].id);
        if k < |bullets| then updated[i] == bullets[k] else fresh(updated[i])
      ensures forall b :: b in bullets && b !in updated ==> unchanged(b)
    {
      updated := [];
      var i := 0;
      while i < |server|
        invariant 0 <= i <= |server| && |updated| == i
        invariant forall j :: 0 <= j < i ==>
          && updated[j].id == server[j].id
          && updated[j].lastServerUpdate == now
          && (DistinctIds(server) ==> updated[j].View() == server[j])
        invariant forall j :: 0 <= j < i ==>
          var k := FirstIndex(IdsOf(bullets), server[j].id);
          if k < |bullets| then updated[j] == bullets[k] else fresh(updated[j])
        invariant forall b :: b in bullets && b !in updated ==> unchanged(b)
      {
        label before:
        var b := Reconcile(server[i], now);
        ghost var distinct := DistinctIds(server);
        forall j | 0 <= j < i
          ensures updated[j].lastServerUpdate == now
          ensures distinct ==> updated[j].View() == server[j]
        {
          if distinct {
            assert server[j].id != server[i].id;
          }
          if updated[j] != b && updated[j] in bullets {
            assert unchanged@before(updated[j]);
          }
        }
        updated := updated + [b];
        i := i + 1;
      }
    }

    /**
     * `updateBullets`: the list becomes the server's list, in the server's order. A bullet the
     * client already holds is the same object as before, its reported fields overwritten; a
     * bullet it does not hold is a new object. Held bullets the server no longer reports are
     * dropped from the list and left as they were. When the server reports twice an id the
     * client holds, both places hold that one object; an id it does not hold that the server
     * reports twice gets two new objects, since the lookup searches only the list held before.
     */
    method UpdateBullets(server: seq<Bullet>, now: real)
      modifies this, bullets
      ensures animationFrameId == old(animationFrameId)
      ensures |bullets| == |server| && forall i :: 0 <= i < |server| ==> bullets[i].id == server[i].id
      ensures forall i :: 0 <= i < |server| ==> bullets[i].lastServerUpdate == now
      ensures forall i :: 0 <= i < |server| ==>
        var k := FirstIndex(IdsOf(old(bullets)), server[i].id);
        if k < |old(bullets)| then bullets[i] == old(bullets)[k] else fresh(bullets[i])
      ensures DistinctIds(server) ==> forall i :: 0 <= i < |server| ==> bullets[i].View() == server[i]
      ensures forall b :: b in old(bullets) && b !in bullets ==> unchanged(b)
    {
      var updated := Rebuild(server, now);
      bullets := updated;
    }

    /** `removeBullet`: drop every bullet with that id, keeping the others in order. */
    method RemoveBullet(id: string)
      modifies this
      ensures bullets == Dropping(old(bullets), id)
      ensures animationFrameId == old(animationFrameId)
    {
      var kept: seq<ClientBullet> := [];
      var k := 0;
      while k < |bullets|
        invariant 0 <= k <= |bullets|
        invariant kept == Dropping(bullets[..k], id)
      {
        assert bullets[..k + 1][..k] == bullets[..k];
        if bullets[k].id != id {
          kept := kept + [bullets[k]];
        }
        k := k + 1;
      }
      assert bullets[..k] == bullets;
      bullets := kept;
    }

    /** `clearAllBullets`: empty the list and cancel the local animation loop. */
    method ClearAllBullets()
      modifies this
      ensures bullets == [] && animationFrameId == None
    {
      bullets := [];
      if animationFrameId.Some? {
        animationFrameId := None;
      }
    }
  }

  // ---------------------------------------------------------------------------------------

  /** Removing keeps exactly the bullets with another id. */
  lemma {:induction false} DroppingMembers(bs: seq<ClientBullet>, id: string)
    ensures var d := Dropping(bs, id);
      && (forall k :: 0 <= k < |d| ==> d[k] in bs && d[k].id != id)
      && (forall k :: 0 <= k < |bs| && bs[k].id != id ==> bs[k] in d)
  {
    if bs != [] {
      var n := |bs| - 1;
      var init := bs[..n];
      DroppingMembers(init, id);
      var prev := Dropping(init, id);
      var tail := if bs[n].id != id then [bs[n]] else [];
      var d := Dropping(bs, id);
      assert d == prev + tail;
      forall k | 0 <= k < |d| ensures d[k] in bs && d[k].id != id {
        if k < |prev| {
          assert d[k] == prev[k] && prev[k] in init;
        } else {
          assert d[k] == bs[n];
        }
      }
      forall k | 0 <= k < |bs| && bs[k].id != id ensures bs[k] in d {
        if k < n {
          assert bs[k] == init[k] && bs[k] in prev;
        } else {
          assert d[|d| - 1] == bs[n];
        }
      }
    }
  }

  /** Removing a bullet id that is not held changes nothing. */
  lemma {:induction false} DroppingAbsent(bs: seq<ClientBullet>, id: string)
    requires id !in IdsOf(bs)
    ensures Dropping(bs, id) == bs
  {
    if bs != [] {
      var n := |bs| - 1;
      assert bs[n].id == IdsOf(bs)[n];
      assert IdsOf(bs[..n]) == IdsOf(bs)[..n];
      DroppingAbsent(bs[..n], id);
      assert bs == bs[..n] + [bs[n]];
    }
  }

  /** Removing twice is removing once. */
  lemma DroppingIdempotent(bs: seq<ClientBullet>, id: string)
    ensures Dropping(Dropping(bs, id), id) == Dropping(bs, id)
  {
    var d := Dropping(bs, id);
    DroppingMembers(bs, id);
    assert forall k :: 0 <= k < |d| ==> IdsOf(d)[k] != id;
    DroppingAbsent(d, id);
  }

  /** Whether the point `(u, v)` lies in the square a bullet at `(x, y)` is drawn as, edges included. */
  predicate InDrawnSquare(u: real, v: real, x: real, y: real) {
    x <= u <= x + DRAWN_BULLET_SIZE && y <= v <= y + DRAWN_BULLET_SIZE
  }

  /** Whether the point `(u, v)` lies in a viewport of width `w` and height `h`, edges included. */
  predicate InViewport(u: real, v: real, w: real, h: real) {
    0.0 <= u <= w && 0.0 <= v <= h
  }

  /**
   * A bullet is out of the viewport exactly when no point of its drawn square lies in the
   * viewport.
   */
  lemma OutOfViewportIsDisjoint(x: real, y: real, w: real, h: real)
    requires w >= 0.0 && h >= 0.0
    ensures IsBulletOutOfViewport(x, y, w, h) <==>
      !exists u, v :: InDrawnSquare(u, v, x, y) && InViewport(u, v, w, h)
  {
    if !IsBulletOutOfViewport(x, y, w, h) {
      var u := if x < 0.0 then 0.0 else x;
      var v := if y < 0.0 then 0.0 else y;
      assert InDrawnSquare(u, v, x, y) && InViewport(u, v, w, h);
    }
  }
}
