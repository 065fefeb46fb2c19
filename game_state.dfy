/**
 * The shared state store (server_logic/game_state.js): the players, keyed by socket id, and
 * the bullets in flight. Every handler and every tick reads and changes this one object.
 */
module GameState {
  import opened Wrappers
  import opened OrderedMap
  import opened Entities

  /** The record `addPlayer` files for a new socket; it has no colour. */
  function NewPlayer(id: string): Player {
    Player(id, "Player", Pos("100px", "100px"), 0.0, 100.0, None)
  }

  /** The record `updatePlayer` leaves after merging `patch` into `p`. */
  function Merge(p: Player, patch: PlayerPatch): (r: Player)
    ensures r.id == p.id
  {
    p.(pos := patch.pos.GetOr(p.pos),
       barrelRotation := patch.barrelRotation.GetOr(p.barrelRotation),
       health := patch.health.GetOr(p.health),
       color := if patch.color.Some? then patch.color else p.color,
       name := patch.name.GetOr(p.name))
  }

  /** Every record is filed under its own id, and the visiting order is well formed. */
  ghost predicate Consistent(t: Players) {
    t.Valid() && forall k :: k in t.entries ==> t.entries[k].id == k
  }

  class Store {
    var players: Players
    var bullets: seq<Bullet>

    ghost predicate Valid()
      reads this
    {
      Consistent(players)
    }

    constructor ()
      ensures Valid()
      ensures players == Empty() && bullets == []
    {
      players := Empty();
      bullets := [];
    }

    /** `addPlayer`: files a fresh default record, replacing any record under that id. */
    method AddPlayer(id: string)
      requires Valid()
      modifies this
      ensures Valid()
      ensures players == Put(old(players), id, NewPlayer(id))
      ensures bullets == old(bullets)
    {
      players := Put(players, id, NewPlayer(id));
    }

    /** `updatePlayer`: merges `patch` into the record of `id`, when there is one. */
    method UpdatePlayer(id: string, patch: PlayerPatch)
      requires Valid()
      modifies this
      ensures Valid()
      ensures id !in old(players.entries) ==> players == old(players)
      ensures id in old(players.entries) ==>
        players == Put(old(players), id, Merge(old(players.entries[id]), patch))
      ensures bullets == old(bullets)
    {
      if id in players.entries {
        players := Put(players, id, Merge(players.entries[id], patch));
      }
    }

    /** `removePlayer`: deletes the record of `id`, if any. */
    method RemovePlayer(id: string)
      requires Valid()
      modifies this
      ensures Valid()
      ensures players == Delete(old(players), id)
      ensures bullets == old(bullets)
    {
      DeleteValid(players, id);
      players := Delete(players, id);
    }

    /** `addBullet`: appends a bullet. */
    method AddBullet(b: Bullet)
      requires Valid()
      modifies this
      ensures Valid()
      ensures bullets == old(bullets) + [b]
      ensures players == old(players)
    {
      bullets := bullets + [b];
    }
  }

  // ---------------------------------------------------------------------------------------

  /** Patch `a` followed by patch `b`, as one patch: a field `b` carries wins over `a`'s. */
  function Then(a: PlayerPatch, b: PlayerPatch): PlayerPatch {
    PlayerPatch(
      if b.pos.Some? then b.pos else a.pos,
      if b.barrelRotation.Some? then b.barrelRotation else a.barrelRotation,
      if b.health.Some? then b.health else a.health,
      if b.color.Some? then b.color else a.color,
      if b.name.Some? then b.name else a.name)
  }

  /**
   * Two updates in turn are one update with the combined patch, the later one winning field by
   * field; so an update only ever overwrites fields, and the order of two updates matters only
   * where both carry the same field.
   */
  lemma MergeCompose(p: Player, a: PlayerPatch, b: PlayerPatch)
    ensures Merge(Merge(p, a), b) == Merge(p, Then(a, b))
  {
  }

  /** Merging the same patch twice is merging it once. */
  lemma MergeIdempotent(p: Player, patch: PlayerPatch)
    ensures Merge(Merge(p, patch), patch) == Merge(p, patch)
  {
  }

  /** A patch that carries nothing leaves the record as it was. */
  lemma MergeEmptyPatch(p: Player)
    ensures Merge(p, PlayerPatch(None, None, None, None, None)) == p
  {
  }

  /**
   * Removing a player twice leaves the store as removing it once; a player that reconnects is
   * a new default record, whatever the health of the record removed.
   */
  lemma RemoveTwiceThenRejoin(t: Players, id: string)
    requires Consistent(t)
    ensures Delete(Delete(t, id), id) == Delete(t, id)
    ensures Put(Delete(t, id), id, NewPlayer(id)).entries[id].health == 100.0
    ensures Put(Delete(t, id), id, NewPlayer(id)).keys == Delete(t, id).keys + [id]
  {
    DeleteIdempotent(t, id);
    DeleteValid(t, id);
  }
}
