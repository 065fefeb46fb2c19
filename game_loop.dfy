/**
 * The server's fixed-rate loop (server_logic/game_loop.js): every tick runs the bullet pass,
 * and, while anyone is connected, broadcasts the players every tick and the bullets every
 * third tick. Timers are modelled by handles: starting the loop registers a new periodic timer
 * and clears the one it replaces.
 */
module GameLoop {
  import opened Wrappers
  import opened OrderedMap
  import opened Entities
  import opened Constants
  import opened GameState
  import opened BulletLogic

  /** The period given to `setInterval`, in milliseconds: 120 ticks per second. */
  const TICK_PERIOD_MS: real := 1000.0 / 120.0

  /** The bullet counter after one tick with `clients` sockets connected. */
  function NextCounter(counter: nat, clients: nat): (c: nat)
    requires counter < BULLET_BROADCAST_PERIOD
    ensures c < BULLET_BROADCAST_PERIOD
    ensures clients == 0 ==> c == counter
  {
    if clients == 0 then counter
    else if counter + 1 >= BULLET_BROADCAST_PERIOD then 0
    else counter + 1
  }

  /** Whether this tick is one on which the bullets are due to be broadcast. */
  predicate BulletsDue(counter: nat, clients: nat) {
    clients > 0 && counter + 1 >= BULLET_BROADCAST_PERIOD
  }

  /**
   * What a tick broadcasts after the bullet pass, given the bullet counter before it and the
   * store after the pass.
   */
  function Broadcasts(counter: nat, clients: nat, players: Players, bullets: seq<Bullet>): seq<Outbound> {
    if clients == 0 then []
    else
      (if BulletsDue(counter, clients) && |bullets| > 0 then [Outbound(ToAll, BulletUpdate(bullets))] else [])
      + (if |players.keys| > 0 then [Outbound(ToAll, PlayerUpdate(players))] else [])
  }

  class Loop {
    /** `gameLoopInterval`: the handle of the running timer, `null` when stopped. */
    var interval: Option<nat>
    /** `bulletUpdateCounter`. */
    var counter: nat
    /** The timers registered with the host and not cleared yet. */
    var live: set<nat>
    /** The handle the host gives to the next timer. */
    var nextHandle: nat

    /** At most one timer runs, and it is the one the loop holds. */
    ghost predicate Valid()
      reads this
    {
      && counter < BULLET_BROADCAST_PERIOD
      && live == (if interval.Some? then {interval.value} else {})
      && forall h :: h in live ==> h < nextHandle
    }

    constructor ()
      ensures Valid()
      ensures interval == None && counter == 0 && live == {}
    {
      interval := None;
      counter := 0;
      live := {};
      nextHandle := 0;
    }

    /** `startGameLoop`: clear the running timer, if any, and start a new one. */
    method Start()
      requires Valid()
      modifies this
      ensures Valid()
      ensures interval == Some(old(nextHandle)) && live == {old(nextHandle)}
      ensures nextHandle == old(nextHandle) + 1
      ensures counter == old(counter)
    {
      if interval.Some? {
        live := live - {interval.value};
      }
      interval := Some(nextHandle);
      live := live + {nextHandle};
      nextHandle := nextHandle + 1;
    }

    /** `stopGameLoop`: clear the running timer, if any. */
    method Stop()
      requires Valid()
      modifies this
      ensures Valid()
      ensures interval == None && live == {}
      ensures counter == old(counter) && nextHandle == old(nextHandle)
    {
      if interval.Some? {
        live := live - {interval.value};
        interval := None;
      }
    }

    /**
     * The timer callback: the bullet pass, then, unless no socket is connected, the counted
     * bullet broadcast and the player broadcast. The events are returned in emission order.
     */
    method Tick(store: Store, clients: nat, trig: real -> SinCos) returns (out: seq<Outbound>)
      requires Valid() && store.Valid()
      modifies this, store
      ensures Valid() && store.Valid()
      ensures var r := Process(old(store.players), old(store.bullets), trig);
        && store.players == Table(old(store.players).keys, r.entries)
        && store.bullets == Keep(r.moved, r.hit)
        && out == Announce(r.collisions) + Broadcasts(old(counter), clients, store.players, store.bullets)
      ensures counter == NextCounter(old(counter), clients)
      ensures interval == old(interval) && live == old(live) && nextHandle == old(nextHandle)
    {
      out := UpdateBullets(store, trig);
      var sent := Broadcast(store, clients);
      out := out + sent;
    }

    /** The part of the timer callback after the bullet pass. */
    method Broadcast(store: Store, clients: nat) returns (out: seq<Outbound>)
      requires Valid()
      modifies this
      ensures Valid()
      ensures out == Broadcasts(old(counter), clients, store.players, store.bullets)
      ensures counter == NextCounter(old(counter), clients)
      ensures interval == old(interval) && live == old(live) && nextHandle == old(nextHandle)
    {
      out := [];
      if clients == 0 {
        return;
      }
      counter := counter + 1;
      if counter >= BULLET_BROADCAST_PERIOD {
        counter := 0;
        if |store.bullets| > 0 {
          out := out + [Outbound(ToAll, BulletUpdate(store.bullets))];
        }
      }
      if |store.players.keys| > 0 {
        out := out + [Outbound(ToAll, PlayerUpdate(store.players))];
      }
    }
  }

  // ---------------------------------------------------------------------------------------

  /** The counter after `n` ticks, all with someone connected. */
  function CounterAfter(counter: nat, n: nat): (c: nat)
    requires counter < BULLET_BROADCAST_PERIOD
    ensures c < BULLET_BROADCAST_PERIOD
  {
    if n == 0 then counter else NextCounter(CounterAfter(counter, n - 1), 1)
  }

  /** On how many of `n` ticks, all with someone connected, the bullets are due. */
  function DueCount(counter: nat, n: nat): nat
    requires counter < BULLET_BROADCAST_PERIOD
  {
    if n == 0 then 0
    else DueCount(counter, n - 1) + (if BulletsDue(CounterAfter(counter, n - 1), 1) then 1 else 0)
  }

  /**
   * The bullets are due on every third tick exactly: after `n` connected ticks from counter
   * `counter`, the counter stands at `(counter + n) % 3` and the bullets have been due
   * `(counter + n) / 3` times.
   */
  lemma {:induction false} EveryThirdTick(counter: nat, n: nat)
    requires counter < BULLET_BROADCAST_PERIOD
    ensures CounterAfter(counter, n) == (counter + n) % BULLET_BROADCAST_PERIOD
    ensures DueCount(counter, n) == (counter + n) / BULLET_BROADCAST_PERIOD
  {
    if n > 0 {
      EveryThirdTick(counter, n - 1);
    }
  }

  /**
   * With nobody connected a tick broadcasts nothing beyond the collisions; with someone
   * connected the players go out exactly when there are any, and the bullets go out exactly on
   * a due tick with bullets in flight.
   */
  lemma BroadcastsShape(counter: nat, clients: nat, players: Players, bullets: seq<Bullet>)
    requires players.Valid()
    ensures clients == 0 ==> Broadcasts(counter, clients, players, bullets) == []
    ensures clients > 0 ==>
      (Outbound(ToAll, PlayerUpdate(players)) in Broadcasts(counter, clients, players, bullets) <==> players.entries != map[])
    ensures Outbound(ToAll, BulletUpdate(bullets)) in Broadcasts(counter, clients, players, bullets)
      <==> BulletsDue(counter, clients) && bullets != []
  {
    if players.keys != [] {
      assert players.keys[0] in players.entries;
    } else {
      assert players.entries.Keys == {};
    }
  }
}
