/**
 * The client's view of the other players (public/js/player-manager.js): the stored player
 * records (a JavaScript `Map`), which player elements the page holds, the health bar of each
 * element it created, and the own-health display (`healthBarFill` / `healthText`).
 * Everything else the page shows (position, colour, name label, barrel) is left to the DOM.
 */
module PlayerManager {
  import opened Wrappers
  import opened OrderedMap
  import opened Entities
  import opened JsText
  import opened GameState

  /** The colour bands of a health bar. */
  datatype Tier = Green | Orange | Red | DarkRed

  /** `Math.max(0, Math.min(100, health))`: the displayed percentage. */
  function HealthPercent(h: real): (r: real)
    ensures 0.0 <= r <= 100.0
    ensures 0.0 <= h <= 100.0 ==> r == h
    ensures h < 0.0 ==> r == 0.0
    ensures h > 100.0 ==> r == 100.0
  {
    var upper := if 100.0 < h then 100.0 else h;
    if 0.0 < upper then upper else 0.0
  }

  /** The colour band for a displayed percentage. */
  function TierOf(pct: real): Tier {
    if pct > 75.0 then Green
    else if pct > 50.0 then Orange
    else if pct > 25.0 then Red
    else DarkRed
  }

  /** The order of the bands, from healthiest to weakest. */
  function Rank(t: Tier): nat {
    match t
    case Green => 0
    case Orange => 1
    case Red => 2
    case DarkRed => 3
  }

  /** `Math.round`: the nearest integer, halves rounded up. */
  function JsRound(x: real): (r: int)
    ensures r as real - 0.5 <= x < r as real + 0.5
  {
    (x + 0.5).Floor
  }

  /** The health bar of another player's element: its width in percent and its colour band. */
  datatype HealthBar = HealthBar(width: real, tier: Tier)

  /** The own-health display: bar width, the `n/100` text, colour band and pulse animation. */
  datatype Hud = Hud(width: real, text: string, tier: Tier, pulse: bool)

  /** The bar `updatePlayer` draws for a health value. */
  function BarFor(h: real): HealthBar {
    var pct := HealthPercent(h);
    HealthBar(pct, TierOf(pct))
  }

  /** What `updateOwnHealth` shows for a health value. */
  function HudFor(h: real): Hud {
    var pct := HealthPercent(h);
    Hud(pct, IntToString(JsRound(h)) + "/100", TierOf(pct), pct <= 25.0)
  }

  /**
   * The state of the player view: the stored records, the ids of the player elements on the
   * page, the health bar of each element this view created, whether the own-health display is
   * on the page and what it shows, and how many times the death handling has been triggered.
   */
  datatype Screen = Screen(
    players: Table<Player>,
    elements: set<string>,
    bars: map<string, HealthBar>,
    hudPresent: bool,
    hud: Option<Hud>,
    deathTriggers: nat)

  /** Every stored record and every health bar belongs to an element on the page. */
  ghost predicate Coherent(s: Screen) {
    && s.players.Valid()
    && s.players.entries.Keys <= s.elements
    && s.bars.Keys <= s.elements
  }

  /** A new element for `p`: its bar is as wide as the raw health, unclamped, and green. */
  function Build(s: Screen, p: Player): Screen {
    s.(elements := s.elements + {p.id},
       bars := s.bars[p.id := HealthBar(p.health, Green)],
       players := Put(s.players, p.id, p))
  }

  /** The existing element of `p` redrawn: its bar, if it has one, clamped and coloured. */
  function Refresh(s: Screen, p: Player): Screen {
    s.(bars := if p.id in s.bars then s.bars[p.id := BarFor(p.health)] else s.bars,
       players := Put(s.players, p.id, p))
  }

  /** `createPlayer`, which falls back to `updatePlayer` when the element exists. */
  function Create(s: Screen, p: Player): Screen {
    if p.id in s.elements then Refresh(s, p) else Build(s, p)
  }

  /** `updatePlayer`, which falls back to `createPlayer` when the element is missing. */
  function Update(s: Screen, p: Player): Screen {
    if p.id !in s.elements then Build(s, p) else Refresh(s, p)
  }

  /** `updateOwnHealth`: redraw the own display, if present, and trigger the death handling at 0 or below. */
  function OwnHealth(s: Screen, h: real): Screen {
    if !s.hudPresent then s
    else s.(hud := Some(HudFor(h)), deathTriggers := s.deathTriggers + (if h <= 0.0 then 1 else 0))
  }

  /** `removePlayer`: only a player whose element is on the page is removed, record and all. */
  function Remove(s: Screen, id: string): Screen {
    if id in s.elements then
      s.(elements := s.elements - {id}, bars := s.bars - {id}, players := Delete(s.players, id))
    else s
  }

  /** The elements `clearAllPlayers` keeps: the own character, when the socket knows its id. */
  function Kept(selfId: Option<string>): set<string> {
    if selfId.Some? then {selfId.value} else {}
  }

  /** `clearAllPlayers`: every player element but the own one goes, and the records are cleared. */
  function Clear(s: Screen, selfId: Option<string>): Screen {
    var kept := s.elements * Kept(selfId);
    s.(elements := kept,
       bars := map k | k in s.bars && k in kept :: s.bars[k],
       players := Empty())
  }

  /** One iteration of the loop of `syncInitialPlayers`, for the key `k`. */
  function SyncOne(s: Screen, t: Players, k: string, myId: string): Screen
    requires k in t.entries
  {
    if k != myId then Create(s, t.entries[k]) else s
  }

  /** The loop of `syncInitialPlayers` over the keys `ks`. */
  function SyncFrom(s: Screen, t: Players, ks: seq<string>, myId: string): Screen
    requires forall k :: k in ks ==> k in t.entries
  {
    if ks == [] then s
    else
      var n := |ks| - 1;
      SyncOne(SyncFrom(s, t, ks[..n], myId), t, ks[n], myId)
  }

  /** `syncInitialPlayers`: clear, then create every listed player but oneself. */
  function Sync(s: Screen, t: Players, myId: string, selfId: Option<string>): Screen
    requires t.Valid()
  {
    SyncFrom(Clear(s, selfId), t, t.keys, myId)
  }

  /** One iteration of the loop of `updateAllPlayers`, for the key `k`. */
  function UpdateOne(s: Screen, t: Players, k: string, myId: string): Screen
    requires k in t.entries
  {
    if k != myId && k != "undefined" then Update(s, t.entries[k])
    else if k == myId then OwnHealth(s, t.entries[k].health)
    else s
  }

  /** The loop of `updateAllPlayers` over the keys `ks`. */
  function UpdateAllFrom(s: Screen, t: Players, ks: seq<string>, myId: string): Screen
    requires forall k :: k in ks ==> k in t.entries
  {
    if ks == [] then s
    else
      var n := |ks| - 1;
      UpdateOne(UpdateAllFrom(s, t, ks[..n], myId), t, ks[n], myId)
  }

  class Manager {
    var players: Table<Player>
    var elements: set<string>
    var bars: map<string, HealthBar>
    var hudPresent: bool
    var hud: Option<Hud>
    var deathTriggers: nat

    function State(): Screen
      reads this
    {
      Screen(players, elements, bars, hudPresent, hud, deathTriggers)
    }

    ghost predicate Valid()
      reads this
    {
      Coherent(State())
    }

    /** A page holding the own character element, if any, and the own-health display, if present. */
    constructor (own: Option<string>, hudOnPage: bool)
      ensures Valid()
      ensures State() == Screen(Empty(), Kept(own), map[], hudOnPage, None, 0)
    {
      players := Empty();
      elements := Kept(own);
      bars := map[];
      hudPresent := hudOnPage;
      hud := None;
      deathTriggers := 0;
    }

    /** `createPlayer`. */
    method CreatePlayer(p: Player)
      requires Valid()
      modifies this
      ensures Valid()
      ensures State() == Create(old(State()), p)
    {
      if p.id in elements {
        Redraw(p);
      } else {
        AddElement(p);
      }
    }

    /** `updatePlayer`. */
    method UpdatePlayer(p: Player)
      requires Valid()
      modifies this
      ensures Valid()
      ensures State() == Update(old(State()), p)
    {
      if p.id !in elements {
        AddElement(p);
      } else {
        Redraw(p);
      }
    }

    /** The element-building half of `createPlayer`. */
    method AddElement(p: Player)
      requires Valid()
      modifies this
      ensures Valid()
      ensures State() == Build(old(State()), p)
    {
      elements := elements + {p.id};
      bars := bars[p.id := HealthBar(p.health, Green)];
      players := Put(players, p.id, p);
    }

    /** The redrawing half of `updatePlayer`. */
    method Redraw(p: Player)
      requires Valid() && p.id in elements
      modifies this
      ensures Valid()
      ensures State() == Refresh(old(State()), p)
    {
      if p.id in bars {
        var pct := HealthPercent(p.health);
        bars := bars[p.id := HealthBar(pct, TierOf(pct))];
      }
      players := Put(players, p.id, p);
    }

    /** `updateOwnHealth`. */
    method UpdateOwnHealth(h: real)
      requires Valid()
      modifies this
      ensures Valid()
      ensures State() == OwnHealth(old(State()), h)
    {
      if hudPresent {
        var pct := HealthPercent(h);
        hud := Some(Hud(pct, IntToString(JsRound(h)) + "/100", TierOf(pct), pct <= 25.0));
        if h <= 0.0 {
          deathTriggers := deathTriggers + 1;
        }
      }
    }

    /** `removePlayer`. */
    method RemovePlayer(id: string)
      requires Valid()
      modifies this
      ensures Valid()
      ensures State() == Remove(old(State()), id)
    {
      if id in elements {
        DeleteValid(players, id);
        elements := elements - {id};
        bars := bars - {id};
        players := Delete(players, id);
      }
    }

    /** `clearAllPlayers`. */
    method ClearAllPlayers(selfId: Option<string>)
      requires Valid()
      modifies this
      ensures Valid()
      ensures State() == Clear(old(State()), selfId)
    {
      var kept := elements * Kept(selfId);
      elements := kept;
      bars := map k | k in bars && k in kept :: bars[k];
      players := Empty();
    }

    /** `syncInitialPlayers`: `selfId` is the id the socket reports for the own character. */
    method SyncInitialPlayers(t: Players, myId: string, selfId: Option<string>)
      requires Valid() && t.Valid()
      modifies this
      ensures Valid()
      ensures State() == Sync(old(State()), t, myId, selfId)
    {
      ClearAllPlayers(selfId);
      ghost var start := State();
      var i := 0;
      while i < |t.keys|
        invariant 0 <= i <= |t.keys| && Valid()
        invariant State() == SyncFrom(start, t, t.keys[..i], myId)
      {
        var k := t.keys[i];
        assert t.keys[..i + 1][..i] == t.keys[..i];
        if k != myId {
          CreatePlayer(t.entries[k]);
        }
        i := i + 1;
      }
      assert t.keys[..i] == t.keys;
    }

    /** `updateAllPlayers`. */
    method UpdateAllPlayers(t: Players, myId: string)
      requires Valid() && t.Valid()
      modifies this
      ensures Valid()
      ensures State() == UpdateAllFrom(old(State()), t, t.keys, myId)
    {
      ghost var start := State();
      var i := 0;
      while i < |t.keys|
        invariant 0 <= i <= |t.keys| && Valid()
        invariant State() == UpdateAllFrom(start, t, t.keys[..i], myId)
      {
        var k := t.keys[i];
        assert t.keys[..i + 1][..i] == t.keys[..i];
        if k != myId && k != "undefined" {
          UpdatePlayer(t.entries[k]);
        } else if k == myId {
          UpdateOwnHealth(t.entries[k].health);
        }
        i := i + 1;
      }
      assert t.keys[..i] == t.keys;
    }
  }

  // ---------------------------------------------------------------------------------------

  /** The two fallbacks agree: creating and updating a player always have the same effect. */
  lemma CreateIsUpdate(s: Screen, p: Player)
    ensures Create(s, p) == Update(s, p)
    ensures p.id in Create(s, p).elements && Create(s, p).players.entries[p.id] == p
  {
  }

  /** The bands are exclusive and exhaustive, and a lower percentage never gets a healthier band. */
  lemma TierMonotone(a: real, b: real)
    requires a <= b
    ensures Rank(TierOf(b)) <= Rank(TierOf(a))
  {
  }

  /**
   * The own display pulses exactly when the displayed percentage is 25 or less, which is
   * exactly the dark-red band; a health of 0 or less shows an empty, pulsing, dark-red bar.
   */
  lemma PulseIsDarkRed(h: real)
    ensures HudFor(h).pulse <==> HudFor(h).tier == DarkRed
    ensures HudFor(h).pulse <==> h <= 25.0
    ensures h <= 0.0 ==> HudFor(h).width == 0.0 && HudFor(h).pulse
  {
  }

  /** The displayed percentage is already clamped: clamping again changes nothing. */
  lemma HealthPercentIdempotent(h: real)
    ensures HealthPercent(HealthPercent(h)) == HealthPercent(h)
  {
  }

  /**
   * The own display triggers the death handling once per update at health 0 or below, and
   * only then; without the display on the page nothing happens at all.
   */
  lemma DeathTrigger(s: Screen, h: real)
    ensures OwnHealth(s, h).deathTriggers == s.deathTriggers + (if s.hudPresent && h <= 0.0 then 1 else 0)
    ensures !s.hudPresent ==> OwnHealth(s, h) == s
  {
  }

  /** Removing a player whose element is not on the page changes nothing, and removing twice is removing once. */
  lemma RemoveIdempotent(s: Screen, id: string)
    requires Coherent(s)
    ensures id !in s.elements ==> Remove(s, id) == s
    ensures Remove(Remove(s, id), id) == Remove(s, id)
    ensures id !in Remove(s, id).players.entries
  {
  }

  /**
   * One iteration of the initial sync files the listed record under its key, at the end of the
   * order when the key is new, unless the key is one's own.
   */
  lemma SyncOneEffect(s: Screen, t: Players, k: string, myId: string)
    requires Consistent(t) && k in t.entries
    ensures var r := SyncOne(s, t, k, myId);
      && (k != myId ==> r.players == Put(s.players, k, t.entries[k]) && k in r.elements)
      && (k == myId ==> r == s)
      && s.elements <= r.elements
  {
  }

  /**
   * After the initial sync the stored records are exactly the listed players but oneself, in
   * the order listed, and each of them has an element on the page.
   */
  lemma {:induction false} SyncFromPlayers(s: Screen, t: Players, ks: seq<string>, myId: string)
    requires Consistent(t) && Distinct(ks)
    requires forall k :: k in ks ==> k in t.entries
    requires s.players == Empty()
    ensures var r := SyncFrom(s, t, ks, myId);
      && r.players.keys == Without(ks, myId)
      && (forall k :: k in r.players.entries <==> k in ks && k != myId)
      && (forall k :: k in r.players.entries ==> r.players.entries[k] == t.entries[k] && k in r.elements)
  {
    if ks != [] {
      var n := |ks| - 1;
      var init := ks[..n];
      assert forall k :: k in init ==> k in ks;
      SyncFromPlayers(s, t, init, myId);
      var prev := SyncFrom(s, t, init, myId);
      var r := SyncOne(prev, t, ks[n], myId);
      SyncOneEffect(prev, t, ks[n], myId);
      assert ks[..n] == init;
      assert ks[n] !in init;
      assert Without(ks, myId) == Without(init, myId) + (if ks[n] == myId then [] else [ks[n]]);
      if ks[n] != myId {
        assert ks[n] !in prev.players.entries;
        assert r.players.keys == prev.players.keys + [ks[n]];
        assert r.players.entries == prev.players.entries[ks[n] := t.entries[ks[n]]];
      }
      assert forall k :: k in ks <==> k in init || k == ks[n];
    }
  }

  /** `syncInitialPlayers` stores exactly the listed players but oneself, in the order listed. */
  lemma SyncResult(s: Screen, t: Players, myId: string, selfId: Option<string>)
    requires Consistent(t)
    ensures var r := Sync(s, t, myId, selfId);
      && r.players.keys == Without(t.keys, myId)
      && (forall k :: k in r.players.entries <==> k in t.entries && k != myId)
      && (forall k :: k in r.players.entries ==> r.players.entries[k] == t.entries[k] && k in r.elements)
  {
    SyncFromPlayers(Clear(s, selfId), t, t.keys, myId);
  }

  /**
   * One iteration of `updateAllPlayers` touches at most the record filed under its key: it
   * stores the listed record there unless the key is one's own or `"undefined"`, it keeps every
   * other record and every element, and for one's own key it redraws the own display.
   */
  lemma UpdateOneEffect(s: Screen, t: Players, k: string, myId: string)
    requires Consistent(t) && k in t.entries
    ensures var r := UpdateOne(s, t, k, myId);
      && (k != myId && k != "undefined" ==> k in r.players.entries && r.players.entries[k] == t.entries[k])
      && (forall j :: j in s.players.entries && j != k ==> j in r.players.entries && r.players.entries[j] == s.players.entries[j])
      && (k == myId || k == "undefined" ==> r.players == s.players)
      && s.elements <= r.elements
      && (k == myId && s.hudPresent ==> r.hud == Some(HudFor(t.entries[k].health)))
      && (k != myId ==> r.hud == s.hud && r.hudPresent == s.hudPresent)
      && r.hudPresent == s.hudPresent
  {
  }

  /**
   * `updateAllPlayers` stores the listed record of every listed player but oneself and the
   * key `"undefined"`.
   */
  lemma {:induction false} UpdateAllStores(s: Screen, t: Players, ks: seq<string>, myId: string)
    requires Consistent(t) && Distinct(ks)
    requires forall k :: k in ks ==> k in t.entries
    ensures var r := UpdateAllFrom(s, t, ks, myId);
      forall k :: k in ks && k != myId && k != "undefined" ==> k in r.players.entries && r.players.entries[k] == t.entries[k]
  {
    if ks != [] {
      var n := |ks| - 1;
      var init := ks[..n];
      assert forall k :: k in init ==> k in ks;
      UpdateAllStores(s, t, init, myId);
      UpdateOneEffect(UpdateAllFrom(s, t, init, myId), t, ks[n], myId);
      assert forall k :: k in ks ==> k in init || k == ks[n];
    }
  }

  /** `updateAllPlayers` never removes a record, and keeps every record it does not list. */
  lemma {:induction false} UpdateAllKeeps(s: Screen, t: Players, ks: seq<string>, myId: string)
    requires Consistent(t)
    requires forall k :: k in ks ==> k in t.entries
    ensures var r := UpdateAllFrom(s, t, ks, myId);
      && (forall k :: k in s.players.entries ==> k in r.players.entries)
      && (forall k :: k in s.players.entries && (k !in ks || k == myId || k == "undefined") ==>
            r.players.entries[k] == s.players.entries[k])
      && s.elements <= r.elements
  {
    if ks != [] {
      var n := |ks| - 1;
      var init := ks[..n];
      assert forall k :: k in init ==> k in ks;
      UpdateAllKeeps(s, t, init, myId);
      UpdateOneEffect(UpdateAllFrom(s, t, init, myId), t, ks[n], myId);
    }
  }

  /** When one's own id is listed, `updateAllPlayers` leaves the own display showing one's listed health. */
  lemma {:induction false} UpdateAllHud(s: Screen, t: Players, ks: seq<string>, myId: string)
    requires Consistent(t) && Distinct(ks)
    requires forall k :: k in ks ==> k in t.entries
    ensures var r := UpdateAllFrom(s, t, ks, myId);
      && r.hudPresent == s.hudPresent
      && (myId in ks && s.hudPresent ==> r.hud == Some(HudFor(t.entries[myId].health)))
      && (myId !in ks ==> r.hud == s.hud)
  {
    if ks != [] {
      var n := |ks| - 1;
      var init := ks[..n];
      assert forall k :: k in init ==> k in ks;
      UpdateAllHud(s, t, init, myId);
      UpdateOneEffect(UpdateAllFrom(s, t, init, myId), t, ks[n], myId);
      assert ks[n] !in init;
      assert forall k :: k in ks ==> k in init || k == ks[n];
    }
  }
}
