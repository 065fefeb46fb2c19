/**
 * The client's input handling (public/js/game-controller.js): the angle arithmetic, the
 * keyboard movement of one's own element with its clamp to the game area, the cooldown on
 * firing, and the acceptance of the player's name.
 */
module GameController {
  import opened Wrappers
  import opened JsText
  import opened Entities

  // ---------------------------------------------------------------------------------------
  // Angles

  /** Whether `x` is a whole number. */
  predicate Whole(x: real) {
    x.Floor as real == x
  }

  /** The floor of `x` is the whole number `k` just at or below it. */
  lemma FloorIs(x: real, k: int)
    requires k as real <= x < k as real + 1.0
    ensures x.Floor == k
  {
  }

  /** Sums and negations of whole numbers are whole. */
  lemma WholeSum(p: real, q: real)
    requires Whole(p) && Whole(q)
    ensures Whole(p + q) && Whole(-p)
  {
    FloorIs(p + q, p.Floor + q.Floor);
    FloorIs(-p, -p.Floor);
  }

  /** The number of whole turns of 360 degrees below `a`, rounded toward minus infinity. */
  function Turns(a: real): int {
    (a / 360.0).Floor
  }

  /**
   * The representative of `a` in [0, 360): the angle `a` less a whole number of turns. This is
   * the reference the loop of `normalizeAngle` and the remainders of
   * `getShortestAngleDifference` are proved against.
   */
  function Wrap360(a: real): (r: real)
    ensures 0.0 <= r < 360.0
    ensures Whole((a - r) / 360.0)
  {
    var r := a - 360.0 * Turns(a) as real;
    assert (a - r) / 360.0 == Turns(a) as real;
    r
  }

  /** The only angle in [0, 360) a whole number of turns away from `a` is `Wrap360(a)`. */
  lemma Wrap360Unique(a: real, r: real)
    requires 0.0 <= r < 360.0
    requires Whole((r - a) / 360.0)
    ensures r == Wrap360(a)
  {
    var k := ((r - a) / 360.0).Floor;
    FloorIs(a / 360.0, -k);
  }

  /** An angle already in [0, 360) is its own representative. */
  lemma Wrap360Identity(a: real)
    requires 0.0 <= a < 360.0
    ensures Wrap360(a) == a
  {
    Wrap360Unique(a, a);
  }

  /** `normalizeAngle`: add 360 while negative, then take 360 away while 360 or more. */
  method NormalizeAngle(a: real) returns (angle: real)
    ensures 0.0 <= angle < 360.0
    ensures angle == Wrap360(a)
  {
    angle := a;
    ghost var k: int := 0;
    while angle < 0.0
      invariant angle == a + 360.0 * k as real
      decreases (-angle).Floor
    {
      angle := angle + 360.0;
      k := k + 1;
    }
    while angle >= 360.0
      invariant 0.0 <= angle
      invariant angle == a + 360.0 * k as real
      decreases angle.Floor
    {
      angle := angle - 360.0;
      k := k - 1;
    }
    assert (angle - a) / 360.0 == k as real;
    Wrap360Unique(a, angle);
  }

  /** JavaScript's `Math.trunc`: the integer part, rounded toward zero. */
  function Trunc(x: real): int {
    if x >= 0.0 then x.Floor else -((-x).Floor)
  }

  /**
   * JavaScript's `a % 360`: the remainder of a division truncated toward zero, which has the
   * sign of `a`.
   */
  function Rem360(a: real): (r: real)
    ensures -360.0 < r < 360.0
    ensures a >= 0.0 ==> r >= 0.0
    ensures a < 0.0 ==> r <= 0.0
  {
    a - 360.0 * Trunc(a / 360.0) as real
  }

  /** The remainder, moved into [0, 360) when negative, as `getShortestAngleDifference` does. */
  function Normalized(a: real): real {
    var r := Rem360(a);
    if r < 0.0 then r + 360.0 else r
  }

  /** Both ways of normalising an angle agree: the remainder fix-up gives `Wrap360`. */
  lemma NormalizedIsWrap(a: real)
    ensures Normalized(a) == Wrap360(a)
  {
    var t := Trunc(a / 360.0);
    var r := Rem360(a);
    assert r == a - 360.0 * t as real;
    var n := Normalized(a);
    var k := if r < 0.0 then 1 - t else -t;
    assert n - a == 360.0 * k as real;
    assert (n - a) / 360.0 == k as real;
    Wrap360Unique(a, n);
  }

  /** `getShortestAngleDifference(current, target)`. */
  function ShortestAngleDifference(current: real, target: real): (d: real)
    ensures -180.0 <= d <= 180.0
  {
    var c := Normalized(current);
    var t := Normalized(target);
    var diff := t - c;
    if diff > 180.0 then diff - 360.0
    else if diff < -180.0 then diff + 360.0
    else diff
  }

  /**
   * The difference is a turn from `current` to `target`: it differs from `target - current` by a
   * whole number of turns.
   */
  lemma ShortestAngleCongruent(current: real, target: real)
    ensures Whole((ShortestAngleDifference(current, target) - (target - current)) / 360.0)
  {
    NormalizedIsWrap(current);
    NormalizedIsWrap(target);
    var c := Normalized(current);
    var t := Normalized(target);
    var d := ShortestAngleDifference(current, target);
    var j := if t - c > 180.0 then -1 else if t - c < -180.0 then 1 else 0;
    assert d == t - c + 360.0 * j as real;
    var p := (current - c) / 360.0;
    var q := (target - t) / 360.0;
    WholeSum(p, j as real);
    WholeSum(q, 0.0);
    WholeSum(p + j as real, -q);
    assert (d - (target - current)) / 360.0 == p + j as real + -q;
  }

  /**
   * The difference is the shortest such turn: no angle a whole number of turns away from
   * `target - current` is smaller in magnitude.
   */
  lemma ShortestAngleIsShortest(current: real, target: real, x: real)
    requires Whole((x - (target - current)) / 360.0)
    ensures Abs(ShortestAngleDifference(current, target)) <= Abs(x)
  {
    var d := ShortestAngleDifference(current, target);
    ShortestAngleCongruent(current, target);
    var kd := ((d - (target - current)) / 360.0).Floor;
    var kx := ((x - (target - current)) / 360.0).Floor;
    var m := kx - kd;
    assert x == d + 360.0 * m as real;
    if m != 0 {
      if m > 0 {
        assert x >= d + 360.0;
      } else {
        assert x <= d - 360.0;
      }
    }
  }

  function Abs(x: real): real {
    if x < 0.0 then -x else x
  }

  // ---------------------------------------------------------------------------------------
  // Movement, firing and the name

  /** The pixels one frame of movement covers along an axis. */
  const SPEED: int := 5
  /** The largest left and top coordinates one's element may take. */
  const MAX_LEFT: int := 1920 - 100
  const MAX_TOP: int := 1080 - 100
  /** The milliseconds that must pass between two shots. */
  const BULLET_COOLDOWN_MS: int := 300

  /** JavaScript's `toLowerCase`, on the ASCII letters. */
  function Lower(s: string): (r: string)
    ensures |r| == |s|
    ensures forall i :: 0 <= i < |s| ==> ('A' <= s[i] <= 'Z' ==> r[i] == s[i] - 'A' + 'a')
    ensures forall i :: 0 <= i < |s| ==> (!('A' <= s[i] <= 'Z') ==> r[i] == s[i])
  {
    if s == [] then []
    else Lower(s[..|s| - 1]) + [if 'A' <= s[|s| - 1] <= 'Z' then s[|s| - 1] - 'A' + 'a' else s[|s| - 1]]
  }

  /** `this.keys[k]` is truthy: the key has gone down and not come up since. */
  predicate Held(keys: map<string, bool>, k: string) {
    k in keys && keys[k]
  }

  /** The net movement along one axis: `forward` adds a step, `back` takes one away. */
  function Axis(back: bool, forward: bool): (d: int)
    ensures back == forward ==> d == 0
    ensures back && !forward ==> d == -SPEED
    ensures forward && !back ==> d == SPEED
  {
    (if forward then SPEED else 0) - (if back then SPEED else 0)
  }

  predicate Up(keys: map<string, bool>) { Held(keys, "w") || Held(keys, "arrowup") }
  predicate Down(keys: map<string, bool>) { Held(keys, "s") || Held(keys, "arrowdown") }
  predicate Left(keys: map<string, bool>) { Held(keys, "a") || Held(keys, "arrowleft") }
  predicate Right(keys: map<string, bool>) { Held(keys, "d") || Held(keys, "arrowright") }

  /** Whether any direction key is held, which is what makes a frame a move. */
  predicate AnyHeld(keys: map<string, bool>) {
    Up(keys) || Down(keys) || Left(keys) || Right(keys)
  }

  /** `Math.max(0, Math.min(v, hi))`. */
  function Clamp(v: int, hi: int): (r: int)
    requires 0 <= hi
    ensures 0 <= r <= hi
    ensures 0 <= v <= hi ==> r == v
    ensures v < 0 ==> r == 0
    ensures v > hi ==> r == hi
  {
    var m := if v < hi then v else hi;
    if 0 > m then 0 else m
  }

  /** A coordinate read back from the element: `parseInt(...) || 0`. */
  function ReadPx(s: string): int {
    ParseInt(s).GetOr(0)
  }

  /** Where a move takes the element at `(x, y)` with `keys` held. */
  datatype Move = Move(x: int, y: int)

  function Target(x: int, y: int, keys: map<string, bool>): Move {
    Move(Clamp(x + Axis(Left(keys), Right(keys)), MAX_LEFT), Clamp(y + Axis(Up(keys), Down(keys)), MAX_TOP))
  }

  /** The page element of one's own character: its `style.left` and `style.top`. */
  class Element {
    var left: string
    var top: string

    constructor (left: string, top: string)
      ensures this.left == left && this.top == top
    {
      this.left := left;
      this.top := top;
    }
  }

  /**
   * `nameInput.value.trim().length >= 2`: a name is accepted, and the button enabled, when the
   * trimmed name is at least 2 UTF-16 code units long, so one character above U+FFFF is enough.
   */
  predicate Acceptable(value: string) {
    Utf16Length(Trim(value)) >= 2
  }

  /** Every field of a `Controller`, as a value. */
  datatype Fields = Fields(
    keys: map<string, bool>,
    isMoving: bool,
    lastBulletTime: int,
    firstInputReceived: bool,
    isGameActive: bool,
    playerName: string,
    gameLoopInterval: Option<nat>,
    loops: set<nat>,
    nextHandle: nat,
    nameValue: string,
    submitDisabled: bool,
    saved: Option<string>)

  class Controller {
    /** `this.keys`, by lower-cased key name. */
    var keys: map<string, bool>
    var isMoving: bool
    /** When the last bullet was sent, in milliseconds. */
    var lastBulletTime: int
    var firstInputReceived: bool
    var isGameActive: bool
    var playerName: string
    /** `gameLoopInterval`: the handle of the last local loop started. */
    var gameLoopInterval: Option<nat>
    /** The local loop timers registered with the host and never cleared. */
    var loops: set<nat>
    var nextHandle: nat
    /** The name field and whether its submit button is disabled. */
    var nameValue: string
    var submitDisabled: bool
    /** The name kept in the browser's storage. */
    var saved: Option<string>

    /** The whole state of the controller, so that a method can say what it leaves alone. */
    function State(): Fields
      reads this
    {
      Fields(keys, isMoving, lastBulletTime, firstInputReceived, isGameActive, playerName,
        gameLoopInterval, loops, nextHandle, nameValue, submitDisabled, saved)
    }

    /**
     * The constructor with `setupNameInput`: a stored name that is acceptable fills the name
     * field and enables the button; otherwise the field and button keep what the page gave them.
     */
    constructor (stored: Option<string>, pageValue: string, pageDisabled: bool)
      ensures keys == map[] && !isMoving && lastBulletTime == 0 && !firstInputReceived
      ensures !isGameActive && playerName == "" && gameLoopInterval == None && loops == {}
      ensures nextHandle == 0 && saved == stored
      ensures stored.Some? && stored.value != [] && Acceptable(stored.value) ==>
        nameValue == stored.value && !submitDisabled
      ensures !(stored.Some? && stored.value != [] && Acceptable(stored.value)) ==>
        nameValue == pageValue && submitDisabled == pageDisabled
    {
      keys := map[];
      isMoving := false;
      lastBulletTime := 0;
      firstInputReceived := false;
      isGameActive := false;
      playerName := "";
      gameLoopInterval := None;
      loops := {};
      nextHandle := 0;
      saved := stored;
      nameValue := pageValue;
      submitDisabled := pageDisabled;
      if stored.Some? && stored.value != [] && Utf16Length(Trim(stored.value)) >= 2 {
        nameValue := stored.value;
        submitDisabled := false;
      }
    }

    /** The `input` listener: the button is enabled exactly when the name is acceptable. */
    method OnNameInput(value: string)
      modifies this
      ensures nameValue == value && submitDisabled == !Acceptable(value)
      ensures State() == old(State()).(nameValue := nameValue, submitDisabled := submitDisabled)
    {
      nameValue := value;
      submitDisabled := Utf16Length(Trim(value)) < 2;
    }

    /** `startGameLoop`: a new local timer, registered without clearing the one before. */
    method StartGameLoop()
      modifies this
      ensures gameLoopInterval == Some(old(nextHandle)) && loops == old(loops) + {old(nextHandle)}
      ensures nextHandle == old(nextHandle) + 1
      ensures State() == old(State()).(gameLoopInterval := gameLoopInterval, loops := loops, nextHandle := nextHandle)
    {
      gameLoopInterval := Some(nextHandle);
      loops := loops + {nextHandle};
      nextHandle := nextHandle + 1;
    }

    /**
     * `submitName`: an acceptable name, trimmed, becomes the player's name, is stored, starts
     * the game and its local loop, and is handed to the socket client (`joined`); any other
     * name changes nothing.
     */
    method SubmitName() returns (joined: Option<string>)
      modifies this
      ensures joined.Some? <==> Acceptable(old(nameValue))
      ensures joined.Some? ==>
        && joined.value == Trim(old(nameValue))
        && playerName == joined.value && saved == joined && isGameActive
        && gameLoopInterval == Some(old(nextHandle)) && loops == old(loops) + {old(nextHandle)}
        && nextHandle == old(nextHandle) + 1
        && State() == old(State()).(playerName := playerName, saved := saved, isGameActive := true,
             gameLoopInterval := gameLoopInterval, loops := loops, nextHandle := nextHandle)
      ensures joined.None? ==> State() == old(State())
    {
      var name := Trim(nameValue);
      if Utf16Length(name) >= 2 {
        playerName := name;
        saved := Some(name);
        isGameActive := true;
        StartGameLoop();
        joined := Some(name);
      } else {
        joined := None;
      }
    }

    /** `clearSavedName`: forget the stored name, empty the field and disable the button. */
    method ClearSavedName()
      modifies this
      ensures State() == old(State()).(saved := None, nameValue := "", submitDisabled := true)
    {
      saved := None;
      nameValue := "";
      submitDisabled := true;
    }

    /** The `keydown` listener, with `hideInstructionsOnFirstInput`. */
    method KeyDown(key: string)
      modifies this
      ensures State() == old(State()).(keys := old(keys)[Lower(key) := true], firstInputReceived := true)
    {
      firstInputReceived := true;
      keys := keys[Lower(key) := true];
    }

    /** The `keyup` listener. */
    method KeyUp(key: string)
      modifies this
      ensures State() == old(State()).(keys := old(keys)[Lower(key) := false])
    {
      keys := keys[Lower(key) := false];
    }

    /** `stopGame`. */
    method StopGame()
      modifies this
      ensures State() == old(State()).(isGameActive := false)
    {
      isGameActive := false;
    }

    /**
     * `handleMovement`, for the frame's own element `character` (`null` when it is not on the
     * page): read its position, take a step per held direction key, clamp to the game area and,
     * if any key was held, write the position back and send it (`sent`).
     */
    method HandleMovement(character: Element?) returns (sent: Option<Move>)
      modifies this, character
      ensures !old(isGameActive) || character == null ==>
        sent == None && isMoving == old(isMoving)
      ensures old(isGameActive) && character != null ==>
        && (sent.Some? <==> AnyHeld(keys))
        && isMoving == sent.Some?
        && (sent.Some? ==> sent.value == Target(ReadPx(old(character.left)), ReadPx(old(character.top)), keys))
      ensures sent.Some? ==>
        && 0 <= sent.value.x <= MAX_LEFT && 0 <= sent.value.y <= MAX_TOP
        && character != null
        && character.left == FormatPx(sent.value.x) && character.top == FormatPx(sent.value.y)
      ensures sent.None? && character != null ==>
        character.left == old(character.left) && character.top == old(character.top)
      ensures State() == old(State()).(isMoving := isMoving)
    {
      sent := None;
      if !isGameActive {
        return;
      }
      if character == null {
        return;
      }
      var moved := false;
      var newX := ReadPx(character.left);
      var newY := ReadPx(character.top);
      ghost var x0, y0 := newX, newY;
      if Held(keys, "w") || Held(keys, "arrowup") {
        newY := newY - SPEED;
        moved := true;
      }
      if Held(keys, "s") || Held(keys, "arrowdown") {
        newY := newY + SPEED;
        moved := true;
      }
      if Held(keys, "a") || Held(keys, "arrowleft") {
        newX := newX - SPEED;
        moved := true;
      }
      if Held(keys, "d") || Held(keys, "arrowright") {
        newX := newX + SPEED;
        moved := true;
      }
      assert newX == x0 + Axis(Left(keys), Right(keys));
      assert newY == y0 + Axis(Up(keys), Down(keys));
      newX := Clamp(newX, MAX_LEFT);
      newY := Clamp(newY, MAX_TOP);
      if moved {
        character.left := FormatPx(newX);
        character.top := FormatPx(newY);
        sent := Some(Move(newX, newY));
        isMoving := true;
      } else {
        isMoving := false;
      }
    }

    /**
     * `handleMouseClick` at time `now`, with one's socket id `selfId` and the barrel tip and
     * angle `aim` the host computes from the element's box and the mouse position: unless the game is
     * inactive, the last shot is under 300 ms old or the element is missing, send a bullet whose
     * id is `<selfId>-<now>` and remember the time.
     */
    method HandleMouseClick(now: int, character: Element?, selfId: string, aim: Aim) returns (fired: Option<FirePayload>)
      modifies this
      ensures fired.Some? <==>
        old(isGameActive) && now - old(lastBulletTime) >= BULLET_COOLDOWN_MS && character != null
      ensures fired.Some? ==>
        fired.value == FirePayload(ShotId(selfId, now), aim.x, aim.y, aim.angle, None)
      ensures lastBulletTime == if fired.Some? then now else old(lastBulletTime)
      ensures State() == old(State()).(lastBulletTime := lastBulletTime)
    {
      fired := None;
      if !isGameActive {
        return;
      }
      if now - lastBulletTime < BULLET_COOLDOWN_MS {
        return;
      }
      if character == null {
        return;
      }
      fired := Some(FirePayload(selfId + "-" + IntToString(now), aim.x, aim.y, aim.angle, None));
      lastBulletTime := now;
    }
  }

  /** The barrel tip `(x, y)` and the angle a shot leaves at. */
  datatype Aim = Aim(x: real, y: real, angle: real)

  /** The id a shot fired at `now` carries. */
  function ShotId(selfId: string, now: int): string {
    selfId + "-" + IntToString(now)
  }

  // ---------------------------------------------------------------------------------------
  // Properties across calls

  /** Shots of one player fired at different times carry different ids. */
  lemma ShotIdInjective(selfId: string, t1: int, t2: int)
    requires ShotId(selfId, t1) == ShotId(selfId, t2)
    ensures t1 == t2
  {
    var p := selfId + "-";
    assert ShotId(selfId, t1) == p + IntToString(t1);
    assert ShotId(selfId, t2) == p + IntToString(t2);
    assert IntToString(t1) == ShotId(selfId, t1)[|p|..];
    assert IntToString(t2) == ShotId(selfId, t2)[|p|..];
    IntToStringInjective(t1, t2);
  }

  /**
   * The times at which a run of clicks at `clicks` sends a bullet, the last one having been
   * sent at `last`, with the game active and the element present throughout.
   */
  function Shots(last: int, clicks: seq<int>): seq<int>
    decreases |clicks|
  {
    if clicks == [] then []
    else if clicks[0] - last < BULLET_COOLDOWN_MS then Shots(last, clicks[1..])
    else [clicks[0]] + Shots(clicks[0], clicks[1..])
  }

  /**
   * Whatever the clock does, the shots of a run of clicks are spaced: the first at least 300 ms
   * after `last`, each one at least 300 ms after the one before; each is one of the clicks.
   */
  lemma {:induction false} ShotsSpaced(last: int, clicks: seq<int>)
    ensures forall i :: 0 <= i < |Shots(last, clicks)| ==> Shots(last, clicks)[i] in clicks
    ensures forall i :: 0 <= i < |Shots(last, clicks)| ==> Shots(last, clicks)[i] >= last + BULLET_COOLDOWN_MS
    ensures forall i, j :: 0 <= i < j < |Shots(last, clicks)| ==>
      Shots(last, clicks)[j] >= Shots(last, clicks)[i] + BULLET_COOLDOWN_MS
    decreases |clicks|
  {
    if clicks != [] {
      var rest := clicks[1..];
      assert forall c :: c in rest ==> c in clicks;
      if clicks[0] - last < BULLET_COOLDOWN_MS {
        ShotsSpaced(last, rest);
      } else {
        ShotsSpaced(clicks[0], rest);
        var s := Shots(clicks[0], rest);
        assert Shots(last, clicks) == [clicks[0]] + s;
        forall i, j | 0 <= i < j < |Shots(last, clicks)|
          ensures Shots(last, clicks)[j] >= Shots(last, clicks)[i] + BULLET_COOLDOWN_MS
        {
          assert Shots(last, clicks)[j] == s[j - 1];
          if i > 0 {
            assert Shots(last, clicks)[i] == s[i - 1];
          }
        }
      }
    }
  }

  /** So the ids of the bullets one player sends during a run of clicks are all different. */
  lemma ShotIdsDistinct(selfId: string, last: int, clicks: seq<int>, i: int, j: int)
    requires 0 <= i < j < |Shots(last, clicks)|
    ensures ShotId(selfId, Shots(last, clicks)[i]) != ShotId(selfId, Shots(last, clicks)[j])
  {
    ShotsSpaced(last, clicks);
    if ShotId(selfId, Shots(last, clicks)[i]) == ShotId(selfId, Shots(last, clicks)[j]) {
      ShotIdInjective(selfId, Shots(last, clicks)[i], Shots(last, clicks)[j]);
    }
  }

  /**
   * A move writes a position the next frame reads back unchanged, so movement accumulates:
   * `parseInt` of the written `<x>px` is `x`.
   */
  lemma MoveReadBack(m: Move)
    ensures ReadPx(FormatPx(m.x)) == m.x && ReadPx(FormatPx(m.y)) == m.y
  {
    ParseIntOfRendered(m.x, "px");
    ParseIntOfRendered(m.y, "px");
  }

  /**
   * One frame of movement from inside the area never leaves it and moves at most one step per
   * axis; opposite keys cancel on their axis, and a frame with no key held stays in place.
   */
  lemma TargetBounded(x: int, y: int, keys: map<string, bool>)
    requires 0 <= x <= MAX_LEFT && 0 <= y <= MAX_TOP
    ensures var m := Target(x, y, keys);
      && 0 <= m.x <= MAX_LEFT && 0 <= m.y <= MAX_TOP
      && -SPEED <= m.x - x <= SPEED && -SPEED <= m.y - y <= SPEED
      && (Left(keys) == Right(keys) ==> m.x == x)
      && (Up(keys) == Down(keys) ==> m.y == y)
      && (!AnyHeld(keys) ==> m == Move(x, y))
  {
  }

  /**
   * A name made of the one character U+1D49C is accepted: it is a single character, but two
   * UTF-16 code units long.
   */
  lemma AstralNameAccepted()
    ensures |"\U{1D49C}"| == 1 && Acceptable("\U{1D49C}")
  {
    var s := "\U{1D49C}";
    assert !IsWhite(s[0]);
    assert Trim(s) == s;
    assert Utf16Length(s) == Utf16Length(s[..0]) + 2;
  }

  /**
   * A name that was accepted is still acceptable when it is read back from storage at the next
   * visit, and fills the field again.
   */
  lemma SavedNameRestored(value: string)
    requires Acceptable(value)
    ensures Trim(value) != [] && Acceptable(Trim(value))
  {
    TrimIdempotent(value);
  }
}
