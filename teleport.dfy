/**
 * What the game reads and writes on a Box2D body, and the fixed conversion between the
 * simulation's units and the screen's. Box2D itself is not modelled: its step arrives as new
 * body states, and its ray casts arrive as their results.
 */
module Bodies {
  /** Screen units per simulation unit (`Physics.prototype.scale`). */
  const Scale: real := 30.0
  /** Friction of every fixture the game creates (`defaultFriction`). */
  const DefaultFriction: real := 0.6

  /**
   * One body: centre and angle in simulation units, linear velocity, whether the body takes
   * part in the simulation (`SetActive`), and the friction of its fixture.
   */
  datatype Body = Body(x: real, y: real, angle: real, vx: real, vy: real, active: bool, friction: real)

  /** Where one physics step leaves a body that takes part in the simulation: centre, angle and velocity. */
  datatype Kinematics = Kinematics(x: real, y: real, angle: real, vx: real, vy: real)

  /**
   * Body `b` after one physics step whose outcome for it is `k`. An inactive body does not
   * move. The step never changes whether a body is active, nor its friction.
   */
  function Simulated(b: Body, k: Kinematics): (r: Body)
    ensures r.active == b.active && r.friction == b.friction
    ensures b.active ==> r.x == k.x && r.y == k.y && r.angle == k.angle && r.vx == k.vx && r.vy == k.vy
    ensures !b.active ==> r == b
  {
    if b.active then b.(x := k.x, y := k.y, angle := k.angle, vx := k.vx, vy := k.vy) else b
  }

  /** An axis-aligned box in screen units (left, top, width, height): platforms, walls, jump plates. */
  datatype Rect = Rect(left: real, top: real, width: real, height: real)

  /** `updateGameObjPosition`: the screen left edge of an object of this width riding on body `b`. */
  function PoseLeft(b: Body, width: real): real {
    b.x * Scale - width / 2.0
  }

  /** `updateGameObjPosition`: the screen top edge of an object of this height riding on body `b`. */
  function PoseTop(b: Body, height: real): real {
    b.y * Scale - height / 2.0
  }

  /**
   * `addGameObj`: the body created for a box given in screen units, at rest, active and with
   * the default friction. Reading the pose back gives the box it was made from.
   */
  function BodyFor(left: real, top: real, width: real, height: real, angle: real): (b: Body)
    ensures PoseLeft(b, width) == left && PoseTop(b, height) == top && b.angle == angle
    ensures b.active && b.friction == DefaultFriction && b.vx == 0.0 && b.vy == 0.0
  {
    Body(left / Scale + width / Scale / 2.0, top / Scale + height / Scale / 2.0, angle, 0.0, 0.0, true, DefaultFriction)
  }
}

/**
 * The rules of the teleport state machine that every portalable object runs on each update:
 * the signed `beingPortaled` counter, the `justPortaled` cooldown, and where and how fast an
 * object leaves the destination portal.
 */
module Teleport {
  import opened Bodies
  import opened Options

  /** Updates spent on each side of a teleport (`beingPortaledMaxFrames`). */
  const MaxFrames: int := 4
  /** Updates during which a teleported object cannot be captured again (`justPortaledFramesWait`). */
  const CooldownFrames: int := 15

  /**
   * The counter after one update, for threshold `n`: 0 is idle, a positive value counts up to
   * `n` while the object enters, reaching `n` flips it to `-n`, and a negative value counts up to 0.
   */
  function CounterStep(n: int, c: int): (r: int)
    ensures 1 <= n && -n <= c <= n ==> -n <= r <= n
    ensures 1 <= n ==> (r == 0 <==> c == 0 || c == -1)
    ensures 1 <= n && c > 0 ==> r > c || r == -c
  {
    if c == 0 then 0 else if c >= n then -c else c + 1
  }

  /** The counter after `k` updates. */
  function CounterAfter(n: int, c: int, k: nat): int {
    if k == 0 then c else CounterStep(n, CounterAfter(n, c, k - 1))
  }

  /**
   * From a capture (counter 1), update `k` gives `k + 1` while entering and `k - 2n` while
   * leaving, for every threshold `n`.
   */
  lemma {:induction false} CounterSequence(n: int, k: nat)
    requires 1 <= n && k <= 2 * n
    ensures CounterAfter(n, 1, k) == if k < n then k + 1 else k - 2 * n
  {
    if k > 0 {
      CounterSequence(n, k - 1);
    }
  }

  /**
   * A teleport lasts exactly `2n` updates: the counter is non-zero and within `-n..n` on each
   * of them, and 0 after the last.
   */
  lemma TeleportLastsTwiceMaxFrames(n: int)
    requires 1 <= n
    ensures CounterAfter(n, 1, 2 * n) == 0
    ensures forall k: nat :: k < 2 * n ==> CounterAfter(n, 1, k) != 0 && -n <= CounterAfter(n, 1, k) <= n
  {
    CounterSequence(n, 2 * n);
    forall k: nat | k < 2 * n
      ensures CounterAfter(n, 1, k) != 0 && -n <= CounterAfter(n, 1, k) <= n
    {
      CounterSequence(n, k);
    }
  }

  /**
   * The position write happens on exactly one update of a teleport: the one that starts with
   * the counter at `n` or more, the `n`-th after the capture.
   */
  lemma TeleportWritesOnce(n: int)
    requires 1 <= n
    ensures forall k: nat :: k < 2 * n ==> (CounterAfter(n, 1, k) >= n <==> k == n - 1)
  {
    forall k: nat | k < 2 * n
      ensures CounterAfter(n, 1, k) >= n <==> k == n - 1
    {
      CounterSequence(n, k);
    }
  }

  /** With the game's threshold the counter runs 1, 2, 3, 4, -4, -3, -2, -1, 0. */
  lemma FourFrameSequence()
    ensures seq(9, k requires 0 <= k < 9 => CounterAfter(MaxFrames, 1, k)) == [1, 2, 3, 4, -4, -3, -2, -1, 0]
  {
    forall k: nat | k < 9
      ensures CounterAfter(MaxFrames, 1, k) == [1, 2, 3, 4, -4, -3, -2, -1, 0][k]
    {
      CounterSequence(MaxFrames, k);
    }
  }

  /**
   * `justPortaled` after one update that starts with counter `c`: set to the full cooldown on
   * the update that ends a teleport and, like any non-zero value, decremented in the same update.
   */
  function CooldownStep(c: int, j: int): (r: int)
    ensures c == -1 ==> r == CooldownFrames - 1
    ensures 0 <= j < CooldownFrames ==> 0 <= r < CooldownFrames
    ensures c != -1 ==> r == if j != 0 then j - 1 else 0
  {
    var j' := if c != 0 && CounterStep(MaxFrames, c) == 0 then CooldownFrames else j;
    if j' != 0 then j' - 1 else j'
  }

  /** The cooldown after `k` updates of an idle object. */
  function CooldownAfter(j: int, k: nat): int {
    if k == 0 then j else CooldownStep(0, CooldownAfter(j, k - 1))
  }

  /** An idle object's cooldown goes down by one per update until it reaches 0. */
  lemma {:induction false} CooldownCountsDown(j: int, k: nat)
    requires 0 <= j
    ensures CooldownAfter(j, k) == if k <= j then j - k else 0
  {
    if k > 0 {
      CooldownCountsDown(j, k - 1);
    }
  }

  /**
   * After the update that ends a teleport, the object stays in cooldown (and so cannot be
   * captured) for 13 more updates, and is free again after the 14th.
   */
  lemma CooldownAfterTeleport()
    ensures forall k: nat :: k < CooldownFrames - 1 ==> CooldownAfter(CooldownStep(-1, 0), k) != 0
    ensures CooldownAfter(CooldownStep(-1, 0), CooldownFrames - 1) == 0
  {
    var start := CooldownStep(-1, 0);
    forall k: nat | k <= start
      ensures CooldownAfter(start, k) == start - k
    {
      CooldownCountsDown(start, k);
    }
  }

  /**
   * The simulation-space centre written on the teleport update: the destination portal's
   * centre, moved off its face by half the object's height plus the portal's thickness (up for a
   * top-mounted portal, down otherwise).
   */
  function ExitPosition(gotoX: real, gotoY: real, gotoHeight: real, gotoOnTop: bool, height: real): (p: (real, real))
    ensures p.0 * Scale == gotoX
    ensures p.1 * Scale == if gotoOnTop then gotoY - (height / 2.0 + gotoHeight) else gotoY + (height / 2.0 + gotoHeight)
  {
    var modY := (height / 2.0 + gotoHeight) / Scale;
    (gotoX / Scale, if gotoOnTop then gotoY / Scale - modY else gotoY / Scale + modY)
  }

  /** Screen y grows downwards: moving down onto a top face, or up onto a bottom face, enters it. */
  predicate MovesInto(onTop: bool, vy: real) {
    if onTop then vy > 0.0 else vy < 0.0
  }

  /** Moving up off a top face, or down off a bottom face, leaves it. */
  predicate MovesAway(onTop: bool, vy: real) {
    if onTop then vy < 0.0 else vy > 0.0
  }

  /**
   * Vertical velocity after the teleport: mirrored when the two portals' `onTop` values are
   * identical. The speed is kept, and a moving object leaves the destination face exactly
   * when it was moving into its source face.
   */
  function ExitVelocityY(fromOnTop: Option<bool>, gotoOnTop: Option<bool>, vy: real): (r: real)
    ensures r == vy || r == -vy
    ensures fromOnTop.Some? && gotoOnTop.Some? && MovesInto(fromOnTop.value, vy) ==> MovesAway(gotoOnTop.value, r)
    ensures vy != 0.0 && fromOnTop.Some? && gotoOnTop.Some? ==>
      (MovesInto(fromOnTop.value, vy) <==> MovesAway(gotoOnTop.value, r))
  {
    if fromOnTop == gotoOnTop then -vy else vy
  }

  /** What the teleport machine reads from a portal: its centre, its thickness and the face it sits on. */
  datatype Face = Face(centerX: real, centerY: real, height: real, onTop: Option<bool>)

  /**
   * The body after one update of the teleport machine that starts with counter `c`: moved out
   * of the destination portal on the update that starts at the threshold or above, reactivated
   * unless exiting on the update that ends the teleport, and untouched on the others.
   */
  function TeleportBody(b: Body, c: int, exiting: bool, from: Face, goto: Face, height: real): (r: Body)
    ensures c >= MaxFrames ==>
      (r.x, r.y) == ExitPosition(goto.centerX, goto.centerY, goto.height, goto.onTop == Some(true), height)
      && r.vx == b.vx && r.vy == ExitVelocityY(from.onTop, goto.onTop, b.vy)
      && r.angle == b.angle && r.active == b.active && r.friction == b.friction
    ensures c == -1 ==> r == b.(active := !exiting)
    ensures c < MaxFrames && c != -1 ==> r == b
    ensures r.vx == b.vx && r.angle == b.angle && r.friction == b.friction
  {
    if c >= MaxFrames then
      var p := ExitPosition(goto.centerX, goto.centerY, goto.height, goto.onTop == Some(true), height);
      b.(x := p.0, y := p.1, vy := ExitVelocityY(from.onTop, goto.onTop, b.vy))
    else if c != 0 && CounterStep(MaxFrames, c) == 0 then
      b.(active := !exiting)
    else
      b
  }
}
