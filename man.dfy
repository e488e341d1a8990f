/**
 * The stick man and the joint that ties a held object to his portal gun: movement, the leg
 * cycle, the action taken on a mouse press (release, pick up or fire a portal), and the physics
 * world's joint bookkeeping for holding.
 */
module StickMan {
  import opened Options
  import opened Lists
  import opened Bodies
  import opened Teleport
  import opened Rules
  import opened Entities

  /** Greatest distance, in screen units, between the man's centre and a held object's (`maxHoldDistance`). */
  const MaxHoldDistance: real := 100.0

  /**
   * The joints of the physics world, as identities: `joints` are those that exist, and
   * `nextJoint` is the identity the next created joint gets.
   */
  class Physics {
    var joints: set<nat>
    var nextJoint: nat

    /** Every existing joint was created before the next one. */
    predicate Valid()
      reads this
    {
      forall j :: j in joints ==> j < nextJoint
    }

    /** A physics world without joints. */
    constructor()
      ensures joints == {} && Valid()
    {
      joints := {};
      nextJoint := 0;
    }

    /**
     * `attachStickmanHeldObj`: the held object loses its friction and one new joint ties it to
     * the man, who records both.
     */
    method Attach(man: Man, held: Portalable)
      requires Valid()
      modifies this, man`heldObj, man`heldObjJoint, held`body
      ensures Valid()
      ensures old(nextJoint) !in old(joints) && joints == old(joints) + {old(nextJoint)} && nextJoint == old(nextJoint) + 1
      ensures held.body == old(held.body).(friction := 0.0)
      ensures man.heldObj == held && man.heldObjJoint == Some(old(nextJoint))
    {
      held.body := held.body.(friction := 0.0);
      var j := nextJoint;
      joints := joints + {j};
      nextJoint := nextJoint + 1;
      man.heldObjJoint := Some(j);
      man.heldObj := held;
    }

    /**
     * `releaseStickmanHeldObj`: the man's joint, if he has one, is destroyed, the object he
     * holds gets the default friction back, and he holds nothing.
     */
    method Release(man: Man)
      requires Valid() && man.heldObj != null
      modifies this, man`heldObj, man`heldObjJoint, man.heldObj`body
      ensures Valid() && nextJoint == old(nextJoint)
      ensures joints == if old(man.heldObjJoint).Some? then old(joints) - {old(man.heldObjJoint).value} else old(joints)
      ensures old(man.heldObj).body == old(man.heldObj.body).(friction := DefaultFriction)
      ensures man.heldObj == null && man.heldObjJoint == None
    {
      if man.heldObjJoint.Some? {
        joints := joints - {man.heldObjJoint.value};
      }
      man.heldObj.body := man.heldObj.body.(friction := DefaultFriction);
      man.heldObj := null;
      man.heldObjJoint := None;
    }

    /**
     * `updateStickmanHeldObj`: release, then attach `held` again, so that the joint follows
     * the gun. The man's old joint is replaced by one new joint.
     */
    method Reattach(man: Man, held: Portalable)
      requires Valid() && man.heldObj != null
      modifies this, man`heldObj, man`heldObjJoint, man.heldObj`body, held`body
      ensures Valid()
      ensures joints == (if old(man.heldObjJoint).Some? then old(joints) - {old(man.heldObjJoint).value} else old(joints)) + {old(nextJoint)}
      ensures old(nextJoint) !in old(joints) && nextJoint == old(nextJoint) + 1
      ensures held.body == old(held.body).(friction := 0.0)
      ensures held != old(man.heldObj) ==> old(man.heldObj).body == old(man.heldObj.body).(friction := DefaultFriction)
      ensures man.heldObj == held && man.heldObjJoint == Some(old(nextJoint))
    {
      Release(man);
      Attach(man, held);
    }
  }

  /**
   * What the two rays cast below the man hit (`somethingUnderfoot`): nothing, something
   * that is not a game object the man can pick up (a platform, wall, jump plate or bullet),
   * or a portalable object.
   */
  datatype Footing = Air | Fixed | Thing(obj: Portalable)

  /** The object underfoot, if it is a portalable one. */
  function Underfoot(f: Footing): Portalable? {
    if f.Thing? then f.obj else null
  }

  /** Whether the man stands on an object he could also pick up, which his jump pushes down. */
  predicate Pushable(f: Footing) {
    f.Thing? && f.obj.canBePickedUp
  }

  /**
   * What the man senses on one update: what is underfoot, whether his smoothed position has
   * stopped changing (the stuck test), the aim angle from his centre to the mouse with its
   * cosine and sine, and what the pick-up ray along that angle hits (`null` for nothing).
   */
  datatype Sense = Sense(footing: Footing, stuck: bool, armAngle: real, cos: real, sin: real, pickup: Portalable?)

  /** The man's velocity and jump intent. */
  datatype MoveState = MoveState(vx: real, vy: real, jumping: int)

  /** A jump starts when something is underfoot and the jump intent is live while he is nearly still vertically. */
  predicate Jumps(m: MoveState, footed: bool) {
    footed && CanJump(m.jumping, m.vy)
  }

  /** Whether a man in motion `m` jumps off the object he holds, `held`, which releases it. */
  predicate JumpsOffHeld(m: MoveState, footing: Footing, held: Portalable?) {
    Jumps(m, !footing.Air?) && Pushable(footing) && footing.obj == held
  }

  /**
   * The movement part of `Man.update`, where an impulse changes velocity by impulse over mass:
   * with something underfoot he jumps, or runs with the ground acceleration; in the air he is
   * pushed free when stuck, or runs with the air acceleration.
   */
  function MoveStep(m: MoveState, running: bool, facing: int, footed: bool, pushable: bool, stuck: bool): (r: MoveState)
    ensures Jumps(m, footed) ==>
      r.vy == m.vy - JumpSpeed && r.vy < 0.0 && r.vx == m.vx && r.jumping == (if pushable then 0 else m.jumping)
    ensures footed && !Jumps(m, footed) ==>
      r.vy == m.vy && r.jumping == m.jumping && r.vx == (if running then RunVelocity(m.vx, facing, GroundAccel) else m.vx)
    ensures !footed && !stuck ==>
      r.vy == m.vy && r.jumping == m.jumping && r.vx == (if running then RunVelocity(m.vx, facing, AirAccel) else m.vx)
    ensures !footed && stuck ==>
      r.jumping == 0
      && r.vx == m.vx + (if running then RunSpeed * GroundAccel * facing as real else 0.0)
      && r.vy == m.vy + (if m.jumping != 0 then -JumpSpeed * 0.3 else if running then 0.0 else JumpSpeed * 0.2)
    ensures !running && m.jumping == 0 && (footed || !stuck) ==> r == m
    ensures r.jumping == m.jumping || r.jumping == 0
    ensures (footed || !stuck) && -1 <= facing <= 1 ==> Abs(r.vx) <= Max(Abs(m.vx), RunSpeed)
  {
    if footed then
      if CanJump(m.jumping, m.vy) then
        MoveState(m.vx, m.vy - JumpSpeed, if pushable then 0 else m.jumping)
      else if running then
        MoveState(RunVelocity(m.vx, facing, GroundAccel), m.vy, m.jumping)
      else m
    else if stuck then
      if m.jumping != 0 || running then
        var ix := if running then RunSpeed * GroundAccel * facing as real else 0.0;
        var iy := if m.jumping != 0 then -JumpSpeed * 0.3 else 0.0;
        MoveState(m.vx + ix, m.vy + iy, 0)
      else
        MoveState(m.vx, m.vy + JumpSpeed * 0.2, m.jumping)
    else if running then
      MoveState(RunVelocity(m.vx, facing, AirAccel), m.vy, m.jumping)
    else m
  }

  /** The jump intent after the countdown at the end of the movement part. */
  function JumpCountdown(jumping: int): (r: int)
    ensures 0 <= jumping ==> 0 <= r <= jumping && (r == jumping <==> jumping == 0)
  {
    if jumping > 0 then jumping - 1 else jumping
  }

  /** A jump intent left alone lasts `JumpFrames` updates. */
  function JumpAfter(jumping: int, k: nat): int {
    if k == 0 then jumping else JumpCountdown(JumpAfter(jumping, k - 1))
  }

  /** A key press keeps the jump intent live for exactly `JumpFrames` updates unless a jump uses it up. */
  lemma {:induction false} JumpIntentLasts(k: nat)
    ensures JumpAfter(JumpFrames, k) == if k < JumpFrames then JumpFrames - k else 0
  {
    if k > 0 {
      JumpIntentLasts(k - 1);
    }
  }

  /** What the man does on one update about holding and firing. */
  datatype Action = Release | PickUp | Fire | Reattach | Keep

  /**
   * The action dispatch of `Man.update`: on a mouse press, exactly one of release (when
   * holding), pick up (when the pick-up ray finds an object that can be picked up) or fire;
   * without one, a held object is released when too far and re-attached when the aim has turned.
   */
  function ChooseAction(mouseDown: bool, holding: bool, canPick: bool, tooFar: bool, turned: bool): (a: Action)
    ensures mouseDown ==> a == Release || a == PickUp || a == Fire
    ensures a == Release <==> holding && (mouseDown || tooFar)
    ensures a == PickUp <==> mouseDown && !holding && canPick
    ensures a == Fire <==> mouseDown && !holding && !canPick
    ensures a == Reattach <==> !mouseDown && holding && !tooFar && turned
  {
    if mouseDown then
      if holding then Release else if canPick then PickUp else Fire
    else if holding then
      if tooFar then Release else if turned then Reattach else Keep
    else Keep
  }

  /**
   * What the man holds, and by which joint, after action `a`: `held` and `joint` are what he
   * held before, `pickup` what the pick-up ray found and `next` the identity the physics world
   * gives its next joint. Release lets go; pick-up and re-attach tie by a new joint; firing and
   * keeping leave the hold as it was.
   */
  function HoldAfter(a: Action, held: Portalable?, joint: Option<nat>, pickup: Portalable?, next: nat): (Portalable?, Option<nat>) {
    match a
    case Release => (null, None)
    case PickUp => (pickup, Some(next))
    case Reattach => (held, Some(next))
    case Fire => (held, joint)
    case Keep => (held, joint)
  }

  /**
   * The friction rule for an object `o` other than the man's own, whose body goes from
   * `before` to `after` while his hold goes from `oldHeld` to `held`: it stays in or out of
   * the simulation; an object he holds has friction 0, or keeps its friction when he already
   * held it; one he let go of gets the default friction back; any other keeps its friction.
   */
  predicate FollowsFriction(o: Portalable, held: Portalable?, oldHeld: Portalable?, before: Body, after: Body) {
    after.active == before.active
    && (o == held ==> after.friction == 0.0 || (o == oldHeld && after.friction == before.friction))
    && (o != held ==> after.friction == if o == oldHeld then DefaultFriction else before.friction)
  }

  /**
   * An object `o` whose body goes from `before` to `after` stays in or out of the simulation
   * and keeps its friction, except that the object `released` gets the default friction back.
   */
  predicate KeepsFriction(o: Portalable, released: Portalable?, before: Body, after: Body) {
    after.active == before.active && after.friction == if o == released then DefaultFriction else before.friction
  }

  /**
   * A move that at most releases the held object (`held0` to `mid`), followed by an action
   * that follows the friction rule from `mid` to `held2`, follows the friction rule from
   * `held0` to `held2`.
   */
  lemma FrictionComposes(o: Portalable, held0: Portalable?, mid: Portalable?, held2: Portalable?, b0: Body, b1: Body, b2: Body)
    requires mid == null || mid == held0
    requires KeepsFriction(o, if mid == null then held0 else null, b0, b1)
    requires FollowsFriction(o, held2, mid, b1, b2)
    ensures FollowsFriction(o, held2, held0, b0, b2)
  {
  }

  /** Whether some portal of `ps` has the given colour. */
  predicate HasColour(ps: seq<Portal>, blue: bool) {
    exists i :: 0 <= i < |ps| && ps[i].isBlue == blue
  }

  /** The portals of `ps` not of the given colour, in their order (the comprehension in `shootPortal`). */
  function WithoutColour(ps: seq<Portal>, blue: bool): (r: seq<Portal>)
    ensures forall i :: 0 <= i < |r| ==> r[i] in ps && r[i].isBlue != blue
    ensures forall i :: 0 <= i < |ps| && ps[i].isBlue != blue ==> ps[i] in r
    ensures !HasColour(ps, blue) ==> r == ps
    ensures |r| <= |ps|
    ensures r == Filter(ps, (p: Portal) => p.isBlue != blue)
  {
    if ps == [] then []
    else
      var rest := WithoutColour(ps[1..], blue);
      assert forall i :: 0 < i < |ps| ==> ps[i] == ps[1..][i - 1];
      assert !HasColour(ps, blue) ==> !HasColour(ps[1..], blue) && ps[0].isBlue != blue by {
        if !HasColour(ps, blue) {
          forall i | 0 <= i < |ps[1..]| ensures ps[1..][i].isBlue != blue {
            assert ps[1..][i] == ps[i + 1];
          }
        }
      }
      (if ps[0].isBlue != blue then [ps[0]] else []) + rest
  }

  /** Dropping one colour keeps the other colours one portal each. */
  lemma {:induction false} WithoutColourKeepsOnePerColour(ps: seq<Portal>, blue: bool)
    requires OnePerColour(ps)
    ensures OnePerColour(WithoutColour(ps, blue))
  {
    if ps != [] {
      assert OnePerColour(ps[1..]) by {
        forall i, j | 0 <= i < j < |ps[1..]| ensures ps[1..][i].isBlue != ps[1..][j].isBlue {
          assert ps[1..][i] == ps[i + 1] && ps[1..][j] == ps[j + 1];
        }
      }
      WithoutColourKeepsOnePerColour(ps[1..], blue);
      var rest := WithoutColour(ps[1..], blue);
      forall k | 0 <= k < |rest| ensures rest[k].isBlue != ps[0].isBlue {
        var n :| 1 <= n < |ps| && ps[n] == rest[k];
      }
    }
  }

  /**
   * `ps'` is `ps` after a shot of the given colour from (`x`, `y`) along `angle`: the portals of
   * the other colour in their order, then a new portal of that colour in flight.
   */
  predicate Shot(ps: seq<Portal>, ps': seq<Portal>, blue: bool, x: real, y: real, angle: real)
    reads ps'
  {
    |ps'| == |WithoutColour(ps, blue)| + 1 && ps'[..|ps'| - 1] == WithoutColour(ps, blue)
    && var p := ps'[|ps'| - 1];
    p.isBlue == blue && p.centerX == x && p.centerY == y && p.angle == angle
    && p.velocity == PortalSpeed && p.onTop == None && !p.attached && p.age == 0
  }

  /**
   * After a shot exactly one portal has the fired colour, the new one at the end of the list,
   * and a list with one portal per colour keeps that property.
   */
  lemma ShotKeepsOnePerColour(ps: seq<Portal>, ps': seq<Portal>, blue: bool, x: real, y: real, angle: real)
    requires Shot(ps, ps', blue, x, y, angle)
    ensures ps'[|ps'| - 1].isBlue == blue
    ensures forall i :: 0 <= i < |ps'| - 1 ==> ps'[i].isBlue != blue
    ensures OnePerColour(ps) ==> OnePerColour(ps')
  {
    var rest := WithoutColour(ps, blue);
    forall i | 0 <= i < |ps'| - 1 ensures ps'[i].isBlue != blue {
      assert ps'[i] == rest[i];
    }
    if OnePerColour(ps) {
      WithoutColourKeepsOnePerColour(ps, blue);
      assert ps' == rest + [ps'[|ps'| - 1]];
      AppendOtherColour(rest, ps'[|ps'| - 1]);
    }
  }

  /**
   * A shot keeps the portals consistent and one per colour: the new one is in flight at full
   * speed, of the colour it replaces, and the others were already listed.
   */
  lemma ShotKeeps(ps: seq<Portal>, ps': seq<Portal>, blue: bool, x: real, y: real, angle: real)
    requires Shot(ps, ps', blue, x, y, angle) && OnePerColour(ps) && AllValid(ps)
    ensures OnePerColour(ps') && AllValid(ps')
  {
    ShotKeepsOnePerColour(ps, ps', blue, x, y, angle);
    var rest := WithoutColour(ps, blue);
    forall i | 0 <= i < |ps'| ensures ps'[i].Valid() {
      if i < |ps'| - 1 {
        assert ps'[i] == rest[i];
        var j :| 0 <= j < |ps| && ps[j] == rest[i];
      }
    }
  }

  /** A portal whose colour no portal of `ps` has can join them. */
  lemma AppendOtherColour(ps: seq<Portal>, p: Portal)
    requires OnePerColour(ps) && forall i :: 0 <= i < |ps| ==> ps[i].isBlue != p.isBlue
    ensures OnePerColour(ps + [p])
  {
  }

  /**
   * Where a portal fired along the aim (`cos`, `sin`) starts: half the man's width from the
   * centre of his box.
   */
  function Muzzle(left: real, top: real, width: real, height: real, cos: real, sin: real): (real, real) {
    (left + width / 2.0 + cos * width / 2.0, top + height / 2.0 + sin * width / 2.0)
  }

  class Man {
    const core: Portalable
    /** Leg pose and the updates it still holds (`legs`, `legFrameWait`). */
    var legs: int
    var legFrameWait: int
    /** Run direction, -1, 0 (never set) or 1, and whether a run key is held. */
    var facing: int
    var running: bool
    /** Updates the jump intent stays live. */
    var jumping: int
    var armAngle: real
    var lastArmAngle: real
    var shootOrangeNext: bool
    var heldObj: Portalable?
    /** The joint tying the held object to the gun, as its identity in the physics world. */
    var heldObjJoint: Option<nat>

    function Legs(): Legs
      reads this`legs, this`legFrameWait
    {
      Rules.Legs(legs, legFrameWait)
    }

    function Motion(): MoveState
      reads this`jumping, core`body
    {
      MoveState(core.body.vx, core.body.vy, jumping)
    }

    /**
     * The man's body cannot be picked up; counters are in range; he holds an object, one that
     * can be picked up, exactly when he has a joint.
     */
    predicate Valid()
      reads this, core
    {
      core.Valid() && !core.canBePickedUp
      && LegsValid(Legs()) && 0 <= jumping <= JumpFrames && -1 <= facing <= 1
      && (heldObj == null <==> heldObjJoint == None)
      && (heldObj != null ==> heldObj.canBePickedUp)
    }

    /** The physics world's joints are exactly the man's joint, if he has one. */
    predicate JointsMatch(physics: Physics)
      reads this, physics
    {
      physics.joints == (if heldObjJoint.Some? then {heldObjJoint.value} else {})
      && (heldObjJoint.Some? ==> heldObjJoint.value < physics.nextJoint)
    }

    /** Whether the held object's centre is more than `MaxHoldDistance` from the man's (compared squared). */
    predicate TooFar()
      reads this, core, heldObj
    {
      heldObj != null &&
      var dx := core.left + core.width / 2.0 - (heldObj.left + heldObj.width / 2.0);
      var dy := core.top + core.height / 2.0 - (heldObj.top + heldObj.height / 2.0);
      dx * dx + dy * dy > MaxHoldDistance * MaxHoldDistance
    }

    /** Whether the aim has turned more than a tenth of a radian since the object was attached. */
    predicate Turned()
      reads this
    {
      Abs(armAngle - lastArmAngle) > 0.1
    }

    /** The `Man` constructor (50 by 50, standing, idle) and his body. */
    constructor(left: real, top: real)
      ensures fresh(core) && core.left == left && core.top == top && core.width == 50.0 && core.height == 50.0
      ensures core.body == BodyFor(left, top, 50.0, 50.0, 0.0) && core.Ready() && core.gotoPortal == null
      ensures Legs() == Rules.Legs(LegStand, 0) && facing == 0 && !running && jumping == 0
      ensures heldObj == null && heldObjJoint == None && !shootOrangeNext
      ensures Valid()
    {
      core := new Portalable(left, top, 50.0, 50.0, 0.0, false);
      legs := LegStand;
      legFrameWait := 0;
      facing := 0;
      running := false;
      jumping := 0;
      armAngle := 0.0;
      lastArmAngle := 0.0;
      shootOrangeNext := false;
      heldObj := null;
      heldObjJoint := None;
    }

    /** A run key goes down: run in `direction`. */
    method Run(direction: int)
      requires direction == -1 || direction == 1
      modifies this`running, this`facing
      ensures running && facing == direction
    {
      running := true;
      facing := direction;
    }

    /** A run key goes up. */
    method Stop()
      modifies this`running
      ensures !running
    {
      running := false;
    }

    /** The jump key goes down: the intent stays live for `JumpFrames` updates. */
    method Jump()
      modifies this`jumping
      ensures jumping == JumpFrames
    {
      jumping := JumpFrames;
    }

    /**
     * The movement part of `Man.update` for a man that is neither teleporting nor exiting. A
     * jump off an object he could pick up pushes it down, and releases it if he was holding it,
     * which also clears the mouse press.
     */
    method Move(physics: Physics, footing: Footing, stuck: bool, mouseDown: bool) returns (mouseDown': bool)
      requires Valid() && physics.Valid() && JointsMatch(physics)
      requires Underfoot(footing) != core
      modifies this`jumping, core`body, physics, this`heldObj, this`heldObjJoint, {heldObj, Underfoot(footing)}`body
      ensures Valid() && physics.Valid() && JointsMatch(physics)
      ensures Motion() == MoveStep(old(Motion()), running, facing, !footing.Air?, Pushable(footing), stuck)
      ensures core.body == old(core.body).(vx := core.body.vx, vy := core.body.vy)
      ensures var kick := Jumps(old(Motion()), !footing.Air?) && Pushable(footing);
        var drop := kick && footing.obj == old(heldObj);
        (kick ==> footing.obj.body == old(footing.obj.body).(vy := old(footing.obj.body.vy) + JumpSpeed * 0.5,
                                                            friction := footing.obj.body.friction))
        && (drop ==> heldObj == null && heldObjJoint == None && !mouseDown'
                     && footing.obj.body.friction == DefaultFriction
                     && physics.joints == old(physics.joints) - {old(heldObjJoint).value})
        && (!drop ==> heldObj == old(heldObj) && heldObjJoint == old(heldObjJoint) && mouseDown' == mouseDown
                      && physics.joints == old(physics.joints))
        && (kick && !drop ==> footing.obj.body.friction == old(footing.obj.body.friction))
        && (!kick && footing.Thing? && footing.obj != core ==> footing.obj.body == old(footing.obj.body))
        && (old(heldObj) != null && !(footing.Thing? && old(heldObj) == footing.obj) ==> old(heldObj).body == old(heldObj.body))
      ensures physics.nextJoint == old(physics.nextJoint)
      ensures heldObj == null || heldObj == old(heldObj)
      ensures var released := if heldObj == null then old(heldObj) else null;
        forall o: Portalable :: old(allocated(o)) ==> KeepsFriction(o, released, old(o.body), o.body)
    {
      mouseDown' := mouseDown;
      var footed := !footing.Air?;
      var jump := Jumps(Motion(), footed);
      var m := MoveStep(Motion(), running, facing, footed, Pushable(footing), stuck);
      core.body := core.body.(vx := m.vx, vy := m.vy);
      jumping := m.jumping;
      if jump && Pushable(footing) {
        var obj := footing.obj;
        obj.body := obj.body.(vy := obj.body.vy + JumpSpeed * 0.5);
        if heldObj != null && obj == heldObj {
          physics.Release(this);
          mouseDown' := false;
        }
      }
    }

    /** `updateLegs`, as one step of the leg machine. */
    method UpdateLegs()
      modifies this`legs, this`legFrameWait
      ensures Legs() == LegsStep(old(Legs()), running)
    {
      var l := LegsStep(Legs(), running);
      legs, legFrameWait := l.pos, l.wait;
    }

    /**
     * `shootPortal`: choose the colour, drop the portal of that colour, and add a new one in
     * flight from the gun along the aim; the next shot is orange exactly when this one is blue.
     */
    method ShootPortal(portals: seq<Portal>, cos: real, sin: real) returns (portals': seq<Portal>)
      modifies this`shootOrangeNext
      ensures var blue := FireBlue(HasColour(portals, true), HasColour(portals, false), old(shootOrangeNext));
        var mz := Muzzle(core.left, core.top, core.width, core.height, cos, sin);
        Shot(portals, portals', blue, mz.0, mz.1, armAngle)
        && fresh(portals'[|portals'| - 1]) && shootOrangeNext == blue
    {
      var blue := FireBlue(HasColour(portals, true), HasColour(portals, false), shootOrangeNext);
      var mz := Muzzle(core.left, core.top, core.width, core.height, cos, sin);
      var p := new Portal(mz.0, mz.1, armAngle, blue);
      portals' := WithoutColour(portals, blue) + [p];
      shootOrangeNext := blue;
    }

    /**
     * An action other than firing: release, pick up, re-attach or keep the held object, with
     * the joint bookkeeping and frictions that go with it. Only the held object and `pickup`
     * can change, and only in friction.
     */
    method Hold(physics: Physics, a: Action, pickup: Portalable?)
      requires Valid() && physics.Valid() && JointsMatch(physics)
      requires pickup != core && a != Fire
      requires a == Release || a == Reattach ==> heldObj != null
      requires a == PickUp ==> heldObj == null && pickup != null && pickup.canBePickedUp
      modifies this`heldObj, this`heldObjJoint, this`lastArmAngle, physics, {heldObj, pickup}`body
      ensures Valid() && physics.Valid() && JointsMatch(physics)
      ensures (heldObj, heldObjJoint) == HoldAfter(a, old(heldObj), old(heldObjJoint), pickup, old(physics.nextJoint))
      ensures physics.nextJoint == if a == PickUp || a == Reattach then old(physics.nextJoint) + 1 else old(physics.nextJoint)
      ensures lastArmAngle == if a == PickUp || a == Reattach then armAngle else old(lastArmAngle)
      ensures a == Release ==> old(heldObj).body == old(heldObj.body).(friction := DefaultFriction)
      ensures a == PickUp ==> pickup.body == old(pickup.body).(friction := 0.0)
      ensures a == Reattach ==> heldObj.body == old(heldObj.body).(friction := 0.0)
      ensures a != PickUp && pickup != null && pickup != old(heldObj) ==> pickup.body == old(pickup.body)
      ensures a != Release && a != Reattach && old(heldObj) != null ==> old(heldObj).body == old(heldObj.body)
      ensures forall o: Portalable :: old(allocated(o)) && o != old(heldObj) && o != pickup ==> o.body == old(o.body)
      ensures forall o: Portalable :: old(allocated(o)) ==> FollowsFriction(o, heldObj, old(heldObj), old(o.body), o.body)
    {
      match a
      case Release =>
        physics.Release(this);
      case PickUp =>
        physics.Attach(this, pickup);
        lastArmAngle := armAngle;
      case Reattach =>
        physics.Reattach(this, heldObj);
        lastArmAngle := armAngle;
      case Keep =>
    }

    /**
     * The action part of `Man.update`: takes the action `ChooseAction` picks and no other.
     * `pickup` is what the pick-up ray along the aim hits; `cos`, `sin` are those of the aim.
     */
    method Act(physics: Physics, portals: seq<Portal>, mouseDown: bool, pickup: Portalable?, cos: real, sin: real)
      returns (portals': seq<Portal>, a: Action)
      requires Valid() && physics.Valid() && JointsMatch(physics)
      requires pickup != core
      modifies this`heldObj, this`heldObjJoint, this`lastArmAngle, this`shootOrangeNext, physics,
        {heldObj, pickup}`body
      ensures Valid() && physics.Valid() && JointsMatch(physics)
      ensures a == ChooseAction(mouseDown, old(heldObj) != null, pickup != null && pickup.canBePickedUp,
                                old(TooFar()), old(Turned()))
      ensures core.body == old(core.body) && armAngle == old(armAngle) && jumping == old(jumping) && Legs() == old(Legs())
      ensures (heldObj, heldObjJoint) == HoldAfter(a, old(heldObj), old(heldObjJoint), pickup, old(physics.nextJoint))
      ensures physics.nextJoint == if a == PickUp || a == Reattach then old(physics.nextJoint) + 1 else old(physics.nextJoint)
      ensures lastArmAngle == if a == PickUp || a == Reattach then armAngle else old(lastArmAngle)
      ensures a != Fire ==> portals' == portals && shootOrangeNext == old(shootOrangeNext)
      ensures a == Fire ==>
        Shot(portals, portals', FireBlue(HasColour(portals, true), HasColour(portals, false), old(shootOrangeNext)),
             Muzzle(core.left, core.top, core.width, core.height, cos, sin).0,
             Muzzle(core.left, core.top, core.width, core.height, cos, sin).1, armAngle)
        && fresh(portals'[|portals'| - 1]) && shootOrangeNext == portals'[|portals'| - 1].isBlue
      ensures a == Release ==> old(heldObj).body == old(heldObj.body).(friction := DefaultFriction)
      ensures a == PickUp ==> pickup.body == old(pickup.body).(friction := 0.0)
      ensures a == Reattach ==> heldObj.body == old(heldObj.body).(friction := 0.0)
      ensures a != PickUp && pickup != null && pickup != old(heldObj) ==> pickup.body == old(pickup.body)
      ensures a != Release && a != Reattach && old(heldObj) != null ==> old(heldObj).body == old(heldObj.body)
      ensures forall o: Portalable :: old(allocated(o)) && o != old(heldObj) && o != pickup ==> o.body == old(o.body)
      ensures forall o: Portalable :: old(allocated(o)) ==> FollowsFriction(o, heldObj, old(heldObj), old(o.body), o.body)
    {
      a := ChooseAction(mouseDown, heldObj != null, pickup != null && pickup.canBePickedUp, TooFar(), Turned());
      if a == Fire {
        portals' := ShootPortal(portals, cos, sin);
        forall o: Portalable | old(allocated(o))
          ensures FollowsFriction(o, heldObj, old(heldObj), old(o.body), o.body)
        {
        }
      } else {
        portals' := portals;
        Hold(physics, a, pickup);
      }
    }

    /**
     * The movement half of the active part of `Man.update`: aim, move, count the jump intent
     * down and step the legs. Another object's body changes only in its vertical velocity and,
     * when he jumps off the object he holds, its friction.
     */
    method Steer(physics: Physics, mouseDown: bool, s: Sense) returns (mouseDown': bool)
      requires Valid() && physics.Valid() && JointsMatch(physics)
      requires s.pickup != core && Underfoot(s.footing) != core
      modifies this`armAngle, this`jumping, this`legs, this`legFrameWait, this`heldObj, this`heldObjJoint,
        core`body, physics, {heldObj, s.pickup, Underfoot(s.footing)}`body
      ensures Valid() && physics.Valid() && JointsMatch(physics)
      ensures var m := MoveStep(old(Motion()), running, facing, !s.footing.Air?, Pushable(s.footing), s.stuck);
        armAngle == s.armAngle && core.body == old(core.body).(vx := m.vx, vy := m.vy)
        && jumping == JumpCountdown(m.jumping) && Legs() == LegsStep(old(Legs()), running)
      ensures var drop := JumpsOffHeld(old(Motion()), s.footing, old(heldObj));
        heldObj == (if drop then null else old(heldObj)) && heldObjJoint == (if drop then None else old(heldObjJoint))
        && mouseDown' == (!drop && mouseDown)
      ensures physics.nextJoint == old(physics.nextJoint) && lastArmAngle == old(lastArmAngle)
      ensures shootOrangeNext == old(shootOrangeNext) && core.left == old(core.left) && core.top == old(core.top)
      ensures var released := if heldObj == null then old(heldObj) else null;
        forall o: Portalable :: old(allocated(o)) ==> KeepsFriction(o, released, old(o.body), o.body)
    {
      armAngle := s.armAngle;
      mouseDown' := Move(physics, s.footing, s.stuck, mouseDown);
      jumping := JumpCountdown(jumping);
      UpdateLegs();
    }

    /**
     * The part of `Man.update` that runs when he is neither teleporting nor exiting, up to the
     * portalable update: `Steer`, then `Act`. Another object's body changes only in its
     * vertical velocity (a jump off it) and its friction (0 once held, the default once released).
     */
    method Control(physics: Physics, portals: seq<Portal>, mouseDown: bool, s: Sense) returns (portals': seq<Portal>, a: Action)
      requires Valid() && physics.Valid() && JointsMatch(physics)
      requires s.pickup != core && Underfoot(s.footing) != core
      modifies this`armAngle, this`jumping, this`legs, this`legFrameWait, this`heldObj, this`heldObjJoint,
        this`lastArmAngle, this`shootOrangeNext, core`body, physics, {heldObj, s.pickup, Underfoot(s.footing)}`body
      ensures Valid() && physics.Valid() && JointsMatch(physics)
      ensures var m := MoveStep(old(Motion()), running, facing, !s.footing.Air?, Pushable(s.footing), s.stuck);
        armAngle == s.armAngle && core.body == old(core.body).(vx := m.vx, vy := m.vy)
        && jumping == JumpCountdown(m.jumping) && Legs() == LegsStep(old(Legs()), running)
      ensures var drop := JumpsOffHeld(old(Motion()), s.footing, old(heldObj));
        var held := if drop then null else old(heldObj);
        a == ChooseAction(!drop && mouseDown, held != null, s.pickup != null && s.pickup.canBePickedUp,
                          held != null && old(TooFar()), Abs(s.armAngle - old(lastArmAngle)) > 0.1)
        && (heldObj, heldObjJoint) == HoldAfter(a, held, if drop then None else old(heldObjJoint), s.pickup, old(physics.nextJoint))
        && (a != Fire ==> portals' == portals && shootOrangeNext == old(shootOrangeNext))
        && (a == Fire ==>
              Shot(portals, portals', FireBlue(HasColour(portals, true), HasColour(portals, false), old(shootOrangeNext)),
                   old(Muzzle(core.left, core.top, core.width, core.height, s.cos, s.sin)).0,
                   old(Muzzle(core.left, core.top, core.width, core.height, s.cos, s.sin)).1, s.armAngle)
              && shootOrangeNext == portals'[|portals'| - 1].isBlue)
      ensures forall o: Portalable :: old(allocated(o)) ==> FollowsFriction(o, heldObj, old(heldObj), old(o.body), o.body)
    {
      ghost var tooFar := TooFar();
      ghost var nextJoint := physics.nextJoint;
      var md := Steer(physics, mouseDown, s);
      assert TooFar() == (heldObj != null && tooFar);
      assert Turned() == (Abs(s.armAngle - lastArmAngle) > 0.1);
      assert physics.nextJoint == nextJoint;
      ghost var held := heldObj;
      label steered:
      portals', a := Act(physics, portals, md, s.pickup, s.cos, s.sin);
      forall o: Portalable | old(allocated(o))
        ensures FollowsFriction(o, heldObj, old(heldObj), old(o.body), o.body)
      {
        FrictionComposes(o, old(heldObj), held, heldObj, old(o.body), old@steered(o.body), o.body);
      }
    }

    /**
     * The part of `Man.update` that runs when he is neither teleporting nor exiting: `Control`,
     * then the portalable update, and the mouse press is cleared.
     */
    method Active(physics: Physics, portals: seq<Portal>, mouseDown: bool, s: Sense) returns (portals': seq<Portal>, a: Action)
      requires Valid() && physics.Valid() && JointsMatch(physics) && core.beingPortaled == 0 && !core.exiting
      requires s.pickup != core && Underfoot(s.footing) != core
      modifies this, core, physics, {heldObj, s.pickup, Underfoot(s.footing)}`body
      ensures Valid() && physics.Valid() && JointsMatch(physics)
      ensures core.beingPortaled == CounterStep(MaxFrames, old(core.beingPortaled))
      ensures core.justPortaled == CooldownStep(old(core.beingPortaled), old(core.justPortaled))
      ensures core.exiting == old(core.exiting)
      ensures core.left == PoseLeft(core.body, core.width) && core.top == PoseTop(core.body, core.height)
      ensures var m := MoveStep(old(Motion()), old(running), old(facing), !s.footing.Air?, Pushable(s.footing), s.stuck);
        armAngle == s.armAngle
        && core.body.vx == m.vx && core.body.vy == m.vy && jumping == JumpCountdown(m.jumping)
        && Legs() == LegsStep(old(Legs()), old(running))
      ensures var drop := JumpsOffHeld(old(Motion()), s.footing, old(heldObj));
        var held := if drop then null else old(heldObj);
        a == ChooseAction(!drop && mouseDown, held != null, s.pickup != null && s.pickup.canBePickedUp,
                          held != null && old(TooFar()), Abs(s.armAngle - old(lastArmAngle)) > 0.1)
        && (heldObj, heldObjJoint) == HoldAfter(a, held, if drop then None else old(heldObjJoint), s.pickup, old(physics.nextJoint))
        && (a != Fire ==> portals' == portals && shootOrangeNext == old(shootOrangeNext))
        && (a == Fire ==>
              Shot(portals, portals', FireBlue(HasColour(portals, true), HasColour(portals, false), old(shootOrangeNext)),
                   old(Muzzle(core.left, core.top, core.width, core.height, s.cos, s.sin)).0,
                   old(Muzzle(core.left, core.top, core.width, core.height, s.cos, s.sin)).1, s.armAngle)
              && shootOrangeNext == portals'[|portals'| - 1].isBlue)
      ensures running == old(running) && facing == old(facing)
      ensures core.body.friction == old(core.body.friction)
      ensures heldObj == null || heldObj == old(heldObj) || heldObj == s.pickup
      ensures forall o: Portalable :: old(allocated(o)) && o != core ==> FollowsFriction(o, heldObj, old(heldObj), old(o.body), o.body)
      ensures forall o: Portalable :: old(allocated(o)) && o != core && old(o.Valid()) ==> o.Valid()
    {
      ghost var held := heldObj;
      portals', a := Control(physics, portals, mouseDown, s);
      // Control changes the bodies of only three objects, and nothing else of theirs.
      forall o: Portalable | old(allocated(o)) && o != core
        ensures old(o.Valid()) ==> o.Valid()
      {
        if o == held || o == s.pickup || o == Underfoot(s.footing) {
          assert o.State() == old(o.State()).(body := o.body);
        } else {
          assert o.State() == old(o.State());
        }
      }
      core.Update();
    }

    /**
     * `Man.update`. While teleporting or exiting only the portalable update runs. Otherwise
     * the man aims, moves, counts the jump intent down, steps his legs, takes his action and
     * then runs the portalable update; the mouse press is always cleared.
     */
    method Update(physics: Physics, portals: seq<Portal>, mouseDown: bool, s: Sense) returns (portals': seq<Portal>, mouseDown': bool)
      requires Valid() && physics.Valid() && JointsMatch(physics)
      requires s.pickup != core && Underfoot(s.footing) != core
      modifies this, core, physics, {heldObj, s.pickup, Underfoot(s.footing)}`body
      ensures Valid() && physics.Valid() && JointsMatch(physics)
      ensures core.beingPortaled == CounterStep(MaxFrames, old(core.beingPortaled))
      ensures core.justPortaled == CooldownStep(old(core.beingPortaled), old(core.justPortaled))
      ensures core.exiting == old(core.exiting)
      ensures core.left == PoseLeft(core.body, core.width) && core.top == PoseTop(core.body, core.height)
      ensures old(core.beingPortaled != 0 || core.exiting) ==>
        portals' == portals && mouseDown' == mouseDown && heldObj == old(heldObj) && heldObjJoint == old(heldObjJoint)
        && jumping == old(jumping) && Legs() == old(Legs()) && shootOrangeNext == old(shootOrangeNext)
        && core.body == TeleportBody(old(core.body), old(core.beingPortaled), core.exiting,
             old(Portalable.FaceOf(core.fromPortal)), old(Portalable.FaceOf(core.gotoPortal)), core.height)
      ensures !old(core.beingPortaled != 0 || core.exiting) ==>
        var m := MoveStep(old(Motion()), old(running), old(facing), !s.footing.Air?, Pushable(s.footing), s.stuck);
        !mouseDown' && armAngle == s.armAngle
        && core.body.vx == m.vx && core.body.vy == m.vy && jumping == JumpCountdown(m.jumping)
        && Legs() == LegsStep(old(Legs()), old(running))
      ensures !old(core.beingPortaled != 0 || core.exiting) ==>
        var drop := JumpsOffHeld(old(Motion()), s.footing, old(heldObj));
        var held := if drop then null else old(heldObj);
        var a := ChooseAction(!drop && mouseDown, held != null, s.pickup != null && s.pickup.canBePickedUp,
                              held != null && old(TooFar()), Abs(s.armAngle - old(lastArmAngle)) > 0.1);
        (heldObj, heldObjJoint) == HoldAfter(a, held, if drop then None else old(heldObjJoint), s.pickup, old(physics.nextJoint))
        && (a != Fire ==> portals' == portals && shootOrangeNext == old(shootOrangeNext))
        && (a == Fire ==>
              Shot(portals, portals', FireBlue(HasColour(portals, true), HasColour(portals, false), old(shootOrangeNext)),
                   old(Muzzle(core.left, core.top, core.width, core.height, s.cos, s.sin)).0,
                   old(Muzzle(core.left, core.top, core.width, core.height, s.cos, s.sin)).1, s.armAngle)
              && shootOrangeNext == portals'[|portals'| - 1].isBlue)
      ensures portals' == portals
        || Shot(portals, portals', FireBlue(HasColour(portals, true), HasColour(portals, false), old(shootOrangeNext)),
                old(Muzzle(core.left, core.top, core.width, core.height, s.cos, s.sin)).0,
                old(Muzzle(core.left, core.top, core.width, core.height, s.cos, s.sin)).1, s.armAngle)
      ensures OnePerColour(portals) && AllValid(portals) ==> OnePerColour(portals') && AllValid(portals')
      ensures running == old(running) && facing == old(facing)
      ensures core.body.friction == old(core.body.friction)
      ensures heldObj == null || heldObj == old(heldObj) || heldObj == s.pickup
      ensures forall o: Portalable :: old(allocated(o)) && o != core ==> FollowsFriction(o, heldObj, old(heldObj), old(o.body), o.body)
      ensures forall o: Portalable :: old(allocated(o)) && o != core && old(o.Valid()) ==> o.Valid()
    {
      portals', mouseDown' := portals, mouseDown;
      if core.beingPortaled != 0 || core.exiting {
        core.Update();
        return;
      }
      ghost var blue := FireBlue(HasColour(portals, true), HasColour(portals, false), shootOrangeNext);
      ghost var mz := Muzzle(core.left, core.top, core.width, core.height, s.cos, s.sin);
      var a;
      portals', a := Active(physics, portals, mouseDown, s);
      mouseDown' := false;
      if a == Fire && OnePerColour(portals) && AllValid(portals) {
        ShotKeeps(portals, portals', blue, mz.0, mz.1, s.armAngle);
      }
    }
  }
}
