/**
 * The game objects whose fields change on every update: objects that portals can carry
 * (the stick man's body, boxes and turrets all share that part), portals, bullets, the exit
 * and turrets. Where an update reads or edits a world list, the list is passed in and the new
 * list returned, for the world to store.
 */
module Entities {
  import opened Options
  import opened Bodies
  import opened Lists
  import opened Teleport
  import opened Rules

  /** A portal: in flight until it lands on a platform, attached once it has landed in a free spot. */
  class Portal {
    const isBlue: bool
    var centerX: real
    var centerY: real
    var angle: real
    var velocity: real
    /** Whether it sits on a platform's top face; `None` until it lands (JavaScript `undefined`). */
    var onTop: Option<bool>
    var attached: bool
    var age: int

    /** A portal flies at full speed until it lands, and is attached only after landing. */
    predicate Valid()
      reads this
    {
      (velocity == PortalSpeed || (velocity == 0.0 && onTop.Some?))
      && (attached ==> velocity == 0.0)
      && age >= 0
    }

    /** What a teleport reads from this portal. */
    function Face(): Face
      reads this
    {
      Teleport.Face(centerX, centerY, PortalHeight, onTop)
    }

    /** The `Portal` constructor: a new shot, in flight from the given centre along `angle`. */
    constructor(centerX: real, centerY: real, angle: real, isBlue: bool)
      ensures this.centerX == centerX && this.centerY == centerY && this.angle == angle
      ensures this.isBlue == isBlue
      ensures velocity == PortalSpeed && onTop == None && !attached && age == 0
      ensures Valid()
    {
      this.isBlue := isBlue;
      this.centerX := centerX;
      this.centerY := centerY;
      this.angle := angle;
      velocity := PortalSpeed;
      onTop := None;
      attached := false;
      age := 0;
    }

    /**
     * Another portal of `ps` sits on the same kind of face within a portal width horizontally
     * and half a unit vertically.
     */
    predicate Crowded(ps: seq<Portal>)
      reads this, ps
    {
      exists i :: 0 <= i < |ps| && ps[i] != this && ps[i].onTop == onTop
        && TooClose(centerX, centerY, ps[i].centerX, ps[i].centerY, PortalWidth)
    }

    /**
     * The flight part of `Portal.update`: the portal ages by one update and, while flying,
     * advances along (`cos`, `sin`), or lands on the platform `hit` finds, or is dropped from
     * the list when it meets anything else. A landed portal is attached only when it fits on
     * the platform and no other portal crowds it; otherwise it is dropped too.
     */
    method Advance(portals: seq<Portal>, hit: PortalHit, cos: real, sin: real) returns (portals': seq<Portal>)
      requires Valid()
      modifies this
      ensures Valid()
      ensures age == old(age) + 1
      ensures old(velocity) == 0.0 ==>
        portals' == portals && centerX == old(centerX) && centerY == old(centerY)
        && onTop == old(onTop) && attached == old(attached) && velocity == 0.0 && angle == old(angle)
      ensures old(velocity) != 0.0 && hit == Clear ==>
        portals' == portals && centerX == old(centerX) + old(velocity) * cos
        && centerY == old(centerY) + old(velocity) * sin
        && onTop == old(onTop) && attached == old(attached) && velocity == old(velocity) && angle == old(angle)
      ensures old(velocity) != 0.0 && hit == Obstacle ==>
        portals' == RemoveFirst(portals, this) && centerX == old(centerX) && centerY == old(centerY)
        && onTop == old(onTop) && attached == old(attached) && velocity == old(velocity) && angle == old(angle)
      ensures old(velocity) != 0.0 && hit.Platform? ==>
        onTop == Some(LandsOnTop(old(centerY), hit.box))
        && centerY == LandingY(old(centerY), hit.box)
        && centerX == old(centerX) + LandingShift(centerY - old(centerY), old(velocity), cos, sin)
        && velocity == 0.0 && angle == 0.0
        && (attached <==> FitsOn(centerX, PortalWidth, hit.box) && !Crowded(portals))
        && portals' == (if attached then portals else RemoveFirst(portals, this))
    {
      age := age + 1;
      portals' := portals;
      if velocity != 0.0 {
        match hit
        case Platform(box) =>
          var oldY := centerY;
          onTop := Some(LandsOnTop(oldY, box));
          centerY := LandingY(oldY, box);
          centerX := centerX + LandingShift(centerY - oldY, velocity, cos, sin);
          velocity := 0.0;
          angle := 0.0;
          if !FitsOn(centerX, PortalWidth, box) || Crowded(portals) {
            portals' := RemoveFirst(portals, this);
          } else {
            attached := true;
          }
        case Obstacle =>
          portals' := RemoveFirst(portals, this);
        case Clear =>
          centerX := centerX + velocity * cos;
          centerY := centerY + velocity * sin;
      }
    }

    /**
     * Whether this portal, in the world whose portal list is `portals`, captures `obj`: it is
     * attached, an attached portal of the other colour exists, the object is ready and it is in
     * this portal's band.
     */
    predicate Captures(portals: seq<Portal>, obj: Portalable, s: Carried)
      reads this, portals
    {
      attached && HasPartner(portals, isBlue) && s.Ready() && obj.InBand(s, centerX, centerY, onTop == Some(true))
    }

    /**
     * The capture part of `Portal.update`: each object of `candidates` that this portal
     * captures starts a teleport from this portal to the first other portal of the list; the
     * others are left as they were.
     */
    method Capture(portals: seq<Portal>, candidates: seq<Portalable>)
      requires Distinct(candidates)
      requires forall k :: 0 <= k < |candidates| ==> candidates[k].Valid()
      modifies candidates
      ensures forall k :: 0 <= k < |candidates| ==> candidates[k].Valid()
      ensures forall k :: 0 <= k < |candidates| ==>
        candidates[k].State() ==
          if Captures(portals, candidates[k], old(candidates[k].State()))
          then old(candidates[k].State()).Captured(this, FirstOther(portals, this))
          else old(candidates[k].State())
    {
      if attached && HasPartner(portals, isBlue) {
        var goto := FirstOther(portals, this);
        assert goto != null by {
          var i :| 0 <= i < |portals| && portals[i].isBlue != isBlue && portals[i].attached;
          assert portals[i] != this;
        }
        for i := 0 to |candidates|
          invariant forall k :: 0 <= k < i ==>
            candidates[k].State() ==
              if Captures(portals, candidates[k], old(candidates[k].State()))
              then old(candidates[k].State()).Captured(this, goto)
              else old(candidates[k].State())
          invariant forall k :: i <= k < |candidates| ==> candidates[k].State() == old(candidates[k].State())
          invariant forall k :: 0 <= k < |candidates| ==> candidates[k].Valid()
        {
          var obj := candidates[i];
          if Captures(portals, obj, obj.State()) {
            obj.BeginTeleport(this, goto);
          }
        }
      }
    }

    /**
     * `Portal.update`: `Advance`, then `Capture` against the list as `Advance` left it.
     * `hit` is what the ray cast one step ahead finds and `cos`, `sin` are those of the flight
     * angle; `candidates` are the stick man, the boxes and the turrets, in that order.
     */
    method Update(portals: seq<Portal>, candidates: seq<Portalable>, hit: PortalHit, cos: real, sin: real)
      returns (portals': seq<Portal>)
      requires Valid()
      requires Distinct(candidates)
      requires forall k :: 0 <= k < |candidates| ==> candidates[k].Valid()
      modifies this, candidates
      ensures Valid()
      ensures age == old(age) + 1
      ensures old(velocity) == 0.0 ==>
        portals' == portals && centerX == old(centerX) && centerY == old(centerY)
        && onTop == old(onTop) && attached == old(attached) && velocity == 0.0 && angle == old(angle)
      ensures old(velocity) != 0.0 && hit == Clear ==>
        portals' == portals && centerX == old(centerX) + old(velocity) * cos
        && centerY == old(centerY) + old(velocity) * sin
        && onTop == old(onTop) && attached == old(attached) && velocity == old(velocity) && angle == old(angle)
      ensures old(velocity) != 0.0 && hit == Obstacle ==>
        portals' == RemoveFirst(portals, this) && centerX == old(centerX) && centerY == old(centerY)
        && onTop == old(onTop) && !attached && velocity == old(velocity) && angle == old(angle)
      ensures old(velocity) != 0.0 && hit.Platform? ==>
        onTop == Some(LandsOnTop(old(centerY), hit.box))
        && centerY == LandingY(old(centerY), hit.box)
        && centerX == old(centerX) + LandingShift(centerY - old(centerY), old(velocity), cos, sin)
        && velocity == 0.0 && angle == 0.0
        && (attached <==> FitsOn(centerX, PortalWidth, hit.box) && !Crowded(portals))
        && portals' == (if attached then portals else RemoveFirst(portals, this))
      ensures forall k :: 0 <= k < |candidates| ==> candidates[k].Valid()
      ensures forall k :: 0 <= k < |candidates| ==>
        candidates[k].State() ==
          if Captures(portals', candidates[k], old(candidates[k].State()))
          then old(candidates[k].State()).Captured(this, FirstOther(portals', this))
          else old(candidates[k].State())
    {
      portals' := Advance(portals, hit, cos, sin);
      Capture(portals', candidates);
    }
  }

  /** What the ray cast ahead of a flying portal finds. */
  datatype PortalHit = Clear | Platform(box: Rect) | Obstacle

  /** An attached portal of the colour other than `blue` is in `ps`. */
  predicate HasPartner(ps: seq<Portal>, blue: bool)
    reads ps
  {
    exists i :: 0 <= i < |ps| && ps[i].isBlue != blue && ps[i].attached
  }

  /**
   * The first portal of `ps` other than `p` (the head of the list with `p` filtered out),
   * where a captured object is sent; null when there is none.
   */
  function FirstOther(ps: seq<Portal>, p: Portal): (q: Portal?)
    ensures q != null ==> q in ps && q != p
    ensures q != null ==> exists i :: 0 <= i < |ps| && ps[i] == q && forall j :: 0 <= j < i ==> ps[j] == p
    ensures q == null <==> forall i :: 0 <= i < |ps| ==> ps[i] == p
  {
    if ps == [] then null
    else if ps[0] != p then ps[0]
    else
      var q := FirstOther(ps[1..], p);
      assert q != null ==> exists i :: 0 <= i < |ps| && ps[i] == q && forall j :: 0 <= j < i ==> ps[j] == p by {
        if q != null {
          var i :| 0 <= i < |ps[1..]| && ps[1..][i] == q && forall j :: 0 <= j < i ==> ps[1..][j] == p;
          assert ps[i + 1] == q;
          forall j | 0 <= j < i + 1 ensures ps[j] == p {
            if j > 0 {
              assert ps[j] == ps[1..][j - 1];
            }
          }
        }
      }
      assert (forall i :: 0 <= i < |ps| ==> ps[i] == p) <==> (forall i :: 0 <= i < |ps[1..]| ==> ps[1..][i] == p) by {
        assert forall i :: 0 < i < |ps| ==> ps[i] == ps[1..][i - 1];
      }
      q
  }

  /** No two portals of `ps` have the same colour. */
  predicate OnePerColour(ps: seq<Portal>) {
    forall i, j :: 0 <= i < j < |ps| ==> ps[i].isBlue != ps[j].isBlue
  }

  /** Every portal of `ps` is consistent. */
  predicate AllValid(ps: seq<Portal>)
    reads ps
  {
    forall i :: 0 <= i < |ps| ==> ps[i].Valid()
  }

  /**
   * With one portal per colour, the portal a capture sends objects to is the attached portal
   * of the other colour.
   */
  lemma CaptureTarget(ps: seq<Portal>, p: Portal)
    requires OnePerColour(ps) && p in ps && HasPartner(ps, p.isBlue)
    ensures FirstOther(ps, p) != null
    ensures FirstOther(ps, p).isBlue != p.isBlue && FirstOther(ps, p).attached
  {
    var i :| 0 <= i < |ps| && ps[i].isBlue != p.isBlue && ps[i].attached;
    var q := FirstOther(ps, p);
    assert q != null by {
      assert ps[i] != p;
    }
    var j :| 0 <= j < |ps| && ps[j] == q;
    var m :| 0 <= m < |ps| && ps[m] == p;
    assert j != m;
    assert q.isBlue != p.isBlue by {
      if j < m {
        assert ps[j].isBlue != ps[m].isBlue;
      } else {
        assert ps[m].isBlue != ps[j].isBlue;
      }
    }
    assert ps[i] == q;
  }

  /**
   * A portal that a shot of its own colour has just dropped from the list, but that the
   * update still walks, sends what it captures to the attached portal of the other colour:
   * after such a shot only the new portal, at the end, has its colour.
   */
  lemma {:induction false} CaptureTargetAfterShot(ps: seq<Portal>, p: Portal)
    requires p !in ps && HasPartner(ps, p.isBlue)
    requires forall i :: 0 <= i < |ps| - 1 ==> ps[i].isBlue != p.isBlue
    requires OnePerColour(ps)
    ensures FirstOther(ps, p) != null
    ensures FirstOther(ps, p).isBlue != p.isBlue && FirstOther(ps, p).attached
  {
    var i :| 0 <= i < |ps| && ps[i].isBlue != p.isBlue && ps[i].attached;
    assert FirstOther(ps, p) == ps[0];
  }

  /** Removing a portal keeps one portal per colour. */
  lemma RemoveKeepsOnePerColour(ps: seq<Portal>, p: Portal)
    requires OnePerColour(ps)
    ensures OnePerColour(RemoveFirst(ps, p))
  {
  }

  /** The state of a portalable object that the teleport machine and the portals read and write. */
  datatype Carried = Carried(
    left: real, top: real, angle: real, body: Body,
    beingPortaled: int, justPortaled: int, fromPortal: Portal?, gotoPortal: Portal?, exiting: bool)
  {
    /** Not in a teleport, not cooling down after one, and not leaving through the exit. */
    predicate Ready() {
      beingPortaled == 0 && justPortaled == 0 && !exiting
    }

    /** The state right after a capture by `from`, bound for `goto`. */
    function Captured(from: Portal, goto: Portal?): Carried {
      this.(body := body.(active := false), beingPortaled := 1, fromPortal := from, gotoPortal := goto)
    }
  }

  /**
   * An object portals can carry (`PortalableGameObj`): its screen box, its Box2D body and its
   * teleport state. The stick man, boxes and turrets each own one.
   */
  class Portalable {
    const width: real
    const height: real
    const canBePickedUp: bool
    var left: real
    var top: real
    var angle: real
    var body: Body
    var beingPortaled: int
    var justPortaled: int
    var fromPortal: Portal?
    var gotoPortal: Portal?
    var exiting: bool

    /**
     * The counters stay in range; the portals are set exactly during a teleport; a cooldown
     * only follows one; and the body takes part in the simulation exactly when the object is
     * neither being teleported nor exiting.
     */
    predicate Valid()
      reads this
    {
      -MaxFrames <= beingPortaled <= MaxFrames && 0 <= justPortaled < CooldownFrames
      && (beingPortaled == 0 <==> fromPortal == null)
      && (beingPortaled == 0 <==> gotoPortal == null)
      && (beingPortaled != 0 ==> justPortaled == 0)
      && (body.active <==> beingPortaled == 0 && !exiting)
    }

    function State(): Carried
      reads this
    {
      Carried(left, top, angle, body, beingPortaled, justPortaled, fromPortal, gotoPortal, exiting)
    }

    predicate Ready()
      reads this
    {
      State().Ready()
    }

    /** Whether this object, in state `s`, is in the capture band of a portal at (`x`, `y`). */
    predicate InBand(s: Carried, x: real, y: real, onTop: bool) {
      InCaptureBand(s.left, s.top, width, height, x, y, PortalWidth, PortalHeight, onTop)
    }

    /** A new object and its body (`addGameObj`), at rest at the given box. */
    constructor(left: real, top: real, width: real, height: real, angle: real, canBePickedUp: bool)
      ensures this.left == left && this.top == top && this.angle == angle
      ensures this.width == width && this.height == height && this.canBePickedUp == canBePickedUp
      ensures body == BodyFor(left, top, width, height, angle)
      ensures beingPortaled == 0 && justPortaled == 0 && fromPortal == null && gotoPortal == null && !exiting
      ensures Valid()
    {
      this.width := width;
      this.height := height;
      this.canBePickedUp := canBePickedUp;
      this.left := left;
      this.top := top;
      this.angle := angle;
      body := BodyFor(left, top, width, height, angle);
      beingPortaled := 0;
      justPortaled := 0;
      fromPortal := null;
      gotoPortal := null;
      exiting := false;
    }

    /** What the teleport machine reads from a portal field. */
    static function FaceOf(p: Portal?): Face
      reads p
    {
      if p == null then Teleport.Face(0.0, 0.0, 0.0, None) else p.Face()
    }

    /**
     * A capture (part of `Portal.update`): the body leaves the simulation and the teleport
     * starts at 1, from `from` to `goto`.
     */
    method BeginTeleport(from: Portal, goto: Portal?)
      requires Valid() && Ready() && goto != null
      modifies this
      ensures State() == old(State()).Captured(from, goto)
      ensures Valid()
    {
      body := body.(active := false);
      beingPortaled := 1;
      fromPortal := from;
      gotoPortal := goto;
    }

    /**
     * `PortalableGameObj.update`: one step of the teleport machine, then the pose sync
     * (`updateGameObjPosition`). Nothing else changes.
     */
    method Update()
      requires Valid()
      modifies this
      ensures Valid()
      ensures beingPortaled == CounterStep(MaxFrames, old(beingPortaled))
      ensures justPortaled == CooldownStep(old(beingPortaled), old(justPortaled))
      ensures body == TeleportBody(old(body), old(beingPortaled), exiting, old(FaceOf(fromPortal)), old(FaceOf(gotoPortal)), height)
      ensures beingPortaled == 0 ==> fromPortal == null && gotoPortal == null
      ensures beingPortaled != 0 ==> fromPortal == old(fromPortal) && gotoPortal == old(gotoPortal)
      ensures exiting == old(exiting)
      ensures left == PoseLeft(body, width) && top == PoseTop(body, height) && angle == body.angle
    {
      var from := FaceOf(fromPortal);
      var goto := FaceOf(gotoPortal);
      body := TeleportBody(body, beingPortaled, exiting, from, goto, height);
      if beingPortaled != 0 {
        beingPortaled := CounterStep(MaxFrames, beingPortaled);
        if beingPortaled == 0 {
          gotoPortal := null;
          fromPortal := null;
          justPortaled := CooldownFrames;
        }
      }
      if justPortaled != 0 {
        justPortaled := justPortaled - 1;
      }
      left := PoseLeft(body, width);
      top := PoseTop(body, height);
      angle := body.angle;
    }
  }

  /** A bullet: it lives a fixed number of updates. Its flight is the physics engine's. */
  class Bullet {
    const facing: int
    const left: real
    const top: real
    var life: real

    /** The `Bullet` constructor: centred at the given point, with a full life. */
    constructor(centerX: real, centerY: real, facing: int)
      ensures this.facing == facing && life == BulletLife
      ensures left == centerX - BulletSize / 2.0 && top == centerY - BulletSize / 2.0
    {
      this.facing := facing;
      left := centerX - BulletSize / 2.0;
      top := centerY - BulletSize / 2.0;
      life := BulletLife;
    }

    /** `Bullet.update`: one update of life; `expired` tells the world to destroy the bullet. */
    method Update() returns (expired: bool)
      modifies this
      ensures life == old(life) - 1.0
      ensures expired <==> life <= 0.0
    {
      life := life - 1.0;
      expired := life <= 0.0;
    }
  }

  /** The level exit. Its counter runs the exit animation once the man has reached it. */
  class Exit {
    const left: real
    const top: real
    var exiting: int

    predicate Valid()
      reads this
    {
      exiting >= 0
    }

    /** The `Exit` constructor, idle. */
    constructor(left: real, top: real)
      ensures this.left == left && this.top == top && exiting == 0 && Valid()
    {
      this.left := left;
      this.top := top;
      exiting := 0;
    }

    /** Whether the man, whose box is read from `man`, is at the exit. */
    predicate Reached(man: Portalable)
      reads this, man
    {
      AtExit(man.left + man.width / 2.0, man.top + man.height / 2.0, left, top, ExitWidth, ExitHeight)
    }

    /**
     * `Exit.update`: a running animation counts on and asks for a reset (`resetOnNextUpdate`)
     * after its last update; an idle exit that the man has reached takes him out of the
     * simulation and starts the animation.
     */
    method Update(man: Portalable) returns (reset: bool)
      requires Valid() && man.Valid()
      modifies this, man`exiting, man`body
      ensures Valid() && man.Valid()
      ensures var step := ExitStep(old(exiting), old(Reached(man)));
        exiting == step.0 && reset == step.2
        && man.exiting == (old(man.exiting) || step.1)
        && man.body == if step.1 then old(man.body).(active := false) else old(man.body)
    {
      var step := ExitStep(exiting, Reached(man));
      exiting := step.0;
      reset := step.2;
      if step.1 {
        man.exiting := true;
        man.body := man.body.(active := false);
      }
    }
  }

  /** A turret: a portalable body with a gun that fires along `facing` at the man. */
  class Turret {
    const core: Portalable
    const facing: int
    var firing: int
    var reloading: int
    var shotsFired: int

    function Gun(): Gun
      reads this
    {
      Rules.Gun(firing, reloading, shotsFired)
    }

    predicate Valid()
      reads this, core
    {
      core.Valid() && core.canBePickedUp && GunValid(Gun())
    }

    /**
     * This turret after one update that found its body's teleport counter at `counter` and
     * its gun at `gun`, the gun aiming when `ready` and looking ahead with `seesMan`.
     */
    predicate Stepped(counter: int, gun: Gun, ready: bool, seesMan: bool)
      reads this, core
    {
      core.beingPortaled == CounterStep(MaxFrames, counter)
      && Gun() == if core.beingPortaled == 0 then GunStep(gun, ready, seesMan).0 else gun
    }

    /** The `Turret` constructor (15 by 30, facing left unless told otherwise) and its body. */
    constructor(left: real, top: real, facing: int)
      ensures this.facing == facing && fresh(core)
      ensures core.left == left && core.top == top && core.width == 15.0 && core.height == 30.0
      ensures core.body == BodyFor(left, top, 15.0, 30.0, 0.0) && core.Ready() && core.gotoPortal == null
      ensures Gun() == Rules.Gun(0, 0, 0)
      ensures Valid()
    {
      core := new Portalable(left, top, 15.0, 30.0, 0.0, true);
      this.facing := facing;
      firing := 0;
      reloading := 0;
      shotsFired := 0;
    }

    /**
     * `Turret.update`: the portalable update, then, unless the turret is being teleported, one
     * step of its gun. `upright` is the angle test and `seesMan` the look ahead; `held` is
     * whether the man holds this turret. A shot is a new bullet at the muzzle.
     */
    method Update(held: bool, upright: bool, seesMan: bool) returns (shot: Option<Bullet>)
      requires Valid()
      modifies this, core
      ensures Valid()
      ensures core.beingPortaled == CounterStep(MaxFrames, old(core.beingPortaled))
      ensures core.justPortaled == CooldownStep(old(core.beingPortaled), old(core.justPortaled))
      ensures core.body == TeleportBody(old(core.body), old(core.beingPortaled), core.exiting,
        old(Portalable.FaceOf(core.fromPortal)), old(Portalable.FaceOf(core.gotoPortal)), core.height)
      ensures core.exiting == old(core.exiting)
      ensures Stepped(old(core.beingPortaled), old(Gun()), upright && !held, seesMan)
      ensures core.beingPortaled != 0 ==> Gun() == old(Gun()) && shot == None
      ensures core.beingPortaled == 0 ==> (Gun(), shot.Some?) == GunStep(old(Gun()), upright && !held, seesMan)
      ensures shot.Some? ==>
        fresh(shot.value) && shot.value.life == BulletLife && shot.value.facing == facing
        && shot.value.left == (if facing > 0 then core.left + core.width else core.left) - BulletSize / 2.0
        && shot.value.top == core.top + core.height * 0.2 - BulletSize / 2.0
    {
      core.Update();
      shot := None;
      if core.beingPortaled == 0 {
        var step := GunStep(Gun(), upright && !held, seesMan);
        firing, reloading, shotsFired := step.0.firing, step.0.reloading, step.0.shotsFired;
        if step.1 {
          var x := if facing > 0 then core.left + core.width else core.left;
          var b := new Bullet(x, core.top + core.height * 0.2, facing);
          shot := Some(b);
        }
      }
    }
  }
}
