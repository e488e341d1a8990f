/**
 * A level: its layout, the objects `World.init` builds from it, and what keeps them
 * consistent with each other (one core per portalable object, the carried object's joint and
 * friction, the exit's flag on the man).
 */
module Levels {
  import opened Options
  import opened Bodies
  import opened Lists
  import opened Teleport
  import opened Rules
  import opened Entities
  import opened StickMan

  /** The playing field in screen units (`virtualCanvasWidth`, `virtualCanvasHeight`) and the wall thickness. */
  const FieldWidth: real := 600.0
  const FieldHeight: real := 400.0
  const WallThickness: real := 2.0
  /** Side of a `Box` made with the default size. */
  const BoxSide: real := 30.0

  /** A box of a level: where it starts and at what angle. */
  datatype BoxSpec = BoxSpec(left: real, top: real, angle: real)
  /** A turret of a level: where it starts and which way it fires. */
  datatype TurretSpec = TurretSpec(left: real, top: real, facing: int)

  /**
   * The content of one level. `man` and `exit` are `None` where the level keeps the default
   * places (the man at (50, 100), the exit at (530, 290)).
   */
  datatype Layout = Layout(
    man: Option<(real, real)>, exit: Option<(real, real)>,
    platforms: seq<Rect>, jumpPlates: seq<Rect>, boxes: seq<BoxSpec>, turrets: seq<TurretSpec>)

  /** The four walls around the field. */
  function Walls(): (r: seq<Rect>)
    ensures |r| == 4
    ensures forall i :: 0 <= i < 4 ==> r[i].width == WallThickness || r[i].height == WallThickness
  {
    [Rect(0.0, 0.0, FieldWidth, WallThickness), Rect(0.0, FieldHeight - WallThickness, FieldWidth, WallThickness),
     Rect(0.0, 0.0, WallThickness, FieldHeight), Rect(FieldWidth - WallThickness, 0.0, WallThickness, FieldHeight)]
  }

  /** The portalable bodies of turrets, in their order. */
  function Cores(ts: seq<Turret>): (r: seq<Portalable>)
    ensures |r| == |ts| && forall i :: 0 <= i < |ts| ==> r[i] == ts[i].core
  {
    seq(|ts|, i requires 0 <= i < |ts| => ts[i].core)
  }

  /**
   * What a ray cast from the man finds, as a position in the world's lists: nothing, something
   * that is not a box or turret (a platform, wall, jump plate or bullet), a box or a turret.
   */
  datatype Target = Nothing | Solid | BoxAt(i: nat) | TurretAt(i: nat)

  /**
   * What the world reads from outside on one update:
   * - the outcome of the physics step for the man's body, the box at position `i` and the
   *   turret at position `i`;
   * - for the man, what is underfoot, the stuck test, the aim angle with its cosine and sine,
   *   and what the pick-up ray finds;
   * - for the turret at position `i`, whether it stands upright and whether its look ahead
   *   sees the man;
   * - for the portal at position `i` of the list as the update found it, what the ray ahead of
   *   it finds and the cosine and sine of its flight angle.
   */
  datatype Tick = Tick(
    manMotion: Kinematics, boxMotion: nat -> Kinematics, turretMotion: nat -> Kinematics,
    underfoot: Target, stuck: bool, armAngle: real, cos: real, sin: real, pickup: Target,
    upright: nat -> bool, seesMan: nat -> bool,
    portalHit: nat -> PortalHit, portalCos: nat -> real, portalSin: nat -> real)

  /**
   * The objects of one level, fixed from one `init` to the next: the man, the exit, the
   * physics world, the static boxes (walls, platforms, jump plates), the boxes and the turrets.
   * The objects themselves change on every update; which objects the level has does not.
   */
  datatype Scene = Scene(
    man: Man, exit: Exit, physics: Physics,
    walls: seq<Rect>, platforms: seq<Rect>, jumpPlates: seq<Rect>,
    boxes: seq<Portalable>, turrets: seq<Turret>, cores: seq<Portalable>)
  {
    /** `cores` lists the turrets' portalable bodies, in the turrets' order. */
    predicate Indexed() {
      |cores| == |turrets| && forall i :: 0 <= i < |turrets| ==> cores[i] == turrets[i].core
    }

    /** The objects portals can carry, in the order a portal tries them: the man, the boxes, the turrets. */
    function Candidates(): seq<Portalable> {
      [man.core] + boxes + cores
    }

    /** The objects the man can hold. */
    function Pickables(): seq<Portalable> {
      boxes + cores
    }

    /** The man, the joints of the physics world and the exit agree: the man is leaving exactly when the exit runs. */
    predicate ManValid()
      reads man, man.core, physics, exit
    {
      man.Valid() && physics.Valid() && man.JointsMatch(physics) && exit.Valid()
      && (man.core.exiting <==> exit.exiting != 0)
    }

    /** Every box and turret is in a consistent state, and boxes can be picked up. */
    predicate ObjectsValid()
      reads boxes, turrets, cores
    {
      Indexed()
      && (forall i :: 0 <= i < |boxes| ==> boxes[i].Valid() && boxes[i].canBePickedUp)
      && (forall i :: 0 <= i < |turrets| ==> turrets[i].Valid())
    }

    /** No object is listed twice, and the man's body is neither a box nor a turret. */
    predicate Separate() {
      (forall i, j :: 0 <= i < j < |boxes| ==> boxes[i] != boxes[j])
      && (forall i, j :: 0 <= i < j < |cores| ==> cores[i] != cores[j])
      && (forall i, j :: 0 <= i < |boxes| && 0 <= j < |cores| ==> boxes[i] != cores[j])
      && (forall i :: 0 <= i < |boxes| ==> boxes[i] != man.core)
      && (forall j :: 0 <= j < |cores| ==> cores[j] != man.core)
    }

    /** The man holds a box or a turret of this level, or nothing. */
    predicate Holding()
      reads man
    {
      man.heldObj == null || man.heldObj in Pickables()
    }

    /** Exactly the held object has lost its friction; every other body has the default. */
    predicate FrictionMatches()
      reads man, man.core, boxes, cores
    {
      man.core.body.friction == DefaultFriction
      && (forall i :: 0 <= i < |boxes| ==> boxes[i].body.friction == if boxes[i] == man.heldObj then 0.0 else DefaultFriction)
      && (forall i :: 0 <= i < |cores| ==> cores[i].body.friction == if cores[i] == man.heldObj then 0.0 else DefaultFriction)
    }

    /** All of the above. */
    predicate Valid()
      reads man, man.core, physics, exit, boxes, turrets, cores
    {
      ManValid() && ObjectsValid() && Separate() && Holding() && FrictionMatches()
    }

    /** What a ray `t` from the man ends on among this level's boxes and turrets; null for anything else. */
    function Resolve(t: Target): (r: Portalable?)
      ensures r == null || r in Pickables()
      ensures t.BoxAt? && t.i < |boxes| ==> r == boxes[t.i]
      ensures t.TurretAt? && t.i < |cores| ==> r == cores[t.i]
      ensures !(t.BoxAt? && t.i < |boxes|) && !(t.TurretAt? && t.i < |cores|) ==> r == null
    {
      match t
      case BoxAt(i) => if i < |boxes| then boxes[i] else null
      case TurretAt(i) => if i < |cores| then cores[i] else null
      case _ => null
    }

    /** What the man stands on, from the ray below him. */
    function FootingOf(t: Target): (f: Footing)
      ensures f.Thing? <==> Resolve(t) != null
      ensures f.Thing? ==> f.obj == Resolve(t)
      ensures f.Fixed? <==> t.Solid?
    {
      if t.Solid? then Fixed else if Resolve(t) != null then Thing(Resolve(t)) else Air
    }

    /** What the man senses on this update. */
    function SenseOf(tick: Tick): (s: Sense)
      ensures s.pickup == null || s.pickup in Pickables()
      ensures Underfoot(s.footing) == null || Underfoot(s.footing) in Pickables()
    {
      Sense(FootingOf(tick.underfoot), tick.stuck, tick.armAngle, tick.cos, tick.sin, Resolve(tick.pickup))
    }

    /** The man's own body is not among the objects he can pick up or stand on. */
    lemma ManNotPickable()
      requires Separate()
      ensures man.core !in Pickables()
    {
    }

    /** Without repetitions, as a portal's capture loop needs its candidates. */
    lemma CandidatesDistinct()
      requires Separate()
      ensures Distinct(Candidates())
    {
      var c := Candidates();
      forall i, j | 0 <= i < j < |c| ensures c[i] != c[j] {
        if i == 0 {
        } else if j <= |boxes| {
          assert c[i] == boxes[i - 1] && c[j] == boxes[j - 1];
        } else if i <= |boxes| {
          assert c[i] == boxes[i - 1] && c[j] == cores[j - 1 - |boxes|];
        } else {
          assert c[i] == cores[i - 1 - |boxes|] && c[j] == cores[j - 1 - |boxes|];
        }
      }
    }
  }

  /** Boxes made from their specs, each new, consistent and at rest with the default friction. */
  method MakeBoxes(specs: seq<BoxSpec>) returns (bs: seq<Portalable>)
    ensures |bs| == |specs|
    ensures forall i :: 0 <= i < |bs| ==> fresh(bs[i])
    ensures forall i, j :: 0 <= i < j < |bs| ==> bs[i] != bs[j]
    ensures forall i :: 0 <= i < |bs| ==>
      bs[i].Valid() && bs[i].Ready() && bs[i].canBePickedUp && bs[i].width == BoxSide && bs[i].height == BoxSide
      && bs[i].left == specs[i].left && bs[i].top == specs[i].top && bs[i].angle == specs[i].angle
      && bs[i].body == BodyFor(specs[i].left, specs[i].top, BoxSide, BoxSide, specs[i].angle)
  {
    bs := [];
    for n := 0 to |specs|
      invariant |bs| == n
      invariant forall i :: 0 <= i < n ==> fresh(bs[i])
      invariant forall i, j :: 0 <= i < j < n ==> bs[i] != bs[j]
      invariant forall i :: 0 <= i < n ==>
        bs[i].Valid() && bs[i].Ready() && bs[i].canBePickedUp && bs[i].width == BoxSide && bs[i].height == BoxSide
        && bs[i].left == specs[i].left && bs[i].top == specs[i].top && bs[i].angle == specs[i].angle
        && bs[i].body == BodyFor(specs[i].left, specs[i].top, BoxSide, BoxSide, specs[i].angle)
    {
      var b := new Portalable(specs[n].left, specs[n].top, BoxSide, BoxSide, specs[n].angle, true);
      bs := bs + [b];
    }
  }

  /** Turrets made from their specs, each new, consistent and idle. */
  method MakeTurrets(specs: seq<TurretSpec>) returns (ts: seq<Turret>)
    ensures |ts| == |specs|
    ensures forall i :: 0 <= i < |ts| ==> fresh(ts[i]) && fresh(ts[i].core)
    ensures forall i, j :: 0 <= i < j < |ts| ==> ts[i].core != ts[j].core
    ensures forall i :: 0 <= i < |ts| ==>
      ts[i].Valid() && ts[i].core.Ready() && ts[i].Gun() == Rules.Gun(0, 0, 0) && ts[i].facing == specs[i].facing
      && ts[i].core.left == specs[i].left && ts[i].core.top == specs[i].top
      && ts[i].core.body.friction == DefaultFriction
  {
    ts := [];
    for n := 0 to |specs|
      invariant |ts| == n
      invariant forall i :: 0 <= i < n ==> fresh(ts[i]) && fresh(ts[i].core)
      invariant forall i, j :: 0 <= i < j < n ==> ts[i].core != ts[j].core
      invariant forall i :: 0 <= i < n ==>
        ts[i].Valid() && ts[i].core.Ready() && ts[i].Gun() == Rules.Gun(0, 0, 0) && ts[i].facing == specs[i].facing
        && ts[i].core.left == specs[i].left && ts[i].core.top == specs[i].top
        && ts[i].core.body.friction == DefaultFriction
    {
      var t := new Turret(specs[n].left, specs[n].top, specs[n].facing);
      ts := ts + [t];
    }
  }

  /** The default places of the man and the exit, for levels that keep them. */
  const ManStart: (real, real) := (50.0, 100.0)
  const ExitStart: (real, real) := (530.0, 290.0)

  /**
   * The objects of `s` stand where `layout` puts them: the man and the exit at their places
   * (or the defaults), the walls, platforms and jump plates of the level, and one box and one
   * turret per entry of the layout, each at its place, the boxes at their angles and the
   * turrets with their facings.
   */
  predicate BuiltFrom(s: Scene, layout: Layout)
    reads s.man.core, s.boxes, s.cores
  {
    (s.man.core.left, s.man.core.top) == (if layout.man.Some? then layout.man.value else ManStart)
    && (s.exit.left, s.exit.top) == (if layout.exit.Some? then layout.exit.value else ExitStart)
    && s.walls == Walls() && s.platforms == layout.platforms && s.jumpPlates == layout.jumpPlates
    && |s.boxes| == |layout.boxes| && |s.turrets| == |layout.turrets| && s.Indexed()
    && (forall i :: 0 <= i < |s.boxes| ==>
      s.boxes[i].left == layout.boxes[i].left && s.boxes[i].top == layout.boxes[i].top
      && s.boxes[i].angle == layout.boxes[i].angle)
    && (forall i :: 0 <= i < |s.turrets| ==>
      s.turrets[i].facing == layout.turrets[i].facing
      && s.cores[i].left == layout.turrets[i].left && s.cores[i].top == layout.turrets[i].top)
  }

  /**
   * The objects `init` makes for a level: the walls, a new man, exit and physics world, and
   * the level's platforms, jump plates, boxes and turrets, all new, consistent and at rest.
   */
  method Build(layout: Layout) returns (s: Scene)
    ensures s.Valid() && s.man.heldObj == null && s.exit.exiting == 0 && s.physics.joints == {}
    ensures fresh(s.man) && fresh(s.man.core) && fresh(s.exit) && fresh(s.physics)
    ensures forall i :: 0 <= i < |s.boxes| ==> fresh(s.boxes[i])
    ensures forall i :: 0 <= i < |s.turrets| ==> fresh(s.turrets[i]) && fresh(s.cores[i])
    ensures BuiltFrom(s, layout)
  {
    var bs := MakeBoxes(layout.boxes);
    var ts := MakeTurrets(layout.turrets);
    var m, e, p := MakeActors(layout);
    s := Scene(m, e, p, Walls(), layout.platforms, layout.jumpPlates, bs, ts, Cores(ts));
  }

  /** The man, the exit and the physics world `init` makes for a level: new, idle and without joints. */
  method MakeActors(layout: Layout) returns (m: Man, e: Exit, p: Physics)
    ensures fresh(m) && fresh(m.core) && fresh(e) && fresh(p)
    ensures m.Valid() && p.Valid() && m.JointsMatch(p) && e.Valid() && e.exiting == 0 && p.joints == {}
    ensures m.heldObj == null && !m.core.exiting && m.core.body.friction == DefaultFriction
    ensures (m.core.left, m.core.top) == (if layout.man.Some? then layout.man.value else ManStart)
    ensures (e.left, e.top) == (if layout.exit.Some? then layout.exit.value else ExitStart)
  {
    var manAt := if layout.man.Some? then layout.man.value else ManStart;
    m := new Man(manAt.0, manAt.1);
    var exitAt := if layout.exit.Some? then layout.exit.value else ExitStart;
    e := new Exit(exitAt.0, exitAt.1);
    p := new Physics();
  }


  /** Every object of `sc` was made since the start of the enclosing method. */
  twostate predicate FreshScene(new sc: Scene) {
    fresh(sc.man) && fresh(sc.man.core) && fresh(sc.physics) && fresh(sc.exit)
    && (forall i :: 0 <= i < |sc.boxes| ==> fresh(sc.boxes[i]))
    && (forall i :: 0 <= i < |sc.turrets| ==> fresh(sc.turrets[i]))
    && (forall i :: 0 <= i < |sc.cores| ==> fresh(sc.cores[i]))
  }

  /**
   * A change that leaves the man, the physics world and the exit alone and keeps every
   * portalable object consistent, with its `exiting` flag and its friction, keeps the level
   * consistent.
   */
  twostate lemma CarriedKept(sc: Scene)
    requires old(sc.Valid())
    requires unchanged(sc.man, sc.physics, sc.exit)
    requires forall i :: 0 <= i < |sc.turrets| ==> sc.turrets[i].Valid()
    requires forall o :: o in sc.Candidates() ==>
      o.Valid() && o.exiting == old(o.exiting) && o.body.friction == old(o.body.friction)
    ensures sc.Valid()
  {
    assert sc.man.core in sc.Candidates();
    forall i | 0 <= i < |sc.boxes| ensures sc.boxes[i].Valid() && sc.boxes[i].body.friction == old(sc.boxes[i].body.friction) {
      assert sc.boxes[i] in sc.Candidates();
    }
    forall i | 0 <= i < |sc.cores| ensures sc.cores[i].body.friction == old(sc.cores[i].body.friction) {
      assert sc.cores[i] in sc.Candidates();
    }
  }

  /**
   * A change to the bodies of the man, the boxes and the turrets alone, which keeps each
   * body's `active` flag and its friction, keeps the level consistent.
   */
  twostate lemma BodiesKept(sc: Scene)
    requires old(sc.Valid())
    requires unchanged(sc.man, sc.physics, sc.exit)
    requires forall i :: 0 <= i < |sc.turrets| ==> unchanged(sc.turrets[i])
    requires forall o :: o in sc.Candidates() ==>
      o.State() == old(o.State()).(body := o.body)
      && o.body.active == old(o.body.active) && o.body.friction == old(o.body.friction)
    ensures sc.Valid()
  {
    forall o | o in sc.Candidates() ensures o.Valid() && o.exiting == old(o.exiting) {
      assert old(o.Valid()) by {
        assert o == sc.man.core || o in sc.boxes || o in sc.cores;
        if o in sc.cores {
          var i :| 0 <= i < |sc.cores| && sc.cores[i] == o;
          assert old(sc.turrets[i].Valid());
        }
      }
    }
    forall i | 0 <= i < |sc.turrets| ensures sc.turrets[i].Valid() {
      assert sc.cores[i] in sc.Candidates();
      assert old(sc.turrets[i].Valid());
    }
    CarriedKept(sc);
  }

  /** Stepping the boxes, which keeps each consistent with its `exiting` flag and friction, keeps the level consistent. */
  twostate lemma BoxesKept(sc: Scene)
    requires old(sc.Valid())
    requires unchanged(sc.man, sc.man.core, sc.physics, sc.exit)
    requires forall i :: 0 <= i < |sc.turrets| ==> unchanged(sc.turrets[i])
    requires forall i :: 0 <= i < |sc.cores| ==> unchanged(sc.cores[i])
    requires forall i :: 0 <= i < |sc.boxes| ==>
      sc.boxes[i].Valid() && sc.boxes[i].body.friction == old(sc.boxes[i].body.friction)
    ensures sc.Valid()
  {
  }

  /** Stepping the turrets, which keeps each consistent with its body's `exiting` flag and friction, keeps the level consistent. */
  twostate lemma TurretsKept(sc: Scene)
    requires old(sc.Valid())
    requires unchanged(sc.man, sc.man.core, sc.physics, sc.exit)
    requires forall i :: 0 <= i < |sc.boxes| ==> unchanged(sc.boxes[i])
    requires forall i :: 0 <= i < |sc.turrets| ==>
      sc.turrets[i].Valid() && sc.cores[i].exiting == old(sc.cores[i].exiting)
      && sc.cores[i].body.friction == old(sc.cores[i].body.friction)
    ensures sc.Valid()
  {
  }

  /** Boxes and turrets stay consistent across a change that keeps every other object consistent. */
  twostate lemma ObjectsKept(sc: Scene)
    requires old(sc.ObjectsValid()) && sc.Separate()
    requires forall o: Portalable :: old(allocated(o)) && o != sc.man.core && old(o.Valid()) ==> o.Valid()
    requires forall i :: 0 <= i < |sc.turrets| ==> unchanged(sc.turrets[i])
    ensures sc.ObjectsValid()
  {
    forall i | 0 <= i < |sc.turrets| ensures sc.turrets[i].Valid() {
      assert old(sc.turrets[i].Valid());
      assert sc.cores[i] != sc.man.core;
    }
  }

  /**
   * The friction rule survives a change that leaves the man's friction alone, gives a newly
   * held object none, gives a released one the default, and touches no other friction.
   */
  twostate lemma FrictionKept(sc: Scene)
    requires old(sc.FrictionMatches()) && sc.Separate()
    requires sc.man.core.body.friction == old(sc.man.core.body.friction)
    requires forall o: Portalable :: old(allocated(o)) && o != sc.man.core ==>
      (o == sc.man.heldObj ==> o.body.friction == 0.0 || (o == old(sc.man.heldObj) && o.body.friction == old(o.body.friction)))
      && (o != sc.man.heldObj ==> o.body.friction == if o == old(sc.man.heldObj) then DefaultFriction else old(o.body.friction))
    ensures sc.FrictionMatches()
  {
    forall i | 0 <= i < |sc.boxes|
      ensures sc.boxes[i].body.friction == if sc.boxes[i] == sc.man.heldObj then 0.0 else DefaultFriction
    {
      assert sc.boxes[i] != sc.man.core;
    }
    forall i | 0 <= i < |sc.cores|
      ensures sc.cores[i].body.friction == if sc.cores[i] == sc.man.heldObj then 0.0 else DefaultFriction
    {
      assert sc.cores[i] != sc.man.core;
    }
  }
}
