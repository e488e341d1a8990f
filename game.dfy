/**
 * One unpaused update of a level: the physics step, whose outcome is an input, then the fixed
 * order in which `World.update` updates the man, the exit, the boxes, the turrets, the portals
 * and the bullets.
 */
module Game {
  import opened Options
  import opened Bodies
  import opened Lists
  import opened Teleport
  import opened Rules
  import opened Entities
  import opened StickMan
  import opened Levels

  /** One physics step on the bodies `os`: the body at position `i` takes the outcome `motion(i)`. */
  method SimulateAll(os: seq<Portalable>, motion: nat -> Kinematics)
    requires forall i, j :: 0 <= i < j < |os| ==> os[i] != os[j]
    modifies os`body
    ensures forall i :: 0 <= i < |os| ==> os[i].body == Simulated(old(os[i].body), motion(i))
  {
    for n := 0 to |os|
      invariant forall i :: 0 <= i < |os| ==>
        os[i].body == if i < n then Simulated(old(os[i].body), motion(i)) else old(os[i].body)
    {
      os[n].body := Simulated(os[n].body, motion(n));
    }
  }

  /**
   * The physics step of `World.update` (`physics.update`): every body of the man, the boxes
   * and the turrets moves as `tick` says, unless it is inactive, and nothing else changes. The
   * level stays consistent, since no body's `active` flag or friction changes.
   */
  method Simulate(sc: Scene, tick: Tick)
    requires sc.Valid()
    modifies sc.man.core`body, sc.boxes`body, sc.cores`body
    ensures sc.Valid()
    ensures sc.man.core.body == Simulated(old(sc.man.core.body), tick.manMotion)
    ensures forall i :: 0 <= i < |sc.boxes| ==> sc.boxes[i].body == Simulated(old(sc.boxes[i].body), tick.boxMotion(i))
    ensures forall i :: 0 <= i < |sc.cores| ==> sc.cores[i].body == Simulated(old(sc.cores[i].body), tick.turretMotion(i))
  {
    MoveBodies(sc, tick);
    BodiesKept(sc);
  }

  /** The body updates of `Simulate`: only bodies change, each keeping its `active` flag and its friction. */
  method MoveBodies(sc: Scene, tick: Tick)
    requires sc.Separate()
    modifies sc.man.core`body, sc.boxes`body, sc.cores`body
    ensures sc.man.core.body == Simulated(old(sc.man.core.body), tick.manMotion)
    ensures forall i :: 0 <= i < |sc.boxes| ==> sc.boxes[i].body == Simulated(old(sc.boxes[i].body), tick.boxMotion(i))
    ensures forall i :: 0 <= i < |sc.cores| ==> sc.cores[i].body == Simulated(old(sc.cores[i].body), tick.turretMotion(i))
    ensures forall o :: o in sc.Candidates() ==>
      o.State() == old(o.State()).(body := o.body)
      && o.body.active == old(o.body.active) && o.body.friction == old(o.body.friction)
  {
    sc.man.core.body := Simulated(sc.man.core.body, tick.manMotion);
    SimulateAll(sc.boxes, tick.boxMotion);
    SimulateAll(sc.cores, tick.turretMotion);
    forall o | o in sc.Candidates()
      ensures o.State() == old(o.State()).(body := o.body)
      ensures o.body.active == old(o.body.active) && o.body.friction == old(o.body.friction)
    {
      if o in sc.boxes {
        var i :| 0 <= i < |sc.boxes| && sc.boxes[i] == o;
      } else if o in sc.cores {
        var i :| 0 <= i < |sc.cores| && sc.cores[i] == o;
      }
    }
  }

  /**
   * The man's part of `World.update` (`Man.update`): the level stays consistent, and the
   * portals stay consistent and one per colour.
   */
  method StepMan(sc: Scene, portals: seq<Portal>, mouseDown: bool, tick: Tick) returns (ps: seq<Portal>, md: bool)
    requires sc.Valid() && ValidPortals(portals)
    modifies sc.man, sc.man.core, sc.physics, {sc.man.heldObj, sc.SenseOf(tick).pickup, Underfoot(sc.SenseOf(tick).footing)}`body
    ensures sc.Valid() && ValidPortals(ps)
  {
    ps, md := MoveMan(sc, portals, mouseDown, sc.SenseOf(tick));
    ObjectsKept(sc);
    FrictionKept(sc);
  }

  /**
   * `Man.update` on the level's man: the man and the joints stay consistent, the man holds
   * nothing or an object of the level, the portals stay one per colour, and the other bodies
   * keep their consistency and follow the friction rule.
   */
  method MoveMan(sc: Scene, portals: seq<Portal>, mouseDown: bool, s: Sense) returns (ps: seq<Portal>, md: bool)
    requires sc.Valid() && ValidPortals(portals)
    requires s.pickup == null || s.pickup in sc.Pickables()
    requires Underfoot(s.footing) == null || Underfoot(s.footing) in sc.Pickables()
    modifies sc.man, sc.man.core, sc.physics, {sc.man.heldObj, s.pickup, Underfoot(s.footing)}`body
    ensures sc.ManValid() && sc.Holding() && ValidPortals(ps)
    ensures sc.man.core.body.friction == old(sc.man.core.body.friction)
    ensures forall o: Portalable :: old(allocated(o)) && o != sc.man.core ==>
      (o == sc.man.heldObj ==> o.body.friction == 0.0 || (o == old(sc.man.heldObj) && o.body.friction == old(o.body.friction)))
      && (o != sc.man.heldObj ==> o.body.friction == if o == old(sc.man.heldObj) then DefaultFriction else old(o.body.friction))
    ensures forall o: Portalable :: old(allocated(o)) && o != sc.man.core && old(o.Valid()) ==> o.Valid()
  {
    sc.ManNotPickable();
    ps, md := sc.man.Update(sc.physics, portals, mouseDown, s);
  }

  /**
   * The exit's part of `World.update` (`Exit.update`): the level stays consistent, the man is
   * taken out once he reaches an idle exit, and a reset is asked for exactly when the
   * animation has run its full length.
   */
  method StepExit(sc: Scene, ghost keep: seq<Portal>) returns (reset: bool)
    requires sc.Valid() && AllValid(keep)
    modifies sc.exit, sc.man.core`exiting, sc.man.core`body
    ensures sc.Valid() && AllValid(keep)
    ensures reset <==> old(sc.exit.exiting) >= ExitAnimationFrames
    ensures sc.man.core.exiting <==> old(sc.man.core.exiting) || old(sc.exit.Reached(sc.man.core))
  {
    reset := sc.exit.Update(sc.man.core);
  }

  /**
   * The box loop of `World.update`: `PortalableGameObj.update` on each box in list order. Each
   * box takes one step of its teleport machine and keeps its `exiting` flag and its friction.
   */
  method UpdateBoxes(bs: seq<Portalable>)
    requires forall i, j :: 0 <= i < j < |bs| ==> bs[i] != bs[j]
    requires forall i :: 0 <= i < |bs| ==> bs[i].Valid()
    modifies bs
    ensures forall i :: 0 <= i < |bs| ==>
      bs[i].beingPortaled == CounterStep(MaxFrames, old(bs[i].beingPortaled))
      && bs[i].justPortaled == CooldownStep(old(bs[i].beingPortaled), old(bs[i].justPortaled))
      && bs[i].Valid() && bs[i].exiting == old(bs[i].exiting) && bs[i].body.friction == old(bs[i].body.friction)
  {
    for n := 0 to |bs|
      invariant forall i :: 0 <= i < |bs| ==>
        if i < n then
          bs[i].beingPortaled == CounterStep(MaxFrames, old(bs[i].beingPortaled))
          && bs[i].justPortaled == CooldownStep(old(bs[i].beingPortaled), old(bs[i].justPortaled))
          && bs[i].Valid() && bs[i].exiting == old(bs[i].exiting) && bs[i].body.friction == old(bs[i].body.friction)
        else unchanged(bs[i])
    {
      bs[n].Update();
    }
  }

  /** The boxes' part of `World.update`, within a consistent level, which stays consistent. */
  method StepBoxes(sc: Scene, ghost keep: seq<Portal>)
    requires sc.Valid() && AllValid(keep)
    modifies sc.boxes
    ensures sc.Valid() && AllValid(keep)
    ensures forall i :: 0 <= i < |sc.boxes| ==>
      sc.boxes[i].beingPortaled == CounterStep(MaxFrames, old(sc.boxes[i].beingPortaled))
      && sc.boxes[i].justPortaled == CooldownStep(old(sc.boxes[i].beingPortaled), old(sc.boxes[i].justPortaled))
  {
    UpdateBoxes(sc.boxes);
    BoxesKept(sc);
  }

  /**
   * The turret loop of `World.update`: `Turret.update` on each turret in list order. Each turret
   * takes one step of its teleport machine and, unless it is being teleported, one step of
   * its gun, which aims only when the turret stands upright and is not the one `held`. Each
   * body keeps its `exiting` flag and its friction. The shots are new bullets with a full life.
   */
  method UpdateTurrets(ts: seq<Turret>, cores: seq<Portalable>, held: Portalable?, tick: Tick) returns (shots: seq<Bullet>)
    requires |cores| == |ts| && forall i :: 0 <= i < |ts| ==> cores[i] == ts[i].core
    requires forall i, j :: 0 <= i < j < |cores| ==> cores[i] != cores[j]
    requires forall i :: 0 <= i < |ts| ==> ts[i].Valid()
    modifies ts, cores
    ensures forall i :: 0 <= i < |ts| ==>
      ts[i].Stepped(old(cores[i].beingPortaled), old(ts[i].Gun()), tick.upright(i) && held != cores[i], tick.seesMan(i))
      && ts[i].Valid() && cores[i].exiting == old(cores[i].exiting) && cores[i].body.friction == old(cores[i].body.friction)
    ensures Distinct(shots) && FullLife(shots) && forall i :: 0 <= i < |shots| ==> fresh(shots[i])
  {
    shots := [];
    for n := 0 to |ts|
      invariant forall i :: 0 <= i < |ts| ==>
        if i < n then
          ts[i].Stepped(old(cores[i].beingPortaled), old(ts[i].Gun()), tick.upright(i) && held != cores[i], tick.seesMan(i))
          && ts[i].Valid() && cores[i].exiting == old(cores[i].exiting) && cores[i].body.friction == old(cores[i].body.friction)
        else unchanged(ts[i], cores[i])
      invariant Distinct(shots) && FullLife(shots) && forall i :: 0 <= i < |shots| ==> fresh(shots[i])
    {
      label Before:
      var shot := ts[n].Update(held == cores[n], tick.upright(n), tick.seesMan(n));
      assert forall i :: 0 <= i < |ts| && i != n ==> unchanged@Before(ts[i], cores[i]);
      if shot.Some? {
        shots := shots + [shot.value];
      }
    }
  }

  /** The turrets' part of `World.update`, within a consistent level, which stays consistent. */
  method StepTurrets(sc: Scene, tick: Tick, ghost keep: seq<Portal>) returns (shots: seq<Bullet>)
    requires sc.Valid() && AllValid(keep)
    modifies sc.turrets, sc.cores
    ensures sc.Valid() && AllValid(keep)
    ensures forall i :: 0 <= i < |sc.turrets| ==>
      sc.turrets[i].Stepped(old(sc.cores[i].beingPortaled), old(sc.turrets[i].Gun()),
        tick.upright(i) && sc.man.heldObj != sc.cores[i], tick.seesMan(i))
    ensures Distinct(shots) && FullLife(shots) && forall i :: 0 <= i < |shots| ==> fresh(shots[i])
  {
    shots := UpdateTurrets(sc.turrets, sc.cores, sc.man.heldObj, tick);
    assert AllValid(keep);
    TurretsKept(sc);
  }

  /** One portal per colour, each consistent. */
  predicate ValidPortals(ps: seq<Portal>)
    reads ps
  {
    OnePerColour(ps) && AllValid(ps)
  }

  /**
   * The portal loop of `World.update`: `Portal.update` on each portal of `snap`, the list as
   * the update found it, against the current list `portals` and the objects portals carry.
   * Portals only leave the list, which keeps them consistent and one per colour; every portal
   * of the snapshot ages by one; every candidate stays consistent with its `exiting` flag and
   * its friction.
   */
  method UpdatePortals(snap: seq<Portal>, portals: seq<Portal>, candidates: seq<Portalable>, tick: Tick)
    returns (ps: seq<Portal>)
    requires ValidPortals(snap) && ValidPortals(portals)
    requires Distinct(candidates) && forall k :: 0 <= k < |candidates| ==> candidates[k].Valid()
    modifies snap, candidates
    ensures ValidPortals(ps) && AllValid(snap)
    ensures forall i :: 0 <= i < |ps| ==> ps[i] in portals
    ensures forall i :: 0 <= i < |snap| ==> snap[i].age == old(snap[i].age) + 1
    ensures forall k :: 0 <= k < |candidates| ==>
      candidates[k].Valid() && candidates[k].exiting == old(candidates[k].exiting)
      && candidates[k].body.friction == old(candidates[k].body.friction)
  {
    ps := portals;
    for n := 0 to |snap|
      invariant ValidPortals(ps) && forall i :: 0 <= i < |ps| ==> ps[i] in portals
      invariant forall i :: 0 <= i < |snap| ==>
        snap[i].Valid() && if i < n then snap[i].age == old(snap[i].age) + 1 else unchanged(snap[i])
      invariant forall k :: 0 <= k < |candidates| ==>
        candidates[k].Valid() && candidates[k].exiting == old(candidates[k].exiting)
        && candidates[k].body.friction == old(candidates[k].body.friction)
    {
      ps := UpdatePortal(snap[n], ps, candidates, tick.portalHit(n), tick.portalCos(n), tick.portalSin(n));
    }
  }

  /** `Portal.update` on portal `p` against the current list `ps`: the list only loses portals. */
  method UpdatePortal(p: Portal, ps: seq<Portal>, candidates: seq<Portalable>, hit: PortalHit, cos: real, sin: real)
    returns (ps': seq<Portal>)
    requires p.Valid() && ValidPortals(ps)
    requires Distinct(candidates) && forall k :: 0 <= k < |candidates| ==> candidates[k].Valid()
    modifies p, candidates
    ensures p.Valid() && p.age == old(p.age) + 1
    ensures ValidPortals(ps') && forall i :: 0 <= i < |ps'| ==> ps'[i] in ps
    ensures forall k :: 0 <= k < |candidates| ==>
      candidates[k].Valid() && candidates[k].exiting == old(candidates[k].exiting)
      && candidates[k].body.friction == old(candidates[k].body.friction)
  {
    ps' := p.Update(ps, candidates, hit, cos, sin);
    assert AllValid(ps);
    if ps' != ps {
      assert ps' == RemoveFirst(ps, p);
      RemoveKeepsOnePerColour(ps, p);
    }
  }

  /**
   * The portals' part of `World.update`, within a consistent level, which stays consistent.
   * `snap` is the list the update started with; the man's shot may since have changed `portals`.
   */
  method StepPortals(sc: Scene, snap: seq<Portal>, portals: seq<Portal>, tick: Tick) returns (ps: seq<Portal>)
    requires sc.Valid() && ValidPortals(snap) && ValidPortals(portals)
    modifies snap, sc.man.core, sc.boxes, sc.cores
    ensures forall b: Bullet :: old(allocated(b)) ==> b.life == old(b.life)
    ensures sc.Valid() && ValidPortals(ps) && AllValid(snap)
    ensures forall i :: 0 <= i < |ps| ==> ps[i] in portals
    ensures forall i :: 0 <= i < |snap| ==> snap[i].age == old(snap[i].age) + 1
  {
    sc.CandidatesDistinct();
    ps := UpdatePortals(snap, portals, sc.Candidates(), tick);
    CarriedKept(sc);
  }

  /** Bullets that still have all of their life. */
  predicate FullLife(bs: seq<Bullet>)
    reads bs
  {
    forall i :: 0 <= i < |bs| ==> bs[i].life == BulletLife
  }

  /** Bullets that all have life left. */
  predicate LifeLeft(bs: seq<Bullet>)
    reads bs
  {
    forall i :: 0 <= i < |bs| ==> bs[i].life > 0.0
  }

  /**
   * The bullet loop of `World.update`: `Bullet.update` on each bullet of `snap`, the list as
   * the update found it; a bullet whose life runs out is destroyed (`world.bullets.remove`).
   * `bullets` is the current list. Every bullet of the snapshot loses one unit of life, and
   * exactly the listed bullets that are not of the snapshot or still have life stay listed,
   * so that when every listed bullet had life left, every one still listed has.
   */
  method UpdateBullets(snap: seq<Bullet>, bullets: seq<Bullet>) returns (bs: seq<Bullet>)
    requires Distinct(snap) && Distinct(bullets)
    modifies snap
    ensures forall i :: 0 <= i < |snap| ==> snap[i].life == old(snap[i].life) - 1.0
    ensures Distinct(bs)
    ensures forall b :: b in bs <==> b in bullets && (b in snap ==> b.life > 0.0)
    ensures old(LifeLeft(bullets)) ==> LifeLeft(bs)
  {
    bs := bullets;
    for n := 0 to |snap|
      invariant forall i :: 0 <= i < |snap| ==> snap[i].life == if i < n then old(snap[i].life) - 1.0 else old(snap[i].life)
      invariant Distinct(bs)
      invariant forall b :: b in bs <==> b in bullets && (b in snap[..n] ==> b.life > 0.0)
    {
      var expired := snap[n].Update();
      if expired {
        RemoveFirstDistinct(bs, snap[n]);
        bs := RemoveFirst(bs, snap[n]);
      }
      assert snap[..n + 1] == snap[..n] + [snap[n]];
    }
    assert snap[..|snap|] == snap;
  }

  /** Bullets already listed and bullets just made are different objects, so listing both repeats none. */
  lemma AppendShots(bullets: seq<Bullet>, shots: seq<Bullet>)
    requires Distinct(bullets) && Distinct(shots) && LifeLeft(bullets) && FullLife(shots)
    requires forall i, j :: 0 <= i < |bullets| && 0 <= j < |shots| ==> bullets[i] != shots[j]
    ensures Distinct(bullets + shots) && LifeLeft(bullets + shots)
  {
    var all := bullets + shots;
    forall i, j | 0 <= i < j < |all| ensures all[i] != all[j] {
      if j < |bullets| {
      } else if i < |bullets| {
        assert all[j] == shots[j - |bullets|];
      } else {
        assert all[i] == shots[i - |bullets|] && all[j] == shots[j - |bullets|];
      }
    }
    forall i | 0 <= i < |all| ensures all[i].life > 0.0 {
      if i >= |bullets| {
        assert all[i] == shots[i - |bullets|];
      }
    }
  }

  /**
   * The exit, the boxes and the turrets, in that order, within a consistent level, which stays
   * consistent. The turrets' shots are new bullets with a full life.
   */
  method StepObjects(sc: Scene, tick: Tick, ghost keep: seq<Portal>) returns (reset: bool, shots: seq<Bullet>)
    requires sc.Valid() && AllValid(keep)
    modifies sc.exit, sc.man.core`exiting, sc.man.core`body, sc.boxes, sc.turrets, sc.cores
    ensures sc.Valid() && AllValid(keep)
    ensures reset <==> old(sc.exit.exiting) >= ExitAnimationFrames
    ensures Distinct(shots) && FullLife(shots) && forall i :: 0 <= i < |shots| ==> fresh(shots[i])
  {
    reset := StepExit(sc, keep);
    StepBoxes(sc, keep);
    shots := StepTurrets(sc, tick, keep);
  }

  /**
   * Everything after the man: the exit, the boxes, the turrets, then the portals of `snap`,
   * the list the update started with, against the current list `portals`.
   */
  method StepRest(sc: Scene, snap: seq<Portal>, portals: seq<Portal>, tick: Tick)
    returns (ps: seq<Portal>, reset: bool, shots: seq<Bullet>)
    requires sc.Valid() && ValidPortals(snap) && ValidPortals(portals)
    modifies sc.man.core, sc.exit, sc.boxes, sc.turrets, sc.cores, snap
    ensures sc.Valid() && ValidPortals(ps)
    ensures reset <==> old(sc.exit.exiting) >= ExitAnimationFrames
    ensures Distinct(shots) && FullLife(shots) && forall i :: 0 <= i < |shots| ==> fresh(shots[i])
  {
    reset, shots := StepObjects(sc, tick, snap + portals);
    assert forall i :: 0 <= i < |snap| ==> snap[i] == (snap + portals)[i];
    assert forall i :: 0 <= i < |portals| ==> portals[i] == (snap + portals)[|snap| + i];
    ps := StepPortals(sc, snap, portals, tick);
  }

  /**
   * The level's part of an unpaused `World.update`, in the source's order: the man, the exit,
   * the boxes, then the turrets, whose shots are new bullets with a full life, and the portals
   * listed when the update began, each of which ages by one. The level stays consistent and
   * the portals one per colour. A reset is asked for exactly when the exit animation has run
   * its full length.
   */
  method StepScene(sc: Scene, portals: seq<Portal>, mouseDown: bool, tick: Tick)
    returns (ps: seq<Portal>, md: bool, reset: bool, shots: seq<Bullet>)
    requires sc.Valid() && ValidPortals(portals)
    modifies sc.man, sc.man.core, sc.physics, sc.exit, sc.boxes, sc.turrets, sc.cores, portals
    ensures sc.Valid() && ValidPortals(ps)
    ensures reset <==> old(sc.exit.exiting) >= ExitAnimationFrames
    ensures Distinct(shots) && FullLife(shots) && forall i :: 0 <= i < |shots| ==> fresh(shots[i])
  {
    ps, md := StepMan(sc, portals, mouseDown, tick);
    ps, reset, shots := StepRest(sc, portals, ps, tick);
  }

  /**
   * A level in play: its objects are consistent, the portals are one per colour, and every
   * bullet is listed once and has life left.
   */
  ghost predicate Playable(sc: Scene, portals: seq<Portal>, bullets: seq<Bullet>)
    reads sc.man, sc.man.core, sc.physics, sc.exit, sc.boxes, sc.turrets, sc.cores, portals, bullets
  {
    sc.Valid() && ValidPortals(portals) && Distinct(bullets) && LifeLeft(bullets)
  }

  /**
   * All of an unpaused `World.update` after the physics step: the level's objects, then the
   * bullets listed when the update began. The level stays in play: on top of what `StepScene`
   * keeps, the bullets stay listed once each with life left.
   */
  method Advance(sc: Scene, portals: seq<Portal>, bullets: seq<Bullet>, mouseDown: bool, tick: Tick)
    returns (ps: seq<Portal>, bs: seq<Bullet>, md: bool, reset: bool)
    requires Playable(sc, portals, bullets)
    modifies sc.man, sc.man.core, sc.physics, sc.exit, sc.boxes, sc.turrets, sc.cores, portals, bullets
    ensures Playable(sc, ps, bs)
    ensures reset <==> old(sc.exit.exiting) >= ExitAnimationFrames
  {
    var shots;
    ps, md, reset, shots := StepScene(sc, portals, mouseDown, tick);
    bs := StepBullets(sc, ps, bullets, shots);
  }

  /**
   * The unpaused part of `World.update`: the physics step (`Simulate`), then `Advance`. The
   * level stays in play, and a reset is asked for exactly when the exit animation has run.
   */
  method Frame(sc: Scene, portals: seq<Portal>, bullets: seq<Bullet>, mouseDown: bool, tick: Tick)
    returns (ps: seq<Portal>, bs: seq<Bullet>, md: bool, reset: bool)
    requires Playable(sc, portals, bullets)
    modifies sc.man, sc.man.core, sc.physics, sc.exit, sc.boxes, sc.turrets, sc.cores, portals, bullets
    ensures Playable(sc, ps, bs)
    ensures reset <==> old(sc.exit.exiting) >= ExitAnimationFrames
  {
    Simulate(sc, tick);
    ps, bs, md, reset := Advance(sc, portals, bullets, mouseDown, tick);
  }

  /** The bullets' part of `World.update`, after the turrets' shots joined the list. */
  method StepBullets(sc: Scene, ps: seq<Portal>, bullets: seq<Bullet>, shots: seq<Bullet>) returns (bs: seq<Bullet>)
    requires sc.Valid() && ValidPortals(ps)
    requires Distinct(bullets) && LifeLeft(bullets)
    requires Distinct(shots) && FullLife(shots) && forall i :: 0 <= i < |shots| ==> shots[i] !in bullets
    modifies bullets
    ensures sc.Valid() && ValidPortals(ps)
    ensures Distinct(bs) && LifeLeft(bs)
  {
    AppendShots(bullets, shots);
    bs := UpdateBullets(bullets, bullets + shots);
  }
}
