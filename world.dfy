/**
 * The world: the current level, the portals and bullets in play, the level counter, and the
 * pause, edit and reset flags that `World.update` acts on.
 */
module Worlds {
  import opened Options
  import opened Bodies
  import opened Lists
  import opened Teleport
  import opened Rules
  import opened Entities
  import opened StickMan
  import opened Levels
  import opened Game

  /** The game world: the current level's objects, the portals and bullets, the level and the editor flags. */
  class World {
    var scene: Scene
    var portals: seq<Portal>
    var bullets: seq<Bullet>
    var level: int
    var paused: bool
    /** A request to toggle the editor; `update` reads and clears it, and no input handler of the game sets it. */
    var editTriggered: bool
    var resetOnNextUpdate: bool
    var mouseDown: bool
    /** Whether the level editor's wheel is open. */
    var editWheel: bool

    /**
     * The level is consistent, the portals are one per colour, every bullet is listed once and
     * has life left, and the level is one of the game's. The editor flags are not constrained.
     */
    ghost predicate Consistent()
      reads this`scene, this`portals, this`bullets, this`level, scene.man, scene.man.core, scene.physics, scene.exit, scene.boxes, scene.turrets,
        scene.cores, portals, bullets
    {
      Playable(scene, portals, bullets) && 1 <= level <= LastLevel
    }

    /** The world between updates: consistent, and the edit wheel is open only while paused. */
    ghost predicate Valid()
      reads this`scene, this`portals, this`bullets, this`level, this`editWheel, this`paused, scene.man, scene.man.core, scene.physics, scene.exit, scene.boxes, scene.turrets,
        scene.cores, portals, bullets
    {
      Consistent() && (editWheel ==> paused)
    }

    /**
     * `World.init`: move to the next level (after the last, back to `LoopLevel`), build it
     * from its layout, and start without portals or bullets. The editor flags are left alone.
     */
    method Init(layoutOf: int -> Layout)
      requires 0 <= level
      modifies this`scene, this`portals, this`bullets, this`level
      ensures Consistent()
      ensures level == NextLevel(old(level))
      ensures FreshScene(scene)
      ensures BuiltFrom(scene, layoutOf(level))
      ensures portals == [] && bullets == [] && scene.physics.joints == {} && scene.man.heldObj == null
    {
      level := NextLevel(level);
      scene := Build(layoutOf(level));
      portals, bullets := [], [];
    }

    /**
     * The `World` constructor: level 0, then what `init` does from there, so play starts at
     * level 1, built from its layout, with no portals or bullets, unpaused.
     */
    constructor(layoutOf: int -> Layout)
      ensures Valid() && level == 1 && !paused && !editTriggered && !resetOnNextUpdate && !mouseDown && !editWheel
      ensures portals == [] && bullets == [] && BuiltFrom(scene, layoutOf(1))
      ensures scene.man.heldObj == null && scene.physics.joints == {}
    {
      var first := Build(layoutOf(NextLevel(0)));
      level, scene := NextLevel(0), first;
      portals, bullets := [], [];
      paused, editTriggered, resetOnNextUpdate, mouseDown, editWheel := false, false, false, false, false;
    }

    /** A mouse press (`handleMouseDown`): the next update acts on it. */
    method PressMouse()
      modifies this`mouseDown
      ensures mouseDown
    {
      mouseDown := true;
    }

    /**
     * The unpaused part of `World.update`: the physics step, then the level's objects, the
     * portals and the bullets take their turns, the lists take their new values, and an exit
     * animation that has run its full length asks for a reset on the next update.
     */
    method Step(tick: Tick)
      requires Consistent()
      modifies this`portals, this`bullets, this`mouseDown, this`resetOnNextUpdate
      modifies scene.man, scene.man.core, scene.physics, scene.exit, scene.boxes, scene.turrets, scene.cores, portals, bullets
      ensures Consistent()
      ensures resetOnNextUpdate <==> old(resetOnNextUpdate) || old(scene.exit.exiting) >= ExitAnimationFrames
    {
      var ps, bs, md, reset := Frame(scene, portals, bullets, mouseDown, tick);
      Store(ps, bs, md, reset);
    }

    /** The end of `Step`: the lists and the mouse flag take their new values, and a reset is recorded. */
    method Store(ps: seq<Portal>, bs: seq<Bullet>, md: bool, reset: bool)
      requires Playable(scene, ps, bs) && 1 <= level <= LastLevel
      modifies this`portals, this`bullets, this`mouseDown, this`resetOnNextUpdate
      ensures Consistent()
      ensures portals == ps && bullets == bs && mouseDown == md
      ensures resetOnNextUpdate <==> old(resetOnNextUpdate) || reset
    {
      portals, bullets, mouseDown, resetOnNextUpdate := ps, bs, md, resetOnNextUpdate || reset;
    }

    /**
     * The start of `World.update`: the edit key toggles pause, and entering the editor
     * restarts the level through `init`, which also moves to the next level; a pending reset
     * runs `init` again. Either the level, the portals and the bullets are as they were, or
     * they are those of a new start.
     */
    method Restart(layoutOf: int -> Layout)
      requires Consistent()
      modifies this`scene, this`portals, this`bullets, this`level, this`paused, this`editTriggered, this`resetOnNextUpdate
      ensures Consistent() && !editTriggered && !resetOnNextUpdate
      ensures paused <==> old(paused) != old(editTriggered)
      ensures var entered := if old(editTriggered) && !old(paused) then NextLevel(old(level)) else old(level);
        level == if old(resetOnNextUpdate) then NextLevel(entered) else entered
      ensures if (old(editTriggered) && !old(paused)) || old(resetOnNextUpdate)
        then FreshScene(scene) && portals == [] && bullets == [] && BuiltFrom(scene, layoutOf(level))
        else scene == old(scene) && portals == old(portals) && bullets == old(bullets)
    {
      ToggleEdit(layoutOf);
      ResetIfAsked(layoutOf);
    }

    /** The edit key's part of `Restart`: toggle pause, and restart the level when entering the editor. */
    method ToggleEdit(layoutOf: int -> Layout)
      requires Consistent()
      modifies this`scene, this`portals, this`bullets, this`level, this`paused, this`editTriggered
      ensures Consistent() && !editTriggered
      ensures paused <==> old(paused) != old(editTriggered)
      ensures if old(editTriggered) && !old(paused)
        then FreshScene(scene) && portals == [] && bullets == [] && level == NextLevel(old(level))
          && BuiltFrom(scene, layoutOf(level))
        else scene == old(scene) && portals == old(portals) && bullets == old(bullets) && level == old(level)
    {
      if editTriggered {
        if paused {
          paused := false;
        } else {
          paused := true;
          Init(layoutOf);
        }
        editTriggered := false;
      }
    }

    /** The pending reset's part of `Restart`: restart the level, which also moves to the next one. */
    method ResetIfAsked(layoutOf: int -> Layout)
      requires Consistent()
      modifies this`scene, this`portals, this`bullets, this`level, this`resetOnNextUpdate
      ensures Consistent() && !resetOnNextUpdate
      ensures if old(resetOnNextUpdate)
        then FreshScene(scene) && portals == [] && bullets == [] && level == NextLevel(old(level))
          && BuiltFrom(scene, layoutOf(level))
        else scene == old(scene) && portals == old(portals) && bullets == old(bullets) && level == old(level)
      ensures !old(resetOnNextUpdate) ==> forall l: Layout :: BuiltFrom(scene, l) == old(BuiltFrom(scene, l))
    {
      if resetOnNextUpdate {
        Init(layoutOf);
        resetOnNextUpdate := false;
      }
    }

    /** A mouse press while paused (the editor): open or close the edit wheel. */
    method Edit()
      modifies this`editWheel, this`mouseDown
      ensures !mouseDown && (editWheel <==> old(editWheel) != old(mouseDown))
    {
      if mouseDown {
        editWheel := !editWheel;
        mouseDown := false;
      }
    }

    /** Play: close the edit wheel, then `Step`. */
    method Play(tick: Tick)
      requires Consistent()
      modifies this`editWheel, this`portals, this`bullets, this`mouseDown, this`resetOnNextUpdate
      modifies scene.man, scene.man.core, scene.physics, scene.exit, scene.boxes, scene.turrets, scene.cores, portals, bullets
      ensures Consistent() && !editWheel
      ensures resetOnNextUpdate <==> old(resetOnNextUpdate) || old(scene.exit.exiting) >= ExitAnimationFrames
    {
      editWheel := false;
      Step(tick);
    }

    /**
     * `World.update`: `Restart`, then, while paused, `Edit` and nothing else moves; otherwise
     * `Play`. A paused update leaves the level's objects, the portals and the bullets as it
     * found them, or, when it restarted the level, as `init` built them.
     */
    method Update(layoutOf: int -> Layout, tick: Tick)
      requires Valid()
      modifies this, scene.man, scene.man.core, scene.physics, scene.exit, scene.boxes, scene.turrets, scene.cores, portals, bullets
      ensures Valid() && !editTriggered
      ensures paused <==> old(paused) != old(editTriggered)
      ensures var entered := if old(editTriggered) && !old(paused) then NextLevel(old(level)) else old(level);
        level == if old(resetOnNextUpdate) then NextLevel(entered) else entered
      ensures paused ==> !mouseDown && !resetOnNextUpdate && (editWheel <==> old(editWheel) != old(mouseDown))
      ensures !paused ==> !editWheel
      ensures !paused && !old(resetOnNextUpdate) ==> (resetOnNextUpdate <==> old(scene.exit.exiting) >= ExitAnimationFrames)
      ensures if (old(editTriggered) && !old(paused)) || old(resetOnNextUpdate)
        then FreshScene(scene)
        else scene == old(scene)
      ensures paused && ((old(editTriggered) && !old(paused)) || old(resetOnNextUpdate)) ==>
        (portals == [] && bullets == [] && BuiltFrom(scene, layoutOf(level)))
      ensures paused && !((old(editTriggered) && !old(paused)) || old(resetOnNextUpdate)) ==>
        (portals == old(portals) && bullets == old(bullets)
        && unchanged(scene.man, scene.man.core, scene.physics, scene.exit, scene.boxes, scene.turrets, scene.cores, portals, bullets))
    {
      Restart(layoutOf);
      Continue(tick);
    }

    /** The rest of `World.update`: while paused, `Edit` and nothing else moves; otherwise `Play`. */
    method Continue(tick: Tick)
      requires Consistent()
      modifies this`editWheel, this`portals, this`bullets, this`mouseDown, this`resetOnNextUpdate
      modifies scene.man, scene.man.core, scene.physics, scene.exit, scene.boxes, scene.turrets, scene.cores, portals, bullets
      ensures Consistent() && (editWheel ==> paused)
      ensures scene == old(scene) && paused == old(paused) && level == old(level) && editTriggered == old(editTriggered)
      ensures paused ==> !mouseDown && resetOnNextUpdate == old(resetOnNextUpdate) && (editWheel <==> old(editWheel) != old(mouseDown))
      ensures !paused ==> (resetOnNextUpdate <==> old(resetOnNextUpdate) || old(scene.exit.exiting) >= ExitAnimationFrames)
      ensures paused ==> (portals == old(portals) && bullets == old(bullets)
        && unchanged(scene.man, scene.man.core, scene.physics, scene.exit, scene.boxes, scene.turrets, scene.cores, portals, bullets))
      ensures paused ==> forall l: Layout :: BuiltFrom(scene, l) == old(BuiltFrom(scene, l))
    {
      if paused {
        Edit();
      } else {
        Play(tick);
      }
    }
  }
}
