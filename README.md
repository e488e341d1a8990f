# stick-portal: the game-rule layer, in Dafny

This project models the rules that *stick-portal* (`stick-portal.js`) layers on top of the
Box2D physics engine. On each frame `World.update` steps the physics world once. It then
updates the stick man, the exit, the boxes, the turrets, the portals and the bullets, in that
order. Each of those updates is made of integer counters, flags and list edits:

- the signed `beingPortaled` teleport counter and the `justPortaled` cooldown;
- a portal's flight, landing and capture of nearby objects;
- the stick man's run clamp, jump intent, leg cycle, and his release, pick-up and fire action;
- the joint that ties a held object to the portal gun, and the held object's friction;
- the turret's firing and reload counters, the exit animation and the bullets' life;
- the level counter, and the pause, edit and reset flags.

Box2D itself is not modelled. Each object's body is a `Body` record: centre, angle, velocity,
whether it takes part in the simulation, and friction. The outcome of the physics step and
of every ray cast reaches the model as an input. `Levels.Tick` carries one frame's inputs for
the whole world, and `StickMan.Sense` carries those the man reads. The rays resolve only to
the level's boxes and turrets, never to the man himself (`Levels.Scene.SenseOf`), and the man's
methods take that as a precondition. The step's outcome is one
`Bodies.Kinematics` (centre, angle, velocity) per body: `manMotion`, `boxMotion` and
`turretMotion`. `Game.Simulate` applies it to every active body at the start of the unpaused
update, before the objects' own updates. The trigonometry the game computes (the aim
angle, its cosine and sine, a portal's flight direction, the turret's upright test) is an
input too.

Modules, in dependency order:

- `Options`, `Lists` (lists.dfy): an `Option` type; `Array.prototype.remove` as `RemoveFirst`;
  `filterOutValue` as the method `FilterOutValue`, against the function `Filter`.
- `Bodies`, `Teleport` (teleport.dfy): the body record and the screen/simulation scale, and
  the teleport machine's rules as pure step functions, with lemmas about whole runs.
- `Rules` (rules.dfy): the other per-update rules as pure functions, with lemmas about whole
  runs. These cover running, shot colour, landing, the turret gun, the exit animation, the
  legs, bullet life and the level sequence.
- `Entities` (entities.dfy): the classes `Portal`, `Portalable` (`PortalableGameObj`; boxes are
  plain `Portalable`s), `Bullet`, `Exit` and `Turret`, whose methods update their fields in
  place.
- `StickMan` (man.dfy): the class `Man` and the class `Physics`. `Physics` models the physics
  world's joints as a set of joint identities.
- `Levels` (levels.dfy): what `World.init` builds for a level (`Scene`) and the invariant that
  keeps the level consistent. That invariant has five parts:
  - one teleport state per object;
  - no object listed twice;
  - the man holds one of the level's boxes or turrets, or nothing;
  - exactly the held object has no friction;
  - the man is exiting exactly when the exit runs.
- `Game` (game.dfy): the unpaused part of `World.update`, in the source's order.
- `Worlds` (world.dfy): the class `World`, with `init`, `update` and the flags.

`World.update` walks a list built when the loop starts (line 1410). So a portal fired or a
bullet shot during the frame is first updated on the next frame, and a portal or bullet removed
during the frame is still updated in it. The model keeps this: the portal and bullet loops walk
a snapshot (`snap`) while they edit the current list.

Four behaviours of the code worth knowing:

- **Vertical velocity after a teleport.** It is negated when the two portals' `onTop` values
  are *equal* (lines 124-128). That is the case where an object falls into a floor portal and
  leaves another floor portal moving up.
- **Portals per colour.** A shot drops every portal of its colour before adding the new one
  (lines 309-321). So at most one portal of each colour exists (`OnePerColour`).
- **Crowded landing.** A landing portal is discarded when another portal with the *same*
  `onTop` is close by (line 829).
- **Entering the editor.** It calls `init` (line 1388), which also advances the level counter
  (line 1310).

JavaScript's `undefined` is read as the source reads it:
- a portal's `onTop` before landing is `None`, and compares unequal to `true` and `false`;
- counters never set are 0;
- flags never set are false.

A bullet's life starts at `frameRate / 4` = 7.5.

## Model

| member | source | states |
|---|---|---|
| Lists.Filter | stick-portal.js:1524-1532 | the filtered list is no longer than the input, and everything in it passes the test |
| Lists.FilterMembers | stick-portal.js:1524-1532 | an element is in the filtered list iff it is in the input and passes the test |
| Lists.FilterCounts | stick-portal.js:1524-1532 | an element passing the test keeps its number of occurrences; any other has none |
| Lists.FilterAllOrNone | stick-portal.js:1524-1532 | a list that all passes is unchanged; a list that all fails becomes empty |
| Lists.FilterDistinct | stick-portal.js:1524-1532 | filtering a list without repetitions gives one without repetitions |
| Lists.IndexOf | stick-portal.js:1519 | `indexOf`: -1 iff the element is absent; otherwise an index holding it with no earlier occurrence |
| Lists.RemoveFirst | stick-portal.js:1517-1522 | `remove`: an absent element leaves the list as it was; otherwise exactly the first occurrence is cut out, the rest keeping their order |
| Lists.RemoveFirstCounts | stick-portal.js:1517-1522 | removing a present element shortens the list by one and takes one occurrence out of its multiset |
| Lists.RemoveFirstDistinct | stick-portal.js:1517-1522 | in a list without repetitions, removal keeps it so and leaves the element absent |
| Lists.RemoveFirstCons | stick-portal.js:1517-1522 | removal skips over a head that differs from the element |
| Lists.RemoveFirstIsFilterOut | stick-portal.js:1517-1532 | on a list without repetitions, `remove(e)` and `filterOutValue(e)` agree |
| Lists.FilterOutLength | stick-portal.js:1524-1532 | after `filterOutValue(v)`, `v` is absent and the list is shorter by the number of occurrences of `v` |
| Lists.FilterOutValue | stick-portal.js:1524-1532 | the loop builds exactly `Filter(s, x => x != v)`: `v` is absent, and the length drops by the count of `v` |
| Bodies.BodyFor | stick-portal.js:1023-1039 | `addGameObj`: reading the new body's pose back (`updateGameObjPosition`) gives the box it was made from; it starts at rest, active, with friction 0.6 |
| Bodies.PoseLeft | stick-portal.js:1069-1072 | `updateGameObjPosition`: an object's screen left edge is its body's x, scaled, less half its width |
| Bodies.PoseTop | stick-portal.js:1069-1073 | `updateGameObjPosition`: an object's screen top edge is its body's y, scaled, less half its height |
| Bodies.Simulated | stick-portal.js:1057-1067 | one physics step: an active body takes the step's centre, angle and velocity, an inactive one does not move, and no body's activity or friction changes |
| Teleport.CounterStep | stick-portal.js:111-131 | the counter stays within -n..n; it is 0 afterwards iff it was 0 or -1; a positive counter grows or flips sign |
| Teleport.CounterSequence | stick-portal.js:111-131 | from a capture (1), update k gives k+1 while entering and k-2n while leaving |
| Teleport.TeleportLastsTwiceMaxFrames | stick-portal.js:111-137 | a teleport takes exactly 2n updates, with the counter non-zero and within -n..n until it returns to 0 |
| Teleport.TeleportWritesOnce | stick-portal.js:112-123 | exactly one update of a teleport starts with the counter at n or above, the n-th after capture |
| Teleport.FourFrameSequence | stick-portal.js:64 | with the game's threshold 4 the counter runs 1, 2, 3, 4, -4, -3, -2, -1, 0 |
| Teleport.CooldownStep | stick-portal.js:132-139 | the update ending a teleport leaves the cooldown at 14; otherwise a non-zero cooldown goes down by one; it stays within 0..14 |
| Teleport.CooldownCountsDown | stick-portal.js:139 | an idle object's cooldown goes down by one per update until 0 |
| Teleport.CooldownAfterTeleport | stick-portal.js:132-139 | after a teleport ends, the object stays in cooldown for 13 more updates and is free after the 14th |
| Teleport.ExitPosition | stick-portal.js:114-121 | the new centre is the destination portal's x, and its y moved up (top face) or down by half the object's height plus the portal's thickness |
| Teleport.ExitVelocityY | stick-portal.js:124-128 | vy keeps its magnitude; for a moving object and two landed portals, it leaves the destination face exactly when it was moving into its source face (so vy flips exactly when the two `onTop` values are equal) |
| Teleport.TeleportBody | stick-portal.js:111-137 | on the update starting at the threshold the body moves to the exit position with vy as `ExitVelocityY` gives; on the update ending the teleport it becomes active unless exiting; otherwise it is unchanged; vx, angle and friction never change |
| Rules.RunVelocity | stick-portal.js:199-208 | the run clamp: speed never exceeds the larger of the old speed and the top speed; speed is only added towards `facing`; facing 0 changes nothing |
| Rules.RunStep | stick-portal.js:199-208 | one update adds `accel` of the top speed towards `facing`, capped at the top speed |
| Rules.RunAccelerates | stick-portal.js:199-208 | after k run clamps, with nothing else changing the speed in between, the speed towards `facing` is min(start + k·accel·top, top) |
| Rules.GroundTopSpeed | stick-portal.js:199-208 | k successive ground run clamps from rest, with nothing else acting, leave the speed below the top speed for k = 3 and at it for k = 4 |
| Rules.AirTopSpeed | stick-portal.js:227-237 | in exact arithmetic, k successive air run clamps from rest, with nothing else acting, leave the speed below the top speed for k = 19 and at it for k = 20 (the program's doubles reach it one update later; see "## Left out") |
| Rules.CanJump | stick-portal.js:187 | a jump starts only while the jump intent is live and the vertical speed is under a fifth of the jump speed |
| Rules.FireBlue | stick-portal.js:287-308 | blue when no blue portal exists; orange when a blue one exists and orange is due or missing |
| Rules.ShotsAlternate | stick-portal.js:287-322 | with both colours placed, a shot has the colour the previous one did not |
| Rules.LandingY | stick-portal.js:805-811 | the portal lands on the platform's top when its centre is at or above it, otherwise on the bottom face |
| Rules.LandingShift | stick-portal.js:812-817 | the horizontal shift follows the flight line to the face, or is one full step for horizontal flight |
| Rules.LandsOnTop | stick-portal.js:806-811 | a portal lands on a platform's top face iff its centre is not below the top |
| Rules.FitsOn | stick-portal.js:823 | a landed portal fits iff its centre is at least a third of its width inside both ends of the platform |
| Rules.TooClose | stick-portal.js:829 | two portals are too close when less than a portal width apart horizontally and half a unit vertically |
| Rules.InCaptureBand | stick-portal.js:863-868 | an object is in a portal's band when its centre is within 0.6 portal widths horizontally and its facing edge (bottom for a top-face portal, top otherwise) within two portal heights vertically |
| Rules.FitsNeedsRoom | stick-portal.js:823 | a portal that fits lies within the platform shrunk by a third of its width at each end, so the platform is at least two thirds of that width long |
| Rules.GunStep | stick-portal.js:578-605 | a shot happens iff the gun is not reloading, not cooling, under the shot limit, upright and not held, and sees the man; a shot starts a 6-update gap and counts; over 100 shots starts a 120-update reload; the counters stay in range |
| Rules.CoolingAfterShot | stick-portal.js:600-605 | m updates after a shot the gap counter is at least 6 - (m - k) |
| Rules.ShotsSpaced | stick-portal.js:588-605 | two shots of one turret are at least 6 updates apart |
| Rules.GunStaysValid | stick-portal.js:578-605 | `firing` stays in 0..5, `reloading` in 0..119, and `shotsFired` never exceeds 101 |
| Rules.ExitStep | stick-portal.js:462-481 | an idle exit starts the animation iff the man is at it; a running one counts on; a reset is asked for iff the count was at least 25 |
| Rules.AtExit | stick-portal.js:470-475 | the man is at the exit when his centre is within 0.7 exit widths and 0.7 exit heights of its centre |
| Rules.ExitResetTiming | stick-portal.js:464-467 | from the start of the animation the reset comes on exactly the 25th update |
| Rules.ExitCountsUp | stick-portal.js:464-466 | the animation counter after k updates is k + 1 |
| Rules.NextPose | stick-portal.js:332-338 | the leg pose stays in range; running never ends at the V pose; standing moves one pose towards V |
| Rules.LegsStep | stick-portal.js:325-339 | while the wait lasts only the wait counts down; then the pose moves and the wait restarts at 2 |
| Rules.LegsWait | stick-portal.js:326-328 | within the wait the pose holds and the wait drops by one per update |
| Rules.LegsEveryThird | stick-portal.js:325-339 | every three updates the pose changes exactly once and the wait is back where it was |
| Rules.LegsShift | stick-portal.js:325-339 | a updates then b updates are a + b updates |
| Rules.LegsSettle | stick-portal.js:332-338 | standing, the legs reach the V pose one pose per three updates and stay there |
| Rules.RunningCycle | stick-portal.js:325-339 | running, a walking pose comes back every nine updates (the cycle pass, up, contact) |
| Rules.BulletExpiry | stick-portal.js:532-543 | a bullet's life after k updates is 7.5 - k, so it is destroyed on its 8th update |
| Rules.NextLevel | stick-portal.js:1310-1311 | the level goes up by one, and after level 10 back to 6 |
| Rules.LevelSequence | stick-portal.js:1310-1311 | from level 0, the k-th `init` plays level k up to 10, then cycles 6..10 |
| Entities.Portal.constructor | stick-portal.js:774-787 | a new portal flies at speed 30, unattached, age 0, with no face yet |
| Entities.Portal.Crowded | stick-portal.js:823-834 | another listed portal on the same kind of face (`onTop`) is too close |
| Entities.Portal.Advance | stick-portal.js:802-847 | age + 1; a landed portal stays put; a clear path advances it; an obstacle drops it from the list; a platform hit lands it on the face `LandingY` picks and attaches it iff it fits and no portal crowds it, else drops it |
| Entities.Portal.Captures | stick-portal.js:849-868 | this portal is attached, has a partner, and the object is ready (not teleporting, not cooling down, not exiting) and in its band |
| Entities.Portal.Capture | stick-portal.js:849-893 | when attached with an attached partner of the other colour, exactly the ready objects in the band start a teleport to the first other portal of the list; every other object is unchanged |
| Entities.Portal.Update | stick-portal.js:800-894 | `Advance` then `Capture` against the list as `Advance` left it: a landed portal stays where it is; in flight it moves one step along (cos, sin); on landing it sits on the face `LandingY` gives, shifted by `LandingShift`, at angle 0, attached iff it fits and is not crowded; the list changes only by removing this portal; each candidate it captures starts a teleport towards the first other portal |
| Entities.FirstOther | stick-portal.js:871-880 | the first portal of the list other than this one, or null iff there is none |
| Entities.HasPartner | stick-portal.js:849-858 | an attached portal of the other colour is listed |
| Entities.CaptureTarget | stick-portal.js:849-880 | with one portal per colour, a capture by a portal still in the list sends objects to the attached portal of the other colour |
| Entities.CaptureTargetAfterShot | stick-portal.js:849-880 | a portal that a shot of its colour has just dropped from the list, where only the last portal has that colour, also sends what it captures to the attached portal of the other colour |
| Entities.RemoveKeepsOnePerColour | stick-portal.js:835-840 | removing a portal keeps one portal per colour |
| Entities.Portalable.constructor | stick-portal.js:68-76 | a new portalable object, its body made by `addGameObj`, idle and consistent |
| Entities.Portalable.BeginTeleport | stick-portal.js:869-881 | a capture: body inactive, counter 1, `fromPortal` and `gotoPortal` set, nothing else changed |
| Entities.Portalable.Update | stick-portal.js:109-141 | one step of the counter, cooldown and body as the `Teleport` rules give; portals cleared exactly when the counter returns to 0; the pose synced from the body; consistency kept |
| Entities.Bullet.constructor | stick-portal.js:521-533 | a 2×2 bullet centred on the given point, with life 7.5 |
| Entities.Bullet.Update | stick-portal.js:539-543 | life drops by one, and the bullet expires iff none is left |
| Entities.Exit.constructor | stick-portal.js:423-431 | an idle exit at the given place |
| Entities.Exit.Reached | stick-portal.js:469-475 | the man's centre lies within 0.7 of the exit's width across and 0.7 of its height down of the exit's centre (`AtExit`) |
| Entities.Exit.Update | stick-portal.js:462-481 | the `ExitStep` rule; the man is marked exiting and his body deactivated exactly when the animation starts |
| Entities.Turret.constructor | stick-portal.js:561-572 | a 15×30 turret that can be picked up, with all gun counters 0 |
| Entities.Turret.Update | stick-portal.js:574-606 | the portalable update, then, unless being teleported, one `GunStep`, with no shot while teleported; a shot is a new bullet at the muzzle with full life |
| StickMan.Physics.constructor | stick-portal.js:962-967 | a physics world without joints |
| StickMan.Physics.Attach | stick-portal.js:1115-1130 | the held object's friction becomes 0, one new joint is created, and the man records it and the object |
| StickMan.Physics.Release | stick-portal.js:1132-1139 | the man's joint, if any, is destroyed, the object's friction returns to 0.6, and the man holds nothing |
| StickMan.Physics.Reattach | stick-portal.js:1141-1144 | the old joint is replaced by exactly one new joint, and the object ends with friction 0 |
| StickMan.Underfoot | stick-portal.js:269-283 | what the two rays below the man hit, as the portalable object found or null |
| StickMan.Pushable | stick-portal.js:189 | the man stands on an object that can be picked up, which his jump pushes down |
| StickMan.MoveStep | stick-portal.js:186-238 | standing on something: jump (vy drops by the jump speed; the intent is spent on a pushable object) or run with ground acceleration; in the air: the stuck push, or run with air acceleration; idle changes nothing; speed is bounded |
| StickMan.JumpCountdown | stick-portal.js:241 | a live jump intent counts down by one and never below 0 |
| StickMan.JumpIntentLasts | stick-portal.js:241 | a key press keeps the intent live for exactly 6 updates |
| StickMan.ChooseAction | stick-portal.js:243-265 | on a mouse press, exactly one of release (holding), pick up (something to pick up) or fire; without one, release when too far and re-attach when the aim has turned |
| StickMan.HasColour | stick-portal.js:288-306 | the length tests in `shootPortal`: some listed portal has the colour |
| StickMan.WithoutColour | stick-portal.js:309-318 | exactly `Filter` with the test "not of this colour", so the other portals keep their order and number; a list without the colour is unchanged |
| StickMan.WithoutColourKeepsOnePerColour | stick-portal.js:309-318 | dropping a colour keeps one portal per colour |
| StickMan.ShotKeepsOnePerColour | stick-portal.js:309-321 | after a shot exactly one portal has the fired colour, the new one at the end |
| StickMan.ShotKeeps | stick-portal.js:309-321 | a shot keeps the portals consistent and one per colour |
| StickMan.AppendOtherColour | stick-portal.js:321 | adding a portal of a colour not yet present keeps one per colour |
| StickMan.Man.constructor | stick-portal.js:161-173 | a 50×50 man standing idle, holding nothing, consistent |
| StickMan.Man.TooFar | stick-portal.js:259 | the held object's centre is more than `maxHoldDistance` from the man's; the distances are compared squared, which agrees with the square root `distance` takes (lines 40-46), since both sides are non-negative |
| StickMan.Man.Turned | stick-portal.js:261 | the aim has turned more than 0.1 radian since the object was attached |
| StickMan.Man.Run | stick-portal.js:1567-1580 | a run key: running in that direction |
| StickMan.Man.Stop | stick-portal.js:1590-1594 | a run key released: not running |
| StickMan.Man.Jump | stick-portal.js:1572-1574 | the jump key: the intent is live for 6 updates |
| StickMan.Man.Move | stick-portal.js:186-238 | the velocity and jump intent follow `MoveStep`; a jump off a pushable object pushes it down and, if it was held, releases it and clears the mouse press; nothing else changes |
| StickMan.Man.UpdateLegs | stick-portal.js:325-339 | the legs take one `LegsStep` |
| StickMan.Man.ShootPortal | stick-portal.js:285-323 | the colour `FireBlue` picks; the portals of the other colour in order, then a new one in flight from the muzzle; `shootOrangeNext` records whether it was blue |
| StickMan.HoldAfter | stick-portal.js:243-265 | the held object and joint after each action: release holds nothing; pick-up holds the object found on a new joint; re-attach keeps the object on a new joint; fire and keep leave both |
| StickMan.FollowsFriction | stick-portal.js:1115-1139 | the friction rule of one action: `active` is kept; the object held afterwards has friction 0, or is the one held before with its friction kept; an object no longer held has the default friction; any other keeps its friction |
| StickMan.KeepsFriction | stick-portal.js:192-195 | the friction rule of a jump: `active` is kept, the object the jump released has the default friction, and any other keeps its friction |
| StickMan.FrictionComposes | stick-portal.js:186-265 | a jump's `KeepsFriction` followed by an action's `FollowsFriction` is `FollowsFriction` from the hold before the jump |
| StickMan.Man.Hold | stick-portal.js:243-265 | an action other than firing: hold and joint as `HoldAfter` says, with a new joint and the aim recorded for pick-up and re-attach; release restores the default friction, pick-up and re-attach make it 0, keep changes nothing; only the held object and the object found change, and only in friction |
| StickMan.Man.Act | stick-portal.js:243-265 | takes and returns exactly the action `ChooseAction` picks: fire is `ShootPortal`, any other goes through `Hold`; hold and joint follow `HoldAfter`, every body follows `FollowsFriction`, and nothing else of the man's changes |
| StickMan.JumpsOffHeld | stick-portal.js:186-196 | a jump off a pushable object that is the one held |
| StickMan.Man.Steer | stick-portal.js:179-242 | aim, `Move`, jump countdown and legs step, as their rules say; jumping off the held object releases it and clears the mouse press, and otherwise both are kept; every body follows `KeepsFriction` |
| StickMan.Man.Control | stick-portal.js:179-265 | `Steer` then `Act`: the action returned is the one `ChooseAction` picks over the state after `Steer`, and its effect is stated per action (portals unchanged unless fired; release drops hold and joint; pick-up and re-attach hold with the next joint; fire is a shot of the colour due from the muzzle, records its colour and holds nothing; keep leaves the hold as `Steer` left it); every body follows `FollowsFriction` from the hold before `Steer` |
| StickMan.Man.Active | stick-portal.js:179-267 | a man neither teleporting nor exiting: `Control`, returning the action taken, then the portalable update; the counters step, the pose follows the body, every other object stays consistent and follows the friction rule |
| StickMan.Man.Update | stick-portal.js:175-267 | while teleporting or exiting, only the portalable update; otherwise move, count down, step the legs, then the action `ChooseAction` picks with its per-action effect on portals, hold, joint and shot colour, then the portalable update, and the mouse press is cleared; the portal list changes only by that shot and stays consistent and one per colour |
| StickMan.Muzzle | stick-portal.js:319-320 | a new portal starts at the man's centre moved half his width along the aim |
| Levels.Walls | stick-portal.js:1298-1301 | four walls of thickness 2 around the field |
| Levels.Cores | stick-portal.js:1372-1376 | the turrets' portalable bodies, in the turrets' order |
| Levels.Scene.Resolve | stick-portal.js:1101-1113 | what a ray ends on is one of the level's boxes or turrets, or null |
| Levels.Scene.FootingOf | stick-portal.js:269-283 | underfoot is a portalable object iff the ray resolves to one, and fixed iff it hit a solid |
| Levels.Scene.SenseOf | stick-portal.js:179-186 | what the man picks up or stands on is a box or turret of the level, or nothing |
| Levels.Scene.CandidatesDistinct | stick-portal.js:859 | the objects a portal tries (`[stickMan].concat(boxes, turrets)`) repeat none |
| Levels.MakeBoxes | stick-portal.js:1365-1369 | one new, distinct, idle box per spec, at its place and angle, with its body |
| Levels.MakeTurrets | stick-portal.js:1372-1376 | one new, distinct, idle turret per spec, with its facing and gun counters 0 |
| Levels.MakeActors | stick-portal.js:1302-1303 | a new man and exit at the level's places (or the defaults), and a physics world without joints |
| Levels.Build | stick-portal.js:1296-1379 | `init`'s objects: walls, man, exit, platforms, jump plates, boxes and turrets, all new, where the layout puts them (`BuiltFrom`), forming a consistent level |
| Levels.BodiesKept | stick-portal.js:1409 | a change to the objects' bodies alone, keeping each body's activity and friction, keeps the level consistent |
| Levels.CarriedKept | stick-portal.js:859-893 | capturing objects, which keeps each consistent with its flags and friction, keeps the level consistent |
| Levels.BoxesKept | stick-portal.js:1410-1414 | updating the boxes keeps the level consistent |
| Levels.TurretsKept | stick-portal.js:1410-1414 | updating the turrets keeps the level consistent |
| Levels.ObjectsKept | stick-portal.js:1410-1414 | boxes and turrets stay consistent across a change that keeps every other object so |
| Levels.FrictionKept | stick-portal.js:1127-1136 | friction 0 for exactly the held object survives an update that only attaches and releases |
| Game.StepMan | stick-portal.js:1410-1414 | the man's update keeps the level consistent and the portals one per colour |
| Game.MoveMan | stick-portal.js:175-267 | `Man.update` on the level's man keeps the man, joints and exit agreeing, what he holds in the level, and the portals one per colour |
| Game.StepExit | stick-portal.js:462-481 | the exit's update keeps the level consistent; a reset is asked for iff the animation has run its full length |
| Game.UpdateBoxes | stick-portal.js:1410-1415 | each box takes one teleport step and keeps its flags and friction |
| Game.StepBoxes | stick-portal.js:1410-1415 | the boxes' updates keep the level consistent |
| Game.UpdateTurrets | stick-portal.js:1410-1415 | each turret takes one step, aiming only when upright and not held; the shots are new, distinct bullets with full life |
| Game.StepTurrets | stick-portal.js:1410-1415 | the turrets' updates keep the level consistent |
| Game.UpdatePortals | stick-portal.js:1410-1415 | each portal of the snapshot ages by one; the list only loses portals and stays one per colour; candidates stay consistent |
| Game.UpdatePortal | stick-portal.js:800-894 | one `Portal.update`: the list only loses portals and stays one per colour |
| Game.StepPortals | stick-portal.js:1410-1415 | the portals' updates keep the level consistent and change no bullet |
| Game.UpdateBullets | stick-portal.js:539-546 | each bullet of the snapshot loses one life; a listed bullet stays listed iff it is not in the snapshot or has life left |
| Game.AppendShots | stick-portal.js:594 | listing the new shots after the old bullets repeats none, and all have life left |
| Game.StepObjects | stick-portal.js:1410-1415 | the exit, boxes and turrets, in order, keep the level consistent |
| Game.StepRest | stick-portal.js:1410-1415 | everything after the man keeps the level consistent and the portals one per colour |
| Game.StepScene | stick-portal.js:1410-1415 | the level's objects in the source's order keep it consistent; reset iff the animation has run its length |
| Game.SimulateAll | stick-portal.js:1057-1067 | each body of a list of distinct objects becomes `Simulated` with its own motion; nothing else changes |
| Game.MoveBodies | stick-portal.js:1409 | the man's, boxes' and turret cores' bodies take their motion from the tick; every other part of each object is kept |
| Game.Simulate | stick-portal.js:1409 | the physics step: each object's body as `Simulated` with the tick's motion, and the level stays consistent |
| Game.Frame | stick-portal.js:1409-1416 | the physics step, then `Advance`: the level stays in play, and a reset is pending iff the exit animation had finished |
| Game.Advance | stick-portal.js:1409-1416 | the unpaused update keeps the level in play: consistent, one portal per colour, bullets listed once with life left |
| Game.StepBullets | stick-portal.js:1410-1415 | the bullets' updates leave them listed once each with life left |
| Worlds.World.Init | stick-portal.js:1296-1344 | the next level (wrapping after 10 to 6), all new, with the man, the exit, every box (place and angle) and every turret (place and facing) where its layout puts them (`BuiltFrom`), and no portals, bullets or joints |
| Worlds.World.constructor | stick-portal.js:1160-1162 | level 0 then `init`: level 1, built from `layoutOf(1)` (`BuiltFrom`), consistent, unpaused, nothing held, no portals or bullets |
| Worlds.World.PressMouse | stick-portal.js:1611-1613 | the next update sees a mouse press |
| Worlds.World.Step | stick-portal.js:1409-1416 | the physics step and the objects' updates (`Game.Frame`): the world stays consistent; a reset is pending iff it was or the exit animation has finished |
| Worlds.World.Store | stick-portal.js:1409-1416 | the new lists and flag are stored, keeping the world consistent |
| Worlds.World.Restart | stick-portal.js:1383-1395 | the edit request toggles pause; entering the editor and a pending reset each run `init`; otherwise the level, portals and bullets are unchanged |
| Worlds.World.ToggleEdit | stick-portal.js:1383-1391 | pause toggles iff requested; entering the editor runs `init` |
| Worlds.World.ResetIfAsked | stick-portal.js:1392-1395 | a pending reset runs `init` and is cleared; otherwise the scene, the lists and the level are unchanged, and so is whether the scene stands as a given layout puts it |
| Worlds.World.Edit | stick-portal.js:1396-1405 | a mouse press while paused opens or closes the edit wheel and is cleared |
| Worlds.World.Play | stick-portal.js:1406-1416 | the edit wheel closes, then `Step` |
| Worlds.World.Continue | stick-portal.js:1396-1416 | paused: only `Edit`, and the man, exit, boxes, turrets, physics world, portals and bullets are left unchanged; otherwise `Play`; the scene record, pause and level unchanged, and while paused so is whether the scene stands as a given layout puts it |
| Worlds.World.Update | stick-portal.js:1381-1417 | `World.update`: pause, level and reset follow the flags, the world stays consistent, and the edit wheel is open only while paused; a restart gives a new scene and otherwise the scene is the same; a paused update leaves every object, portal and bullet unchanged, or, after a restart, the new level as built from its layout with no portals or bullets |

## Left out

- Drawing: every `draw` method, the gradients, canvas resizing and `redraw`.
- Box2D:
  - the physics step (`Physics.update`), the solver, masses, joint forces and ray casting;
  - their results arrive as inputs (`Levels.Tick`): each body's centre, angle and velocity after
    the step, applied by `Game.Simulate`, and what each ray hits;
  - so the rules are proved for any outcome of the step. Which outcome the engine produces
    (gravity, collisions, joints) is not modelled.
- Impulses:
  - the model changes velocity by impulse over mass, so the man's mass and the box masses do
    not appear;
  - the push on the object he jumps off is modelled as its vertical velocity change.
- Trigonometry: the aim (`atan2` of the mouse position), the cosines and sines of the aim and
  of a portal's flight angle, and the turret's upright test are inputs.
- The smoothed-position stuck test (`leftAve`, `topAve`) is an input, `Sense.stuck`.
- `touchedDuration` is left out: only the touch controls read it.
- JumpPlate, Platform and Wall updates are left out. Platform and Wall only sync static
  bodies' poses. A jump plate also turns, and launches the man, a box or a turret standing on
  it: a push of about 18 × `facing` in vx and −18 in vy (lines 671-692). The model treats that
  launch as part of the next physics step's outcome (`Levels.Tick`). The program runs the
  plates after the turrets and before the portals (line 1410). So a body a portal captures
  in the frame of its launch enters the teleport, in the model, with the velocity it had
  before the launch. Its exit speed (`Teleport.ExitVelocityY`) then differs from the program's.
- Level layouts:
  - the per-level `init…` functions and their `Math.random` box angles are a parameter,
    `layoutOf`;
  - the model keeps the level sequence and what `init` builds from a layout.
- Input handlers:
  - only the flags and intents they set are modelled (`Run`, `Stop`, `Jump`, `PressMouse`);
  - the mouse position, touch and tilt glue are left out, and so is the edit wheel's content.
- `editTriggered`: no handler in the game sets it (the Escape key case does nothing), so it is
  a field that only `World.update` reads and clears.
- Bullet flight and its body are the engine's: a bullet is its life and start position.
  Destroying its body is left out.
- Host plumbing: `setTimeout`/`setInterval`, `navigator.appVersion`, the debug renderer.
- Floating point: the program computes positions and speeds in IEEE doubles, and the model
  uses exact reals. Sums such as repeated accelerations and the pose round trips of
  `Bodies.BodyFor` and `Teleport.ExitPosition` are exact here and may be off by rounding there.
- Rules.AirTopSpeed: the update count holds for exact arithmetic. In doubles, twenty steps of
  6 × 0.05 add up to just under 6, so the program reaches the top speed on the 21st update.
- Lists.RemoveFirst: `Array.prototype.remove` splices the array in place. The model computes
  the new list as a value, and the world's list fields are reassigned. No aliased array is
  modelled.
- Entities.CaptureTarget: proved for a portal still in the list. A portal that this frame's
  shot has removed is still walked by the update and may capture. `CaptureTargetAfterShot`
  proves its target for a list whose portals of that colour end with the new one, which is
  what `StickMan.Shot` leaves, but the frame-level steps do not carry that shape to the
  portals' updates.
- Game.StepMan: states that the level stays consistent and the portals one per colour. The
  man's own motion is stated on `StickMan.Man.Update`, not repeated here.
- Game.StepScene: states the consistency kept, the reset and the shots. Each object's own step
  is stated on the object's `Update`, not repeated here.
- Game.Frame: states the consistency kept and the reset, like `Worlds.World.Step`; the bodies'
  new state is stated on `Game.Simulate`.
- Worlds.World.Step: states the consistency kept and the reset. What each object does is
  stated on the members it calls.
