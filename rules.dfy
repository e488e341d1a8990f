/**
 * The game's per-update rules that depend only on numbers: the run-speed clamp, the tests a
 * landing or capturing portal makes, and the small counter machines of the turret, the exit,
 * the stick man's legs, bullets and the level sequence. Each machine is a step function on a
 * value; the classes apply these steps to their fields.
 */
module Rules {
  import opened Bodies

  /** Updates per second of the game loop (`frameRate`). */
  const FrameRate: int := 30

  function Abs(x: real): real {
    if x < 0.0 then -x else x
  }

  function Max(a: real, b: real): real {
    if a < b then b else a
  }

  function Min(a: real, b: real): real {
    if a < b then a else b
  }

  // ---------------------------------------------------------------- running

  /** Top running speed, in simulation units per second (`runningSpeed`). */
  const RunSpeed: real := 6.0
  /** Vertical speed of a jump (`jumpSpeed`); a jump starts only when |vy| is below a fifth of it. */
  const JumpSpeed: real := 8.0
  /** Share of the top speed added per update while running on something. */
  const GroundAccel: real := 0.3
  /** Share of the top speed added per update while running in the air. */
  const AirAccel: real := 0.05

  /**
   * Horizontal velocity after one update of running in direction `facing` with acceleration
   * share `accel`: speed is added towards `facing` up to the top speed, and a body already
   * faster than that keeps its speed but is never sped up further.
   */
  function RunVelocity(vx: real, facing: int, accel: real): (r: real)
    ensures Abs(r) <= Max(Abs(vx), RunSpeed * Abs(facing as real))
    ensures Abs(vx) <= RunSpeed * Abs(facing as real) ==> Abs(r) <= RunSpeed * Abs(facing as real)
    ensures 0.0 <= accel && facing > 0 ==> r >= vx
    ensures 0.0 <= accel && facing < 0 ==> r <= vx
    ensures facing == 0 ==> r == vx
  {
    var maxVx := RunSpeed * facing as real;
    var newVx := vx + maxVx * accel;
    if Abs(newVx) > Abs(maxVx) then
      if Abs(vx) > Abs(maxVx) then
        if Abs(newVx) > Abs(vx) then vx else newVx
      else maxVx
    else newVx
  }

  /** Horizontal velocity after `k` updates of running with nothing else acting. */
  function RunAfter(vx: real, facing: int, accel: real, k: nat): real {
    if k == 0 then vx else RunVelocity(RunAfter(vx, facing, accel, k - 1), facing, accel)
  }

  /** `v` measured in direction `f`: as is to the right, negated to the left. */
  function Toward(f: int, v: real): real {
    if f > 0 then v else -v
  }

  /** One update of running from at most the top speed adds `RunSpeed * accel` in direction `f`, up to the top speed. */
  lemma RunStep(v: real, f: int, accel: real)
    requires f == 1 || f == -1
    requires 0.0 < accel && Abs(v) <= RunSpeed
    ensures Toward(f, RunVelocity(v, f, accel)) == Min(Toward(f, v) + RunSpeed * accel, RunSpeed)
  {
  }

  /**
   * From any speed up to the top speed, running in direction `f` with either of the game's
   * accelerations adds `RunSpeed * accel` per update until the top speed is reached, and then
   * holds it.
   */
  lemma {:induction false} RunAccelerates(vx: real, f: int, accel: real, k: nat)
    requires f == 1 || f == -1
    requires accel == GroundAccel || accel == AirAccel
    requires Abs(vx) <= RunSpeed
    ensures Toward(f, RunAfter(vx, f, accel, k)) == Min(Toward(f, vx) + k as real * (RunSpeed * accel), RunSpeed)
  {
    if k > 0 {
      RunAccelerates(vx, f, accel, k - 1);
      var prev := RunAfter(vx, f, accel, k - 1);
      RunStep(prev, f, accel);
      if accel == GroundAccel {
        assert k as real * 1.8 == (k - 1) as real * 1.8 + 1.8;
      } else {
        assert k as real * 0.3 == (k - 1) as real * 0.3 + 0.3;
      }
    }
  }

  /** From rest the man reaches top speed on the fourth update of running on something. */
  lemma GroundTopSpeed(f: int)
    requires f == 1 || f == -1
    ensures Abs(RunAfter(0.0, f, GroundAccel, 3)) < RunSpeed
    ensures RunAfter(0.0, f, GroundAccel, 4) == RunSpeed * f as real
  {
    var before := RunAfter(0.0, f, GroundAccel, 3);
    RunAccelerates(0.0, f, GroundAccel, 3);
    assert Toward(f, before) == 5.4;
    var after := RunAfter(0.0, f, GroundAccel, 4);
    RunAccelerates(0.0, f, GroundAccel, 4);
    assert Toward(f, after) == 6.0;
  }

  /**
   * From rest the man reaches top speed on the twentieth update of running in the air, in
   * exact arithmetic (in doubles the twentieth sum falls just short, and the clamp applies on
   * the twenty-first).
   */
  lemma AirTopSpeed(f: int)
    requires f == 1 || f == -1
    ensures Abs(RunAfter(0.0, f, AirAccel, 19)) < RunSpeed
    ensures RunAfter(0.0, f, AirAccel, 20) == RunSpeed * f as real
  {
    var before := RunAfter(0.0, f, AirAccel, 19);
    RunAccelerates(0.0, f, AirAccel, 19);
    assert Toward(f, before) == 5.7;
    var after := RunAfter(0.0, f, AirAccel, 20);
    RunAccelerates(0.0, f, AirAccel, 20);
    assert Toward(f, after) == 6.0;
  }

  /** A jump starts only while the jump intent is live and the body is nearly still vertically. */
  predicate CanJump(jumping: int, vy: real) {
    jumping != 0 && Abs(vy) < JumpSpeed * 0.2
  }

  // ---------------------------------------------------------------- portals

  /** Distance a flying portal covers per update (`Portal.velocity`). */
  const PortalSpeed: real := 30.0
  /** Portal size in screen units. */
  const PortalWidth: real := 40.0
  const PortalHeight: real := 10.0

  /**
   * The colour of the next shot, from whether a blue and an orange portal exist and whether
   * orange is due: blue while there is no blue portal, otherwise orange when it is due or missing.
   */
  function FireBlue(hasBlue: bool, hasOrange: bool, orangeNext: bool): (blue: bool)
    ensures !hasBlue ==> blue
    ensures hasBlue && !hasOrange ==> !blue
    ensures hasBlue && hasOrange ==> blue == !orangeNext
  {
    !(hasBlue && (orangeNext || !hasOrange))
  }

  /**
   * Once a portal of each colour exists, consecutive shots alternate colours, since each shot
   * records whether it was blue as the next shot's `orangeNext`.
   */
  lemma ShotsAlternate(lastWasBlue: bool)
    ensures FireBlue(true, true, lastWasBlue) != lastWasBlue
    ensures FireBlue(false, false, false) && !FireBlue(true, false, true)
  {
  }

  /** The face a portal lands on: the platform's top when its centre is at or above it. */
  predicate LandsOnTop(centerY: real, platform: Rect) {
    centerY <= platform.top
  }

  /** The y coordinate of the face a portal lands on. */
  function LandingY(centerY: real, platform: Rect): (y: real)
    ensures LandsOnTop(centerY, platform) ==> y == platform.top
    ensures !LandsOnTop(centerY, platform) ==> y == platform.top + platform.height
    ensures 0.0 <= platform.height ==> platform.top <= y <= platform.top + platform.height
  {
    if centerY > platform.top then platform.top + platform.height else platform.top
  }

  /**
   * Horizontal shift of a landing portal that flies along (cos, sin): along its path to the
   * face, or by one full step when it flies horizontally.
   */
  function LandingShift(diffY: real, speed: real, cos: real, sin: real): (dx: real)
    ensures sin != 0.0 ==> dx * sin == diffY * cos
    ensures sin == 0.0 ==> dx == speed * cos
  {
    if sin != 0.0 then diffY * cos / sin else speed * cos
  }

  /** Whether a portal centred at `centerX` lies on the platform with a third of its width to spare at each end. */
  predicate FitsOn(centerX: real, width: real, platform: Rect) {
    !(centerX > platform.left + platform.width - width / 3.0 || centerX < platform.left + width / 3.0)
  }

  /** A portal fits only on a platform at least two thirds of its own width long. */
  lemma FitsNeedsRoom(centerX: real, width: real, platform: Rect)
    requires FitsOn(centerX, width, platform)
    ensures platform.width >= 2.0 * width / 3.0
    ensures platform.left + width / 3.0 <= centerX <= platform.left + platform.width - width / 3.0
  {
  }

  /** Two landed portals are too close when they are less than a width apart horizontally and half a unit vertically. */
  predicate TooClose(x1: real, y1: real, x2: real, y2: real, width: real) {
    Abs(x1 - x2) < width && Abs(y1 - y2) < 0.5
  }

  /**
   * Whether an object's box is in a portal's capture band: its centre within 0.6 portal widths
   * horizontally, and the edge facing the portal (its bottom for a top-mounted portal, its top
   * otherwise) within two portal heights vertically.
   */
  predicate InCaptureBand(objLeft: real, objTop: real, objWidth: real, objHeight: real,
                          centerX: real, centerY: real, width: real, height: real, onTop: bool) {
    Abs(objLeft + objWidth / 2.0 - centerX) < width * 0.6
    && Abs((if onTop then objTop + objHeight else objTop) - centerY) < height * 2.0
  }

  // ---------------------------------------------------------------- turret

  /** Shots a turret fires before it reloads, less one (`shotsPerSecond * 20`). */
  const MaxShots: int := 100
  /** Updates a reload lasts (`frameRate * 4`). */
  const ReloadFrames: int := 120
  /** Updates between shots (`frameRate / shotsPerSecond`). */
  const ShotGap: int := 6

  /** A turret's counters: updates until it may fire again, updates of reload left, shots since the last reload. */
  datatype Gun = Gun(firing: int, reloading: int, shotsFired: int)

  /** The ranges the counters keep. */
  predicate GunValid(g: Gun) {
    0 <= g.firing < ShotGap && 0 <= g.reloading < ReloadFrames && 0 <= g.shotsFired <= MaxShots + 1
  }

  /**
   * One update of a turret that is not being teleported. `ready` is the turret being upright and
   * not held by the man, `seesMan` the result of its look ahead. Returns the new counters and
   * whether it fired.
   */
  function GunStep(g: Gun, ready: bool, seesMan: bool): (r: (Gun, bool))
    ensures GunValid(g) ==> GunValid(r.0)
    ensures r.1 <==> g.reloading == 0 && g.shotsFired <= MaxShots && g.firing == 0 && ready && seesMan
    ensures r.1 ==> r.0.firing == ShotGap - 1 && r.0.shotsFired == g.shotsFired + 1
    ensures g.shotsFired > MaxShots ==> r.0 == Gun(g.firing, ReloadFrames - 1, 0)
    ensures 0 <= g.firing ==> r.0.firing >= g.firing - 1
  {
    var g1 := if g.shotsFired > MaxShots then Gun(g.firing, ReloadFrames, 0) else g;
    if g1.reloading != 0 then
      var left := g1.reloading - 1;
      (g1.(reloading := if left < 0 then 0 else left), false)
    else
      var shoot := ready && g1.firing == 0 && seesMan;
      var f := if shoot then ShotGap else g1.firing;
      var f' := if f > 0 then f - 1 else f;
      (Gun(if f' < 0 then 0 else f', g1.reloading, if shoot then g1.shotsFired + 1 else g1.shotsFired), shoot)
  }

  /** What a turret senses on one update: whether it is ready, and whether it sees the man. */
  datatype Sight = Sight(ready: bool, seesMan: bool)

  /** The counters after the first `k` updates with the given sights. */
  function GunAfter(g: Gun, sights: seq<Sight>, k: nat): Gun
    requires k <= |sights|
  {
    if k == 0 then g else GunStep(GunAfter(g, sights, k - 1), sights[k - 1].ready, sights[k - 1].seesMan).0
  }

  /** Whether update `k` (counting from 0) fires. */
  predicate ShotAt(g: Gun, sights: seq<Sight>, k: nat)
    requires k < |sights|
  {
    GunStep(GunAfter(g, sights, k), sights[k].ready, sights[k].seesMan).1
  }

  /** After a shot on update `k`, the firing counter on update `m` is still at least `ShotGap - (m - k)`. */
  lemma {:induction false} CoolingAfterShot(g: Gun, sights: seq<Sight>, k: nat, m: nat)
    requires k < m <= |sights| && ShotAt(g, sights, k)
    ensures GunAfter(g, sights, m).firing >= ShotGap - (m - k)
  {
    if m > k + 1 {
      CoolingAfterShot(g, sights, k, m - 1);
    }
  }

  /** Two shots of one turret are at least `ShotGap` updates apart, whatever it senses. */
  lemma ShotsSpaced(g: Gun, sights: seq<Sight>, k: nat, j: nat)
    requires k < j < |sights| && ShotAt(g, sights, k) && ShotAt(g, sights, j)
    ensures j - k >= ShotGap
  {
    if j - k < ShotGap {
      CoolingAfterShot(g, sights, k, j);
    }
  }

  /** Counters that start in range stay in range, so a turret never counts more than `MaxShots + 1` shots. */
  lemma {:induction false} GunStaysValid(g: Gun, sights: seq<Sight>, k: nat)
    requires GunValid(g) && k <= |sights|
    ensures GunValid(GunAfter(g, sights, k))
    ensures GunAfter(g, sights, k).shotsFired <= MaxShots + 1
  {
    if k > 0 {
      GunStaysValid(g, sights, k - 1);
    }
  }

  // ---------------------------------------------------------------- exit

  /** Updates the exit animation lasts before the level is reset (`maxExitAnimationFrames`). */
  const ExitAnimationFrames: int := 25
  /** Exit size in screen units. */
  const ExitWidth: real := 25.0
  const ExitHeight: real := 40.0

  /** Whether the man's centre is within 0.7 exit widths and 0.7 exit heights of the exit's centre. */
  predicate AtExit(manCenterX: real, manCenterY: real, left: real, top: real, width: real, height: real) {
    Abs(manCenterX - (left + width / 2.0)) < width * 0.7 && Abs(manCenterY - (top + height / 2.0)) < height * 0.7
  }

  /**
   * One update of the exit: a running animation counts up and asks for a reset once past its
   * length; an idle exit starts it (and takes the man) when the man is at the exit.
   * Returns the new counter, whether the man is taken, and whether a reset is asked for.
   */
  function ExitStep(exiting: int, manAtExit: bool): (r: (int, bool, bool))
    ensures exiting == 0 ==> r == (if manAtExit then 1 else 0, manAtExit, false)
    ensures exiting != 0 ==> r.0 == exiting + 1 && !r.1
    ensures r.2 <==> exiting != 0 && exiting >= ExitAnimationFrames
  {
    if exiting != 0 then (exiting + 1, false, exiting + 1 > ExitAnimationFrames)
    else if manAtExit then (1, true, false)
    else (0, false, false)
  }

  /** The exit counter after `k` more updates of a running animation. */
  function ExitAfter(exiting: int, k: nat): int {
    if k == 0 then exiting else ExitStep(ExitAfter(exiting, k - 1), false).0
  }

  /** Once the man is taken, the reset is asked for on the 25th update after, and on none before. */
  lemma ExitResetTiming()
    ensures forall k: nat :: k < ExitAnimationFrames ==> ExitAfter(1, k) == k + 1
    ensures forall k: nat :: k < ExitAnimationFrames - 1 ==> !ExitStep(ExitAfter(1, k), false).2
    ensures ExitStep(ExitAfter(1, ExitAnimationFrames - 1), false).2
  {
    forall k: nat | k < ExitAnimationFrames
      ensures ExitAfter(1, k) == k + 1
    {
      ExitCountsUp(k);
    }
  }

  lemma {:induction false} ExitCountsUp(k: nat)
    ensures ExitAfter(1, k) == k + 1
  {
    if k > 0 {
      ExitCountsUp(k - 1);
    }
  }

  // ---------------------------------------------------------------- legs

  /** Leg poses of the stick man (`legPos`): 3 pass, 2 up, 1 contact, 0 standing. */
  const LegPass: int := 3
  const LegStand: int := 0
  /** Updates the leg pose holds before it may change (`frameRate / 15`). */
  const LegFrames: int := 2

  /** The leg pose and the updates left before it may change. */
  datatype Legs = Legs(pos: int, wait: int)

  predicate LegsValid(l: Legs) {
    LegStand <= l.pos <= LegPass && 0 <= l.wait <= LegFrames
  }

  /** The pose that follows `pos`: stepping down to contact, then back to pass while running, and to standing otherwise. */
  function NextPose(pos: int, running: bool): (p: int)
    ensures LegStand <= pos <= LegPass ==> LegStand <= p <= LegPass
    ensures running && LegStand <= pos <= LegPass ==> LegStand < p
    ensures !running ==> p == if pos > LegStand then pos - 1 else pos
  {
    if pos > 1 then pos - 1
    else if running then LegPass
    else if pos == 1 then pos - 1
    else pos
  }

  /** One update of `updateLegs`: wait out the hold, or change pose and restart it. */
  function LegsStep(l: Legs, running: bool): (r: Legs)
    ensures LegsValid(l) ==> LegsValid(r)
    ensures l.wait >= 1 ==> r == Legs(l.pos, l.wait - 1)
    ensures l.wait < 1 ==> r == Legs(NextPose(l.pos, running), LegFrames)
  {
    if l.wait >= 1 then Legs(l.pos, l.wait - 1) else Legs(NextPose(l.pos, running), LegFrames)
  }

  /** The legs after `k` updates with the same running intent. */
  function LegsAfter(l: Legs, running: bool, k: nat): Legs {
    if k == 0 then l else LegsStep(LegsAfter(l, running, k - 1), running)
  }

  lemma {:induction false} LegsWait(l: Legs, running: bool, k: nat)
    requires k <= l.wait
    ensures LegsAfter(l, running, k) == Legs(l.pos, l.wait - k)
  {
    if k > 0 {
      LegsWait(l, running, k - 1);
    }
  }

  /** Every three updates the pose changes exactly once, and the hold counter is back where it was. */
  lemma {:induction false} LegsEveryThird(l: Legs, running: bool)
    requires LegsValid(l)
    ensures LegsAfter(l, running, 3) == Legs(NextPose(l.pos, running), l.wait)
  {
    LegsWait(l, running, l.wait);
    var m := Legs(l.pos, 0);
    assert LegsAfter(l, running, l.wait + 1) == Legs(NextPose(l.pos, running), LegFrames);
    LegsShift(l, running, l.wait + 1, 3 - (l.wait + 1));
    LegsWait(Legs(NextPose(l.pos, running), LegFrames), running, 3 - (l.wait + 1));
  }

  /** Running `a` then `b` updates is running `a + b` updates. */
  lemma {:induction false} LegsShift(l: Legs, running: bool, a: nat, b: nat)
    ensures LegsAfter(LegsAfter(l, running, a), running, b) == LegsAfter(l, running, a + b)
  {
    if b > 0 {
      LegsShift(l, running, a, b - 1);
    }
  }

  /** Standing still, the legs step down one pose every three updates and stay standing. */
  lemma {:induction false} LegsSettle(l: Legs, n: nat)
    requires LegsValid(l)
    ensures LegsAfter(l, false, 3 * n) == Legs(if l.pos - n > LegStand then l.pos - n else LegStand, l.wait)
  {
    if n > 0 {
      LegsSettle(l, n - 1);
      var mid := LegsAfter(l, false, 3 * (n - 1));
      LegsEveryThird(mid, false);
      LegsShift(l, false, 3 * (n - 1), 3);
    }
  }

  /** While running, a walking pose comes back after nine updates: the cycle pass, up, contact. */
  lemma RunningCycle(l: Legs)
    requires LegsValid(l) && l.pos != LegStand
    ensures LegsAfter(l, true, 9) == l
  {
    LegsEveryThird(l, true);
    var a := LegsAfter(l, true, 3);
    LegsEveryThird(a, true);
    LegsShift(l, true, 3, 3);
    var b := LegsAfter(l, true, 6);
    LegsEveryThird(b, true);
    LegsShift(l, true, 6, 3);
  }

  // ---------------------------------------------------------------- jumping and bullets

  /** Updates a jump intent stays live (`stickManTryToJumpForNumFrames`). */
  const JumpFrames: int := 6

  /** Life of a new bullet in updates (`frameRate / 4`, a fraction in JavaScript). */
  const BulletLife: real := FrameRate as real / 4.0
  /** Bullet speed per unit of facing, and its size in screen units. */
  const BulletSpeed: real := 25.0
  const BulletSize: real := 2.0

  /** A bullet's life after `k` updates. */
  function LifeAfter(k: nat): real {
    if k == 0 then BulletLife else LifeAfter(k - 1) - 1.0
  }

  /** A new bullet is destroyed on its eighth update and not before, since its life counts down from 7.5. */
  lemma {:induction false} BulletExpiry(k: nat)
    ensures LifeAfter(k) == BulletLife - k as real
    ensures LifeAfter(k) <= 0.0 <==> k >= 8
  {
    if k > 0 {
      BulletExpiry(k - 1);
    }
  }

  // ---------------------------------------------------------------- levels

  /** The last level, and the level play returns to after it. */
  const LastLevel: int := 10
  const LoopLevel: int := 6

  /** The level `init` moves to from `level`. */
  function NextLevel(level: int): (r: int)
    ensures 0 <= level ==> 1 <= r <= LastLevel
    ensures level < LastLevel ==> r == level + 1
    ensures level >= LastLevel ==> r == LoopLevel
  {
    if level + 1 > LastLevel then LoopLevel else level + 1
  }

  /** The level after `k` calls of `init` from the start value 0. */
  function LevelAfter(k: nat): int {
    if k == 0 then 0 else NextLevel(LevelAfter(k - 1))
  }

  /** Levels are played 1 to 10 in order and then 6 to 10 over and over. */
  lemma {:induction false} LevelSequence(k: nat)
    ensures LevelAfter(k) == if k <= LastLevel then k else LoopLevel + (k - LastLevel - 1) % (LastLevel - LoopLevel + 1)
  {
    if k > 0 {
      LevelSequence(k - 1);
    }
  }
}
