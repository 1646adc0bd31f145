/**
 * SkullyHop: a badguy that stands for a recovery time, charges, and jumps
 * towards the direction it faces, turning at walls.
 */
module SkullyHop {
  import opened Directions
  import Collision

  datatype HopState = Standing | Charging | Jumping

  /** Shortest and longest time to stand before a jump. */
  const MIN_RECOVER_TIME: real := 0.1
  const MAX_RECOVER_TIME: real := 1.0
  /** The velocity a jump starts with. */
  const HORIZONTAL_SPEED: real := 220.0
  const VERTICAL_SPEED: real := -450.0

  /** The five editable jump times; 0 until the editor sets them. */
  datatype JumpTimes = JumpTimes(t1: real, t2: real, t3: real, t4: real, t5: real) {
    /** The time for jump k. */
    function At(k: int): real
      requires 1 <= k <= 5
    {
      match k
      case 1 => t1
      case 2 => t2
      case 3 => t3
      case 4 => t4
      case _ => t5
    }
  }

  const NO_JUMP_TIMES := JumpTimes(0.0, 0.0, 0.0, 0.0, 0.0)

  /**
   * The recovery time set_state(STANDING) starts the timer with: for the
   * first five jumps the configured time, unless that is below the minimum;
   * otherwise the random draw from [MIN_RECOVER_TIME, MAX_RECOVER_TIME].
   */
  function RecoverTime(counter: int, times: JumpTimes, draw: real): (r: real)
    requires counter >= 1
    ensures MIN_RECOVER_TIME <= draw ==> MIN_RECOVER_TIME <= r
    ensures counter > 5 ==> r == draw
    ensures counter <= 5 && times.At(counter) >= MIN_RECOVER_TIME ==> r == times.At(counter)
    ensures r == draw || (counter <= 5 && r == times.At(counter))
  {
    if counter <= 5 then
      var t := times.At(counter);
      if t < MIN_RECOVER_TIME then draw else t
    else draw
  }

  /** The jump counter after a stand: it counts up to 6 and then stays. */
  function NextCounter(counter: int): (r: int)
    ensures counter <= r <= counter + 1
    ensures counter <= 5 <==> r == counter + 1
  {
    if counter <= 5 then counter + 1 else counter
  }

  /** The jump counter after n stands. */
  function CounterAfter(counter: int, n: nat): (r: int)
    ensures r >= counter
  {
    if n == 0 then counter else NextCounter(CounterAfter(counter, n - 1))
  }

  /** From any start of at least 1, n stands bring the counter to start + n, but never past 6 unless it started there. */
  lemma {:induction false} CounterAfterStands(counter: int, n: nat)
    requires counter >= 1
    ensures CounterAfter(counter, n) == if counter >= 6 then counter else if counter + n <= 6 then counter + n else 6
  {
    if n > 0 {
      CounterAfterStands(counter, n - 1);
    }
  }

  /** After five stands, every recovery time is a random draw, whatever the jump times. */
  lemma RandomAfterFiveStands(counter: int, n: nat, times: JumpTimes, draw: real)
    requires counter >= 1 && n >= 5
    ensures RecoverTime(CounterAfter(counter, n), times, draw) == draw
  {
    CounterAfterStands(counter, n);
  }

  /** Jump times the editor accepts without a warning: from 0 to MAX_RECOVER_TIME. */
  predicate InRange(t: real) {
    0.0 <= t <= MAX_RECOVER_TIME
  }

  /** With accepted jump times and a draw in range, recovery takes between the minimum and the maximum. */
  lemma RecoverTimeBounds(counter: int, times: JumpTimes, draw: real)
    requires counter >= 1
    requires MIN_RECOVER_TIME <= draw <= MAX_RECOVER_TIME
    requires forall k :: 1 <= k <= 5 ==> InRange(times.At(k))
    ensures MIN_RECOVER_TIME <= RecoverTime(counter, times, draw) <= MAX_RECOVER_TIME
  {
  }

  class SkullyHop {
    var state: HopState
    var dir: Direction
    var vx: real
    var vy: real
    var action: string
    var jumpCounter: int
    var jumpTimes: JumpTimes
    var recoverTimer: real
    var frozen: bool
    var burning: bool
    var squished: bool

    /** The jump counter starts at 1 or 6 and only counts up. */
    predicate Valid()
      reads this
    {
      jumpCounter >= 1
    }

    /** The constructor from a level file: the five jump times are used, counting from 1. */
    constructor FromReader(d: Direction)
      ensures Valid() && jumpCounter == 1 && jumpTimes == NO_JUMP_TIMES
      ensures state == Standing && dir == d && vx == 0.0 && vy == 0.0
      ensures !frozen && !burning && !squished
    {
      state := Standing;
      dir := d;
      vx := 0.0;
      vy := 0.0;
      action := "";
      jumpCounter := 1;
      jumpTimes := NO_JUMP_TIMES;
      recoverTimer := 0.0;
      frozen := false;
      burning := false;
      squished := false;
    }

    /** The constructor from a position: the counter starts past the jump times, so every recovery time is drawn. */
    constructor AtPosition(d: Direction)
      ensures Valid() && jumpCounter == 6 && jumpTimes == NO_JUMP_TIMES
      ensures state == Standing && dir == d && vx == 0.0 && vy == 0.0
      ensures !frozen && !burning && !squished
    {
      state := Standing;
      dir := d;
      vx := 0.0;
      vy := 0.0;
      action := "";
      jumpCounter := 6;
      jumpTimes := NO_JUMP_TIMES;
      recoverTimer := 0.0;
      frozen := false;
      burning := false;
      squished := false;
    }

    /** after_editor_set: face the standing sprite, and say whether some jump time is out of range. */
    method AfterEditorSet() returns (warn: bool)
      modifies this
      ensures warn <==> exists k :: 1 <= k <= 5 && !InRange(jumpTimes.At(k))
      ensures action == Sided(dir, "standing-left", "standing-right")
      ensures state == old(state) && dir == old(dir) && vx == old(vx) && vy == old(vy)
      ensures jumpCounter == old(jumpCounter) && jumpTimes == old(jumpTimes) && recoverTimer == old(recoverTimer)
      ensures frozen == old(frozen) && burning == old(burning) && squished == old(squished)
    {
      var jt := jumpTimes;
      var changes := [InRange(jt.t1), InRange(jt.t2), InRange(jt.t3), InRange(jt.t4), InRange(jt.t5)];
      assert forall k :: 1 <= k <= 5 ==> changes[k - 1] == InRange(jt.At(k));
      var i := 0;
      while i < |changes| && changes[i]
        invariant 0 <= i <= |changes|
        invariant forall j :: 0 <= j < i ==> changes[j]
      {
        i := i + 1;
      }
      if i < |changes| {
        assert !InRange(jt.At(i + 1));
      } else {
        forall k | 1 <= k <= 5
          ensures InRange(jt.At(k))
        {
          assert changes[k - 1];
        }
      }
      warn := i < |changes|;
      action := if dir == Left then "standing-left" else "standing-right";
      assert jumpTimes == jt;
    }

    /** initialize: a SkullyHop may start in the air, so it starts as jumping. */
    method Initialize()
      modifies this
      ensures state == Jumping && action == Sided(dir, "jumping-left", "jumping-right")
      ensures dir == old(dir) && vx == old(vx) && vy == old(vy)
      ensures jumpCounter == old(jumpCounter) && jumpTimes == old(jumpTimes) && recoverTimer == old(recoverTimer)
      ensures frozen == old(frozen) && burning == old(burning) && squished == old(squished)
    {
      state := Jumping;
      action := if dir == Left then "jumping-left" else "jumping-right";
    }

    /**
     * set_state, with the random recovery time drawn for it: standing stops
     * and starts the recovery timer, charging only changes the sprite, and
     * jumping leaps forward; the new state is always stored.
     */
    method SetState(newState: HopState, draw: real)
      requires Valid()
      modifies this
      ensures Valid() && state == newState
      ensures newState == Standing ==>
        vx == 0.0 && vy == 0.0 && recoverTimer == RecoverTime(old(jumpCounter), jumpTimes, draw) &&
        jumpCounter == NextCounter(old(jumpCounter)) && action == Sided(dir, "standing-left", "standing-right")
      ensures newState == Charging ==>
        vx == old(vx) && vy == old(vy) && recoverTimer == old(recoverTimer) && jumpCounter == old(jumpCounter) &&
        action == Sided(dir, "charging-left", "charging-right")
      ensures newState == Jumping ==>
        vx == Sided(dir, -HORIZONTAL_SPEED, HORIZONTAL_SPEED) && vy == VERTICAL_SPEED &&
        recoverTimer == old(recoverTimer) && jumpCounter == old(jumpCounter) &&
        action == Sided(dir, "jumping-left", "jumping-right")
      ensures dir == old(dir) && jumpTimes == old(jumpTimes)
      ensures frozen == old(frozen) && burning == old(burning) && squished == old(squished)
    {
      match newState {
        case Standing =>
          vx := 0.0;
          vy := 0.0;
          action := if dir == Left then "standing-left" else "standing-right";
          var recoverTime: real;
          if jumpCounter <= 5 {
            recoverTime := jumpTimes.At(jumpCounter);
            if recoverTime < MIN_RECOVER_TIME {
              recoverTime := draw;
            }
            jumpCounter := jumpCounter + 1;
          } else {
            recoverTime := draw;
          }
          recoverTimer := recoverTime;
        case Charging =>
          action := if dir == Left then "charging-left" else "charging-right";
        case Jumping =>
          action := if dir == Left then "jumping-left" else "jumping-right";
          vx := if dir == Left then -HORIZONTAL_SPEED else HORIZONTAL_SPEED;
          vy := VERTICAL_SPEED;
      }
      state := newState;
    }

    /**
     * collision_solid, with the random recovery time a landing draws. Frozen
     * or burning, only the base class's handling runs, which is not part of
     * this model. Outside a jump nothing else happens. In a jump, landing
     * while falling makes it stand, a hit above stops the rise, and a hit on
     * a side turns it round, bouncing back at a quarter of the speed.
     */
    method CollisionSolid(hit: Collision.Hit, draw: real)
      requires Valid()
      modifies this
      ensures Valid()
      ensures frozen || burning || old(state) != Jumping ==>
        state == old(state) && dir == old(dir) && vx == old(vx) && vy == old(vy) &&
        jumpCounter == old(jumpCounter) && recoverTimer == old(recoverTimer) && action == old(action)
      ensures !(frozen || burning) && old(state) == Jumping ==>
        var landed := hit.bottom && old(vy) > 0.0;
        var side := hit.left || hit.right;
        state == (if landed then Standing else Jumping) &&
        dir == (if side then Opposite(old(dir)) else old(dir)) &&
        vy == (if landed || hit.top then 0.0 else old(vy)) &&
        vx == (if side then -0.25 else 1.0) * (if landed then 0.0 else old(vx)) &&
        (landed ==> recoverTimer == RecoverTime(old(jumpCounter), jumpTimes, draw) &&
                    jumpCounter == NextCounter(old(jumpCounter))) &&
        (!landed ==> recoverTimer == old(recoverTimer) && jumpCounter == old(jumpCounter))
      ensures jumpTimes == old(jumpTimes) && frozen == old(frozen) && burning == old(burning) && squished == old(squished)
    {
      if frozen || burning {
        return;
      }
      if state != Jumping {
        return;
      }
      if hit.bottom && vy > 0.0 {
        SetState(Standing, draw);
      }
      if hit.top {
        vy := 0.0;
      }
      if hit.left || hit.right {
        dir := if dir == Left then Right else Left;
        action := if dir == Left then "jumping-left" else "jumping-right";
        vx := -0.25 * vx;
      }
    }

    /**
     * active_update, with whether the recovery timer has run out and whether
     * the charging animation is done: at most one step along standing,
     * charging, jumping, and none while frozen. The movement the base class
     * applies first is not part of this model.
     */
    method ActiveUpdate(timerExpired: bool, animationDone: bool)
      requires Valid()
      modifies this
      ensures Valid()
      ensures state == (if frozen then old(state)
                        else if old(state) == Standing && timerExpired then Charging
                        else if old(state) == Charging && animationDone then Jumping
                        else old(state))
      ensures old(state) == Charging && state == Jumping ==>
        vx == Sided(dir, -HORIZONTAL_SPEED, HORIZONTAL_SPEED) && vy == VERTICAL_SPEED
      ensures state == old(state) ==> vx == old(vx) && vy == old(vy) && action == old(action)
      ensures dir == old(dir) && jumpCounter == old(jumpCounter) && jumpTimes == old(jumpTimes)
      ensures recoverTimer == old(recoverTimer)
      ensures frozen == old(frozen) && burning == old(burning) && squished == old(squished)
    {
      if frozen {
        return;
      }
      // Only standing draws a recovery time, so any draw serves here.
      if state == Standing && timerExpired {
        SetState(Charging, MIN_RECOVER_TIME);
        return;
      }
      if state == Charging && animationDone {
        SetState(Jumping, MIN_RECOVER_TIME);
        return;
      }
    }

    /** unfreeze: thawed, and back in the air as after initialisation. */
    method Unfreeze()
      modifies this
      ensures !frozen && state == Jumping && action == Sided(dir, "jumping-left", "jumping-right")
      ensures dir == old(dir) && vx == old(vx) && vy == old(vy)
      ensures jumpCounter == old(jumpCounter) && jumpTimes == old(jumpTimes) && recoverTimer == old(recoverTimer)
      ensures burning == old(burning) && squished == old(squished)
    {
      frozen := false;
      Initialize();
    }
  }
}
