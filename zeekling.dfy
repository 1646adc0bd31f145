/**
 * Zeekling: a flying badguy that cruises left and right, dives at a player
 * it predicts to meet, climbs back after hitting something below it, and
 * turns at walls.
 */
module Zeekling {
  import opened Wrappers
  import opened Geometry
  import opened Directions
  import Collision

  datatype FlightState = Flying | Diving | Climbing

  /** What the bumps and the update change: flight state, facing, velocity and sprite action. */
  datatype Motion = Motion(state: FlightState, dir: Direction, vx: real, vy: real, action: string)

  /** Cruising at the Zeekling's speed in the direction it faces. */
  predicate Cruising(m: Motion, speed: real) {
    m.vx == Sided(m.dir, -speed, speed)
  }

  predicate Squished(action: string) {
    action == "squished-left" || action == "squished-right"
  }

  /**
   * onBumpHorizontal: frozen, the Zeekling only stops; otherwise it turns
   * round and cruises the other way, and a dive is broken off into flight.
   */
  function BumpedHorizontally(m: Motion, speed: real, frozen: bool): (r: Motion)
    ensures frozen ==> r == m.(vx := 0.0)
    ensures !frozen ==> r.dir == Opposite(m.dir) && Cruising(r, speed) && r.state != Diving
  {
    if frozen then m.(vx := 0.0)
    else
      var dir := Opposite(m.dir);
      var turned := m.(dir := dir, action := Sided(dir, "left", "right"), vx := Sided(dir, -speed, speed));
      match m.state
      case Flying => turned
      case Diving => turned.(state := Flying, vy := 0.0)
      case Climbing => turned
  }

  /**
   * onBumpVertical: frozen or burning, the Zeekling stops; otherwise flying
   * stops vertical motion, a dive turns into a climb at the Zeekling's
   * speed, and a climb ends in flight.
   */
  function BumpedVertically(m: Motion, speed: real, frozen: bool, burning: bool): (r: Motion)
    ensures frozen || burning ==> r == m.(vx := 0.0, vy := 0.0)
    ensures !(frozen || burning) ==> r.dir == m.dir && r.vx == m.vx
    ensures !(frozen || burning) ==> (r.state == Climbing <==> m.state == Diving)
    ensures !(frozen || burning) && r.state == Climbing ==> r.vy == -speed
    ensures !(frozen || burning) && r.state == Flying ==> r.vy == 0.0
  {
    if frozen || burning then m.(vx := 0.0, vy := 0.0)
    else
      match m.state
      case Flying => m.(vy := 0.0)
      case Diving => m.(state := Climbing, vy := -speed, action := Sided(m.dir, "left", "right"))
      case Climbing => m.(state := Flying, vy := 0.0)
  }

  /** A wall between two dives: turning twice faces and cruises the way the Zeekling came. */
  lemma TurningTwiceRestores(m: Motion, speed: real)
    requires Cruising(m, speed) && m.state != Diving
    ensures var r := BumpedHorizontally(BumpedHorizontally(m, speed, false), speed, false);
      r.dir == m.dir && r.vx == m.vx && r.state == m.state && r.vy == m.vy
  {
  }

  /** A dive that hits the ground climbs, and the next vertical bump ends the climb in level flight. */
  lemma DiveClimbFly(m: Motion, speed: real)
    requires m.state == Diving
    ensures BumpedVertically(m, speed, false, false).state == Climbing
    ensures var r := BumpedVertically(BumpedVertically(m, speed, false, false), speed, false, false);
      r.state == Flying && r.vy == 0.0 && r.dir == m.dir && r.vx == m.vx
  {
  }

  // ---------------------------------------------------------------------
  // should_we_dive

  /** A player as the Zeekling sees it: which one it is and where it stands. */
  datatype Player = Player(handle: nat, pos: Vec)

  /** The variables of the linear prediction, kept between calls. */
  datatype DiveVariables = DiveVariables(
    lastPlayerPos: Vec,
    lastSelfPos: Vec,
    playerPos: Vec,
    playerMov: Vec,
    selfPos: Vec,
    selfMov: Vec,
    vy: real,
    height: real,
    relSpeed: real,
    estFrames: real,
    estPx: real,
    estBx: real)

  const ORIGIN := Vec(0.0, 0.0)
  const NO_DIVE_VARIABLES := DiveVariables(ORIGIN, ORIGIN, ORIGIN, ORIGIN, ORIGIN, ORIGIN, 0.0, 0.0, 0.0, 0.0, 0.0, 0.0)

  /** The decision, the prediction variables afterwards, and the player tracked afterwards. */
  datatype DiveCheck = DiveCheck(dive: bool, vars: DiveVariables, lastPlayer: Option<nat>)

  /** The nearest player is the one tracked at the previous call. */
  predicate Tracked(player: Option<Player>, lastPlayer: Option<nat>) {
    player.Some? && lastPlayer.Some? && player.value.handle == lastPlayer.value
  }

  /** Remember the player, and where it and the Zeekling stand, for the next call. */
  function Remembered(player: Option<Player>, selfPos: Vec, v: DiveVariables): (r: DiveCheck)
    ensures !r.dive
  {
    match player
    case None => DiveCheck(false, v, None)
    case Some(p) => DiveCheck(false, v.(lastPlayerPos := p.pos, lastSelfPos := selfPos), Some(p.handle))
  }

  /**
   * should_we_dive: with the same player as last time, predict by their
   * movement since then when the Zeekling, diving at twice its horizontal
   * speed, reaches the player's height, and dive when both would then be
   * less than 8 apart; the player must be below, at most 512 further down,
   * and falling slower than the dive. Only a call that reaches the end
   * remembers the player and the positions.
   */
  function DiveChecked(frozen: bool, player: Option<Player>, lastPlayer: Option<nat>, selfPos: Vec, v: DiveVariables): DiveCheck {
    if frozen then DiveCheck(false, v, lastPlayer)
    else if !Tracked(player, lastPlayer) then Remembered(player, selfPos, v)
    else
      var p := player.value.pos;
      var playerMov := p.Minus(v.lastPlayerPos);
      var selfMov := selfPos.Minus(v.lastSelfPos);
      var vy := 2.0 * Abs(selfMov.x);
      var height := p.y - selfPos.y;
      var v1 := v.(playerPos := p, playerMov := playerMov, selfPos := selfPos, selfMov := selfMov, vy := vy, height := height);
      if height <= 0.0 || height > 512.0 then DiveCheck(false, v1, lastPlayer)
      else
        var relSpeed := vy - playerMov.y;
        var v2 := v1.(relSpeed := relSpeed);
        if relSpeed <= 0.0 then DiveCheck(false, v2, lastPlayer)
        else
          var estFrames := FramesToReach(height, relSpeed);
          var estPx := Ahead(p.x, estFrames, playerMov.x);
          var estBx := Ahead(selfPos.x, estFrames, selfMov.x);
          var v3 := v2.(estFrames := estFrames, estPx := estPx, estBx := estBx);
          if Abs(estPx - estBx) < 8.0 then DiveCheck(true, v3, lastPlayer)
          else Remembered(player, selfPos, v3)
  }

  /** How many frames a gap of `height` takes to close at `relSpeed` per frame. */
  function FramesToReach(height: real, relSpeed: real): real
    requires relSpeed != 0.0
  {
    height / relSpeed
  }

  /** Where a coordinate moving by `step` per frame is after `frames` frames. */
  function Ahead(x: real, frames: real, step: real): real {
    x + frames * step
  }

  /** How far the player stands below the Zeekling. */
  function Height(p: Player, selfPos: Vec): real {
    p.pos.y - selfPos.y
  }

  /** How much faster the dive descends than the player has been falling. */
  function RelSpeed(p: Player, selfPos: Vec, v: DiveVariables): real {
    2.0 * Abs(selfPos.Minus(v.lastSelfPos).x) - p.pos.Minus(v.lastPlayerPos).y
  }

  /** Where the player and the Zeekling would be apart once the dive reaches the player's height. */
  function PredictedGap(p: Player, selfPos: Vec, v: DiveVariables): real
    requires RelSpeed(p, selfPos, v) > 0.0
  {
    var t := FramesToReach(Height(p, selfPos), RelSpeed(p, selfPos, v));
    Ahead(p.pos.x, t, p.pos.Minus(v.lastPlayerPos).x) - Ahead(selfPos.x, t, selfPos.Minus(v.lastSelfPos).x)
  }

  /** The prediction comes to its end: no early return is taken. */
  predicate ReachesEnd(frozen: bool, player: Option<Player>, lastPlayer: Option<nat>, selfPos: Vec, v: DiveVariables) {
    !frozen &&
    (Tracked(player, lastPlayer) ==>
       var p := player.value;
       0.0 < Height(p, selfPos) <= 512.0 && RelSpeed(p, selfPos, v) > 0.0 &&
       Abs(PredictedGap(p, selfPos, v)) >= 8.0)
  }

  /**
   * The Zeekling dives exactly when it is not frozen, tracks the same player
   * as before, that player is below it by at most 512, the dive descends
   * faster than the player falls, and the predicted gap is under 8.
   */
  lemma DiveDecision(frozen: bool, player: Option<Player>, lastPlayer: Option<nat>, selfPos: Vec, v: DiveVariables)
    ensures DiveChecked(frozen, player, lastPlayer, selfPos, v).dive <==>
      (!frozen && Tracked(player, lastPlayer) &&
       0.0 < Height(player.value, selfPos) <= 512.0 && RelSpeed(player.value, selfPos, v) > 0.0 &&
       Abs(PredictedGap(player.value, selfPos, v)) < 8.0)
  {
    if !frozen && Tracked(player, lastPlayer) {
      var p := player.value;
      if 0.0 < Height(p, selfPos) <= 512.0 && RelSpeed(p, selfPos, v) > 0.0 {
        assert DiveChecked(frozen, player, lastPlayer, selfPos, v).dive <==> Abs(PredictedGap(p, selfPos, v)) < 8.0;
      }
    }
  }

  /**
   * The tracked player and the remembered positions are refreshed exactly
   * when the prediction reaches its end; every early return keeps them.
   */
  lemma MemoryRefreshedAtEndOnly(frozen: bool, player: Option<Player>, lastPlayer: Option<nat>, selfPos: Vec, v: DiveVariables)
    ensures var r := DiveChecked(frozen, player, lastPlayer, selfPos, v);
      ReachesEnd(frozen, player, lastPlayer, selfPos, v) ==>
        r.lastPlayer == (if player.Some? then Some(player.value.handle) else None) &&
        (player.Some? ==> r.vars.lastPlayerPos == player.value.pos && r.vars.lastSelfPos == selfPos)
    ensures var r := DiveChecked(frozen, player, lastPlayer, selfPos, v);
      !ReachesEnd(frozen, player, lastPlayer, selfPos, v) ==>
        r.lastPlayer == lastPlayer && r.vars.lastPlayerPos == v.lastPlayerPos && r.vars.lastSelfPos == v.lastSelfPos
  {
    if !frozen && Tracked(player, lastPlayer) {
      var p := player.value;
      var playerMov := p.pos.Minus(v.lastPlayerPos);
      var selfMov := selfPos.Minus(v.lastSelfPos);
      assert playerMov.x == p.pos.x - v.lastPlayerPos.x && playerMov.y == p.pos.y - v.lastPlayerPos.y;
      assert selfMov.x == selfPos.x - v.lastSelfPos.x;
      assert 2.0 * Abs(selfMov.x) - playerMov.y == RelSpeed(p, selfPos, v);
      if 0.0 < Height(p, selfPos) <= 512.0 && RelSpeed(p, selfPos, v) > 0.0 {
        var t := FramesToReach(Height(p, selfPos), RelSpeed(p, selfPos, v));
        var estPx := Ahead(p.pos.x, t, playerMov.x);
        var estBx := Ahead(selfPos.x, t, selfMov.x);
        assert estPx - estBx == PredictedGap(p, selfPos, v);
        if Abs(estPx - estBx) >= 8.0 {
          var v3 := v.(playerPos := p.pos, playerMov := playerMov, selfPos := selfPos, selfMov := selfMov,
                       vy := 2.0 * Abs(selfMov.x), height := Height(p, selfPos), relSpeed := RelSpeed(p, selfPos, v),
                       estFrames := t, estPx := estPx, estBx := estBx);
          assert DiveChecked(frozen, player, lastPlayer, selfPos, v) == Remembered(player, selfPos, v3);
        }
      }
    }
  }

  /**
   * active_update's transitions: flight turns into a dive, falling at twice
   * the horizontal speed, when should_we_dive says so; a climb ends in
   * flight once back at the starting height; a dive goes on.
   */
  function Updated(m: Motion, diveNow: bool, y: real, startY: real): (r: Motion)
    ensures r.dir == m.dir && r.vx == m.vx
    ensures r.state == Diving <==> m.state == Diving || (m.state == Flying && diveNow)
    ensures m.state == Climbing ==> (r.state == Flying <==> y <= startY)
  {
    match m.state
    case Flying =>
      if diveNow then m.(state := Diving, vy := 2.0 * Abs(m.vx), action := Sided(m.dir, "diving-left", "diving-right"))
      else m
    case Diving => m
    case Climbing => if y <= startY then m.(state := Flying, vy := 0.0) else m
  }

  /** A cruising Zeekling dives at twice its speed. */
  lemma DiveIsTwiceAsFast(m: Motion, speed: real, y: real, startY: real)
    requires Cruising(m, speed) && m.state == Flying && speed >= 0.0
    ensures Updated(m, true, y, startY).vy == 2.0 * speed
  {
  }

  /** Speeds outside [130, 171] draw a warning in the editor. */
  predicate SpeedWarning(speed: real) {
    !(130.0 <= speed <= 171.0)
  }

  class Zeekling {
    var speed: real
    var state: FlightState
    var dir: Direction
    var vx: real
    var vy: real
    var action: string
    var frozen: bool
    var burning: bool
    var gravity: bool
    var position: Vec
    const startPosition: Vec
    var lastPlayer: Option<nat>
    var dive: DiveVariables

    function CurrentMotion(): Motion
      reads this
    {
      Motion(state, dir, vx, vy, action)
    }

    /**
     * The constructor from a position and a direction: flying, at a speed
     * drawn from 130 to 170, without gravity, tracking nobody. The velocity
     * and sprite action stay as the base class leaves them, here zero and "".
     */
    constructor (pos: Vec, d: Direction, speedDraw: int)
      requires 130 <= speedDraw < 171
      ensures state == Flying && dir == d && speed == speedDraw as real && !SpeedWarning(speed)
      ensures position == pos && startPosition == pos && vx == 0.0 && vy == 0.0 && action == ""
      ensures !frozen && !burning && !gravity && lastPlayer == None && dive == NO_DIVE_VARIABLES
    {
      speed := speedDraw as real;
      state := Flying;
      dir := d;
      vx := 0.0;
      vy := 0.0;
      action := "";
      frozen := false;
      burning := false;
      gravity := false;
      position := pos;
      startPosition := pos;
      lastPlayer := None;
      dive := NO_DIVE_VARIABLES;
    }

    /** after_editor_set: whether the edited speed draws a warning. */
    method AfterEditorSet() returns (warn: bool)
      ensures warn <==> !(130.0 <= speed && speed <= 171.0)
    {
      warn := !(speed >= 130.0 && speed <= 171.0);
    }

    /** initialize: cruise at the Zeekling's speed in the direction it faces. */
    method Initialize()
      modifies this
      ensures Cruising(CurrentMotion(), speed) && action == Sided(dir, "left", "right")
      ensures state == old(state) && dir == old(dir) && vy == old(vy) && speed == old(speed)
      ensures frozen == old(frozen) && burning == old(burning) && gravity == old(gravity)
      ensures position == old(position) && lastPlayer == old(lastPlayer) && dive == old(dive)
    {
      vx := if dir == Left then -speed else speed;
      action := if dir == Left then "left" else "right";
    }

    method OnBumpHorizontal()
      modifies this
      ensures CurrentMotion() == BumpedHorizontally(old(CurrentMotion()), speed, frozen)
      ensures speed == old(speed) && frozen == old(frozen) && burning == old(burning) && gravity == old(gravity)
      ensures position == old(position) && lastPlayer == old(lastPlayer) && dive == old(dive)
    {
      if frozen {
        vx := 0.0;
        return;
      }
      match state {
        case Flying =>
          dir := if dir == Left then Right else Left;
          action := if dir == Left then "left" else "right";
          vx := if dir == Left then -speed else speed;
        case Diving =>
          dir := if dir == Left then Right else Left;
          state := Flying;
          action := if dir == Left then "left" else "right";
          vx := if dir == Left then -speed else speed;
          vy := 0.0;
        case Climbing =>
          dir := if dir == Left then Right else Left;
          action := if dir == Left then "left" else "right";
          vx := if dir == Left then -speed else speed;
      }
    }

    method OnBumpVertical()
      modifies this
      ensures CurrentMotion() == BumpedVertically(old(CurrentMotion()), speed, frozen, burning)
      ensures speed == old(speed) && frozen == old(frozen) && burning == old(burning) && gravity == old(gravity)
      ensures position == old(position) && lastPlayer == old(lastPlayer) && dive == old(dive)
    {
      if frozen || burning {
        vy := 0.0;
        vx := 0.0;
        return;
      }
      match state {
        case Flying =>
          vy := 0.0;
        case Diving =>
          state := Climbing;
          vy := -speed;
          action := if dir == Left then "left" else "right";
        case Climbing =>
          state := Flying;
          vy := 0.0;
      }
    }

    /**
     * collision_solid: nothing while squished; a hit above or below is a
     * vertical bump, and only otherwise a hit on a side is a horizontal one.
     */
    method CollisionSolid(hit: Collision.Hit)
      modifies this
      ensures Squished(old(action)) ==> CurrentMotion() == old(CurrentMotion())
      ensures !Squished(old(action)) && (hit.top || hit.bottom) ==>
        CurrentMotion() == BumpedVertically(old(CurrentMotion()), speed, frozen, burning)
      ensures !Squished(old(action)) && !(hit.top || hit.bottom) && (hit.left || hit.right) ==>
        CurrentMotion() == BumpedHorizontally(old(CurrentMotion()), speed, frozen)
      ensures !(hit.top || hit.bottom || hit.left || hit.right) ==> CurrentMotion() == old(CurrentMotion())
      ensures speed == old(speed) && frozen == old(frozen) && burning == old(burning) && gravity == old(gravity)
      ensures position == old(position) && lastPlayer == old(lastPlayer) && dive == old(dive)
    {
      if action == "squished-left" || action == "squished-right" {
        return;
      }
      if hit.top || hit.bottom {
        OnBumpVertical();
      } else if hit.left || hit.right {
        OnBumpHorizontal();
      }
    }

    /** should_we_dive, with the nearest player (if any) as an input. */
    method ShouldWeDive(player: Option<Player>) returns (r: bool)
      modifies this
      ensures var c := DiveChecked(frozen, player, old(lastPlayer), position, old(dive));
        r == c.dive && dive == c.vars && lastPlayer == c.lastPlayer
      ensures CurrentMotion() == old(CurrentMotion()) && speed == old(speed) && frozen == old(frozen)
      ensures burning == old(burning) && gravity == old(gravity) && position == old(position)
    {
      if frozen {
        return false;
      }
      if player.Some? && lastPlayer.Some? && player.value.handle == lastPlayer.value {
        var p := player.value.pos;
        var playerMov := p.Minus(dive.lastPlayerPos);
        var selfMov := position.Minus(dive.lastSelfPos);
        var vy := 2.0 * Abs(selfMov.x);
        var height := p.y - position.y;
        dive := dive.(playerPos := p, playerMov := playerMov, selfPos := position, selfMov := selfMov, vy := vy, height := height);
        if height <= 0.0 {
          return false;
        }
        if height > 512.0 {
          return false;
        }
        var relSpeed := vy - playerMov.y;
        dive := dive.(relSpeed := relSpeed);
        if relSpeed <= 0.0 {
          return false;
        }
        var estFrames := FramesToReach(height, relSpeed);
        var estPx := Ahead(p.x, estFrames, playerMov.x);
        var estBx := Ahead(position.x, estFrames, selfMov.x);
        dive := dive.(estFrames := estFrames, estPx := estPx, estBx := estBx);
        if Abs(estPx - estBx) < 8.0 {
          return true;
        }
      }
      lastPlayer := if player.Some? then Some(player.value.handle) else None;
      if player.Some? {
        dive := dive.(lastPlayerPos := player.value.pos, lastSelfPos := position);
      }
      return false;
    }

    /**
     * active_update, with the nearest player as an input; the movement the
     * base class then applies is not part of this model.
     */
    method ActiveUpdate(player: Option<Player>)
      modifies this
      ensures var c := DiveChecked(frozen, player, old(lastPlayer), position, old(dive));
        CurrentMotion() == Updated(old(CurrentMotion()), old(state) == Flying && c.dive, position.y, startPosition.y)
      ensures var c := DiveChecked(frozen, player, old(lastPlayer), position, old(dive));
        old(state) == Flying ==> dive == c.vars && lastPlayer == c.lastPlayer
      ensures old(state) != Flying ==> dive == old(dive) && lastPlayer == old(lastPlayer)
      ensures speed == old(speed) && frozen == old(frozen) && burning == old(burning)
      ensures gravity == old(gravity) && position == old(position)
    {
      match state {
        case Flying =>
          var diveNow := ShouldWeDive(player);
          if diveNow {
            state := Diving;
            vy := 2.0 * Abs(vx);
            action := if dir == Left then "diving-left" else "diving-right";
          }
        case Diving =>
        case Climbing =>
          if position.y <= startPosition.y {
            state := Flying;
            vy := 0.0;
          }
      }
    }

    /** freeze: frozen, and falling under gravity. */
    method Freeze()
      modifies this
      ensures frozen && gravity && CurrentMotion() == old(CurrentMotion()) && speed == old(speed)
      ensures burning == old(burning) && position == old(position)
      ensures lastPlayer == old(lastPlayer) && dive == old(dive)
    {
      frozen := true;
      gravity := true;
    }

    /** unfreeze: thawed, without gravity, flying and cruising again. */
    method Unfreeze()
      modifies this
      ensures !frozen && !gravity && state == Flying && Cruising(CurrentMotion(), speed)
      ensures dir == old(dir) && vy == old(vy) && action == Sided(dir, "left", "right")
      ensures speed == old(speed) && burning == old(burning) && position == old(position)
      ensures lastPlayer == old(lastPlayer) && dive == old(dive)
    {
      frozen := false;
      gravity := false;
      state := Flying;
      Initialize();
    }
  }
}
