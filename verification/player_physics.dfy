/** The player's motion controller and contact tracking: keyboard input to
    velocity, the jump gate, the gravity switch while climbing, the ground,
    wall and climb trackers fed by collision events, and the death check. */
module PlayerPhysics {
  import opened Common
  import Combat
  import OutOfBounce

  const PLAYER_SPEED: real := 120.0
  const JUMP_IMPULSE: Vec2 := Vec2(0.0, 65.0)
  const DEFAULT_GRAVITY: real := 3.0
  const CLIMB_GRAVITY: real := 0.0
  const PLAYER_HEALTH: int := 10
  const PLAYER_SCALE: Vec3 := Vec3(0.7, 0.7, 1.0)

  /** The components of the player entity the controller reads and writes. */
  datatype Body = Body(
    transform: Transform,
    velocity: Vec2,
    impulse: Vec2,
    gravity: real,
    speed: real,
    onMove: bool,
    direction: MovementDirection,
    flipX: bool,
    climber: Climber,
    onGround: bool,
    onSide: bool,
    attacks: bool,
    health: Health)

  /** The sprite is flipped exactly when the player faces left. */
  predicate FacingCoherent(b: Body)
  {
    b.flipX == (b.direction == Left)
  }

  /** The gravity scale that goes with the climbing flag. */
  function GravityFor(climbing: bool): real
  {
    if climbing then CLIMB_GRAVITY else DEFAULT_GRAVITY
  }

  /** `spawn_player`: the components a freshly placed player starts with. */
  function SpawnPlayer(at: Transform): (b: Body)
    ensures b.health.current == b.health.max == PLAYER_HEALTH
    ensures b.velocity == ZERO && b.impulse == ZERO && !b.onMove
    ensures b.direction == Right && FacingCoherent(b)
    ensures b.climber == Climber({}, false) && b.gravity == GravityFor(b.climber.climbing)
    ensures !b.onGround && !b.onSide && !b.attacks
    ensures b.transform.translation == at.translation && b.transform.scale == PLAYER_SCALE
    ensures b.speed == PLAYER_SPEED
  {
    Body(Transform(at.translation, PLAYER_SCALE), ZERO, ZERO, DEFAULT_GRAVITY, PLAYER_SPEED,
         false, Right, false, Climber({}, false), false, false, false,
         Health(PLAYER_HEALTH, PLAYER_HEALTH))
  }

  /** Horizontal intent: Left wins over Right. */
  function DirectionX(input: Input): (d: int)
    ensures d == -1 <==> ArrowLeft in input.pressed
    ensures d == 1 <==> ArrowLeft !in input.pressed && ArrowRight in input.pressed
    ensures d == 0 <==> ArrowLeft !in input.pressed && ArrowRight !in input.pressed
  {
    if ArrowLeft in input.pressed then -1
    else if ArrowRight in input.pressed then 1
    else 0
  }

  /** Vertical intent while climbing: Up wins over Down. */
  function DirectionY(input: Input): (d: int)
    ensures d == 1 <==> ArrowUp in input.pressed
    ensures d == -1 <==> ArrowUp !in input.pressed && ArrowDown in input.pressed
    ensures d == 0 <==> ArrowUp !in input.pressed && ArrowDown !in input.pressed
  {
    if ArrowUp in input.pressed then 1
    else if ArrowDown in input.pressed then -1
    else 0
  }

  /** The body after a system ran, and which change-tracked components it wrote. */
  datatype MovementOutcome = MovementOutcome(body: Body, onMoveWritten: bool, climberWritten: bool)

  /** `player_movement`. */
  function PlayerMovement(b: Body, input: Input): (r: MovementOutcome)
    ensures r.body.velocity.x == DirectionX(input) as real * b.speed
    ensures r.body.onMove <==> r.body.velocity.x != 0.0
    ensures r.onMoveWritten <==> r.body.onMove != b.onMove
    ensures r.body.velocity.x > 0.0 ==> r.body.direction == Right && !r.body.flipX
    ensures r.body.velocity.x < 0.0 ==> r.body.direction == Left && r.body.flipX
    ensures r.body.velocity.x == 0.0 ==> r.body.direction == b.direction && r.body.flipX == b.flipX
    ensures FacingCoherent(b) ==> FacingCoherent(r.body)
    ensures r.body.climber.contacts == b.climber.contacts
    ensures b.climber.contacts == {} ==> !r.body.climber.climbing
    ensures b.climber.contacts != {} && (ArrowUp in input.justPressed || ArrowDown in input.justPressed) ==>
              r.body.climber.climbing
    ensures b.climber.contacts != {} && ArrowUp !in input.justPressed && ArrowDown !in input.justPressed ==>
              r.body.climber.climbing == b.climber.climbing
    ensures r.body.climber.climbing ==> r.body.velocity.y == DirectionY(input) as real * b.speed
    ensures !r.body.climber.climbing ==> r.body.velocity.y == b.velocity.y
    ensures r.body.climber.climbing != b.climber.climbing ==> r.climberWritten
    ensures r.body == b.(velocity := r.body.velocity, onMove := r.body.onMove, direction := r.body.direction,
                         flipX := r.body.flipX, climber := r.body.climber)
  {
    var vx := DirectionX(input) as real * b.speed;
    var onMove := vx != 0.0;
    var direction := if vx > 0.0 then Right else if vx < 0.0 then Left else b.direction;
    var flipX := if vx > 0.0 then false else if vx < 0.0 then true else b.flipX;
    var contacts := b.climber.contacts;
    var justUpDown := ArrowUp in input.justPressed || ArrowDown in input.justPressed;
    var climberWritten := if contacts == {} then b.climber.climbing else justUpDown;
    var climbing := if contacts == {} then false else if justUpDown then true else b.climber.climbing;
    var vy := if climbing then DirectionY(input) as real * b.speed else b.velocity.y;
    MovementOutcome(
      b.(velocity := Vec2(vx, vy), onMove := onMove, direction := direction, flipX := flipX,
         climber := b.climber.(climbing := climbing)),
      onMove != b.onMove,
      climberWritten)
  }

  /** `player_jump`: only a fresh Space press on the ground or on a ladder jumps. */
  function PlayerJump(b: Body, input: Input): (r: MovementOutcome)
    ensures r.climberWritten <==> Space in input.justPressed && (b.onGround || b.climber.climbing)
    ensures r.climberWritten ==> r.body == b.(impulse := JUMP_IMPULSE, climber := b.climber.(climbing := false))
    ensures !r.climberWritten ==> r.body == b
    ensures !r.onMoveWritten
  {
    if Space in input.justPressed && (b.onGround || b.climber.climbing) then
      MovementOutcome(b.(impulse := JUMP_IMPULSE, climber := b.climber.(climbing := false)), false, true)
    else MovementOutcome(b, false, false)
  }

  /** `ignore_gravity_during_climbing`: runs only when the climber component changed. */
  function IgnoreGravityDuringClimbing(b: Body, climberChanged: bool): (r: Body)
    ensures !climberChanged ==> r == b
    ensures climberChanged ==> (r.gravity == 0.0 <==> b.climber.climbing) && r.gravity in {0.0, 3.0}
    ensures r == b.(gravity := r.gravity)
  {
    if climberChanged then b.(gravity := GravityFor(b.climber.climbing)) else b
  }

  /** What one frame of the controller is given. `contactsWritten` tells
      whether the climb tracker touched the player's contact set this frame. */
  datatype Frame = Frame(input: Input, contacts: set<EntityId>, contactsWritten: bool)

  /** One controller frame, taken in the order movement, jump, gravity. */
  function ControllerTick(b: Body, f: Frame): (r: Body)
    ensures r.climber.contacts == f.contacts
    ensures f.contacts == {} ==> !r.climber.climbing
    ensures r.health == b.health && r.attacks == b.attacks
  {
    var b1 := b.(climber := b.climber.(contacts := f.contacts));
    var moved := PlayerMovement(b1, f.input);
    var jumped := PlayerJump(moved.body, f.input);
    var changed := f.contactsWritten || f.contacts != b.climber.contacts || moved.climberWritten || jumped.climberWritten;
    IgnoreGravityDuringClimbing(jumped.body, changed)
  }

  /** One frame keeps the gravity scale matched to the climbing flag and the
      sprite flip matched to the facing. */
  lemma ControllerTickKeepsInvariants(b: Body, f: Frame)
    requires b.gravity == GravityFor(b.climber.climbing) && FacingCoherent(b)
    ensures var r := ControllerTick(b, f);
            r.gravity == GravityFor(r.climber.climbing) && FacingCoherent(r)
  {
    var b1 := b.(climber := b.climber.(contacts := f.contacts));
    var moved := PlayerMovement(b1, f.input);
    assert FacingCoherent(moved.body);
    var jumped := PlayerJump(moved.body, f.input);
    assert FacingCoherent(jumped.body);
    var changed := f.contactsWritten || f.contacts != b.climber.contacts || moved.climberWritten || jumped.climberWritten;
    if !changed {
      assert moved.body.climber.climbing == b.climber.climbing;
      assert jumped.body == moved.body;
    }
  }

  function RunController(b: Body, frames: seq<Frame>): Body
    decreases |frames|
  {
    if |frames| == 0 then b else RunController(ControllerTick(b, frames[0]), frames[1..])
  }

  /** From spawn onwards, the gravity scale is 0 exactly while climbing and 3
      otherwise, and the sprite flip follows the facing, whatever the input. */
  lemma {:induction false} ControllerKeepsInvariants(at: Transform, frames: seq<Frame>)
    ensures var b := RunController(SpawnPlayer(at), frames);
            b.gravity == GravityFor(b.climber.climbing) && FacingCoherent(b)
  {
    ControllerInvariantsPreserved(SpawnPlayer(at), frames);
  }

  lemma {:induction false} ControllerInvariantsPreserved(b: Body, frames: seq<Frame>)
    requires b.gravity == GravityFor(b.climber.climbing) && FacingCoherent(b)
    ensures var r := RunController(b, frames);
            r.gravity == GravityFor(r.climber.climbing) && FacingCoherent(r)
    decreases |frames|
  {
    if |frames| > 0 {
      ControllerTickKeepsInvariants(b, frames[0]);
      ControllerInvariantsPreserved(ControllerTick(b, frames[0]), frames[1..]);
    }
  }

  // ---------------------------------------------------------------------------
  // Ground tracking

  /** The ground tracker's verdict for one frame. */
  datatype GroundOutcome = GroundOutcome(intersecting: set<EntityId>, onGround: bool, onGroundWritten: bool)

  /** The entity on the other side of an event that names the sensor; the
      second participant is checked first, as the source does. */
  function Other(e: CollisionEvent, sensor: EntityId): EntityId
  {
    if e.b == sensor then e.a else e.b
  }

  /** The contact set after one event naming the sensor. */
  function ApplyContact(s: set<EntityId>, e: CollisionEvent, sensor: EntityId): set<EntityId>
  {
    if e.Started? then s + {Other(e, sensor)} else s - {Other(e, sensor)}
  }

  /** Position of the first event that names the sensor, `|events|` when none does. */
  function FirstInvolving(events: seq<CollisionEvent>, sensor: EntityId): (k: nat)
    ensures k <= |events|
    ensures forall i :: 0 <= i < k ==> !Involves(events[i], sensor)
    ensures k < |events| ==> Involves(events[k], sensor)
  {
    if |events| == 0 then 0
    else if Involves(events[0], sensor) then 0
    else 1 + FirstInvolving(events[1..], sensor)
  }

  /** `ground_detection` as written, for the player's ground sensor. The first
      event naming the sensor is applied and the system returns at once, so
      `on_ground` is not recomputed that frame and later events are not looked
      at; only a frame with no such event recomputes `on_ground`. When the
      owner has no ground detector nothing matches and nothing is written. */
  function GroundDetection(sensor: EntityId, ownerDetected: bool, intersecting: set<EntityId>,
                           onGround: bool, events: seq<CollisionEvent>): (r: GroundOutcome)
    ensures !ownerDetected ==> r == GroundOutcome(intersecting, onGround, false)
    ensures ownerDetected && FirstInvolving(events, sensor) == |events| ==>
              && r.intersecting == intersecting
              && r.onGround == (intersecting != {})
              && (r.onGroundWritten <==> r.onGround != onGround)
    ensures ownerDetected && FirstInvolving(events, sensor) < |events| ==>
              r == GroundOutcome(ApplyContact(intersecting, events[FirstInvolving(events, sensor)], sensor), onGround, false)
    decreases |events|
  {
    if !ownerDetected then GroundOutcome(intersecting, onGround, false)
    else if |events| == 0 then
      var next := intersecting != {};
      GroundOutcome(intersecting, next, next != onGround)
    else if Involves(events[0], sensor) then
      GroundOutcome(ApplyContact(intersecting, events[0], sensor), onGround, false)
    else GroundDetection(sensor, ownerDetected, intersecting, onGround, events[1..])
  }

  /** Whether the latest event about `x` and the sensor was a `Started` one, if there is such an event. */
  function LastContact(events: seq<CollisionEvent>, sensor: EntityId, x: EntityId): Option<bool>
    decreases |events|
  {
    if |events| == 0 then None
    else
      var e := events[|events| - 1];
      if Involves(e, sensor) && Other(e, sensor) == x then Some(e.Started?)
      else LastContact(events[..|events| - 1], sensor, x)
  }

  /** Every event naming the sensor applied in order. */
  function TrackContacts(intersecting: set<EntityId>, events: seq<CollisionEvent>, sensor: EntityId): (s: set<EntityId>)
    ensures forall x :: x in s <==> match LastContact(events, sensor, x)
                                    case Some(started) => started
                                    case None => x in intersecting
    decreases |events|
  {
    if |events| == 0 then intersecting
    else
      var e := events[|events| - 1];
      var before := TrackContacts(intersecting, events[..|events| - 1], sensor);
      if Involves(e, sensor) then ApplyContact(before, e, sensor) else before
  }

  /** The ground tracker with every event applied: drain every event, then
      recompute `on_ground` from the contact set, writing it only on a change. */
  function GroundDetectionDrained(sensor: EntityId, ownerDetected: bool, intersecting: set<EntityId>,
                                  onGround: bool, events: seq<CollisionEvent>): (r: GroundOutcome)
    ensures !ownerDetected ==> r == GroundOutcome(intersecting, onGround, false)
    ensures ownerDetected ==> r.onGround == (r.intersecting != {}) && (r.onGroundWritten <==> r.onGround != onGround)
    ensures ownerDetected ==> forall x :: x in r.intersecting <==> match LastContact(events, sensor, x)
                                                                case Some(started) => started
                                                                case None => x in intersecting
  {
    if !ownerDetected then GroundOutcome(intersecting, onGround, false)
    else
      var s := TrackContacts(intersecting, events, sensor);
      GroundOutcome(s, s != {}, (s != {}) != onGround)
  }

  /** As written, a landing is recorded in the contact set but `on_ground`
      stays false until a later frame without ground events, and a second
      contact in the same frame is not recorded in that frame. Draining every
      event records both contacts and reports the landing in the same frame. */
  lemma GroundDetectionLags()
    ensures GroundDetection(1, true, {}, false, [Started(2, 1)]) == GroundOutcome({2}, false, false)
    ensures GroundDetection(1, true, {2}, false, []) == GroundOutcome({2}, true, true)
    ensures GroundDetection(1, true, {}, false, [Started(2, 1), Started(3, 1)]).intersecting == {2}
    ensures GroundDetectionDrained(1, true, {}, false, [Started(2, 1), Started(3, 1)]) == GroundOutcome({2, 3}, true, true)
  {
    var r := GroundDetectionDrained(1, true, {}, false, [Started(2, 1), Started(3, 1)]);
    assert LastContact([Started(2, 1), Started(3, 1)], 1, 2) == Some(true);
    assert LastContact([Started(2, 1), Started(3, 1)], 1, 3) == Some(true);
    assert 2 in r.intersecting && 3 in r.intersecting;
    assert r.intersecting == {2, 3};
  }

  /** With the drained tracker, losing one of two ground contacts leaves the player on the ground. */
  lemma DrainedContactsAreAdditive(sensor: EntityId, g1: EntityId, g2: EntityId)
    requires g1 != g2 && g1 != sensor && g2 != sensor
    ensures var r := GroundDetectionDrained(sensor, true, {}, false, [Started(g1, sensor), Started(g2, sensor), Stopped(g1, sensor)]);
            r.onGround && r.intersecting == {g2}
  {
    var events := [Started(g1, sensor), Started(g2, sensor), Stopped(g1, sensor)];
    var r := GroundDetectionDrained(sensor, true, {}, false, events);
    assert events[..2] == [Started(g1, sensor), Started(g2, sensor)];
    assert events[..2][..1] == [Started(g1, sensor)];
    assert events[..2][..1][..0] == [];
    assert LastContact(events, sensor, g2) == Some(true);
    assert LastContact(events, sensor, g1) == Some(false);
    forall x | x != g1 && x != g2 ensures LastContact(events, sensor, x) == None {
      assert LastContact(events, sensor, x) == LastContact(events[..2], sensor, x)
          == LastContact(events[..2][..1], sensor, x) == LastContact(events[..2][..1][..0], sensor, x);
    }
  }

  // ---------------------------------------------------------------------------
  // Wall tracking

  /** The wall-contact value an event sets, if any: the sensor must be the
      second participant and the first one a wall. */
  function WallSignal(e: CollisionEvent, sensor: EntityId, walls: set<EntityId>): Option<bool>
  {
    if e.b == sensor && e.a in walls then Some(e.Started?) else None
  }

  /** The value set by the last wall event, scanning from the end. */
  function LastWallSignal(events: seq<CollisionEvent>, sensor: EntityId, walls: set<EntityId>): Option<bool>
    decreases |events|
  {
    if |events| == 0 then None
    else
      match WallSignal(events[|events| - 1], sensor, walls)
      case Some(v) => Some(v)
      case None => LastWallSignal(events[..|events| - 1], sensor, walls)
  }

  /** Scanning from the end agrees with looking at the first event and then at the rest. */
  lemma {:induction false} LastWallSignalSplit(events: seq<CollisionEvent>, sensor: EntityId, walls: set<EntityId>)
    requires |events| > 0
    ensures LastWallSignal(events, sensor, walls) ==
            match LastWallSignal(events[1..], sensor, walls)
            case Some(v) => Some(v)
            case None => WallSignal(events[0], sensor, walls)
    decreases |events|
  {
    if |events| > 1 {
      var init := events[..|events| - 1];
      assert init[1..] == events[1..][..|events[1..]| - 1];
      assert events[1..][|events[1..]| - 1] == events[|events| - 1];
      LastWallSignalSplit(init, sensor, walls);
    } else {
      assert events[..0] == [];
    }
  }

  /** `wall_detection`: each wall event overwrites `on_side`, so the last one
      wins and overlapping walls are not counted. */
  function WallDetection(sensor: EntityId, ownerDetected: bool, walls: set<EntityId>,
                         onSide: bool, events: seq<CollisionEvent>): (r: bool)
    ensures !ownerDetected ==> r == onSide
    ensures ownerDetected ==> r == match LastWallSignal(events, sensor, walls)
                                   case Some(v) => v
                                   case None => onSide
    decreases |events|
  {
    if !ownerDetected || |events| == 0 then onSide
    else
      var next := match WallSignal(events[0], sensor, walls)
                  case Some(v) => v
                  case None => onSide;
      LastWallSignalSplit(events, sensor, walls);
      WallDetection(sensor, ownerDetected, walls, next, events[1..])
  }

  /** Touching two walls and leaving one clears `on_side`. */
  lemma WallContactIsNotCounted(sensor: EntityId, w1: EntityId, w2: EntityId, walls: set<EntityId>)
    requires w1 in walls && w2 in walls
    ensures !WallDetection(sensor, true, walls, false, [Started(w1, sensor), Started(w2, sensor), Stopped(w1, sensor)])
  {
    var events := [Started(w1, sensor), Started(w2, sensor), Stopped(w1, sensor)];
    assert WallSignal(events[2], sensor, walls) == Some(false);
  }

  // ---------------------------------------------------------------------------
  // Climb tracking

  /** `detect_climb` for one event: a climber on either side gains (or loses)
      the climbable on the other side; the first participant is tried as the
      climber first. */
  function ClimbEvent(climbers: map<EntityId, Climber>, climbables: set<EntityId>, e: CollisionEvent)
    : (r: map<EntityId, Climber>)
    ensures r.Keys == climbers.Keys
    ensures forall c :: c in r ==> r[c].climbing == climbers[c].climbing
    ensures forall c :: c in r && c != e.a && c != e.b ==> r[c] == climbers[c]
    ensures e.a in climbers && e.b in climbables ==>
              r == climbers[e.a := climbers[e.a].(contacts := Toggled(climbers[e.a].contacts, e.b, e.Started?))]
    ensures !(e.a in climbers && e.b in climbables) && e.b in climbers && e.a in climbables ==>
              r == climbers[e.b := climbers[e.b].(contacts := Toggled(climbers[e.b].contacts, e.a, e.Started?))]
    ensures !(e.a in climbers && e.b in climbables) && !(e.b in climbers && e.a in climbables) ==> r == climbers
  {
    if e.a in climbers && e.b in climbables then
      climbers[e.a := climbers[e.a].(contacts := Toggled(climbers[e.a].contacts, e.b, e.Started?))]
    else if e.b in climbers && e.a in climbables then
      climbers[e.b := climbers[e.b].(contacts := Toggled(climbers[e.b].contacts, e.a, e.Started?))]
    else climbers
  }

  /** `s` with `x` inserted (`insert`) or removed. */
  function Toggled(s: set<EntityId>, x: EntityId, insert: bool): (r: set<EntityId>)
    ensures x in r <==> insert
    ensures r - {x} == s - {x}
  {
    if insert then s + {x} else s - {x}
  }

  /** `detect_climb` over a frame's events. */
  function DetectClimb(climbers: map<EntityId, Climber>, climbables: set<EntityId>, events: seq<CollisionEvent>)
    : (r: map<EntityId, Climber>)
    ensures r.Keys == climbers.Keys
    ensures forall c :: c in r ==> r[c].climbing == climbers[c].climbing
    ensures forall c :: c in climbers && climbers[c].contacts <= climbables ==> r[c].contacts <= climbables
    decreases |events|
  {
    if |events| == 0 then climbers
    else DetectClimb(ClimbEvent(climbers, climbables, events[0]), climbables, events[1..])
  }

  /** What one event does to climber `c`'s contact with ladder `x`, given the
      set of climbers: `Some(started)` when the event settles on exactly that
      pair, the first participant being tried as the climber first. */
  function ClimbSignal(climbers: set<EntityId>, climbables: set<EntityId>, e: CollisionEvent,
                       c: EntityId, x: EntityId): Option<bool>
  {
    if e.a in climbers && e.b in climbables then (if e.a == c && e.b == x then Some(e.Started?) else None)
    else if e.b in climbers && e.a in climbables then (if e.b == c && e.a == x then Some(e.Started?) else None)
    else None
  }

  /** The signal of the last event that relates `c` and `x`, scanning from the end. */
  function LastClimbSignal(climbers: set<EntityId>, climbables: set<EntityId>, events: seq<CollisionEvent>,
                           c: EntityId, x: EntityId): Option<bool>
    decreases |events|
  {
    if |events| == 0 then None
    else
      match ClimbSignal(climbers, climbables, events[|events| - 1], c, x)
      case Some(v) => Some(v)
      case None => LastClimbSignal(climbers, climbables, events[..|events| - 1], c, x)
  }

  /** Scanning from the end agrees with looking at the first event and then at the rest. */
  lemma {:induction false} LastClimbSignalSplit(climbers: set<EntityId>, climbables: set<EntityId>,
                                                events: seq<CollisionEvent>, c: EntityId, x: EntityId)
    requires |events| > 0
    ensures LastClimbSignal(climbers, climbables, events, c, x) ==
            match LastClimbSignal(climbers, climbables, events[1..], c, x)
            case Some(v) => Some(v)
            case None => ClimbSignal(climbers, climbables, events[0], c, x)
    decreases |events|
  {
    if |events| > 1 {
      var init := events[..|events| - 1];
      assert init[1..] == events[1..][..|events[1..]| - 1];
      assert events[1..][|events[1..]| - 1] == events[|events| - 1];
      LastClimbSignalSplit(climbers, climbables, init, c, x);
    } else {
      assert events[..0] == [];
    }
  }

  /** Over a frame, a climber touches a ladder exactly when the last event
      relating the two started a contact, or no event related them and it
      touched the ladder before the frame. */
  lemma {:induction false} DetectClimbTracksLadders(climbers: map<EntityId, Climber>, climbables: set<EntityId>,
                                                    events: seq<CollisionEvent>, c: EntityId, x: EntityId)
    requires c in climbers
    ensures x in DetectClimb(climbers, climbables, events)[c].contacts <==>
            match LastClimbSignal(climbers.Keys, climbables, events, c, x)
            case Some(started) => started
            case None => x in climbers[c].contacts
    decreases |events|
  {
    if |events| > 0 {
      var m := ClimbEvent(climbers, climbables, events[0]);
      assert x in m[c].contacts <==> match ClimbSignal(climbers.Keys, climbables, events[0], c, x)
                                     case Some(started) => started
                                     case None => x in climbers[c].contacts;
      DetectClimbTracksLadders(m, climbables, events[1..], c, x);
      LastClimbSignalSplit(climbers.Keys, climbables, events, c, x);
    }
  }

  /** Contact with a ladder is symmetric in the event's order, and leaving it
      undoes entering it. */
  lemma ClimbContactIsSymmetric(climbers: map<EntityId, Climber>, climbables: set<EntityId>, c: EntityId, x: EntityId)
    requires c in climbers && c !in climbables && x in climbables && x !in climbers
    requires x !in climbers[c].contacts
    ensures ClimbEvent(climbers, climbables, Started(c, x)) == ClimbEvent(climbers, climbables, Started(x, c))
    ensures ClimbEvent(climbers, climbables, Stopped(c, x)) == ClimbEvent(climbers, climbables, Stopped(x, c))
    ensures DetectClimb(climbers, climbables, [Started(c, x), Stopped(x, c)]) == climbers
  {
    var m := ClimbEvent(climbers, climbables, Started(c, x));
    assert m[c].contacts - {x} == climbers[c].contacts;
    var m2 := ClimbEvent(m, climbables, Stopped(x, c));
    assert m2[c] == climbers[c];
    assert m2 == climbers;
    var events := [Started(c, x), Stopped(x, c)];
    assert events[1..] == [Stopped(x, c)] && events[1..][1..] == [];
    assert DetectClimb(climbers, climbables, events) == DetectClimb(m, climbables, events[1..]);
    assert DetectClimb(m, climbables, events[1..]) == DetectClimb(m2, climbables, events[1..][1..]);
  }

  // ---------------------------------------------------------------------------
  // Death check

  /** `dead`: a death event is sent whenever the player's health was changed
      this frame and is no longer positive. */
  function DeadEvent(health: Option<Health>, changed: bool): bool
  {
    health.Some? && changed && health.value.current <= 0
  }

  /** `Changed<Health>` after `player_receives_damage`: a hit is subtracted,
      which happens exactly when health is positive and some hit arrives. */
  function DamageChanged(h: Health, damages: seq<int>): bool
  {
    h.current > 0 && |damages| > 0
  }

  /** Health after each frame's hits in turn. */
  function HealthAfterFrames(h: Health, frames: seq<seq<int>>): Health
    decreases |frames|
  {
    if |frames| == 0 then h else HealthAfterFrames(Combat.ReceiveDamage(h, frames[0]), frames[1..])
  }

  /** The death events `dead` sends over a run of frames, each frame's hits
      applied before the check. */
  function DeathEvents(h: Health, frames: seq<seq<int>>): nat
    decreases |frames|
  {
    if |frames| == 0 then 0
    else
      var r := Combat.ReceiveDamage(h, frames[0]);
      (if DeadEvent(Some(r), DamageChanged(h, frames[0])) then 1 else 0) + DeathEvents(r, frames[1..])
  }

  /** A living player taking hits is told of its death exactly once, when its
      health stops being positive; a player already at or below zero is never
      hit again and never told again. */
  lemma {:induction false} DeathIsSentOnce(h: Health, frames: seq<seq<int>>)
    ensures DeathEvents(h, frames) <= 1
    ensures h.current <= 0 ==> DeathEvents(h, frames) == 0 && HealthAfterFrames(h, frames) == h
    ensures h.current > 0 ==> (DeathEvents(h, frames) == 1 <==> HealthAfterFrames(h, frames).current <= 0)
    decreases |frames|
  {
    if |frames| > 0 {
      var r := Combat.ReceiveDamage(h, frames[0]);
      if |frames[0]| == 0 {
        assert r == h;
      }
      DeathIsSentOnce(r, frames[1..]);
    }
  }

  /** One frame with both writers of the player's health: the frame's hits
      are applied, then its dead-zone contacts. `Changed<Health>` is set by
      either write, so a living player is told of its death exactly when it
      touched a dead zone or the hits took its health to zero or below. */
  lemma DeadZoneSendsDeath(player: OutOfBounce.PlayerHealth, damages: seq<int>, zones: set<EntityId>,
                           events: seq<CollisionEvent>)
    requires player.health.current > 0
    ensures var hit := player.(health := Combat.ReceiveDamage(player.health, damages));
            var killed := exists i :: 0 <= i < |events| && OutOfBounce.Kills(player.id, zones, events[i]);
            var after := OutOfBounce.DeadInteraction(Some(hit), zones, events).value;
            DeadEvent(Some(after.health), killed || DamageChanged(player.health, damages)) <==>
            killed || hit.health.current <= 0
  {
    if |damages| == 0 {
      assert Combat.ReceiveDamage(player.health, damages) == player.health;
    }
  }
}
