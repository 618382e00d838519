/** Enemies: the type tag read from the level, the patrol route built from the
    level's points, the patrol stepping that bounces between the route's
    ends, the spawn defaults and the walking animation. */
module Enemy {
  import opened Common
  import opened LdtkFields
  import Textures

  datatype EnemyType = Durt | LongHair

  const ENEMY_TYPE_FIELD: string := "enemy_type"
  const PATROL_FIELD: string := "patrol"
  const ENEMY_SPEED: real := 80.0
  const ENEMY_HEALTH: int := 2

  /** The tag the level editor writes for each enemy type. */
  function EnemyTag(t: EnemyType): string
  {
    match t
    case Durt => "Durt"
    case LongHair => "LongHair"
  }

  /** `EnemyType::from`: the enum tag of the first `enemy_type` field. */
  function ParseEnemyType(fields: seq<FieldInstance>): (r: Result<EnemyType, TagError>)
    ensures r.Ok? <==> EnumTag(fields, ENEMY_TYPE_FIELD) in {Ok("Durt"), Ok("LongHair")}
    ensures r.Ok? ==> EnumTag(fields, ENEMY_TYPE_FIELD) == Ok(EnemyTag(r.value))
    ensures EnumTag(fields, ENEMY_TYPE_FIELD).Err? ==> r == Err(EnumTag(fields, ENEMY_TYPE_FIELD).error)
    ensures EnumTag(fields, ENEMY_TYPE_FIELD).Ok? && r.Err? ==> r.error == UnknownTag
  {
    match EnumTag(fields, ENEMY_TYPE_FIELD)
    case Err(e) => Err(e)
    case Ok(tag) =>
      if tag == "Durt" then Ok(Durt)
      else if tag == "LongHair" then Ok(LongHair)
      else Err(UnknownTag)
  }

  /** Writing a type's tag into the level and reading it back gives the type. */
  lemma EnemyTagRoundTrip(t: EnemyType, rest: seq<FieldInstance>)
    ensures ParseEnemyType([FieldInstance(ENEMY_TYPE_FIELD, EnumValue(Some(EnemyTag(t))))] + rest) == Ok(t)
  {
    var fields := [FieldInstance(ENEMY_TYPE_FIELD, EnumValue(Some(EnemyTag(t))))] + rest;
    assert FindField(fields, ENEMY_TYPE_FIELD) == Some(0);
  }

  // ---------------------------------------------------------------------------
  // Patrol route

  /** The route an enemy walks and the position of the point it heads for. */
  datatype Patrol = Patrol(points: seq<Vec2>, index: nat)

  /** How many of the points are set. */
  function CountSome(points: seq<Option<Point>>): nat
  {
    if |points| == 0 then 0 else (if points[0].Some? then 1 else 0) + CountSome(points[1..])
  }

  /** The points that are set, in order (`iter().flatten()`): the set point at
      position `i` lands at the number of set points before it. */
  function Present(points: seq<Option<Point>>): (r: seq<Point>)
    ensures |r| == CountSome(points) <= |points|
    ensures forall i :: 0 <= i < |points| && points[i].Some? ==>
              CountSome(points[..i]) < |r| && r[CountSome(points[..i])] == points[i].value
    ensures forall p :: p in r <==> Some(p) in points
    ensures (forall i :: 0 <= i < |points| ==> points[i].Some?) ==> |r| == |points|
  {
    if |points| == 0 then []
    else
      var rest := Present(points[1..]);
      assert forall p :: Some(p) in points <==> Some(p) == points[0] || Some(p) in points[1..];
      assert forall i :: 0 < i < |points| ==> points[..i][1..] == points[1..][..i - 1] && points[1..][i - 1] == points[i];
      match points[0]
      case Some(p) => [p] + rest
      case None => rest
  }

  /** `Patrol::bundle_entity`. `own` is the enemy's own position and `toWorld`
      turns a level grid point into a world position; both conversions are
      float arithmetic the model takes as given. A missing `patrol` field is
      an error; a field of another shape gives a route of the own position only. */
  function BundlePatrol(own: Vec2, fields: seq<FieldInstance>, toWorld: Point -> Vec2): (r: Result<Patrol, TagError>)
    ensures r.Err? <==> FindField(fields, PATROL_FIELD).None?
    ensures r.Err? ==> r.error == MissingField
    ensures r.Ok? ==> r.value.index == 1 && |r.value.points| >= 1 && r.value.points[0] == own
    ensures r.Ok? ==>
              var v := fields[FindField(fields, PATROL_FIELD).value].value;
              && (v.PointsValue? ==>
                    && |r.value.points| == 1 + |Present(v.points)|
                    && forall i :: 0 <= i < |Present(v.points)| ==> r.value.points[i + 1] == toWorld(Present(v.points)[i]))
              && (!v.PointsValue? ==> r.value.points == [own])
  {
    match FindField(fields, PATROL_FIELD)
    case None => Err(MissingField)
    case Some(i) =>
      match fields[i].value
      case PointsValue(ps) =>
        var present := Present(ps);
        Ok(Patrol([own] + seq(|present|, j requires 0 <= j < |present| => toWorld(present[j])), 1))
      case _ => Ok(Patrol([own], 1))
  }

  // ---------------------------------------------------------------------------
  // Patrol stepping

  /** What `enemy_movement` reads and writes of an enemy, other than its velocity. */
  datatype Walker = Walker(patrol: Patrol, onMove: bool, direction: MovementDirection, flipX: bool)

  /** Reading a route point outside the route, or stepping below index 0: both panics in the game. */
  datatype PatrolError = IndexOutOfRange

  /** The inputs one step takes from the float geometry the model leaves out:
      the x component of the heading toward the current target point, and
      whether that heading points against the current velocity. */
  datatype Heading = Heading(x: real, reversed: bool)

  /** `enemy_movement` for one enemy. */
  function PatrolStep(w: Walker, h: Heading): (r: Result<Walker, PatrolError>)
    ensures |w.patrol.points| <= 1 ==> r == Ok(w)
    ensures |w.patrol.points| >= 2 ==> (r.Err? <==> w.patrol.index >= |w.patrol.points|)
    ensures |w.patrol.points| >= 2 && r.Ok? ==>
              var i := w.patrol.index;
              var n := |w.patrol.points|;
              var v := r.value;
              && v.onMove
              && v.patrol.points == w.patrol.points
              && v.patrol.index < n
              && v.flipX == !(h.x > 0.0)
              && (!h.reversed ==> v.patrol.index == i && (v.direction == Right <==> h.x > 0.0))
              && (h.reversed && i == 0 ==> v.direction == Right)
              && (h.reversed && i != 0 && i == n - 1 ==> v.direction == Left)
              && (h.reversed && 0 < i < n - 1 ==> (v.direction == Right <==> h.x > 0.0))
              && (h.reversed && v.direction == Right ==> v.patrol.index == i + 1)
              && (h.reversed && v.direction == Left ==> v.patrol.index + 1 == i)
  {
    var n := |w.patrol.points|;
    var i := w.patrol.index;
    if n <= 1 then Ok(w)
    else if i >= n then Err(IndexOutOfRange)
    else
      var facing := if h.x > 0.0 then Right else Left;
      var flipX := !(h.x > 0.0);
      if !h.reversed then
        Ok(w.(onMove := true, direction := facing, flipX := flipX))
      else
        var direction := if i == 0 then Right else if i == n - 1 then Left else facing;
        var next := if direction == Right then i + 1 else i - 1;
        Ok(Walker(w.patrol.(index := next), true, direction, flipX))
  }

  /** Steps over several frames; the first error stops the run. */
  function PatrolSteps(w: Walker, headings: seq<Heading>): Result<Walker, PatrolError>
    decreases |headings|
  {
    if |headings| == 0 then Ok(w)
    else
      match PatrolStep(w, headings[0])
      case Err(e) => Err(e)
      case Ok(v) => PatrolSteps(v, headings[1..])
  }

  /** A route of two or more points entered at an index inside it is walked
      forever without reading outside it, whatever the headings. */
  lemma {:induction false} PatrolStaysInBounds(w: Walker, headings: seq<Heading>)
    requires |w.patrol.points| >= 2 && w.patrol.index < |w.patrol.points|
    ensures PatrolSteps(w, headings).Ok?
    ensures PatrolSteps(w, headings).value.patrol.index < |w.patrol.points|
    ensures PatrolSteps(w, headings).value.patrol.points == w.patrol.points
    decreases |headings|
  {
    if |headings| > 0 {
      PatrolStaysInBounds(PatrolStep(w, headings[0]).value, headings[1..]);
    }
  }

  /** A freshly bundled route whose `patrol` field has at least one set point is walked safely. */
  lemma BundledPatrolIsSafe(own: Vec2, fields: seq<FieldInstance>, toWorld: Point -> Vec2,
                            onMove: bool, direction: MovementDirection, flipX: bool, headings: seq<Heading>)
    requires FindField(fields, PATROL_FIELD).Some?
    requires fields[FindField(fields, PATROL_FIELD).value].value.PointsValue?
    requires CountSome(fields[FindField(fields, PATROL_FIELD).value].value.points) >= 1
    ensures BundlePatrol(own, fields, toWorld).Ok?
    ensures PatrolSteps(Walker(BundlePatrol(own, fields, toWorld).value, onMove, direction, flipX), headings).Ok?
  {
    PatrolStaysInBounds(Walker(BundlePatrol(own, fields, toWorld).value, onMove, direction, flipX), headings);
  }

  // ---------------------------------------------------------------------------
  // Spawning and animation

  /** The components `spawn_enemy` gives a newly placed enemy. */
  datatype SpawnedEnemy = SpawnedEnemy(
    transform: Transform,
    halfExtents: Vec2,
    velocity: Vec2,
    direction: MovementDirection,
    speed: real,
    onMove: bool,
    health: Health,
    sheet: Textures.Atlas)

  function SpriteFor(t: EnemyType, sprites: Textures.EnemiesSprites): Textures.SpriteAssetInfo
  {
    match t
    case Durt => sprites.gray
    case LongHair => sprites.long
  }

  /** `spawn_enemy`. */
  function SpawnEnemy(at: Transform, t: EnemyType, sprites: Textures.EnemiesSprites): (r: SpawnedEnemy)
    ensures r.transform.translation == at.translation
    ensures r.transform.scale.x >= 1.0 && r.transform.scale.y >= 1.0
    ensures at.scale.x >= 1.0 && at.scale.y >= 1.0 ==> r.transform.scale == at.scale
    ensures at.scale.x < 1.0 || at.scale.y < 1.0 ==> r.transform.scale == Vec3(1.0, 1.0, 1.0)
    ensures r.health == Health(ENEMY_HEALTH, ENEMY_HEALTH)
    ensures !r.onMove && r.direction == Right && r.velocity == ZERO && r.speed == ENEMY_SPEED
    ensures 2.0 * r.halfExtents.x == SpriteFor(t, sprites).width && 2.0 * r.halfExtents.y == SpriteFor(t, sprites).height
    ensures r.sheet == SpriteFor(t, sprites).texture
  {
    var info := SpriteFor(t, sprites);
    var scale := if at.scale.x < 1.0 || at.scale.y < 1.0 then Vec3(1.0, 1.0, 1.0) else at.scale;
    SpawnedEnemy(Transform(at.translation, scale), Vec2(info.width / 2.0, info.height / 2.0), ZERO, Right,
                 ENEMY_SPEED, false, Health(ENEMY_HEALTH, ENEMY_HEALTH), info.texture)
  }

  /** `enemy_movement_animation`: a walking enemy moves to the next frame when
      its timer fires, and wraps only when it lands exactly on the frame count. */
  function EnemyAnimationFrame(index: nat, onMove: bool, finished: bool, count: nat): (r: nat)
    ensures !onMove || !finished ==> r == index
    ensures onMove && finished ==> (r == 0 <==> index + 1 == count)
    ensures onMove && finished && r != 0 ==> r == index + 1
    ensures index < count ==> r < count
  {
    if !onMove || !finished then index
    else if index + 1 == count then 0
    else index + 1
  }

  /** Frames of a walking enemy over `ticks` timer periods. */
  function EnemyAnimationFrames(index: nat, ticks: nat, count: nat): nat
    decreases ticks
  {
    if ticks == 0 then index else EnemyAnimationFrames(EnemyAnimationFrame(index, true, true, count), ticks - 1, count)
  }

  /** Starting inside the sheet, the walk cycles through it: after `ticks`
      periods the frame is `(index + ticks) % count`. */
  lemma {:induction false} EnemyAnimationCycles(index: nat, ticks: nat, count: nat)
    requires index < count
    ensures EnemyAnimationFrames(index, ticks, count) == (index + ticks) % count
    decreases ticks
  {
    if ticks > 0 {
      var next := EnemyAnimationFrame(index, true, true, count);
      assert next == (index + 1) % count;
      EnemyAnimationCycles(next, ticks - 1, count);
      ModSucc(index, ticks - 1, count);
    }
  }
}
