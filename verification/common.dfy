/** Components, events and small wrappers shared by every gameplay system
    (the Rust crate's `common` module plus the engine types the systems read). */
module Common {

  /** An ECS entity handle; only its identity matters to the gameplay rules. */
  type EntityId = nat

  datatype Option<+T> = None | Some(value: T)

  /** The outcome of a step that the game would otherwise end with a panic. */
  datatype Result<+T, +E> = Ok(value: T) | Err(error: E)

  /** A begin/end overlap notification between two colliders, with the
      two participants in the order the physics engine reports them. */
  datatype CollisionEvent =
    | Started(a: EntityId, b: EntityId)
    | Stopped(a: EntityId, b: EntityId)

  /** True when one side of `e` is `id`. */
  predicate Involves(e: CollisionEvent, id: EntityId)
  {
    e.a == id || e.b == id
  }

  datatype MovementDirection = Left | Right

  /** Hit points (`i32` in the game). */
  datatype Health = Health(current: int, max: int)

  /** The climbable regions an entity overlaps, and whether it is climbing. */
  datatype Climber = Climber(contacts: set<EntityId>, climbing: bool)

  /** A 2D vector of `f32` components. */
  datatype Vec2 = Vec2(x: real, y: real)

  datatype Vec3 = Vec3(x: real, y: real, z: real)

  const ZERO: Vec2 := Vec2(0.0, 0.0)

  /** Position and scale of an entity; rotation is only ever copied and is left out. */
  datatype Transform = Transform(translation: Vec3, scale: Vec3)

  datatype Key = ArrowLeft | ArrowRight | ArrowUp | ArrowDown | Space | LShift

  /** Keyboard state of one frame: keys held down, and keys that went down this frame. */
  datatype Input = Input(pressed: set<Key>, justPressed: set<Key>)

  function Abs(x: real): real
  {
    if x < 0.0 then -x else x
  }

  /** ((i + 1) % n + t) % n == (i + 1 + t) % n for a frame index `i < n`. */
  lemma ModSucc(index: nat, ticks: nat, count: nat)
    requires index < count
    ensures ((index + 1) % count + ticks) % count == (index + 1 + ticks) % count
  {
    if index + 1 == count {
      ModUnique(index + 1, count, 1, 0);
      var q, r := ticks / count, ticks % count;
      ModUnique(ticks, count, q, r);
      ModUnique(count + ticks, count, q + 1, r);
    } else {
      ModUnique(index + 1, count, 0, index + 1);
    }
  }

  /** Euclidean division is unique: any `q * n + r` with `0 <= r < n` gives `r` as the remainder. */
  lemma ModUnique(a: int, n: int, q: int, r: int)
    requires n > 0 && 0 <= r < n && a == q * n + r
    ensures a % n == r
  {
    var q0, r0 := a / n, a % n;
    assert q0 * n + r0 == q * n + r;
    if q0 < q {
      MulMonotone(q0 + 1, q, n);
    } else if q < q0 {
      MulMonotone(q + 1, q0, n);
    }
  }

  lemma {:induction false} MulMonotone(a: int, b: int, n: int)
    requires a <= b && n >= 0
    ensures a * n <= b * n
    decreases b - a
  {
    if a < b {
      MulMonotone(a + 1, b, n);
      assert (a + 1) * n == a * n + n;
    }
  }
}
