/** Player–enemy contact, the player's melee attack through its side sensor,
    the attack toggle, and how queued hit events reduce the player's health. */
module Combat {
  import opened Common

  /** Knockback of a player–enemy contact. */
  const CONTACT_PUSH_X: real := 120.0
  const CONTACT_PUSH_Y: real := 30.0
  /** Knockback of a melee hit. */
  const ATTACK_PUSH_X: real := 50.0
  const ATTACK_PUSH_Y: real := 30.0
  /** How far the player's feet may sink below an enemy's top and still count as a stomp. */
  const STOMP_TOLERANCE: real := 3.0

  /** `c` lowered by `n` unit decrements that each apply only while the value is
      positive: the health a run of unit hits leaves behind. */
  function Floored(c: int, n: nat): (r: int)
  {
    if c <= 0 then c else if c - n < 0 then 0 else c - n
  }

  // ---------------------------------------------------------------------------
  // Damage

  /** One `PlayerIsHitEvent`: damage is subtracted only from a positive health. */
  function TakeHit(h: Health, damage: int): (r: Health)
    ensures r.max == h.max
    ensures h.current > 0 ==> r.current == h.current - damage
    ensures h.current <= 0 ==> r == h
  {
    if h.current > 0 then h.(current := h.current - damage) else h
  }

  function Sum(s: seq<int>): int
  {
    if |s| == 0 then 0 else s[0] + Sum(s[1..])
  }

  /** `player_receives_damage` over the frame's hit events, in order. */
  function ReceiveDamage(h: Health, damages: seq<int>): (r: Health)
    ensures r.max == h.max
    ensures h.current <= 0 ==> r == h
    ensures r.current > 0 ==> r.current == h.current - Sum(damages)
    ensures r.current <= h.current || exists i :: 0 <= i < |damages| && damages[i] < 0
    decreases |damages|
  {
    if |damages| == 0 then h
    else
      var r := ReceiveDamage(TakeHit(h, damages[0]), damages[1..]);
      assert forall i :: 0 <= i < |damages[1..]| ==> damages[1..][i] == damages[i + 1];
      r
  }

  /** Health drops below zero at most once: with hits of at most `d` points,
      a positive health ends no lower than `1 - d`. */
  lemma {:induction false} DamageOvershootsOnce(h: Health, damages: seq<int>, d: int)
    requires h.current > 0 && d >= 0
    requires forall i :: 0 <= i < |damages| ==> damages[i] <= d
    ensures ReceiveDamage(h, damages).current >= 1 - d
    decreases |damages|
  {
    if |damages| > 0 {
      var next := TakeHit(h, damages[0]);
      if next.current > 0 {
        DamageOvershootsOnce(next, damages[1..], d);
      }
    }
  }

  function Ones(n: nat): (s: seq<int>)
    ensures |s| == n && forall i :: 0 <= i < n ==> s[i] == 1
  {
    if n == 0 then [] else [1] + Ones(n - 1)
  }

  /** A run of unit hits lowers a positive health to at least zero, and no further. */
  lemma {:induction false} UnitHitsFloorAtZero(h: Health, n: nat)
    ensures ReceiveDamage(h, Ones(n)) == h.(current := Floored(h.current, n))
    decreases n
  {
    if n > 0 {
      assert Ones(n)[1..] == Ones(n - 1);
      UnitHitsFloorAtZero(TakeHit(h, 1), n - 1);
    }
  }

  // ---------------------------------------------------------------------------
  // Attack toggle

  /** `player_attacks`: a fresh LShift press flips the player's attack flag. */
  function PlayerAttacks(attacks: Option<bool>, input: Input): (r: Option<bool>)
    ensures r.Some? <==> attacks.Some?
    ensures r.Some? && LShift in input.justPressed ==> r.value != attacks.value
    ensures LShift !in input.justPressed ==> r == attacks
  {
    match attacks
    case Some(a) => if LShift in input.justPressed then Some(!a) else attacks
    case None => None
  }

  /** Two presses restore the flag: the key toggles, it does not latch. */
  lemma AttackToggleIsInvolution(attacks: Option<bool>, input: Input)
    ensures PlayerAttacks(PlayerAttacks(attacks, input), input) == attacks
  {
  }

  // ---------------------------------------------------------------------------
  // Player–enemy contact

  /** What the contact rules read of a body: its position and its cuboid's half height. */
  datatype Body = Body(x: real, y: real, halfHeight: real)

  datatype Fighter = Fighter(body: Body, health: Health, impulse: Vec2)

  datatype PlayerBody = PlayerBody(id: EntityId, body: Body, impulse: Vec2)

  /** The entities `combat_interaction_detection` reads, and the hit events it
      has sent (each of damage `1`). An entity that is both player and enemy is
      in neither query, so the player's id is never an enemy key. */
  datatype Arena = Arena(player: Option<PlayerBody>, enemies: map<EntityId, Fighter>, hits: seq<int>)

  predicate WellFormed(w: Arena)
  {
    w.player.Some? ==> w.player.value.id !in w.enemies
  }

  /** The enemy an event touches: the second participant is looked up first. */
  function EnemyOf(w: Arena, e: CollisionEvent): Option<EntityId>
  {
    if e.b in w.enemies then Some(e.b) else if e.a in w.enemies then Some(e.a) else None
  }

  /** A `Started` event between the player and an enemy. */
  predicate Engages(w: Arena, e: CollisionEvent)
  {
    e.Started? && w.player.Some? && (e.a == w.player.value.id || e.b == w.player.value.id) && EnemyOf(w, e).Some?
  }

  /** The player's feet are more than the tolerance below the enemy's top: the enemy hurts the player. */
  predicate SideContact(p: Body, en: Body)
  {
    (p.y - p.halfHeight) - (en.y + en.halfHeight) < -STOMP_TOLERANCE
  }

  /** Positions and participants are the same; only health, impulses and hits may differ. */
  predicate SameLayout(w: Arena, v: Arena)
  {
    && w.player.Some? == v.player.Some?
    && (w.player.Some? ==> w.player.value.id == v.player.value.id && w.player.value.body == v.player.value.body)
    && w.enemies.Keys == v.enemies.Keys
    && (forall k :: k in w.enemies ==> w.enemies[k].body == v.enemies[k].body)
  }

  /** One collision event of `combat_interaction_detection`. */
  function CombatEvent(w: Arena, e: CollisionEvent): (r: Arena)
    requires WellFormed(w)
    ensures WellFormed(r) && SameLayout(w, r)
    ensures !Engages(w, e) ==> r == w
    ensures Engages(w, e) ==>
              var k := EnemyOf(w, e).value;
              var p := w.player.value;
              var en := w.enemies[k];
              && (forall j :: j in w.enemies && j != k ==> r.enemies[j] == w.enemies[j])
              && (SideContact(p.body, en.body) ==> r.hits == w.hits + [1] && r.enemies[k].health == en.health)
              && (!SideContact(p.body, en.body) ==>
                    r.hits == w.hits && r.enemies[k].health == en.health.(current := Floored(en.health.current, 1)))
              && r.player.value.impulse.y == r.enemies[k].impulse.y == CONTACT_PUSH_Y
              && r.player.value.impulse.x == -r.enemies[k].impulse.x
              && Abs(r.player.value.impulse.x) == CONTACT_PUSH_X
              && (r.player.value.impulse.x < 0.0 <==> p.body.x < en.body.x)
  {
    if !Engages(w, e) then w
    else
      var k := EnemyOf(w, e).value;
      var p := w.player.value;
      var en := w.enemies[k];
      var side := SideContact(p.body, en.body);
      var hits := if side then w.hits + [1] else w.hits;
      var health := if !side && en.health.current > 0 then en.health.(current := en.health.current - 1) else en.health;
      var push := if p.body.x < en.body.x then -CONTACT_PUSH_X else CONTACT_PUSH_X;
      Arena(Some(p.(impulse := Vec2(push, CONTACT_PUSH_Y))),
            w.enemies[k := en.(health := health, impulse := Vec2(-push, CONTACT_PUSH_Y))],
            hits)
  }

  /** Number of events that engage the player with a given enemy from the side (`side`) or from above. */
  function EngagementCount(w: Arena, events: seq<CollisionEvent>, k: Option<EntityId>, side: bool): nat
    decreases |events|
  {
    if |events| == 0 then 0
    else
      var e := events[0];
      var counted := Engages(w, e) && (k.None? || EnemyOf(w, e) == k)
                     && SideContact(w.player.value.body, w.enemies[EnemyOf(w, e).value].body) == side;
      (if counted then 1 else 0) + EngagementCount(w, events[1..], k, side)
  }

  lemma SameLayoutEngages(w: Arena, v: Arena, e: CollisionEvent)
    requires SameLayout(w, v)
    ensures Engages(w, e) == Engages(v, e) && EnemyOf(w, e) == EnemyOf(v, e)
  {
  }

  lemma {:induction false} SameLayoutCounts(w: Arena, v: Arena, events: seq<CollisionEvent>, k: Option<EntityId>, side: bool)
    requires SameLayout(w, v)
    ensures EngagementCount(w, events, k, side) == EngagementCount(v, events, k, side)
    decreases |events|
  {
    if |events| > 0 {
      SameLayoutEngages(w, v, events[0]);
      SameLayoutCounts(w, v, events[1..], k, side);
    }
  }

  /** `combat_interaction_detection` over a frame's events. */
  function CombatInteraction(w: Arena, events: seq<CollisionEvent>): (r: Arena)
    requires WellFormed(w)
    ensures WellFormed(r) && SameLayout(w, r)
    decreases |events|
  {
    if |events| == 0 then w else CombatInteraction(CombatEvent(w, events[0]), events[1..])
  }

  /** Over a frame, the player receives one unit hit per side contact. */
  lemma {:induction false} CombatInteractionHits(w: Arena, events: seq<CollisionEvent>)
    requires WellFormed(w)
    ensures CombatInteraction(w, events).hits == w.hits + Ones(EngagementCount(w, events, None, true))
    decreases |events|
  {
    if |events| > 0 {
      var v := CombatEvent(w, events[0]);
      CombatInteractionHits(v, events[1..]);
      SameLayoutCounts(w, v, events[1..], None, true);
      var n := EngagementCount(w, events[1..], None, true);
      if Engages(w, events[0]) && SideContact(w.player.value.body, w.enemies[EnemyOf(w, events[0]).value].body) {
        assert Ones(n + 1) == [1] + Ones(n);
      }
    }
  }

  lemma FlooredSteps(c: int, a: nat, n: nat)
    ensures Floored(Floored(c, a), n) == Floored(c, a + n)
  {
  }

  /** Over a frame, each enemy loses one point per contact from above, never
      going below zero from a positive health. */
  lemma {:induction false} CombatInteractionWearsEnemies(w: Arena, events: seq<CollisionEvent>, k: EntityId)
    requires WellFormed(w) && k in w.enemies
    ensures CombatInteraction(w, events).enemies[k].health ==
            w.enemies[k].health.(current := Floored(w.enemies[k].health.current, EngagementCount(w, events, Some(k), false)))
    decreases |events|
  {
    if |events| > 0 {
      var v := CombatEvent(w, events[0]);
      CombatInteractionWearsEnemies(v, events[1..], k);
      SameLayoutCounts(w, v, events[1..], Some(k), false);
      var e := events[0];
      var a := if Engages(w, e) && EnemyOf(w, e) == Some(k) && !SideContact(w.player.value.body, w.enemies[k].body) then 1 else 0;
      assert v.enemies[k].health == w.enemies[k].health.(current := Floored(w.enemies[k].health.current, a));
      FlooredSteps(w.enemies[k].health.current, a, EngagementCount(w, events[1..], Some(k), false));
    }
  }

  /** `Stopped` events are ignored. */
  lemma {:induction false} CombatIgnoresStopped(w: Arena, events: seq<CollisionEvent>)
    requires WellFormed(w)
    requires forall i :: 0 <= i < |events| ==> events[i].Stopped?
    ensures CombatInteraction(w, events) == w
    decreases |events|
  {
    if |events| > 0 {
      CombatIgnoresStopped(w, events[1..]);
    }
  }

  // ---------------------------------------------------------------------------
  // Melee attack through the side sensor

  /** What `attack_detection` reads of the sensor's owner. */
  datatype Attacker = Attacker(attacks: bool, x: real)

  datatype Target = Target(health: Health, impulse: Vec2, x: real)

  /** The attackable entity a `Started` event hands to the sensor: when the
      sensor is the second participant only the first one is tried, and the
      other way round. */
  function Struck(sensor: EntityId, targets: map<EntityId, Target>, e: CollisionEvent): (k: Option<EntityId>)
    ensures k.Some? ==> k.value in targets && e.Started? && (k.value == e.a || k.value == e.b)
  {
    if e.Stopped? then None
    else if e.b == sensor then (if e.a in targets then Some(e.a) else None)
    else if e.a == sensor then (if e.b in targets then Some(e.b) else None)
    else None
  }

  /** One collision event of `attack_detection`. */
  function AttackEvent(sensor: EntityId, attacker: Option<Attacker>, targets: map<EntityId, Target>, e: CollisionEvent)
    : (r: map<EntityId, Target>)
    ensures r.Keys == targets.Keys
    ensures forall k :: k in targets ==> r[k].x == targets[k].x
    ensures attacker.None? || !attacker.value.attacks || Struck(sensor, targets, e).None? ==> r == targets
    ensures attacker.Some? && attacker.value.attacks && Struck(sensor, targets, e).Some? ==>
              var k := Struck(sensor, targets, e).value;
              && (forall j :: j in targets && j != k ==> r[j] == targets[j])
              && r[k].health == targets[k].health.(current := targets[k].health.current - 1)
              && r[k].impulse.y == ATTACK_PUSH_Y
              && Abs(r[k].impulse.x) == ATTACK_PUSH_X
              && (r[k].impulse.x > 0.0 <==> attacker.value.x < targets[k].x)
  {
    match Struck(sensor, targets, e)
    case Some(k) =>
      if attacker.Some? && attacker.value.attacks then
        var t := targets[k];
        var push := if attacker.value.x < t.x then ATTACK_PUSH_X else -ATTACK_PUSH_X;
        targets[k := Target(t.health.(current := t.health.current - 1), Vec2(push, ATTACK_PUSH_Y), t.x)]
      else targets
    case None => targets
  }

  /** `attack_detection` over a frame's events, for the one side sensor. */
  function AttackDetection(sensor: EntityId, attacker: Option<Attacker>, targets: map<EntityId, Target>,
                           events: seq<CollisionEvent>): (r: map<EntityId, Target>)
    ensures r.Keys == targets.Keys
    decreases |events|
  {
    if |events| == 0 then targets
    else AttackDetection(sensor, attacker, AttackEvent(sensor, attacker, targets, events[0]), events[1..])
  }

  /** Number of events that hand `k` to the sensor. */
  function StrikeCount(sensor: EntityId, keys: set<EntityId>, events: seq<CollisionEvent>, k: EntityId): nat
    decreases |events|
  {
    if |events| == 0 then 0
    else
      var e := events[0];
      var struck := e.Started? && ((e.b == sensor && e.a == k) || (e.b != sensor && e.a == sensor && e.b == k)) && k in keys;
      (if struck then 1 else 0) + StrikeCount(sensor, keys, events[1..], k)
  }

  /** While attacking, every strike costs exactly one point with no lower
      bound; while not attacking, nothing changes. */
  lemma {:induction false} AttackDetectionCounts(sensor: EntityId, attacker: Option<Attacker>,
                                                targets: map<EntityId, Target>, events: seq<CollisionEvent>)
    ensures var r := AttackDetection(sensor, attacker, targets, events);
            forall k :: k in targets ==>
              && r[k].health.max == targets[k].health.max
              && r[k].health.current == targets[k].health.current -
                   (if attacker.Some? && attacker.value.attacks then StrikeCount(sensor, targets.Keys, events, k) else 0)
    decreases |events|
  {
    if |events| > 0 {
      var v := AttackEvent(sensor, attacker, targets, events[0]);
      AttackDetectionCounts(sensor, attacker, v, events[1..]);
    }
  }
}
