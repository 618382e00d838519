/** The level's "Dead" zones: touching one kills the player outright. */
module OutOfBounce {
  import opened Common

  /** The player entity and its health, as `dead_interaction_detection` sees it. */
  datatype PlayerHealth = PlayerHealth(id: EntityId, health: Health)

  /** A `Started` event that puts the player in a dead zone. The player is
      looked up as the first participant before the second, and once it is
      found there the second participant alone is checked for the zone. */
  predicate Kills(player: EntityId, zones: set<EntityId>, e: CollisionEvent)
  {
    e.Started? &&
    ((e.a == player && e.b in zones) || (e.a != player && e.b == player && e.a in zones))
  }

  /** One collision event of `dead_interaction_detection`. */
  function DeadZoneEvent(p: PlayerHealth, zones: set<EntityId>, e: CollisionEvent): (r: PlayerHealth)
    ensures r.id == p.id && r.health.max == p.health.max
    ensures Kills(p.id, zones, e) ==> r.health.current == 0
    ensures !Kills(p.id, zones, e) ==> r == p
  {
    match e
    case Started(a, b) =>
      if a == p.id then (if b in zones then p.(health := p.health.(current := 0)) else p)
      else if b == p.id then (if a in zones then p.(health := p.health.(current := 0)) else p)
      else p
    case Stopped(_, _) => p
  }

  /** `dead_interaction_detection` over a frame's events; without a player it does nothing. */
  function DeadInteraction(player: Option<PlayerHealth>, zones: set<EntityId>, events: seq<CollisionEvent>)
    : (r: Option<PlayerHealth>)
    ensures r.Some? <==> player.Some?
    ensures player.Some? ==>
              && r.value.id == player.value.id
              && r.value.health.max == player.value.health.max
              && ((exists i :: 0 <= i < |events| && Kills(player.value.id, zones, events[i])) ==>
                    r.value.health.current == 0)
              && ((forall i :: 0 <= i < |events| ==> !Kills(player.value.id, zones, events[i])) ==>
                    r.value == player.value)
    decreases |events|
  {
    match player
    case None => None
    case Some(p) =>
      if |events| == 0 then player
      else
        var r := DeadInteraction(Some(DeadZoneEvent(p, zones, events[0])), zones, events[1..]);
        assert forall i :: 1 <= i < |events| ==> events[i] == events[1..][i - 1];
        r
  }

  /** Whatever the frame holds, the player ends either untouched or at exactly
      zero health, and a second pass over the same events changes nothing. */
  lemma DeadInteractionIsIdempotent(player: PlayerHealth, zones: set<EntityId>, events: seq<CollisionEvent>)
    ensures var r := DeadInteraction(Some(player), zones, events);
            && (r.value == player || r.value == player.(health := player.health.(current := 0)))
            && DeadInteraction(r, zones, events) == r
  {
    var r := DeadInteraction(Some(player), zones, events);
    if exists i :: 0 <= i < |events| && Kills(player.id, zones, events[i]) {
      assert r.value == player.(health := player.health.(current := 0));
    }
  }

  /** A contact with something that is not a dead zone, or any `Stopped`
      event, leaves the player's health alone. */
  lemma OnlyDeadZonesKill(player: PlayerHealth, zones: set<EntityId>, other: EntityId)
    requires other !in zones
    ensures DeadInteraction(Some(player), zones, [Started(player.id, other)]) == Some(player)
    ensures DeadInteraction(Some(player), zones, [Started(other, player.id)]) == Some(player)
    ensures forall z :: DeadInteraction(Some(player), zones, [Stopped(player.id, z), Stopped(z, player.id)]) == Some(player)
  {
  }
}
