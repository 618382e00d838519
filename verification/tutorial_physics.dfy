/** Tutorial triggers: the hint type read from the level, the passed flag set
    when the player walks in, and the despawn of the hint when the player walks out. */
module TutorialPhysics {
  import opened Common
  import opened LdtkFields

  datatype TutorialType = Movement | Climbing

  const TUTORIAL_TYPE_FIELD: string := "tutorial_type"

  function TutorialTag(t: TutorialType): string
  {
    match t
    case Movement => "Movement"
    case Climbing => "Climbing"
  }

  /** `TutorialType::from`: the enum tag of the first `tutorial_type` field. */
  function ParseTutorialType(fields: seq<FieldInstance>): (r: Result<TutorialType, TagError>)
    ensures r.Ok? <==> EnumTag(fields, TUTORIAL_TYPE_FIELD) in {Ok("Movement"), Ok("Climbing")}
    ensures r.Ok? ==> EnumTag(fields, TUTORIAL_TYPE_FIELD) == Ok(TutorialTag(r.value))
    ensures EnumTag(fields, TUTORIAL_TYPE_FIELD).Err? ==> r == Err(EnumTag(fields, TUTORIAL_TYPE_FIELD).error)
    ensures EnumTag(fields, TUTORIAL_TYPE_FIELD).Ok? && r.Err? ==> r.error == UnknownTag
  {
    match EnumTag(fields, TUTORIAL_TYPE_FIELD)
    case Err(e) => Err(e)
    case Ok(tag) =>
      if tag == "Movement" then Ok(Movement)
      else if tag == "Climbing" then Ok(Climbing)
      else Err(UnknownTag)
  }

  /** Writing a type's tag into the level and reading it back gives the type. */
  lemma TutorialTagRoundTrip(t: TutorialType, rest: seq<FieldInstance>)
    ensures ParseTutorialType([FieldInstance(TUTORIAL_TYPE_FIELD, EnumValue(Some(TutorialTag(t))))] + rest) == Ok(t)
  {
    var fields := [FieldInstance(TUTORIAL_TYPE_FIELD, EnumValue(Some(TutorialTag(t))))] + rest;
    assert FindField(fields, TUTORIAL_TYPE_FIELD) == Some(0);
  }

  /** A tutorial trigger: whether the player has entered it, and the hint
      entities shown for it. */
  datatype Tutorial = Tutorial(passed: bool, ui: set<EntityId>)

  /** `TutorialPassed::from`: a trigger placed from the level starts unpassed,
      whatever the level says. */
  function InitialPassed(fields: seq<FieldInstance>): bool
  {
    false
  }

  /** The trigger a `Started` event marks as passed, if any. A tutorial as
      first participant settles the event, player or not; otherwise the second
      participant is tried. */
  function Entered(tutorials: map<EntityId, Tutorial>, players: set<EntityId>, e: CollisionEvent): (t: Option<EntityId>)
    ensures t.Some? <==> e.Started? && ((e.a in tutorials && e.b in players) ||
                                        (e.a !in tutorials && e.b in tutorials && e.a in players))
    ensures t.Some? ==> t.value in tutorials && t.value == (if e.a in tutorials then e.a else e.b)
  {
    if e.Stopped? then None
    else if e.a in tutorials then (if e.b in players then Some(e.a) else None)
    else if e.b in tutorials && e.a in players then Some(e.b)
    else None
  }

  /** The trigger a `Stopped` event removes, if any. Unlike entry, a tutorial
      as first participant with a non-player partner falls through to the
      second participant. */
  function Exited(tutorials: map<EntityId, Tutorial>, players: set<EntityId>, e: CollisionEvent): (t: Option<EntityId>)
    ensures t.Some? <==> e.Stopped? && ((e.a in tutorials && e.b in players) || (e.b in tutorials && e.a in players))
    ensures t.Some? ==> t.value in tutorials && (t.value == e.a || t.value == e.b)
    ensures t.Some? ==> (t.value == e.a <==> e.a in tutorials && e.b in players)
  {
    if e.Started? then None
    else if e.a in tutorials && e.b in players then Some(e.a)
    else if e.b in tutorials && e.a in players then Some(e.b)
    else None
  }

  /** The frame's tutorials and the entities queued for despawn. Despawns are
      deferred commands, so a trigger stays in the map until the frame ends. */
  datatype TutorialFrame = TutorialFrame(tutorials: map<EntityId, Tutorial>, despawned: set<EntityId>)

  /** One collision event of `tutorial_interaction_detection`. */
  function TutorialEvent(f: TutorialFrame, players: set<EntityId>, e: CollisionEvent): (r: TutorialFrame)
    ensures r.tutorials.Keys == f.tutorials.Keys
    ensures forall t :: t in f.tutorials ==> r.tutorials[t].ui == f.tutorials[t].ui
    ensures forall t :: t in f.tutorials ==>
              (r.tutorials[t].passed <==> f.tutorials[t].passed || Entered(f.tutorials, players, e) == Some(t))
    ensures Exited(f.tutorials, players, e).None? ==> r.despawned == f.despawned
    ensures Exited(f.tutorials, players, e).Some? ==>
              var t := Exited(f.tutorials, players, e).value;
              r.despawned == f.despawned + f.tutorials[t].ui + {t}
  {
    match Entered(f.tutorials, players, e)
    case Some(t) => f.(tutorials := f.tutorials[t := f.tutorials[t].(passed := true)])
    case None =>
      match Exited(f.tutorials, players, e)
      case Some(t) => f.(despawned := f.despawned + f.tutorials[t].ui + {t})
      case None => f
  }

  /** `tutorial_interaction_detection` over a frame's events. */
  function TutorialInteraction(f: TutorialFrame, players: set<EntityId>, events: seq<CollisionEvent>): (r: TutorialFrame)
    ensures r.tutorials.Keys == f.tutorials.Keys
    ensures f.despawned <= r.despawned
    ensures forall t :: t in f.tutorials ==> r.tutorials[t].ui == f.tutorials[t].ui
    ensures forall t :: t in f.tutorials && f.tutorials[t].passed ==> r.tutorials[t].passed
    decreases |events|
  {
    if |events| == 0 then f
    else TutorialInteraction(TutorialEvent(f, players, events[0]), players, events[1..])
  }

  /** A trigger ends the frame passed exactly when it was passed already or the
      player entered it during the frame; nothing ever clears the flag. */
  lemma {:induction false} PassedIffEntered(f: TutorialFrame, players: set<EntityId>, events: seq<CollisionEvent>, t: EntityId)
    requires t in f.tutorials
    ensures TutorialInteraction(f, players, events).tutorials[t].passed <==>
            f.tutorials[t].passed || exists i :: 0 <= i < |events| && Entered(f.tutorials, players, events[i]) == Some(t)
    decreases |events|
  {
    if |events| > 0 {
      var g := TutorialEvent(f, players, events[0]);
      assert forall e :: Entered(g.tutorials, players, e) == Entered(f.tutorials, players, e);
      PassedIffEntered(g, players, events[1..], t);
      assert forall i :: 1 <= i < |events| ==> events[i] == events[1..][i - 1];
    }
  }

  /** An entity is queued for despawn exactly when it already was, or the
      player left a trigger during the frame and the entity is that trigger or
      one of its hint entities. */
  lemma {:induction false} DespawnedIffLeft(f: TutorialFrame, players: set<EntityId>, events: seq<CollisionEvent>, x: EntityId)
    ensures x in TutorialInteraction(f, players, events).despawned <==>
            x in f.despawned ||
            exists i :: 0 <= i < |events| && Exited(f.tutorials, players, events[i]).Some? &&
                        var t := Exited(f.tutorials, players, events[i]).value;
                        x == t || x in f.tutorials[t].ui
    decreases |events|
  {
    if |events| > 0 {
      var g := TutorialEvent(f, players, events[0]);
      assert forall e :: Exited(g.tutorials, players, e) == Exited(f.tutorials, players, e);
      DespawnedIffLeft(g, players, events[1..], x);
      assert forall i :: 1 <= i < |events| ==> events[i] == events[1..][i - 1];
    }
  }

  /** A trigger freshly placed from the level ends its first frame passed
      exactly when the player entered it during that frame. */
  lemma FreshTriggerPassedIffEntered(fields: seq<FieldInstance>, ui: set<EntityId>, f: TutorialFrame,
                                     players: set<EntityId>, events: seq<CollisionEvent>, t: EntityId)
    requires t in f.tutorials && f.tutorials[t] == Tutorial(InitialPassed(fields), ui)
    ensures TutorialInteraction(f, players, events).tutorials[t].passed <==>
            exists i :: 0 <= i < |events| && Entered(f.tutorials, players, events[i]) == Some(t)
  {
    PassedIffEntered(f, players, events, t);
  }

  /** Entering and leaving in either participant order passes the trigger and
      then queues it and its hints for despawn; a non-player does neither. */
  lemma TutorialVisit(tutorials: map<EntityId, Tutorial>, players: set<EntityId>, t: EntityId, p: EntityId, q: EntityId,
                      enter: CollisionEvent, leave: CollisionEvent)
    requires t in tutorials && p in players && p !in tutorials && q !in players && q !in tutorials
    requires enter == Started(p, t) || enter == Started(t, p)
    requires leave == Stopped(p, t) || leave == Stopped(t, p)
    ensures var r := TutorialInteraction(TutorialFrame(tutorials, {}), players, [enter, leave]);
            r.tutorials[t].passed && r.despawned == tutorials[t].ui + {t}
    ensures var r := TutorialInteraction(TutorialFrame(tutorials, {}), players, [Started(t, q), Stopped(q, t)]);
            r.tutorials[t].passed == tutorials[t].passed && r.despawned == {}
  {
    var f := TutorialFrame(tutorials, {});
    var events := [enter, leave];
    assert events[1..] == [leave] && events[1..][1..] == [];
    var g := TutorialEvent(f, players, events[0]);
    assert TutorialInteraction(f, players, events) == TutorialInteraction(g, players, events[1..]);
    assert TutorialInteraction(g, players, events[1..]) == TutorialEvent(g, players, events[1]);
    var events2 := [Started(t, q), Stopped(q, t)];
    assert events2[1..] == [Stopped(q, t)] && events2[1..][1..] == [];
    var g2 := TutorialEvent(f, players, events2[0]);
    assert g2 == f;
    assert TutorialInteraction(f, players, events2) == TutorialInteraction(g2, players, events2[1..]);
    assert TutorialInteraction(g2, players, events2[1..]) == TutorialEvent(g2, players, events2[1]);
  }
}
