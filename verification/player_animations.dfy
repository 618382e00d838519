/** The player's animation state machine: the priority resolver that picks
    the next state, the side effects of entering a state, and the per-sheet
    frame steppers. Animation timers are reduced to a `finished` flag. */
module PlayerAnimations {
  import opened Common
  import Textures

  datatype ProcessAnimation = Start | End

  datatype AnimationState =
    | Idle
    | Run
    | Climb
    | WallSlide
    | Hit(hit: ProcessAnimation)
    | Death(death: ProcessAnimation)
    | Jump
    | Attack(attack: ProcessAnimation)

  /** The state the game starts in (`PlayerAnimationState::default`). */
  const INITIAL_STATE: AnimationState := Idle

  /** Idle and jump sheets wrap at fixed frame counts rather than the configured ones. */
  const IDLE_FRAMES: nat := 24
  const JUMP_FRAMES: nat := 13

  /** The climb frame only moves while the vertical speed exceeds this. */
  const CLIMB_SPEED_THRESHOLD: real := 20.0

  /** The player components the resolver reads. */
  datatype PlayerFlags = PlayerFlags(onMove: bool, climbing: bool, onGround: bool, onSide: bool, attacks: bool)

  /** The state once a pending request, if any, has been applied. */
  function Advance(current: AnimationState, request: Option<AnimationState>): AnimationState
  {
    if request.Some? then request.value else current
  }

  /** The states the resolver chooses among when no event is pending, best first. */
  const PRIORITY: seq<AnimationState> := [Attack(Start), Climb, WallSlide, Jump, Run, Idle]

  /** Whether the flags allow state `s`, read independently of the others. */
  predicate Eligible(f: PlayerFlags, s: AnimationState)
  {
    match s
    case Attack(Start) => f.attacks
    case Climb => f.climbing
    case WallSlide => !f.onGround && f.onSide
    case Jump => !f.onGround
    case Run => f.onMove
    case Idle => true
    case _ => false
  }

  /** Position of `s` in `PRIORITY` (past its end for the other states). */
  function Rank(s: AnimationState): nat
  {
    match s
    case Attack(Start) => 0
    case Climb => 1
    case WallSlide => 2
    case Jump => 3
    case Run => 4
    case Idle => 5
    case _ => 6
  }

  /** The state the flags call for when no event is pending, written as the
      source's chain of early returns. */
  function Steady(f: PlayerFlags): (s: AnimationState)
    ensures Rank(s) < |PRIORITY| && PRIORITY[Rank(s)] == s
    ensures Eligible(f, s)
    ensures forall j :: 0 <= j < |PRIORITY| && Eligible(f, PRIORITY[j]) ==> Rank(s) <= j
  {
    if f.attacks then Attack(Start)
    else if f.climbing then Climb
    else if !f.onGround then (if f.onSide then WallSlide else Jump)
    else if f.onMove then Run
    else Idle
  }

  /** `player_animation_processor`: the next state it requests, if any. It is
      not scheduled while the state is `Death(Start)` and does nothing when
      the player entity is gone. */
  function Processor(current: AnimationState, player: Option<PlayerFlags>, deathPending: bool, hitPending: bool)
    : (request: Option<AnimationState>)
    ensures request.Some? ==> player.Some? && current != Death(Start)
    ensures player.Some? && deathPending ==> Advance(current, request) == Death(Start)
    ensures player.Some? && !deathPending && hitPending ==> Advance(current, request) in {Hit(Start), Death(Start)}
    ensures player.Some? && !deathPending && hitPending && current != Death(Start) ==> request == Some(Hit(Start))
    ensures !deathPending && !hitPending && current in {Hit(Start), Death(Start)} ==> request.None?
    ensures player.Some? && !deathPending && !hitPending && current !in {Hit(Start), Death(Start)} ==>
              Advance(current, request) == Steady(player.value)
              && (request.Some? <==> current != Steady(player.value))
  {
    if player.None? || current == Death(Start) then None
    else if deathPending then Some(Death(Start))
    else if hitPending then Some(Hit(Start))
    else if current == Hit(Start) then None
    else
      var target := Steady(player.value);
      if target == current then None else Some(target)
  }

  /** The sheet the textures processor installs on entering `s`, if it installs one. */
  function SheetFor(s: AnimationState): Option<Textures.PlayerKind>
  {
    match s
    case Idle => Some(Textures.Idle)
    case Run => Some(Textures.Run)
    case Climb => Some(Textures.Climb)
    case WallSlide => Some(Textures.WallSlide)
    case Hit(Start) => Some(Textures.Hurt)
    case Jump => Some(Textures.Jump)
    case Attack(Start) => Some(Textures.Attack)
    case _ => None
  }

  /** The live player sprite: its transform, facing, frame, sheet and attack flag. */
  datatype PlayerSprite = PlayerSprite(transform: Transform, flipX: bool, index: nat, sheet: Textures.PlayerKind, attacks: bool)

  /** A free-standing death animation left behind by the player. */
  datatype DeathSprite = DeathSprite(transform: Transform, flipX: bool, index: nat, visible: bool)

  /** The entities the animation systems touch. */
  datatype Scene = Scene(player: Option<PlayerSprite>, deathSprites: seq<DeathSprite>)

  datatype TextureOutcome = TextureOutcome(scene: Scene, request: Option<AnimationState>)

  /** The panics of the animation systems. */
  datatype AnimationError =
    | UnreachableDeathEnd   // `unreachable!()` on entering `Death(End)` with a live player
    | RemainderByZero       // the climb sheet has no frames

  /** `player_animation_textures_processor`: the side effects of a state that
      changed this frame, applied to the player if it still exists. */
  function TexturesProcessor(state: AnimationState, changed: bool, scene: Scene): (r: Result<TextureOutcome, AnimationError>)
    ensures !changed || scene.player.None? ==> r == Ok(TextureOutcome(scene, None))
    ensures r.Err? <==> changed && scene.player.Some? && state == Death(End)
    ensures r.Ok? && state != Death(Start) ==> r.value.scene.deathSprites == scene.deathSprites
    ensures r.Ok? && r.value.request.Some? ==> state == Hit(End) && r.value.request == Some(Idle)
    // On a change every surviving player starts the new state at frame 0, in place.
    ensures changed && scene.player.Some? && state !in {Death(Start), Death(End)} ==>
              && r.Ok?
              && r.value.scene.player.Some?
              && r.value.scene.player.value.index == 0
              && r.value.scene.player.value.transform == scene.player.value.transform
              && r.value.scene.player.value.flipX == scene.player.value.flipX
    // Entering a state with a sheet swaps the sheet and keeps the attack flag.
    ensures changed && scene.player.Some? && SheetFor(state).Some? ==>
              && r.Ok?
              && r.value.scene.player.value.sheet == SheetFor(state).value
              && r.value.scene.player.value.attacks == scene.player.value.attacks
    // Finishing a hit or an attack clears the attack flag; a finished hit hands back to idle.
    ensures changed && scene.player.Some? && state in {Hit(End), Attack(End)} ==>
              && r.Ok?
              && !r.value.scene.player.value.attacks
              && r.value.scene.player.value.sheet == scene.player.value.sheet
              && (r.value.request == Some(Idle) <==> state == Hit(End))
    // Dying removes the player and leaves a death sprite where it stood, facing the same way.
    ensures changed && scene.player.Some? && state == Death(Start) ==>
              && r.Ok?
              && r.value.scene.player.None?
              && r.value.scene.deathSprites ==
                 scene.deathSprites + [DeathSprite(scene.player.value.transform, scene.player.value.flipX, 0, true)]
  {
    if !changed || scene.player.None? then Ok(TextureOutcome(scene, None))
    else
      var p := scene.player.value.(index := 0);
      match state
      case Hit(End) => Ok(TextureOutcome(scene.(player := Some(p.(attacks := false))), Some(Idle)))
      case Attack(End) => Ok(TextureOutcome(scene.(player := Some(p.(attacks := false))), None))
      case Death(Start) =>
        var corpse := DeathSprite(p.transform, p.flipX, 0, true);
        Ok(TextureOutcome(Scene(None, scene.deathSprites + [corpse]), None))
      case Death(End) => Err(UnreachableDeathEnd)
      case _ => Ok(TextureOutcome(scene.(player := Some(p.(sheet := SheetFor(state).value))), None))
  }

  /** A looping sheet (idle, run, wall slide, jump): a finished timer moves to
      the next frame, wrapping to 0 once `count` is reached. */
  function LoopFrame(index: nat, finished: bool, count: nat): (next: nat)
    ensures !finished ==> next == index
    ensures finished && index < count ==> next == (index + 1) % count
    ensures finished && index >= count ==> next == 0
    ensures index < count ==> next < count
  {
    if !finished then index
    else if index + 1 >= count then 0
    else index + 1
  }

  function IdleFrame(index: nat, finished: bool): nat { LoopFrame(index, finished, IDLE_FRAMES) }
  function JumpFrame(index: nat, finished: bool): nat { LoopFrame(index, finished, JUMP_FRAMES) }

  /** A sheet played once (attack, hurt, death): `done` reports that the last
      frame was passed, and the index is then back at 0. */
  datatype OneShot = OneShot(index: nat, done: bool)

  function OneShotFrame(index: nat, finished: bool, count: nat): (r: OneShot)
    ensures r.done <==> finished && index + 1 >= count
    ensures r.done ==> r.index == 0
    ensures !finished ==> r.index == index
    ensures finished && !r.done ==> r.index == index + 1 && r.index < count
  {
    if !finished then OneShot(index, false)
    else if index + 1 >= count then OneShot(0, true)
    else OneShot(index + 1, false)
  }

  /** `player_attack_animation`: the frame, and `Attack(End)` once the sheet is played. */
  function AttackFrame(index: nat, finished: bool, count: nat): (r: (nat, Option<AnimationState>))
    ensures r.1.Some? ==> r.1 == Some(Attack(End)) && r.0 == 0
    ensures r.1.Some? <==> finished && index + 1 >= count
    ensures !finished ==> r == (index, None)
    ensures finished && index + 1 < count ==> r == (index + 1, None)
  {
    var s := OneShotFrame(index, finished, count);
    (s.index, if s.done then Some(Attack(End)) else None)
  }

  /** `player_hurt_animation`: the frame, and `Hit(End)` once the sheet is played. */
  function HurtFrame(index: nat, finished: bool, count: nat): (r: (nat, Option<AnimationState>))
    ensures r.1.Some? ==> r.1 == Some(Hit(End)) && r.0 == 0
    ensures r.1.Some? <==> finished && index + 1 >= count
    ensures !finished ==> r == (index, None)
    ensures finished && index + 1 < count ==> r == (index + 1, None)
  {
    var s := OneShotFrame(index, finished, count);
    (s.index, if s.done then Some(Hit(End)) else None)
  }

  /** `player_climb_animation`: the frame moves by two, modulo the sheet size,
      and only while the player climbs faster than the threshold. */
  function ClimbFrame(index: nat, finished: bool, vy: real, count: nat): (r: Result<nat, AnimationError>)
    ensures r.Err? <==> finished && Abs(vy) > CLIMB_SPEED_THRESHOLD && count == 0
    ensures !finished || Abs(vy) <= CLIMB_SPEED_THRESHOLD ==> r == Ok(index)
    ensures r.Ok? && finished && Abs(vy) > CLIMB_SPEED_THRESHOLD ==>
              r.value < count && r.value == (index + 2) % count
  {
    if finished && (vy > CLIMB_SPEED_THRESHOLD || vy < -CLIMB_SPEED_THRESHOLD) then
      if count == 0 then Err(RemainderByZero)
      else Ok((index + 2) % count)
    else Ok(index)
  }

  /** `player_death_animation` for one death sprite: once its sheet is played it
      is hidden (never removed) and `done` asks for `Death(End)`. */
  function DeathFrame(sprite: DeathSprite, finished: bool, count: nat): (r: (DeathSprite, bool))
    ensures r.0.transform == sprite.transform && r.0.flipX == sprite.flipX
    ensures r.1 <==> finished && sprite.index + 1 >= count
    ensures r.1 ==> !r.0.visible && r.0.index == 0
    ensures !r.1 ==> r.0.visible == sprite.visible
    ensures !finished ==> r == (sprite, false)
    ensures finished && sprite.index + 1 < count ==> r == (sprite.(index := sprite.index + 1), false)
  {
    var s := OneShotFrame(sprite.index, finished, count);
    (sprite.(index := s.index, visible := if s.done then false else sprite.visible), s.done)
  }

  /** The death animation over every death sprite, each with its own timer. */
  function DeathSpritesStep(sprites: seq<DeathSprite>, finished: seq<bool>, count: nat)
    : (r: (seq<DeathSprite>, Option<AnimationState>))
    requires |finished| == |sprites|
    ensures |r.0| == |sprites|
    ensures r.1.Some? ==> r.1 == Some(Death(End))
    ensures r.1.Some? <==> exists i :: 0 <= i < |sprites| && finished[i] && sprites[i].index + 1 >= count
    ensures forall i :: 0 <= i < |sprites| ==> r.0[i] == DeathFrame(sprites[i], finished[i], count).0
  {
    if |sprites| == 0 then ([], None)
    else
      var head := DeathFrame(sprites[0], finished[0], count);
      var tail := DeathSpritesStep(sprites[1..], finished[1..], count);
      assert forall i :: 1 <= i < |sprites| ==> sprites[1..][i - 1] == sprites[i] && finished[1..][i - 1] == finished[i];
      ([head.0] + tail.0, if head.1 then Some(Death(End)) else tail.1)
  }

  /** `ticks` consecutive finished timers on a looping sheet. */
  function LoopFrames(index: nat, ticks: nat, count: nat): nat
    decreases ticks
  {
    if ticks == 0 then index else LoopFrames(LoopFrame(index, true, count), ticks - 1, count)
  }

  /** A looping sheet started at frame 0 is at frame `ticks % count`: it visits
      every frame in order and comes back to 0. */
  lemma {:induction false} LoopFramesCycle(ticks: nat, count: nat)
    requires count > 0
    ensures LoopFrames(0, ticks, count) == ticks % count
  {
    LoopFramesFrom(0, ticks, count);
  }

  lemma {:induction false} LoopFramesFrom(index: nat, ticks: nat, count: nat)
    requires index < count
    ensures LoopFrames(index, ticks, count) == (index + ticks) % count
    decreases ticks
  {
    if ticks > 0 {
      var next := LoopFrame(index, true, count);
      LoopFramesFrom(next, ticks - 1, count);
      ModSucc(index, ticks - 1, count);
    }
  }

  /** `ticks` consecutive finished timers on a sheet played once, stopping at completion. */
  function OneShotFrames(index: nat, ticks: nat, count: nat): OneShot
    decreases ticks
  {
    if ticks == 0 then OneShot(index, false)
    else
      var s := OneShotFrame(index, true, count);
      if s.done then s else OneShotFrames(s.index, ticks - 1, count)
  }

  /** A sheet played once from frame 0 completes on exactly the `count`-th
      finished timer, showing frames 0 .. count-1 on the way. */
  lemma {:induction false} OneShotCompletes(ticks: nat, count: nat)
    requires count > 0 && ticks <= count
    ensures ticks < count ==> OneShotFrames(0, ticks, count) == OneShot(ticks, false)
    ensures ticks == count ==> OneShotFrames(0, ticks, count) == OneShot(0, true)
  {
    OneShotFramesFrom(0, ticks, count);
  }

  lemma {:induction false} OneShotFramesFrom(index: nat, ticks: nat, count: nat)
    requires index + ticks <= count
    ensures index + ticks < count ==> OneShotFrames(index, ticks, count) == OneShot(index + ticks, false)
    ensures index + ticks == count && ticks > 0 ==> OneShotFrames(index, ticks, count) == OneShot(0, true)
    decreases ticks
  {
    if ticks > 0 && index + 1 < count {
      OneShotFramesFrom(index + 1, ticks - 1, count);
    }
  }

  /** Death lifecycle: a death event moves any state to `Death(Start)`; the
      change removes the player and leaves a visible death sprite at its last
      transform and facing; after the death sheet's frame count of finished
      timers that sprite asks for `Death(End)` and is hidden, still present;
      and `Death(End)` then has no effect, the player being gone. */
  lemma {:induction false} DeathLifecycle(current: AnimationState, flags: PlayerFlags, hitPending: bool,
                                          p: PlayerSprite, count: nat)
    requires count > 0
    ensures var state := Advance(current, Processor(current, Some(flags), true, hitPending));
            && state == Death(Start)
            && TexturesProcessor(state, true, Scene(Some(p), [])) ==
               Ok(TextureOutcome(Scene(None, [DeathSprite(p.transform, p.flipX, 0, true)]), None))
    ensures OneShotFrames(0, count, count) == OneShot(0, true)
    ensures DeathFrame(DeathSprite(p.transform, p.flipX, count - 1, true), true, count) ==
            (DeathSprite(p.transform, p.flipX, 0, false), true)
    ensures forall sprites :: TexturesProcessor(Death(End), true, Scene(None, sprites)) ==
                              Ok(TextureOutcome(Scene(None, sprites), None))
  {
    var corpse := DeathSprite(p.transform, p.flipX, 0, true);
    assert [] + [corpse] == [corpse];
    OneShotCompletes(count, count);
  }

  /** Hit lifecycle: a hit event outranks an attack in progress; entering
      `Hit(Start)` shows the hurt sheet from frame 0; after the hurt sheet's
      frame count of finished timers `Hit(End)` is requested, and entering it
      clears the attack flag and hands back to `Idle`. */
  lemma {:induction false} HitLifecycle(flags: PlayerFlags, p: PlayerSprite, count: nat)
    requires count > 0 && flags.attacks
    ensures var state := Advance(Attack(Start), Processor(Attack(Start), Some(flags), false, true));
            && state == Hit(Start)
            && TexturesProcessor(state, true, Scene(Some(p), [])) ==
               Ok(TextureOutcome(Scene(Some(p.(index := 0, sheet := Textures.Hurt)), []), None))
    ensures OneShotFrames(0, count - 1, count) == OneShot(count - 1, false)
    ensures HurtFrame(count - 1, true, count) == (0, Some(Hit(End)))
    ensures TexturesProcessor(Hit(End), true, Scene(Some(p), [])) ==
            Ok(TextureOutcome(Scene(Some(p.(index := 0, attacks := false)), []), Some(Idle)))
  {
    assert Processor(Attack(Start), Some(flags), false, true) == Some(Hit(Start));
    assert SheetFor(Hit(Start)) == Some(Textures.Hurt);
    assert TexturesProcessor(Hit(Start), true, Scene(Some(p), [])) ==
           Ok(TextureOutcome(Scene(Some(p.(index := 0, sheet := Textures.Hurt)), []), None));
    OneShotCompletes(count - 1, count);
  }
}
