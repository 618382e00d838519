/** Assembly of the deserialized sprite configuration into complete sprite
    sets (`GameTextures::prepare_*_textures`). Reading the RON file and
    creating asset handles are left out: a texture is named by its image path. */
module Textures {
  import opened Common

  datatype PlayerKind = Idle | Run | Climb | Attack | Jump | Hurt | Death | WallSlide
  datatype EnemyKind = Gray | Long
  datatype TutorialKind = Movement

  /** One `player` entry of the configuration file. */
  datatype PlayerEntry = PlayerEntry(
    kind: PlayerKind, width: real, height: real, offset: real,
    texturePath: string, items: nat, columnSize: nat)

  /** One `enemies` entry of the configuration file. */
  datatype EnemyEntry = EnemyEntry(
    kind: EnemyKind, width: real, height: real,
    texturePath: string, items: nat, columnSize: nat)

  /** One `tutorials` entry of the configuration file. */
  datatype TutorialEntry = TutorialEntry(kind: TutorialKind, texturePath: string)

  /** The grid a texture atlas is cut with (`TextureAtlas::from_grid_with_padding`). */
  datatype Atlas = Atlas(image: string, tile: Vec2, columns: nat, rows: nat, padding: Vec2, offset: Vec2)

  datatype SpriteAssetInfo = SpriteAssetInfo(width: real, height: real, texture: Atlas, items: nat)

  datatype PlayerSprites = PlayerSprites(
    idle: SpriteAssetInfo, run: SpriteAssetInfo, climb: SpriteAssetInfo, hurt: SpriteAssetInfo,
    death: SpriteAssetInfo, jump: SpriteAssetInfo, attack: SpriteAssetInfo, wallSlide: SpriteAssetInfo)

  datatype EnemiesSprites = EnemiesSprites(gray: SpriteAssetInfo, long: SpriteAssetInfo)

  datatype TutorialSprites = TutorialSprites(movement: string)

  /** The panics of sprite assembly. */
  datatype LoadError =
    | MissingPlayerSprite     // "All animations for the player must be mapped"
    | MissingEnemySprite      // "All enemies animations must be mapped"
    | MissingTutorialSprite   // "All animations must be mapped"
    | ZeroColumns             // integer division by a zero `column_size`

  /** Every player sprite cell is laid out in a 64x64 tile. */
  const PLAYER_TILE_SIZE: real := 64.0

  /** What a non-finite positive `f32` saturates to when cast to a 64-bit `usize`. */
  const USIZE_MAX: nat := 0xFFFF_FFFF_FFFF_FFFF

  function PlayerSprite(s: PlayerSprites, k: PlayerKind): SpriteAssetInfo
  {
    match k
    case Idle => s.idle
    case Run => s.run
    case Climb => s.climb
    case Attack => s.attack
    case Jump => s.jump
    case Hurt => s.hurt
    case Death => s.death
    case WallSlide => s.wallSlide
  }

  /** Atlas rows of a player sheet: `items / columns` rounded up, computed in
      floating point, so that a zero column count gives NaN (cast to 0) or
      infinity (cast to the largest `usize`). */
  function PlayerRows(items: nat, columns: nat): (rows: nat)
    ensures columns > 0 ==> rows * columns >= items
    ensures columns > 0 && rows > 0 ==> (rows - 1) * columns < items
    ensures columns == 0 ==> (rows == 0 <==> items == 0)
    ensures columns == 0 && items > 0 ==> rows == USIZE_MAX
  {
    if columns > 0 then
      var q := (items + columns - 1) / columns;
      var m := (items + columns - 1) % columns;
      assert q * columns + m == items + columns - 1;
      assert (q - 1) * columns == q * columns - columns;
      q
    else if items == 0 then 0
    else USIZE_MAX
  }

  /** Atlas rows of an enemy sheet: integer division, truncating. */
  function EnemyRows(items: nat, columns: nat): (r: Result<nat, LoadError>)
    ensures r.Err? <==> columns == 0
    ensures r.Err? ==> r.error == ZeroColumns
    ensures r.Ok? ==> r.value * columns <= items < (r.value + 1) * columns
  {
    if columns == 0 then Err(ZeroColumns)
    else
      var q := items / columns;
      assert q * columns + items % columns == items;
      assert (q + 1) * columns == q * columns + columns;
      Ok(q)
  }

  /** The sprite information built from one player entry. */
  function PlayerInfo(e: PlayerEntry): (info: SpriteAssetInfo)
    ensures info.width == e.width && info.height == e.height && info.items == e.items
    ensures info.texture.image == e.texturePath && info.texture.tile == Vec2(e.width, e.height)
    ensures info.texture.columns == e.columnSize
    ensures e.columnSize > 0 ==> info.texture.rows * e.columnSize >= e.items
    ensures info.texture.rows == PlayerRows(e.items, e.columnSize)
    ensures e.width + info.texture.padding.x == PLAYER_TILE_SIZE
    ensures e.height + info.texture.padding.y == PLAYER_TILE_SIZE
    ensures info.texture.offset == Vec2(e.offset, info.texture.padding.y)
  {
    var padding := Vec2(PLAYER_TILE_SIZE - e.width, PLAYER_TILE_SIZE - e.height);
    var atlas := Atlas(e.texturePath, Vec2(e.width, e.height), e.columnSize,
                       PlayerRows(e.items, e.columnSize), padding,
                       Vec2(e.offset, PLAYER_TILE_SIZE - e.height));
    SpriteAssetInfo(e.width, e.height, atlas, e.items)
  }

  /** The sprite information built from one enemy entry; enemy atlases have no padding. */
  function EnemyInfo(e: EnemyEntry): (r: Result<SpriteAssetInfo, LoadError>)
    ensures r.Err? <==> e.columnSize == 0
    ensures r.Ok? ==> r.value.width == e.width && r.value.height == e.height && r.value.items == e.items
    ensures r.Ok? ==> r.value.texture.image == e.texturePath && r.value.texture.columns == e.columnSize
    ensures r.Ok? ==> r.value.texture.rows * e.columnSize <= e.items < (r.value.texture.rows + 1) * e.columnSize
    ensures r.Ok? ==> r.value.texture.padding == ZERO && r.value.texture.offset == ZERO
  {
    match EnemyRows(e.items, e.columnSize)
    case Err(err) => Err(err)
    case Ok(rows) =>
      Ok(SpriteAssetInfo(e.width, e.height,
                         Atlas(e.texturePath, Vec2(e.width, e.height), e.columnSize, rows, ZERO, ZERO),
                         e.items))
  }

  /** Some entry has kind `k`. */
  ghost predicate Present<E, K>(entries: seq<E>, kindOf: E -> K, k: K)
  {
    exists j :: 0 <= j < |entries| && kindOf(entries[j]) == k
  }

  /** The entry at `j` is the last one of kind `k`. */
  ghost predicate IsLastOf<E, K>(entries: seq<E>, kindOf: E -> K, j: int, k: K)
  {
    && 0 <= j < |entries|
    && kindOf(entries[j]) == k
    && forall m :: j < m < |entries| ==> kindOf(entries[m]) != k
  }

  /** Files the entries under their kinds in order, so that a later entry of
      a kind replaces an earlier one, as the assignments in the source's loops do. */
  method CollectByKind<E, K(==)>(entries: seq<E>, kindOf: E -> K) returns (found: map<K, E>)
    ensures forall k :: k in found <==> Present(entries, kindOf, k)
    ensures forall k :: k in found ==> found[k] in entries
    ensures forall k, j :: IsLastOf(entries, kindOf, j, k) ==> k in found && found[k] == entries[j]
  {
    found := map[];
    var i := 0;
    while i < |entries|
      invariant 0 <= i <= |entries|
      invariant forall k :: k in found <==> Present(entries[..i], kindOf, k)
      invariant forall k :: k in found ==> found[k] in entries
      invariant forall k, j :: IsLastOf(entries[..i], kindOf, j, k) ==> k in found && found[k] == entries[j]
    {
      var k := kindOf(entries[i]);
      found := found[k := entries[i]];
      i := i + 1;
      forall k', j | IsLastOf(entries[..i], kindOf, j, k')
        ensures k' in found && found[k'] == entries[j]
      {
        if j < i - 1 {
          assert IsLastOf(entries[..i - 1], kindOf, j, k');
        }
      }
      forall k' ensures k' in found <==> Present(entries[..i], kindOf, k')
      {
        if Present(entries[..i], kindOf, k') && k' != k {
          var j :| 0 <= j < i && kindOf(entries[..i][j]) == k';
          assert kindOf(entries[..i - 1][j]) == k';
        }
        if k' in found && k' != k {
          var j :| 0 <= j < i - 1 && kindOf(entries[..i - 1][j]) == k';
          assert kindOf(entries[..i][j]) == k';
        }
      }
    }
    assert entries[..i] == entries;
  }

  function PlayerEntryKind(e: PlayerEntry): PlayerKind { e.kind }
  function EnemyEntryKind(e: EnemyEntry): EnemyKind { e.kind }
  function TutorialEntryKind(e: TutorialEntry): TutorialKind { e.kind }

  /** `prepare_player_textures`: succeeds exactly when all eight sheets are
      configured, each taken from the last entry of its kind. */
  method PreparePlayerTextures(entries: seq<PlayerEntry>) returns (r: Result<PlayerSprites, LoadError>)
    ensures r.Ok? <==> forall k :: Present(entries, PlayerEntryKind, k)
    ensures r.Err? ==> r.error == MissingPlayerSprite
    ensures r.Ok? ==> forall k, j :: IsLastOf(entries, PlayerEntryKind, j, k) ==>
                                      PlayerSprite(r.value, k) == PlayerInfo(entries[j])
  {
    var found := CollectByKind(entries, PlayerEntryKind);
    if || Idle !in found || Run !in found || Climb !in found || Jump !in found
       || Hurt !in found || Death !in found || Attack !in found || WallSlide !in found
    {
      return Err(MissingPlayerSprite);
    }
    r := Ok(PlayerSprites(
      idle := PlayerInfo(found[Idle]), run := PlayerInfo(found[Run]),
      climb := PlayerInfo(found[Climb]), hurt := PlayerInfo(found[Hurt]),
      death := PlayerInfo(found[Death]), jump := PlayerInfo(found[Jump]),
      attack := PlayerInfo(found[Attack]), wallSlide := PlayerInfo(found[WallSlide])));
    forall k ensures k in found && PlayerSprite(r.value, k) == PlayerInfo(found[k]) {
      match k
      case Idle =>
      case Run =>
      case Climb =>
      case Attack =>
      case Jump =>
      case Hurt =>
      case Death =>
      case WallSlide =>
    }
  }

  /** `prepare_enemies_textures`: a zero column count in any entry is fatal;
      otherwise succeeds exactly when both enemy sheets are configured. */
  method PrepareEnemiesTextures(entries: seq<EnemyEntry>) returns (r: Result<EnemiesSprites, LoadError>)
    ensures r == Err(ZeroColumns) <==> exists j :: 0 <= j < |entries| && entries[j].columnSize == 0
    ensures r.Ok? <==> && (forall j :: 0 <= j < |entries| ==> entries[j].columnSize > 0)
                       && Present(entries, EnemyEntryKind, Gray)
                       && Present(entries, EnemyEntryKind, Long)
    ensures r.Err? ==> r.error == ZeroColumns || r.error == MissingEnemySprite
    ensures r.Ok? ==> forall j :: IsLastOf(entries, EnemyEntryKind, j, Gray) ==> EnemyInfo(entries[j]) == Ok(r.value.gray)
    ensures r.Ok? ==> forall j :: IsLastOf(entries, EnemyEntryKind, j, Long) ==> EnemyInfo(entries[j]) == Ok(r.value.long)
  {
    if exists j | 0 <= j < |entries| :: entries[j].columnSize == 0 {
      return Err(ZeroColumns);
    }
    var found := CollectByKind(entries, EnemyEntryKind);
    if Gray !in found || Long !in found {
      return Err(MissingEnemySprite);
    }
    var gray := EnemyInfo(found[Gray]);
    var long := EnemyInfo(found[Long]);
    r := Ok(EnemiesSprites(gray.value, long.value));
  }

  /** `prepare_tutorial_textures`: succeeds exactly when a `Movement` entry
      exists, and takes the image of the last one. */
  method PrepareTutorialTextures(entries: seq<TutorialEntry>) returns (r: Result<TutorialSprites, LoadError>)
    ensures r.Ok? <==> Present(entries, TutorialEntryKind, Movement)
    ensures r.Err? ==> r.error == MissingTutorialSprite
    ensures r.Ok? ==> forall j :: IsLastOf(entries, TutorialEntryKind, j, Movement) ==>
                                  r.value.movement == entries[j].texturePath
  {
    var found := CollectByKind(entries, TutorialEntryKind);
    if Movement !in found {
      return Err(MissingTutorialSprite);
    }
    r := Ok(TutorialSprites(found[Movement].texturePath));
  }
}
