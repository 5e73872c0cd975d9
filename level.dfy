/** Levels, src/game/level.rs: decoding a level file into a grid of brick types,
    and building a level's paddle, bricks, walls and first ball from that grid. */
module Level {
  import opened Geometry
  import opened RunState
  import Transform
  import Brick
  import Ball

  /** Number of bricks per grid row and per grid column. */
  const GridSize: nat := 16
  const CellCount: nat := 256

  const BrickSpriteWidth: real := 20.0
  const BrickSpriteHeight: real := 13.0
  const BricksYOffset: real := 32.0

  /** A level as loaded from its file: an id and the brick types in row-major
      order. */
  datatype LevelAsset = LevelAsset(id: nat, bricks: seq<Brick.BrickType>)

  // ---------------------------------------------------------------- decoding

  /** The characters Rust's `char::is_whitespace` accepts: those with the Unicode
      White_Space property. */
  predicate IsWhitespace(c: char)
  {
    ('\U{0009}' <= c <= '\U{000D}') || c == ' ' || c == '\U{0085}' || c == '\U{00A0}' || c == '\U{1680}'
    || ('\U{2000}' <= c <= '\U{200A}') || c == '\U{2028}' || c == '\U{2029}' || c == '\U{202F}'
    || c == '\U{205F}' || c == '\U{3000}'
  }

  /** The characters of `s` that `keep` accepts, in order. */
  function Filter(s: string, keep: char -> bool): (r: string)
    ensures |r| <= |s|
    ensures forall i :: 0 <= i < |r| ==> keep(r[i])
  {
    if s == [] then []
    else Filter(s[..|s| - 1], keep) + (if keep(s[|s| - 1]) then [s[|s| - 1]] else [])
  }

  /** Filtering loses no accepted character: each occurs in the result as often
      as in `s`, and a rejected one not at all. */
  lemma {:induction false} FilterCounts(s: string, keep: char -> bool, c: char)
    ensures multiset(Filter(s, keep))[c] == if keep(c) then multiset(s)[c] else 0
  {
    if s != [] {
      var n := |s| - 1;
      FilterCounts(s[..n], keep, c);
      assert s == s[..n] + [s[n]];
    }
  }

  /** Dropping newlines before dropping whitespace changes nothing: a newline is
      whitespace. */
  lemma {:induction false} NewlinesAreWhitespace(s: string)
    ensures Filter(Filter(s, c => c != '\n'), c => !IsWhitespace(c)) == Filter(s, c => !IsWhitespace(c))
  {
    if s != [] {
      var n := |s| - 1;
      NewlinesAreWhitespace(s[..n]);
      FilterAppend(Filter(s[..n], c => c != '\n'), if s[n] != '\n' then [s[n]] else [], c => !IsWhitespace(c));
    }
  }

  lemma {:induction false} FilterAppend(s: string, t: string, keep: char -> bool)
    ensures Filter(s + t, keep) == Filter(s, keep) + Filter(t, keep)
    decreases |t|
  {
    if t == [] {
      assert s + t == s;
    } else {
      var n := |t| - 1;
      FilterAppend(s, t[..n], keep);
      assert (s + t)[..|s + t| - 1] == s + t[..n];
    }
  }

  /** The brick type a level file character stands for. */
  function Decode(c: char): (t: Brick.BrickType)
    ensures t == Brick.Air <==> c !in {'0', '1', '2', '3', '4'}
  {
    match c
    case '0' => Brick.Grey
    case '1' => Brick.Green
    case '2' => Brick.Blue
    case '3' => Brick.Red
    case '4' => Brick.Purple
    case _ => Brick.Air
  }

  /** Every character of `s`, decoded. */
  function DecodeAll(s: string): (r: seq<Brick.BrickType>)
    ensures |r| == |s|
    ensures forall i :: 0 <= i < |s| ==> r[i] == Decode(s[i])
  {
    if s == [] then []
    else DecodeAll(s[..|s| - 1]) + [Decode(s[|s| - 1])]
  }

  /** The bricks of a level file: one per character that is not whitespace. */
  function Import(fileString: string): seq<Brick.BrickType>
  {
    DecodeAll(Filter(fileString, c => !IsWhitespace(c)))
  }

  /** The character written for a brick type in a level file. */
  function Encode(t: Brick.BrickType): (c: char)
    ensures !IsWhitespace(c)
  {
    match t
    case Grey => '0'
    case Green => '1'
    case Blue => '2'
    case Red => '3'
    case Purple => '4'
    case Air => '.'
  }

  function EncodeAll(bricks: seq<Brick.BrickType>): (s: string)
    ensures |s| == |bricks|
    ensures forall i :: 0 <= i < |s| ==> s[i] == Encode(bricks[i])
  {
    if bricks == [] then "" else EncodeAll(bricks[..|bricks| - 1]) + [Encode(bricks[|bricks| - 1])]
  }

  lemma {:induction false} FilterKeepsAll(s: string, keep: char -> bool)
    requires forall i :: 0 <= i < |s| ==> keep(s[i])
    ensures Filter(s, keep) == s
  {
    if s != [] {
      FilterKeepsAll(s[..|s| - 1], keep);
    }
  }

  /** Decoding a written level gives back its bricks: every brick type has a
      character of its own, and none of them is whitespace. */
  lemma ImportEncoded(bricks: seq<Brick.BrickType>)
    ensures Import(EncodeAll(bricks)) == bricks
  {
    FilterKeepsAll(EncodeAll(bricks), c => !IsWhitespace(c));
  }

  /** The decoding loop of `LevelAssetDb::import_folder` for one file's text:
      newlines are removed, then all other whitespace, and each remaining
      character becomes one brick type. */
  method ImportLevelString(fileString: string) returns (bricks: seq<Brick.BrickType>)
    ensures bricks == Import(fileString)
  {
    var s := Filter(fileString, c => c != '\n');
    s := Filter(s, c => !IsWhitespace(c));
    NewlinesAreWhitespace(fileString);
    bricks := [];
    var i := 0;
    while i < |s|
      invariant 0 <= i <= |s|
      invariant bricks == DecodeAll(s[..i])
    {
      var c := s[i];
      var brickType := match c
        case '0' => Brick.Grey
        case '1' => Brick.Green
        case '2' => Brick.Blue
        case '3' => Brick.Red
        case '4' => Brick.Purple
        case _ => Brick.Air;
      bricks := bricks + [brickType];
      assert s[..i + 1][..i] == s[..i];
      i := i + 1;
    }
    assert s[..i] == s;
  }

  // ---------------------------------------------------------------- building

  /** Starting hit points by brick type; grey bricks get none. */
  function BrickHp(t: Brick.BrickType): int
  {
    match t
    case Grey => 0
    case Green => 1
    case Blue => 2
    case Red => 3
    case Purple => 4
    case Air => 2
  }

  /** Of the brick types a level places, exactly grey is indestructible; the
      others take one to four hits, in the order green, blue, red, purple. */
  lemma OnlyGreyIsIndestructible(t: Brick.BrickType)
    requires t != Brick.Air
    ensures Brick.NewBrick(BrickHp(t)).isIndestructible <==> t == Brick.Grey
    ensures t != Brick.Grey ==> 1 <= Brick.NewBrick(BrickHp(t)).hp <= 4
  {
  }

  /** A brick entity created by `build_level`. */
  datatype PlacedBrick = PlacedBrick(entity: Entity, cell: nat, transform: Transform.TransformComponent, brick: Brick.BrickComponent)

  /** Where the brick of grid column `x` and row `y` goes: bricks sit edge to edge,
      rows start 32 pixels below the top. */
  function CellPosition(x: nat, y: nat): Vec2
  {
    Vec2(x as real * BrickSpriteWidth, BricksYOffset + y as real * BrickSpriteHeight)
  }

  /** The brick placed for grid cell `cell`, column `cell % 16` of row `cell / 16`. */
  function Place(entity: Entity, cell: nat, t: Brick.BrickType): PlacedBrick
  {
    PlacedBrick(entity, cell,
                Transform.TransformComponent(CellPosition(cell % GridSize, cell / GridSize),
                                             CellPosition(cell % GridSize, cell / GridSize), Zero, Vec2(1.0, 1.0)),
                Brick.NewBrick(BrickHp(t)))
  }

  /** The bricks placed for the first `n` cells in row-major order, numbered from
      `firstEntity` in creation order; air cells place nothing. */
  function Cells(bricks: seq<Brick.BrickType>, n: nat, firstEntity: Entity): (r: seq<PlacedBrick>)
    requires n <= |bricks|
  {
    if n == 0 then []
    else
      var before := Cells(bricks, n - 1, firstEntity);
      before + (if bricks[n - 1] == Brick.Air then [] else [Place(firstEntity + |before|, n - 1, bricks[n - 1])])
  }

  /** The `k`-th brick placed from `bricks`, numbering from `firstEntity`: it
      comes from a non-air cell, stands at that cell's position, carries that
      cell's hit points and has the `k`-th entity id. */
  predicate PlacedFrom(bricks: seq<Brick.BrickType>, firstEntity: Entity, p: PlacedBrick, k: nat)
  {
    && p.cell < |bricks| && bricks[p.cell] != Brick.Air
    && p.transform.position == CellPosition(p.cell % GridSize, p.cell / GridSize)
    && p.entity == firstEntity + k
    && p.brick == Brick.NewBrick(BrickHp(bricks[p.cell]))
  }

  /** Every brick placed for the first `n` cells is placed from one of them. */
  lemma {:induction false} CellsPlacedFrom(bricks: seq<Brick.BrickType>, n: nat, firstEntity: Entity)
    requires n <= |bricks|
    ensures forall k :: 0 <= k < |Cells(bricks, n, firstEntity)| ==>
      Cells(bricks, n, firstEntity)[k].cell < n && PlacedFrom(bricks, firstEntity, Cells(bricks, n, firstEntity)[k], k)
  {
    if n > 0 {
      CellsPlacedFrom(bricks, n - 1, firstEntity);
      var before := Cells(bricks, n - 1, firstEntity);
      var r := Cells(bricks, n, firstEntity);
      assert forall k :: 0 <= k < |before| ==> r[k] == before[k];
    }
  }

  /** Cells are placed in increasing order, so no cell gets two bricks. */
  lemma {:induction false} CellsIncreasing(bricks: seq<Brick.BrickType>, n: nat, firstEntity: Entity)
    requires n <= |bricks|
    ensures forall j, k :: 0 <= j < k < |Cells(bricks, n, firstEntity)| ==>
      Cells(bricks, n, firstEntity)[j].cell < Cells(bricks, n, firstEntity)[k].cell
  {
    if n > 0 {
      CellsIncreasing(bricks, n - 1, firstEntity);
      CellsPlacedFrom(bricks, n - 1, firstEntity);
      var before := Cells(bricks, n - 1, firstEntity);
      var r := Cells(bricks, n, firstEntity);
      assert forall k :: 0 <= k < |before| ==> r[k] == before[k];
    }
  }

  /** Every non-air cell among the first `n` gets a brick. */
  lemma {:induction false} CellsCover(bricks: seq<Brick.BrickType>, n: nat, firstEntity: Entity, c: nat)
    requires n <= |bricks| && c < n && bricks[c] != Brick.Air
    ensures exists k :: 0 <= k < |Cells(bricks, n, firstEntity)| && Cells(bricks, n, firstEntity)[k].cell == c
  {
    var before := Cells(bricks, n - 1, firstEntity);
    if c < n - 1 {
      CellsCover(bricks, n - 1, firstEntity, c);
      var k :| 0 <= k < |before| && before[k].cell == c;
      assert Cells(bricks, n, firstEntity)[k] == before[k];
    } else {
      assert Cells(bricks, n, firstEntity)[|before|].cell == c;
    }
  }

  /** The brick `build_level` creates for column `x` of row `y` is the one `Place`
      describes for that cell. */
  lemma PlaceAt(x: nat, y: nat, entity: Entity, t: Brick.BrickType)
    requires x < GridSize
    ensures PlacedBrick(entity, y * GridSize + x,
                        Transform.New(Vec2(x as real * BrickSpriteWidth, BricksYOffset + y as real * BrickSpriteHeight),
                                      Zero, Vec2(1.0, 1.0)),
                        Brick.NewBrick(BrickHp(t)))
            == Place(entity, y * GridSize + x, t)
  {
    assert (y * GridSize + x) % GridSize == x && (y * GridSize + x) / GridSize == y;
  }

  /** One row of `build_level`'s grid walk: each non-air cell of row `y` gets the
      next entity, in column order. */
  method PlaceRow(bricks: seq<Brick.BrickType>, y: nat, firstEntity: Entity, placed: seq<PlacedBrick>, next: Entity)
    returns (placed': seq<PlacedBrick>, next': Entity)
    requires y < GridSize && CellCount <= |bricks|
    requires placed == Cells(bricks, y * GridSize, firstEntity) && next == firstEntity + |placed|
    ensures placed' == Cells(bricks, (y + 1) * GridSize, firstEntity) && next' == firstEntity + |placed'|
  {
    placed', next' := placed, next;
    var x := 0;
    while x < GridSize
      invariant 0 <= x <= GridSize
      invariant placed' == Cells(bricks, y * GridSize + x, firstEntity)
      invariant next' == firstEntity + |placed'|
    {
      var position := Vec2(x as real * BrickSpriteWidth, BricksYOffset + y as real * BrickSpriteHeight);
      var idx := y * GridSize + x;
      var brickType := bricks[idx];
      if brickType == Brick.Air {
        x := x + 1;
        continue;
      }
      var brickHp := match brickType
        case Grey => 0
        case Green => 1
        case Blue => 2
        case Red => 3
        case Purple => 4
        case _ => 2;
      PlaceAt(x, y, next', brickType);
      placed' := placed' + [PlacedBrick(next', idx, Transform.New(position, Zero, Vec2(1.0, 1.0)), Brick.NewBrick(brickHp))];
      next' := next' + 1;
      x := x + 1;
    }
  }

  /** `build_level` after the world is cleared. The paddle is the first new entity,
      centred 10 pixels above the bottom; one brick follows per non-air cell of
      the 16x16 grid, walked row by row; then the left, top and right walls. One
      ball is requested, held by the paddle, and the run state is set up for the
      level. A level with fewer than 256 cells panics in the source. */
  method BuildLevel(level: LevelState, asset: LevelAsset, first: Entity)
    returns (paddleEnt: Entity, paddlePosition: Vec2, placed: seq<PlacedBrick>,
             walls: seq<(Entity, Transform.TransformComponent)>, spawnBallEvent: Ball.SpawnBallEvent)
    requires CellCount <= |asset.bricks|
    modifies level
    ensures paddleEnt == first
    ensures paddlePosition == Vec2(old(level.levelWidth) as real / 2.0, old(level.levelHeight) as real - 10.0)
    ensures placed == Cells(asset.bricks, CellCount, first + 1)
    ensures |walls| == 3
    ensures walls[0] == (first + 1 + |placed|, Transform.Default().(position := Vec2(-20.0, 0.0)))
    ensures walls[1] == (first + 2 + |placed|, Transform.Default().(position := Vec2(0.0, -20.0)))
    ensures walls[2] == (first + 3 + |placed|, Transform.Default().(position := Vec2(old(level.levelWidth) as real + 20.0, 0.0)))
    ensures spawnBallEvent == Ball.SpawnBallEvent(
      Vec2(old(level.levelWidth) as real / 2.0, old(level.levelHeight) as real / 2.0), Vec2(2.5, -2.5), Some(paddleEnt))
    ensures level.level == asset.id && level.score == 0 && level.lives == PlayerDefaultBalls
    ensures level.playerPaddleEnt == Some(paddleEnt) && level.loadLevelEvent == None
    ensures level.levelWidth == old(level.levelWidth) && level.levelHeight == old(level.levelHeight)
  {
    var levelWidth, levelHeight := level.levelWidth, level.levelHeight;
    var next := first;

    // The player paddle.
    paddlePosition := Vec2(levelWidth as real / 2.0, levelHeight as real - 10.0);
    paddleEnt := next;
    next := next + 1;

    // The bricks.
    placed := [];
    var y := 0;
    while y < GridSize
      invariant 0 <= y <= GridSize
      invariant placed == Cells(asset.bricks, y * GridSize, first + 1)
      invariant next == first + 1 + |placed|
      modifies {}
    {
      placed, next := PlaceRow(asset.bricks, y, first + 1, placed, next);
      y := y + 1;
    }

    // The first ball, held by the paddle.
    spawnBallEvent := Ball.SpawnBallEvent(
      Vec2(levelWidth as real / 2.0, levelHeight as real / 2.0), Vec2(2.5, -2.5), Some(paddleEnt));

    // The walls.
    walls := [(next, Transform.Default().(position := Vec2(-20.0, 0.0)))];
    next := next + 1;
    walls := walls + [(next, Transform.Default().(position := Vec2(0.0, -20.0)))];
    next := next + 1;
    walls := walls + [(next, Transform.Default().(position := Vec2(levelWidth as real + 20.0, 0.0)))];

    level.Setup(asset.id, paddleEnt);
  }

  /** A built level has exactly one brick per non-air cell of its grid, standing
      at that cell's position with its type's hit points, and its bricks are the
      entities right after the paddle. */
  lemma BuiltBricks(bricks: seq<Brick.BrickType>, firstBrick: Entity, c: nat)
    requires CellCount <= |bricks| && c < CellCount
    ensures bricks[c] != Brick.Air <==>
      exists k :: 0 <= k < |Cells(bricks, CellCount, firstBrick)| && Cells(bricks, CellCount, firstBrick)[k].cell == c
    ensures forall j, k :: 0 <= j < k < |Cells(bricks, CellCount, firstBrick)| ==>
      Cells(bricks, CellCount, firstBrick)[j].cell != Cells(bricks, CellCount, firstBrick)[k].cell
    ensures forall k :: 0 <= k < |Cells(bricks, CellCount, firstBrick)| && Cells(bricks, CellCount, firstBrick)[k].cell == c ==>
      && Cells(bricks, CellCount, firstBrick)[k].brick.hp == BrickHp(bricks[c])
      && Cells(bricks, CellCount, firstBrick)[k].transform.position == CellPosition(c % GridSize, c / GridSize)
      && Cells(bricks, CellCount, firstBrick)[k].entity == firstBrick + k
  {
    CellsPlacedFrom(bricks, CellCount, firstBrick);
    CellsIncreasing(bricks, CellCount, firstBrick);
    if bricks[c] != Brick.Air {
      CellsCover(bricks, CellCount, firstBrick, c);
    }
  }
}
