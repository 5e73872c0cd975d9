/** The sprite batch of gfx-lib/src/sprite.rs: a list of sprites and the quad mesh
    built from them, rebuilt only when the list has changed since the last build. */
module Sprite {
  import opened Geometry
  import opened Gfx

  /** Width and height, in pixels, of the sprite sheet the UVs are relative to. */
  const SpritesheetWidth: real := 256.0
  const SpritesheetHeight: real := 256.0

  datatype SpriteRenderData = SpriteRenderData(x: real, y: real, w: real, h: real, color: Color, region: SpriteRegion)

  datatype Vec3 = Vec3(x: real, y: real, z: real)

  datatype Vertex = Vertex(position: Vec3, color: Color, uv: Vec2)

  /** The four corners of one sprite, clockwise from the top left. */
  function Quad(s: SpriteRenderData): (vs: seq<Vertex>)
    ensures |vs| == 4
    ensures forall k :: 0 <= k < 4 ==> vs[k].color == s.color && vs[k].position.z == 0.0
    ensures vs[0].position.x == vs[3].position.x == s.x
    ensures vs[1].position.x == vs[2].position.x == s.x + s.w
    ensures vs[0].position.y == vs[1].position.y == s.y
    ensures vs[2].position.y == vs[3].position.y == s.y + s.h
  {
    var u := s.region.x as real / SpritesheetWidth;
    var v := s.region.y as real / SpritesheetHeight;
    var width := s.region.w as real / SpritesheetWidth;
    var height := s.region.h as real / SpritesheetHeight;
    [ Vertex(Vec3(s.x, s.y, 0.0), s.color, Vec2(u, v)),
      Vertex(Vec3(s.x + s.w, s.y, 0.0), s.color, Vec2(u + width, v)),
      Vertex(Vec3(s.x + s.w, s.y + s.h, 0.0), s.color, Vec2(u + width, v + height)),
      Vertex(Vec3(s.x, s.y + s.h, 0.0), s.color, Vec2(u, v + height)) ]
  }

  /** The two triangles of the quad whose first vertex is `base`. */
  function QuadIndices(base: nat): seq<nat>
  {
    [base, base + 1, base + 2, base + 2, base + 3, base]
  }

  /** The vertex buffer for a list of sprites: their quads, in order. */
  function MeshVertices(sprites: seq<SpriteRenderData>): seq<Vertex>
  {
    if sprites == [] then [] else MeshVertices(sprites[..|sprites| - 1]) + Quad(sprites[|sprites| - 1])
  }

  /** The index buffer for `n` sprites: each quad's triangles, offset by the
      number of vertices emitted before it. */
  function MeshIndices(n: nat): seq<nat>
  {
    if n == 0 then [] else MeshIndices(n - 1) + QuadIndices(4 * (n - 1))
  }

  /** A mesh for n sprites has 4n vertices ... */
  lemma {:induction false} MeshSizes(sprites: seq<SpriteRenderData>)
    ensures |MeshVertices(sprites)| == 4 * |sprites|
  {
    if sprites != [] {
      MeshSizes(sprites[..|sprites| - 1]);
    }
  }

  /** ... and 6n indices. */
  lemma {:induction false} IndicesLength(n: nat)
    ensures |MeshIndices(n)| == 6 * n
  {
    if n > 0 {
      IndicesLength(n - 1);
    }
  }

  /** Sprite i owns indices 6i .. 6i+5, and they are [4i, 4i+1, 4i+2, 4i+2, 4i+3, 4i]. */
  lemma {:induction false} IndicesOfSprite(n: nat, i: nat, j: nat)
    requires i < n && j < 6
    ensures |MeshIndices(n)| == 6 * n
    ensures MeshIndices(n)[6 * i + j] == QuadIndices(4 * i)[j]
  {
    IndicesLength(n);
    if i < n - 1 {
      IndicesOfSprite(n - 1, i, j);
    }
  }

  /** Every index refers to one of the mesh's 4n vertices. */
  lemma IndicesInRange(n: nat, k: nat)
    requires k < |MeshIndices(n)|
    ensures MeshIndices(n)[k] < 4 * n
  {
    IndicesLength(n);
    IndicesOfSprite(n, k / 6, k % 6);
    assert 6 * (k / 6) + k % 6 == k;
  }

  /** Sprite i's quad occupies vertices 4i .. 4i+3 of the mesh. */
  lemma {:induction false} VerticesOfSprite(sprites: seq<SpriteRenderData>, i: nat, j: nat)
    requires i < |sprites| && j < 4
    ensures |MeshVertices(sprites)| == 4 * |sprites|
    ensures MeshVertices(sprites)[4 * i + j] == Quad(sprites[i])[j]
  {
    MeshSizes(sprites);
    var n := |sprites|;
    if i < n - 1 {
      VerticesOfSprite(sprites[..n - 1], i, j);
    }
  }

  class SpriteBatch {
    var sprites: seq<SpriteRenderData>
    var isDirty: bool
    var vertices: seq<Vertex>
    var indices: seq<nat>

    /** `SpriteBatch::new`: empty and dirty, so the first build happens. The texture,
        descriptor set and GPU buffers it also takes are not modelled. */
    constructor ()
      ensures sprites == [] && isDirty && vertices == [] && indices == []
    {
      sprites := [];
      isDirty := true;
      vertices := [];
      indices := [];
    }

    /** `construct_mesh`: a clean batch is left alone; a dirty one has its mesh
        rebuilt from the sprites and becomes clean. */
    method ConstructMesh()
      modifies this
      ensures sprites == old(sprites)
      ensures !old(isDirty) ==> !isDirty && vertices == old(vertices) && indices == old(indices)
      ensures old(isDirty) ==> !isDirty && vertices == MeshVertices(sprites) && indices == MeshIndices(|sprites|)
    {
      if !isDirty {
        return;
      }
      vertices := [];
      indices := [];
      isDirty := false;
      var i := 0;
      while i < |sprites|
        invariant 0 <= i <= |sprites|
        invariant vertices == MeshVertices(sprites[..i])
        invariant indices == MeshIndices(i)
        invariant !isDirty && sprites == old(sprites)
      {
        MeshSizes(sprites[..i]);
        var vertexCount := |vertices|;
        vertices := vertices + Quad(sprites[i]);
        indices := indices + QuadIndices(vertexCount);
        assert sprites[..i + 1][..i] == sprites[..i];
        i := i + 1;
      }
      assert sprites[..i] == sprites;
    }

    /** `add`: appends exactly one sprite and marks the batch dirty. */
    method Add(x: real, y: real, w: real, h: real, region: SpriteRegion, color: Color)
      modifies this
      ensures sprites == old(sprites) + [SpriteRenderData(x, y, w, h, color, region)]
      ensures isDirty && vertices == old(vertices) && indices == old(indices)
    {
      isDirty := true;
      sprites := sprites + [SpriteRenderData(x, y, w, h, color, region)];
    }

    /** `clear`: drops every sprite and marks the batch dirty. */
    method Clear()
      modifies this
      ensures sprites == [] && isDirty
      ensures vertices == old(vertices) && indices == old(indices)
    {
      isDirty := true;
      sprites := [];
    }
  }
}
