/**
 * The vertex format and the mesh assembly of src/engine/asset_system/mesh.rs:
 * the `repr(C)` vertex of two `Vec3<f32>`, the vertex-input description the
 * pipeline is built with, and the chunk-and-zip that turns a loaded model's
 * flat position and normal arrays into vertices.
 */
module Mesh {
  import opened Vk
  import Bytes

  datatype Vec3 = Vec3(x: F32, y: F32, z: F32)

  /** `#[repr(C)] struct Vertex { position: Vec3, color: Vec3 }`. */
  datatype Vertex = Vertex(position: Vec3, color: Vec3)

  datatype Mesh = Mesh(vertices: seq<Vertex>, indices: seq<u32>)

  /** `size_of::<Vertex>()`: six packed `f32`. */
  const VERTEX_SIZE: nat := 24
  /** `offset_of!(Vertex, position)`, `offset_of!(Vertex, color)`. */
  const POSITION_OFFSET: nat := 0
  const COLOR_OFFSET: nat := 12
  const VERTEX_FORMAT: Format := R32G32B32Sfloat
  const TRIANGLE_VERTEX_COUNT: nat := 3

  // ---------------------------------------------------------------------------
  // Memory image of the vertex array

  function Vec3Words(v: Vec3): seq<u32> {
    [v.x, v.y, v.z]
  }

  function VertexWords(v: Vertex): seq<u32> {
    Vec3Words(v.position) + Vec3Words(v.color)
  }

  function VerticesWords(vs: seq<Vertex>): (ws: seq<u32>)
    ensures |ws| == 6 * |vs|
  {
    if vs == [] then [] else VertexWords(vs[0]) + VerticesWords(vs[1..])
  }

  /** The bytes `size_of_val(vertices)` covers, as the allocation receives them. */
  function VerticesBytes(vs: seq<Vertex>): (b: seq<byte>)
    ensures |b| == VERTEX_SIZE * |vs|
  {
    Bytes.WordsBytes(VerticesWords(vs))
  }

  function VerticesFromWords(ws: seq<u32>): (vs: seq<Vertex>)
    requires |ws| % 6 == 0
    ensures 6 * |vs| == |ws|
  {
    if ws == [] then []
    else [Vertex(Vec3(ws[0], ws[1], ws[2]), Vec3(ws[3], ws[4], ws[5]))] + VerticesFromWords(ws[6..])
  }

  /** Reading a vertex buffer back as `[Vertex]`. */
  function VerticesFromBytes(b: seq<byte>): seq<Vertex>
    requires |b| % VERTEX_SIZE == 0
  {
    VerticesFromWords(Bytes.WordsFromBytes(b))
  }

  lemma {:induction false} VerticesWordsRoundTrip(vs: seq<Vertex>)
    ensures VerticesFromWords(VerticesWords(vs)) == vs
  {
    if vs != [] {
      var ws := VerticesWords(vs);
      assert ws[6..] == VerticesWords(vs[1..]);
      VerticesWordsRoundTrip(vs[1..]);
    }
  }

  /** What is copied into a vertex buffer reads back as the same vertices. */
  lemma VerticesRoundTrip(vs: seq<Vertex>)
    ensures VerticesFromBytes(VerticesBytes(vs)) == vs
  {
    Bytes.WordsRoundTrip(VerticesWords(vs));
    VerticesWordsRoundTrip(vs);
  }

  lemma {:induction false} VerticesWordsAt(vs: seq<Vertex>, i: nat)
    requires i < |vs|
    ensures VerticesWords(vs)[6 * i .. 6 * i + 6] == VertexWords(vs[i])
  {
    var ws := VerticesWords(vs);
    if i == 0 {
      assert ws[..6] == VertexWords(vs[0]);
    } else {
      VerticesWordsAt(vs[1..], i - 1);
      assert ws[6..] == VerticesWords(vs[1..]);
      assert ws[6 * i .. 6 * i + 6] == ws[6..][6 * (i - 1) .. 6 * (i - 1) + 6];
    }
  }

  lemma {:induction false} WordsBytesPrefix(ws: seq<u32>, b: nat)
    requires b <= |ws|
    ensures Bytes.WordsBytes(ws)[..4 * b] == Bytes.WordsBytes(ws[..b])
  {
    if b > 0 {
      var rest := Bytes.WordsBytes(ws[1..]);
      WordsBytesPrefix(ws[1..], b - 1);
      assert ws[..b][1..] == ws[1..][..b - 1];
      assert Bytes.WordsBytes(ws)[..4 * b] == Bytes.WordBytes(ws[0]) + rest[..4 * (b - 1)];
    }
  }

  lemma {:induction false} WordsBytesSlice(ws: seq<u32>, a: nat, b: nat)
    requires a <= b <= |ws|
    ensures Bytes.WordsBytes(ws)[4 * a .. 4 * b] == Bytes.WordsBytes(ws[a..b])
  {
    if a == 0 {
      WordsBytesPrefix(ws, b);
      assert ws[a..b] == ws[..b];
    } else {
      var rest := Bytes.WordsBytes(ws[1..]);
      WordsBytesSlice(ws[1..], a - 1, b - 1);
      assert ws[1..][a - 1 .. b - 1] == ws[a..b];
      var bs := Bytes.WordsBytes(ws);
      assert bs[4..] == rest;
      assert bs[4 * a .. 4 * b] == bs[4..][4 * (a - 1) .. 4 * (b - 1)];
    }
  }

  /**
   * The layout the vertex-input attributes describe: vertex i occupies the
   * `VERTEX_SIZE` bytes from `i * VERTEX_SIZE`, its position at
   * `POSITION_OFFSET` and its colour at `COLOR_OFFSET`, 12 bytes each.
   */
  lemma VertexLayout(vs: seq<Vertex>, i: nat)
    requires i < |vs|
    ensures var b := VerticesBytes(vs);
            && b[VERTEX_SIZE * i + POSITION_OFFSET .. VERTEX_SIZE * i + POSITION_OFFSET + 12] == Bytes.WordsBytes(Vec3Words(vs[i].position))
            && b[VERTEX_SIZE * i + COLOR_OFFSET .. VERTEX_SIZE * i + COLOR_OFFSET + 12] == Bytes.WordsBytes(Vec3Words(vs[i].color))
  {
    var ws := VerticesWords(vs);
    VerticesWordsAt(vs, i);
    WordsBytesSlice(ws, 6 * i, 6 * i + 3);
    WordsBytesSlice(ws, 6 * i + 3, 6 * i + 6);
    var own := ws[6 * i .. 6 * i + 6];
    var position, color := Vec3Words(vs[i].position), Vec3Words(vs[i].color);
    assert own == position + color;
    assert ws[6 * i .. 6 * i + 3] == position by {
      forall k | 0 <= k < 3 ensures ws[6 * i .. 6 * i + 3][k] == position[k] {
        assert ws[6 * i + k] == own[k];
      }
    }
    assert ws[6 * i + 3 .. 6 * i + 6] == color by {
      forall k | 0 <= k < 3 ensures ws[6 * i + 3 .. 6 * i + 6][k] == color[k] {
        assert ws[6 * i + 3 + k] == own[3 + k];
      }
    }
  }

  // ---------------------------------------------------------------------------
  // VertexDescription::new

  datatype VertexDescription = VertexDescription(binding: VertexInputBinding, attributes: seq<VertexInputAttribute>)

  /** `create_attribute`: the attribute takes the current location, which then advances by one. */
  method CreateAttribute(binding: u32, offset: u32, format: Format, location: u32)
    returns (attribute: VertexInputAttribute, nextLocation: u32)
    requires location < U32_MAX
    ensures attribute.location == location && nextLocation == location + 1
    ensures attribute.binding == binding && attribute.format == format && attribute.offset == offset
  {
    attribute := VertexInputAttribute(location, binding, format, offset);
    nextLocation := location + 1;
  }

  /**
   * One per-vertex binding whose stride is the vertex size, and two attributes
   * on binding 0 at locations 0 and 1: the position and then the colour, both
   * three 32-bit floats.
   */
  method NewVertexDescription() returns (d: VertexDescription)
    ensures d.binding == VertexInputBinding(0, VERTEX_SIZE, PerVertex)
    ensures |d.attributes| == 2
    ensures forall i :: 0 <= i < 2 ==>
              d.attributes[i].location == i && d.attributes[i].binding == 0 && d.attributes[i].format == VERTEX_FORMAT
    ensures d.attributes[0].offset == POSITION_OFFSET && d.attributes[1].offset == COLOR_OFFSET
  {
    var binding := VertexInputBinding(0, VERTEX_SIZE, PerVertex);
    var attributes: seq<VertexInputAttribute> := [];
    var location: u32 := 0;
    var attribute;
    attribute, location := CreateAttribute(0, POSITION_OFFSET, VERTEX_FORMAT, location);
    attributes := attributes + [attribute];
    attribute, location := CreateAttribute(0, COLOR_OFFSET, VERTEX_FORMAT, location);
    attributes := attributes + [attribute];
    d := VertexDescription(binding, attributes);
  }

  // ---------------------------------------------------------------------------
  // Mesh::new

  /** The part of a `tobj` model the engine reads. */
  datatype Model = Model(positions: seq<F32>, normals: seq<F32>, indices: seq<u32>)

  datatype MeshLoad = Loaded(mesh: Mesh) | NoModelPanic

  function Min(a: int, b: int): int {
    if a <= b then a else b
  }

  /** `chunks_exact(3)` read as `Vec3`s; a trailing partial chunk is dropped. */
  function Chunks3(s: seq<F32>): (r: seq<Vec3>)
    ensures |r| == |s| / 3
  {
    if |s| < 3 then [] else [Vec3(s[0], s[1], s[2])] + Chunks3(s[3..])
  }

  /** Chunk i is the triple s[3i], s[3i+1], s[3i+2]. */
  lemma {:induction false} Chunks3At(s: seq<F32>, i: nat)
    requires i < |s| / 3
    ensures Chunks3(s)[i] == Vec3(s[3 * i], s[3 * i + 1], s[3 * i + 2])
  {
    if i > 0 {
      Chunks3At(s[3..], i - 1);
      var j := 3 * (i - 1);
      assert s[3..][j] == s[3 * i] && s[3..][j + 1] == s[3 * i + 1] && s[3..][j + 2] == s[3 * i + 2];
    }
  }

  /** `zip` into vertices; it stops at the shorter side. */
  function ZipVertices(positions: seq<Vec3>, colors: seq<Vec3>): (vs: seq<Vertex>)
    ensures |vs| == Min(|positions|, |colors|)
    ensures forall i :: 0 <= i < |vs| ==> vs[i] == Vertex(positions[i], colors[i])
  {
    if positions == [] || colors == [] then []
    else [Vertex(positions[0], colors[0])] + ZipVertices(positions[1..], colors[1..])
  }

  function AssembleVertices(positions: seq<F32>, normals: seq<F32>): seq<Vertex>
  {
    ZipVertices(Chunks3(positions), Chunks3(normals))
  }

  /**
   * Vertex i takes positions[3i..3i+3] as its position and normals[3i..3i+3]
   * as its colour, and there are as many vertices as the shorter array holds
   * whole triples.
   */
  lemma AssembleVerticesSpec(positions: seq<F32>, normals: seq<F32>)
    ensures var vs := AssembleVertices(positions, normals);
            && |vs| == Min(|positions| / 3, |normals| / 3)
            && forall i :: 0 <= i < |vs| ==>
                 vs[i].position == Vec3(positions[3 * i], positions[3 * i + 1], positions[3 * i + 2]) &&
                 vs[i].color == Vec3(normals[3 * i], normals[3 * i + 1], normals[3 * i + 2])
  {
    var vs := AssembleVertices(positions, normals);
    forall i | 0 <= i < |vs|
      ensures vs[i].position == Vec3(positions[3 * i], positions[3 * i + 1], positions[3 * i + 2])
      ensures vs[i].color == Vec3(normals[3 * i], normals[3 * i + 1], normals[3 * i + 2])
    {
      Chunks3At(positions, i);
      Chunks3At(normals, i);
    }
  }

  /** `models.remove(0)` panics on an empty list; only the first model is used. */
  function MeshFromModels(models: seq<Model>): (r: MeshLoad)
    ensures r.NoModelPanic? <==> models == []
    ensures r.Loaded? ==> r.mesh.indices == models[0].indices
    ensures r.Loaded? ==> r.mesh.vertices == AssembleVertices(models[0].positions, models[0].normals)
  {
    if models == [] then NoModelPanic
    else Loaded(Mesh(AssembleVertices(models[0].positions, models[0].normals), models[0].indices))
  }
}
