/** Static geometry (src/shapes.rs): the reference grid as a line list and
    the indexed rainbow cube. */
module Shapes {
  import opened VertexFormat

  newtype i32 = x: int | -0x8000_0000 <= x < 0x8000_0000
  newtype u16 = x: int | 0 <= x < 0x1_0000

  const LightGray := Vec3(0.3, 0.3, 0.3)
  const DarkGray := Vec3(0.15, 0.15, 0.15)

  function Abs(i: int): nat { if i < 0 then -i else i }

  /** Every tenth line (by absolute index) is a major, lighter line. */
  function LineColor(i: int): Vec3 {
    if Abs(i) % 10 == 0 then LightGray else DarkGray
  }

  /** The four vertices pushed for line index `i`: a segment along the X axis
      at z = i*scale, then a segment along the Z axis at x = i*scale. */
  function GridBlock(i: int, length: real, scale: real): seq<Vertex> {
    var color := LineColor(i);
    var c := i as real * scale;
    [ Vertex(Vec3(-length, 0.0, c), color), Vertex(Vec3(length, 0.0, c), color),
      Vertex(Vec3(c, 0.0, -length), color), Vertex(Vec3(c, 0.0, length), color) ]
  }

  /** The blocks for line indices lo..=hi, in loop order. */
  function GridLines(lo: int, hi: int, length: real, scale: real): seq<Vertex>
    decreases hi - lo
  {
    if hi < lo then [] else GridLines(lo, hi - 1, length, scale) + GridBlock(hi, length, scale)
  }

  /** What `grid(size, scale)` returns: the blocks for -size..=size with
      half-length size*scale. */
  function GridSpec(size: int, scale: real): seq<Vertex> {
    GridLines(-size, size, size as real * scale, scale)
  }

  /** `grid`: one pass over -size..=size pushing four vertices per index.
      `-size` overflows i32 for i32::MIN, so that size is excluded. */
  method Grid(size: i32, scale: real) returns (vertices: seq<Vertex>)
    requires size as int != -0x8000_0000
    ensures vertices == GridSpec(size as int, scale)
  {
    vertices := [];
    var length := size as real * scale;
    var n := size as int;
    var i := -n;
    while i <= n
      invariant -n <= i && (i <= n + 1 || i == -n)
      invariant vertices == GridLines(-n, i - 1, length, scale)
      decreases n - i
    {
      ghost var before := vertices;
      var color := if Abs(i) % 10 == 0 then LightGray else DarkGray;
      var c := i as real * scale;
      vertices := vertices + [Vertex(Vec3(-length, 0.0, c), color)];
      vertices := vertices + [Vertex(Vec3(length, 0.0, c), color)];
      vertices := vertices + [Vertex(Vec3(c, 0.0, -length), color)];
      vertices := vertices + [Vertex(Vec3(c, 0.0, length), color)];
      assert vertices == before + GridBlock(i, length, scale);
      i := i + 1;
    }
  }

  lemma {:induction false} GridLinesLength(lo: int, hi: int, length: real, scale: real)
    ensures |GridLines(lo, hi, length, scale)| == if hi < lo then 0 else 4 * (hi - lo + 1)
    decreases hi - lo
  {
    if lo <= hi {
      GridLinesLength(lo, hi - 1, length, scale);
    }
  }

  /** Vertex j of the lines lo..=hi is vertex j % 4 of the block for index lo + j / 4. */
  lemma {:induction false} GridLinesAt(lo: int, hi: int, length: real, scale: real, j: int)
    requires 0 <= j < |GridLines(lo, hi, length, scale)|
    ensures lo <= lo + j / 4 <= hi
    ensures GridLines(lo, hi, length, scale)[j] == GridBlock(lo + j / 4, length, scale)[j % 4]
    decreases hi - lo
  {
    GridLinesLength(lo, hi, length, scale);
    GridLinesLength(lo, hi - 1, length, scale);
    var prefix := GridLines(lo, hi - 1, length, scale);
    if j < |prefix| {
      GridLinesAt(lo, hi - 1, length, scale, j);
    } else {
      assert j / 4 == hi - lo;
    }
  }

  /** `grid(size, scale)` returns 4*(2*size+1) vertices, none for a negative size. */
  lemma GridVertexCount(size: int, scale: real)
    ensures |GridSpec(size, scale)| == if size < 0 then 0 else 4 * (2 * size + 1)
  {
    GridLinesLength(-size, size, size as real * scale, scale);
  }

  /** Every vertex of the grid lies in the plane y = 0. */
  lemma GridIsFlat(size: int, scale: real)
    ensures forall j :: 0 <= j < |GridSpec(size, scale)| ==> GridSpec(size, scale)[j].pos.y == 0.0
  {
    var g := GridSpec(size, scale);
    forall j | 0 <= j < |g| ensures g[j].pos.y == 0.0 {
      GridLinesAt(-size, size, size as real * scale, scale, j);
    }
  }

  /** Block k (vertices 4k..4k+3) is the block for index i = -size + k: with
      L = size*scale and c = i*scale it is (-L,0,c), (L,0,c), (c,0,-L), (c,0,L),
      all four in light gray exactly when |i| % 10 == 0 and dark gray otherwise. */
  lemma GridBlockShape(size: int, scale: real, k: int)
    requires 0 <= k < 2 * size + 1
    ensures |GridSpec(size, scale)| >= 4 * k + 4
    ensures var g, i, len := GridSpec(size, scale), -size + k, size as real * scale;
      var c := i as real * scale;
      var color := if Abs(i) % 10 == 0 then LightGray else DarkGray;
      && g[4 * k] == Vertex(Vec3(-len, 0.0, c), color)
      && g[4 * k + 1] == Vertex(Vec3(len, 0.0, c), color)
      && g[4 * k + 2] == Vertex(Vec3(c, 0.0, -len), color)
      && g[4 * k + 3] == Vertex(Vec3(c, 0.0, len), color)
  {
    var len := size as real * scale;
    GridLinesLength(-size, size, len, scale);
    var g, block := GridSpec(size, scale), GridBlock(-size + k, len, scale);
    assert g[4 * k] == block[0] by {
      GridLinesAt(-size, size, len, scale, 4 * k);
    }
    assert g[4 * k + 1] == block[1] by {
      assert (4 * k + 1) / 4 == k;
      GridLinesAt(-size, size, len, scale, 4 * k + 1);
    }
    assert g[4 * k + 2] == block[2] by {
      assert (4 * k + 2) / 4 == k;
      GridLinesAt(-size, size, len, scale, 4 * k + 2);
    }
    assert g[4 * k + 3] == block[3] by {
      assert (4 * k + 3) / 4 == k;
      GridLinesAt(-size, size, len, scale, 4 * k + 3);
    }
  }

  /** Consecutive pairs form the line list's segments. Each segment spans one
      axis symmetrically: its endpoints share the colour and agree in every
      coordinate except one, which is negated (the x coordinate for even
      segments, the z coordinate for odd ones). */
  lemma GridSegmentsSymmetric(size: int, scale: real, m: int)
    requires 0 <= 2 * m + 1 < |GridSpec(size, scale)|
    ensures var a, b := GridSpec(size, scale)[2 * m], GridSpec(size, scale)[2 * m + 1];
      && a.color == b.color && a.pos.y == b.pos.y == 0.0
      && (if m % 2 == 0 then b.pos.x == -a.pos.x && b.pos.z == a.pos.z
          else b.pos.z == -a.pos.z && b.pos.x == a.pos.x)
  {
    GridVertexCount(size, scale);
    var k := m / 2;
    GridBlockShape(size, scale, k);
    if m % 2 == 0 {
      assert 2 * m == 4 * k;
    } else {
      assert 2 * m == 4 * k + 2;
    }
  }

  /** `rainbow_cube`: eight corners of the cube [-1,1]^3 and twelve triangles
      given as 36 indices, each naming one of the eight vertices. */
  function RainbowCube(): (r: (seq<Vertex>, seq<u16>))
    ensures |r.0| == 8 && |r.1| == 36
    ensures forall k :: 0 <= k < |r.1| ==> r.1[k] as int < |r.0|
    ensures forall v :: v in r.0 ==> v.pos.x in {-1.0, 1.0} && v.pos.y in {-1.0, 1.0} && v.pos.z in {-1.0, 1.0}
  {
    var vertices := [
      Vertex(Vec3(-1.0, -1.0, -1.0), Vec3(0.0, 1.0, 1.0)),
      Vertex(Vec3(1.0, -1.0, -1.0), Vec3(1.0, 0.0, 1.0)),
      Vertex(Vec3(1.0, 1.0, -1.0), Vec3(1.0, 1.0, 0.0)),
      Vertex(Vec3(-1.0, 1.0, -1.0), Vec3(0.0, 1.0, 1.0)),
      Vertex(Vec3(-1.0, -1.0, 1.0), Vec3(1.0, 0.0, 1.0)),
      Vertex(Vec3(1.0, -1.0, 1.0), Vec3(1.0, 1.0, 0.0)),
      Vertex(Vec3(1.0, 1.0, 1.0), Vec3(0.0, 1.0, 1.0)),
      Vertex(Vec3(-1.0, 1.0, 1.0), Vec3(1.0, 0.0, 1.0))
    ];
    var indices: seq<u16> := [
      0, 1, 3, 3, 1, 2, 1, 5, 2, 2, 5, 6, 5, 4, 6, 6, 4, 7, 4, 0, 7, 7, 0, 3, 3, 2, 7, 7, 2, 6,
      4, 5, 0, 0, 5, 1
    ];
    (vertices, indices)
  }
}
