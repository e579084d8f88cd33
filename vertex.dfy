/** The vertex record consumed by the line-list pipeline (src/vertex.rs).
    The two `[f32; 3]` fields are modelled as triples of reals. */
module VertexFormat {
  datatype Vec3 = Vec3(x: real, y: real, z: real)

  /** `Vertex { pos, color }`; `Vertex::new` is the datatype constructor. */
  datatype Vertex = Vertex(pos: Vec3, color: Vec3)
}
