/** The mutable state of a mesh of the assembly model that the explorer changes:
    its local position and its material slot. Everything else about a mesh
    (geometry, matrices) is read-only here and appears only as its effect. */
module Meshes {

  /** A point or a direction in three dimensions. */
  datatype Vec3 = Vec3(x: real, y: real, z: real)

  function Add(a: Vec3, b: Vec3): Vec3 {
    Vec3(a.x + b.x, a.y + b.y, a.z + b.z)
  }

  function Scale(v: Vec3, k: real): Vec3 {
    Vec3(k * v.x, k * v.y, k * v.z)
  }

  /** The materials a mesh can carry: one built from the catalog definition of
      that key, the built-in `steel_default`, the red debug material, or one the
      model came with. */
  datatype Material = Catalog(key: string) | SteelDefault | Debug | Loaded(id: nat)

  /** `mesh.material`: a single material or an array of them, one per geometry group. */
  datatype MaterialSlot = Single(material: Material) | Multi(materials: seq<Material>)

  class Mesh {
    var position: Vec3
    var material: MaterialSlot

    constructor (position: Vec3, material: MaterialSlot)
      ensures this.position == position && this.material == material
    {
      this.position := position;
      this.material := material;
    }
  }
}
