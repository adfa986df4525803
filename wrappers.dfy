/** Option and Result, the two failure-carrying shapes used throughout the model. */
module Wrappers {

  /** Python's `None` versus a present value. */
  datatype Option<+T> = None | Some(value: T)

  /** A value, or the exception that Python code would have raised instead. */
  datatype Result<+T, +E> = Ok(value: T) | Err(error: E)
}

/** The exceptions of the add-on that the model keeps; each aborts the running import. */
module Errors {
  datatype Error =
    | ResourcePathNotOneDot  // `path, name = path.split(".")` unpacks the wrong number of pieces
    | SlotIndexOutOfRange    // `mesh.material_slots.values()[index]` is out of range
    | NoMaterialSlot         // `obj.material_slots[0]` on a mesh without material slots
    | EmptySlot              // `target_material.name` on a slot that holds no material
    | NoNodeTree             // `material_slots[0].material.node_tree.nodes` with no material or no node tree there
    | MeshImportRaised       // the rig set-up or `armature.children[0]` after a successful PSK import raised
}
