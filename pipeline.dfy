/**
 * The import pipeline: `Utils.import_material` (reuse by name, copy, rebuild),
 * `create_outline_material` and the part loop of `import_response`.
 * Blender's data is a `World` value: materials by their (unique) name, the
 * material-slot names of each imported mesh, and the image cache. The PSK
 * importer, the disk and Blender's choice of a new material's name are the
 * oracles of `Host`.
 */
module Pipeline {
  import opened Wrappers
  import opened Errors
  import opened Text
  import opened Rules
  import opened RuleTables
  import opened Paths
  import opened Shading

  /**
   * A material: whether it uses nodes, whether it has a node tree (one made by
   * `bpy.data.materials.new` has none), and its toon-shader group node.
   */
  datatype Material = Material(useNodes: bool, hasTree: bool, shader: Shader)

  /** A material slot: the name of the material it holds, or `None` when it is empty. */
  type SlotName = Option<string>

  datatype World = World(materials: map<string, Material>, meshes: seq<seq<SlotName>>, images: map<string, Image>)

  /** What the PSK importer leaves behind: the new mesh's material slots and the materials it created. */
  datatype ImportedMesh = ImportedMesh(slots: seq<SlotName>, created: map<string, Material>)

  /**
   * The result of `Utils.import_mesh` and `Utils.mesh_from_armature` together:
   * the importer failed (`None`), the mesh of the new armature, or an
   * exception raised after a successful import (the rig set-up of lines
   * 112-116 or `armature.children[0]`).
   */
  datatype MeshImport = NotImported | Imported(mesh: ImportedMesh) | ImportRaised

  /**
   * The oracles: the disk, the importer, the name `bpy.data.materials.new`
   * gives, and the suffix Blender appends (after a `.`) to keep a renamed
   * material's name unique.
   */
  datatype Host = Host(
    onDisk: string -> bool,
    importMesh: string -> MeshImport,
    newMaterialName: map<string, Material> -> string,
    copySuffix: (map<string, Material>, string) -> string)

  datatype Part = Part(partType: string, meshPath: string, materials: seq<MaterialData>, overrides: seq<MaterialData>)

  /** The decoded job: `AssetsRoot`, `Settings.UseIk` and `Data` (name, type, parts). */
  datatype Response = Response(assetsRoot: string, useIk: bool, name: string, kind: string, parts: seq<Part>)

  /** A world and the exception that stopped the step, if any. */
  datatype Step = Step(world: World, error: Option<Error>)

  /** Python list indexing: negative indices count from the end. */
  function SlotOf(n: nat, index: int): (r: Option<nat>)
    ensures r.Some? <==> -(n as int) <= index < n
    ensures r.Some? ==> r.value < n && (r.value == index || r.value == n + index)
  {
    if 0 <= index < n then Some(index as nat)
    else if -(n as int) <= index < 0 then Some((n + index) as nat)
    else None
  }

  /** Slot `i` of mesh `k` holds `name`; everything else is as before. */
  function SetSlot(meshes: seq<seq<SlotName>>, k: nat, i: nat, name: string): seq<seq<SlotName>>
    requires k < |meshes| && i < |meshes[k]|
  {
    meshes[k := meshes[k][i := Some(name)]]
  }

  /** Every mesh has the same number of slots in both worlds. */
  predicate SameShape(a: seq<seq<SlotName>>, b: seq<seq<SlotName>>)
  {
    |a| == |b| && forall j :: 0 <= j < |a| ==> |a[j]| == |b[j]|
  }

  /** Line 138: a material of exactly this name exists and already uses nodes. */
  predicate Reusable(materials: map<string, Material>, name: string)
  {
    name in materials && materials[name].useNodes
  }

  /**
   * Line 145, `target_material.name = material_name`: the copy takes the name
   * asked for when no material has it, and otherwise that name, a `.` and a
   * suffix Blender picks (`.001`, `.002`, ...). Only an unused name keeps
   * the same case fold as the one asked for.
   */
  function CopyName(materials: map<string, Material>, name: string, host: Host): (n: string)
    ensures name !in materials ==> n == name
    ensures name in materials ==> StartsWith(n, name + ".")
    ensures Fold(n) == Fold(name) <==> name !in materials
  {
    if name in materials then
      var n := name + "." + host.copySuffix(materials, name);
      assert n[..|name| + 1] == name + ".";
      assert |Fold(n)| != |Fold(name)|;
      n
    else name
  }

  /** Blender's guarantee for a renamed copy: the name it ends up with is not taken. */
  predicate FreshCopyName(materials: map<string, Material>, name: string, host: Host)
  {
    CopyName(materials, name, host) !in materials || name !in materials
  }

  /** A slot's material named after `name`: the same case fold, or Blender's suffixed variant of it. */
  predicate NamedAfter(v: string, name: string)
  {
    Fold(v) == Fold(name) || StartsWith(v, name + ".")
  }

  /**
   * Lines 141-145: the material that is rebuilt when the slot holds `current`,
   * that material itself when the names agree ignoring case, and otherwise a
   * copy named by `CopyName`.
   */
  function Rebuilt(current: string, name: string, materials: map<string, Material>, host: Host): (target: string)
    ensures NamedAfter(target, name)
    ensures Fold(target) == Fold(name) <==> Fold(current) == Fold(name) || name !in materials
    ensures Fold(current) == Fold(name) ==> target == current
    ensures Fold(current) != Fold(name) && name !in materials ==> target == name
    ensures Fold(current) != Fold(name) && name in materials ==> StartsWith(target, name + ".") && target != name
  {
    if Fold(current) != Fold(name) then CopyName(materials, name, host) else current
  }

  /**
   * `Utils.import_material` on slot `md.slotIndex` of mesh `k`. A material of
   * that exact name that already uses nodes is bound as it is. Otherwise the
   * slot's material is edited in place when its name matches ignoring case,
   * and else copied first (so a shared material is not corrupted) and the
   * copy renamed, uniquely; either way it gets nodes and its node tree is rebuilt from
   * the parameters, as far as the parameter loops get before an exception.
   */
  function MaterialImport(w: World, k: nat, md: MaterialData, t: Tables, root: string, host: Host): (r: Step)
    requires k < |w.meshes| && t.Valid()
    ensures r.world.images == w.images && SameShape(r.world.meshes, w.meshes)
    ensures forall j :: 0 <= j < |w.meshes| && j != k ==> r.world.meshes[j] == w.meshes[j]
    ensures SlotOf(|w.meshes[k]|, md.slotIndex).None? ==> r == Step(w, Some(SlotIndexOutOfRange))
    ensures SlotOf(|w.meshes[k]|, md.slotIndex).Some? ==>
      var i := SlotOf(|w.meshes[k]|, md.slotIndex).value;
      forall j, x :: 0 <= j < |w.meshes| && 0 <= x < |w.meshes[j]| && (j != k || x != i) ==>
        r.world.meshes[j][x] == w.meshes[j][x]
    ensures SlotOf(|w.meshes[k]|, md.slotIndex).Some? && Reusable(w.materials, md.materialName) ==>
      r.error.None? && r.world.materials == w.materials &&
      r.world.meshes[k][SlotOf(|w.meshes[k]|, md.slotIndex).value] == Some(md.materialName)
    ensures SlotOf(|w.meshes[k]|, md.slotIndex).Some? && !Reusable(w.materials, md.materialName) ==>
      var i := SlotOf(|w.meshes[k]|, md.slotIndex).value;
      w.meshes[k][i].None? ==> r == Step(w, Some(EmptySlot))
    ensures SlotOf(|w.meshes[k]|, md.slotIndex).Some? && !Reusable(w.materials, md.materialName) ==>
      var i := SlotOf(|w.meshes[k]|, md.slotIndex).value;
      w.meshes[k][i].Some? ==>
        var target := Rebuilt(w.meshes[k][i].value, md.materialName, w.materials, host);
        var built := BuildShader(t, md, Resources(root, w.images, host.onDisk));
        && r.world.meshes[k][i] == Some(target)
        && r.world.materials == w.materials[target := Material(true, true, built.shader)]
        && r.error == built.error
  {
    match SlotOf(|w.meshes[k]|, md.slotIndex)
    case None => Step(w, Some(SlotIndexOutOfRange))
    case Some(i) =>
      var name := md.materialName;
      if Reusable(w.materials, name) then
        Step(w.(meshes := SetSlot(w.meshes, k, i, name)), None)
      else
        match w.meshes[k][i]
        case None => Step(w, Some(EmptySlot))
        case Some(current) =>
          var target := Rebuilt(current, name, w.materials, host);
          var built := BuildShader(t, md, Resources(root, w.images, host.onDisk));
          Step(World(w.materials[target := Material(true, true, built.shader)], SetSlot(w.meshes, k, i, target), w.images),
               built.error)
  }

  /**
   * A second import of the same material data is harmless once the slot holds
   * a material named exactly like it, which a copy gives when that name was
   * free: reuse by name binds it as it is, even when the first import raised
   * while rebuilding.
   */
  lemma SecondImportReuses(w: World, k: nat, md: MaterialData, t: Tables, root: string, host: Host)
    requires k < |w.meshes| && t.Valid()
    requires SlotOf(|w.meshes[k]|, md.slotIndex).Some?
    ensures var i := SlotOf(|w.meshes[k]|, md.slotIndex).value;
      var r := MaterialImport(w, k, md, t, root, host);
      && (w.meshes[k][i].Some? && Fold(w.meshes[k][i].value) != Fold(md.materialName) && md.materialName !in w.materials ==>
            r.world.meshes[k][i] == Some(md.materialName))
      && (r.world.meshes[k][i] == Some(md.materialName) ==>
            MaterialImport(r.world, k, md, t, root, host) == Step(r.world, None))
  {
    var i := SlotOf(|w.meshes[k]|, md.slotIndex).value;
    var r := MaterialImport(w, k, md, t, root, host);
    if r.world.meshes[k][i] == Some(md.materialName) {
      assert Reusable(r.world.materials, md.materialName);
      assert r.world.meshes[k][i := Some(md.materialName)] == r.world.meshes[k];
      assert SetSlot(r.world.meshes, k, i, md.materialName) == r.world.meshes;
    }
  }

  /**
   * The add-on's usual case: slot 0 holds the outline material and the
   * importer's own material already has the name asked for, without nodes.
   * The copy then gets a suffixed name, the importer's material is left as it
   * was, and importing the same data again makes one more copy instead of
   * reusing the first (a different one, since Blender's names are fresh).
   */
  lemma TakenNameCopiesAgain(w: World, k: nat, md: MaterialData, t: Tables, root: string, host: Host)
    requires k < |w.meshes| && t.Valid()
    requires SlotOf(|w.meshes[k]|, md.slotIndex).Some?
    requires var slot := w.meshes[k][SlotOf(|w.meshes[k]|, md.slotIndex).value];
      slot.Some? && Fold(slot.value) != Fold(md.materialName)
    requires md.materialName in w.materials && !w.materials[md.materialName].useNodes
    ensures var i := SlotOf(|w.meshes[k]|, md.slotIndex).value;
      var r := MaterialImport(w, k, md, t, root, host);
      var again := MaterialImport(r.world, k, md, t, root, host);
      && r.world.meshes[k][i] == Some(CopyName(w.materials, md.materialName, host))
      && StartsWith(r.world.meshes[k][i].value, md.materialName + ".")
      && r.world.materials[md.materialName] == w.materials[md.materialName]
      && again.world.meshes[k][i] == Some(CopyName(r.world.materials, md.materialName, host))
      && (FreshCopyName(r.world.materials, md.materialName, host) ==> again.world.meshes[k][i] != r.world.meshes[k][i])
  {
    var i := SlotOf(|w.meshes[k]|, md.slotIndex).value;
    var name := md.materialName;
    var r := MaterialImport(w, k, md, t, root, host);
    var copy := CopyName(w.materials, name, host);
    assert copy != name;
    assert r.world.meshes[k][i] == Some(copy);
    assert r.world.materials[name] == w.materials[name];
    assert !Reusable(r.world.materials, name);
    assert Fold(copy) != Fold(name);
    assert copy in r.world.materials;
  }

  /**
   * When the names differ, the slot's previous material is left untouched:
   * only its copy is rebuilt (Blender's fresh naming keeps the copy apart).
   */
  lemma CopyLeavesOriginal(w: World, k: nat, md: MaterialData, t: Tables, root: string, host: Host)
    requires k < |w.meshes| && t.Valid()
    requires SlotOf(|w.meshes[k]|, md.slotIndex).Some?
    requires var slot := w.meshes[k][SlotOf(|w.meshes[k]|, md.slotIndex).value];
      slot.Some? && Fold(slot.value) != Fold(md.materialName) && slot.value in w.materials
    requires FreshCopyName(w.materials, md.materialName, host)
    ensures var original := w.meshes[k][SlotOf(|w.meshes[k]|, md.slotIndex).value].value;
      var r := MaterialImport(w, k, md, t, root, host);
      original in r.world.materials && r.world.materials[original] == w.materials[original]
  {
    var original := w.meshes[k][SlotOf(|w.meshes[k]|, md.slotIndex).value].value;
    assert original != md.materialName;
    assert Rebuilt(original, md.materialName, w.materials, host) != original;
  }

  /** The materials of one list, in order, stopping at the first exception. */
  function MaterialsImport(w: World, k: nat, mds: seq<MaterialData>, t: Tables, root: string, host: Host): (r: Step)
    requires k < |w.meshes| && t.Valid()
    ensures r.world.images == w.images && SameShape(r.world.meshes, w.meshes)
    ensures forall j :: 0 <= j < |w.meshes| && j != k ==> r.world.meshes[j] == w.meshes[j]
    decreases |mds|
  {
    if mds == [] then Step(w, None)
    else
      var s := MaterialImport(w, k, mds[0], t, root, host);
      if s.error.Some? then s else MaterialsImport(s.world, k, mds[1..], t, root, host)
  }

  lemma {:induction false} MaterialsImportSnoc(w: World, k: nat, mds: seq<MaterialData>, md: MaterialData, t: Tables, root: string, host: Host)
    requires k < |w.meshes| && t.Valid()
    ensures var s := MaterialsImport(w, k, mds, t, root, host);
      MaterialsImport(w, k, mds + [md], t, root, host) ==
        if s.error.Some? then s else MaterialImport(s.world, k, md, t, root, host)
    decreases |mds|
  {
    if mds == [] {
      assert ([] + [md])[1..] == [];
    } else {
      assert (mds + [md])[0] == mds[0];
      assert (mds + [md])[1..] == mds[1..] + [md];
      var s := MaterialImport(w, k, mds[0], t, root, host);
      if s.error.None? {
        MaterialsImportSnoc(s.world, k, mds[1..], md, t, root, host);
      }
    }
  }

  /** The name of the last material in the list that targets slot `i` of a mesh with `n` slots. */
  function LastTarget(mds: seq<MaterialData>, n: nat, i: nat): Option<string>
    decreases |mds|
  {
    if mds == [] then None
    else if SlotOf(n, mds[|mds| - 1].slotIndex) == Some(i) then Some(mds[|mds| - 1].materialName)
    else LastTarget(mds[..|mds| - 1], n, i)
  }

  /**
   * Last write wins per slot: after a list applies without an exception, each
   * slot holds a material named after the last entry targeting it (the same
   * name ignoring case, or Blender's suffixed variant when the name was
   * taken), and a slot no entry targets keeps its material.
   */
  lemma {:induction false} MaterialsLastWins(w: World, k: nat, mds: seq<MaterialData>, t: Tables, root: string, host: Host, i: nat)
    requires k < |w.meshes| && t.Valid() && i < |w.meshes[k]|
    requires MaterialsImport(w, k, mds, t, root, host).error.None?
    ensures var r := MaterialsImport(w, k, mds, t, root, host);
      match LastTarget(mds, |w.meshes[k]|, i)
      case Some(name) => r.world.meshes[k][i].Some? && NamedAfter(r.world.meshes[k][i].value, name)
      case None => r.world.meshes[k][i] == w.meshes[k][i]
    decreases |mds|
  {
    if mds != [] {
      var init, last := mds[..|mds| - 1], mds[|mds| - 1];
      assert mds == init + [last];
      MaterialsImportSnoc(w, k, init, last, t, root, host);
      MaterialsLastWins(w, k, init, t, root, host, i);
      MaterialImportOnSlot(MaterialsImport(w, k, init, t, root, host).world, k, last, t, root, host, i);
    }
  }

  /** One material on slot `i`: a clean import names it after the material; another slot keeps it. */
  lemma MaterialImportOnSlot(w: World, k: nat, md: MaterialData, t: Tables, root: string, host: Host, i: nat)
    requires k < |w.meshes| && t.Valid() && i < |w.meshes[k]|
    ensures var r := MaterialImport(w, k, md, t, root, host);
      && (SlotOf(|w.meshes[k]|, md.slotIndex) != Some(i) ==> r.world.meshes[k][i] == w.meshes[k][i])
      && (SlotOf(|w.meshes[k]|, md.slotIndex) == Some(i) && r.error.None? ==>
            r.world.meshes[k][i].Some? && NamedAfter(r.world.meshes[k][i].value, md.materialName))
  {
  }

  /** The outline material's name. */
  const OutlineName: string := "MHUR_Outline"

  /** Line 280, `bpy.data.materials.new`: the materials with the new outline material, which has no node tree yet. */
  function WithOutline(materials: map<string, Material>, host: Host): (r: map<string, Material>)
    ensures r.Keys == materials.Keys + {host.newMaterialName(materials)}
    ensures r[host.newMaterialName(materials)] == Material(false, false, Cleared)
    ensures forall n :: n in materials && n != host.newMaterialName(materials) ==> r[n] == materials[n]
  {
    materials[host.newMaterialName(materials) := Material(false, false, Cleared)]
  }

  /** Line 283 needs slot 0 to hold a material that has a node tree. */
  predicate HasNodeTree(materials: map<string, Material>, slot: SlotName)
  {
    slot.Some? && slot.value in materials && materials[slot.value].hasTree
  }

  /**
   * `create_outline_material`: a new material (Blender names it after
   * "MHUR_Outline", made unique) is created first; then slot 0's material
   * must have a node tree (its emission nodes are not modelled), and the new
   * material is appended as one more slot and also put in slot 0. A mesh
   * without material slots makes `material_slots[0]` raise, and so does an
   * empty slot 0 or one whose material has no node tree; the new material
   * exists by then.
   */
  function OutlineCreation(w: World, k: nat, host: Host): (r: Step)
    requires k < |w.meshes|
    ensures r.world.images == w.images && |r.world.meshes| == |w.meshes|
    ensures r.world.materials == WithOutline(w.materials, host)
    ensures r.error == Some(NoMaterialSlot) <==> |w.meshes[k]| == 0
    ensures r.error == Some(NoNodeTree) <==> |w.meshes[k]| > 0 && !HasNodeTree(WithOutline(w.materials, host), w.meshes[k][0])
    ensures r.error.Some? ==> r.world.meshes == w.meshes && (r.error == Some(NoMaterialSlot) || r.error == Some(NoNodeTree))
    ensures r.error.None? ==>
      var outline := host.newMaterialName(w.materials);
      && |r.world.meshes[k]| == |w.meshes[k]| + 1
      && r.world.meshes[k][0] == Some(outline) && r.world.meshes[k][|w.meshes[k]|] == Some(outline)
      && (forall x :: 0 < x < |w.meshes[k]| ==> r.world.meshes[k][x] == w.meshes[k][x])
      && (forall j :: 0 <= j < |w.meshes| && j != k ==> r.world.meshes[j] == w.meshes[j])
  {
    var materials := WithOutline(w.materials, host);
    if |w.meshes[k]| == 0 then Step(w.(materials := materials), Some(NoMaterialSlot))
    else if !HasNodeTree(materials, w.meshes[k][0]) then Step(w.(materials := materials), Some(NoNodeTree))
    else
      var outline := host.newMaterialName(w.materials);
      var slots := (w.meshes[k] + [Some(outline)])[0 := Some(outline)];
      Step(World(materials, w.meshes[k := slots], w.images), None)
  }

  /** The job's progress through its parts: the world, the `imported_parts` map and the exception, if any. */
  datatype Progress = Progress(world: World, imported: map<string, nat>, error: Option<Error>)

  /** The mesh file the importer is given for a part. */
  function MeshFile(root: string, p: Part, host: Host): string
  {
    ResolveMesh(root, p.meshPath, host.onDisk)
  }

  /** A part's materials and then its override materials, on mesh `k`, stopping at the first exception. */
  function PartMaterials(w: World, k: nat, p: Part, t: Tables, root: string, host: Host): (r: Step)
    requires k < |w.meshes| && t.Valid()
    ensures r.world.images == w.images && SameShape(r.world.meshes, w.meshes)
    ensures forall j :: 0 <= j < |w.meshes| && j != k ==> r.world.meshes[j] == w.meshes[j]
  {
    var s1 := MaterialsImport(w, k, p.materials, t, root, host);
    if s1.error.Some? then s1 else MaterialsImport(s1.world, k, p.overrides, t, root, host)
  }

  /**
   * Lines 263-276 for a mesh that imported: record it, add the outline, apply
   * the materials. The outline's exceptions and the material exceptions are
   * told apart by `MaterialError`.
   */
  function NewPart(w: World, imported: map<string, nat>, p: Part, m: ImportedMesh, t: Tables, root: string, host: Host): (r: Progress)
    requires t.Valid()
    ensures r.world.images == w.images
    ensures r.imported == imported[p.partType := |w.meshes|]
    ensures |r.world.meshes| == |w.meshes| + 1
    ensures forall j :: 0 <= j < |w.meshes| ==> r.world.meshes[j] == w.meshes[j]
    ensures r.error == Some(NoMaterialSlot) <==> |m.slots| == 0
    ensures r.error == Some(NoNodeTree) <==>
      |m.slots| > 0 && !HasNodeTree(WithOutline(w.materials + m.created, host), m.slots[0])
    ensures r.error.Some? && r.error != Some(NoMaterialSlot) && r.error != Some(NoNodeTree) ==> MaterialError(r.error.value)
    ensures r.error != Some(NoMaterialSlot) && r.error != Some(NoNodeTree) ==>
      |r.world.meshes[|w.meshes|]| == |m.slots| + 1
  {
    var k := |w.meshes|;
    var w1 := World(w.materials + m.created, w.meshes + [m.slots], w.images);
    var recorded := imported[p.partType := k];
    var o := OutlineCreation(w1, k, host);
    if o.error.Some? then Progress(o.world, recorded, o.error)
    else
      var s := PartMaterials(o.world, k, p, t, root, host);
      assert s.error.Some? ==> MaterialError(s.error.value) by { PartMaterialsRaiseOnlyMaterialErrors(o.world, k, p, t, root, host); }
      Progress(s.world, recorded, s.error)
  }

  /** The exceptions `import_material` can raise: a bad slot index, an empty slot, a bad texture path. */
  predicate MaterialError(e: Error)
  {
    e == SlotIndexOutOfRange || e == EmptySlot || e == ResourcePathNotOneDot
  }

  /** A part's material lists raise only material exceptions, never the outline's. */
  lemma PartMaterialsRaiseOnlyMaterialErrors(w: World, k: nat, p: Part, t: Tables, root: string, host: Host)
    requires k < |w.meshes| && t.Valid()
    ensures PartMaterials(w, k, p, t, root, host).error.Some? ==> MaterialError(PartMaterials(w, k, p, t, root, host).error.value)
  {
    MaterialsRaiseOnlyMaterialErrors(w, k, p.materials, t, root, host);
    var s1 := MaterialsImport(w, k, p.materials, t, root, host);
    if s1.error.None? {
      MaterialsRaiseOnlyMaterialErrors(s1.world, k, p.overrides, t, root, host);
    }
  }

  lemma {:induction false} MaterialsRaiseOnlyMaterialErrors(w: World, k: nat, mds: seq<MaterialData>, t: Tables, root: string, host: Host)
    requires k < |w.meshes| && t.Valid()
    ensures MaterialsImport(w, k, mds, t, root, host).error.Some? ==> MaterialError(MaterialsImport(w, k, mds, t, root, host).error.value)
    decreases |mds|
  {
    if mds != [] {
      var s := MaterialImport(w, k, mds[0], t, root, host);
      TexturesRaiseOnlyBadPaths(t, mds[0], Resources(root, w.images, host.onDisk));
      if s.error.None? {
        MaterialsRaiseOnlyMaterialErrors(s.world, k, mds[1..], t, root, host);
      }
    }
  }

  /** The only exception the parameter loops raise is a resource path without exactly one dot. */
  lemma TexturesRaiseOnlyBadPaths(t: Tables, md: MaterialData, res: Resources)
    requires t.Valid()
    ensures BuildShader(t, md, res).error.Some? ==> BuildShader(t, md, res).error == Some(ResourcePathNotOneDot)
  {
    BindTexturesRaiseOnlyBadPaths(Cleared, t.textures, md.textures, res);
  }

  lemma {:induction false} BindTexturesRaiseOnlyBadPaths(sh: Shader, table: seq<Rule>, ps: seq<TextureParameter>, res: Resources)
    ensures BindTextures(sh, table, ps, res).error.Some? ==> BindTextures(sh, table, ps, res).error == Some(ResourcePathNotOneDot)
    decreases |ps|
  {
    if ps != [] {
      match BindTexture(sh, table, ps[0], res)
      case Err(e) =>
      case Ok(next) => BindTexturesRaiseOnlyBadPaths(next, table, ps[1..], res);
    }
  }

  /**
   * One iteration of the part loop. A part whose type is already recorded is
   * skipped; so is a part whose mesh fails to import (it is not recorded). An
   * exception after the import stops the job before the part is recorded.
   * Otherwise the new mesh is recorded under its part type, gets its outline
   * material, and then its materials and after them its override materials.
   */
  function PartImport(w: World, imported: map<string, nat>, p: Part, t: Tables, root: string, host: Host): (r: Progress)
    requires t.Valid()
    ensures p.partType in imported ==> r == Progress(w, imported, None)
    ensures host.importMesh(MeshFile(root, p, host)).NotImported? ==> r == Progress(w, imported, None)
    ensures p.partType !in imported && host.importMesh(MeshFile(root, p, host)).ImportRaised? ==>
      r == Progress(w, imported, Some(MeshImportRaised))
    ensures p.partType !in imported && host.importMesh(MeshFile(root, p, host)).Imported? ==>
      r == NewPart(w, imported, p, host.importMesh(MeshFile(root, p, host)).mesh, t, root, host)
  {
    if p.partType in imported then Progress(w, imported, None)
    else match host.importMesh(MeshFile(root, p, host))
      case NotImported => Progress(w, imported, None)
      case ImportRaised => Progress(w, imported, Some(MeshImportRaised))
      case Imported(m) => NewPart(w, imported, p, m, t, root, host)
  }

  /** The part loop, stopping at the first exception. Earlier meshes and the image cache are never changed. */
  function PartsImport(w: World, imported: map<string, nat>, parts: seq<Part>, t: Tables, root: string, host: Host): (r: Progress)
    requires t.Valid()
    ensures r.world.images == w.images
    ensures imported.Keys <= r.imported.Keys
    ensures |r.world.meshes| >= |w.meshes|
    ensures forall j :: 0 <= j < |w.meshes| ==> r.world.meshes[j] == w.meshes[j]
    decreases |parts|
  {
    if parts == [] then Progress(w, imported, None)
    else
      var s := PartImport(w, imported, parts[0], t, root, host);
      if s.error.Some? then s else PartsImport(s.world, s.imported, parts[1..], t, root, host)
  }

  /**
   * `import_response` after `append_data`: the part loop with the add-on's
   * tables and the job's root. It records only the job's part types, one new
   * mesh each, after the meshes already in the scene.
   */
  function ResponseImport(w: World, resp: Response, host: Host): (r: Progress)
    ensures r.imported.Keys <= PartTypes(resp.parts)
    ensures |r.world.meshes| == |w.meshes| + |r.imported.Keys|
    ensures forall j :: 0 <= j < |w.meshes| ==> r.world.meshes[j] == w.meshes[j]
    ensures r.world.images == w.images
  {
    OneMeshPerRecordedType(w, map[], resp.parts, Mappings, resp.assetsRoot, host);
    PartsImport(w, map[], resp.parts, Mappings, resp.assetsRoot, host)
  }

  /** An exception after a successful mesh import ends the job there: no later part is tried. */
  lemma ImportRaisedStopsJob(w: World, imported: map<string, nat>, p: Part, rest: seq<Part>, t: Tables, root: string, host: Host)
    requires t.Valid()
    requires p.partType !in imported && host.importMesh(MeshFile(root, p, host)).ImportRaised?
    ensures PartsImport(w, imported, [p] + rest, t, root, host) == Progress(w, imported, Some(MeshImportRaised))
  {
  }

  /**
   * One mesh per recorded part type: the loop adds exactly as many meshes as
   * it records new part types, and records only types of the given parts.
   */
  lemma {:induction false} OneMeshPerRecordedType(w: World, imported: map<string, nat>, parts: seq<Part>, t: Tables, root: string, host: Host)
    requires t.Valid()
    ensures var r := PartsImport(w, imported, parts, t, root, host);
      && imported.Keys <= r.imported.Keys
      && |r.world.meshes| - |w.meshes| == |r.imported.Keys| - |imported.Keys|
      && r.imported.Keys - imported.Keys <= PartTypes(parts)
    decreases |parts|
  {
    if parts != [] {
      var s := PartImport(w, imported, parts[0], t, root, host);
      PartImportRecords(w, imported, parts[0], t, root, host);
      if s.error.None? {
        OneMeshPerRecordedType(s.world, s.imported, parts[1..], t, root, host);
      }
    }
  }

  /** The part types of a list of parts. */
  function PartTypes(parts: seq<Part>): set<string>
    decreases |parts|
  {
    if parts == [] then {} else {parts[0].partType} + PartTypes(parts[1..])
  }

  /** One part adds a mesh exactly when it records a new part type, and it can record only its own type. */
  lemma PartImportRecords(w: World, imported: map<string, nat>, p: Part, t: Tables, root: string, host: Host)
    requires t.Valid()
    ensures var s := PartImport(w, imported, p, t, root, host);
      && imported.Keys <= s.imported.Keys
      && s.imported.Keys - imported.Keys <= {p.partType}
      && |s.world.meshes| - |w.meshes| == |s.imported.Keys| - |imported.Keys|
  {
    if p.partType !in imported {
      match host.importMesh(MeshFile(root, p, host))
      case NotImported =>
      case ImportRaised =>
      case Imported(m) =>
        assert PartImport(w, imported, p, t, root, host) == NewPart(w, imported, p, m, t, root, host);
        RecordingNewKey(imported, p.partType, |w.meshes|);
    }
  }

  lemma RecordingNewKey(imported: map<string, nat>, key: string, k: nat)
    requires key !in imported
    ensures imported[key := k].Keys == imported.Keys + {key}
    ensures |imported[key := k].Keys| == |imported.Keys| + 1
  {
    assert imported[key := k].Keys == imported.Keys + {key};
  }

  /** First wins: once a part type is recorded, a later part of the same type changes nothing. */
  lemma DuplicatePartSkipped(w: World, imported: map<string, nat>, p1: Part, p2: Part, t: Tables, root: string, host: Host)
    requires t.Valid() && p1.partType == p2.partType
    requires p1.partType !in imported && host.importMesh(MeshFile(root, p1, host)).Imported?
    requires PartImport(w, imported, p1, t, root, host).error.None?
    ensures PartsImport(w, imported, [p1, p2], t, root, host) == PartImport(w, imported, p1, t, root, host)
  {
    var s := PartImport(w, imported, p1, t, root, host);
    assert p2.partType in s.imported;
    RecordedPartSkipped(s.world, s.imported, p2, t, root, host);
    assert [p1, p2][1..] == [p2];
  }

  lemma RecordedPartSkipped(w: World, imported: map<string, nat>, p: Part, t: Tables, root: string, host: Host)
    requires t.Valid() && p.partType in imported
    ensures PartsImport(w, imported, [p], t, root, host) == Progress(w, imported, None)
  {
    assert [p][1..] == [];
  }

  /** A part whose mesh failed to import is not recorded, so a later part of the same type is still tried. */
  lemma FailedPartRetried(w: World, imported: map<string, nat>, p1: Part, rest: seq<Part>, t: Tables, root: string, host: Host)
    requires t.Valid()
    requires host.importMesh(MeshFile(root, p1, host)).NotImported?
    ensures PartsImport(w, imported, [p1] + rest, t, root, host) == PartsImport(w, imported, rest, t, root, host)
  {
    assert ([p1] + rest)[1..] == rest;
  }

  /**
   * Overrides win: after a part imports without an exception, a slot that an
   * override targets holds a material named after the last override targeting
   * it, whatever the primary materials put there.
   */
  lemma OverrideWins(w: World, imported: map<string, nat>, p: Part, t: Tables, root: string, host: Host, i: nat, name: string)
    requires t.Valid()
    requires p.partType !in imported && host.importMesh(MeshFile(root, p, host)).Imported?
    requires PartImport(w, imported, p, t, root, host).error.None?
    requires LastTarget(p.overrides, |host.importMesh(MeshFile(root, p, host)).mesh.slots| + 1, i) == Some(name)
    ensures var r := PartImport(w, imported, p, t, root, host);
      i < |r.world.meshes[|w.meshes|]| && r.world.meshes[|w.meshes|][i].Some? &&
      NamedAfter(r.world.meshes[|w.meshes|][i].value, name)
  {
    var m := host.importMesh(MeshFile(root, p, host)).mesh;
    var k := |w.meshes|;
    var w1 := World(w.materials + m.created, w.meshes + [m.slots], w.images);
    var o := OutlineCreation(w1, k, host);
    assert PartImport(w, imported, p, t, root, host) == NewPart(w, imported, p, m, t, root, host);
    assert o.error.None?;
    PartOverridesWin(o.world, k, p, t, root, host, i, name);
  }

  /** Overrides win on the outlined mesh `k`. */
  lemma PartOverridesWin(w: World, k: nat, p: Part, t: Tables, root: string, host: Host, i: nat, name: string)
    requires k < |w.meshes| && t.Valid()
    requires PartMaterials(w, k, p, t, root, host).error.None?
    requires LastTarget(p.overrides, |w.meshes[k]|, i) == Some(name)
    ensures var r := PartMaterials(w, k, p, t, root, host);
      i < |r.world.meshes[k]| && r.world.meshes[k][i].Some? && NamedAfter(r.world.meshes[k][i].value, name)
  {
    var s1 := MaterialsImport(w, k, p.materials, t, root, host);
    assert s1.error.None?;
    LastTargetBound(p.overrides, |w.meshes[k]|, i);
    MaterialsLastWins(s1.world, k, p.overrides, t, root, host, i);
  }

  lemma {:induction false} LastTargetBound(mds: seq<MaterialData>, n: nat, i: nat)
    requires LastTarget(mds, n, i).Some?
    ensures i < n
    decreases |mds|
  {
    if SlotOf(n, mds[|mds| - 1].slotIndex) != Some(i) {
      LastTargetBound(mds[..|mds| - 1], n, i);
    }
  }

  /** `append_data`'s filter: the names of the library file not yet present in the scene, in order. */
  function MissingNames(available: seq<string>, present: set<string>): (r: seq<string>)
    ensures forall x :: x in r <==> x in available && x !in present
    ensures |r| <= |available|
  {
    if available == [] then []
    else (if available[0] in present then [] else [available[0]]) + MissingNames(available[1..], present)
  }

  /** Appending is load-once per name: after adding the missing names, nothing is missing. */
  lemma AppendIsIdempotent(available: seq<string>, present: set<string>)
    ensures MissingNames(available, present + set x | x in MissingNames(available, present)) == []
  {
    var after := present + set x | x in MissingNames(available, present);
    var again := MissingNames(available, after);
    if again != [] {
      assert again[0] in again;
    }
  }

  class Scene {
    var materials: map<string, Material>
    var meshes: seq<seq<SlotName>>
    var images: map<string, Image>

    function State(): World
      reads this
    {
      World(materials, meshes, images)
    }

    constructor (w: World)
      ensures State() == w
    {
      materials, meshes, images := w.materials, w.meshes, w.images;
    }

    /** `Utils.import_material(mesh.material_slots.values()[md.slotIndex], md)` on mesh `k`. */
    method ImportMaterial(k: nat, md: MaterialData, t: Tables, root: string, host: Host) returns (error: Option<Error>)
      requires k < |meshes| && t.Valid()
      modifies this
      ensures Step(State(), error) == MaterialImport(old(State()), k, md, t, root, host)
    {
      var index := SlotOf(|meshes[k]|, md.slotIndex);
      if index.None? {
        return Some(SlotIndexOutOfRange);
      }
      var i := index.value;
      var name := md.materialName;
      if Reusable(materials, name) {
        meshes := SetSlot(meshes, k, i, name);
        return None;
      }
      var current := meshes[k][i];
      if current.None? {
        return Some(EmptySlot);
      }
      var target := current.value;
      if Fold(target) != Fold(name) {
        target := CopyName(materials, name, host);
        meshes := SetSlot(meshes, k, i, target);
      } else {
        assert meshes[k][i := Some(target)] == meshes[k];
        assert SetSlot(meshes, k, i, target) == meshes;
      }
      var shader;
      shader, error := BindParameters(t, md, Resources(root, images, host.onDisk));
      materials := materials[target := Material(true, true, shader)];
    }

    /** `create_outline_material` on mesh `k`. */
    method CreateOutlineMaterial(k: nat, host: Host) returns (error: Option<Error>)
      requires k < |meshes|
      modifies this
      ensures Step(State(), error) == OutlineCreation(old(State()), k, host)
    {
      var outline := host.newMaterialName(materials);
      materials := materials[outline := Material(false, false, Cleared)];
      if |meshes[k]| == 0 {
        return Some(NoMaterialSlot);
      }
      if !HasNodeTree(materials, meshes[k][0]) {
        return Some(NoNodeTree);
      }
      meshes := meshes[k := meshes[k] + [Some(outline)]];
      meshes := meshes[k := meshes[k][0 := Some(outline)]];
      error := None;
    }

    /** One `for` loop over a material list of a part, on mesh `k`. */
    method ImportMaterials(k: nat, mds: seq<MaterialData>, t: Tables, root: string, host: Host) returns (error: Option<Error>)
      requires k < |meshes| && t.Valid()
      modifies this
      ensures Step(State(), error) == MaterialsImport(old(State()), k, mds, t, root, host)
    {
      var j := 0;
      while j < |mds|
        invariant j <= |mds| && k < |meshes|
        invariant MaterialsImport(State(), k, mds[j..], t, root, host) == MaterialsImport(old(State()), k, mds, t, root, host)
      {
        assert mds[j..][1..] == mds[j + 1..];
        error := ImportMaterial(k, mds[j], t, root, host);
        if error.Some? {
          return;
        }
        j := j + 1;
      }
      error := None;
    }

    /** The body of the part loop for one part, given the part types recorded so far. */
    method ImportPart(p: Part, imported: map<string, nat>, t: Tables, root: string, host: Host)
      returns (recorded: map<string, nat>, error: Option<Error>)
      requires t.Valid()
      modifies this
      ensures Progress(State(), recorded, error) == PartImport(old(State()), imported, p, t, root, host)
    {
      recorded, error := imported, None;
      if p.partType in imported {
        return;
      }
      var mesh := host.importMesh(ResolveMesh(root, p.meshPath, host.onDisk));
      if mesh.NotImported? {
        return;
      }
      if mesh.ImportRaised? {
        return imported, Some(MeshImportRaised);
      }
      var k := |meshes|;
      materials := materials + mesh.mesh.created;
      meshes := meshes + [mesh.mesh.slots];
      recorded := imported[p.partType := k];
      error := CreateOutlineMaterial(k, host);
      if error.Some? {
        return;
      }
      ghost var outlined := State();
      error := ImportMaterials(k, p.materials, t, root, host);
      if error.Some? {
        return;
      }
      error := ImportMaterials(k, p.overrides, t, root, host);
      assert Step(State(), error) == PartMaterials(outlined, k, p, t, root, host);
    }

    /** The part loop of `import_response` with the add-on's rule tables. */
    method ImportResponse(resp: Response, host: Host) returns (imported: map<string, nat>, error: Option<Error>)
      modifies this
      ensures Progress(State(), imported, error) == ResponseImport(old(State()), resp, host)
    {
      var parts, root := resp.parts, resp.assetsRoot;
      assert Mappings.Valid();
      imported, error := map[], None;
      var i := 0;
      while i < |parts|
        invariant i <= |parts|
        invariant PartsImport(State(), imported, parts[i..], Mappings, root, host) == ResponseImport(old(State()), resp, host)
        invariant error.None?
      {
        ghost var before, recordedBefore := State(), imported;
        assert parts[i..][0] == parts[i] && parts[i..][1..] == parts[i + 1..];
        imported, error := ImportPart(parts[i], imported, Mappings, root, host);
        assert Progress(State(), imported, error) == PartImport(before, recordedBefore, parts[i], Mappings, root, host);
        if error.Some? {
          return;
        }
        i := i + 1;
      }
      assert parts[i..] == [];
    }
  }
}
