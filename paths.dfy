/**
 * Path resolution of `Utils.import_mesh` and `Utils.import_texture`. The file
 * system is the oracle `onDisk` (`os.path.exists`); Blender's image cache is a
 * map from image name to image.
 */
module Paths {
  import opened Wrappers
  import opened Errors
  import opened Text

  /** An image: one already in `bpy.data.images`, or one loaded from a file path. */
  datatype Image = Cached(name: string) | Loaded(path: string)

  const LodSuffix: string := "_LOD0"

  /**
   * `path.split(".")[0]` after one leading `/` is removed: the slash-stripped
   * path up to, not including, its first `.`.
   */
  function MeshStem(path: string): (st: string)
    ensures var p := StripSlash(path);
      '.' !in st && |st| <= |p| && p[..|st|] == st &&
      (|st| < |p| ==> p[|st|] == '.') &&
      (|st| == |p| <==> '.' !in p)
  {
    SplitHead(StripSlash(path), '.');
    Split(StripSlash(path), '.')[0]
  }

  /** `os.path.join(import_assets_root, stem + "_LOD0")`: the mesh path before any extension. */
  function MeshBase(root: string, path: string): (b: string)
    ensures EndsWith(b, MeshStem(path) + LodSuffix)
    ensures !StartsWith(MeshStem(path), "/") ==> StartsWith(b, root) && |b| > |root|
  {
    var tail := MeshStem(path) + LodSuffix;
    SlashPrefixOfAppend(MeshStem(path), LodSuffix);
    assert !StartsWith(LodSuffix, "/") by { assert LodSuffix[..1][0] == '_'; }
    PathJoin(root, tail)
  }

  /**
   * Lines 105-108: probe `.psk`, then probe `.pskx` on the path as it now
   * stands. With neither file present the path keeps no extension.
   */
  function ResolveMesh(root: string, path: string, onDisk: string -> bool): (r: string)
    ensures var b := MeshBase(root, path);
      r in {b, b + ".psk", b + ".pskx", b + ".psk" + ".pskx"}
    ensures var b := MeshBase(root, path);
      StartsWith(r, b + ".psk") && r != b + ".pskx" <==> onDisk(b + ".psk")
    ensures var b := MeshBase(root, path);
      var probed := if onDisk(b + ".psk") then b + ".psk" else b;
      r == probed + ".pskx" <==> onDisk(probed + ".pskx")
    ensures var b := MeshBase(root, path);
      !onDisk(b + ".psk") && !onDisk(b + ".pskx") ==> r == b
  {
    var meshPath := MeshBase(root, path);
    var meshPath := if onDisk(meshPath + ".psk") then meshPath + ".psk" else meshPath;
    if onDisk(meshPath + ".pskx") then meshPath + ".pskx" else meshPath
  }

  /** For a path `a.c` (after the slash) whose `a` has no dot, the stem is exactly `a`. */
  lemma StemOfDotted(path: string, a: string, c: string)
    requires StripSlash(path) == a + "." + c && '.' !in a
    ensures MeshStem(path) == a
  {
    var p, st := StripSlash(path), MeshStem(path);
    assert forall k :: 0 <= k < |a| ==> p[k] == a[k];
    assert p[|a|] == '.';
    assert |st| == |a|;
  }

  /**
   * A package path `/dir/Name.ext` becomes `root/dir/Name_LOD0`; with neither
   * mesh file present it goes to the importer without an extension.
   */
  lemma MissingMeshKeepsBarePath(root: string, a: string, ext: string, onDisk: string -> bool)
    requires '.' !in a && !StartsWith(a, "/")
    requires root != "" && !EndsWith(root, "/")
    requires !onDisk(root + "/" + a + LodSuffix + ".psk") && !onDisk(root + "/" + a + LodSuffix + ".pskx")
    ensures ResolveMesh(root, "/" + a + "." + ext, onDisk) == root + "/" + a + LodSuffix
  {
    var path := "/" + a + "." + ext;
    assert StartsWith(path, "/");
    assert StripSlash(path) == a + "." + ext;
    StemOfDotted(path, a, ext);
    assert !StartsWith(a + LodSuffix, "/") by {
      if |a| > 0 {
        assert (a + LodSuffix)[0] == a[0];
      }
    }
    var b := MeshBase(root, path);
    assert b == root + "/" + (a + LodSuffix);
    assert b == root + "/" + a + LodSuffix;
    assert !onDisk(b + ".psk") && !onDisk(b + ".pskx");
  }

  /** `path, name = value.split(".")`: defined exactly when the value holds one `.`. */
  function ResourceParts(value: string): (p: Option<(string, string)>)
    ensures p.Some? <==> Count(value, '.') == 1
    ensures p.Some? ==> value == p.value.0 + "." + p.value.1
    ensures p.Some? ==> '.' !in p.value.0 && '.' !in p.value.1
  {
    var pieces := Split(value, '.');
    SplitLength(value, '.');
    if |pieces| == 2 then
      assert JoinWith(pieces, '.') == pieces[0] + "." + pieces[1];
      Some((pieces[0], pieces[1]))
    else None
  }

  /** The `.png` file a resource path names, under the assets root. */
  function TextureFile(root: string, path: string): (f: string)
    ensures EndsWith(f, StripSlash(path) + ".png")
    ensures !StartsWith(StripSlash(path), "/") ==> StartsWith(f, root) && |f| > |root|
  {
    var tail := StripSlash(path) + ".png";
    SlashPrefixOfAppend(StripSlash(path), ".png");
    assert !StartsWith(".png", "/") by { assert ".png"[..1][0] == '.'; }
    PathJoin(root, tail)
  }

  /**
   * `Utils.import_texture`: an image already cached under the resource name is
   * returned as is; otherwise the `.png` under the root is loaded when `onDisk` holds for it
   * (loading the same file twice gives the same image), else `None`.
   */
  function ResolveTexture(root: string, value: string, images: map<string, Image>, onDisk: string -> bool)
    : (r: Result<Option<Image>, Error>)
    ensures r.Err? <==> Count(value, '.') != 1
    ensures r.Err? ==> r.error == ResourcePathNotOneDot
    ensures ResourceParts(value).Some? && ResourceParts(value).value.1 in images ==>
      r == Ok(Some(images[ResourceParts(value).value.1]))
    ensures ResourceParts(value).Some? && ResourceParts(value).value.1 !in images ==>
      var file := TextureFile(root, ResourceParts(value).value.0);
      r == if onDisk(file) then Ok(Some(Loaded(file))) else Ok(None)
  {
    match ResourceParts(value)
    case None => Err(ResourcePathNotOneDot)
    case Some((path, name)) =>
      if name in images then Ok(Some(images[name]))
      else
        var file := TextureFile(root, path);
        if onDisk(file) then Ok(Some(Loaded(file))) else Ok(None)
  }

  /** A cache hit never consults the disk. */
  lemma CacheHitIgnoresDisk(root: string, value: string, images: map<string, Image>, e1: string -> bool, e2: string -> bool)
    requires ResourceParts(value).Some? && ResourceParts(value).value.1 in images
    ensures ResolveTexture(root, value, images, e1) == ResolveTexture(root, value, images, e2)
  {
  }

  /** A texture resolves to nothing only when it is not cached and its file is missing. */
  lemma TextureNullOnlyWhenMissing(root: string, value: string, images: map<string, Image>, onDisk: string -> bool)
    requires ResolveTexture(root, value, images, onDisk) == Ok(None)
    ensures ResourceParts(value).Some?
    ensures ResourceParts(value).value.1 !in images
    ensures !onDisk(TextureFile(root, ResourceParts(value).value.0))
  {
  }
}
