/**
 * Parameter binding of `Utils.import_material` (the nested `texture_parameter`,
 * `scalar_parameter` and `vector_parameter`): each parameter of a material
 * description is matched against a rule table and, when it matches, edits one
 * or two inputs of the toon-shader group node.
 */
module Shading {
  import opened Wrappers
  import opened Errors
  import opened Text
  import opened Rules
  import opened RuleTables
  import opened Paths

  /** A socket's default value: a number, or an (R, G, B, A) colour. */
  datatype Value = Number(x: real) | Rgba(r: real, g: real, b: real, a: real)

  /** The group node: which input is linked to which image, and each input's default value. */
  datatype Shader = Shader(links: map<nat, Image>, defaults: map<nat, Value>)

  /** The node tree right after `nodes.clear()` and the new group node. */
  const Cleared: Shader := Shader(map[], map[])

  datatype TextureParameter = TextureParameter(name: string, value: string)
  datatype ScalarParameter = ScalarParameter(name: string, value: real)
  datatype VectorParameter = VectorParameter(name: string, r: real, g: real, b: real, a: real)

  /** One `MaterialData` entry of the job. */
  datatype MaterialData = MaterialData(
    materialName: string,
    slotIndex: int,
    textures: seq<TextureParameter>,
    scalars: seq<ScalarParameter>,
    vectors: seq<VectorParameter>)

  /** Where textures come from: the assets root, the image cache and the disk oracle. */
  datatype Resources = Resources(root: string, images: map<string, Image>, onDisk: string -> bool)

  /** A texture on the reserved slot 12 whose value ends in `_FX` is skipped. */
  const FxSlot: nat := 12
  const FxSuffix: string := "_FX"

  function Resolve(res: Resources, value: string): Result<Option<Image>, Error>
  {
    ResolveTexture(res.root, value, res.images, res.onDisk)
  }

  /**
   * The decision of `texture_parameter`: the input to link and the image to
   * link to it, nothing, or the exception `import_texture` raised. The `_FX`
   * skip comes before the texture is resolved.
   */
  function TextureBinding(table: seq<Rule>, p: TextureParameter, res: Resources): (r: Result<Option<(nat, Image)>, Error>)
    ensures Lookup(table, p.name).None? ==> r == Ok(None)
    ensures Lookup(table, p.name).Some? && Lookup(table, p.name).value.slot == FxSlot && EndsWith(p.value, FxSuffix) ==>
      r == Ok(None)
    ensures Resolve(res, p.value) == Ok(None) ==> r == Ok(None)
    ensures r.Err? ==> Resolve(res, p.value) == Err(r.error)
    ensures r.Ok? && r.value.Some? ==>
      && Lookup(table, p.name).Some?
      && r.value.value.0 == Lookup(table, p.name).value.slot
      && !(r.value.value.0 == FxSlot && EndsWith(p.value, FxSuffix))
      && Resolve(res, p.value) == Ok(Some(r.value.value.1))
    ensures Lookup(table, p.name).Some? && !(Lookup(table, p.name).value.slot == FxSlot && EndsWith(p.value, FxSuffix)) ==>
      r == match Resolve(res, p.value)
        case Err(e) => Err(e)
        case Ok(None) => Ok(None)
        case Ok(Some(image)) => Ok(Some((Lookup(table, p.name).value.slot, image)))
  {
    match Lookup(table, p.name)
    case None => Ok(None)
    case Some(rule) =>
      if rule.slot == FxSlot && EndsWith(p.value, FxSuffix) then Ok(None)
      else
        match Resolve(res, p.value)
        case Err(e) => Err(e)
        case Ok(None) => Ok(None)
        case Ok(Some(image)) => Ok(Some((rule.slot, image)))
  }

  /** `texture_parameter`: link the image to the rule's input; nothing else changes. */
  function BindTexture(sh: Shader, table: seq<Rule>, p: TextureParameter, res: Resources): (r: Result<Shader, Error>)
    ensures r.Err? <==> TextureBinding(table, p, res).Err?
    ensures r.Ok? ==> r.value.defaults == sh.defaults
    ensures TextureBinding(table, p, res) == Ok(None) ==> r == Ok(sh)
    ensures TextureBinding(table, p, res).Ok? && TextureBinding(table, p, res).value.Some? ==>
      var (slot, image) := TextureBinding(table, p, res).value.value;
      r.Ok? && slot in r.value.links && r.value.links[slot] == image &&
      forall k :: k != slot ==> (k in r.value.links <==> k in sh.links) && (k in sh.links ==> r.value.links[k] == sh.links[k])
  {
    match TextureBinding(table, p, res)
    case Err(e) => Err(e)
    case Ok(None) => Ok(sh)
    case Ok(Some((slot, image))) => Ok(sh.(links := sh.links[slot := image]))
  }

  /** `scalar_parameter`: set exactly the rule's input to the value. */
  function SetScalar(sh: Shader, table: seq<Rule>, p: ScalarParameter): (r: Shader)
    ensures r.links == sh.links
    ensures Lookup(table, p.name).None? ==> r == sh
    ensures Lookup(table, p.name).Some? ==>
      var slot := Lookup(table, p.name).value.slot;
      slot in r.defaults && r.defaults[slot] == Number(p.value) &&
      forall k :: k != slot ==> (k in r.defaults <==> k in sh.defaults) && (k in sh.defaults ==> r.defaults[k] == sh.defaults[k])
  {
    match Lookup(table, p.name)
    case None => sh
    case Some(rule) => sh.(defaults := sh.defaults[rule.slot := Number(p.value)])
  }

  /**
   * `vector_parameter`: the rule's input takes (R, G, B, 1); the alpha input
   * takes A when the rule names one (a nonzero third element).
   */
  function SetVector(sh: Shader, table: seq<Rule>, p: VectorParameter): (r: Shader)
    requires forall i :: 0 <= i < |table| ==> table[i].VectorRule?
    ensures r.links == sh.links
    ensures Lookup(table, p.name).None? ==> r == sh
    ensures Lookup(table, p.name).Some? ==>
      var rule := Lookup(table, p.name).value;
      && rule.slot in r.defaults
      && (rule.alpha != 0 ==> rule.alpha in r.defaults && r.defaults[rule.alpha] == Number(p.a))
      && (rule.alpha != rule.slot || rule.alpha == 0 ==> r.defaults[rule.slot] == Rgba(p.r, p.g, p.b, 1.0))
      && forall k :: k != rule.slot && (k != rule.alpha || rule.alpha == 0) ==>
           (k in r.defaults <==> k in sh.defaults) && (k in sh.defaults ==> r.defaults[k] == sh.defaults[k])
  {
    match Lookup(table, p.name)
    case None => sh
    case Some(rule) =>
      var colour := sh.defaults[rule.slot := Rgba(p.r, p.g, p.b, 1.0)];
      sh.(defaults := if rule.alpha != 0 then colour[rule.alpha := Number(p.a)] else colour)
  }

  /** The shader as the loops leave it, and the exception that stopped them, if any. */
  datatype Built = Built(shader: Shader, error: Option<Error>)

  /** `for texture in material_data.get("Textures")`: stops at the first exception. */
  function BindTextures(sh: Shader, table: seq<Rule>, ps: seq<TextureParameter>, res: Resources): (r: Built)
    ensures r.shader.defaults == sh.defaults
    ensures r.shader.links.Keys >= sh.links.Keys
    ensures (forall i :: 0 <= i < |ps| ==> Lookup(table, ps[i].name).None?) ==> r == Built(sh, None)
    decreases |ps|
  {
    if ps == [] then Built(sh, None)
    else match BindTexture(sh, table, ps[0], res)
      case Err(e) => Built(sh, Some(e))
      case Ok(next) => BindTextures(next, table, ps[1..], res)
  }

  function SetScalars(sh: Shader, table: seq<Rule>, ps: seq<ScalarParameter>): (r: Shader)
    ensures r.links == sh.links
    ensures r.defaults.Keys >= sh.defaults.Keys
    decreases |ps|
  {
    if ps == [] then sh else SetScalars(SetScalar(sh, table, ps[0]), table, ps[1..])
  }

  function SetVectors(sh: Shader, table: seq<Rule>, ps: seq<VectorParameter>): (r: Shader)
    requires forall i :: 0 <= i < |table| ==> table[i].VectorRule?
    ensures r.links == sh.links
    ensures r.defaults.Keys >= sh.defaults.Keys
    decreases |ps|
  {
    if ps == [] then sh else SetVectors(SetVector(sh, table, ps[0]), table, ps[1..])
  }

  /** Textures, then scalars, then vectors, starting from the cleared node tree. */
  function BuildShader(t: Tables, md: MaterialData, res: Resources): (r: Built)
    requires t.Valid()
    ensures r.error == BindTextures(Cleared, t.textures, md.textures, res).error
    ensures r.shader.links == BindTextures(Cleared, t.textures, md.textures, res).shader.links
    ensures r.error.Some? ==> r.shader.defaults == map[]
  {
    var b := BindTextures(Cleared, t.textures, md.textures, res);
    if b.error.Some? then b
    else Built(SetVectors(SetScalars(b.shader, t.scalars, md.scalars), t.vectors, md.vectors), None)
  }

  /** The three loops of `import_material`, run on the group node. */
  method BindParameters(t: Tables, md: MaterialData, res: Resources) returns (shader: Shader, error: Option<Error>)
    requires t.Valid()
    ensures Built(shader, error) == BuildShader(t, md, res)
  {
    shader, error := Cleared, None;
    var i := 0;
    while i < |md.textures|
      invariant i <= |md.textures|
      invariant BindTextures(shader, t.textures, md.textures[i..], res) == BindTextures(Cleared, t.textures, md.textures, res)
    {
      assert md.textures[i..][1..] == md.textures[i + 1..];
      var bound := BindTexture(shader, t.textures, md.textures[i], res);
      if bound.Err? {
        error := Some(bound.error);
        return;
      }
      shader := bound.value;
      i := i + 1;
    }
    i := 0;
    ghost var afterTextures := shader;
    while i < |md.scalars|
      invariant i <= |md.scalars|
      invariant SetScalars(shader, t.scalars, md.scalars[i..]) == SetScalars(afterTextures, t.scalars, md.scalars)
    {
      assert md.scalars[i..][1..] == md.scalars[i + 1..];
      shader := SetScalar(shader, t.scalars, md.scalars[i]);
      i := i + 1;
    }
    i := 0;
    ghost var afterScalars := shader;
    while i < |md.vectors|
      invariant i <= |md.vectors|
      invariant SetVectors(shader, t.vectors, md.vectors[i..]) == SetVectors(afterScalars, t.vectors, md.vectors)
    {
      assert md.vectors[i..][1..] == md.vectors[i + 1..];
      shader := SetVector(shader, t.vectors, md.vectors[i]);
      i := i + 1;
    }
  }

  /** A slot-12 texture whose value ends in `_FX` never binds and never reaches `import_texture`. */
  lemma FxTextureNeverBinds(sh: Shader, table: seq<Rule>, p: TextureParameter, res1: Resources, res2: Resources)
    requires Lookup(table, p.name).Some? && Lookup(table, p.name).value.slot == FxSlot
    requires EndsWith(p.value, FxSuffix)
    ensures BindTexture(sh, table, p, res1) == Ok(sh) == BindTexture(sh, table, p, res2)
  {
  }

  /**
   * A texture parameter binds nothing exactly when its name matches no rule,
   * it is an `_FX` texture on slot 12, or its image cannot be found.
   */
  lemma TextureSkippedIff(table: seq<Rule>, p: TextureParameter, res: Resources)
    ensures TextureBinding(table, p, res) == Ok(None) <==>
      || Lookup(table, p.name).None?
      || (Lookup(table, p.name).value.slot == FxSlot && EndsWith(p.value, FxSuffix))
      || Resolve(res, p.value) == Ok(None)
  {
  }

  /** The value of the last scalar parameter whose rule targets input `k`, if any. */
  function LastScalarFor(table: seq<Rule>, ps: seq<ScalarParameter>, k: nat): Option<real>
    decreases |ps|
  {
    if ps == [] then None
    else
      var last := ps[|ps| - 1];
      var rule := Lookup(table, last.name);
      if rule.Some? && rule.value.slot == k then Some(last.value)
      else LastScalarFor(table, ps[..|ps| - 1], k)
  }

  lemma {:induction false} SetScalarsSnoc(sh: Shader, table: seq<Rule>, ps: seq<ScalarParameter>, p: ScalarParameter)
    ensures SetScalars(sh, table, ps + [p]) == SetScalar(SetScalars(sh, table, ps), table, p)
    decreases |ps|
  {
    if ps == [] {
      assert ([] + [p])[1..] == [];
    } else {
      assert (ps + [p])[1..] == ps[1..] + [p];
      SetScalarsSnoc(SetScalar(sh, table, ps[0]), table, ps[1..], p);
    }
  }

  /**
   * Later scalars win: an input ends with the value of the last scalar
   * targeting it, and an input no scalar targets keeps its value.
   */
  lemma {:induction false} SetScalarsLastWins(sh: Shader, table: seq<Rule>, ps: seq<ScalarParameter>, k: nat)
    ensures var r := SetScalars(sh, table, ps);
      match LastScalarFor(table, ps, k)
      case Some(v) => k in r.defaults && r.defaults[k] == Number(v)
      case None => (k in r.defaults <==> k in sh.defaults) && (k in sh.defaults ==> r.defaults[k] == sh.defaults[k])
    decreases |ps|
  {
    if ps != [] {
      var init, last := ps[..|ps| - 1], ps[|ps| - 1];
      assert ps == init + [last];
      SetScalarsSnoc(sh, table, init, last);
      SetScalarsLastWins(sh, table, init, k);
    }
  }

  /**
   * What one vector parameter writes to input `k`: the alpha value when `k`
   * is the rule's nonzero alpha input (written last), else the colour when
   * `k` is the rule's input.
   */
  function VectorWrite(table: seq<Rule>, p: VectorParameter, k: nat): Option<Value>
  {
    match Lookup(table, p.name)
    case None => None
    case Some(rule) =>
      if rule.VectorRule? && rule.alpha != 0 && rule.alpha == k then Some(Number(p.a))
      else if rule.slot == k then Some(Rgba(p.r, p.g, p.b, 1.0))
      else None
  }

  /** One vector parameter leaves input `k` with what it writes there, or as it was. */
  lemma SetVectorWrites(sh: Shader, table: seq<Rule>, p: VectorParameter, k: nat)
    requires forall i :: 0 <= i < |table| ==> table[i].VectorRule?
    ensures var r := SetVector(sh, table, p);
      match VectorWrite(table, p, k)
      case Some(v) => k in r.defaults && r.defaults[k] == v
      case None => (k in r.defaults <==> k in sh.defaults) && (k in sh.defaults ==> r.defaults[k] == sh.defaults[k])
  {
  }

  /** The value the last vector parameter writing input `k` gives it, if any. */
  function LastVectorFor(table: seq<Rule>, ps: seq<VectorParameter>, k: nat): Option<Value>
    decreases |ps|
  {
    if ps == [] then None
    else
      var w := VectorWrite(table, ps[|ps| - 1], k);
      if w.Some? then w else LastVectorFor(table, ps[..|ps| - 1], k)
  }

  lemma {:induction false} SetVectorsSnoc(sh: Shader, table: seq<Rule>, ps: seq<VectorParameter>, p: VectorParameter)
    requires forall i :: 0 <= i < |table| ==> table[i].VectorRule?
    ensures SetVectors(sh, table, ps + [p]) == SetVector(SetVectors(sh, table, ps), table, p)
    decreases |ps|
  {
    if ps == [] {
      assert ([] + [p])[1..] == [];
    } else {
      assert (ps + [p])[1..] == ps[1..] + [p];
      SetVectorsSnoc(SetVector(sh, table, ps[0]), table, ps[1..], p);
    }
  }

  /**
   * Later vectors win: an input ends with what the last vector parameter
   * writing it put there (its alpha write when that parameter's rule aims
   * both at the same input), and an input no vector writes keeps its value.
   */
  lemma {:induction false} SetVectorsLastWins(sh: Shader, table: seq<Rule>, ps: seq<VectorParameter>, k: nat)
    requires forall i :: 0 <= i < |table| ==> table[i].VectorRule?
    ensures var r := SetVectors(sh, table, ps);
      match LastVectorFor(table, ps, k)
      case Some(v) => k in r.defaults && r.defaults[k] == v
      case None => (k in r.defaults <==> k in sh.defaults) && (k in sh.defaults ==> r.defaults[k] == sh.defaults[k])
    decreases |ps|
  {
    if ps != [] {
      var init, last := ps[..|ps| - 1], ps[|ps| - 1];
      assert ps == init + [last];
      SetVectorsSnoc(sh, table, init, last);
      SetVectorsLastWins(sh, table, init, k);
      SetVectorWrites(SetVectors(sh, table, init), table, last, k);
    }
  }

  /** The image the last texture parameter binding input `k` links to it, if any. */
  function LastTextureFor(table: seq<Rule>, ps: seq<TextureParameter>, res: Resources, k: nat): Option<Image>
    decreases |ps|
  {
    if ps == [] then None
    else
      match TextureBinding(table, ps[|ps| - 1], res)
      case Ok(Some((slot, image))) =>
        if slot == k then Some(image) else LastTextureFor(table, ps[..|ps| - 1], res, k)
      case _ => LastTextureFor(table, ps[..|ps| - 1], res, k)
  }

  lemma {:induction false} BindTexturesSnoc(sh: Shader, table: seq<Rule>, ps: seq<TextureParameter>, p: TextureParameter, res: Resources)
    ensures var b := BindTextures(sh, table, ps, res);
      BindTextures(sh, table, ps + [p], res) ==
        if b.error.Some? then b
        else match BindTexture(b.shader, table, p, res)
          case Err(e) => Built(b.shader, Some(e))
          case Ok(next) => Built(next, None)
    decreases |ps|
  {
    if ps == [] {
      assert ([] + [p])[1..] == [];
    } else {
      assert (ps + [p])[0] == ps[0];
      assert (ps + [p])[1..] == ps[1..] + [p];
      match BindTexture(sh, table, ps[0], res)
      case Err(e) =>
      case Ok(next) => BindTexturesSnoc(next, table, ps[1..], p, res);
    }
  }

  /**
   * When no texture raises, later textures win: input `k` ends linked to the
   * image of the last texture parameter binding it (the later `links.new`
   * replaces the earlier link), and an input none binds keeps its link.
   */
  lemma {:induction false} BindTexturesLastWins(sh: Shader, table: seq<Rule>, ps: seq<TextureParameter>, res: Resources, k: nat)
    ensures var r := BindTextures(sh, table, ps, res);
      r.error.None? ==>
        match LastTextureFor(table, ps, res, k)
        case Some(image) => k in r.shader.links && r.shader.links[k] == image
        case None => (k in r.shader.links <==> k in sh.links) && (k in sh.links ==> r.shader.links[k] == sh.links[k])
    decreases |ps|
  {
    if ps != [] {
      var init, last := ps[..|ps| - 1], ps[|ps| - 1];
      assert ps == init + [last];
      BindTexturesSnoc(sh, table, init, last, res);
      var b := BindTextures(sh, table, init, res);
      if b.error.None? {
        BindTexturesLastWins(sh, table, init, res, k);
        assert LastTextureFor(table, ps, res, k) ==
          match TextureBinding(table, last, res)
          case Ok(Some((slot, image))) => if slot == k then Some(image) else LastTextureFor(table, init, res, k)
          case _ => LastTextureFor(table, init, res, k);
      }
    }
  }
}
