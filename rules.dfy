/**
 * The static mapping tables of `Utils` and their lookup through `Utils.first`
 * with case-insensitive name equality.
 */
module Rules {
  import opened Wrappers
  import opened Text

  /**
   * One table entry. Texture rules: (name, slot, canvas location); scalar
   * rules: (name, slot); vector rules: (name, slot, alpha slot), where an
   * alpha slot of 0 is falsy and means "no alpha write".
   */
  datatype Rule =
    | TextureRule(name: string, slot: nat, location: (int, int))
    | ScalarRule(name: string, slot: nat)
    | VectorRule(name: string, slot: nat, alpha: nat)

  const TextureMappings: seq<Rule> := [TextureRule("ColorTexture", 0, (-300, -75))]
  const ScalarMappings: seq<Rule> := [ScalarRule("RoughnessMin", 3)]
  const VectorMappings: seq<Rule> := [VectorRule("Skin Boost Color And Exponent", 10, 11)]

  /** `Utils.first(target, expr, default)`: `None` for an empty table, else the first match or `default`. */
  function First<T>(target: seq<T>, expr: T -> bool, default: Option<T>): (r: Option<T>)
    ensures target == [] ==> r == None
    ensures target != [] && r != default ==> r.Some? && r.value in target && expr(r.value)
    ensures target != [] && (forall i :: 0 <= i < |target| ==> !expr(target[i])) ==> r == default
    ensures forall i :: 0 <= i < |target| && expr(target[i]) && (forall j :: 0 <= j < i ==> !expr(target[j])) ==>
      r == Some(target[i])
  {
    if target == [] then None else Next(target, expr, default)
  }

  /** `next(filter(expr, target), default)`. */
  function Next<T>(target: seq<T>, expr: T -> bool, default: Option<T>): (r: Option<T>)
    ensures r != default ==> r.Some? && r.value in target && expr(r.value)
    ensures (forall i :: 0 <= i < |target| ==> !expr(target[i])) ==> r == default
    ensures forall i :: 0 <= i < |target| && expr(target[i]) && (forall j :: 0 <= j < i ==> !expr(target[j])) ==>
      r == Some(target[i])
  {
    if target == [] then default
    else if expr(target[0]) then Some(target[0])
    else
      var r := Next(target[1..], expr, default);
      assert forall i :: 1 <= i < |target| ==> target[1..][i - 1] == target[i];
      r
  }

  /** Rule names match when their case folds are equal. */
  predicate NameMatches(rule: Rule, name: string)
  {
    Fold(rule.name) == Fold(name)
  }

  /** The rule for a parameter name, as `texture_parameter`, `scalar_parameter` and `vector_parameter` find it. */
  function Lookup(table: seq<Rule>, name: string): (r: Option<Rule>)
    ensures r.Some? ==> r.value in table && NameMatches(r.value, name)
    ensures r.None? <==> forall i :: 0 <= i < |table| ==> !NameMatches(table[i], name)
    ensures forall i :: 0 <= i < |table| && NameMatches(table[i], name) && (forall j :: 0 <= j < i ==> !NameMatches(table[j], name)) ==>
      r == Some(table[i])
  {
    var matches := (rule: Rule) => NameMatches(rule, name);
    var r := First(table, matches, None);
    assert forall i :: 0 <= i < |table| && NameMatches(table[i], name) ==>
      r == Some(table[FirstMatch(table, name, i)]);
    r
  }

  /** Matching ignores case: two names with the same fold find the same rule. */
  lemma LookupIgnoresCase(table: seq<Rule>, a: string, b: string)
    requires Fold(a) == Fold(b)
    ensures Lookup(table, a) == Lookup(table, b)
  {
    if exists i :: 0 <= i < |table| && NameMatches(table[i], a) {
      var i :| 0 <= i < |table| && NameMatches(table[i], a);
      var k := FirstMatch(table, a, i);
      assert Lookup(table, a) == Some(table[k]);
    }
  }

  /** The first matching position at or before a known match. */
  function FirstMatch(table: seq<Rule>, name: string, i: nat): (k: nat)
    requires i < |table| && NameMatches(table[i], name)
    ensures k <= i && NameMatches(table[k], name)
    ensures forall j :: 0 <= j < k ==> !NameMatches(table[j], name)
  {
    if exists j :: 0 <= j < i && NameMatches(table[j], name) then
      var j :| 0 <= j < i && NameMatches(table[j], name);
      FirstMatch(table, name, j)
    else i
  }

  /** The texture rule matches its name in any letter case. */
  lemma ColorTextureInAnyCase()
    ensures Lookup(TextureMappings, "colortexture") == Some(TextureMappings[0])
    ensures Lookup(TextureMappings, "COLORTEXTURE") == Some(TextureMappings[0])
    ensures Lookup(TextureMappings, "ColorTexture") == Some(TextureMappings[0])
    ensures Lookup(TextureMappings, "Color Texture") == None
  {
    assert Fold("colortexture") == Fold("ColorTexture") == Fold("COLORTEXTURE") == "colortexture";
    assert Fold("Color Texture")[5] == ' ';
  }
}

/** The three tables together, as `import_material` consults them. */
module RuleTables {
  import opened Rules

  datatype Tables = Tables(textures: seq<Rule>, scalars: seq<Rule>, vectors: seq<Rule>)
  {
    /** Each table holds rules of its own kind, as the tuple unpacking of each kind needs. */
    predicate Valid()
    {
      (forall i :: 0 <= i < |textures| ==> textures[i].TextureRule?) &&
      (forall i :: 0 <= i < |scalars| ==> scalars[i].ScalarRule?) &&
      (forall i :: 0 <= i < |vectors| ==> vectors[i].VectorRule?)
    }
  }

  const Mappings: Tables := Tables(TextureMappings, ScalarMappings, VectorMappings)
}
