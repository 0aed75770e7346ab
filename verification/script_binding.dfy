/** The LHScriptX binding helpers (src/LHScriptX/ScriptingBindingUtils.cpp): the static
    map from a handler's native argument type to the script parameter tag, and the
    parsing of an "x,y" token into a position on the terrain.
    Numbers are opaque reals; `std::stof` is the oracle `Stof`, which answers None
    where the C++ call throws. Terrain height is the oracle `HeightAt`. */
module ScriptBinding {
  import opened Common
  import opened Strings

  /** The tag a script command declares for each of its parameters. */
  datatype ParameterType = String | Number | Float | Vector

  /** The native C++ argument types a command handler may take. */
  datatype NativeType = GlmVec3 | StringRef | Float32 | Int32

  /** `ParameterTypeStaticLookUp<T>`. */
  function ParameterTypeStaticLookUp(t: NativeType): ParameterType
  {
    match t
    case GlmVec3 => Vector
    case StringRef => String
    case Float32 => Float
    case Int32 => Number
  }

  /** The native type a tag stands for: the independent reading of the table. */
  function NativeTypeOf(p: ParameterType): NativeType
  {
    match p
    case Vector => GlmVec3
    case String => StringRef
    case Float => Float32
    case Number => Int32
  }

  /** The static lookup is a bijection: distinct native types get distinct tags and
      every tag is the image of exactly one native type. */
  lemma StaticLookUpBijective()
    ensures forall t: NativeType :: NativeTypeOf(ParameterTypeStaticLookUp(t)) == t
    ensures forall p: ParameterType :: ParameterTypeStaticLookUp(NativeTypeOf(p)) == p
    ensures forall s: NativeType, t: NativeType ::
      ParameterTypeStaticLookUp(s) == ParameterTypeStaticLookUp(t) ==> s == t
    ensures ParameterTypeStaticLookUp(GlmVec3) == Vector && ParameterTypeStaticLookUp(StringRef) == String
    ensures ParameterTypeStaticLookUp(Float32) == Float && ParameterTypeStaticLookUp(Int32) == Number
  {
    forall s: NativeType, t: NativeType | ParameterTypeStaticLookUp(s) == ParameterTypeStaticLookUp(t)
      ensures s == t
    {
      assert NativeTypeOf(ParameterTypeStaticLookUp(s)) == s;
      assert NativeTypeOf(ParameterTypeStaticLookUp(t)) == t;
    }
  }

  /** `std::stof`: the value of a token, or None where it throws. */
  type Stof = string -> Option<real>
  /** `LandIsland::GetHeightAt` on a horizontal position. */
  type HeightAt = Vec2 -> real

  /** `GetHorizontalPosition`: y is parsed from what follows the first comma, then x from
      what precedes it. `Err(t)` reports the token `t` whose parse threw; y's token is
      tried first, so its failure is the one reported. */
  function GetHorizontalPosition(str: string, stof: Stof): (r: Result<Vec2, string>)
    requires Sized(str)
    ensures ',' !in str ==> r == (if stof(str).None? then Err(str) else Ok(Vec2(stof(str).value, stof(str).value)))
    ensures r.Ok? ==> exists xs, ys :: stof(xs) == Some(r.value.x) && stof(ys) == Some(r.value.y)
    ensures r.Err? ==> stof(r.error).None?
  {
    var pos := FindFirstOf(str, ',');
    var ys := Substr(str, SizeSucc(pos), Npos).value;
    var xs := Substr(str, 0, pos).value;
    match stof(ys)
    case None => Err(ys)
    case Some(y) =>
      match stof(xs)
      case None => Err(xs)
      case Some(x) => Ok(Vec2(x, y))
  }

  /** The text before the first comma gives x and the text after it gives y, whatever
      the text after it contains. */
  lemma {:induction false} HorizontalPositionOfPair(xs: string, ys: string, stof: Stof)
    requires Sized(xs + [','] + ys) && ',' !in xs
    ensures var r := GetHorizontalPosition(xs + [','] + ys, stof);
      if stof(ys).None? then r == Err(ys)
      else if stof(xs).None? then r == Err(xs)
      else r == Ok(Vec2(stof(xs).value, stof(ys).value))
  {
    SplitAtFirstOfJoin(xs, ys, ',');
    var s := xs + [','] + ys;
    var pos := FindFirstOf(s, ',');
    assert Substr(s, SizeSucc(pos), Npos).value == SplitAtFirst(s, ',').1;
  }

  /** Without a comma both coordinates are parsed from the whole token, so they are equal. */
  lemma NoCommaGivesDiagonal(str: string, stof: Stof)
    requires Sized(str) && ',' !in str && stof(str).Some?
    ensures GetHorizontalPosition(str, stof).Ok?
    ensures GetHorizontalPosition(str, stof).value.x == GetHorizontalPosition(str, stof).value.y
  {}

  /** `GetParamValue<glm::vec3>`: the token at `index` read as a horizontal position and
      lifted onto the terrain. The token's second number becomes the z component and the
      terrain height the y component. `index` out of range is undefined behaviour in the
      source (`ctx[index]` on a vector), hence the precondition. */
  function GetParamValueVec3(ctx: seq<string>, index: int, stof: Stof, heightAt: HeightAt): (r: Result<Vec3, string>)
    requires 0 <= index < |ctx| && Sized(ctx[index])
    ensures var h := GetHorizontalPosition(ctx[index], stof);
      (r.Ok? <==> h.Ok?)
      && (r.Err? ==> r.error == h.error)
      && (r.Ok? ==> r.value.x == h.value.x && r.value.z == h.value.y && r.value.y == heightAt(h.value))
  {
    var pos :- GetHorizontalPosition(ctx[index], stof);
    Ok(Vec3(pos.x, heightAt(pos), pos.y))
  }

  /** Only the vertical component depends on the terrain: two terrains give the same
      outcome, the same error and the same horizontal components. */
  lemma {:induction false} HorizontalIndependentOfTerrain(ctx: seq<string>, index: int, stof: Stof, h1: HeightAt, h2: HeightAt)
    requires 0 <= index < |ctx| && Sized(ctx[index])
    ensures var a := GetParamValueVec3(ctx, index, stof, h1);
      var b := GetParamValueVec3(ctx, index, stof, h2);
      a.Ok? == b.Ok? && (a.Err? ==> a.error == b.error)
      && (a.Ok? ==> a.value.x == b.value.x && a.value.z == b.value.z)
  {
    var h := GetHorizontalPosition(ctx[index], stof);
    assert GetParamValueVec3(ctx, index, stof, h1).Ok? == h.Ok?;
  }
}
