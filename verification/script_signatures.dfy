/** The command-signature table of src/LHScriptX/FeatureScriptCommands.cpp: 106 script
    commands, each a name and the parameter tags of its handler's native arguments
    (int32_t and int -> Number, float -> Float, glm::vec3 -> Vector,
    const std::string& -> String). The table is written in six consecutive runs of at
    most 18 bindings so that each run, and each pair of runs, can be shown free of
    repeated names on its own. */
module ScriptSignatures {
  import opened Common
  import opened ScriptBinding

  datatype ScriptCommandSignature = ScriptCommandSignature(name: string, parameters: seq<ParameterType>)

  /** Bindings at lines 177-194. */
  const Run0: seq<ScriptCommandSignature> := [
    ScriptCommandSignature("SET_A_TOWNS_INFLUENCE_MULTIPLIER", [Number, Float]),
    ScriptCommandSignature("CREATE_MIST", [Vector, Float, Number, Float, Float]),
    ScriptCommandSignature("CREATE_PATH", [Number, Number, Number, Number]),
    ScriptCommandSignature("CREATE_TOWN", [Number, Vector, String, Number, String]),
    ScriptCommandSignature("SET_TOWN_BELIEF", [Number, String, Float]),
    ScriptCommandSignature("SET_TOWN_BELIEF_CAP", [Number, String, Float]),
    ScriptCommandSignature("SET_TOWN_UNINHABITABLE", [Number]),
    ScriptCommandSignature("SET_TOWN_CONGREGATION_POS", [Number, Vector]),
    ScriptCommandSignature("CREATE_ABODE", [Number, Vector, String, Number, Number, Number, Number]),
    ScriptCommandSignature("CREATE_PLANNED_ABODE", [Number, Vector, String, Number, Number, Number, Number]),
    ScriptCommandSignature("CREATE_TOWN_CENTRE", [Number, Vector, String, Number, Number, Number]),
    ScriptCommandSignature("CREATE_TOWN_SPELL", [Number, String]),
    ScriptCommandSignature("CREATE_NEW_TOWN_SPELL", [Number, String]),
    ScriptCommandSignature("CREATE_TOWN_CENTRE_SPELL_ICON", [Number, String]),
    ScriptCommandSignature("CREATE_SPELL_ICON", [Vector, String, Number, Number, Number]),
    ScriptCommandSignature("CREATE_PLANNED_SPELL_ICON", [Number, Vector, String, Number, Number, Number]),
    ScriptCommandSignature("CREATE_VILLAGER", [Vector, Vector, String]),
    ScriptCommandSignature("CREATE_TOWN_VILLAGER", [Number, Vector, String, Number])]

  /** Bindings at lines 195-212. */
  const Run1: seq<ScriptCommandSignature> := [
    ScriptCommandSignature("CREATE_SPECIAL_TOWN_VILLAGER", [Number, Vector, Number, Number]),
    ScriptCommandSignature("CREATE_VILLAGER_POS", [Vector, Vector, String, Number]),
    ScriptCommandSignature("CREATE_CITADEL", [Vector, Number, String, Number, Number]),
    ScriptCommandSignature("CREATE_PLANNED_CITADEL", [Number, Vector, Number, String, Number, Number]),
    ScriptCommandSignature("CREATE_CREATURE_PEN", [Vector, Number, Number, Number, Number, Number]),
    ScriptCommandSignature("CREATE_WORSHIP_SITE", [Vector, Number, String, String, Number, Number]),
    ScriptCommandSignature("CREATE_PLANNED_WORSHIP_SITE", [Vector, Number, String, String, Number, Number]),
    ScriptCommandSignature("CREATE_ANIMAL", [Vector, Number, Number, Number]),
    ScriptCommandSignature("CREATE_NEW_ANIMAL", [Vector, Number, Number, Number, Number]),
    ScriptCommandSignature("CREATE_FOREST", [Number, Vector]),
    ScriptCommandSignature("CREATE_TREE", [Number, Vector, Number, Number, Number]),
    ScriptCommandSignature("CREATE_NEW_TREE", [Number, Vector, Number, Number, Float, Float, Float]),
    ScriptCommandSignature("CREATE_FIELD", [Vector, Number]),
    ScriptCommandSignature("CREATE_TOWN_FIELD", [Number, Vector, Number]),
    ScriptCommandSignature("CREATE_FISH_FARM", [Vector, Number]),
    ScriptCommandSignature("CREATE_TOWN_FISH_FARM", [Number, Vector, Number]),
    ScriptCommandSignature("CREATE_FEATURE", [Vector, Number, Number, Number, Number]),
    ScriptCommandSignature("CREATE_FLOWERS", [Vector, Number, Float, Float])]

  /** Bindings at lines 213-230. */
  const Run2: seq<ScriptCommandSignature> := [
    ScriptCommandSignature("CREATE_WALL_SECTION", [Vector, Number, Number, Number, Number]),
    ScriptCommandSignature("CREATE_PLANNED_WALL_SECTION", [Vector, Number, Number, Number, Number]),
    ScriptCommandSignature("CREATE_PITCH", [Vector, Number, Number, Number, Number, Number]),
    ScriptCommandSignature("CREATE_POT", [Vector, Number, Number, Number]),
    ScriptCommandSignature("CREATE_TOWN_TEMPORARY_POTS", [Number, Number, Number]),
    ScriptCommandSignature("CREATE_MOBILEOBJECT", [Vector, Number, Number, Number]),
    ScriptCommandSignature("CREATE_MOBILESTATIC", [Vector, Number, Float, Float]),
    ScriptCommandSignature("CREATE_MOBILE_STATIC", [Vector, Number, Float, Float, Float, Float, Float]),
    ScriptCommandSignature("CREATE_DEAD_TREE", [Vector, String, Number, Float, Float, Float, Float]),
    ScriptCommandSignature("CREATE_SCAFFOLD", [Number, Vector, Number, Number, Number]),
    ScriptCommandSignature("COUNTRY_CHANGE", [Vector, Number]),
    ScriptCommandSignature("HEIGHT_CHANGE", [Vector, Number]),
    ScriptCommandSignature("CREATE_CREATURE", [Vector, Number, Number]),
    ScriptCommandSignature("CREATE_CREATURE_FROM_FILE", [String, Number, String, Vector]),
    ScriptCommandSignature("CREATE_FLOCK", [Number, Vector, Vector, Number, Number, Number]),
    ScriptCommandSignature("LOAD_LANDSCAPE", [String]),
    ScriptCommandSignature("VERSION", [Float]),
    ScriptCommandSignature("CREATE_AREA", [Vector, Float])]

  /** Bindings at lines 231-248. */
  const Run3: seq<ScriptCommandSignature> := [
    ScriptCommandSignature("START_CAMERA_POS", [Vector]),
    ScriptCommandSignature("FLY_BY_FILE", [String]),
    ScriptCommandSignature("TOWN_NEEDS_POS", [Number, Vector]),
    ScriptCommandSignature("CREATE_FURNITURE", [Vector, Number, Float]),
    ScriptCommandSignature("CREATE_BIG_FOREST", [Vector, Number, Float, Float]),
    ScriptCommandSignature("CREATE_NEW_BIG_FOREST", [Vector, Number, Number, Float, Float]),
    ScriptCommandSignature("CREATE_INFLUENCE_RING", [Vector, Number, Float, Number]),
    ScriptCommandSignature("CREATE_WEATHER_CLIMATE", [Number, Number, Vector, Float, Float]),
    ScriptCommandSignature("CREATE_WEATHER_CLIMATE_RAIN", [Number, Float, Number, Number, Number]),
    ScriptCommandSignature("CREATE_WEATHER_CLIMATE_TEMP", [Number, Float, Float]),
    ScriptCommandSignature("CREATE_WEATHER_CLIMATE_WIND", [Number, Float, Float, Float]),
    ScriptCommandSignature("CREATE_WEATHER_STORM", [Number, Vector, Float, Number, Vector, Vector, Vector, Float, Vector]),
    ScriptCommandSignature("BRUSH_SIZE", [Float, Float]),
    ScriptCommandSignature("CREATE_STREAM", [Number]),
    ScriptCommandSignature("CREATE_STREAM_POINT", [Number, Vector]),
    ScriptCommandSignature("CREATE_WATERFALL", [Vector]),
    ScriptCommandSignature("CREATE_ARENA", [Vector, Float]),
    ScriptCommandSignature("CREATE_FOOTPATH", [Number])]

  /** Bindings at lines 249-266. */
  const Run4: seq<ScriptCommandSignature> := [
    ScriptCommandSignature("CREATE_FOOTPATH_NODE", [Number, Vector]),
    ScriptCommandSignature("LINK_FOOTPATH", [Number]),
    ScriptCommandSignature("CREATE_BONFIRE", [Vector, Float, Float, Float]),
    ScriptCommandSignature("CREATE_BASE", [Vector, Number]),
    ScriptCommandSignature("CREATE_NEW_FEATURE", [Vector, String, Number, Number, Number]),
    ScriptCommandSignature("SET_INTERACT_DESIRE", [Float]),
    ScriptCommandSignature("TOGGLE_COMPUTER_PLAYER", [String, Number]),
    ScriptCommandSignature("SET_COMPUTER_PLAYER_CREATURE_LIKE", [String, String]),
    ScriptCommandSignature("MULTIPLAYER_DEBUG", [Number, Number]),
    ScriptCommandSignature("CREATE_STREET_LANTERN", [Vector, Number]),
    ScriptCommandSignature("CREATE_STREET_LIGHT", [Vector]),
    ScriptCommandSignature("SET_LAND_NUMBER", [Number]),
    ScriptCommandSignature("CREATE_ONE_SHOT_SPELL", [Vector, String]),
    ScriptCommandSignature("CREATE_ONE_SHOT_SPELL_PU", [Vector, String]),
    ScriptCommandSignature("CREATE_FIRE_FLY", [Vector]),
    ScriptCommandSignature("TOWN_DESIRE_BOOST", [Number, String, Float]),
    ScriptCommandSignature("CREATE_ANIMATED_STATIC", [Vector, String, Number, Number]),
    ScriptCommandSignature("FIRE_FLY_SPELL_REWARD_PROB", [String, Float])]

  /** Bindings at lines 267-282. */
  const Run5: seq<ScriptCommandSignature> := [
    ScriptCommandSignature("CREATE_NEW_TOWN_FIELD", [Number, Vector, Number, Float]),
    ScriptCommandSignature("CREATE_SPELL_DISPENSER", [Number, Vector, String, String, Float, Float, Float]),
    ScriptCommandSignature("LOAD_COMPUTER_PLAYER_PERSONALLTY", [Number, Vector]),
    ScriptCommandSignature("SET_COMPUTER_PLAYER_PERSONALLTY", [String, Vector, Float]),
    ScriptCommandSignature("SET_GLOBAL_LAND_BALANCE", [Number, Float]),
    ScriptCommandSignature("SET_LAND_BALANCE", [String, Number, Float]),
    ScriptCommandSignature("CREATE_DRINK_WAYPOINT", [Vector]),
    ScriptCommandSignature("SET_TOWN_INFLUENCE_MULTIPLIER", [Float]),
    ScriptCommandSignature("SET_PLAYER_INFLUENCE_MULTIPLIER", [Float]),
    ScriptCommandSignature("SET_TOWN_BALANCE_BELIEF_SCALE", [Number, Float]),
    ScriptCommandSignature("START_GAME_MESSAGE", [String, Number]),
    ScriptCommandSignature("ADD_GAME_MESSAGE_LINE", [String, Number]),
    ScriptCommandSignature("EDIT_LEVEL", []),
    ScriptCommandSignature("SET_NIGHTTIME", [Float, Float, Float]),
    ScriptCommandSignature("MAKE_LAST_OBJECT_ARTIFACT", [Number, String, Float]),
    ScriptCommandSignature("SET_LOST_TOWN_SCALE", [Float])]

  /** `FeatureScriptCommands::Signatures`, in declaration order. */
  const Signatures: seq<ScriptCommandSignature> := Run0 + Run1 + Run2 + Run3 + Run4 + Run5

  /** The names of a run of bindings, in order. */
  function Names(s: seq<ScriptCommandSignature>): (r: seq<string>)
    ensures |r| == |s|
    ensures forall i :: 0 <= i < |s| ==> r[i] == s[i].name
  {
    seq(|s|, i requires 0 <= i < |s| => s[i].name)
  }

  lemma NamesOfConcat(a: seq<ScriptCommandSignature>, b: seq<ScriptCommandSignature>)
    ensures Names(a + b) == Names(a) + Names(b)
  {
    assert forall i :: 0 <= i < |a + b| ==> Names(a + b)[i] == (Names(a) + Names(b))[i];
  }

  lemma Run0NamesDistinct()
    ensures Distinct(Names(Run0))
  {}

  lemma Run1NamesDistinct()
    ensures Distinct(Names(Run1))
  {}

  lemma Run2NamesDistinct()
    ensures Distinct(Names(Run2))
  {}

  lemma Run3NamesDistinct()
    ensures Distinct(Names(Run3))
  {}

  lemma Run4NamesDistinct()
    ensures Distinct(Names(Run4))
  {}

  lemma Run5NamesDistinct()
    ensures Distinct(Names(Run5))
  {}

  lemma Runs01NamesDisjoint()
    ensures Disjoint(Names(Run0), Names(Run1))
  {}

  lemma Runs02NamesDisjoint()
    ensures Disjoint(Names(Run0), Names(Run2))
  {}

  lemma Runs03NamesDisjoint()
    ensures Disjoint(Names(Run0), Names(Run3))
  {}

  lemma Runs04NamesDisjoint()
    ensures Disjoint(Names(Run0), Names(Run4))
  {}

  lemma Runs05NamesDisjoint()
    ensures Disjoint(Names(Run0), Names(Run5))
  {}

  lemma Runs12NamesDisjoint()
    ensures Disjoint(Names(Run1), Names(Run2))
  {}

  lemma Runs13NamesDisjoint()
    ensures Disjoint(Names(Run1), Names(Run3))
  {}

  lemma Runs14NamesDisjoint()
    ensures Disjoint(Names(Run1), Names(Run4))
  {}

  lemma Runs15NamesDisjoint()
    ensures Disjoint(Names(Run1), Names(Run5))
  {}

  lemma Runs23NamesDisjoint()
    ensures Disjoint(Names(Run2), Names(Run3))
  {}

  lemma Runs24NamesDisjoint()
    ensures Disjoint(Names(Run2), Names(Run4))
  {}

  lemma Runs25NamesDisjoint()
    ensures Disjoint(Names(Run2), Names(Run5))
  {}

  lemma Runs34NamesDisjoint()
    ensures Disjoint(Names(Run3), Names(Run4))
  {}

  lemma Runs35NamesDisjoint()
    ensures Disjoint(Names(Run3), Names(Run5))
  {}

  lemma Runs45NamesDisjoint()
    ensures Disjoint(Names(Run4), Names(Run5))
  {}

  /** Appending a run whose names are new keeps a table free of repeated names. */
  lemma AppendRun(p: seq<ScriptCommandSignature>, r: seq<ScriptCommandSignature>)
    requires Distinct(Names(p)) && Distinct(Names(r)) && Disjoint(Names(p), Names(r))
    ensures Distinct(Names(p + r))
  {
    NamesOfConcat(p, r);
    DistinctConcat(Names(p), Names(r));
  }

  /** If neither `p` nor `r` shares a name with `q`, neither does `p + r`. */
  lemma AppendRunDisjoint(p: seq<ScriptCommandSignature>, r: seq<ScriptCommandSignature>, q: seq<ScriptCommandSignature>)
    requires Disjoint(Names(p), Names(q)) && Disjoint(Names(r), Names(q))
    ensures Disjoint(Names(p + r), Names(q))
  {
    NamesOfConcat(p, r);
    DisjointConcat(Names(p), Names(r), Names(q));
  }

  /** The table holds exactly 106 bindings and no two of them share a name. */
  lemma {:induction false} SignatureNamesDistinct()
    ensures |Signatures| == 106
    ensures Distinct(Names(Signatures))
  {
    Run0NamesDistinct();
    Run1NamesDistinct();
    Run2NamesDistinct();
    Run3NamesDistinct();
    Run4NamesDistinct();
    Run5NamesDistinct();
    Runs01NamesDisjoint();
    Runs02NamesDisjoint();
    Runs03NamesDisjoint();
    Runs04NamesDisjoint();
    Runs05NamesDisjoint();
    Runs12NamesDisjoint();
    Runs13NamesDisjoint();
    Runs14NamesDisjoint();
    Runs15NamesDisjoint();
    Runs23NamesDisjoint();
    Runs24NamesDisjoint();
    Runs25NamesDisjoint();
    Runs34NamesDisjoint();
    Runs35NamesDisjoint();
    Runs45NamesDisjoint();
    AppendRun(Run0, Run1);
    AppendRunDisjoint(Run0, Run1, Run2);
    AppendRunDisjoint(Run0, Run1, Run3);
    AppendRunDisjoint(Run0, Run1, Run4);
    AppendRunDisjoint(Run0, Run1, Run5);
    AppendRun(Run0 + Run1, Run2);
    AppendRunDisjoint(Run0 + Run1, Run2, Run3);
    AppendRunDisjoint(Run0 + Run1, Run2, Run4);
    AppendRunDisjoint(Run0 + Run1, Run2, Run5);
    AppendRun(Run0 + Run1 + Run2, Run3);
    AppendRunDisjoint(Run0 + Run1 + Run2, Run3, Run4);
    AppendRunDisjoint(Run0 + Run1 + Run2, Run3, Run5);
    AppendRun(Run0 + Run1 + Run2 + Run3, Run4);
    AppendRunDisjoint(Run0 + Run1 + Run2 + Run3, Run4, Run5);
    AppendRun(Run0 + Run1 + Run2 + Run3 + Run4, Run5);
  }

  /** Position of the first binding named `name`: what a scan of the table by exact
      name finds. */
  function FindIndex(s: seq<ScriptCommandSignature>, name: string): (r: Option<nat>)
    ensures r.Some? ==> r.value < |s| && s[r.value].name == name
    ensures r.Some? ==> forall j :: 0 <= j < r.value ==> s[j].name != name
    ensures r.None? <==> name !in Names(s)
  {
    if |s| == 0 then None
    else if s[0].name == name then Some(0)
    else
      match FindIndex(s[1..], name)
      case None =>
        assert Names(s) == [s[0].name] + Names(s[1..]);
        None
      case Some(i) => Some(i + 1)
  }

  /** The signature bound to a command name, if any. */
  function Lookup(name: string): (r: Option<ScriptCommandSignature>)
    ensures r.Some? ==> r.value in Signatures && r.value.name == name
    ensures r.None? <==> name !in Names(Signatures)
  {
    match FindIndex(Signatures, name)
    case None => None
    case Some(i) => Some(Signatures[i])
  }

  /** In a table without repeated names, looking up a binding's name finds that binding. */
  lemma FindIndexOfDistinct(s: seq<ScriptCommandSignature>, i: nat)
    requires i < |s| && Distinct(Names(s))
    ensures FindIndex(s, s[i].name) == Some(i)
  {
    assert Names(s)[i] == s[i].name;
  }

  /** Exact-name lookup is unambiguous: every binding is what its own name finds. */
  lemma LookupUnambiguous()
    ensures forall i :: 0 <= i < |Signatures| ==> Lookup(Signatures[i].name) == Some(Signatures[i])
  {
    SignatureNamesDistinct();
    forall i | 0 <= i < |Signatures|
      ensures Lookup(Signatures[i].name) == Some(Signatures[i])
    {
      FindIndexOfDistinct(Signatures, i);
    }
  }
}
