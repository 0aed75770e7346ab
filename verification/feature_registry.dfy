/** The handlers of src/LHScriptX/FeatureScriptCommands.cpp that build entities and the
    script-run registries: towns, streams and footpaths are registered by id with a
    non-overwriting insert and found again with a throwing `.at`.
    The entity registry is a sequence of component records; `registry.Create()` hands
    out the next index. Transform rotation and scale are kept as the integers the
    script passed, since the float conversions are not modelled. */
module FeatureRegistry {
  import opened Common
  import opened ScriptBinding
  import opened FeatureLookups

  type EntityId = nat

  /** `GetRotation(rotation)` (yaw of rotation * -0.001 radians), or the fixed half turn
      villagers are created with. */
  datatype Rotation = YawThousandths(rotation: i32) | HalfTurn
  /** `GetSize(size)` (uniform size * 0.001), or the unit scale. */
  datatype Scale = SizeThousandths(size: i32) | UnitScale

  datatype Transform = Transform(position: Vec3, rotation: Rotation, scale: Scale)

  /** `Town`: its script id and the belief each player has in it. */
  datatype Town = Town(id: i32, beliefs: map<string, real>)

  /** A stream node is built from its position and the node list as it stood before it. */
  datatype StreamNode = StreamNode(position: Vec3, earlier: seq<StreamNode>)
  datatype Stream = Stream(id: i32, nodes: seq<StreamNode>)

  datatype FootpathNode = FootpathNode(position: Vec3)
  datatype Footpath = Footpath(nodes: seq<FootpathNode>)

  datatype LifeStage = Child | Adult
  datatype Sex = MALE | FEMALE
  datatype VillagerTask = IDLE

  datatype Villager = Villager(
    health: u32, age: u32, hunger: u32, lifeStage: LifeStage, sex: Sex,
    tribe: Tribe, role: VillagerRole, task: VillagerTask)

  datatype Mesh = Mesh(id: MeshPackId, flags0: int, flags1: int)

  /** The components an entity may carry. */
  datatype EntityData = EntityData(
    transform: Option<Transform>, town: Option<Town>, stream: Option<Stream>, footpath: Option<Footpath>,
    villager: Option<Villager>, animatedStatic: Option<string>, mesh: Option<Mesh>)

  const Bare: EntityData := EntityData(None, None, None, None, None, None, None)

  /** The entity registry and its context maps. */
  datatype World = World(
    entities: seq<EntityData>, towns: map<i32, EntityId>, streams: map<i32, EntityId>, footpaths: map<i32, EntityId>)

  /** Every registered id names an existing entity that carries the matching component,
      which is what `registry.Get<T>(context.map.at(id))` relies on. */
  predicate Valid(w: World)
  {
    && (forall id :: id in w.towns ==> w.towns[id] < |w.entities| && w.entities[w.towns[id]].town.Some?)
    && (forall id :: id in w.streams ==> w.streams[id] < |w.entities| && w.entities[w.streams[id]].stream.Some?)
    && (forall id :: id in w.footpaths ==> w.footpaths[id] < |w.entities| && w.entities[w.footpaths[id]].footpath.Some?)
  }

  const Empty: World := World([], map[], map[], map[])

  lemma EmptyValid()
    ensures Valid(Empty)
  {}

  /** `registry.Create()` followed by the `Assign`s: appends one entity. */
  function Spawn(w: World, e: EntityData): (r: (World, EntityId))
    ensures r.1 == |w.entities| && r.0.entities == w.entities + [e]
    ensures r.0.towns == w.towns && r.0.streams == w.streams && r.0.footpaths == w.footpaths
    ensures Valid(w) ==> Valid(r.0)
  {
    (w.(entities := w.entities + [e]), |w.entities|)
  }

  /** Replacing an entity's data keeps the world valid when the replacement carries the
      same kinds of registered component. */
  lemma ReplaceKeepsValid(w: World, e: EntityId, d: EntityData)
    requires Valid(w) && e < |w.entities|
    requires d.town.Some? == w.entities[e].town.Some? && d.stream.Some? == w.entities[e].stream.Some?
    requires d.footpath.Some? == w.entities[e].footpath.Some?
    ensures Valid(w.(entities := w.entities[e := d]))
  {}

  /** `std::map::insert`: the map is unchanged when the key is present. */
  function Insert<K, V>(m: map<K, V>, k: K, v: V): (r: map<K, V>)
    ensures k in m ==> r == m
    ensures k !in m ==> r == m[k := v]
  {
    if k in m then m else m[k := v]
  }

  /** Components present before an operation are still there afterwards, apart from the
      one entity an operation names. */
  predicate OthersUnchanged(w: World, w': World, except: int)
  {
    |w.entities| <= |w'.entities|
    && forall e :: 0 <= e < |w.entities| && e != except ==> w'.entities[e] == w.entities[e]
  }

  /** `CreateTown`: a new entity carrying a Town; the id is registered only if it is new,
      so an already registered town id keeps its old entity. */
  function CreateTown(w: World, townId: i32): (r: World)
    requires Valid(w)
    ensures Valid(r)
    ensures |r.entities| == |w.entities| + 1 && OthersUnchanged(w, r, -1)
    ensures r.entities[|w.entities|].town == Some(Town(townId, map[]))
    ensures townId in w.towns ==> r.towns == w.towns
    ensures townId !in w.towns ==> r.towns == w.towns[townId := |w.entities|]
    ensures r.streams == w.streams && r.footpaths == w.footpaths
  {
    var (w1, e) := Spawn(w, Bare.(town := Some(Town(townId, map[]))));
    w1.(towns := Insert(w1.towns, townId, e))
  }

  /** `SetTownBelief`: throws when the town id is not registered; otherwise records the
      player's belief unless that player already has one. Nothing else changes. */
  function SetTownBelief(w: World, townId: i32, playerOwner: string, belief: real): (r: Result<World, string>)
    requires Valid(w)
    ensures r.Err? <==> townId !in w.towns
    ensures r.Ok? ==> Valid(r.value)
    ensures r.Ok? ==> var e := w.towns[townId];
      && OthersUnchanged(w, r.value, e) && |r.value.entities| == |w.entities|
      && r.value.towns == w.towns && r.value.streams == w.streams && r.value.footpaths == w.footpaths
      && r.value.entities[e].town.Some?
      && r.value.entities[e].town.value.id == w.entities[e].town.value.id
      && r.value.entities[e].town.value.beliefs ==
           Insert(w.entities[e].town.value.beliefs, playerOwner, belief)
  {
    if townId !in w.towns then Err("towns.at: unknown town id")
    else
      var e := w.towns[townId];
      var town := w.entities[e].town.value;
      var town' := town.(beliefs := Insert(town.beliefs, playerOwner, belief));
      Ok(w.(entities := w.entities[e := w.entities[e].(town := Some(town'))]))
  }

  /** Once a player holds a belief in a town, later SetTownBelief calls for that player
      leave it as it is, whatever belief they pass. */
  lemma FirstBeliefSticks(w: World, townId: i32, playerOwner: string, b1: real, b2: real)
    requires Valid(w) && townId in w.towns
    ensures var r1 := SetTownBelief(w, townId, playerOwner, b1);
      r1.Ok? && SetTownBelief(r1.value, townId, playerOwner, b2) == r1
  {
    var r1 := SetTownBelief(w, townId, playerOwner, b1);
    var e := w.towns[townId];
    var t1 := r1.value.entities[e].town.value;
    assert playerOwner in t1.beliefs;
    assert r1.value.entities[e := r1.value.entities[e].(town := Some(t1))] == r1.value.entities;
  }

  /** `CreateStream`: a new entity carrying an empty Stream, registered if the id is new. */
  function CreateStream(w: World, streamId: i32): (r: World)
    requires Valid(w)
    ensures Valid(r)
    ensures |r.entities| == |w.entities| + 1 && OthersUnchanged(w, r, -1)
    ensures r.entities[|w.entities|].stream == Some(Stream(streamId, []))
    ensures r.streams == Insert(w.streams, streamId, |w.entities|)
    ensures r.towns == w.towns && r.footpaths == w.footpaths
  {
    var (w1, e) := Spawn(w, Bare.(stream := Some(Stream(streamId, []))));
    w1.(streams := Insert(w1.streams, streamId, e))
  }

  /** `CreateStreamPoint`: throws for an unregistered stream id; otherwise appends exactly
      one node, at the end of that stream's node list. */
  function CreateStreamPoint(w: World, streamId: i32, position: Vec3): (r: Result<World, string>)
    requires Valid(w)
    ensures r.Err? <==> streamId !in w.streams
    ensures r.Ok? ==> Valid(r.value)
    ensures r.Ok? ==> var e := w.streams[streamId];
      var before := w.entities[e].stream.value;
      && OthersUnchanged(w, r.value, e) && |r.value.entities| == |w.entities|
      && r.value.towns == w.towns && r.value.streams == w.streams && r.value.footpaths == w.footpaths
      && r.value.entities[e].stream.Some?
      && r.value.entities[e].stream.value.id == before.id
      && |r.value.entities[e].stream.value.nodes| == |before.nodes| + 1
      && r.value.entities[e].stream.value.nodes[..|before.nodes|] == before.nodes
      && r.value.entities[e].stream.value.nodes[|before.nodes|].position == position
      && r.value.entities[e].stream.value.nodes[|before.nodes|].earlier == before.nodes
  {
    if streamId !in w.streams then Err("streams.at: unknown stream id")
    else
      var e := w.streams[streamId];
      var stream := w.entities[e].stream.value;
      var stream' := stream.(nodes := stream.nodes + [StreamNode(position, stream.nodes)]);
      Ok(w.(entities := w.entities[e := w.entities[e].(stream := Some(stream'))]))
  }

  /** `CreateFootpath`: a new entity carrying an empty Footpath, registered if the id is new. */
  function CreateFootpath(w: World, footpathId: i32): (r: World)
    requires Valid(w)
    ensures Valid(r)
    ensures |r.entities| == |w.entities| + 1 && OthersUnchanged(w, r, -1)
    ensures r.entities[|w.entities|].footpath == Some(Footpath([]))
    ensures r.footpaths == Insert(w.footpaths, footpathId, |w.entities|)
    ensures r.towns == w.towns && r.streams == w.streams
  {
    var (w1, e) := Spawn(w, Bare.(footpath := Some(Footpath([]))));
    w1.(footpaths := Insert(w1.footpaths, footpathId, e))
  }

  /** `CreateFootpathNode`: throws for an unregistered footpath id; otherwise appends
      exactly one node, at the end of that footpath's node list. */
  function CreateFootpathNode(w: World, footpathId: i32, position: Vec3): (r: Result<World, string>)
    requires Valid(w)
    ensures r.Err? <==> footpathId !in w.footpaths
    ensures r.Ok? ==> Valid(r.value)
    ensures r.Ok? ==> var e := w.footpaths[footpathId];
      && OthersUnchanged(w, r.value, e) && |r.value.entities| == |w.entities|
      && r.value.towns == w.towns && r.value.streams == w.streams && r.value.footpaths == w.footpaths
      && r.value.entities[e].footpath == Some(Footpath(w.entities[e].footpath.value.nodes + [FootpathNode(position)]))
  {
    if footpathId !in w.footpaths then Err("footpaths.at: unknown footpath id")
    else
      var e := w.footpaths[footpathId];
      var path := w.entities[e].footpath.value;
      var path' := Footpath(path.nodes + [FootpathNode(position)]);
      Ok(w.(entities := w.entities[e := w.entities[e].(footpath := Some(path'))]))
  }

  /** Nodes added one after another to a footpath come out in the order they were added. */
  lemma {:induction false} FootpathNodesInOrder(w: World, footpathId: i32, p: Vec3, q: Vec3)
    requires Valid(w) && footpathId in w.footpaths
    ensures var r1 := CreateFootpathNode(w, footpathId, p);
      r1.Ok? && var r2 := CreateFootpathNode(r1.value, footpathId, q);
      r2.Ok? && var e := w.footpaths[footpathId];
      r2.value.entities[e].footpath.value.nodes
        == w.entities[e].footpath.value.nodes + [FootpathNode(p), FootpathNode(q)]
  {
    var e := w.footpaths[footpathId];
    var r1 := CreateFootpathNode(w, footpathId, p);
    assert r1.value.footpaths[footpathId] == e;
    assert r1.value.entities[e].footpath.value.nodes == w.entities[e].footpath.value.nodes + [FootpathNode(p)];
  }

  /** What a villager-creating handler leaves behind: the world, and the error that
      escaped, if any. The entity and its transform exist even when the tribe or role
      is not recognised, because they are created before the lookup throws. */
  datatype Outcome = Outcome(world: World, error: Option<string>)

  /** The villager component `CreateVillagerPos` assigns: full health and hunger, idle,
      the age reinterpreted as unsigned, adult from 18 on (compared as signed), and
      female exactly for housewives. */
  function NewVillager(tribe: Tribe, role: VillagerRole, age: i32): (v: Villager)
    ensures v.health == 100 && v.hunger == 100 && v.task == IDLE
    ensures v.tribe == tribe && v.role == role && v.age == I32ToU32(age)
    ensures v.lifeStage == Adult <==> age >= 18
    ensures v.sex == FEMALE <==> role == HOUSEWIFE
  {
    var lifeStage := if age >= 18 then Adult else Child;
    var sex := if role == HOUSEWIFE then FEMALE else MALE;
    Villager(100, I32ToU32(age), 100, lifeStage, sex, tribe, role, IDLE)
  }

  /** `CreateVillagerPos`. The mesh chosen from the villager type is left out. */
  function CreateVillagerPos(w: World, position: Vec3, tribeAndRole: string, age: i32,
                             tribes: map<string, Tribe>, roles: map<string, VillagerRole>): (r: Outcome)
    requires Valid(w) && Strings.Sized(tribeAndRole)
    ensures Valid(r.world)
    ensures |r.world.entities| == |w.entities| + 1 && OthersUnchanged(w, r.world, -1)
    ensures r.world.towns == w.towns && r.world.streams == w.streams && r.world.footpaths == w.footpaths
    ensures r.world.entities[|w.entities|].transform == Some(Transform(position, HalfTurn, UnitScale))
    ensures r.error.Some? <==> GetVillagerTribeAndRole(tribeAndRole, tribes, roles).Err?
    ensures r.error.Some? ==> r.world.entities[|w.entities|].villager.None?
    ensures r.error.None? ==> var tr := GetVillagerTribeAndRole(tribeAndRole, tribes, roles).value;
      r.world.entities[|w.entities|].villager == Some(NewVillager(tr.0, tr.1, age))
  {
    var (w1, e) := Spawn(w, Bare.(transform := Some(Transform(position, HalfTurn, UnitScale))));
    match GetVillagerTribeAndRole(tribeAndRole, tribes, roles)
    case Err(msg) => Outcome(w1, Some(msg))
    case Ok((tribe, role)) =>
      var villager := NewVillager(tribe, role, age);
      ReplaceKeepsValid(w1, e, w1.entities[e].(villager := Some(villager)));
      Outcome(w1.(entities := w1.entities[e := w1.entities[e].(villager := Some(villager))]), None)
  }

  /** `CreateAnimatedStatic`: an entity with a transform, its type string and the mesh the
      type selects. */
  function CreateAnimatedStatic(w: World, position: Vec3, animatedType: string, rotation: i32, scale: i32): (r: World)
    requires Valid(w)
    ensures Valid(r)
    ensures |r.entities| == |w.entities| + 1 && OthersUnchanged(w, r, -1)
    ensures r.towns == w.towns && r.streams == w.streams && r.footpaths == w.footpaths
    ensures var e := r.entities[|w.entities|];
      && e.transform == Some(Transform(position, YawThousandths(rotation), SizeThousandths(scale)))
      && e.animatedStatic == Some(animatedType)
      && e.mesh.Some? && e.mesh.value.flags0 == 0 && e.mesh.value.flags1 == 0
      && (e.mesh.value.id == Dummy <==> animatedType !in Keys(AnimatedStaticMeshes))
      && (animatedType in Keys(AnimatedStaticMeshes) ==> (animatedType, e.mesh.value.id) in AnimatedStaticMeshes)
  {
    AnimatedStaticMeshIdIsLookup(animatedType);
    var data := Bare.(transform := Some(Transform(position, YawThousandths(rotation), SizeThousandths(scale))),
                      animatedStatic := Some(animatedType),
                      mesh := Some(Mesh(AnimatedStaticMeshId(animatedType), 0, 0)));
    Spawn(w, data).0
  }
}
