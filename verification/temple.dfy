/** The temple interior and exterior (src/TempleStructure.cpp): the tables that classify
    mesh files by name, the loading of meshes and camera paths through a locator, and
    the inside/outside state machine that swaps the world for the temple interior.
    The mesh locator, the file system and the camera are outside this model: the
    locator's answer is a parameter (None when loading the directory fails, otherwise
    the (name, id) pairs in iteration order), and the camera is a record of what the
    temple code sets on it. */
module Temple {
  import opened Common
  import opened Strings

  type MeshId = nat

  datatype TempleOutdoorPart =
    | EvilTemple | WorshipSite | Entrance | TempleState1 | TempleState2 | TempleState3 | TempleState4
    | TempleState5 | TempleState6 | TempleState7 | TempleState8 | TempleState9 | TempleState10
    | TempleState11 | TempleState12 | TempleState13

  /** `TempleIndoorPart`, an enumeration whose underlying value orders the keys of the
      `std::map` holding the interior meshes. */
  newtype TempleIndoorPart = x: int | 0 <= x < 36
  const Challenge: TempleIndoorPart := 0
  const ChallengeLO: TempleIndoorPart := 1
  const ChallengeDome: TempleIndoorPart := 2
  const ChallengeFloor: TempleIndoorPart := 3
  const ChallengeFloorLO: TempleIndoorPart := 4
  const CreatureCave: TempleIndoorPart := 5
  const CreatureCaveLO: TempleIndoorPart := 6
  const CreatureCaveWater: TempleIndoorPart := 7
  const CreatureCaveWaterLO: TempleIndoorPart := 8
  const Credits: TempleIndoorPart := 9
  const CreditsLO: TempleIndoorPart := 10
  const CreditsDome: TempleIndoorPart := 11
  const CreditsFloor: TempleIndoorPart := 12
  const CreditsFloorLO: TempleIndoorPart := 13
  const Main: TempleIndoorPart := 14
  const MainLO: TempleIndoorPart := 15
  const MainFloor: TempleIndoorPart := 16
  const MainFloorLO: TempleIndoorPart := 17
  const MainWater: TempleIndoorPart := 18
  const MainWaterLO: TempleIndoorPart := 19
  const Movement: TempleIndoorPart := 20
  const Multi: TempleIndoorPart := 21
  const MultiLO: TempleIndoorPart := 22
  const MultiDome: TempleIndoorPart := 23
  const MultiFloor: TempleIndoorPart := 24
  const MultiFloorLO: TempleIndoorPart := 25
  const Options: TempleIndoorPart := 26
  const OptionsLO: TempleIndoorPart := 27
  const OptionsDome: TempleIndoorPart := 28
  const OptionsFloor: TempleIndoorPart := 29
  const OptionsFloorLO: TempleIndoorPart := 30
  const SaveGame: TempleIndoorPart := 31
  const SaveGameLO: TempleIndoorPart := 32
  const SaveGameDome: TempleIndoorPart := 33
  const SaveGameFloor: TempleIndoorPart := 34
  const SaveGameFloorLO: TempleIndoorPart := 35

  /** `TempleRoom`; `Count` is the enumeration's end marker. */
  datatype TempleRoom = ChallengeRoom | CreatureCaveRoom | CreditsRoom | MainRoom | MultiRoom | OptionsRoom | SaveGameRoom | Count

  /** `OutsideMeshes`, lines 25-44. */
  const OutsideMeshes: seq<(string, TempleOutdoorPart)> := [
    ("b_first_temple_l3d", EvilTemple),
    ("b_worship_l3d", WorshipSite),
    ("entrance_l3d", Entrance),
    ("b_temple00_l3d", TempleState1),
    ("b_temple01_l3d", TempleState1),
    ("b_temple02_l3d", TempleState1),
    ("b_temple03_l3d", TempleState1),
    ("b_temple04_l3d", TempleState1),
    ("b_temple10_l3d", TempleState1),
    ("b_temple11_l3d", TempleState1),
    ("b_temple12_l3d", TempleState1),
    ("b_temple13_l3d", TempleState1),
    ("b_temple14_l3d", TempleState1),
    ("b_temple20_l3d", TempleState1),
    ("b_temple21_l3d", TempleState1),
    ("b_temple22_l3d", TempleState1),
    ("b_temple23_l3d", TempleState1),
    ("b_temple24_l3d", TempleState1)]

  /** `InsideMeshes`, lines 47-84. */
  const InsideMeshes: seq<(string, TempleIndoorPart)> := [
    ("challenge_l3d", Challenge),
    ("challengelo_l3d", ChallengeLO),
    ("challengedome_l3d", ChallengeDome),
    ("challengefloor_l3d", ChallengeFloor),
    ("challengefloorlo_l3d", ChallengeFloorLO),
    ("creature_l3d", CreatureCave),
    ("creaturelo_l3d", CreatureCaveLO),
    ("creaturewater_l3d", CreatureCaveWater),
    ("creaturewaterlo_l3d", CreatureCaveWaterLO),
    ("credits_l3d", Credits),
    ("creditslo_l3d", CreditsLO),
    ("creditsdome_l3d", CreditsDome),
    ("creditsfloor_l3d", CreditsFloor),
    ("creditsfloorlo_l3d", CreditsFloorLO),
    ("main_l3d", Main),
    ("mainlo_l3d", MainLO),
    ("mainfloor_l3d", MainFloor),
    ("mainfloorlo_l3d", MainFloorLO),
    ("mainwater_l3d", MainWater),
    ("mainwaterlo_l3d", MainWaterLO),
    ("movement_l3d", Movement),
    ("multi_l3d", Multi),
    ("multilo_l3d", MultiLO),
    ("multidome_l3d", MultiDome),
    ("multifloor_l3d", MultiFloor),
    ("multifloorlo_l3d", MultiFloorLO),
    ("options_l3d", Options),
    ("optionslo_l3d", OptionsLO),
    ("optionsdome_l3d", OptionsDome),
    ("optionsfloor_l3d", OptionsFloor),
    ("optionsfloorlo_l3d", OptionsFloorLO),
    ("savegame_l3d", SaveGame),
    ("savegamelo_l3d", SaveGameLO),
    ("savegamedome_l3d", SaveGameDome),
    ("savegamefloor_l3d", SaveGameFloor),
    ("savegamefloorlo_l3d", SaveGameFloorLO)]

  /** `InsideCameraPaths`, lines 86-95. */
  const InsideCameraPaths: seq<(string, TempleIndoorPart)> := [
    ("challenge", Challenge),
    ("creature", CreatureCave),
    ("credits", Credits),
    ("main", Main),
    ("multi", Multi),
    ("options", Options),
    ("savegame", SaveGame)]

  /** `RoomNames`, lines 98-107. */
  const RoomNames: seq<(TempleRoom, string)> := [
    (MainRoom, "Main Hall"),
    (ChallengeRoom, "Challenge Room"),
    (CreatureCaveRoom, "Creature Cave"),
    (MultiRoom, "Future Room"),
    (CreditsRoom, "Multiplayer Room"),
    (OptionsRoom, "Options Room"),
    (SaveGameRoom, "Save Game Room")]

  /** The interior parts that loading leaves out: the fifteen LO variants and Movement. */
  predicate Skipped(p: TempleIndoorPart)
  {
    p in {ChallengeLO, ChallengeFloorLO, MainLO, MainWaterLO, MainFloorLO, CreatureCaveLO, CreatureCaveWaterLO,
          CreditsLO, CreditsFloorLO, SaveGameLO, SaveGameFloorLO, OptionsLO, OptionsFloorLO, MultiLO, MultiFloorLO,
          Movement}
  }

  /** The first three outdoor names map to the evil temple, the worship site and the
      entrance; every other name is a "b_temple.." name and maps to TempleState1, so the
      later temple states are never produced. */
  lemma OutsideMeshesShape()
    ensures |OutsideMeshes| == 18
    ensures OutsideMeshes[0].1 == EvilTemple && OutsideMeshes[1].1 == WorshipSite && OutsideMeshes[2].1 == Entrance
    ensures forall i :: 3 <= i < |OutsideMeshes| ==> OutsideMeshes[i].1 == TempleState1
  {}

  /** The outdoor parts a name can be classified as. */
  lemma OutsideMeshValues()
    ensures forall e :: e in OutsideMeshes ==> e.1 in {EvilTemple, WorshipSite, Entrance, TempleState1}
  {
    OutsideMeshesShape();
  }

  /** The temple's own state. */
  datatype TempleState = TempleState(
    insideTemple: bool,
    lastPlayerPosition: Vec3,
    lastPlayerRotation: Vec3,
    templePosition: Vec3,
    outsideMeshes: map<TempleOutdoorPart, MeshId>,
    insideMeshes: map<TempleIndoorPart, MeshId>,
    insideCameraPaths: map<TempleRoom, string>)

  /** The outdoor parts of located meshes, in the locator's order. `find(name)->second`
      on a name missing from the table is undefined, hence the precondition. */
  function OutdoorParts(meshes: seq<(string, MeshId)>): (r: seq<(TempleOutdoorPart, MeshId)>)
    requires forall i :: 0 <= i < |meshes| ==> meshes[i].0 in Keys(OutsideMeshes)
    ensures |r| == |meshes|
    ensures forall i :: 0 <= i < |meshes| ==> r[i] == (Lookup(OutsideMeshes, meshes[i].0).value, meshes[i].1)
  {
    seq(|meshes|, i requires 0 <= i < |meshes| => (Lookup(OutsideMeshes, meshes[i].0).value, meshes[i].1))
  }

  /** `LoadOutsideTempleMeshes`: false, with nothing changed, when the locator fails or
      finds no mesh; otherwise each located mesh is filed under its outdoor part, the
      first id for a part winning. */
  function LoadOutsideTempleMeshes(t: TempleState, located: Option<seq<(string, MeshId)>>): (r: (TempleState, bool))
    requires located.Some? ==> forall i :: 0 <= i < |located.value| ==> located.value[i].0 in Keys(OutsideMeshes)
    ensures r.1 <==> located.Some? && |located.value| > 0
    ensures !r.1 ==> r.0 == t
    ensures r.1 ==> r.0 == t.(outsideMeshes := EmplaceAll(t.outsideMeshes, OutdoorParts(located.value)))
  {
    if located.None? || |located.value| == 0 then (t, false)
    else (t.(outsideMeshes := EmplaceAll(t.outsideMeshes, OutdoorParts(located.value))), true)
  }

  /** Outdoor loading only ever files meshes under the evil temple, the worship site,
      the entrance and TempleState1. */
  lemma OutdoorPartsProduced(meshes: seq<(string, MeshId)>)
    requires forall i :: 0 <= i < |meshes| ==> meshes[i].0 in Keys(OutsideMeshes)
    ensures forall i :: 0 <= i < |meshes| ==>
      OutdoorParts(meshes)[i].0 in {EvilTemple, WorshipSite, Entrance, TempleState1}
  {
    OutsideMeshValues();
  }

  /** `GetTempleMeshId` and `GetTempleWorshipSiteMeshId`: the id filed under the evil
      temple or the worship site; the entity argument is unused. A part that was never
      loaded makes `find(...)->second` undefined, hence the preconditions. */
  function GetTempleMeshId(t: TempleState): (r: MeshId)
    requires EvilTemple in t.outsideMeshes
    ensures (EvilTemple, r) in t.outsideMeshes.Items
  {
    t.outsideMeshes[EvilTemple]
  }

  function GetTempleWorshipSiteMeshId(t: TempleState): (r: MeshId)
    requires WorshipSite in t.outsideMeshes
    ensures (WorshipSite, r) in t.outsideMeshes.Items
  {
    t.outsideMeshes[WorshipSite]
  }

  /** Only the first outdoor name is classified as the evil temple. */
  lemma EvilTempleName(name: string)
    ensures Lookup(OutsideMeshes, name) == Some(EvilTemple) <==> name == "b_first_temple_l3d"
  {
    OutsideMeshesShape();
    match KeyIndex(OutsideMeshes, name)
    case None =>
      assert OutsideMeshes[0].0 != name;
    case Some(k) =>
      if name == "b_first_temple_l3d" {
        assert OutsideMeshes[0].0 == name;
        assert k == 0;
      } else {
        assert OutsideMeshes[0].0 != name;
        OnlyFirstIsEvilTemple(k);
      }
  }

  lemma OnlyFirstIsEvilTemple(k: nat)
    requires 0 < k < |OutsideMeshes|
    ensures OutsideMeshes[k].1 != EvilTemple
  {
    OutsideMeshesShape();
  }

  /** After loading into an empty outdoor map, the temple mesh is the first located
      mesh named "b_first_temple_l3d". */
  lemma {:induction false} TempleMeshIdAfterLoad(t: TempleState, meshes: seq<(string, MeshId)>, i: nat)
    requires forall j :: 0 <= j < |meshes| ==> meshes[j].0 in Keys(OutsideMeshes)
    requires t.outsideMeshes == map[]
    requires i < |meshes| && meshes[i].0 == "b_first_temple_l3d"
    requires forall j :: 0 <= j < i ==> meshes[j].0 != "b_first_temple_l3d"
    ensures var r := LoadOutsideTempleMeshes(t, Some(meshes));
      r.1 && EvilTemple in r.0.outsideMeshes && GetTempleMeshId(r.0) == meshes[i].1
  {
    var parts := OutdoorParts(meshes);
    forall j | 0 <= j <= i
      ensures parts[j].0 == EvilTemple <==> j == i
    {
      EvilTempleName(meshes[j].0);
    }
    assert Keys(parts)[i] == EvilTemple;
    assert KeyIndex(parts, EvilTemple) == Some(i);
    var m := EmplaceAll(t.outsideMeshes, parts);
    assert Lookup(parts, EvilTemple) == Some(m[EvilTemple]);
  }

  /** The room a camera path opens: the switch at lines 158-183. Its default branch
      leaves the room uninitialised; the camera-path table never reaches it. */
  function CameraPathRoom(p: TempleIndoorPart): (r: Option<TempleRoom>)
    ensures r.Some? <==> p in {Challenge, CreatureCave, Credits, Main, Multi, Options, SaveGame}
    ensures r.Some? ==> r.value != Count
  {
    if p == Challenge then Some(ChallengeRoom)
    else if p == CreatureCave then Some(CreatureCaveRoom)
    else if p == Credits then Some(CreditsRoom)
    else if p == Main then Some(MainRoom)
    else if p == Multi then Some(MultiRoom)
    else if p == Options then Some(OptionsRoom)
    else if p == SaveGame then Some(SaveGameRoom)
    else None
  }

  /** Every camera-path stem names a part the switch handles, and the seven stems open
      the seven rooms, one each. */
  lemma CameraPathTableRooms()
    ensures forall e :: e in InsideCameraPaths ==> CameraPathRoom(e.1).Some?
    ensures forall room :: room != Count ==>
      exists i :: 0 <= i < |InsideCameraPaths| && CameraPathRoom(InsideCameraPaths[i].1) == Some(room)
  {
    forall room | room != Count
      ensures exists i :: 0 <= i < |InsideCameraPaths| && CameraPathRoom(InsideCameraPaths[i].1) == Some(room)
    {
      match room
      case ChallengeRoom => assert CameraPathRoom(InsideCameraPaths[0].1) == Some(room);
      case CreatureCaveRoom => assert CameraPathRoom(InsideCameraPaths[1].1) == Some(room);
      case CreditsRoom => assert CameraPathRoom(InsideCameraPaths[2].1) == Some(room);
      case MainRoom => assert CameraPathRoom(InsideCameraPaths[3].1) == Some(room);
      case MultiRoom => assert CameraPathRoom(InsideCameraPaths[4].1) == Some(room);
      case OptionsRoom => assert CameraPathRoom(InsideCameraPaths[5].1) == Some(room);
      case SaveGameRoom => assert CameraPathRoom(InsideCameraPaths[6].1) == Some(room);
    }
  }

  /** A camera file whose stem the table knows; `find(stem)->second` on any other
      stem is undefined. */
  predicate KnownCameraFile(path: string)
  {
    Stem(Filename(path)) in Keys(InsideCameraPaths)
  }

  /** The room a camera file is loaded for. */
  function CameraFileRoom(path: string): (r: TempleRoom)
    requires KnownCameraFile(path)
    ensures r != Count
  {
    var part := Lookup(InsideCameraPaths, Stem(Filename(path))).value;
    CameraPathTableRooms();
    CameraPathRoom(part).value
  }

  /** Each camera file paired with the room it is loaded for. */
  function CameraFileEntries(files: seq<string>): (r: seq<(TempleRoom, string)>)
    requires forall i :: 0 <= i < |files| ==> KnownCameraFile(files[i])
    ensures |r| == |files|
    ensures forall i :: 0 <= i < |files| ==> r[i] == (CameraFileRoom(files[i]), files[i])
  {
    seq(|files|, i requires 0 <= i < |files| && KnownCameraFile(files[i]) => (CameraFileRoom(files[i]), files[i]))
  }

  /** The camera-path loop, lines 151-187: each file replaces whatever path its room had,
      so the last file for a room wins; rooms no file opens keep their path. */
  function LoadCameraPaths(m: map<TempleRoom, string>, files: seq<string>): (r: map<TempleRoom, string>)
    requires forall i :: 0 <= i < |files| ==> KnownCameraFile(files[i])
    ensures forall i :: 0 <= i < |files| ==> CameraFileRoom(files[i]) in r
    ensures forall room :: room in m ==> room in r
    ensures forall i :: 0 <= i < |files| && LastOfKey(CameraFileEntries(files), i) ==>
      r[CameraFileRoom(files[i])] == files[i]
  {
    AssignAll(m, CameraFileEntries(files))
  }

  /** A mesh name the interior table knows; `find(name)->second` on any other name is
      undefined. */
  predicate InteriorName(name: string)
  {
    name in Keys(InsideMeshes)
  }

  /** The indoor part a located mesh name is classified as. */
  function InteriorPart(name: string): TempleIndoorPart
    requires InteriorName(name)
  {
    Lookup(InsideMeshes, name).value
  }

  /** The located meshes as (part, id) pairs, in the locator's order. */
  function InteriorEntries(meshes: seq<(string, MeshId)>): (r: seq<(TempleIndoorPart, MeshId)>)
    requires forall i :: 0 <= i < |meshes| ==> InteriorName(meshes[i].0)
    ensures |r| == |meshes|
    ensures forall i :: 0 <= i < |meshes| ==> r[i] == (InteriorPart(meshes[i].0), meshes[i].1)
  {
    seq(|meshes|, i requires 0 <= i < |meshes| && InteriorName(meshes[i].0) => (InteriorPart(meshes[i].0), meshes[i].1))
  }

  /** `LoadInteriorTempleAssets`: nothing changes when the locator fails. Otherwise the
      camera paths are loaded first, so they stay loaded even when the locator found no
      mesh and the call answers false; then every located mesh whose part is not skipped
      is filed under its part, the first id for a part winning and ids already present
      kept. */
  function LoadInteriorTempleAssets(t: TempleState, located: Option<seq<(string, MeshId)>>, camFiles: seq<string>): (r: (TempleState, bool))
    requires located.Some? ==> forall i :: 0 <= i < |located.value| ==> InteriorName(located.value[i].0)
    requires forall i :: 0 <= i < |camFiles| ==> KnownCameraFile(camFiles[i])
    ensures r.1 <==> located.Some? && |located.value| > 0
    ensures located.None? ==> r.0 == t
    ensures located.Some? ==> r.0.insideCameraPaths == LoadCameraPaths(t.insideCameraPaths, camFiles)
    ensures located.Some? ==> r.0 == t.(insideCameraPaths := r.0.insideCameraPaths, insideMeshes := r.0.insideMeshes)
    ensures !r.1 ==> r.0.insideMeshes == t.insideMeshes
    ensures forall p :: p in t.insideMeshes ==> p in r.0.insideMeshes && r.0.insideMeshes[p] == t.insideMeshes[p]
    ensures forall p :: Skipped(p) ==> (p in r.0.insideMeshes <==> p in t.insideMeshes)
    ensures r.1 ==> forall p :: !Skipped(p) && p !in t.insideMeshes && p in Keys(InteriorEntries(located.value)) ==>
      p in r.0.insideMeshes && Lookup(InteriorEntries(located.value), p) == Some(r.0.insideMeshes[p])
  {
    match located
    case None => (t, false)
    case Some(meshes) =>
      var t' := t.(insideCameraPaths := LoadCameraPaths(t.insideCameraPaths, camFiles));
      if |meshes| == 0 then (t', false)
      else (t'.(insideMeshes := EmplaceAll(t.insideMeshes, DropKeys(InteriorEntries(meshes), Skipped))), true)
  }

  /** A part not loaded before takes the id of the first located mesh classified as it. */
  lemma {:induction false} InteriorFirstIdWins(t: TempleState, meshes: seq<(string, MeshId)>, camFiles: seq<string>, i: nat)
    requires forall j :: 0 <= j < |meshes| ==> InteriorName(meshes[j].0)
    requires forall j :: 0 <= j < |camFiles| ==> KnownCameraFile(camFiles[j])
    requires i < |meshes| && !Skipped(InteriorPart(meshes[i].0)) && InteriorPart(meshes[i].0) !in t.insideMeshes
    requires forall j :: 0 <= j < i ==> InteriorPart(meshes[j].0) != InteriorPart(meshes[i].0)
    ensures var r := LoadInteriorTempleAssets(t, Some(meshes), camFiles).0;
      var p := InteriorPart(meshes[i].0);
      p in r.insideMeshes && r.insideMeshes[p] == meshes[i].1
  {
    var e := InteriorEntries(meshes);
    assert forall j :: 0 <= j < i ==> e[j].0 != e[i].0;
    EmplaceFirstOfKey(t.insideMeshes, e, Skipped, i);
    InteriorMeshesEmplaced(t, meshes, camFiles);
  }

  /** With meshes located, the interior map is the kept entries emplaced. */
  lemma InteriorMeshesEmplaced(t: TempleState, meshes: seq<(string, MeshId)>, camFiles: seq<string>)
    requires forall j :: 0 <= j < |meshes| ==> InteriorName(meshes[j].0)
    requires forall j :: 0 <= j < |camFiles| ==> KnownCameraFile(camFiles[j])
    requires |meshes| > 0
    ensures LoadInteriorTempleAssets(t, Some(meshes), camFiles).0.insideMeshes
      == EmplaceAll(t.insideMeshes, DropKeys(InteriorEntries(meshes), Skipped))
  {}

  /** The keys of an interior map below `n`, in ascending order. */
  function PartsBelow(m: map<TempleIndoorPart, MeshId>, n: nat): (r: seq<TempleIndoorPart>)
    requires n <= 36
    ensures forall p :: p in r <==> p in m && (p as int) < n
    ensures forall i, j :: 0 <= i < j < |r| ==> r[i] < r[j]
  {
    if n == 0 then []
    else
      var q := (n - 1) as TempleIndoorPart;
      var rest := PartsBelow(m, n - 1);
      if q !in m then rest
      else
        assert forall i :: 0 <= i < |rest| ==> rest[i] < q by {
          forall i | 0 <= i < |rest| ensures rest[i] < q { assert rest[i] in rest; }
        }
        rest + [q]
  }

  function KeysBelow(m: map<TempleIndoorPart, MeshId>, n: nat): set<TempleIndoorPart>
  {
    set p | p in m && (p as int) < n
  }

  /** Raising the bound past a present key adds that key alone. */
  lemma KeysBelowStep(m: map<TempleIndoorPart, MeshId>, n: nat)
    requires 0 < n <= 36 && ((n - 1) as TempleIndoorPart) in m
    ensures |KeysBelow(m, n)| == |KeysBelow(m, n - 1)| + 1
  {
    var q := (n - 1) as TempleIndoorPart;
    assert q !in KeysBelow(m, n - 1);
    assert KeysBelow(m, n) == KeysBelow(m, n - 1) + {q};
  }

  /** Each key below `n` is listed once. */
  lemma {:induction false} PartsBelowCount(m: map<TempleIndoorPart, MeshId>, n: nat)
    requires n <= 36
    ensures |PartsBelow(m, n)| == |KeysBelow(m, n)|
  {
    if n == 0 {
      assert KeysBelow(m, n) == {};
    } else {
      PartsBelowCount(m, n - 1);
      var q := (n - 1) as TempleIndoorPart;
      if q in m {
        KeysBelowStep(m, n);
        assert PartsBelow(m, n) == PartsBelow(m, n - 1) + [q];
      } else {
        assert PartsBelow(m, n) == PartsBelow(m, n - 1);
        assert KeysBelow(m, n) == KeysBelow(m, n - 1);
      }
    }
  }

  /** The keys of the interior map in the map's iteration order, each once. */
  function InteriorKeyOrder(m: map<TempleIndoorPart, MeshId>): (r: seq<TempleIndoorPart>)
    ensures forall p :: p in r <==> p in m
    ensures forall i, j :: 0 <= i < j < |r| ==> r[i] < r[j]
    ensures |r| == |m|
  {
    PartsBelowCount(m, 36);
    assert KeysBelow(m, 36) == m.Keys;
    PartsBelow(m, 36)
  }

  /** `GetInteriorTempleMeshIds`: one id per interior part present, in ascending order
      of the parts. */
  function GetInteriorTempleMeshIds(t: TempleState): (r: seq<MeshId>)
    ensures |r| == |t.insideMeshes|
    ensures forall i :: 0 <= i < |r| ==> r[i] == t.insideMeshes[InteriorKeyOrder(t.insideMeshes)[i]]
  {
    var m := t.insideMeshes;
    var keys := InteriorKeyOrder(m);
    assert forall i :: 0 <= i < |keys| ==> keys[i] in m by {
      forall i | 0 <= i < |keys| ensures keys[i] in m { assert keys[i] in keys; }
    }
    seq(|keys|, i requires 0 <= i < |keys| => m[keys[i]])
  }


  /** Every loaded part contributes its id exactly once. */
  lemma {:induction false} InteriorMeshIdsComplete(t: TempleState, p: TempleIndoorPart)
    requires p in t.insideMeshes
    ensures exists i :: (0 <= i < |GetInteriorTempleMeshIds(t)| && InteriorKeyOrder(t.insideMeshes)[i] == p
      && GetInteriorTempleMeshIds(t)[i] == t.insideMeshes[p])
    ensures forall i, j :: 0 <= i < j < |GetInteriorTempleMeshIds(t)| ==>
      InteriorKeyOrder(t.insideMeshes)[i] != InteriorKeyOrder(t.insideMeshes)[j]
  {
    var keys := InteriorKeyOrder(t.insideMeshes);
    var i :| 0 <= i < |keys| && keys[i] == p;
    assert GetInteriorTempleMeshIds(t)[i] == t.insideMeshes[p];
  }

  /** The camera as far as the temple drives it: where it is, where it looks, and the
      camera path it was last told to play, with the path's origin. */
  datatype Camera = Camera(position: Vec3, rotation: Vec3, playing: Option<(string, Vec3)>)

  /** An entity tagged `TempleInterior` (always the main room), placed at `position`
      and drawn with `mesh`; rotation is zero, scale one and both mesh flags zero. */
  datatype InteriorEntity = InteriorEntity(position: Vec3, mesh: MeshId)

  /** What the temple changes outside itself: the three drawing switches of the
      configuration, the camera, and the interior entities of the registry in creation
      order. */
  datatype Scene = Scene(drawIsland: bool, drawSky: bool, drawWater: bool, camera: Camera, interior: seq<InteriorEntity>)

  /** Where the interior is built, far below the island (line 265). */
  const InteriorPosition: Vec3 := Vec3(0.0, -10000.0, 0.0)

  /** `MoveToRoom`: outside the temple nothing happens; inside, the camera plays the
      room's path from the temple position. A room without a loaded path makes
      `find(room)->second` undefined, hence the precondition. */
  function MoveToRoom(t: TempleState, sc: Scene, room: TempleRoom): (r: Scene)
    requires t.insideTemple ==> room in t.insideCameraPaths
    ensures !t.insideTemple ==> r == sc
    ensures t.insideTemple ==> r == sc.(camera := sc.camera.(playing := Some((t.insideCameraPaths[room], t.templePosition))))
  {
    if !t.insideTemple then sc
    else sc.(camera := sc.camera.(playing := Some((t.insideCameraPaths[room], t.templePosition))))
  }

  /** `EnterTemple`: nothing happens when already inside. Otherwise the island, sky and
      water stop being drawn, one interior entity per interior mesh id is created at
      the interior position, the camera's position and rotation are saved and the
      camera moves to the interior, and the main room's path starts playing. */
  function EnterTemple(t: TempleState, sc: Scene): (r: (TempleState, Scene))
    requires !t.insideTemple ==> MainRoom in t.insideCameraPaths
    ensures t.insideTemple ==> r == (t, sc)
    ensures !t.insideTemple ==>
      r.0.insideTemple && r.0.templePosition == InteriorPosition
      && r.0.lastPlayerPosition == sc.camera.position && r.0.lastPlayerRotation == sc.camera.rotation
      && r.0.insideCameraPaths == t.insideCameraPaths && r.0.insideMeshes == t.insideMeshes
      && r.0.outsideMeshes == t.outsideMeshes
    ensures !t.insideTemple ==>
      !r.1.drawIsland && !r.1.drawSky && !r.1.drawWater
      && r.1.camera == Camera(InteriorPosition, sc.camera.rotation, Some((t.insideCameraPaths[MainRoom], InteriorPosition)))
      && |r.1.interior| == |sc.interior| + |t.insideMeshes| && r.1.interior[..|sc.interior|] == sc.interior
      && forall i :: |sc.interior| <= i < |r.1.interior| ==>
        r.1.interior[i] == InteriorEntity(InteriorPosition, GetInteriorTempleMeshIds(t)[i - |sc.interior|])
  {
    if t.insideTemple then (t, sc)
    else
      var ids := GetInteriorTempleMeshIds(t);
      var spawned := seq(|ids|, i requires 0 <= i < |ids| => InteriorEntity(InteriorPosition, ids[i]));
      var sc' := Scene(false, false, false, sc.camera.(position := InteriorPosition), sc.interior + spawned);
      var t' := t.(templePosition := InteriorPosition, lastPlayerPosition := sc.camera.position,
                   lastPlayerRotation := sc.camera.rotation, insideTemple := true);
      (t', MoveToRoom(t', sc', MainRoom))
  }

  /** `ExitTemple`: nothing happens when outside. Otherwise every interior entity is
      destroyed, the island, sky and water are drawn again and the camera returns to
      the saved position and rotation; the playing path is left as it was. */
  function ExitTemple(t: TempleState, sc: Scene): (r: (TempleState, Scene))
    ensures !t.insideTemple ==> r == (t, sc)
    ensures t.insideTemple ==> r.0 == t.(insideTemple := false)
    ensures t.insideTemple ==> r.1 == Scene(true, true, true,
      Camera(t.lastPlayerPosition, t.lastPlayerRotation, sc.camera.playing), [])
  {
    if !t.insideTemple then (t, sc)
    else
      (t.(insideTemple := false),
       Scene(true, true, true, sc.camera.(position := t.lastPlayerPosition, rotation := t.lastPlayerRotation), []))
  }

  /** Entering twice is entering once, and so is exiting. */
  lemma EnterExitIdempotent(t: TempleState, sc: Scene)
    requires !t.insideTemple ==> MainRoom in t.insideCameraPaths
    ensures var (t1, s1) := EnterTemple(t, sc); EnterTemple(t1, s1) == (t1, s1)
    ensures var (t1, s1) := ExitTemple(t, sc); ExitTemple(t1, s1) == (t1, s1)
  {}

  /** Entering and then leaving puts the camera back where it was, draws the world
      again, removes every interior entity and leaves the meshes and paths loaded. */
  lemma EnterThenExitRestores(t: TempleState, sc: Scene)
    requires !t.insideTemple && MainRoom in t.insideCameraPaths
    ensures var (t1, s1) := EnterTemple(t, sc);
      var (t2, s2) := ExitTemple(t1, s1);
      !t2.insideTemple && s2.camera.position == sc.camera.position && s2.camera.rotation == sc.camera.rotation
      && s2.drawIsland && s2.drawSky && s2.drawWater && s2.interior == []
      && t2.insideMeshes == t.insideMeshes && t2.outsideMeshes == t.outsideMeshes
      && t2.insideCameraPaths == t.insideCameraPaths
  {}

  /** Moving between rooms inside the temple only changes which path plays: the last
      move decides it. */
  lemma MoveToRoomLastWins(t: TempleState, sc: Scene, a: TempleRoom, b: TempleRoom)
    requires t.insideTemple && a in t.insideCameraPaths && b in t.insideCameraPaths
    ensures MoveToRoom(t, MoveToRoom(t, sc, a), b) == MoveToRoom(t, sc, b)
    ensures MoveToRoom(t, sc, a).camera.position == sc.camera.position
  {}

  /** `GetRoomName`: the display name of a room. `Count` has no entry, and
      `find(Count)->second` is undefined, hence the precondition. */
  function GetRoomName(room: TempleRoom): (r: string)
    requires room != Count
    ensures (room, r) in RoomNames
  {
    RoomNamesCover(room);
    Lookup(RoomNames, room).value
  }

  lemma RoomNamesCover(room: TempleRoom)
    requires room != Count
    ensures room in Keys(RoomNames)
  {
    match room
    case MainRoom => assert Keys(RoomNames)[0] == room;
    case ChallengeRoom => assert Keys(RoomNames)[1] == room;
    case CreatureCaveRoom => assert Keys(RoomNames)[2] == room;
    case MultiRoom => assert Keys(RoomNames)[3] == room;
    case CreditsRoom => assert Keys(RoomNames)[4] == room;
    case OptionsRoom => assert Keys(RoomNames)[5] == room;
    case SaveGameRoom => assert Keys(RoomNames)[6] == room;
  }

  lemma RoomKeysDistinct()
    ensures Distinct(Keys(RoomNames))
  {
    assert Keys(RoomNames) == [MainRoom, ChallengeRoom, CreatureCaveRoom, MultiRoom, CreditsRoom, OptionsRoom, SaveGameRoom];
  }

  lemma RoomNameValuesDistinct()
    ensures Distinct(Values(RoomNames))
  {
    assert Values(RoomNames) == ["Main Hall", "Challenge Room", "Creature Cave", "Future Room", "Multiplayer Room",
      "Options Room", "Save Game Room"];
  }

  /** Every row of the table is what its room looks up. */
  lemma GetRoomNameOfEntry(i: nat)
    requires i < |RoomNames|
    ensures RoomNames[i].0 != Count && GetRoomName(RoomNames[i].0) == RoomNames[i].1
  {
    RoomKeysDistinct();
    LookupOfDistinct(RoomNames, i);
  }

  /** The seven room names are pairwise different; the multiplayer room is listed as
      "Future Room" and the credits room as "Multiplayer Room", as in the table. */
  lemma RoomNamesDistinct()
    ensures forall a, b :: a != Count && b != Count && a != b ==> GetRoomName(a) != GetRoomName(b)
    ensures forall r :: r == MultiRoom ==> GetRoomName(r) == "Future Room"
    ensures forall r :: r == CreditsRoom ==> GetRoomName(r) == "Multiplayer Room"
  {
    forall a, b | a != Count && b != Count && a != b
      ensures GetRoomName(a) != GetRoomName(b)
    {
      RoomNamesCover(a);
      RoomNamesCover(b);
      var i := KeyIndex(RoomNames, a).value;
      var j := KeyIndex(RoomNames, b).value;
      GetRoomNameOfEntry(i);
      GetRoomNameOfEntry(j);
      RoomNameValuesDistinct();
      assert Values(RoomNames)[i] != Values(RoomNames)[j];
    }
    GetRoomNameOfEntry(3);
    GetRoomNameOfEntry(4);
  }
}
