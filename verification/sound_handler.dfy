/** The sound handler (src/Sound/SoundHandler.cpp): a table of named priorities, the
    registered sound packs with a lookup from sound id to the sound pack that owns it, lazy
    conversion of a sound on first use, and the map of live emitters.
    The audio loader and the audio player are parameters: `ToPcm16` is what
    `AudioLoader::ToPCM16` does to a sound, and `Player` holds what the player does to
    an emitter and the status it reports for an audio source. */
module SoundHandling {
  import opened Common
  import opened SoundPacks

  datatype AudioStatus = Playing | Paused | Stopped

  /** `AudioEmitter`. Ids and source numbers are unbounded; the source's are size_t and
      unsigned int. */
  datatype Emitter = Emitter(
    audioSourceId: nat, audioBufferId: nat, soundId: string, priority: int,
    position: Vec3, velocity: Vec3, radius: Vec2, volume: real, loop: int, world: bool)

  /** `AudioLoader::ToPCM16` on a sound. */
  type ToPcm16 = Sound -> Sound

  /** What the player does to an emitter passed by reference, and the status it
      reports for an audio source. */
  datatype Player = Player(
    setup: (Emitter, Sound) -> Emitter,
    play: Emitter -> Emitter,
    update: Emitter -> Emitter,
    status: nat -> AudioStatus)

  /** The handler's state: `_soundPriorities`, `_soundPacks`, `_soundIdLookup` (the
      position of the owning pack in `_soundPacks`, standing for the shared pointer) and
      `_emitters`. */
  datatype Handler = Handler(
    priorities: map<string, nat>,
    packs: seq<SoundPack>,
    lookup: map<string, nat>,
    emitters: map<nat, Emitter>)

  /** Every looked-up id is owned by the last registered pack holding it, and every id
      of a registered pack is looked up. */
  predicate Valid(h: Handler)
  {
    (forall id :: id in h.lookup ==>
      h.lookup[id] < |h.packs| && id in h.packs[h.lookup[id]].sounds
      && forall j :: h.lookup[id] < j < |h.packs| ==> id !in h.packs[j].sounds)
    && (forall j, id :: 0 <= j < |h.packs| && id in h.packs[j].sounds ==> id in h.lookup)
  }

  // ---------------------------------------------------------------------------
  // Priorities

  /** `addSoundPriority`: the name is given the number of names known before it is
      added (the right-hand side of the built-in assignment is evaluated first). A name
      already known is given the current count again. */
  function AddSoundPriority(priorities: map<string, nat>, name: string): (r: map<string, nat>)
    ensures name in r && r[name] == |priorities|
    ensures forall k :: k != name ==> (k in r <==> k in priorities)
    ensures forall k :: k != name && k in priorities ==> r[k] == priorities[k]
    ensures |r| == if name in priorities then |priorities| else |priorities| + 1
  {
    priorities[name := |priorities|]
  }

  /** `addSoundPriority` on each name in turn. */
  function AddSoundPriorities(priorities: map<string, nat>, names: seq<string>): map<string, nat>
    decreases |names|
  {
    if |names| == 0 then priorities
    else AddSoundPriorities(AddSoundPriority(priorities, names[0]), names[1..])
  }

  /** Adding new, pairwise distinct names numbers them consecutively from the count of
      names already known, and leaves the known names alone. */
  lemma {:induction false} PrioritiesAreRanks(priorities: map<string, nat>, names: seq<string>)
    requires Distinct(names)
    requires forall i :: 0 <= i < |names| ==> names[i] !in priorities
    ensures var r := AddSoundPriorities(priorities, names);
      |r| == |priorities| + |names|
      && (forall i :: 0 <= i < |names| ==> names[i] in r && r[names[i]] == |priorities| + i)
      && (forall k :: k in priorities ==> k in r && r[k] == priorities[k])
    decreases |names|
  {
    if |names| > 0 {
      var p := AddSoundPriority(priorities, names[0]);
      var rest := names[1..];
      assert forall i :: 0 <= i < |rest| ==> rest[i] == names[i + 1];
      PrioritiesAreRanks(p, rest);
      var r := AddSoundPriorities(p, rest);
      forall i | 0 <= i < |names|
        ensures names[i] in r && r[names[i]] == |priorities| + i
      {
        if i > 0 {
          assert names[i] == rest[i - 1];
        }
      }
    }
  }

  /** The names the constructor registers, in order. */
  const PriorityNames: seq<string> :=
    ["CRITICAL", "GUI", "MUSIC", "AMBIENCE", "PLAYER", "CREATURE", "GAMEPLAY_AMBIENT"]

  /** The constructor: the seven priorities, and no packs and no emitters. */
  function NewHandler(): (h: Handler)
    ensures Valid(h) && h.packs == [] && h.lookup == map[] && h.emitters == map[]
  {
    Handler(AddSoundPriorities(map[], PriorityNames), [], map[], map[])
  }

  lemma PriorityNamesDistinct()
    ensures Distinct(PriorityNames)
  {
    var n := PriorityNames;
    assert n[0][1] == 'R' && n[1][1] == 'U' && n[2][0] == 'M' && n[3][0] == 'A';
    assert n[4][0] == 'P' && n[5][1] == 'R' && n[6][1] == 'A';
    assert n[0][2] == 'I' && n[5][2] == 'E';
  }

  /** The constructor numbers the priorities CRITICAL = 0, GUI = 1, ... GAMEPLAY_AMBIENT = 6
      and knows no other name. */
  lemma ConstructorPriorities()
    ensures var r := NewHandler().priorities;
      |r| == 7 && forall i :: 0 <= i < 7 ==> PriorityNames[i] in r && r[PriorityNames[i]] == i
    ensures var r := NewHandler().priorities;
      "CRITICAL" in r && r["CRITICAL"] == 0 && "GAMEPLAY_AMBIENT" in r && r["GAMEPLAY_AMBIENT"] == 6
  {
    PriorityNamesDistinct();
    PrioritiesAreRanks(map[], PriorityNames);
    assert PriorityNames[0] == "CRITICAL" && PriorityNames[6] == "GAMEPLAY_AMBIENT";
  }

  /** `GetSoundPriority`: the priority of a known name; an unknown name is inserted with
      priority 0 (value-initialised by `operator[]`) and 0 is returned. */
  function GetSoundPriority(h: Handler, name: string): (r: (nat, Handler))
    ensures name in r.1.priorities && r.0 == r.1.priorities[name]
    ensures name in h.priorities ==> r == (h.priorities[name], h)
    ensures name !in h.priorities ==> r.0 == 0
    ensures forall k :: k != name ==> (k in r.1.priorities <==> k in h.priorities)
    ensures forall k :: k != name && k in h.priorities ==> r.1.priorities[k] == h.priorities[k]
    ensures r.1.packs == h.packs && r.1.lookup == h.lookup && r.1.emitters == h.emitters
  {
    if name in h.priorities then (h.priorities[name], h)
    else (0, h.(priorities := h.priorities[name := 0]))
  }

  /** Asking twice gives the same answer, and the second question changes nothing. */
  lemma GetSoundPriorityStable(h: Handler, name: string)
    ensures var (p, h1) := GetSoundPriority(h, name);
      GetSoundPriority(h1, name) == (p, h1)
  {}

  // ---------------------------------------------------------------------------
  // Packs

  /** `RegisterSoundPack`: the sound pack is appended, and every id it holds is looked up in
      it from now on; every other id keeps its owner. */
  function RegisterSoundPack(h: Handler, pack: SoundPack): (r: Handler)
    ensures r.packs == h.packs + [pack]
    ensures forall id :: id in pack.sounds ==> id in r.lookup && r.lookup[id] == |h.packs|
    ensures forall id :: id !in pack.sounds ==> (id in r.lookup <==> id in h.lookup)
    ensures forall id :: id !in pack.sounds && id in h.lookup ==> r.lookup[id] == h.lookup[id]
    ensures r.priorities == h.priorities && r.emitters == h.emitters
  {
    var n := |h.packs|;
    var lookup := map id | id in h.lookup.Keys + pack.sounds.Keys :: if id in pack.sounds then n else h.lookup[id];
    h.(packs := h.packs + [pack], lookup := lookup)
  }

  /** Registering keeps every id owned by the last registered pack that holds it. */
  lemma RegisterKeepsValid(h: Handler, pack: SoundPack)
    requires Valid(h)
    ensures Valid(RegisterSoundPack(h, pack))
  {
    var r := RegisterSoundPack(h, pack);
    var n := |h.packs|;
    assert forall j :: 0 <= j < n ==> r.packs[j] == h.packs[j];
    assert r.packs[n] == pack;
    forall id | id in r.lookup
      ensures r.lookup[id] < |r.packs| && id in r.packs[r.lookup[id]].sounds
      ensures forall j :: r.lookup[id] < j < |r.packs| ==> id !in r.packs[j].sounds
    {
      if id !in pack.sounds {
        assert id in h.lookup;
      }
    }
    forall j, id | 0 <= j < |r.packs| && id in r.packs[j].sounds
      ensures id in r.lookup
    {
      if j < n {
        assert id in h.packs[j].sounds;
      }
    }
  }

  /** The sound pack an id resolves to. */
  function PackOf(h: Handler, id: string): (r: SoundPack)
    requires Valid(h) && id in h.lookup
    ensures id in r.sounds && r in h.packs
  {
    h.packs[h.lookup[id]]
  }

  /** The last registered pack wins: an id held by the newest pack resolves to it,
      whatever earlier packs held the same id. */
  lemma LastRegisteredPackWins(h: Handler, a: SoundPack, b: SoundPack, id: string)
    requires Valid(h) && id in a.sounds && id in b.sounds
    ensures var r := RegisterSoundPack(RegisterSoundPack(h, a), b);
      Valid(r) && id in r.lookup && PackOf(r, id) == b
  {
    RegisterKeepsValid(h, a);
    RegisterKeepsValid(RegisterSoundPack(h, a), b);
    var r := RegisterSoundPack(RegisterSoundPack(h, a), b);
    assert r.packs[|h.packs| + 1] == b;
  }

  // ---------------------------------------------------------------------------
  // Sounds

  /** Writing a sound through the owning pack's pointer: only that pack's entry for
      `id` changes, and ownership stays as it was. */
  function StoreSound(h: Handler, id: string, s: Sound): (r: Handler)
    requires Valid(h) && id in h.lookup
    ensures Valid(r) && id in r.lookup && PackOf(r, id).sounds[id] == s
    ensures r.priorities == h.priorities && r.lookup == h.lookup && r.emitters == h.emitters
    ensures |r.packs| == |h.packs|
    ensures forall j :: 0 <= j < |h.packs| ==> r.packs[j].sounds.Keys == h.packs[j].sounds.Keys
    ensures forall j, k :: 0 <= j < |h.packs| && k in h.packs[j].sounds && (j != h.lookup[id] || k != id) ==>
      r.packs[j].sounds[k] == h.packs[j].sounds[k]
  {
    var i := h.lookup[id];
    var pack := h.packs[i];
    var r := h.(packs := h.packs[i := pack.(sounds := pack.sounds[id := s])]);
    assert forall j :: 0 <= j < |h.packs| && j != i ==> r.packs[j] == h.packs[j];
    r
  }

  /** `GetSound`: the id's sound in its owning pack. A sound not yet loaded is converted,
      marked loaded and stored back in the sound pack; a loaded one is returned as it is. */
  function GetSound(h: Handler, id: string, toPcm16: ToPcm16): (r: (Sound, Handler))
    requires Valid(h) && id in h.lookup
    ensures r.0.loaded && Valid(r.1)
    ensures var s := PackOf(h, id).sounds[id];
      (s.loaded ==> r == (s, h))
      && (!s.loaded ==> r.0 == toPcm16(s).(loaded := true) && r.1 == StoreSound(h, id, r.0))
    ensures r.1.priorities == h.priorities && r.1.lookup == h.lookup && r.1.emitters == h.emitters
  {
    var s := PackOf(h, id).sounds[id];
    if s.loaded then (s, h)
    else
      var loaded := toPcm16(s).(loaded := true);
      (loaded, StoreSound(h, id, loaded))
  }

  /** A sound is converted at most once: asking again, with any loader, returns the same
      sound and changes nothing. */
  lemma GetSoundLoadsOnce(h: Handler, id: string, first: ToPcm16, second: ToPcm16)
    requires Valid(h) && id in h.lookup
    ensures var (s, h1) := GetSound(h, id, first);
      id in h1.lookup && GetSound(h1, id, second) == (s, h1)
  {}

  // ---------------------------------------------------------------------------
  // Emitters

  /** The emitter `CreateEmitter` builds before the player sets it up. */
  function NewEmitter(id: string, sound: Sound, position: Vec3, velocity: Vec3, radius: Vec2,
                      volume: real, world: bool): (r: Emitter)
    ensures r.soundId == id && r.loop == sound.loopType && r.priority == 0
    ensures r.audioSourceId == 0 && r.audioBufferId == 0
  {
    Emitter(0, 0, id, 0, position, velocity, radius, volume, sound.loopType, world)
  }

  /** Validity is about packs and lookup only. */
  lemma ValidIgnoresEmitters(h: Handler, emitters: map<nat, Emitter>)
    requires Valid(h)
    ensures Valid(h.(emitters := emitters))
  {}

  /** `CreateEmitter(SoundId, ...)` as written: the new id is the number of emitters
      currently stored, and the emitter is stored under it whether or not the id is in
      use. */
  function CreateEmitterAsWritten(h: Handler, id: string, position: Vec3, velocity: Vec3, radius: Vec2,
                                  volume: real, world: bool, toPcm16: ToPcm16, player: Player): (r: (nat, Handler))
    requires Valid(h) && id in h.lookup
    ensures r.0 == |h.emitters| && Valid(r.1)
    ensures var (sound, h1) := GetSound(h, id, toPcm16);
      r.1.emitters == h.emitters[r.0 := player.play(player.setup(NewEmitter(id, sound, position, velocity, radius, volume, world), sound))]
      && r.1.packs == h1.packs
  {
    var (sound, h1) := GetSound(h, id, toPcm16);
    var emitterId := |h1.emitters|;
    var emitter := player.setup(NewEmitter(id, sound, position, velocity, radius, volume, world), sound);
    (emitterId, h1.(emitters := h1.emitters[emitterId := player.play(emitter)]))
  }

  /** `DestroyEmitter`: `operator[]` may insert a default emitter for the player to stop,
      but the erase that follows removes the id again, so the net effect is that exactly
      that id is gone. */
  function DestroyEmitter(h: Handler, id: nat): (r: Handler)
    ensures id !in r.emitters
    ensures forall k :: k != id ==> (k in r.emitters <==> k in h.emitters)
    ensures forall k :: k != id && k in h.emitters ==> r.emitters[k] == h.emitters[k]
    ensures r.priorities == h.priorities && r.packs == h.packs && r.lookup == h.lookup
  {
    h.(emitters := h.emitters - {id})
  }

  /** After two emitters were created and the first destroyed, only id 1 is in use and
      the count is 1: the next creation picks id 1, replaces the live emitter stored
      there, and the number of emitters does not grow. */
  lemma EmitterIdReused(h: Handler, id: string, position: Vec3, velocity: Vec3, radius: Vec2,
                        volume: real, world: bool, toPcm16: ToPcm16, player: Player)
    requires Valid(h) && id in h.lookup && h.emitters.Keys == {1}
    ensures var r := CreateEmitterAsWritten(h, id, position, velocity, radius, volume, world, toPcm16, player);
      r.0 == 1 && r.0 in h.emitters && |r.1.emitters| == |h.emitters|
  {
    assert |h.emitters| == |h.emitters.Keys| == 1;
    var r := CreateEmitterAsWritten(h, id, position, velocity, radius, volume, world, toPcm16, player);
    assert r.1.emitters.Keys == {1};
  }

  /** The least id at or above `n` that is not in use. */
  function FreshId(used: set<nat>, n: nat): (r: nat)
    ensures r >= n && r !in used
    ensures forall k :: n <= k < r ==> k in used
    decreases used
  {
    if n !in used then n else FreshId(used - {n}, n + 1)
  }

  /** Stores an emitter under the least free id at or above the number of emitters. */
  function AddEmitter(h: Handler, e: Emitter): (r: (nat, Handler))
    ensures r.0 !in h.emitters && r.0 >= |h.emitters|
    ensures |h.emitters| !in h.emitters ==> r.0 == |h.emitters|
    ensures (forall k :: k in r.1.emitters <==> k in h.emitters || k == r.0)
    ensures forall k :: k in h.emitters ==> k in r.1.emitters && r.1.emitters[k] == h.emitters[k]
    ensures r.0 in r.1.emitters && r.1.emitters[r.0] == e && |r.1.emitters| == |h.emitters| + 1
    ensures r.1.priorities == h.priorities && r.1.packs == h.packs && r.1.lookup == h.lookup
  {
    var emitterId := FreshId(h.emitters.Keys, |h.emitters|);
    var emitters := h.emitters[emitterId := e];
    assert forall k :: k in h.emitters ==> k in emitters && emitters[k] == h.emitters[k] by {
      forall k | k in h.emitters ensures k in emitters && emitters[k] == h.emitters[k] {
        assert k != emitterId;
      }
    }
    (emitterId, h.(emitters := emitters))
  }

  /** `CreateEmitter(SoundId, ...)` with the id collision removed: the new id is the
      number of stored emitters when that id is free, and otherwise the next free id
      above it, so no live emitter is ever replaced. */
  function CreateEmitter(h: Handler, id: string, position: Vec3, velocity: Vec3, radius: Vec2,
                         volume: real, world: bool, toPcm16: ToPcm16, player: Player): (r: (nat, Handler))
    requires Valid(h) && id in h.lookup
    ensures Valid(r.1) && r.0 !in h.emitters && r.0 >= |h.emitters| && |r.1.emitters| == |h.emitters| + 1
    ensures (forall k :: k in r.1.emitters <==> k in h.emitters || k == r.0)
    ensures forall k :: k in h.emitters ==> k in r.1.emitters && r.1.emitters[k] == h.emitters[k]
    ensures var (sound, h1) := GetSound(h, id, toPcm16);
      var e := player.play(player.setup(NewEmitter(id, sound, position, velocity, radius, volume, world), sound));
      r.0 in r.1.emitters && r.1.emitters[r.0] == e && r.1.packs == h1.packs
  {
    var (sound, h1) := GetSound(h, id, toPcm16);
    var emitter := player.setup(NewEmitter(id, sound, position, velocity, radius, volume, world), sound);
    var r := AddEmitter(h1, player.play(emitter));
    ValidIgnoresEmitters(h1, r.1.emitters);
    assert r.1 == h1.(emitters := r.1.emitters);
    r
  }

  /** Where the id the source picks is free, the corrected creation is the source's. */
  lemma CreateEmitterAgrees(h: Handler, id: string, position: Vec3, velocity: Vec3, radius: Vec2,
                            volume: real, world: bool, toPcm16: ToPcm16, player: Player)
    requires Valid(h) && id in h.lookup && |h.emitters| !in h.emitters
    ensures CreateEmitter(h, id, position, velocity, radius, volume, world, toPcm16, player)
      == CreateEmitterAsWritten(h, id, position, velocity, radius, volume, world, toPcm16, player)
  {}

  /** Destroying the emitter just created gives back the emitters there were before. */
  lemma CreateThenDestroy(h: Handler, id: string, position: Vec3, velocity: Vec3, radius: Vec2,
                          volume: real, world: bool, toPcm16: ToPcm16, player: Player)
    requires Valid(h) && id in h.lookup
    ensures var (k, h1) := CreateEmitter(h, id, position, velocity, radius, volume, world, toPcm16, player);
      DestroyEmitter(h1, k).emitters == h.emitters
  {
    var (k, h1) := CreateEmitter(h, id, position, velocity, radius, volume, world, toPcm16, player);
    assert DestroyEmitter(h1, k).emitters.Keys == h.emitters.Keys;
  }

  /** The same round trip for the source's creation: it holds exactly when the id it
      picks was free; otherwise the destroy also removes the live emitter that the
      creation replaced. */
  lemma CreateThenDestroyAsWritten(h: Handler, id: string, position: Vec3, velocity: Vec3, radius: Vec2,
                                   volume: real, world: bool, toPcm16: ToPcm16, player: Player)
    requires Valid(h) && id in h.lookup
    ensures var (k, h1) := CreateEmitterAsWritten(h, id, position, velocity, radius, volume, world, toPcm16, player);
      && (k !in h.emitters ==> DestroyEmitter(h1, k).emitters == h.emitters)
      && (k in h.emitters ==> k !in DestroyEmitter(h1, k).emitters && |DestroyEmitter(h1, k).emitters| == |h.emitters| - 1)
  {
    var (k, h1) := CreateEmitterAsWritten(h, id, position, velocity, radius, volume, world, toPcm16, player);
    var d := DestroyEmitter(h1, k).emitters;
    if k !in h.emitters {
      assert d.Keys == h.emitters.Keys;
    } else {
      assert d.Keys == h.emitters.Keys - {k};
    }
  }

  /** Emitter ids `0 .. n-1` for `n` emitters: what a handler keeps while emitters are
      only ever created. */
  ghost predicate DenseIds(emitters: map<nat, Emitter>)
  {
    forall k: nat :: k in emitters <==> k < |emitters|
  }

  /** While the ids are dense (no emitter has been destroyed), the source's id choice is
      free, so creation adds exactly one emitter and keeps the ids dense. */
  lemma {:induction false} CreateEmitterAsWrittenDense(h: Handler, id: string, position: Vec3, velocity: Vec3, radius: Vec2,
                                                       volume: real, world: bool, toPcm16: ToPcm16, player: Player)
    requires Valid(h) && id in h.lookup
    ensures var r := CreateEmitterAsWritten(h, id, position, velocity, radius, volume, world, toPcm16, player);
      DenseIds(h.emitters) ==>
      && r.0 !in h.emitters && DenseIds(r.1.emitters) && |r.1.emitters| == |h.emitters| + 1
      && forall k :: k in h.emitters ==> k in r.1.emitters && r.1.emitters[k] == h.emitters[k]
  {
    if DenseIds(h.emitters) {
      var r := CreateEmitterAsWritten(h, id, position, velocity, radius, volume, world, toPcm16, player);
      var n := |h.emitters|;
      assert n !in h.emitters;
      assert |r.1.emitters| == n + 1;
      forall k: nat ensures k in r.1.emitters <==> k < |r.1.emitters| {
        if k < n {
          assert k in h.emitters;
        }
      }
    }
  }

  /** `PlaySound`: `CreateEmitter` with unit position, velocity and radius, full volume,
      not in the world. Since that creation stores under the emitter count, a live
      emitter holding that id is replaced; while no emitter has been destroyed, the ids
      stay dense and the count grows by one. */
  function PlaySound(h: Handler, id: string, toPcm16: ToPcm16, player: Player): (r: Handler)
    requires Valid(h) && id in h.lookup
    ensures Valid(r)
    ensures var (sound, h1) := GetSound(h, id, toPcm16);
      var one := Vec3(1.0, 1.0, 1.0);
      && r.emitters == h.emitters[|h.emitters| := player.play(player.setup(NewEmitter(id, sound, one, one, Vec2(1.0, 1.0), 1.0, false), sound))]
      && r.packs == h1.packs
    ensures |h.emitters| in h.emitters ==> |r.emitters| == |h.emitters|
    ensures DenseIds(h.emitters) ==> DenseIds(r.emitters) && |r.emitters| == |h.emitters| + 1
  {
    var one := Vec3(1.0, 1.0, 1.0);
    CreateEmitterAsWrittenDense(h, id, one, one, Vec2(1.0, 1.0), 1.0, false, toPcm16, player);
    var (k, r) := CreateEmitterAsWritten(h, id, one, one, Vec2(1.0, 1.0), 1.0, false, toPcm16, player);
    r
  }

  /** `CreateEmitter(std::vector<SoundId>, ...)`: one id drawn at random, then the
      single-id creation as written; the draw is the parameter `choice`. An empty list
      leaves `out[0]` undefined, hence the precondition. */
  function CreateEmitterFrom(h: Handler, ids: seq<string>, choice: nat, position: Vec3, velocity: Vec3,
                             radius: Vec2, volume: real, world: bool, toPcm16: ToPcm16, player: Player): (r: (nat, Handler))
    requires Valid(h) && choice < |ids| && ids[choice] in h.lookup
    ensures Valid(r.1) && r.0 == |h.emitters|
    ensures forall k :: k in r.1.emitters <==> k in h.emitters || k == r.0
    ensures forall k :: k in h.emitters && k != r.0 ==> r.1.emitters[k] == h.emitters[k]
    ensures var (sound, h1) := GetSound(h, ids[choice], toPcm16);
      && r.1.emitters[r.0] == player.play(player.setup(NewEmitter(ids[choice], sound, position, velocity, radius, volume, world), sound))
      && r.1.packs == h1.packs
    ensures DenseIds(h.emitters) ==> r.0 !in h.emitters && DenseIds(r.1.emitters)
  {
    CreateEmitterAsWrittenDense(h, ids[choice], position, velocity, radius, volume, world, toPcm16, player);
    CreateEmitterAsWritten(h, ids[choice], position, velocity, radius, volume, world, toPcm16, player)
  }

  /** The player keeps an emitter while its source is playing or paused. */
  predicate Live(player: Player, e: Emitter)
  {
    player.status(e.audioSourceId) == Playing || player.status(e.audioSourceId) == Paused
  }

  /** `Tick`: every emitter is updated by the player, then exactly those whose source is
      neither playing nor paused are erased. */
  function Tick(h: Handler, player: Player): (r: Handler)
    ensures forall k :: k in r.emitters <==> k in h.emitters && Live(player, player.update(h.emitters[k]))
    ensures forall k :: k in r.emitters ==> r.emitters[k] == player.update(h.emitters[k])
    ensures r.priorities == h.priorities && r.packs == h.packs && r.lookup == h.lookup
  {
    var updated := map k | k in h.emitters :: player.update(h.emitters[k]);
    h.(emitters := map k | k in updated && Live(player, updated[k]) :: updated[k])
  }

  /** With a player whose update changes nothing, a second tick keeps every emitter the
      first one kept. */
  lemma TickSettles(h: Handler, player: Player)
    requires forall e :: player.update(e) == e
    ensures Tick(Tick(h, player), player) == Tick(h, player)
  {
    var r := Tick(h, player);
    assert Tick(r, player).emitters == r.emitters;
  }

  // ---------------------------------------------------------------------------
  // Listing

  /** `m` is the least element of `s`. */
  predicate IsMin(m: nat, s: set<nat>)
  {
    m in s && forall k :: k in s ==> m <= k
  }

  lemma {:induction false} MinExists(s: set<nat>)
    requires s != {}
    ensures exists m :: IsMin(m, s)
    decreases s
  {
    var x :| x in s;
    var rest := s - {x};
    if rest == {} {
      forall k | k in s ensures x <= k {
        assert k !in rest;
      }
      assert IsMin(x, s);
    } else {
      MinExists(rest);
      var m :| IsMin(m, rest);
      var least := if x < m then x else m;
      forall k | k in s ensures least <= k {
        if k != x {
          assert k in rest;
        }
      }
      assert IsMin(least, s);
    }
  }

  /** The least element of a non-empty set of ids. */
  function Min(s: set<nat>): (m: nat)
    requires s != {}
    ensures m in s && forall k :: k in s ==> m <= k
  {
    MinExists(s);
    var m :| IsMin(m, s);
    m
  }

  /** `r` lists the elements of `s`, each once, in ascending order. */
  ghost predicate AscendingListOf(r: seq<nat>, s: set<nat>)
  {
    |r| == |s|
    && (forall k :: k in r <==> k in s)
    && (forall i :: 0 <= i < |r| ==> r[i] in s)
    && (forall i, j :: 0 <= i < j < |r| ==> r[i] < r[j])
  }

  /** The least element followed by the ascending list of the others is the ascending
      list of the whole set. */
  lemma {:induction false} AscendingCons(m: nat, s: set<nat>, rest: seq<nat>)
    requires IsMin(m, s) && AscendingListOf(rest, s - {m})
    ensures AscendingListOf([m] + rest, s)
  {
    var r := [m] + rest;
    assert |s - {m}| == |s| - 1;
    forall i | 0 <= i < |r| ensures r[i] in s {
      if i > 0 {
        assert r[i] == rest[i - 1];
      }
    }
    forall k ensures k in r <==> k in s {
      if k in s && k != m {
        assert k in rest;
      }
    }
    forall i, j | 0 <= i < j < |r| ensures r[i] < r[j] {
      assert r[j] == rest[j - 1] && rest[j - 1] in rest;
      if i > 0 {
        assert r[i] == rest[i - 1];
      }
    }
  }

  /** The elements of a finite set of ids in ascending order: the order in which a
      std::map is iterated. */
  function SortedKeys(s: set<nat>): (r: seq<nat>)
    ensures AscendingListOf(r, s)
    decreases s
  {
    if s == {} then []
    else
      var m := Min(s);
      var rest := SortedKeys(s - {m});
      AscendingCons(m, s, rest);
      [m] + rest
  }

  /** `GetActiveEmitters`: the stored emitters in ascending id order. */
  function GetActiveEmitters(h: Handler): (r: seq<Emitter>)
    ensures |r| == |h.emitters|
    ensures var ids := SortedKeys(h.emitters.Keys);
      forall i :: 0 <= i < |r| ==> ids[i] in h.emitters && r[i] == h.emitters[ids[i]]
  {
    var ids := SortedKeys(h.emitters.Keys);
    seq(|ids|, i requires 0 <= i < |ids| => h.emitters[ids[i]])
  }

  /** Every stored emitter is listed, and the emitters listed before it are exactly
      those with smaller ids. */
  lemma ActiveEmittersListAll(h: Handler, k: nat)
    requires k in h.emitters
    ensures exists i :: (0 <= i < |GetActiveEmitters(h)| && GetActiveEmitters(h)[i] == h.emitters[k]
      && forall j :: 0 <= j < |GetActiveEmitters(h)| ==> (j < i <==> SortedKeys(h.emitters.Keys)[j] < k))
  {
    var ids := SortedKeys(h.emitters.Keys);
    var r := GetActiveEmitters(h);
    assert k in ids;
    var i :| 0 <= i < |ids| && ids[i] == k;
    assert r[i] == h.emitters[k];
    forall j | 0 <= j < |r| ensures j < i <==> ids[j] < k {
      if j < i {
        assert ids[j] < ids[i];
      } else if j > i {
        assert ids[i] < ids[j];
      }
    }
  }
}
