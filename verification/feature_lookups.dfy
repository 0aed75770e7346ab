/** The string-to-enumeration tables of src/LHScriptX/FeatureScriptCommands.cpp and the
    lookups over them: abode kinds (falling back to the Tibetan wonder), features
    (falling back to the ark), the villager "TRIBE_ROLE" split, and the mesh chosen for
    an animated static. The abode table is written as seven runs, one per tribe. */
module FeatureLookups {
  import opened Common
  import opened Strings

  datatype AbodeTribe = Norse | Celtic | Japanese | Aztec | Tibetan | Indian | Greek
  datatype AbodeKind =
    | TownCentre | StoragePit | Graveyard | Workshop | Creche | Hut
    | ShackX | ShackY | Tent | TempleX | TempleY | Wonder

  /** `Abode::Info`: one enumerator per tribe and kind, e.g. NorseTownCentre. */
  datatype AbodeInfo = AbodeInfo(tribe: AbodeTribe, kind: AbodeKind)

  const AbodeTribes: seq<AbodeTribe> := [Norse, Celtic, Japanese, Aztec, Tibetan, Indian, Greek]
  const AbodeKinds: seq<AbodeKind> :=
    [TownCentre, StoragePit, Graveyard, Workshop, Creche, Hut, ShackX, ShackY, Tent, TempleX, TempleY, Wonder]

  const TibetanWonder: AbodeInfo := AbodeInfo(Tibetan, Wonder)

  /** Entries at lines 51-62. */
  const NorseAbodes: seq<(string, AbodeInfo)> := [
    ("NORSE_ABODE_TOWN_CENTRE", AbodeInfo(Norse, TownCentre)),
    ("NORSE_ABODE_STORAGE_PIT", AbodeInfo(Norse, StoragePit)),
    ("NORSE_ABODE_GRAVEYARD", AbodeInfo(Norse, Graveyard)),
    ("NORSE_ABODE_WORKSHOP", AbodeInfo(Norse, Workshop)),
    ("NORSE_ABODE_CRECHE", AbodeInfo(Norse, Creche)),
    ("NORSE_ABODE_A", AbodeInfo(Norse, Hut)),
    ("NORSE_ABODE_B", AbodeInfo(Norse, ShackX)),
    ("NORSE_ABODE_C", AbodeInfo(Norse, ShackY)),
    ("NORSE_ABODE_D", AbodeInfo(Norse, Tent)),
    ("NORSE_ABODE_E", AbodeInfo(Norse, TempleX)),
    ("NORSE_ABODE_F", AbodeInfo(Norse, TempleY)),
    ("NORSE_ABODE_WONDER", AbodeInfo(Norse, Wonder))]

  /** Entries at lines 64-75. */
  const CelticAbodes: seq<(string, AbodeInfo)> := [
    ("CELTIC_ABODE_TOWN_CENTRE", AbodeInfo(Celtic, TownCentre)),
    ("CELTIC_ABODE_STORAGE_PIT", AbodeInfo(Celtic, StoragePit)),
    ("CELTIC_ABODE_GRAVEYARD", AbodeInfo(Celtic, Graveyard)),
    ("CELTIC_ABODE_WORKSHOP", AbodeInfo(Celtic, Graveyard)),
    ("CELTIC_ABODE_CRECHE", AbodeInfo(Celtic, Creche)),
    ("CELTIC_ABODE_A", AbodeInfo(Celtic, Hut)),
    ("CELTIC_ABODE_B", AbodeInfo(Celtic, ShackX)),
    ("CELTIC_ABODE_C", AbodeInfo(Celtic, ShackY)),
    ("CELTIC_ABODE_D", AbodeInfo(Celtic, Tent)),
    ("CELTIC_ABODE_E", AbodeInfo(Celtic, TempleX)),
    ("CELTIC_ABODE_F", AbodeInfo(Celtic, TempleY)),
    ("CELTIC_ABODE_WONDER", AbodeInfo(Celtic, Wonder))]

  /** Entries at lines 77-88. */
  const JapaneseAbodes: seq<(string, AbodeInfo)> := [
    ("JAPANESE_ABODE_TOWN_CENTRE", AbodeInfo(Japanese, TownCentre)),
    ("JAPANESE_ABODE_STORAGE_PIT", AbodeInfo(Japanese, StoragePit)),
    ("JAPANESE_ABODE_GRAVEYARD", AbodeInfo(Japanese, Graveyard)),
    ("JAPANESE_ABODE_WORKSHOP", AbodeInfo(Japanese, Workshop)),
    ("JAPANESE_ABODE_CRECHE", AbodeInfo(Japanese, Creche)),
    ("JAPANESE_ABODE_A", AbodeInfo(Japanese, Hut)),
    ("JAPANESE_ABODE_B", AbodeInfo(Japanese, ShackX)),
    ("JAPANESE_ABODE_C", AbodeInfo(Japanese, ShackY)),
    ("JAPANESE_ABODE_D", AbodeInfo(Japanese, Tent)),
    ("JAPANESE_ABODE_E", AbodeInfo(Japanese, TempleX)),
    ("JAPANESE_ABODE_F", AbodeInfo(Japanese, TempleY)),
    ("JAPANESE_ABODE_WONDER", AbodeInfo(Japanese, Wonder))]

  /** Entries at lines 90-101. */
  const AztecAbodes: seq<(string, AbodeInfo)> := [
    ("AZTEC_ABODE_TOWN_CENTRE", AbodeInfo(Aztec, TownCentre)),
    ("AZTEC_ABODE_STORAGE_PIT", AbodeInfo(Aztec, StoragePit)),
    ("AZTEC_ABODE_GRAVEYARD", AbodeInfo(Aztec, Graveyard)),
    ("AZTEC_ABODE_WORKSHOP", AbodeInfo(Aztec, Graveyard)),
    ("AZTEC_ABODE_CRECHE", AbodeInfo(Aztec, Creche)),
    ("AZTEC_ABODE_A", AbodeInfo(Aztec, Hut)),
    ("AZTEC_ABODE_B", AbodeInfo(Aztec, ShackX)),
    ("AZTEC_ABODE_C", AbodeInfo(Aztec, ShackY)),
    ("AZTEC_ABODE_D", AbodeInfo(Aztec, Tent)),
    ("AZTEC_ABODE_E", AbodeInfo(Aztec, TempleX)),
    ("AZTEC_ABODE_F", AbodeInfo(Aztec, TempleY)),
    ("AZTEC_ABODE_WONDER", AbodeInfo(Aztec, Wonder))]

  /** Entries at lines 103-114. */
  const TibetanAbodes: seq<(string, AbodeInfo)> := [
    ("TIBETAN_ABODE_TOWN_CENTRE", AbodeInfo(Tibetan, TownCentre)),
    ("TIBETAN_ABODE_STORAGE_PIT", AbodeInfo(Tibetan, StoragePit)),
    ("TIBETAN_ABODE_GRAVEYARD", AbodeInfo(Tibetan, Graveyard)),
    ("TIBETAN_ABODE_WORKSHOP", AbodeInfo(Tibetan, Workshop)),
    ("TIBETAN_ABODE_CRECHE", AbodeInfo(Tibetan, Creche)),
    ("TIBETAN_ABODE_A", AbodeInfo(Tibetan, Hut)),
    ("TIBETAN_ABODE_B", AbodeInfo(Tibetan, ShackX)),
    ("TIBETAN_ABODE_C", AbodeInfo(Tibetan, ShackY)),
    ("TIBETAN_ABODE_D", AbodeInfo(Tibetan, Tent)),
    ("TIBETAN_ABODE_E", AbodeInfo(Tibetan, TempleX)),
    ("TIBETAN_ABODE_F", AbodeInfo(Tibetan, TempleY)),
    ("TIBETAN_ABODE_WONDER", AbodeInfo(Tibetan, Wonder))]

  /** Entries at lines 116-127. */
  const IndianAbodes: seq<(string, AbodeInfo)> := [
    ("INDIAN_ABODE_TOWN_CENTRE", AbodeInfo(Indian, TownCentre)),
    ("INDIAN_ABODE_STORAGE_PIT", AbodeInfo(Indian, StoragePit)),
    ("INDIAN_ABODE_GRAVEYARD", AbodeInfo(Indian, Graveyard)),
    ("INDIAN_ABODE_WORKSHOP", AbodeInfo(Indian, Workshop)),
    ("INDIAN_ABODE_CRECHE", AbodeInfo(Indian, Creche)),
    ("INDIAN_ABODE_A", AbodeInfo(Indian, Hut)),
    ("INDIAN_ABODE_B", AbodeInfo(Indian, ShackX)),
    ("INDIAN_ABODE_C", AbodeInfo(Indian, ShackY)),
    ("INDIAN_ABODE_D", AbodeInfo(Indian, Tent)),
    ("INDIAN_ABODE_E", AbodeInfo(Indian, TempleX)),
    ("INDIAN_ABODE_F", AbodeInfo(Indian, TempleY)),
    ("INDIAN_ABODE_WONDER", AbodeInfo(Indian, Wonder))]

  /** Entries at lines 129-140. */
  const GreekAbodes: seq<(string, AbodeInfo)> := [
    ("GREEK_ABODE_TOWN_CENTRE", AbodeInfo(Greek, TownCentre)),
    ("GREEK_ABODE_STORAGE_PIT", AbodeInfo(Greek, StoragePit)),
    ("GREEK_ABODE_GRAVEYARD", AbodeInfo(Greek, Graveyard)),
    ("GREEK_ABODE_WORKSHOP", AbodeInfo(Greek, Workshop)),
    ("GREEK_ABODE_CRECHE", AbodeInfo(Greek, Creche)),
    ("GREEK_ABODE_A", AbodeInfo(Greek, Hut)),
    ("GREEK_ABODE_B", AbodeInfo(Greek, ShackX)),
    ("GREEK_ABODE_C", AbodeInfo(Greek, ShackY)),
    ("GREEK_ABODE_D", AbodeInfo(Greek, Tent)),
    ("GREEK_ABODE_E", AbodeInfo(Greek, TempleX)),
    ("GREEK_ABODE_F", AbodeInfo(Greek, TempleY)),
    ("GREEK_ABODE_WONDER", AbodeInfo(Greek, Wonder))]

  /** `abodeIdLookup`, in declaration order. */
  const AbodeIdLookup: seq<(string, AbodeInfo)> :=
    NorseAbodes + CelticAbodes + JapaneseAbodes + AztecAbodes + TibetanAbodes + IndianAbodes + GreekAbodes

  lemma NorseAbodeKeysDistinct()
    ensures Distinct(Keys(NorseAbodes))
  {}

  lemma CelticAbodeKeysDistinct()
    ensures Distinct(Keys(CelticAbodes))
  {}

  lemma JapaneseAbodeKeysDistinct()
    ensures Distinct(Keys(JapaneseAbodes))
  {}

  lemma AztecAbodeKeysDistinct()
    ensures Distinct(Keys(AztecAbodes))
  {}

  lemma TibetanAbodeKeysDistinct()
    ensures Distinct(Keys(TibetanAbodes))
  {}

  lemma IndianAbodeKeysDistinct()
    ensures Distinct(Keys(IndianAbodes))
  {}

  lemma GreekAbodeKeysDistinct()
    ensures Distinct(Keys(GreekAbodes))
  {}

  lemma NorseCelticAbodeKeysDisjoint()
    ensures Disjoint(Keys(NorseAbodes), Keys(CelticAbodes))
  {}

  lemma NorseJapaneseAbodeKeysDisjoint()
    ensures Disjoint(Keys(NorseAbodes), Keys(JapaneseAbodes))
  {}

  lemma NorseAztecAbodeKeysDisjoint()
    ensures Disjoint(Keys(NorseAbodes), Keys(AztecAbodes))
  {}

  lemma NorseTibetanAbodeKeysDisjoint()
    ensures Disjoint(Keys(NorseAbodes), Keys(TibetanAbodes))
  {}

  lemma NorseIndianAbodeKeysDisjoint()
    ensures Disjoint(Keys(NorseAbodes), Keys(IndianAbodes))
  {}

  lemma NorseGreekAbodeKeysDisjoint()
    ensures Disjoint(Keys(NorseAbodes), Keys(GreekAbodes))
  {}

  lemma CelticJapaneseAbodeKeysDisjoint()
    ensures Disjoint(Keys(CelticAbodes), Keys(JapaneseAbodes))
  {}

  lemma CelticAztecAbodeKeysDisjoint()
    ensures Disjoint(Keys(CelticAbodes), Keys(AztecAbodes))
  {}

  lemma CelticTibetanAbodeKeysDisjoint()
    ensures Disjoint(Keys(CelticAbodes), Keys(TibetanAbodes))
  {}

  lemma CelticIndianAbodeKeysDisjoint()
    ensures Disjoint(Keys(CelticAbodes), Keys(IndianAbodes))
  {}

  lemma CelticGreekAbodeKeysDisjoint()
    ensures Disjoint(Keys(CelticAbodes), Keys(GreekAbodes))
  {}

  lemma JapaneseAztecAbodeKeysDisjoint()
    ensures Disjoint(Keys(JapaneseAbodes), Keys(AztecAbodes))
  {}

  lemma JapaneseTibetanAbodeKeysDisjoint()
    ensures Disjoint(Keys(JapaneseAbodes), Keys(TibetanAbodes))
  {}

  lemma JapaneseIndianAbodeKeysDisjoint()
    ensures Disjoint(Keys(JapaneseAbodes), Keys(IndianAbodes))
  {}

  lemma JapaneseGreekAbodeKeysDisjoint()
    ensures Disjoint(Keys(JapaneseAbodes), Keys(GreekAbodes))
  {}

  lemma AztecTibetanAbodeKeysDisjoint()
    ensures Disjoint(Keys(AztecAbodes), Keys(TibetanAbodes))
  {}

  lemma AztecIndianAbodeKeysDisjoint()
    ensures Disjoint(Keys(AztecAbodes), Keys(IndianAbodes))
  {}

  lemma AztecGreekAbodeKeysDisjoint()
    ensures Disjoint(Keys(AztecAbodes), Keys(GreekAbodes))
  {}

  lemma TibetanIndianAbodeKeysDisjoint()
    ensures Disjoint(Keys(TibetanAbodes), Keys(IndianAbodes))
  {}

  lemma TibetanGreekAbodeKeysDisjoint()
    ensures Disjoint(Keys(TibetanAbodes), Keys(GreekAbodes))
  {}

  lemma IndianGreekAbodeKeysDisjoint()
    ensures Disjoint(Keys(IndianAbodes), Keys(GreekAbodes))
  {}

  /** Appending a run whose keys are new keeps a table free of repeated keys. */
  lemma AppendRun(p: seq<(string, AbodeInfo)>, r: seq<(string, AbodeInfo)>)
    requires Distinct(Keys(p)) && Distinct(Keys(r)) && Disjoint(Keys(p), Keys(r))
    ensures Distinct(Keys(p + r))
  {
    KeysOfConcat(p, r);
    DistinctConcat(Keys(p), Keys(r));
  }

  lemma AppendRunDisjoint(p: seq<(string, AbodeInfo)>, r: seq<(string, AbodeInfo)>, q: seq<(string, AbodeInfo)>)
    requires Disjoint(Keys(p), Keys(q)) && Disjoint(Keys(r), Keys(q))
    ensures Disjoint(Keys(p + r), Keys(q))
  {
    KeysOfConcat(p, r);
    DisjointConcat(Keys(p), Keys(r), Keys(q));
  }

  /** The abode table has 84 entries and no key twice. */
  lemma {:induction false} AbodeKeysDistinct()
    ensures |AbodeIdLookup| == 84
    ensures Distinct(Keys(AbodeIdLookup))
  {
    NorseAbodeKeysDistinct();
    CelticAbodeKeysDistinct();
    JapaneseAbodeKeysDistinct();
    AztecAbodeKeysDistinct();
    TibetanAbodeKeysDistinct();
    IndianAbodeKeysDistinct();
    GreekAbodeKeysDistinct();
    NorseCelticAbodeKeysDisjoint();
    NorseJapaneseAbodeKeysDisjoint();
    NorseAztecAbodeKeysDisjoint();
    NorseTibetanAbodeKeysDisjoint();
    NorseIndianAbodeKeysDisjoint();
    NorseGreekAbodeKeysDisjoint();
    CelticJapaneseAbodeKeysDisjoint();
    CelticAztecAbodeKeysDisjoint();
    CelticTibetanAbodeKeysDisjoint();
    CelticIndianAbodeKeysDisjoint();
    CelticGreekAbodeKeysDisjoint();
    JapaneseAztecAbodeKeysDisjoint();
    JapaneseTibetanAbodeKeysDisjoint();
    JapaneseIndianAbodeKeysDisjoint();
    JapaneseGreekAbodeKeysDisjoint();
    AztecTibetanAbodeKeysDisjoint();
    AztecIndianAbodeKeysDisjoint();
    AztecGreekAbodeKeysDisjoint();
    TibetanIndianAbodeKeysDisjoint();
    TibetanGreekAbodeKeysDisjoint();
    IndianGreekAbodeKeysDisjoint();
    AppendRun(NorseAbodes, CelticAbodes);
    AppendRunDisjoint(NorseAbodes, CelticAbodes, JapaneseAbodes);
    AppendRunDisjoint(NorseAbodes, CelticAbodes, AztecAbodes);
    AppendRunDisjoint(NorseAbodes, CelticAbodes, TibetanAbodes);
    AppendRunDisjoint(NorseAbodes, CelticAbodes, IndianAbodes);
    AppendRunDisjoint(NorseAbodes, CelticAbodes, GreekAbodes);
    AppendRun(NorseAbodes + CelticAbodes, JapaneseAbodes);
    AppendRunDisjoint(NorseAbodes + CelticAbodes, JapaneseAbodes, AztecAbodes);
    AppendRunDisjoint(NorseAbodes + CelticAbodes, JapaneseAbodes, TibetanAbodes);
    AppendRunDisjoint(NorseAbodes + CelticAbodes, JapaneseAbodes, IndianAbodes);
    AppendRunDisjoint(NorseAbodes + CelticAbodes, JapaneseAbodes, GreekAbodes);
    AppendRun(NorseAbodes + CelticAbodes + JapaneseAbodes, AztecAbodes);
    AppendRunDisjoint(NorseAbodes + CelticAbodes + JapaneseAbodes, AztecAbodes, TibetanAbodes);
    AppendRunDisjoint(NorseAbodes + CelticAbodes + JapaneseAbodes, AztecAbodes, IndianAbodes);
    AppendRunDisjoint(NorseAbodes + CelticAbodes + JapaneseAbodes, AztecAbodes, GreekAbodes);
    AppendRun(NorseAbodes + CelticAbodes + JapaneseAbodes + AztecAbodes, TibetanAbodes);
    AppendRunDisjoint(NorseAbodes + CelticAbodes + JapaneseAbodes + AztecAbodes, TibetanAbodes, IndianAbodes);
    AppendRunDisjoint(NorseAbodes + CelticAbodes + JapaneseAbodes + AztecAbodes, TibetanAbodes, GreekAbodes);
    AppendRun(NorseAbodes + CelticAbodes + JapaneseAbodes + AztecAbodes + TibetanAbodes, IndianAbodes);
    AppendRunDisjoint(NorseAbodes + CelticAbodes + JapaneseAbodes + AztecAbodes + TibetanAbodes, IndianAbodes, GreekAbodes);
    AppendRun(NorseAbodes + CelticAbodes + JapaneseAbodes + AztecAbodes + TibetanAbodes + IndianAbodes, GreekAbodes);
  }

  /** `GetAbodeInfo`: the mapped value of a known key, TibetanWonder for any other. */
  function GetAbodeInfo(abodeType: string): (r: AbodeInfo)
    ensures abodeType in Keys(AbodeIdLookup) ==> (abodeType, r) in AbodeIdLookup
    ensures abodeType !in Keys(AbodeIdLookup) ==> r == TibetanWonder
  {
    match Lookup(AbodeIdLookup, abodeType)
    case Some(info) => info
    case None => TibetanWonder
  }

  /** Every key of the table looks up its own entry's value. */
  lemma GetAbodeInfoOfEntry(i: nat)
    requires i < |AbodeIdLookup|
    ensures GetAbodeInfo(AbodeIdLookup[i].0) == AbodeIdLookup[i].1
  {
    AbodeKeysDistinct();
    LookupOfDistinct(AbodeIdLookup, i);
  }

  /** Any entry of the table, wherever it sits, is what its key looks up. */
  lemma GetAbodeInfoOfMember(abodeType: string, info: AbodeInfo)
    requires (abodeType, info) in AbodeIdLookup
    ensures GetAbodeInfo(abodeType) == info
  {
    var i :| 0 <= i < |AbodeIdLookup| && AbodeIdLookup[i] == (abodeType, info);
    GetAbodeInfoOfEntry(i);
  }

  /** The Celtic workshop key gives the Celtic graveyard, the value of the Celtic
      graveyard key. */
  lemma CelticWorkshopIsGraveyard()
    ensures forall k :: k in {"CELTIC_ABODE_WORKSHOP", "CELTIC_ABODE_GRAVEYARD"} ==> GetAbodeInfo(k) == AbodeInfo(Celtic, Graveyard)
  {
    forall k | k in {"CELTIC_ABODE_WORKSHOP", "CELTIC_ABODE_GRAVEYARD"}
      ensures GetAbodeInfo(k) == AbodeInfo(Celtic, Graveyard)
    {
      assert (k, AbodeInfo(Celtic, Graveyard)) in CelticAbodes;
      GetAbodeInfoOfMember(k, AbodeInfo(Celtic, Graveyard));
    }
  }

  /** Likewise for the Aztec workshop key. */
  lemma AztecWorkshopIsGraveyard()
    ensures forall k :: k in {"AZTEC_ABODE_WORKSHOP", "AZTEC_ABODE_GRAVEYARD"} ==> GetAbodeInfo(k) == AbodeInfo(Aztec, Graveyard)
  {
    forall k | k in {"AZTEC_ABODE_WORKSHOP", "AZTEC_ABODE_GRAVEYARD"}
      ensures GetAbodeInfo(k) == AbodeInfo(Aztec, Graveyard)
    {
      assert (k, AbodeInfo(Aztec, Graveyard)) in AztecAbodes;
      GetAbodeInfoOfMember(k, AbodeInfo(Aztec, Graveyard));
    }
  }

  /** No entry of `s` has value `v`. */
  predicate Lacks(s: seq<(string, AbodeInfo)>, v: AbodeInfo)
  {
    forall i :: 0 <= i < |s| ==> s[i].1 != v
  }

  lemma LacksConcat(a: seq<(string, AbodeInfo)>, b: seq<(string, AbodeInfo)>, v: AbodeInfo)
    requires Lacks(a, v) && Lacks(b, v)
    ensures Lacks(a + b, v)
  {
    forall i | 0 <= i < |a + b|
      ensures (a + b)[i].1 != v
    {
      if i >= |a| {
        assert (a + b)[i] == b[i - |a|];
      }
    }
  }

  /** TibetanWonder is the value of exactly one entry of the table, the 60th. */
  lemma TibetanWonderOnce()
    ensures forall i :: 0 <= i < |AbodeIdLookup| && AbodeIdLookup[i].1 == TibetanWonder ==> i == 59
  {
    var before := NorseAbodes + CelticAbodes + JapaneseAbodes + AztecAbodes;
    var after := IndianAbodes + GreekAbodes;
    assert Lacks(NorseAbodes, TibetanWonder) && Lacks(CelticAbodes, TibetanWonder);
    assert Lacks(JapaneseAbodes, TibetanWonder) && Lacks(AztecAbodes, TibetanWonder);
    assert Lacks(IndianAbodes, TibetanWonder) && Lacks(GreekAbodes, TibetanWonder);
    LacksConcat(NorseAbodes, CelticAbodes, TibetanWonder);
    LacksConcat(NorseAbodes + CelticAbodes, JapaneseAbodes, TibetanWonder);
    LacksConcat(NorseAbodes + CelticAbodes + JapaneseAbodes, AztecAbodes, TibetanWonder);
    LacksConcat(IndianAbodes, GreekAbodes, TibetanWonder);
    assert forall j :: 0 <= j < 11 ==> TibetanAbodes[j].1 != TibetanWonder;
    assert AbodeIdLookup == before + TibetanAbodes + after;
    forall i | 0 <= i < |AbodeIdLookup| && i != 59
      ensures AbodeIdLookup[i].1 != TibetanWonder
    {
      if i < 48 {
        assert AbodeIdLookup[i] == before[i];
      } else if i < 60 {
        assert AbodeIdLookup[i] == TibetanAbodes[i - 48];
      } else {
        assert AbodeIdLookup[i] == after[i - 60];
      }
    }
  }

  /** The fallback cannot be told apart from the one key that maps to it: the result is
      TibetanWonder exactly for unknown keys and for "TIBETAN_ABODE_WONDER". */
  lemma GetAbodeInfoFallback(abodeType: string)
    ensures GetAbodeInfo(abodeType) == TibetanWonder
      <==> abodeType !in Keys(AbodeIdLookup) || abodeType == "TIBETAN_ABODE_WONDER"
  {
    GetAbodeInfoOfEntry(59);
    if abodeType in Keys(AbodeIdLookup) {
      var i := KeyIndex(AbodeIdLookup, abodeType).value;
      GetAbodeInfoOfEntry(i);
      TibetanWonderOnce();
    }
  }

  /** `Feature::Info`, restricted to the enumerators the feature table and its fallback use. */
  datatype FeatureInfo = Ark | FatPilarLime | Pilar3Lime | AztcStatue | SpikeyPilarLime | Pilar2Lime | Crater | Pier

  /** `featureInfoLookup`, lines 143-151. */
  const FeatureInfoLookup: seq<(string, FeatureInfo)> := [
    ("Fat Pilar Lime", FatPilarLime),
    ("Pilar3 Lime", Pilar3Lime),
    ("Aztec Statue Feature", AztcStatue),
    ("Spikey Pilar Lime", SpikeyPilarLime),
    ("Pilar2 Lime", Pilar2Lime),
    ("Crater", Crater),
    ("Pier", Pier)]

  /** `GetFeatureInfo`: the mapped value of a known key, Ark for any other. */
  function GetFeatureInfo(featureType: string): (r: FeatureInfo)
    ensures featureType in Keys(FeatureInfoLookup) ==> (featureType, r) in FeatureInfoLookup
    ensures featureType !in Keys(FeatureInfoLookup) ==> r == Ark
  {
    match Lookup(FeatureInfoLookup, featureType)
    case Some(info) => info
    case None => Ark
  }

  /** No two feature keys coincide, and no key maps to the fallback. */
  lemma FeatureTableShape()
    ensures Distinct(Keys(FeatureInfoLookup))
    ensures forall i :: 0 <= i < |FeatureInfoLookup| ==> FeatureInfoLookup[i].1 != Ark
  {}

  /** Ark is returned exactly for unknown feature types, and every known type gets its
      own entry's value. */
  lemma GetFeatureInfoFallback(featureType: string)
    ensures GetFeatureInfo(featureType) == Ark <==> featureType !in Keys(FeatureInfoLookup)
    ensures forall i :: 0 <= i < |FeatureInfoLookup| ==> GetFeatureInfo(FeatureInfoLookup[i].0) == FeatureInfoLookup[i].1
  {
    FeatureTableShape();
    forall i | 0 <= i < |FeatureInfoLookup|
      ensures GetFeatureInfo(FeatureInfoLookup[i].0) == FeatureInfoLookup[i].1
    {
      LookupOfDistinct(FeatureInfoLookup, i);
    }
  }

  /** `Tribe` and `Villager::Role`: their enumerators and spellings (`TribeStrs`,
      `RoleStrs`) are not part of this model, so both are carried by name; HOUSEWIFE is
      singled out because villager creation tests for it. */
  datatype Tribe = Tribe(name: string)
  datatype VillagerRole = HOUSEWIFE | OtherRole(name: string)

  /** `GetVillagerTribeAndRole`: the text before the first '_' names the tribe and the
      text after it names the role, each looked up in its table (`tribeLookup`,
      `villagerRoleLookup`); a miss in either throws. Without '_' both halves are the
      whole string. */
  function GetVillagerTribeAndRole(villagerTribeWithType: string, tribes: map<string, Tribe>, roles: map<string, VillagerRole>)
    : (r: Result<(Tribe, VillagerRole), string>)
    requires Sized(villagerTribeWithType)
    ensures r.Ok? ==> r.value.0 in tribes.Values && r.value.1 in roles.Values
    ensures var (tribeStr, roleStr) := SplitAtFirst(villagerTribeWithType, '_');
      && (r.Ok? <==> tribeStr in tribes && roleStr in roles)
      && (r.Ok? ==> r.value == (tribes[tribeStr], roles[roleStr]))
    ensures r.Err? ==> r.error == "Could not recognize either villager tribe or role"
    ensures '_' !in villagerTribeWithType ==>
      && (r.Ok? <==> villagerTribeWithType in tribes && villagerTribeWithType in roles)
      && (r.Ok? ==> r.value == (tribes[villagerTribeWithType], roles[villagerTribeWithType]))
  {
    var pos := FindFirstOf(villagerTribeWithType, '_');
    var tribeStr := Substr(villagerTribeWithType, 0, pos).value;
    var roleStr := Substr(villagerTribeWithType, SizeSucc(pos), Npos).value;
    if tribeStr in tribes && roleStr in roles then
      Ok((tribes[tribeStr], roles[roleStr]))
    else
      Err("Could not recognize either villager tribe or role")
  }

  /** "TRIBE_ROLE" with an underscore-free tribe name splits into exactly those two
      names; the role may itself contain underscores. */
  lemma {:induction false} TribeAndRoleOfJoin(tribe: string, role: string, tribes: map<string, Tribe>, roles: map<string, VillagerRole>)
    requires Sized(tribe + ['_'] + role) && '_' !in tribe
    ensures var r := GetVillagerTribeAndRole(tribe + ['_'] + role, tribes, roles);
      (r.Ok? <==> tribe in tribes && role in roles)
      && (r.Ok? ==> r.value == (tribes[tribe], roles[role]))
  {
    SplitAtFirstOfJoin(tribe, role, '_');
    var s := tribe + ['_'] + role;
    var pos := FindFirstOf(s, '_');
    assert Substr(s, SizeSucc(pos), Npos).value == SplitAtFirst(s, '_').1;
  }

  /** The mesh ids an animated static can be given (a subset of `MeshPackId`). */
  datatype MeshPackId = Dummy | BuildingNorseGate | ObjectGateTotemPlinthe | BuildingMineEntrance

  /** The mesh chosen by `CreateAnimatedStatic` for an animated static's type. */
  function AnimatedStaticMeshId(animatedType: string): (r: MeshPackId)
  {
    if animatedType == "Norse Gate" then BuildingNorseGate
    else if animatedType == "Gate Stone Plinth" then ObjectGateTotemPlinthe
    else if animatedType == "Piper Cave Entrance" then BuildingMineEntrance
    else Dummy
  }

  /** The three named types and their meshes, as a table. */
  const AnimatedStaticMeshes: seq<(string, MeshPackId)> := [
    ("Norse Gate", BuildingNorseGate),
    ("Gate Stone Plinth", ObjectGateTotemPlinthe),
    ("Piper Cave Entrance", BuildingMineEntrance)]

  /** The chain of comparisons is a table lookup with Dummy as the fallback: each of the
      three named types gets its own mesh and every other string gets Dummy. */
  lemma AnimatedStaticMeshIdIsLookup(animatedType: string)
    ensures AnimatedStaticMeshId(animatedType) == Dummy <==> animatedType !in Keys(AnimatedStaticMeshes)
    ensures animatedType in Keys(AnimatedStaticMeshes) ==>
      (animatedType, AnimatedStaticMeshId(animatedType)) in AnimatedStaticMeshes
  {
    assert Keys(AnimatedStaticMeshes) == ["Norse Gate", "Gate Stone Plinth", "Piper Cave Entrance"];
  }
}
