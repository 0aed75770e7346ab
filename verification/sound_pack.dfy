/** A sound pack (src/Sound/SoundPack.cpp): the samples of a LionHead SAD file become
    the sound pack's sounds. Samples whose file name ends in ".mpg" are sectors of one piece
    of music and merge into a single sound; every other sample is a sound of its own.
    Opening the file is a parameter: None where `SadFile::Open` throws. */
module SoundPacks {
  import opened Common
  import opened Strings

  datatype SoundFormat = Unknown | MonoS16 | StereoS16

  /** `Sound`. `loopType` is the numeric value cast into `LoopType`. */
  datatype Sound = Sound(
    id: string, priority: int, sampleRate: int, pitch: int, pitchDeviation: int,
    bytes: seq<byte>, format: SoundFormat, loopType: int, channels: int,
    loaded: bool, sectorMerged: bool, sectorCount: int, lengthInSeconds: real)

  /** The fields of an `AudioBankSample` header that the sound pack reads. */
  datatype Sample = Sample(audioSampleName: string, priority: u16, sampleRate: u32, pitch: u16,
                           pitchDeviation: u16, loopType: u16)

  /** What an opened SAD file offers: its name and its (header, data) entries in order. */
  datatype SadFile = SadFile(name: string, sounds: seq<(Sample, seq<byte>)>)

  datatype SoundPack = SoundPack(name: string, sounds: map<string, Sound>, isMusic: bool)

  /** A sample is a sector exactly when its file name's extension is ".mpg", compared
      case-sensitively. */
  predicate IsSector(s: Sample)
  {
    Extension(Filename(s.audioSampleName)) == ".mpg"
  }

  /** The sound a non-sector sample becomes, keyed by its file name. */
  function PlainSound(s: Sample, data: seq<byte>): (r: Sound)
    ensures r.id == Filename(s.audioSampleName) && r.bytes == data
    ensures !r.loaded && !r.sectorMerged && r.sectorCount == 0 && r.format == Unknown
      && r.channels == 0 && r.lengthInSeconds == -1.0
  {
    Sound(Filename(s.audioSampleName), s.priority, U32ToI32(s.sampleRate), s.pitch, s.pitchDeviation,
          data, Unknown, s.loopType, 0, false, false, 0, -1.0)
  }

  /** The sound that the first sector opens, keyed by the SAD file's name. */
  function FirstSector(filename: string, s: Sample, data: seq<byte>): (r: Sound)
    ensures r.id == filename && r.bytes == data && r.sectorCount == 1 && r.sectorMerged && !r.loaded
    ensures r.priority == s.priority && r.sampleRate == U32ToI32(s.sampleRate) && r.pitch == s.pitch
      && r.pitchDeviation == s.pitchDeviation && r.loopType == s.loopType
  {
    Sound(filename, s.priority, U32ToI32(s.sampleRate), s.pitch, s.pitchDeviation,
          data, Unknown, s.loopType, 0, false, true, 1, -1.0)
  }

  /** A SAD entry once its sample has been classified. */
  datatype Entry = SectorEntry(sample: Sample, data: seq<byte>) | PlainEntry(sample: Sample, data: seq<byte>)

  /** The entries of a SAD file, classified in order: an entry is a sector exactly
      when its sample is one. */
  function Classify(es: seq<(Sample, seq<byte>)>): (r: seq<Entry>)
    ensures |r| == |es|
    ensures forall i :: 0 <= i < |es| ==> r[i].sample == es[i].0 && r[i].data == es[i].1
    ensures forall i :: 0 <= i < |es| ==> (r[i].SectorEntry? <==> IsSector(es[i].0))
  {
    seq(|es|, i requires 0 <= i < |es| =>
      if IsSector(es[i].0) then SectorEntry(es[i].0, es[i].1) else PlainEntry(es[i].0, es[i].1))
  }

  /** The merged sound after the entries `cs`, as the loop at lines 43-95 builds it in
      `combinedData`: the first sector creates it and every later sector appends its
      bytes and counts itself. */
  function Merged(filename: string, cs: seq<Entry>): Option<Sound>
    decreases |cs|
  {
    if |cs| == 0 then None
    else
      var m := Merged(filename, cs[..|cs| - 1]);
      var c := cs[|cs| - 1];
      if c.PlainEntry? then m
      else if m.None? then Some(FirstSector(filename, c.sample, c.data))
      else Some(m.value.(sectorCount := m.value.sectorCount + 1, bytes := m.value.bytes + c.data))
  }

  /** Merging one more entry: a plain entry changes nothing, a first sector opens the
      merged sound and a later one extends it. */
  lemma MergedSnoc(filename: string, cs: seq<Entry>, c: Entry)
    ensures var m := Merged(filename, cs);
      Merged(filename, cs + [c]) ==
        if c.PlainEntry? then m
        else if m.None? then Some(FirstSector(filename, c.sample, c.data))
        else Some(m.value.(sectorCount := m.value.sectorCount + 1, bytes := m.value.bytes + c.data))
  {
    assert (cs + [c])[..|cs|] == cs;
  }

  /** The sector entries, in order: the independent description of what merging uses. */
  function Sectors(cs: seq<Entry>): (r: seq<Entry>)
    ensures |r| <= |cs|
    ensures forall c :: c in r ==> c.SectorEntry? && c in cs
    ensures |r| == 0 <==> forall i :: 0 <= i < |cs| ==> cs[i].PlainEntry?
    decreases |cs|
  {
    if |cs| == 0 then []
    else
      var rest := Sectors(cs[..|cs| - 1]);
      assert forall i :: 0 <= i < |cs| - 1 ==> cs[..|cs| - 1][i] == cs[i];
      if cs[|cs| - 1].SectorEntry? then rest + [cs[|cs| - 1]] else rest
  }

  /** The data of each entry, in order. */
  function DataOf(cs: seq<Entry>): (r: seq<seq<byte>>)
    ensures |r| == |cs|
    ensures forall i :: 0 <= i < |cs| ==> r[i] == cs[i].data
  {
    seq(|cs|, i requires 0 <= i < |cs| => cs[i].data)
  }

  /** Merging yields a sound exactly when a sector exists; it is keyed by the SAD
      file name, its bytes are the sectors' data concatenated in input order, it counts
      the sectors, and its metadata comes from the first sector. */
  lemma {:induction false} MergedIsConcatenationOfSectors(filename: string, cs: seq<Entry>)
    ensures Merged(filename, cs).Some? <==> |Sectors(cs)| > 0
    ensures Merged(filename, cs).Some? ==>
      var m := Merged(filename, cs).value;
      var first := Sectors(cs)[0];
      m.bytes == Flatten(DataOf(Sectors(cs))) && m.sectorCount == |Sectors(cs)|
      && m == FirstSector(filename, first.sample, first.data).(bytes := m.bytes, sectorCount := m.sectorCount)
    decreases |cs|
  {
    if |cs| > 0 {
      var init := cs[..|cs| - 1];
      MergedIsConcatenationOfSectors(filename, init);
      var last := cs[|cs| - 1];
      if last.SectorEntry? {
        var ss := Sectors(init);
        assert Sectors(cs) == ss + [last];
        assert DataOf(ss + [last])[..|ss|] == DataOf(ss);
        if |ss| > 0 {
          assert Sectors(cs)[0] == ss[0];
        }
      }
    }
  }

  /** The non-sector entries as (key, sound) pairs, in order. */
  function PlainEntries(cs: seq<Entry>): (r: seq<(string, Sound)>)
    ensures forall e :: e in r ==> e.1.id == e.0 && !e.1.sectorMerged && e.1.sectorCount == 0
    ensures forall i :: 0 <= i < |cs| && cs[i].PlainEntry? ==>
      (Filename(cs[i].sample.audioSampleName), PlainSound(cs[i].sample, cs[i].data)) in r
    decreases |cs|
  {
    if |cs| == 0 then []
    else
      var init := cs[..|cs| - 1];
      var rest := PlainEntries(init);
      assert forall i :: 0 <= i < |cs| - 1 ==> init[i] == cs[i];
      var c := cs[|cs| - 1];
      var r := if c.SectorEntry? then rest else rest + [(Filename(c.sample.audioSampleName), PlainSound(c.sample, c.data))];
      assert forall i :: 0 <= i < |cs| && cs[i].PlainEntry? ==>
        (Filename(cs[i].sample.audioSampleName), PlainSound(cs[i].sample, cs[i].data)) in r by {
        forall i | 0 <= i < |cs| && cs[i].PlainEntry?
          ensures (Filename(cs[i].sample.audioSampleName), PlainSound(cs[i].sample, cs[i].data)) in r
        {
          if i < |cs| - 1 {
            assert init[i] == cs[i];
            assert (Filename(cs[i].sample.audioSampleName), PlainSound(cs[i].sample, cs[i].data)) in rest;
          }
        }
      }
      r
  }

  /** One more entry adds its pair exactly when it is not a sector. */
  lemma PlainEntriesSnoc(cs: seq<Entry>, c: Entry)
    ensures PlainEntries(cs + [c]) == if c.SectorEntry? then PlainEntries(cs)
      else PlainEntries(cs) + [(Filename(c.sample.audioSampleName), PlainSound(c.sample, c.data))]
  {
    assert (cs + [c])[..|cs|] == cs;
  }

  /** The sound pack after storing the classified entries `cs`: every non-sector sample under
      its file name, a later one replacing an earlier one; then the merged sectors under
      `filename`, replacing whatever was there. The sound pack is music exactly when a sector
      was seen. */
  function StoreEntries(sounds: map<string, Sound>, name: string, filename: string, cs: seq<Entry>): (r: SoundPack)
    ensures r.name == name
    ensures r.isMusic <==> exists i :: 0 <= i < |cs| && cs[i].SectorEntry?
    ensures var m := Merged(filename, cs);
      (r.isMusic <==> m.Some?) && (m.Some? ==> filename in r.sounds && r.sounds[filename] == m.value)
    ensures forall k :: k in r.sounds <==> k in sounds || k in Keys(PlainEntries(cs)) || (r.isMusic && k == filename)
    ensures forall k :: k in sounds && k !in Keys(PlainEntries(cs)) && !(r.isMusic && k == filename) ==>
      k in r.sounds && r.sounds[k] == sounds[k]
  {
    var plain := AssignAll(sounds, PlainEntries(cs));
    var merged := Merged(filename, cs);
    MergedIsConcatenationOfSectors(filename, cs);
    if merged.Some? then
      SoundPack(name, plain[filename := merged.value], true)
    else
      SoundPack(name, plain, false)
  }

  /** `LoadFromFile`. When the file cannot be opened nothing changes. Otherwise the sound pack
      is named after the file's own name, or after `filename` when that is empty, and
      the file's entries are stored as StoreEntries says. */
  function LoadFromFile(p: SoundPack, filename: string, sad: Option<SadFile>): (r: SoundPack)
    ensures sad.None? ==> r == p
    ensures sad.Some? ==> r.name == (if sad.value.name != "" then sad.value.name else filename)
    ensures sad.Some? ==> (r.isMusic <==> exists i :: 0 <= i < |sad.value.sounds| && IsSector(sad.value.sounds[i].0))
    ensures sad.Some? ==> r == StoreEntries(p.sounds, r.name, filename, Classify(sad.value.sounds))
  {
    match sad
    case None => p
    case Some(f) =>
      var cs := Classify(f.sounds);
      var r := StoreEntries(p.sounds, if f.name != "" then f.name else filename, filename, cs);
      assert r.isMusic ==> exists i :: 0 <= i < |f.sounds| && IsSector(f.sounds[i].0);
      r
  }

  /** A non-sector sound is the last non-sector sample with its file name, unless
      sectors were merged under the same key. */
  lemma {:induction false} LastPlainSampleWins(p: SoundPack, filename: string, f: SadFile, i: nat)
    requires i < |PlainEntries(Classify(f.sounds))| && LastOfKey(PlainEntries(Classify(f.sounds)), i)
    requires !(LoadFromFile(p, filename, Some(f)).isMusic && PlainEntries(Classify(f.sounds))[i].0 == filename)
    ensures var e := PlainEntries(Classify(f.sounds))[i];
      LoadFromFile(p, filename, Some(f)).sounds[e.0] == e.1
  {
  }

  /** The loop at lines 43-101, written as the source writes it: one pass over the
      classified entries that fills the sound pack's map and `combinedData`, then the merged
      sound stored last. */
  method StoreEntriesLoop(sounds0: map<string, Sound>, name: string, filename: string, cs: seq<Entry>)
    returns (r: SoundPack)
    ensures r == StoreEntries(sounds0, name, filename, cs)
  {
    var sounds := sounds0;
    var combined: Option<Sound> := None;
    var i := 0;
    while i < |cs|
      invariant 0 <= i <= |cs|
      invariant sounds == AssignAll(sounds0, PlainEntries(cs[..i]))
      invariant combined == Merged(filename, cs[..i])
    {
      var c := cs[i];
      PrefixSnoc(cs, i);
      MergedSnoc(filename, cs[..i], c);
      PlainEntriesSnoc(cs[..i], c);
      if c.SectorEntry? {
        if combined.None? {
          combined := Some(FirstSector(filename, c.sample, c.data));
        } else {
          combined := Some(combined.value.(sectorCount := combined.value.sectorCount + 1,
                                           bytes := combined.value.bytes + c.data));
        }
      } else {
        var e := (Filename(c.sample.audioSampleName), PlainSound(c.sample, c.data));
        AssignAllSnoc(sounds0, PlainEntries(cs[..i]), e);
        sounds := sounds[e.0 := e.1];
      }
      assert combined == Merged(filename, cs[..i + 1]);
      assert sounds == AssignAll(sounds0, PlainEntries(cs[..i + 1]));
      i := i + 1;
    }
    assert cs[..i] == cs;
    var isMusic := combined.Some?;
    if combined.Some? {
      sounds := sounds[filename := combined.value];
    }
    r := SoundPack(name, sounds, isMusic);
  }

  /** `LoadFromFile` as a procedure: open, name, then the storing loop. */
  method LoadFromFileLoop(p: SoundPack, filename: string, sad: Option<SadFile>) returns (r: SoundPack)
    ensures r == LoadFromFile(p, filename, sad)
  {
    if sad.None? {
      return p;
    }
    var f := sad.value;
    var name := if f.name != "" then f.name else filename;
    r := StoreEntriesLoop(p.sounds, name, filename, Classify(f.sounds));
  }
}
