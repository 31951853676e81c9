/** The voice catalogue: each voice's display name, perceived gender and sample
    file, and the lookups built on it. */
module Voices {
  import opened Wrappers
  import Validation
  import TtsAdvancedPanel

  datatype Gender = Male | Female | Neutral

  function GenderName(g: Gender): string {
    match g
    case Male => "Male"
    case Female => "Female"
    case Neutral => "Neutral"
  }

  datatype VoiceInfo = VoiceInfo(id: string, name: string, gender: Gender, description: string, sampleUrl: string)

  /** `VOICE_CONFIG`, in key order; each entry's key is its id. */
  const VOICE_CONFIG: seq<VoiceInfo> := [
    VoiceInfo("alloy", "Alloy", Neutral, "Neutral, balanced voice", "/audio/samples/alloy.mp3"),
    VoiceInfo("ash", "Ash", Male, "Clear, professional male voice", "/audio/samples/ash.mp3"),
    VoiceInfo("coral", "Coral", Female, "Warm, friendly female voice", "/audio/samples/coral.mp3"),
    VoiceInfo("echo", "Echo", Male, "Deep, resonant male voice", "/audio/samples/echo.mp3"),
    VoiceInfo("fable", "Fable", Female, "Expressive, storytelling female voice", "/audio/samples/fable.mp3"),
    VoiceInfo("nova", "Nova", Female, "Modern, confident female voice", "/audio/samples/nova.mp3"),
    VoiceInfo("onyx", "Onyx", Male, "Strong, authoritative male voice", "/audio/samples/onyx.mp3"),
    VoiceInfo("sage", "Sage", Female, "Calm, wise female voice", "/audio/samples/sage.mp3"),
    VoiceInfo("shimmer", "Shimmer", Female, "Bright, energetic female voice", "/audio/samples/shimmer.mp3")
  ]

  /** `VOICES = Object.keys(VOICE_CONFIG)`. */
  function VoiceIds(config: seq<VoiceInfo>): (ids: seq<string>)
    ensures |ids| == |config|
    ensures forall i :: 0 <= i < |config| ==> ids[i] == config[i].id
  {
    seq(|config|, i requires 0 <= i < |config| => config[i].id)
  }

  const VOICES: seq<string> := VoiceIds(VOICE_CONFIG)

  /** `VOICE_CONFIG[voiceId]`: the entry with that id, if any. */
  function GetVoiceInfo(config: seq<VoiceInfo>, voiceId: string): (r: Option<VoiceInfo>)
    ensures r.Some? <==> voiceId in VoiceIds(config)
    ensures r.Some? ==> r.value in config && r.value.id == voiceId
  {
    if |config| == 0 then None
    else if config[0].id == voiceId then Some(config[0])
    else
      var rest := GetVoiceInfo(config[1..], voiceId);
      assert VoiceIds(config) == [config[0].id] + VoiceIds(config[1..]);
      rest
  }

  /** What the filter keeps of one entry. */
  function Kept(v: VoiceInfo, g: Gender): seq<VoiceInfo> {
    if v.gender == g then [v] else []
  }

  /** `getVoicesByGender`: `Object.values(VOICE_CONFIG).filter(...)`. What it
      keeps, and in which order, is stated by the lemmas below. */
  function GetVoicesByGender(config: seq<VoiceInfo>, g: Gender): (r: seq<VoiceInfo>)
    ensures |r| <= |config|
  {
    if |config| == 0 then []
    else Kept(config[0], g) + GetVoicesByGender(config[1..], g)
  }

  /** The filter keeps exactly the entries of that gender. */
  lemma {:induction false} ByGenderMembers(config: seq<VoiceInfo>, g: Gender)
    ensures forall v :: v in GetVoicesByGender(config, g) <==> v in config && v.gender == g
  {
    if |config| > 0 {
      ByGenderMembers(config[1..], g);
      assert config == [config[0]] + config[1..];
    }
  }

  /** A single entry is kept exactly when it has the gender. */
  lemma ByGenderSingle(v: VoiceInfo, g: Gender)
    ensures GetVoicesByGender([v], g) == Kept(v, g)
  {
    assert [v][1..] == [];
  }

  /** The filter keeps catalogue order and repeats: it distributes over
      concatenation. */
  lemma {:induction false} ByGenderAppend(a: seq<VoiceInfo>, b: seq<VoiceInfo>, g: Gender)
    ensures GetVoicesByGender(a + b, g) == GetVoicesByGender(a, g) + GetVoicesByGender(b, g)
    decreases |a|
  {
    if |a| == 0 {
      assert a + b == b;
    } else {
      assert (a + b)[1..] == a[1..] + b;
      ByGenderAppend(a[1..], b, g);
      var k := Kept(a[0], g);
      var x := GetVoicesByGender(a[1..], g);
      var y := GetVoicesByGender(b, g);
      assert GetVoicesByGender(a + b, g) == k + (x + y);
      assert k + (x + y) == (k + x) + y;
    }
  }

  /** Every entry has exactly one gender, so the three groups share out the
      catalogue. */
  lemma {:induction false} GendersPartition(config: seq<VoiceInfo>)
    ensures |GetVoicesByGender(config, Male)| + |GetVoicesByGender(config, Female)|
            + |GetVoicesByGender(config, Neutral)| == |config|
  {
    if |config| > 0 {
      GendersPartition(config[1..]);
    }
  }

  /** The filter over a catalogue of nine entries, written out entry by entry. */
  lemma ByGenderNine(c: seq<VoiceInfo>, g: Gender)
    requires |c| == 9
    ensures GetVoicesByGender(c, g)
         == Kept(c[0], g) + Kept(c[1], g) + Kept(c[2], g) + Kept(c[3], g) + Kept(c[4], g)
          + Kept(c[5], g) + Kept(c[6], g) + Kept(c[7], g) + Kept(c[8], g)
  {
    assert c == [c[0]] + [c[1]] + [c[2]] + [c[3]] + [c[4]] + [c[5]] + [c[6]] + [c[7]] + [c[8]];
    ByGenderAppend([c[0]] + [c[1]] + [c[2]] + [c[3]] + [c[4]] + [c[5]] + [c[6]] + [c[7]], [c[8]], g);
    ByGenderAppend([c[0]] + [c[1]] + [c[2]] + [c[3]] + [c[4]] + [c[5]] + [c[6]], [c[7]], g);
    ByGenderAppend([c[0]] + [c[1]] + [c[2]] + [c[3]] + [c[4]] + [c[5]], [c[6]], g);
    ByGenderAppend([c[0]] + [c[1]] + [c[2]] + [c[3]] + [c[4]], [c[5]], g);
    ByGenderAppend([c[0]] + [c[1]] + [c[2]] + [c[3]], [c[4]], g);
    ByGenderAppend([c[0]] + [c[1]] + [c[2]], [c[3]], g);
    ByGenderAppend([c[0]] + [c[1]], [c[2]], g);
    ByGenderAppend([c[0]], [c[1]], g);
    ByGenderSingle(c[0], g);
    ByGenderSingle(c[1], g);
    ByGenderSingle(c[2], g);
    ByGenderSingle(c[3], g);
    ByGenderSingle(c[4], g);
    ByGenderSingle(c[5], g);
    ByGenderSingle(c[6], g);
    ByGenderSingle(c[7], g);
    ByGenderSingle(c[8], g);
  }

  /** The catalogue's genders, entry by entry. */
  predicate CataloguePattern(c: seq<VoiceInfo>) {
    && |c| == 9
    && c[0].gender == Neutral && c[1].gender == Male && c[2].gender == Female
    && c[3].gender == Male && c[4].gender == Female && c[5].gender == Female
    && c[6].gender == Male && c[7].gender == Female && c[8].gender == Female
  }

  lemma CatalogueHasPattern()
    ensures CataloguePattern(VOICE_CONFIG)
  {
  }

  /** The catalogue holds three male voices: ash, echo and onyx, in that order. */
  lemma CatalogueMales()
    ensures |GetVoicesByGender(VOICE_CONFIG, Male)| == 3
    ensures GetVoicesByGender(VOICE_CONFIG, Male) == [VOICE_CONFIG[1], VOICE_CONFIG[3], VOICE_CONFIG[6]]
  {
    CatalogueHasPattern();
    ByGenderNine(VOICE_CONFIG, Male);
  }

  /** The catalogue holds five female voices: coral, fable, nova, sage and
      shimmer, in that order. */
  lemma CatalogueFemales()
    ensures |GetVoicesByGender(VOICE_CONFIG, Female)| == 5
    ensures GetVoicesByGender(VOICE_CONFIG, Female)
         == [VOICE_CONFIG[2], VOICE_CONFIG[4], VOICE_CONFIG[5], VOICE_CONFIG[7], VOICE_CONFIG[8]]
  {
    CatalogueHasPattern();
    ByGenderNine(VOICE_CONFIG, Female);
  }

  /** The catalogue holds one neutral voice: alloy. */
  lemma CatalogueNeutrals()
    ensures |GetVoicesByGender(VOICE_CONFIG, Neutral)| == 1
    ensures GetVoicesByGender(VOICE_CONFIG, Neutral) == [VOICE_CONFIG[0]]
  {
    CatalogueHasPattern();
    ByGenderNine(VOICE_CONFIG, Neutral);
  }

  /** A dropdown option; `labelText` is the source's `label`, a reserved word in Dafny. */
  datatype VoiceOption = VoiceOption(value: string, labelText: string, gender: Gender, description: string)

  /** `getVoiceOptions`: one option per entry, labelled `Name (Gender)`. */
  function GetVoiceOptions(config: seq<VoiceInfo>): (r: seq<VoiceOption>)
    ensures |r| == |config|
    ensures forall i :: 0 <= i < |config| ==>
              && r[i].value == config[i].id
              && r[i].labelText == config[i].name + " (" + GenderName(config[i].gender) + ")"
              && r[i].gender == config[i].gender
  {
    seq(|config|, i requires 0 <= i < |config| =>
      var v := config[i];
      VoiceOption(v.id, v.name + " (" + GenderName(v.gender) + ")", v.gender, v.description))
  }

  /** An option's value looks up the entry it was made from, when ids are
      distinct. */
  lemma OptionsLookUp(config: seq<VoiceInfo>, i: nat)
    requires i < |config|
    requires forall a, b :: 0 <= a < b < |config| ==> config[a].id != config[b].id
    ensures GetVoiceInfo(config, GetVoiceOptions(config)[i].value) == Some(config[i])
  {
    var r := GetVoiceInfo(config, config[i].id);
    assert config[i].id in VoiceIds(config) by {
      assert VoiceIds(config)[i] == config[i].id;
    }
    var j :| 0 <= j < |config| && config[j] == r.value;
  }

  /** The panel offers `ballad`, which the catalogue lacks. */
  lemma BalladNotCatalogued()
    ensures "ballad" in TtsAdvancedPanel.PANEL_VOICES
    ensures GetVoiceInfo(VOICE_CONFIG, "ballad").None?
  {
    assert TtsAdvancedPanel.PANEL_VOICES[2] == "ballad";
    UnknownInitialAbsent(VOICE_CONFIG, "ballad");
  }

  /** An id whose first letter starts no catalogued id is not catalogued. */
  lemma UnknownInitialAbsent(config: seq<VoiceInfo>, voiceId: string)
    requires |voiceId| > 0
    requires forall i :: 0 <= i < |config| ==> |config[i].id| > 0 && config[i].id[0] != voiceId[0]
    ensures GetVoiceInfo(config, voiceId).None?
  {
  }

  /** The request validator refuses `ash`, `coral` and `sage`, which the
      catalogue lists. */
  lemma CataloguedVoicesRefused(v: string)
    requires v in {"ash", "coral", "sage"}
    ensures GetVoiceInfo(VOICE_CONFIG, v).Some?
    ensures Validation.ValidateVoice(Some(v)).Err?
  {
    assert VoiceIds(VOICE_CONFIG) == ["alloy", "ash", "coral", "echo", "fable", "nova", "onyx", "sage", "shimmer"];
    assert v !in Validation.VALID_VOICES;
  }
}
