/** The advanced text-to-speech panel on the client: its voice list, the preset
    style instructions, toggling presets, and the request it sends to the
    advanced route. */
module TtsAdvancedPanel {
  import opened Wrappers
  import opened Strings
  import TtsRoutes
  import Effects

  /** The voices the panel offers. */
  const PANEL_VOICES: seq<string> :=
    ["alloy", "ash", "ballad", "coral", "echo", "fable", "nova", "onyx", "sage", "shimmer"]

  /** The preset labels and the instruction each stands for, in key order. */
  const PRESET_INSTRUCTIONS: seq<(string, string)> := [
    ("British Accent", "Speak with a clear British accent"),
    ("American Accent", "Speak with a standard American accent"),
    ("Australian Accent", "Speak with an Australian accent"),
    ("Enthusiastic", "Sound very enthusiastic and energetic"),
    ("Professional", "Speak in a professional, business-like tone"),
    ("Friendly", "Sound warm and friendly"),
    ("Calm", "Speak in a calm and soothing voice"),
    ("Urgent", "Sound urgent and important"),
    ("Whisper", "Whisper softly"),
    ("Slow and Clear", "Speak slowly and clearly, enunciating each word"),
    ("Fast Paced", "Speak quickly but clearly"),
    ("Child-Friendly", "Speak in a way that children would understand and enjoy")
  ]

  /** `PRESET_INSTRUCTIONS[key]`; an unknown key reads as empty, which the
      later filter drops just as it drops `undefined`. */
  function PresetText(key: string): (text: string)
    ensures text != "" <==> exists i :: 0 <= i < |PRESET_INSTRUCTIONS| && PRESET_INSTRUCTIONS[i].0 == key
  {
    LookupIn(PRESET_INSTRUCTIONS, key)
  }

  function LookupIn(table: seq<(string, string)>, key: string): (text: string)
    requires forall i :: 0 <= i < |table| ==> table[i].1 != ""
    ensures text != "" <==> exists i :: 0 <= i < |table| && table[i].0 == key
    ensures text != "" ==> exists i :: 0 <= i < |table| && table[i] == (key, text)
  {
    if |table| == 0 then ""
    else if table[0].0 == key then table[0].1
    else
      var rest := LookupIn(table[1..], key);
      assert forall i :: 0 < i < |table| ==> table[i] == table[1..][i - 1];
      rest
  }

  /** `prev.filter(p => p !== preset)`. */
  function Without(s: seq<string>, p: string): (r: seq<string>)
    ensures forall q :: q in r <==> q in s && q != p
    ensures p !in s ==> r == s
  {
    if |s| == 0 then []
    else
      assert s == [s[0]] + s[1..];
      (if s[0] == p then [] else [s[0]]) + Without(s[1..], p)
  }

  /** `togglePreset`: a selected preset is deselected, any other is appended. */
  function TogglePreset(selected: seq<string>, p: string): (r: seq<string>)
    ensures p in r <==> p !in selected
    ensures forall q :: q != p ==> (q in r <==> q in selected)
    ensures p !in selected ==> r == selected + [p]
    ensures p in selected ==> r == Without(selected, p)
  {
    if p in selected then Without(selected, p) else selected + [p]
  }

  /** Toggling an unselected preset twice restores the selection. */
  lemma ToggleTwiceRestores(selected: seq<string>, p: string)
    requires p !in selected
    ensures TogglePreset(TogglePreset(selected, p), p) == selected
  {
    WithoutLast(selected, p);
  }

  lemma {:induction false} WithoutLast(s: seq<string>, p: string)
    requires p !in s
    ensures Without(s + [p], p) == s
    decreases |s|
  {
    if |s| == 0 {
      assert [p][1..] == [];
    } else {
      assert (s + [p])[1..] == s[1..] + [p];
      WithoutLast(s[1..], p);
      assert s == [s[0]] + s[1..];
    }
  }

  /** The selection never holds a preset twice. */
  lemma {:induction false} ToggleKeepsDistinct(selected: seq<string>, p: string)
    requires Distinct(selected)
    ensures Distinct(TogglePreset(selected, p))
  {
    if p in selected {
      WithoutKeepsDistinct(selected, p);
    }
  }

  lemma {:induction false} WithoutKeepsDistinct(s: seq<string>, p: string)
    requires Distinct(s)
    ensures Distinct(Without(s, p))
    decreases |s|
  {
    if |s| > 0 {
      WithoutKeepsDistinct(s[1..], p);
      assert s[0] !in s[1..] by {
        forall j | 0 <= j < |s[1..]| ensures s[1..][j] != s[0] {
          assert s[1..][j] == s[j + 1];
        }
      }
      assert s[0] !in Without(s[1..], p);
    }
  }

  /** `.filter(Boolean)` on strings: the non-empty ones, in order. */
  function NonEmpty(xs: seq<string>): (r: seq<string>)
    ensures forall i :: 0 <= i < |r| ==> r[i] != ""
    ensures forall x :: x in r <==> x in xs && x != ""
    ensures r == [] <==> forall i :: 0 <= i < |xs| ==> xs[i] == ""
  {
    if |xs| == 0 then []
    else
      assert xs == [xs[0]] + xs[1..];
      assert forall i :: 1 <= i < |xs| ==> xs[i] == xs[1..][i - 1];
      (if xs[0] == "" then [] else [xs[0]]) + NonEmpty(xs[1..])
  }

  /** The filter keeps order and repeats: it distributes over concatenation. */
  lemma {:induction false} NonEmptyAppend(a: seq<string>, b: seq<string>)
    ensures NonEmpty(a + b) == NonEmpty(a) + NonEmpty(b)
    decreases |a|
  {
    if |a| == 0 {
      assert a + b == b;
    } else {
      assert (a + b)[1..] == a[1..] + b;
      NonEmptyAppend(a[1..], b);
      var k := if a[0] == "" then [] else [a[0]];
      var x := NonEmpty(a[1..]);
      var y := NonEmpty(b);
      assert NonEmpty(a + b) == k + (x + y);
      assert k + (x + y) == (k + x) + y;
    }
  }

  /** A single string is kept exactly when it is not empty. */
  lemma NonEmptySingle(x: string)
    ensures x == "" ==> NonEmpty([x]) == []
    ensures x != "" ==> NonEmpty([x]) == [x]
  {
    assert [x][1..] == [];
  }

  /** Strings none of which is empty all pass the filter, in order. */
  lemma {:induction false} NonEmptyKeepsAll(xs: seq<string>)
    requires forall i :: 0 <= i < |xs| ==> xs[i] != ""
    ensures NonEmpty(xs) == xs
  {
    if |xs| > 0 {
      NonEmptyKeepsAll(xs[1..]);
      assert xs == [xs[0]] + xs[1..];
    }
  }

  /** The selected presets' instructions, in selection order. */
  function PresetTexts(selected: seq<string>): (r: seq<string>)
    ensures |r| == |selected|
    ensures forall i :: 0 <= i < |selected| ==> r[i] == PresetText(selected[i])
  {
    seq(|selected|, i requires 0 <= i < |selected| => PresetText(selected[i]))
  }

  /** The instructions sent: the selected presets' texts and the custom text,
      empty ones dropped, joined with `. `. */
  function Instructions(selected: seq<string>, custom: string): string {
    Join(NonEmpty(PresetTexts(selected) + [custom]), ". ")
  }

  predicate IsPreset(key: string) {
    exists i :: 0 <= i < |PRESET_INSTRUCTIONS| && PRESET_INSTRUCTIONS[i].0 == key
  }

  /** With only known presets selected, the instructions are their texts in
      selection order, then the custom text unless it is empty. */
  lemma InstructionsKeepSelectionOrder(selected: seq<string>, custom: string)
    requires forall i :: 0 <= i < |selected| ==> IsPreset(selected[i])
    ensures custom == "" ==> Instructions(selected, custom) == Join(PresetTexts(selected), ". ")
    ensures custom != "" ==> Instructions(selected, custom) == Join(PresetTexts(selected) + [custom], ". ")
  {
    var texts := PresetTexts(selected);
    assert forall i :: 0 <= i < |texts| ==> texts[i] == PresetText(selected[i]);
    NonEmptyKeepsAll(texts);
    NonEmptyAppend(texts, [custom]);
    NonEmptySingle(custom);
    if custom == "" {
      assert texts + [] == texts;
    }
  }

  /** The instructions are empty exactly when no known preset is selected and the
      custom text is empty. */
  lemma InstructionsEmptyIff(selected: seq<string>, custom: string)
    ensures Instructions(selected, custom) == "" <==>
              custom == "" && forall i :: 0 <= i < |selected| ==> !IsPreset(selected[i])
  {
    var xs := PresetTexts(selected) + [custom];
    JoinEmptyIff(NonEmpty(xs), ". ");
    assert xs[|selected|] == custom;
    assert forall i :: 0 <= i < |selected| ==> xs[i] == PresetText(selected[i]);
  }

  /** `handleGenerate`: a blank text or empty instructions stop with a message
      before any request; otherwise the body sent, with `fileName || undefined`.
      The text is sent as typed, not trimmed. */
  function GenerateRequest(text: string, voice: string, selected: seq<string>, custom: string, fileName: string)
    : (r: Result<TtsRoutes.AdvancedRequest, string>)
    ensures r.Err? <==> Trim(text) == "" || Instructions(selected, custom) == ""
    ensures r.Ok? ==> r.value == TtsRoutes.AdvancedRequest(Some(text), Some(voice), Some(Instructions(selected, custom)),
                                                           if fileName == "" then None else Some(fileName))
  {
    if Trim(text) == "" then Err("Please enter some text")
    else
      var instructions := Instructions(selected, custom);
      if instructions == "" then Err("Please select at least one preset or enter custom instructions")
      else Ok(TtsRoutes.AdvancedRequest(Some(text), Some(voice), Some(instructions),
                                        if fileName == "" then None else Some(fileName)))
  }

  /** Every request the panel sends with one of its voices passes the advanced
      route's required-field check. */
  lemma SentRequestIsAccepted(text: string, voice: string, selected: seq<string>, custom: string, fileName: string,
                              cwd: string, now: nat, ok: Effects.Effect -> bool)
    requires voice in PANEL_VOICES
    requires GenerateRequest(text, voice, selected, custom, fileName).Ok?
    ensures TtsRoutes.Advanced(GenerateRequest(text, voice, selected, custom, fileName).value, cwd, now, ok).status != 400
  {
    TrimEmptyIff(text);
  }

  const FAST_PACED_TEXT := "Speak quickly but clearly"

  lemma FastPacedText()
    ensures PresetText("Fast Paced") == FAST_PACED_TEXT
  {
    FirstKeyLookedUp(PRESET_INSTRUCTIONS, 10, "Fast Paced");
  }

  /** The lookup returns the text of the first entry with the key. */
  lemma {:induction false} FirstKeyLookedUp(table: seq<(string, string)>, i: nat, key: string)
    requires forall j :: 0 <= j < |table| ==> table[j].1 != ""
    requires i < |table| && table[i].0 == key
    requires forall j :: 0 <= j < i ==> table[j].0 != key
    ensures LookupIn(table, key) == table[i].1
  {
    if i > 0 {
      assert forall j :: 0 <= j < |table[1..]| ==> table[1..][j] == table[j + 1];
      FirstKeyLookedUp(table[1..], i - 1, key);
    }
  }

  lemma FastPacedTextSaysQuick()
    ensures OccursAt(ToLower(FAST_PACED_TEXT), "quick", 6)
  {
    assert ToLower(FAST_PACED_TEXT)[6..11] == "quick";
  }

  /** Choosing "Fast Paced" makes the route speak at 1.5, whatever else is chosen. */
  lemma FastPacedSpeaksFast(selected: seq<string>, custom: string, k: nat)
    requires k < |selected| && selected[k] == "Fast Paced"
    ensures TtsRoutes.SpeedHint(Instructions(selected, custom)) == 1.5
  {
    FastPacedText();
    var xs := PresetTexts(selected) + [custom];
    assert xs[k] == FAST_PACED_TEXT;
    var parts := NonEmpty(xs);
    assert FAST_PACED_TEXT in parts;
    var j :| 0 <= j < |parts| && parts[j] == FAST_PACED_TEXT;
    JoinContainsPart(parts, ". ", j);
    var s := Instructions(selected, custom);
    var at := IndexOf(s, FAST_PACED_TEXT).value;
    ToLowerOccurs(s, FAST_PACED_TEXT, at);
    ContainsAt(ToLower(s), ToLower(FAST_PACED_TEXT), at);
    FastPacedTextSaysQuick();
    ContainsInfix(ToLower(s), ToLower(FAST_PACED_TEXT), "quick", 6);
  }
}
