/** The audio stage (`AudioGenerator` of the audio-generation script): which
    fields of a dictionary record are read, the text sent for synthesis, the
    file each clip is stored under, the skip-if-exists rule, the per-voice
    results and the counters of the whole run. The audio folder is a set of
    file names. The synthesis service (the project lookup plus the HTTP
    request) is an oracle: one answer per attempt that is not skipped, and
    an exhausted oracle answers as a failure. */
module Audio {
  import opened Assoc
  import opened Json

  /** The three Chirp3 HD voices every word is voiced in. */
  const AvailableVoices: seq<string> :=
    ["en-US-Chirp3-HD-Umbriel", "en-US-Chirp3-HD-Iapetus", "en-US-Chirp3-HD-Puck"]
  /** Seconds slept after each voice, and after each voiced word. */
  const VoicePause: nat := 1
  const WordPause: nat := 2
  /** The value a field takes when the record does not supply it. */
  const Blank: Json := Str("")

  // ---------------------------------------------------------------------
  // Extraction

  /** The five entries of `extract_word_data`. The values are copied from
      the record unchanged, so they are JSON values, not only strings. */
  datatype WordData = WordData(
    word: string,
    phoneticRespelling: Json,
    ssmlPhoneme: Json,
    definition: Json,
    example: Json)

  /** A field of the record, copied by `if field in word_data:` and
      `word_data[field]`: blank when absent, `None` when the test or the
      read raises. */
  function RecordField(w: Json, field: string): Option<Json> {
    match Look(w, field)
    case Absent => Some(Blank)
    case Found(v) => Some(v)
    case LookupError => None
  }

  /** A field of the first definition. The debug line after the copy slices
      it (`[:50]`), which raises unless it is a string or a list. */
  function DefinitionField(d: Json, field: string): (r: Option<Json>)
    ensures r.Some? ==> Sliceable(r.value)
  {
    match Look(d, field)
    case Absent => Some(Blank)
    case Found(v) => if Sliceable(v) then Some(v) else None
    case LookupError => None
  }

  /** How far the walk to `meanings[0]["definitions"][0]` gets: it stops
      where a list is missing or falsy, reaches the value, or raises. */
  datatype Reach = Unreached | Reached(value: Json) | Raised

  /** `if field in j and j[field]:`, the debug line's `len(j[field])`, then
      `j[field][0]`. `len` raises on a number or a boolean, and `[0]` on an
      object. */
  function FirstUnder(j: Json, field: string): (r: Reach)
    ensures j.Obj? && !FieldTruthy(j, field) ==> r == Unreached
    ensures j.Obj? && FieldTruthy(j, field) && Get(j, field).value.Arr? ==> r == Reached(Get(j, field).value.items[0])
  {
    match Look(j, field)
    case Absent => Unreached
    case LookupError => Raised
    case Found(v) =>
      if !Truthy(v) then Unreached
      else if !Sized(v) then Raised
      else match First(v)
        case Some(x) => Reached(x)
        case None => Raised
  }

  /** `meanings[0]["definitions"][0]`, when the walk gets there. */
  function FirstDefinition(w: Json): (r: Reach)
    ensures r.Reached? ==> FirstUnder(w, "meanings").Reached?
  {
    match FirstUnder(w, "meanings")
    case Reached(m) => FirstUnder(m, "definitions")
    case other => other
  }

  /** `extract_word_data(word_name, word_data)`, or `None` when one of its
      lookups or debug lines raises. */
  function ExtractWordData(name: string, w: Json): (r: Option<WordData>)
    ensures r.Some? ==> r.value.word == name
    ensures r.Some? ==> Sliceable(r.value.definition) && Sliceable(r.value.example)
    ensures w.Null? || w.Bool? || w.Num? || FirstDefinition(w).Raised? ==> r.None?
    ensures w.Obj? && r.Some? ==>
      && r.value.phoneticRespelling == GetOr(w, "phonetic_respelling", Blank)
      && r.value.ssmlPhoneme == GetOr(w, "ssml_phoneme", Blank)
    ensures w.Obj? && !FieldTruthy(w, "meanings") ==>
      r.Some? && r.value.definition == Blank && r.value.example == Blank
  {
    Assemble(name, RecordField(w, "phonetic_respelling"), RecordField(w, "ssml_phoneme"), FirstDefinition(w))
  }

  /** The extracted entries from the two copied fields and the first
      definition; any step that raised makes the whole extraction raise. */
  function Assemble(name: string, respelling: Option<Json>, phoneme: Option<Json>, first: Reach): Option<WordData> {
    match (respelling, phoneme, first)
    case (Some(p), Some(s), Unreached) => Some(WordData(name, p, s, Blank, Blank))
    case (Some(p), Some(s), Reached(d)) =>
      (match (DefinitionField(d, "definition"), DefinitionField(d, "example"))
       case (Some(df), Some(ex)) => Some(WordData(name, p, s, df, ex))
       case _ => None)
    case _ => None
  }

  /** Only the first meaning is read: replacing the meanings after it
      changes nothing. */
  lemma LaterMeaningsIgnored(name: string, members: Members, first: Json, more: seq<Json>, other: seq<Json>)
    requires Find(members, "meanings") == Some(Arr([first] + more))
    ensures ExtractWordData(name, Obj(members))
         == ExtractWordData(name, Obj(Put(members, "meanings", Arr([first] + other))))
  {
    var w := Obj(members);
    var w' := Obj(Put(members, "meanings", Arr([first] + other)));
    OtherFieldsKept(members, Arr([first] + other));
    FirstUnderList(w, "meanings", first, more);
    FirstUnderList(w', "meanings", first, other);
    assert FirstDefinition(w') == FirstDefinition(w);
    assert RecordField(w', "phonetic_respelling") == RecordField(w, "phonetic_respelling");
    assert RecordField(w', "ssml_phoneme") == RecordField(w, "ssml_phoneme");
  }

  /** Under a non-empty list the walk reaches its first element. */
  lemma FirstUnderList(j: Json, field: string, x: Json, xs: seq<Json>)
    requires j.Obj? && Get(j, field) == Some(Arr([x] + xs))
    ensures FirstUnder(j, field) == Reached(x)
  {
  }

  /** Replacing "meanings" keeps the two fields read beside it. */
  lemma OtherFieldsKept(members: Members, meanings: Json)
    ensures var w' := Obj(Put(members, "meanings", meanings));
      && Get(w', "phonetic_respelling") == Get(Obj(members), "phonetic_respelling")
      && Get(w', "ssml_phoneme") == Get(Obj(members), "ssml_phoneme")
  {
    var r := Put(members, "meanings", meanings);
    assert "phonetic_respelling" != "meanings";
    assert Find(r, "phonetic_respelling") == Find(members, "phonetic_respelling");
    assert "ssml_phoneme" != "meanings";
    assert Find(r, "ssml_phoneme") == Find(members, "ssml_phoneme");
  }

  /** Only the first definition of the first meaning is read: replacing the
      definitions after it changes nothing. Its "definition" and "example"
      entries are the ones extracted, and the record raises exactly when one
      of them is present but neither a string nor a list. */
  lemma LaterDefinitionsIgnored(name: string, members: Members, meaning: Members, more: seq<Json>,
                                def: Json, rest: seq<Json>, other: seq<Json>)
    requires Find(members, "meanings") == Some(Arr([Obj(meaning)] + more))
    requires Find(meaning, "definitions") == Some(Arr([def] + rest))
    ensures var m' := Obj(Put(meaning, "definitions", Arr([def] + other)));
      var w' := Obj(Put(members, "meanings", Arr([m'] + more)));
      var r := ExtractWordData(name, Obj(members));
      && r == ExtractWordData(name, w')
      && (r.Some? <==> DefinitionField(def, "definition").Some? && DefinitionField(def, "example").Some?)
      && (def.Obj? ==> (r.Some? <==> && (Has(def, "definition") ==> Sliceable(Get(def, "definition").value))
                                     && (Has(def, "example") ==> Sliceable(Get(def, "example").value))))
      && (r.Some? && def.Obj? ==>
            r.value.definition == GetOr(def, "definition", Blank) && r.value.example == GetOr(def, "example", Blank))
  {
    var w := Obj(members);
    var m' := Put(meaning, "definitions", Arr([def] + other));
    var w' := Put(members, "meanings", Arr([Obj(m')] + more));
    OtherFieldsKept(members, Arr([Obj(m')] + more));
    FirstDefinitionIs(members, meaning, more, def, rest);
    FirstDefinitionIs(w', m', more, def, other);
    RecordFieldsOfObject(w);
    RecordFieldsOfObject(Obj(w'));
    var p := RecordField(w, "phonetic_respelling");
    var q := RecordField(w, "ssml_phoneme");
    assert RecordField(Obj(w'), "phonetic_respelling") == p;
    assert RecordField(Obj(w'), "ssml_phoneme") == q;
    assert ExtractWordData(name, w) == Assemble(name, p, q, Reached(def)) == ExtractWordData(name, Obj(w'));
    AssembleReached(name, p, q, def);
    if def.Obj? {
      DefinitionFieldsOfObject(def);
    }
  }

  /** An object's fields are always copied: blank when absent. */
  lemma RecordFieldsOfObject(w: Json)
    requires w.Obj?
    ensures forall field: string :: RecordField(w, field) == Some(GetOr(w, field, Blank))
  {
  }

  /** With both copied fields read, the extraction raises exactly when a
      field of the first definition does. */
  lemma AssembleReached(name: string, p: Option<Json>, q: Option<Json>, d: Json)
    requires p.Some? && q.Some?
    ensures var r := Assemble(name, p, q, Reached(d));
      && (r.Some? <==> DefinitionField(d, "definition").Some? && DefinitionField(d, "example").Some?)
      && (r.Some? ==>
            r.value.definition == DefinitionField(d, "definition").value && r.value.example == DefinitionField(d, "example").value)
  {
  }

  /** On an object, a definition field raises exactly when it is present
      but neither a string nor a list, and otherwise is the field or blank. */
  lemma DefinitionFieldsOfObject(def: Json)
    requires def.Obj?
    ensures forall field: string ::
      DefinitionField(def, field).Some? <==> (Has(def, field) ==> Sliceable(Get(def, field).value))
    ensures forall field: string ::
      DefinitionField(def, field).Some? ==> DefinitionField(def, field).value == GetOr(def, field, Blank)
  {
  }

  lemma FirstDefinitionIs(members: Members, meaning: Members, more: seq<Json>, def: Json, rest: seq<Json>)
    requires Find(members, "meanings") == Some(Arr([Obj(meaning)] + more))
    requires Find(meaning, "definitions") == Some(Arr([def] + rest))
    ensures FirstDefinition(Obj(members)) == Reached(def)
  {
    FirstUnderList(Obj(members), "meanings", Obj(meaning), more);
    FirstUnderList(Obj(meaning), "definitions", def, rest);
  }

  // ---------------------------------------------------------------------
  // Text and file names

  /** The text before the definition: the word, an ellipsis, the word again. */
  function Lead(word: string): string {
    word + "..." + word + " means: "
  }

  /** The lead is the word, an ellipsis and the word again, and what
      follows it is kept after it. */
  lemma LeadParts(w: string, rest: string)
    ensures var text := Lead(w) + rest;
      && text[..|w|] == w
      && text[|w|..|w| + 3] == "..."
      && text[|w| + 3..2 * |w| + 3] == w
      && text[|Lead(w)|..] == rest
  {
    var lead := Lead(w);
    assert lead == w + ("..." + (w + " means: "));
    assert lead[..|w|] == w;
    assert lead[|w|..|w| + 3] == "...";
    assert lead[|w| + 3..2 * |w| + 3] == w;
    assert (lead + rest)[..|lead|] == lead;
  }

  /** `create_text_for_tts(word_data)`: the word, an ellipsis, the word
      again, the definition, and the example sentence only when it is
      truthy. The phonetic respelling is not spoken. */
  function CreateTextForTts(d: WordData): (text: string)
    ensures |text| >= 2 * |d.word| + 3
    ensures var n := |Lead(d.word)|;
      var m := n + |Display(d.definition)|;
      && text[..|d.word|] == d.word
      && text[|d.word|..|d.word| + 3] == "..."
      && text[|d.word| + 3..2 * |d.word| + 3] == d.word
      && m <= |text|
      && text[n..m] == Display(d.definition)
      && (Truthy(d.example) ==> text[m..] == " Example: " + Display(d.example))
      && (!Truthy(d.example) ==> |text| == m)
  {
    var rest := Display(d.definition) + (if Truthy(d.example) then " Example: " + Display(d.example) else "");
    LeadParts(d.word, rest);
    Lead(d.word) + rest
  }

  /** Changing the phonetic respelling leaves the spoken text unchanged. */
  lemma TextIgnoresRespelling(d: WordData, respelling: Json)
    ensures CreateTextForTts(d.(phoneticRespelling := respelling)) == CreateTextForTts(d)
  {
  }

  /** `voice_name.split('-')[-1]`: the part after the last '-', or the whole
      name when it has none. */
  function ShortName(voice: string): (r: string)
    ensures |r| <= |voice|
    ensures forall i :: 0 <= i < |r| ==> r[i] != '-'
    decreases |voice|
  {
    if |voice| == 0 then ""
    else if voice[|voice| - 1] == '-' then ""
    else ShortName(voice[..|voice| - 1]) + [voice[|voice| - 1]]
  }

  /** The short name is the longest suffix without a '-': a suffix, free of
      dashes, and either the whole name or preceded by a dash. */
  lemma {:induction false} ShortNameSuffix(voice: string)
    ensures var r := ShortName(voice);
      && |r| <= |voice| && r == voice[|voice| - |r|..]
      && (forall i :: 0 <= i < |r| ==> r[i] != '-')
      && (|r| == |voice| || voice[|voice| - |r| - 1] == '-')
    decreases |voice|
  {
    if |voice| > 0 && voice[|voice| - 1] != '-' {
      var init := voice[..|voice| - 1];
      var c := voice[|voice| - 1];
      ShortNameSuffix(init);
      var p := ShortName(init);
      var k := |init| - |p|;
      assert voice == init + [c];
      assert ShortName(voice) == p + [c];
      SnocSuffix(init, c, k);
      if 0 < k {
        assert voice[k - 1] == init[k - 1];
      }
    }
  }

  lemma SnocSuffix(init: string, c: char, k: nat)
    requires k <= |init|
    ensures (init + [c])[k..] == init[k..] + [c]
  {
  }

  /** The short name of `prefix-name` is `name` when `name` has no '-'. */
  lemma {:induction false} ShortNameAfterDash(prefix: string, name: string)
    requires forall i :: 0 <= i < |name| ==> name[i] != '-'
    ensures ShortName(prefix + "-" + name) == name
    decreases |name|
  {
    var s := prefix + "-" + name;
    if |name| > 0 {
      var init := name[..|name| - 1];
      assert s[..|s| - 1] == prefix + "-" + init;
      ShortNameAfterDash(prefix, init);
      assert name == init + [name[|name| - 1]];
    }
  }

  /** The short names of the three voices. */
  lemma VoiceShortNames()
    ensures ShortName(AvailableVoices[0]) == "Umbriel"
    ensures ShortName(AvailableVoices[1]) == "Iapetus"
    ensures ShortName(AvailableVoices[2]) == "Puck"
  {
    assert AvailableVoices[0] == "en-US-Chirp3-HD" + "-" + "Umbriel";
    assert AvailableVoices[1] == "en-US-Chirp3-HD" + "-" + "Iapetus";
    assert AvailableVoices[2] == "en-US-Chirp3-HD" + "-" + "Puck";
    ShortNameAfterDash("en-US-Chirp3-HD", "Umbriel");
    ShortNameAfterDash("en-US-Chirp3-HD", "Iapetus");
    ShortNameAfterDash("en-US-Chirp3-HD", "Puck");
  }

  /** The two clips made for each voice. */
  datatype Kind = ExampleAudio | PronunciationAudio

  function Infix(kind: Kind): string {
    match kind
    case PronunciationAudio => "-pronunciation-"
    case ExampleAudio => "-example_and_sample-"
  }

  /** The file a clip is stored under: `{word}-pronunciation-{short}.mp3` or
      `{word}-example_and_sample-{short}.mp3`. */
  function FileName(word: string, voice: string, kind: Kind): (r: string)
    ensures |r| >= |word| + 4 && r[..|word|] == word && r[|r| - 4..] == ".mp3"
  {
    word + Infix(kind) + ShortName(voice) + ".mp3"
  }

  /** For one word, the file name determines the kind of clip and the
      voice's short name. */
  lemma FileNameInjective(word: string, v1: string, k1: Kind, v2: string, k2: Kind)
    requires FileName(word, v1, k1) == FileName(word, v2, k2)
    ensures k1 == k2 && ShortName(v1) == ShortName(v2)
  {
    var p1 := word + Infix(k1);
    var p2 := word + Infix(k2);
    var s1 := ShortName(v1);
    var s2 := ShortName(v2);
    SliceMiddle(p1, s1, ".mp3");
    SliceMiddle(p2, s2, ".mp3");
    assert p1[|word| + 1] == Infix(k1)[1];
    assert p2[|word| + 1] == Infix(k2)[1];
  }

  /** The parts of a concatenation can be read back by position. */
  lemma SliceMiddle(pre: string, mid: string, post: string)
    ensures |pre + mid + post| == |pre| + |mid| + |post|
    ensures (pre + mid + post)[|pre|..|pre| + |mid|] == mid
    ensures forall i :: 0 <= i < |pre| ==> (pre + mid + post)[i] == pre[i]
  {
  }

  /** Different kinds, or voices with different short names, never share a file. */
  lemma FileNamesDiffer(word: string, v1: string, k1: Kind, v2: string, k2: Kind)
    requires k1 != k2 || ShortName(v1) != ShortName(v2)
    ensures FileName(word, v1, k1) != FileName(word, v2, k2)
  {
    if FileName(word, v1, k1) == FileName(word, v2, k2) {
      FileNameInjective(word, v1, k1, v2, k2);
    }
  }

  /** What is spoken: the word between two pairs of dots for a pronunciation
      clip, the full text otherwise. */
  function SpokenText(d: WordData, kind: Kind): (r: string)
    ensures kind.PronunciationAudio? ==> |r| == |d.word| + 4 && r[2..|r| - 2] == d.word
    ensures kind.ExampleAudio? ==> |r| >= |d.word| && r[..|d.word|] == d.word
  {
    match kind
    case PronunciationAudio => ".." + d.word + ".."
    case ExampleAudio => CreateTextForTts(d)
  }

  // ---------------------------------------------------------------------
  // One clip

  datatype Event =
    | Synthesize(voice: string, text: string, file: string)  // one attempt at the service
    | Sleep(seconds: nat)

  /** The audio folder, the service's remaining answers, and what was done. */
  datatype Job = Job(disk: set<string>, answers: seq<bool>, trace: seq<Event>)

  datatype Attempt = Attempt(ok: bool, job: Job)

  /** `generate_audio_modern_google(word_data, voice_name, audio_type)`. An
      existing file is reported as made without calling the service; otherwise
      the service's next answer decides whether the file is written. */
  function Generate(d: WordData, voice: string, kind: Kind, job: Job): (r: Attempt)
    ensures FileName(d.word, voice, kind) in job.disk ==> r == Attempt(true, job)
    ensures r.ok <==> FileName(d.word, voice, kind) in r.job.disk
    ensures r.job.disk == (if r.ok then job.disk + {FileName(d.word, voice, kind)} else job.disk)
    ensures FileName(d.word, voice, kind) !in job.disk ==>
      && r.job.trace == job.trace + [Synthesize(voice, SpokenText(d, kind), FileName(d.word, voice, kind))]
      && r.job.answers == (if |job.answers| > 0 then job.answers[1..] else [])
  {
    var file := FileName(d.word, voice, kind);
    if file in job.disk then Attempt(true, job)
    else
      var ok := |job.answers| > 0 && job.answers[0];
      var rest := if |job.answers| > 0 then job.answers[1..] else [];
      var trace := job.trace + [Synthesize(voice, SpokenText(d, kind), file)];
      Attempt(ok, Job(if ok then job.disk + {file} else job.disk, rest, trace))
  }

  /** Re-running after a success is a no-op that reports success, whatever
      the service would answer. */
  lemma GenerateIdempotent(d: WordData, voice: string, kind: Kind, job: Job, answers: seq<bool>)
    ensures var first := Generate(d, voice, kind, job);
      first.ok ==> Generate(d, voice, kind, first.job.(answers := answers)) == Attempt(true, first.job.(answers := answers))
  {
  }

  // ---------------------------------------------------------------------
  // All voices

  /** The `{"example": .., "pronunciation": ..}` entry of one voice. */
  datatype VoiceResult = VoiceResult(example: bool, pronunciation: bool)

  datatype VoiceRun = VoiceRun(result: VoiceResult, job: Job)

  /** The loop body of `generate_audio_for_all_voices` for one voice: both
      flags start false and each is set when its clip is made. */
  function ForVoice(d: WordData, voice: string, available: bool, job: Job): (r: VoiceRun)
    ensures !available ==> r == VoiceRun(VoiceResult(false, false), job)
  {
    if !available then VoiceRun(VoiceResult(false, false), job)
    else
      var e := Generate(d, voice, ExampleAudio, job);
      var p := Generate(d, voice, PronunciationAudio, e.job);
      VoiceRun(VoiceResult(e.ok, p.ok), p.job.(trace := p.job.trace + [Sleep(VoicePause)]))
  }

  /** One voice's turn, with the word fixed. The voice loop below is stated
      for any such step; `Voicing` is the script's. */
  type VoiceStep = (string, Job) -> VoiceRun

  function Voicing(d: WordData, available: bool): VoiceStep {
    (voice: string, job: Job) => ForVoice(d, voice, available, job)
  }

  /** A step that makes nothing and touches nothing. */
  ghost predicate StepIdle(step: VoiceStep) {
    forall v, j :: step(v, j) == VoiceRun(VoiceResult(false, false), j)
  }

  /** A step that only adds the voice's own two files for `word`. */
  ghost predicate StepWrites(step: VoiceStep, word: string) {
    forall v: string, j: Job ::
      && j.disk <= step(v, j).job.disk
      && step(v, j).job.disk <= j.disk + {FileName(word, v, ExampleAudio), FileName(word, v, PronunciationAudio)}
  }

  /** A step whose flags say exactly which of its files are in the folder afterwards. */
  ghost predicate StepFlags(step: VoiceStep, word: string) {
    forall v: string, j: Job ::
      && (step(v, j).result.example <==> FileName(word, v, ExampleAudio) in step(v, j).job.disk)
      && (step(v, j).result.pronunciation <==> FileName(word, v, PronunciationAudio) in step(v, j).job.disk)
  }

  /** A step that, when both files exist, only pauses and reports both made. */
  ghost predicate StepSkips(step: VoiceStep, word: string) {
    forall v: string, j: Job ::
      FileName(word, v, ExampleAudio) in j.disk && FileName(word, v, PronunciationAudio) in j.disk ==>
        step(v, j) == VoiceRun(VoiceResult(true, true), j.(trace := j.trace + [Sleep(VoicePause)]))
  }

  /** Without the service a voice's turn does nothing; with it, the turn
      writes only the voice's two files, its flags tell which of them exist
      afterwards, and files already present are not made again. */
  lemma ForVoiceSteps(d: WordData)
    ensures StepIdle(Voicing(d, false))
    ensures StepWrites(Voicing(d, true), d.word)
    ensures StepFlags(Voicing(d, true), d.word)
    ensures StepSkips(Voicing(d, true), d.word)
  {
    forall v, j ensures Voicing(d, true)(v, j) == ForVoice(d, v, true, j) {
    }
    forall v: string ensures FileName(d.word, v, ExampleAudio) != FileName(d.word, v, PronunciationAudio) {
      FileNamesDiffer(d.word, v, ExampleAudio, v, PronunciationAudio);
    }
  }

  datatype VoicesRun = VoicesRun(results: seq<(string, VoiceResult)>, job: Job)

  /** `for voice_name in self.available_voices: results[voice_name] = ...`. */
  function Through(voices: seq<string>, step: VoiceStep, job: Job): (r: VoicesRun)
    ensures |r.results| <= |voices|
    decreases |voices|
  {
    if |voices| == 0 then VoicesRun([], job)
    else
      var voice := voices[|voices| - 1];
      var prev := Through(voices[..|voices| - 1], step, job);
      var here := step(voice, prev.job);
      var results := Put(prev.results, voice, here.result);
      assert Contains(prev.results, voice) ==> |Keys(results)| == |Keys(prev.results)|;
      VoicesRun(results, here.job)
  }

  /** `generate_audio_for_all_voices(word_data)`. */
  function AllVoices(d: WordData, voices: seq<string>, available: bool, job: Job): (r: VoicesRun)
    ensures |r.results| <= |voices|
    ensures !available ==> r.job == job && AllResults(r.results, VoiceResult(false, false))
  {
    ForVoiceSteps(d);
    if !available then
      ThroughIdle(voices, Voicing(d, available), job);
      Through(voices, Voicing(d, available), job)
    else Through(voices, Voicing(d, available), job)
  }

  /** No two voices share a short name (and so no two are equal). */
  predicate DistinctShortNames(voices: seq<string>) {
    forall i, j :: 0 <= i < j < |voices| ==> ShortName(voices[i]) != ShortName(voices[j])
  }

  lemma AvailableVoicesDistinct()
    ensures DistinctShortNames(AvailableVoices)
  {
    VoiceShortNames();
  }

  /** Voices with distinct short names are distinct. */
  lemma DistinctVoices(voices: seq<string>)
    requires DistinctShortNames(voices)
    ensures forall i, j :: 0 <= i < j < |voices| ==> voices[i] != voices[j]
  {
  }

  /** Every value of `Put(d, k, v)` is `v` or a value of `d`. */
  lemma PutValues<V>(d: seq<(string, V)>, k: string, v: V, i: nat)
    requires i < |Put(d, k, v)|
    ensures Put(d, k, v)[i].1 == v || exists j :: 0 <= j < |d| && Put(d, k, v)[i].1 == d[j].1
    decreases |d|
  {
    if |d| > 0 && d[0].0 != k && i > 0 {
      PutValues(d[1..], k, v, i - 1);
      assert Put(d, k, v)[i] == Put(d[1..], k, v)[i - 1];
      if Put(d, k, v)[i].1 != v {
        var j :| 0 <= j < |d[1..]| && Put(d[1..], k, v)[i - 1].1 == d[1..][j].1;
        assert d[j + 1] == d[1..][j];
      }
    }
  }

  /** Every entry is some step's result. */
  predicate AllResults(results: seq<(string, VoiceResult)>, r: VoiceResult) {
    forall i :: 0 <= i < |results| ==> results[i].1 == r
  }

  lemma PutKeepsAll(results: seq<(string, VoiceResult)>, voice: string, r: VoiceResult)
    requires AllResults(results, r)
    ensures AllResults(Put(results, voice, r), r)
  {
    forall i | 0 <= i < |Put(results, voice, r)| ensures Put(results, voice, r)[i].1 == r {
      PutValues(results, voice, r, i);
    }
  }

  /** With an idle step the folder and the oracle are untouched and every
      flag is false. */
  lemma {:induction false} ThroughIdle(voices: seq<string>, step: VoiceStep, job: Job)
    requires StepIdle(step)
    ensures Through(voices, step, job).job == job
    ensures AllResults(Through(voices, step, job).results, VoiceResult(false, false))
    decreases |voices|
  {
    if |voices| > 0 {
      var prev := Through(voices[..|voices| - 1], step, job);
      ThroughIdle(voices[..|voices| - 1], step, job);
      PutKeepsAll(prev.results, voices[|voices| - 1], VoiceResult(false, false));
    }
  }

  /** The entries are keyed by `voices`, in order. */
  predicate KeyedBy(results: seq<(string, VoiceResult)>, voices: seq<string>) {
    |results| == |voices| && forall i :: 0 <= i < |voices| ==> results[i].0 == voices[i]
  }

  /** With distinct voices there is one entry per voice, in order. */
  lemma {:induction false} ThroughKeys(voices: seq<string>, step: VoiceStep, job: Job)
    requires forall i, j :: 0 <= i < j < |voices| ==> voices[i] != voices[j]
    ensures KeyedBy(Through(voices, step, job).results, voices)
    decreases |voices|
  {
    if |voices| > 0 {
      var init := voices[..|voices| - 1];
      var voice := voices[|voices| - 1];
      ThroughKeys(init, step, job);
      ThroughAppends(voices, step, job);
      var prev := Through(init, step, job);
      KeyedBySnoc(prev.results, voices, step(voice, prev.job).result);
    }
  }

  lemma KeyedBySnoc(results: seq<(string, VoiceResult)>, voices: seq<string>, r: VoiceResult)
    requires |voices| > 0
    requires KeyedBy(results, voices[..|voices| - 1])
    ensures KeyedBy(results + [(voices[|voices| - 1], r)], voices)
  {
  }

  /** A voice not among the earlier ones gets a new entry, which goes last. */
  lemma ThroughAppends(voices: seq<string>, step: VoiceStep, job: Job)
    requires |voices| > 0
    requires forall i, j :: 0 <= i < j < |voices| ==> voices[i] != voices[j]
    requires KeyedBy(Through(voices[..|voices| - 1], step, job).results, voices[..|voices| - 1])
    ensures var prev := Through(voices[..|voices| - 1], step, job);
      var here := step(voices[|voices| - 1], prev.job);
      Through(voices, step, job) == VoicesRun(prev.results + [(voices[|voices| - 1], here.result)], here.job)
  {
    var init := voices[..|voices| - 1];
    var voice := voices[|voices| - 1];
    var prev := Through(init, step, job);
    var here := step(voice, prev.job);
    ThroughStep(voices, step, job);
    NewVoice(prev.results, voices);
    assert Put(prev.results, voice, here.result) == prev.results + [(voice, here.result)];
  }

  /** Results keyed by distinct earlier voices hold no entry for the last one. */
  lemma NewVoice(results: seq<(string, VoiceResult)>, voices: seq<string>)
    requires |voices| > 0
    requires forall i, j :: 0 <= i < j < |voices| ==> voices[i] != voices[j]
    requires KeyedBy(results, voices[..|voices| - 1])
    ensures !Contains(results, voices[|voices| - 1])
  {
    var init := voices[..|voices| - 1];
    forall j | 0 <= j < |results| ensures results[j].0 != voices[|voices| - 1] {
      assert init[j] == voices[j];
    }
  }

  /** One more voice: its result is put under its name. */
  lemma ThroughStep(voices: seq<string>, step: VoiceStep, job: Job)
    requires |voices| > 0
    ensures var prev := Through(voices[..|voices| - 1], step, job);
      var here := step(voices[|voices| - 1], prev.job);
      Through(voices, step, job) == VoicesRun(Put(prev.results, voices[|voices| - 1], here.result), here.job)
  {
  }

  /** Every file the voice loop may write for the word. */
  ghost function WordFiles(word: string, voices: seq<string>): set<string> {
    set i, k: Kind | 0 <= i < |voices| :: FileName(word, voices[i], k)
  }

  lemma WordFilesGrow(word: string, voices: seq<string>)
    requires |voices| > 0
    ensures WordFiles(word, voices[..|voices| - 1]) <= WordFiles(word, voices)
    ensures FileName(word, voices[|voices| - 1], ExampleAudio) in WordFiles(word, voices)
    ensures FileName(word, voices[|voices| - 1], PronunciationAudio) in WordFiles(word, voices)
  {
    var init := voices[..|voices| - 1];
    forall f | f in WordFiles(word, init) ensures f in WordFiles(word, voices) {
      var i, k :| 0 <= i < |init| && f == FileName(word, init[i], k);
      assert voices[i] == init[i];
    }
  }

  /** The loop only adds files, and only the word's own. */
  lemma {:induction false} ThroughWrites(voices: seq<string>, step: VoiceStep, word: string, job: Job)
    requires StepWrites(step, word)
    ensures job.disk <= Through(voices, step, job).job.disk <= job.disk + WordFiles(word, voices)
    decreases |voices|
  {
    if |voices| > 0 {
      ThroughWrites(voices[..|voices| - 1], step, word, job);
      WordFilesGrow(word, voices);
    }
  }

  /** Writing one voice's files leaves the presence of another voice's files as it was. */
  lemma OtherVoiceKeeps(word: string, v: string, voice: string, before: set<string>, after: set<string>)
    requires ShortName(v) != ShortName(voice)
    requires before <= after <= before + {FileName(word, voice, ExampleAudio), FileName(word, voice, PronunciationAudio)}
    ensures FileName(word, v, ExampleAudio) in after <==> FileName(word, v, ExampleAudio) in before
    ensures FileName(word, v, PronunciationAudio) in after <==> FileName(word, v, PronunciationAudio) in before
  {
    FileNamesDiffer(word, v, ExampleAudio, voice, ExampleAudio);
    FileNamesDiffer(word, v, ExampleAudio, voice, PronunciationAudio);
    FileNamesDiffer(word, v, PronunciationAudio, voice, ExampleAudio);
    FileNamesDiffer(word, v, PronunciationAudio, voice, PronunciationAudio);
  }

  /** The flags of the `i`-th voice tell which of its files exist. */
  predicate FlagsMatch(word: string, voices: seq<string>, results: seq<(string, VoiceResult)>, disk: set<string>) {
    && |results| == |voices|
    && forall i :: 0 <= i < |voices| ==>
         && (results[i].1.example <==> FileName(word, voices[i], ExampleAudio) in disk)
         && (results[i].1.pronunciation <==> FileName(word, voices[i], PronunciationAudio) in disk)
  }

  /** With distinct short names, each voice's flags hold exactly when its
      files are in the folder once the loop is over. */
  lemma {:induction false} ThroughFlags(voices: seq<string>, step: VoiceStep, word: string, job: Job)
    requires DistinctShortNames(voices)
    requires StepWrites(step, word) && StepFlags(step, word)
    ensures var r := Through(voices, step, job); FlagsMatch(word, voices, r.results, r.job.disk)
    decreases |voices|
  {
    if |voices| > 0 {
      var init := voices[..|voices| - 1];
      var voice := voices[|voices| - 1];
      var prev := Through(init, step, job);
      var here := step(voice, prev.job);
      DistinctInit(voices);
      ThroughFlags(init, step, word, job);
      ThroughSnoc(voices, step, job);
      StepFacts(step, word, voice, prev.job);
      FlagsExtend(word, voices, prev.results, here.result, prev.job.disk, here.job.disk);
    }
  }

  lemma DistinctInit(voices: seq<string>)
    requires |voices| > 0 && DistinctShortNames(voices)
    ensures DistinctShortNames(voices[..|voices| - 1])
  {
  }

  /** One turn of a writing, flagging step, spelled out. */
  lemma StepFacts(step: VoiceStep, word: string, voice: string, job: Job)
    requires StepWrites(step, word) && StepFlags(step, word)
    ensures var here := step(voice, job);
      && job.disk <= here.job.disk <= job.disk + {FileName(word, voice, ExampleAudio), FileName(word, voice, PronunciationAudio)}
      && (here.result.example <==> FileName(word, voice, ExampleAudio) in here.job.disk)
      && (here.result.pronunciation <==> FileName(word, voice, PronunciationAudio) in here.job.disk)
  {
  }

  /** With distinct voices the last voice's entry goes after the others'. */
  lemma ThroughSnoc(voices: seq<string>, step: VoiceStep, job: Job)
    requires |voices| > 0
    requires DistinctShortNames(voices)
    ensures var prev := Through(voices[..|voices| - 1], step, job);
      var here := step(voices[|voices| - 1], prev.job);
      Through(voices, step, job) == VoicesRun(prev.results + [(voices[|voices| - 1], here.result)], here.job)
  {
    DistinctVoices(voices);
    ThroughKeys(voices[..|voices| - 1], step, job);
    ThroughAppends(voices, step, job);
  }

  /** Adding one voice's entry and files keeps the flags of the voices
      before it matching the folder. */
  lemma FlagsExtend(word: string, vs: seq<string>, results: seq<(string, VoiceResult)>,
                    res: VoiceResult, before: set<string>, after: set<string>)
    requires |vs| > 0 && DistinctShortNames(vs)
    requires FlagsMatch(word, vs[..|vs| - 1], results, before)
    requires var voice := vs[|vs| - 1];
      && before <= after <= before + {FileName(word, voice, ExampleAudio), FileName(word, voice, PronunciationAudio)}
      && (res.example <==> FileName(word, voice, ExampleAudio) in after)
      && (res.pronunciation <==> FileName(word, voice, PronunciationAudio) in after)
    ensures FlagsMatch(word, vs, results + [(vs[|vs| - 1], res)], after)
  {
    var init := vs[..|vs| - 1];
    var voice := vs[|vs| - 1];
    var rs := results + [(voice, res)];
    forall i | 0 <= i < |vs|
      ensures rs[i].1.example <==> FileName(word, vs[i], ExampleAudio) in after
      ensures rs[i].1.pronunciation <==> FileName(word, vs[i], PronunciationAudio) in after
    {
      if i < |init| {
        assert vs[i] == init[i] && rs[i] == results[i];
        OtherVoiceKeeps(word, vs[i], voice, before, after);
      }
    }
  }

  /** `n` voice pauses. */
  function Sleeps(n: nat): (t: seq<Event>)
    ensures |t| == n
    ensures forall i :: 0 <= i < n ==> t[i] == Sleep(VoicePause)
  {
    seq(n, i => Sleep(VoicePause))
  }

  /** Every file of the word for every voice is in the folder. */
  ghost predicate AllPresent(word: string, voices: seq<string>, disk: set<string>) {
    forall i, k :: 0 <= i < |voices| ==> FileName(word, voices[i], k) in disk
  }

  /** When every file is already there, the loop only pauses, and every flag is set. */
  lemma {:induction false} ThroughPresent(voices: seq<string>, step: VoiceStep, word: string, job: Job)
    requires StepSkips(step, word)
    requires AllPresent(word, voices, job.disk)
    ensures Through(voices, step, job).job == job.(trace := job.trace + Sleeps(|voices|))
    ensures AllResults(Through(voices, step, job).results, VoiceResult(true, true))
    decreases |voices|
  {
    if |voices| > 0 {
      var init := voices[..|voices| - 1];
      var voice := voices[|voices| - 1];
      PresentInit(word, voices, job.disk);
      ThroughPresent(init, step, word, job);
      var prev := Through(init, step, job);
      SkipTurn(step, word, voice, prev.job);
      TraceSnoc(job.trace, |init|);
      ThroughStep(voices, step, job);
      PutKeepsAll(prev.results, voice, VoiceResult(true, true));
    }
  }

  lemma PresentInit(word: string, voices: seq<string>, disk: set<string>)
    requires |voices| > 0
    requires AllPresent(word, voices, disk)
    ensures AllPresent(word, voices[..|voices| - 1], disk)
    ensures FileName(word, voices[|voices| - 1], ExampleAudio) in disk
    ensures FileName(word, voices[|voices| - 1], PronunciationAudio) in disk
  {
    var init := voices[..|voices| - 1];
    forall i, k | 0 <= i < |init| ensures FileName(word, init[i], k) in disk {
      assert init[i] == voices[i];
    }
  }

  /** A skipping step's turn when both files exist. */
  lemma SkipTurn(step: VoiceStep, word: string, voice: string, j: Job)
    requires StepSkips(step, word)
    requires FileName(word, voice, ExampleAudio) in j.disk && FileName(word, voice, PronunciationAudio) in j.disk
    ensures step(voice, j) == VoiceRun(VoiceResult(true, true), j.(trace := j.trace + [Sleep(VoicePause)]))
  {
  }

  lemma TraceSnoc(t: seq<Event>, n: nat)
    ensures t + Sleeps(n) + [Sleep(VoicePause)] == t + Sleeps(n + 1)
  {
    SleepsSnoc(n);
    assert t + Sleeps(n) + [Sleep(VoicePause)] == t + (Sleeps(n) + [Sleep(VoicePause)]);
  }

  lemma SleepsSnoc(n: nat)
    ensures Sleeps(n) + [Sleep(VoicePause)] == Sleeps(n + 1)
  {
  }

  /** A second run after a run in which every clip was made calls nothing,
      writes nothing and reports every clip again. */
  lemma ThroughAgain(voices: seq<string>, step: VoiceStep, word: string, job: Job, answers: seq<bool>)
    requires DistinctShortNames(voices)
    requires StepWrites(step, word) && StepFlags(step, word) && StepSkips(step, word)
    requires AllResults(Through(voices, step, job).results, VoiceResult(true, true))
    ensures var first := Through(voices, step, job);
      var again := Through(voices, step, first.job.(answers := answers));
      && again.job == first.job.(answers := answers, trace := first.job.trace + Sleeps(|voices|))
      && AllResults(again.results, VoiceResult(true, true))
  {
    var first := Through(voices, step, job);
    ThroughFlags(voices, step, word, job);
    FlagsPresent(word, voices, first.results, first.job.disk);
    ThroughPresent(voices, step, word, first.job.(answers := answers));
  }

  /** When every flag is set and the flags match the folder, every file is there. */
  lemma FlagsPresent(word: string, voices: seq<string>, results: seq<(string, VoiceResult)>, disk: set<string>)
    requires FlagsMatch(word, voices, results, disk)
    requires AllResults(results, VoiceResult(true, true))
    ensures AllPresent(word, voices, disk)
  {
    forall i, k | 0 <= i < |voices| ensures FileName(word, voices[i], k) in disk {
      assert results[i].1 == VoiceResult(true, true);
    }
  }

  /** `generate_audio_for_all_voices` with the service: one entry per voice,
      in order, each flag set exactly when its file is in the folder
      afterwards, and no file written but the word's own. */
  lemma AllVoicesFiles(d: WordData, voices: seq<string>, job: Job)
    requires DistinctShortNames(voices)
    ensures var r := AllVoices(d, voices, true, job);
      && KeyedBy(r.results, voices)
      && FlagsMatch(d.word, voices, r.results, r.job.disk)
      && job.disk <= r.job.disk <= job.disk + WordFiles(d.word, voices)
  {
    ForVoiceSteps(d);
    DistinctVoices(voices);
    ThroughKeys(voices, Voicing(d, true), job);
    ThroughFlags(voices, Voicing(d, true), d.word, job);
    ThroughWrites(voices, Voicing(d, true), d.word, job);
  }

  /** Without the service: every flag false, nothing written, nothing called. */
  lemma AllVoicesIdle(d: WordData, voices: seq<string>, job: Job)
    ensures AllVoices(d, voices, false, job).job == job
    ensures AllResults(AllVoices(d, voices, false, job).results, VoiceResult(false, false))
  {
    ForVoiceSteps(d);
    ThroughIdle(voices, Voicing(d, false), job);
  }

  /** Re-running the word after every clip was made is a no-op apart from
      the pauses, whatever the service would answer. */
  lemma AllVoicesAgain(d: WordData, voices: seq<string>, job: Job, answers: seq<bool>)
    requires DistinctShortNames(voices)
    requires AllResults(AllVoices(d, voices, true, job).results, VoiceResult(true, true))
    ensures var first := AllVoices(d, voices, true, job);
      var again := AllVoices(d, voices, true, first.job.(answers := answers));
      && again.job == first.job.(answers := answers, trace := first.job.trace + Sleeps(|voices|))
      && AllResults(again.results, VoiceResult(true, true))
  {
    ForVoiceSteps(d);
    ThroughAgain(voices, Voicing(d, true), d.word, job, answers);
  }

  // ---------------------------------------------------------------------
  // The whole run

  /** The counters of `process_all_words` (the elapsed time is left out). */
  datatype AudioStats = AudioStats(
    totalWords: nat,
    successfulExamples: nat,
    successfulPronunciations: nat,
    failedGenerations: nat,
    skippedWords: nat,
    totalVoices: nat)

  datatype Run = Run(stats: AudioStats, job: Job)

  /** A word is voiced only when both its definition and its example are
      present and non-empty. */
  predicate Ready(d: WordData) {
    Truthy(d.definition) && Truthy(d.example)
  }

  function ExampleHits(results: seq<(string, VoiceResult)>): (n: nat)
    ensures n <= |results|
  {
    if |results| == 0 then 0
    else ExampleHits(results[..|results| - 1]) + (if results[|results| - 1].1.example then 1 else 0)
  }

  function PronunciationHits(results: seq<(string, VoiceResult)>): (n: nat)
    ensures n <= |results|
  {
    if |results| == 0 then 0
    else PronunciationHits(results[..|results| - 1]) + (if results[|results| - 1].1.pronunciation then 1 else 0)
  }

  /** The counters after voicing one word with the given per-voice results:
      the clips made are added, and the word is a failure when fewer than
      `2 * |voices|` were made. */
  function CountVoiced(s: AudioStats, voices: seq<string>, results: seq<(string, VoiceResult)>): AudioStats {
    var examples := ExampleHits(results);
    var pronunciations := PronunciationHits(results);
    s.(successfulExamples := s.successfulExamples + examples,
       successfulPronunciations := s.successfulPronunciations + pronunciations,
       failedGenerations := s.failedGenerations + (if examples + pronunciations < 2 * |voices| then 1 else 0))
  }

  /** The loop body for one word, given what `extract_word_data` made of
      its record: counted, then a failure when the extraction raised (the
      `except` clause, which neither voices nor pauses), skipped when the
      definition or the example is missing, and voiced otherwise. */
  function ProcessWord(run: Run, voices: seq<string>, available: bool, x: Option<WordData>): (r: Run)
    ensures r.stats.totalWords == run.stats.totalWords + 1
    ensures r.stats.totalVoices == run.stats.totalVoices
    ensures x.None? ==> r == run.(stats := run.stats.(totalWords := run.stats.totalWords + 1,
                                                      failedGenerations := run.stats.failedGenerations + 1))
    ensures x.Some? && !Ready(x.value) ==>
      r == run.(stats := run.stats.(totalWords := run.stats.totalWords + 1, skippedWords := run.stats.skippedWords + 1))
    ensures x.Some? && Ready(x.value) ==> r.stats.skippedWords == run.stats.skippedWords
  {
    var s := run.stats.(totalWords := run.stats.totalWords + 1);
    match x
    case None => run.(stats := s.(failedGenerations := s.failedGenerations + 1))
    case Some(d) =>
      if !Ready(d) then run.(stats := s.(skippedWords := s.skippedWords + 1))
      else
        var v := AllVoices(d, voices, available, run.job);
        Run(CountVoiced(s, voices, v.results), v.job.(trace := v.job.trace + [Sleep(WordPause)]))
  }

  /** One word's turn, given its name and record. The word loop below is
      stated for any such step; `Voicer` is the script's. */
  type WordStep = (Run, string, Json) -> Run

  function Voicer(voices: seq<string>, available: bool): WordStep {
    (run: Run, name: string, data: Json) => ProcessWord(run, voices, available, ExtractWordData(name, data))
  }

  /** `for word_name, word_data in words.items()`, with any step. */
  function EachWord(run: Run, step: WordStep, words: Members): Run
    decreases |words|
  {
    if |words| == 0 then run
    else
      var last := words[|words| - 1];
      step(EachWord(run, step, words[..|words| - 1]), last.0, last.1)
  }

  /** The words of a letter entry. Only an object with a "words" key is
      visited; its words must then be an object, since the log line's
      `len(words)` and the loop's `words.items()` run outside the per-word
      `try`, and anything else raises there (`None`). */
  function LetterWords(entry: Json): Option<Members> {
    if !(entry.Obj? && Has(entry, "words")) then Some([])
    else
      var words := Get(entry, "words").value;
      if words.Obj? then Some(words.members) else None
  }

  /** What the letter loop lists for each letter, in dictionary order. */
  function Listings(entries: Members): (r: seq<Option<Members>>)
    ensures |r| == |entries|
    ensures forall i :: 0 <= i < |entries| ==> r[i] == LetterWords(entries[i].1)
  {
    seq(|entries|, i requires 0 <= i < |entries| => LetterWords(entries[i].1))
  }

  /** The words of a letter whose words can be listed, and none otherwise. */
  function Listed(letter: Option<Members>): Members {
    match letter
    case Some(words) => words
    case None => []
  }

  /** Where a run ends: `raised` when an exception escaped the loops, which
      ends the script without a summary; the folder keeps what was written. */
  datatype Outcome = Outcome(run: Run, raised: bool)

  /** A letter whose words cannot be listed. */
  predicate Unlistable(letters: seq<Option<Members>>) {
    exists i :: 0 <= i < |letters| && letters[i].None?
  }

  /** `for letter, letter_data in dictionary_data.items()`, with any word
      step, over the letters' listings: it stops at the first letter whose
      words cannot be listed. */
  function ProcessLetters(run: Run, step: WordStep, letters: seq<Option<Members>>): Outcome
    decreases |letters|
  {
    if |letters| == 0 then Outcome(run, false)
    else
      var prev := ProcessLetters(run, step, letters[..|letters| - 1]);
      if prev.raised then prev
      else match letters[|letters| - 1]
        case None => Outcome(prev.run, true)
        case Some(words) => Outcome(EachWord(prev.run, step, words), false)
  }

  /** The letter loop raises exactly when some letter's words cannot be
      listed, and then the letters after it are not visited. */
  lemma {:induction false} LettersRaise(run: Run, step: WordStep, letters: seq<Option<Members>>)
    ensures ProcessLetters(run, step, letters).raised <==> Unlistable(letters)
    decreases |letters|
  {
    if |letters| > 0 {
      var init := letters[..|letters| - 1];
      LettersRaise(run, step, init);
      if Unlistable(init) {
        var i :| 0 <= i < |init| && init[i].None?;
        assert letters[i] == init[i];
      }
      if !Unlistable(init) {
        forall i | 0 <= i < |init| ensures letters[i].Some? {
          assert letters[i] == init[i];
        }
      }
    }
  }

  /** The counters before the first letter. */
  const Start: AudioStats := AudioStats(0, 0, 0, 0, 0, |AvailableVoices|)

  /** `process_all_words()` over the loaded dictionary, the audio folder's
      contents and the service's answers. A dictionary that is not an object
      raises already where it is loaded and its keys are logged. */
  function ProcessAllWords(dictionary: Json, available: bool, disk: set<string>, answers: seq<bool>): (r: Outcome)
    ensures !dictionary.Obj? ==> r.raised && r.run.stats == Start && r.run.job == Job(disk, answers, [])
    ensures dictionary.Obj? && |dictionary.members| == 0 ==> !r.raised && r.run.stats == Start
  {
    var run := Run(Start, Job(disk, answers, []));
    if !dictionary.Obj? then Outcome(run, true)
    else ProcessLetters(run, Voicer(AvailableVoices, available), Listings(dictionary.members))
  }

  /** What `load_dictionary` (lines 176-209) finds: no file, a file that is
      not JSON, another read error, or the decoded value. */
  datatype DictionaryFile = NoDictionary | NotJson | ReadError | Decoded(data: Json)

  /** `process_all_words()` from the load on (line 631): every load failure
      is logged and re-raised (lines 201-209), and `main` re-raises it again
      (lines 738-740), so the run ends before any counter, file or call. */
  function ProcessDictionaryFile(f: DictionaryFile, available: bool, disk: set<string>, answers: seq<bool>): (r: Outcome)
    ensures !f.Decoded? ==> r.raised && r.run.stats == Start && r.run.job == Job(disk, answers, [])
    ensures f.Decoded? ==> r == ProcessAllWords(f.data, available, disk, answers)
  {
    match f
    case Decoded(data) => ProcessAllWords(data, available, disk, answers)
    case _ => Outcome(Run(Start, Job(disk, answers, [])), true)
  }

  // ---------------------------------------------------------------------
  // What the counters mean

  /** Every word under a letter with a words map is counted. */
  function WordsIn(letters: seq<Option<Members>>): nat
    decreases |letters|
  {
    if |letters| == 0 then 0 else WordsIn(letters[..|letters| - 1]) + |Listed(letters[|letters| - 1])|
  }

  /** What the word loop does with a word: it fails because reading its
      record raised, it is skipped, or it is voiced. */
  datatype Fate = Fails | Skips | Voices

  function Classify(x: Option<WordData>): Fate {
    match x
    case None => Fails
    case Some(d) => if Ready(d) then Voices else Skips
  }

  /** The fate the script gives a word. */
  function FateOf(name: string, data: Json): Fate {
    Classify(ExtractWordData(name, data))
  }

  /** How many of the words meet fate `f`, with any classification. */
  function Tally(words: Members, fate: (string, Json) -> Fate, f: Fate): (n: nat)
    ensures n <= |words|
    decreases |words|
  {
    if |words| == 0 then 0
    else Tally(words[..|words| - 1], fate, f) + (if fate(words[|words| - 1].0, words[|words| - 1].1) == f then 1 else 0)
  }

  /** How many words under the letters meet fate `f`. */
  function TallyIn(letters: seq<Option<Members>>, fate: (string, Json) -> Fate, f: Fate): nat
    decreases |letters|
  {
    if |letters| == 0 then 0
    else TallyIn(letters[..|letters| - 1], fate, f) + Tally(Listed(letters[|letters| - 1]), fate, f)
  }

  /** The clips `n` words can make with `V` voices of one kind, `V * n`,
      written as a sum so that the bounds below stay linear. */
  ghost function Clips(V: nat, n: nat): nat
    decreases n
  {
    if n == 0 then 0 else Clips(V, n - 1) + V
  }

  /** The bounds the counters keep, with `V` voices, after `e` words whose
      extraction raised: skipped, raising and voiced words add up to the
      total; every raising word is a failure and the other failures are
      voiced words; each voiced word makes at most `V` clips of each kind, a
      voiced word without a failure made all `2V`, and a failed one at most
      `2V - 1`. */
  ghost predicate Sound(s: AudioStats, V: nat, e: nat) {
    && s.totalVoices == V
    && s.skippedWords + e <= s.totalWords
    && e <= s.failedGenerations
    && var voiced := s.totalWords - s.skippedWords - e;
    && var failed := s.failedGenerations - e;
    && failed <= voiced
    && s.successfulExamples <= Clips(V, voiced)
    && s.successfulPronunciations <= Clips(V, voiced)
    && s.successfulExamples + s.successfulPronunciations >= 2 * Clips(V, voiced - failed)
    && s.successfulExamples + s.successfulPronunciations + failed <= 2 * Clips(V, voiced)
  }

  /** What one word does to the counters with `V` voices: a word whose
      extraction raised is counted and failed, a skipped word is counted
      and skipped, and a voiced word adds at most `V` clips of each kind and
      is a failure exactly when fewer than `2V` were made. */
  predicate Advance(before: AudioStats, after: AudioStats, V: nat, f: Fate) {
    match f
    case Fails =>
      after == before.(totalWords := before.totalWords + 1, failedGenerations := before.failedGenerations + 1)
    case Skips =>
      after == before.(totalWords := before.totalWords + 1, skippedWords := before.skippedWords + 1)
    case Voices =>
      && after.totalWords == before.totalWords + 1
      && after.skippedWords == before.skippedWords
      && after.totalVoices == before.totalVoices
      && before.successfulExamples <= after.successfulExamples <= before.successfulExamples + V
      && before.successfulPronunciations <= after.successfulPronunciations <= before.successfulPronunciations + V
      && var made := after.successfulExamples - before.successfulExamples
                     + (after.successfulPronunciations - before.successfulPronunciations);
      && after.failedGenerations == before.failedGenerations + (if made < 2 * V then 1 else 0)
  }

  /** Voicing a word with at most one result per voice is such a step. */
  lemma CountVoicedAdvances(s: AudioStats, voices: seq<string>, results: seq<(string, VoiceResult)>)
    requires |results| <= |voices|
    ensures Advance(s, CountVoiced(s.(totalWords := s.totalWords + 1), voices, results), |voices|, Voices)
  {
  }

  /** Every such step keeps the bounds, counting a raising word among the
      raising ones. */
  lemma AdvanceSound(before: AudioStats, after: AudioStats, V: nat, f: Fate, e: nat)
    requires Sound(before, V, e)
    requires Advance(before, after, V, f)
    ensures Sound(after, V, e + (if f == Fails then 1 else 0))
  {
    var voiced := before.totalWords - before.skippedWords - e;
    var failed := before.failedGenerations - e;
    if f == Fails {
      assert after.totalWords - after.skippedWords - (e + 1) == voiced;
      assert after.failedGenerations - (e + 1) == failed;
    } else if f == Skips {
      assert after.totalWords - after.skippedWords - e == voiced;
    } else {
      var made := after.successfulExamples - before.successfulExamples
                  + (after.successfulPronunciations - before.successfulPronunciations);
      assert after.totalWords - after.skippedWords - e == voiced + 1;
      assert Clips(V, voiced + 1) == Clips(V, voiced) + V;
      if made < 2 * V {
        assert voiced + 1 - (after.failedGenerations - e) == voiced - failed;
      } else {
        assert voiced + 1 - failed == voiced - failed + 1;
        assert Clips(V, voiced - failed + 1) == Clips(V, voiced - failed) + V;
      }
    }
  }

  /** The counters after one word, in terms of the voice loop's results. */
  lemma ProcessWordStats(run: Run, voices: seq<string>, available: bool, x: Option<WordData>)
    ensures var s := run.stats.(totalWords := run.stats.totalWords + 1);
      ProcessWord(run, voices, available, x).stats
      == match x
         case None => s.(failedGenerations := s.failedGenerations + 1)
         case Some(d) =>
           if Ready(d) then CountVoiced(s, voices, AllVoices(d, voices, available, run.job).results)
           else s.(skippedWords := s.skippedWords + 1)
  {
  }

  /** One word advances the counters: it raises, is skipped or is voiced. */
  lemma ProcessWordAdvances(run: Run, voices: seq<string>, available: bool, x: Option<WordData>)
    ensures Advance(run.stats, ProcessWord(run, voices, available, x).stats, |voices|, Classify(x))
  {
    ProcessWordStats(run, voices, available, x);
    if x.Some? && Ready(x.value) {
      AllVoicesBound(x.value, voices, available, run.job);
      CountVoicedAdvances(run.stats, voices, AllVoices(x.value, voices, available, run.job).results);
    }
  }

  /** One word keeps the bounds, whether it raises, is skipped or is voiced. */
  lemma ProcessWordSound(run: Run, voices: seq<string>, available: bool, x: Option<WordData>, e: nat)
    requires Sound(run.stats, |voices|, e)
    ensures Sound(ProcessWord(run, voices, available, x).stats, |voices|, e + (if x.None? then 1 else 0))
  {
    ProcessWordAdvances(run, voices, available, x);
    AdvanceSound(run.stats, ProcessWord(run, voices, available, x).stats, |voices|, Classify(x), e);
  }

  lemma AllVoicesBound(d: WordData, voices: seq<string>, available: bool, job: Job)
    ensures |AllVoices(d, voices, available, job).results| <= |voices|
  {
  }

  /** A step that advances the counters as `Advance` says, for the fate
      `fate` gives its word. */
  ghost predicate StepCounts(step: WordStep, V: nat, fate: (string, Json) -> Fate) {
    forall run: Run, name: string, data: Json :: Advance(run.stats, step(run, name, data).stats, V, fate(name, data))
  }

  /** The script's step meets it with the script's fates. */
  lemma VoicerCounts(voices: seq<string>, available: bool)
    ensures StepCounts(Voicer(voices, available), |voices|, FateOf)
  {
    forall run: Run, name: string, data: Json {
      ProcessWordAdvances(run, voices, available, ExtractWordData(name, data));
    }
  }

  /** The counters stay sound, every word is counted once, the skipped
      words are skipped, and the words that fail by raising join the
      failures. */
  lemma {:induction false} EachWordSound(run: Run, step: WordStep, V: nat, fate: (string, Json) -> Fate,
                                         words: Members, e: nat)
    requires StepCounts(step, V, fate)
    requires Sound(run.stats, V, e)
    ensures var r := EachWord(run, step, words);
      && Sound(r.stats, V, e + Tally(words, fate, Fails))
      && r.stats.totalWords == run.stats.totalWords + |words|
      && r.stats.skippedWords == run.stats.skippedWords + Tally(words, fate, Skips)
    decreases |words|
  {
    if |words| > 0 {
      var init := words[..|words| - 1];
      var last := words[|words| - 1];
      EachWordSound(run, step, V, fate, init, e);
      var prev := EachWord(run, step, init);
      AdvanceSound(prev.stats, step(prev, last.0, last.1).stats, V, fate(last.0, last.1), e + Tally(init, fate, Fails));
    }
  }

  /** Across letters, when no letter raises: only words under a letter with
      a words map are counted, and the bounds hold. */
  lemma {:induction false} ProcessLettersSound(run: Run, step: WordStep, V: nat, fate: (string, Json) -> Fate,
                                               letters: seq<Option<Members>>, e: nat)
    requires StepCounts(step, V, fate)
    requires Sound(run.stats, V, e)
    ensures var r := ProcessLetters(run, step, letters);
      !r.raised ==>
        && Sound(r.run.stats, V, e + TallyIn(letters, fate, Fails))
        && r.run.stats.totalWords == run.stats.totalWords + WordsIn(letters)
        && r.run.stats.skippedWords == run.stats.skippedWords + TallyIn(letters, fate, Skips)
    decreases |letters|
  {
    if |letters| > 0 {
      var init := letters[..|letters| - 1];
      var prev := ProcessLetters(run, step, init);
      ProcessLettersSound(run, step, V, fate, init, e);
      if !prev.raised && letters[|letters| - 1].Some? {
        var words := letters[|letters| - 1].value;
        EachWordSound(prev.run, step, V, fate, words, e + TallyIn(init, fate, Fails));
      }
    }
  }

  lemma SoundSame(s: AudioStats, V: nat, e: nat, e': nat)
    requires Sound(s, V, e) && e == e'
    ensures Sound(s, V, e')
  {
  }

  /** The letter loop from fresh counters, for a step that advances the
      counters as `fate` says with three voices. */
  lemma LettersFromStart(run: Run, step: WordStep, fate: (string, Json) -> Fate, letters: seq<Option<Members>>)
    requires StepCounts(step, |AvailableVoices|, fate)
    requires run.stats == Start
    ensures var r := ProcessLetters(run, step, letters);
      !r.raised ==>
        var s := r.run.stats;
        && Sound(s, 3, TallyIn(letters, fate, Fails))
        && s.failedGenerations >= TallyIn(letters, fate, Fails)
        && s.totalWords == WordsIn(letters)
        && s.skippedWords == TallyIn(letters, fate, Skips)
  {
    ProcessLettersSound(run, step, 3, fate, letters, 0);
    var r := ProcessLetters(run, step, letters);
    if !r.raised {
      var fails := TallyIn(letters, fate, Fails);
      SoundSame(r.run.stats, 3, 0 + fails, fails);
    }
  }

  /** The whole run: it raises exactly when the dictionary is not an object
      or a letter's words cannot be listed. Otherwise `total_words` counts
      every word of every letter with a words map, `skipped_words` those
      read but lacking a definition or example, every word whose record
      raised is among the failures, and the clip and failure counters keep
      the bounds of `Sound` for three voices. */
  lemma ProcessAllWordsCounts(dictionary: Json, available: bool, disk: set<string>, answers: seq<bool>)
    ensures var r := ProcessAllWords(dictionary, available, disk, answers);
      && (r.raised <==> !dictionary.Obj? || exists i :: 0 <= i < |dictionary.members| && LetterWords(dictionary.members[i].1).None?)
      && (!r.raised ==>
           var s := r.run.stats;
           var letters := Listings(dictionary.members);
           && Sound(s, 3, TallyIn(letters, FateOf, Fails))
           && s.failedGenerations >= TallyIn(letters, FateOf, Fails)
           && s.totalWords == WordsIn(letters)
           && s.skippedWords == TallyIn(letters, FateOf, Skips))
  {
    if dictionary.Obj? {
      var run := Run(Start, Job(disk, answers, []));
      var letters := Listings(dictionary.members);
      var step := Voicer(AvailableVoices, available);
      LettersRaise(run, step, letters);
      VoicerCounts(AvailableVoices, available);
      LettersFromStart(run, step, FateOf, letters);
    }
  }

  /** Without the service nothing is made: no file, no call, no clip counted,
      and every word that is not skipped counts as a failure. */
  ghost predicate Idle(run: Run, start: Job, V: nat) {
    && run.job.disk == start.disk
    && run.job.answers == start.answers
    && run.stats.successfulExamples == 0
    && run.stats.successfulPronunciations == 0
    && run.stats.skippedWords <= run.stats.totalWords
    && (V > 0 ==> run.stats.failedGenerations == run.stats.totalWords - run.stats.skippedWords)
  }

  /** Without the service one word changes nothing but the counters, and
      counts as failed unless it is skipped. */
  lemma IdleWord(run: Run, voices: seq<string>, x: Option<WordData>, start: Job)
    requires Idle(run, start, |voices|)
    ensures Idle(ProcessWord(run, voices, false, x), start, |voices|)
  {
    ProcessWordStats(run, voices, false, x);
    if x.Some? && Ready(x.value) {
      AllVoicesIdle(x.value, voices, run.job);
      ZeroHits(AllVoices(x.value, voices, false, run.job).results);
    }
  }

  /** A step that keeps `Idle`. */
  ghost predicate StepKeepsIdle(step: WordStep, start: Job, V: nat) {
    forall run: Run, name: string, data: Json :: Idle(run, start, V) ==> Idle(step(run, name, data), start, V)
  }

  lemma {:induction false} EachWordIdle(run: Run, step: WordStep, words: Members, start: Job, V: nat)
    requires StepKeepsIdle(step, start, V)
    requires Idle(run, start, V)
    ensures Idle(EachWord(run, step, words), start, V)
    decreases |words|
  {
    if |words| > 0 {
      EachWordIdle(run, step, words[..|words| - 1], start, V);
    }
  }

  /** Without the service the script's word step keeps `Idle`. */
  lemma VoicerIdle(voices: seq<string>, start: Job)
    ensures StepKeepsIdle(Voicer(voices, false), start, |voices|)
  {
    forall r: Run, name: string, data: Json | Idle(r, start, |voices|) {
      IdleWord(r, voices, ExtractWordData(name, data), start);
    }
  }

  lemma {:induction false} ZeroHits(results: seq<(string, VoiceResult)>)
    requires AllResults(results, VoiceResult(false, false))
    ensures ExampleHits(results) == 0 && PronunciationHits(results) == 0
    decreases |results|
  {
    if |results| > 0 {
      ZeroHits(results[..|results| - 1]);
    }
  }

  lemma {:induction false} UnavailableLetters(run: Run, step: WordStep, letters: seq<Option<Members>>, start: Job, V: nat)
    requires StepKeepsIdle(step, start, V)
    requires Idle(run, start, V)
    ensures Idle(ProcessLetters(run, step, letters).run, start, V)
    decreases |letters|
  {
    if |letters| > 0 {
      var prev := ProcessLetters(run, step, letters[..|letters| - 1]);
      UnavailableLetters(run, step, letters[..|letters| - 1], start, V);
      if !prev.raised {
        EachWordIdle(prev.run, step, Listed(letters[|letters| - 1]), start, V);
      }
    }
  }

  /** Without the service, whether or not the run raises, the folder and the
      oracle are untouched, no clip is counted, and every word that is not
      skipped is a failed generation. */
  lemma UnavailableRun(dictionary: Json, disk: set<string>, answers: seq<bool>)
    ensures var r := ProcessAllWords(dictionary, false, disk, answers).run;
      && r.job.disk == disk
      && r.job.answers == answers
      && r.stats.successfulExamples == 0
      && r.stats.successfulPronunciations == 0
      && r.stats.failedGenerations == r.stats.totalWords - r.stats.skippedWords
  {
    var start := Job(disk, answers, []);
    if dictionary.Obj? {
      VoicerIdle(AvailableVoices, start);
      UnavailableLetters(Run(Start, start), Voicer(AvailableVoices, false), Listings(dictionary.members), start,
                         |AvailableVoices|);
    }
  }
}
