/** The completeness monitor (`01_04_Monitor_Detailed_Dictionary_Stats.py`):
    `analyze_word_completeness` turns one word record into thirteen presence
    flags and four totals, and `analyze_dictionary` folds those over every
    word of every letter into counters. The percentages and the printed
    tables are left out. */
module Completeness {
  import opened Assoc
  import opened Json
  import opened Histogram

  // ---------------------------------------------------------------- loops over lists

  /** A `for` loop that sets a flag once some element satisfies `p`. */
  function Any(xs: seq<Json>, p: Json -> bool): bool
    decreases |xs|
  {
    if |xs| == 0 then false else Any(xs[..|xs| - 1], p) || p(xs[|xs| - 1])
  }

  /** The flag is set exactly when some element satisfies `p`. */
  lemma {:induction false} AnyExists(xs: seq<Json>, p: Json -> bool)
    ensures Any(xs, p) <==> exists i :: 0 <= i < |xs| && p(xs[i])
    decreases |xs|
  {
    if |xs| > 0 {
      var init := xs[..|xs| - 1];
      AnyExists(init, p);
      if exists i :: 0 <= i < |xs| && p(xs[i]) {
        var i :| 0 <= i < |xs| && p(xs[i]);
        if i < |xs| - 1 {
          assert init[i] == xs[i];
        }
      }
      if Any(init, p) {
        var i :| 0 <= i < |init| && p(init[i]);
        assert xs[i] == init[i];
      }
    }
  }

  /** A `for` loop that adds `f` of every element to a running total. */
  function Sum(xs: seq<Json>, f: Json -> nat): nat
    decreases |xs|
  {
    if |xs| == 0 then 0 else Sum(xs[..|xs| - 1], f) + f(xs[|xs| - 1])
  }

  /** The total is positive exactly when some element adds something. */
  lemma {:induction false} SumPositive(xs: seq<Json>, f: Json -> nat)
    ensures Sum(xs, f) > 0 <==> exists i :: 0 <= i < |xs| && f(xs[i]) > 0
    decreases |xs|
  {
    if |xs| > 0 {
      var init := xs[..|xs| - 1];
      SumPositive(init, f);
      if exists i :: 0 <= i < |xs| && f(xs[i]) > 0 {
        var i :| 0 <= i < |xs| && f(xs[i]) > 0;
        if i < |xs| - 1 {
          assert init[i] == xs[i];
        }
      }
      if Sum(init, f) > 0 {
        var i :| 0 <= i < |init| && f(init[i]) > 0;
        assert xs[i] == init[i];
      }
    }
  }

  // ---------------------------------------------------------------- one word

  /** The meanings the loops visit: none unless "meanings" is present and truthy. */
  function MeaningsOf(w: Json): seq<Json> {
    if FieldTruthy(w, "meanings") then Elements(Get(w, "meanings").value) else []
  }

  /** The definitions the loops visit in a meaning. */
  function DefinitionsOf(m: Json): seq<Json> {
    if FieldTruthy(m, "definitions") then Elements(Get(m, "definitions").value) else []
  }

  /** `len(x[field])` when `field` is present and truthy, else nothing. */
  function LenIfTruthy(x: Json, field: string): nat {
    if FieldTruthy(x, field) then Len(Get(x, field).value) else 0
  }

  /** A definition with a truthy `field`. */
  function DefinitionHas(field: string): Json -> bool {
    d => FieldTruthy(d, field)
  }

  /** A meaning with some definition having a truthy `field`. */
  function MeaningHas(field: string): Json -> bool {
    m => Any(DefinitionsOf(m), DefinitionHas(field))
  }

  /** A meaning whose own `field` is truthy. */
  function MeaningField(field: string): Json -> bool {
    m => FieldTruthy(m, field)
  }

  /** The sum of `len(definition[field])` over a meaning's definitions. */
  function MeaningLen(field: string): Json -> nat {
    m => Sum(DefinitionsOf(m), d => LenIfTruthy(d, field))
  }

  /** `len(meaning["definitions"])` for a meaning with definitions. */
  function DefinitionCount(): Json -> nat {
    m => LenIfTruthy(m, "definitions")
  }

  /** Lines 153-157: `verb_forms` is a dict with a truthy value. */
  predicate HasForms(m: Json) {
    FieldTruthy(m, "verb_forms") && Get(m, "verb_forms").value.Obj?
      && exists i :: 0 <= i < |Get(m, "verb_forms").value.members| && Truthy(Get(m, "verb_forms").value.members[i].1)
  }

  function MeaningHasForms(): Json -> bool {
    m => HasForms(m)
  }

  /** Lines 195-199: a meaning whose `part_of_speech` is "Verb". */
  function MeaningIsVerb(): Json -> bool {
    m => GetOr(m, "part_of_speech", Null) == Str("Verb")
  }

  /** The result of `analyze_word_completeness`. */
  datatype Analysis = Analysis(
    hasComplexity: bool,
    hasDefinition: bool,
    hasExample: bool,
    hasPronunciation: bool,
    hasPhoneticRespelling: bool,
    hasSsmlPhoneme: bool,
    hasMeanings: bool,
    hasPartOfSpeech: bool,
    hasSynonyms: bool,
    hasAntonyms: bool,
    hasWordOrigin: bool,
    hasWordRoots: bool,
    hasVerbForms: bool,
    totalDefinitions: nat,
    totalSynonyms: nat,
    totalAntonyms: nat,
    totalMeanings: nat)

  /** `analyze_word_completeness(word_data)`, lines 85-159. */
  function AnalyzeWord(w: Json): (a: Analysis)
    ensures a.hasComplexity <==> FieldTruthy(w, "complexity")
    ensures a.hasMeanings <==> FieldTruthy(w, "meanings")
    ensures a.totalMeanings == if FieldTruthy(w, "meanings") then Len(Get(w, "meanings").value) else 0
  {
    var ms := MeaningsOf(w);
    Analysis(
      FieldTruthy(w, "complexity"),
      Any(ms, MeaningHas("definition")),
      Any(ms, MeaningHas("example")),
      FieldTruthy(w, "pronunciation"),
      FieldTruthy(w, "phonetic_respelling"),
      FieldTruthy(w, "ssml_phoneme"),
      FieldTruthy(w, "meanings"),
      Any(ms, MeaningField("part_of_speech")),
      Any(ms, MeaningHas("synonyms")),
      Any(ms, MeaningHas("antonyms")),
      FieldTruthy(w, "word_origin"),
      FieldTruthy(w, "word_roots"),
      Any(ms, MeaningHasForms()),
      Sum(ms, DefinitionCount()),
      Sum(ms, MeaningLen("synonyms")),
      Sum(ms, MeaningLen("antonyms")),
      if FieldTruthy(w, "meanings") then Len(Get(w, "meanings").value) else 0)
  }

  /** Lines 196-199: some meaning is a verb. */
  function IsVerb(w: Json): (verb: bool)
    ensures verb <==> exists i :: 0 <= i < |MeaningsOf(w)| && GetOr(MeaningsOf(w)[i], "part_of_speech", Null) == Str("Verb")
  {
    AnyExists(MeaningsOf(w), MeaningIsVerb());
    Any(MeaningsOf(w), MeaningIsVerb())
  }

  /** The analysis of a record with no fields: every flag false, every total 0. */
  lemma EmptyRecord()
    ensures AnalyzeWord(Obj([])) == Analysis(false, false, false, false, false, false, false,
                                             false, false, false, false, false, false, 0, 0, 0, 0)
  {
    var w := Obj([]);
    assert forall k :: Get(w, k) == None;
    assert MeaningsOf(w) == [];
  }

  /** `has_definition` (and likewise `has_example`): some definition of some
      meaning has a truthy entry. */
  lemma DefinitionFlag(w: Json, field: string)
    requires field == "definition" || field == "example"
    ensures (if field == "definition" then AnalyzeWord(w).hasDefinition else AnalyzeWord(w).hasExample)
      <==> exists i, j :: 0 <= i < |MeaningsOf(w)| && 0 <= j < |DefinitionsOf(MeaningsOf(w)[i])|
             && FieldTruthy(DefinitionsOf(MeaningsOf(w)[i])[j], field)
  {
    var ms := MeaningsOf(w);
    AnyExists(ms, MeaningHas(field));
    forall i | 0 <= i < |ms| ensures MeaningHas(field)(ms[i]) <==>
      exists j :: 0 <= j < |DefinitionsOf(ms[i])| && FieldTruthy(DefinitionsOf(ms[i])[j], field)
    {
      AnyExists(DefinitionsOf(ms[i]), DefinitionHas(field));
    }
  }

  /** A positive synonym (or antonym) total means the flag is set. */
  lemma TotalImpliesFlag(w: Json, field: string)
    requires field == "synonyms" || field == "antonyms"
    ensures field == "synonyms" && AnalyzeWord(w).totalSynonyms > 0 ==> AnalyzeWord(w).hasSynonyms
    ensures field == "antonyms" && AnalyzeWord(w).totalAntonyms > 0 ==> AnalyzeWord(w).hasAntonyms
  {
    SumImpliesAny(MeaningsOf(w), field);
  }

  lemma SumImpliesAny(ms: seq<Json>, field: string)
    ensures Sum(ms, MeaningLen(field)) > 0 ==> Any(ms, MeaningHas(field))
  {
    if Sum(ms, MeaningLen(field)) > 0 {
      SumPositive(ms, MeaningLen(field));
      var i :| 0 <= i < |ms| && MeaningLen(field)(ms[i]) > 0;
      var ds := DefinitionsOf(ms[i]);
      SumPositive(ds, d => LenIfTruthy(d, field));
      var j :| 0 <= j < |ds| && LenIfTruthy(ds[j], field) > 0;
      AnyExists(ds, DefinitionHas(field));
      assert MeaningHas(field)(ms[i]);
      AnyExists(ms, MeaningHas(field));
    }
  }

  /** Every truthy `field` of a visited definition is a string, list or
      dict; on anything else line 147 (or 151) raises `TypeError`. */
  ghost predicate SizedEntries(w: Json, field: string) {
    forall i, j :: 0 <= i < |MeaningsOf(w)| && 0 <= j < |DefinitionsOf(MeaningsOf(w)[i])|
      && FieldTruthy(DefinitionsOf(MeaningsOf(w)[i])[j], field)
      ==> Sized(Get(DefinitionsOf(MeaningsOf(w)[i])[j], field).value)
  }

  /** When the lengths are defined, a set flag means a positive total. */
  lemma FlagImpliesTotal(w: Json, field: string)
    requires field == "synonyms" || field == "antonyms"
    requires SizedEntries(w, field)
    ensures field == "synonyms" && AnalyzeWord(w).hasSynonyms ==> AnalyzeWord(w).totalSynonyms > 0
    ensures field == "antonyms" && AnalyzeWord(w).hasAntonyms ==> AnalyzeWord(w).totalAntonyms > 0
  {
    AnyImpliesSum(MeaningsOf(w), field);
  }

  lemma AnyImpliesSum(ms: seq<Json>, field: string)
    requires forall i, j ::
      (0 <= i < |ms| && 0 <= j < |DefinitionsOf(ms[i])| && FieldTruthy(DefinitionsOf(ms[i])[j], field))
      ==> Sized(Get(DefinitionsOf(ms[i])[j], field).value)
    ensures Any(ms, MeaningHas(field)) ==> Sum(ms, MeaningLen(field)) > 0
  {
    if Any(ms, MeaningHas(field)) {
      AnyExists(ms, MeaningHas(field));
      var i :| 0 <= i < |ms| && MeaningHas(field)(ms[i]);
      var ds := DefinitionsOf(ms[i]);
      AnyExists(ds, DefinitionHas(field));
      var j :| 0 <= j < |ds| && FieldTruthy(ds[j], field);
      SizedTruthyHasLength(Get(ds[j], field).value);
      SumPositive(ds, d => LenIfTruthy(d, field));
      assert MeaningLen(field)(ms[i]) > 0;
      SumPositive(ms, MeaningLen(field));
    }
  }

  /** `has_verb_forms`: some meaning has a `verb_forms` dict with a truthy value. */
  lemma VerbFormsFlag(w: Json)
    ensures AnalyzeWord(w).hasVerbForms <==> exists i :: 0 <= i < |MeaningsOf(w)| && HasForms(MeaningsOf(w)[i])
  {
    AnyExists(MeaningsOf(w), MeaningHasForms());
  }

  /** `has_part_of_speech` (lines 137-138): some visited meaning has a
      truthy `part_of_speech`. */
  lemma PartOfSpeechFlag(w: Json)
    ensures AnalyzeWord(w).hasPartOfSpeech
      <==> exists i :: 0 <= i < |MeaningsOf(w)| && FieldTruthy(MeaningsOf(w)[i], "part_of_speech")
  {
    AnyExists(MeaningsOf(w), MeaningField("part_of_speech"));
  }

  /** The number of definitions the inner loops of a meaning visit. */
  function VisitedCount(): Json -> nat {
    m => |DefinitionsOf(m)|
  }

  /** Two per-element counts that agree give the same total. */
  lemma {:induction false} SumSame(xs: seq<Json>, f: Json -> nat, g: Json -> nat)
    requires forall i :: 0 <= i < |xs| ==> f(xs[i]) == g(xs[i])
    ensures Sum(xs, f) == Sum(xs, g)
    decreases |xs|
  {
    if |xs| > 0 {
      var init := xs[..|xs| - 1];
      assert forall i :: 0 <= i < |init| ==> init[i] == xs[i];
      SumSame(init, f, g);
    }
  }

  /** `total_definitions` (lines 140-141) is positive exactly when some
      visited meaning has a truthy `definitions` value Python can take the
      length of. */
  lemma DefinitionsPositive(w: Json)
    ensures var ms := MeaningsOf(w);
      (AnalyzeWord(w).totalDefinitions > 0
       <==> exists i :: 0 <= i < |ms| && FieldTruthy(ms[i], "definitions") && Sized(Get(ms[i], "definitions").value))
  {
    var ms := MeaningsOf(w);
    SumPositive(ms, DefinitionCount());
    forall i | 0 <= i < |ms|
      ensures DefinitionCount()(ms[i]) > 0
        <==> FieldTruthy(ms[i], "definitions") && Sized(Get(ms[i], "definitions").value)
    {
      if FieldTruthy(ms[i], "definitions") && Sized(Get(ms[i], "definitions").value) {
        SizedTruthyHasLength(Get(ms[i], "definitions").value);
      }
    }
  }

  /** A word with a definition or an example has a positive
      `total_definitions`: the definition sits in a non-empty list. */
  lemma FlagsImplyDefinitions(w: Json)
    ensures AnalyzeWord(w).hasDefinition || AnalyzeWord(w).hasExample ==> AnalyzeWord(w).totalDefinitions > 0
  {
    var ms := MeaningsOf(w);
    if AnalyzeWord(w).hasDefinition || AnalyzeWord(w).hasExample {
      var field := if AnalyzeWord(w).hasDefinition then "definition" else "example";
      DefinitionFlag(w, field);
      var i, j :| 0 <= i < |ms| && 0 <= j < |DefinitionsOf(ms[i])| && FieldTruthy(DefinitionsOf(ms[i])[j], field);
      assert FieldTruthy(ms[i], "definitions") && Get(ms[i], "definitions").value.Arr?;
      DefinitionsPositive(w);
    }
  }

  /** When every truthy `definitions` value is a list, `total_definitions`
      is the number of definitions the inner loops visit. */
  lemma DefinitionsVisited(w: Json)
    requires forall i :: 0 <= i < |MeaningsOf(w)| && FieldTruthy(MeaningsOf(w)[i], "definitions")
               ==> Get(MeaningsOf(w)[i], "definitions").value.Arr?
    ensures AnalyzeWord(w).totalDefinitions == Sum(MeaningsOf(w), VisitedCount())
  {
    SumSame(MeaningsOf(w), DefinitionCount(), VisitedCount());
  }

  // ---------------------------------------------------------------- completeness score

  /** The thirteen fields in the order of the analysis, without the "has_"
      prefix (the names `missing_fields` lists). */
  const FieldNames: seq<string> := ["complexity", "definition", "example", "pronunciation",
    "phonetic_respelling", "ssml_phoneme", "meanings", "part_of_speech", "synonyms",
    "antonyms", "word_origin", "word_roots", "verb_forms"]

  const FieldCount: nat := 13

  /** The first twelve flags, which always count. */
  function BaseFlags(a: Analysis): (r: seq<bool>)
    ensures |r| == FieldCount - 1
  {
    [a.hasComplexity, a.hasDefinition, a.hasExample, a.hasPronunciation,
     a.hasPhoneticRespelling, a.hasSsmlPhoneme, a.hasMeanings, a.hasPartOfSpeech,
     a.hasSynonyms, a.hasAntonyms, a.hasWordOrigin, a.hasWordRoots]
  }

  /** The flags lines 220-264 look at, paired with their field names: the
      verb-forms flag only for a verb. */
  function Counted(a: Analysis, verb: bool): (r: seq<(string, bool)>)
    ensures |r| == if verb then FieldCount else FieldCount - 1
    ensures forall i :: 0 <= i < FieldCount - 1 ==> r[i] == (FieldNames[i], BaseFlags(a)[i])
    ensures verb ==> r[FieldCount - 1] == (FieldNames[FieldCount - 1], a.hasVerbForms)
  {
    var base := seq(FieldCount - 1, i requires 0 <= i < FieldCount - 1 => (FieldNames[i], BaseFlags(a)[i]));
    if verb then base + [(FieldNames[FieldCount - 1], a.hasVerbForms)] else base
  }

  function TrueCount(flags: seq<bool>): nat
    decreases |flags|
  {
    if |flags| == 0 then 0 else TrueCount(flags[..|flags| - 1]) + (if flags[|flags| - 1] then 1 else 0)
  }

  /** Lines 201-215: one point per set flag, and the verb-forms point for
      free when no meaning is a verb. */
  function CompleteFields(a: Analysis, verb: bool): (n: nat)
    ensures n <= FieldCount
    ensures !verb ==> n >= 1
  {
    TrueCountBound(BaseFlags(a));
    TrueCount(BaseFlags(a)) + (if !verb || a.hasVerbForms then 1 else 0)
  }

  /** Lines 248-264: the counted flags that are false, by field name. */
  function MissingFields(c: seq<(string, bool)>): (r: seq<string>)
    ensures |r| <= |c|
    decreases |c|
  {
    if |c| == 0 then []
    else MissingFields(c[..|c| - 1]) + (if c[|c| - 1].1 then [] else [c[|c| - 1].0])
  }

  /** A field is missing exactly when it is counted with a false flag. */
  lemma {:induction false} MissingExactly(c: seq<(string, bool)>, n: string)
    ensures n in MissingFields(c) <==> (n, false) in c
    decreases |c|
  {
    if |c| > 0 {
      var init := c[..|c| - 1];
      MissingExactly(init, n);
      assert c == init + [c[|c| - 1]];
    }
  }

  /** Set flags and missing fields together make up the counted flags. */
  lemma {:induction false} MissingCount(c: seq<(string, bool)>)
    ensures |MissingFields(c)| + TrueCount(seq(|c|, i requires 0 <= i < |c| => c[i].1)) == |c|
    decreases |c|
  {
    if |c| > 0 {
      var init := c[..|c| - 1];
      MissingCount(init);
      var flags := seq(|c|, i requires 0 <= i < |c| => c[i].1);
      assert flags[..|c| - 1] == seq(|init|, i requires 0 <= i < |init| => init[i].1);
    }
  }

  lemma {:induction false} TrueCountBound(flags: seq<bool>)
    ensures TrueCount(flags) <= |flags|
    decreases |flags|
  {
    if |flags| > 0 {
      TrueCountBound(flags[..|flags| - 1]);
    }
  }

  /** The score is between 0 and 13; a word without a verb meaning always
      gets the verb-forms point; score and missing fields add up to 13, so a
      word is incomplete exactly when its score is below 13. */
  lemma CompleteScore(a: Analysis, verb: bool)
    ensures CompleteFields(a, verb) <= FieldCount
    ensures !verb ==> CompleteFields(a, verb) == TrueCount(BaseFlags(a)) + 1
    ensures CompleteFields(a, verb) + |MissingFields(Counted(a, verb))| == FieldCount
  {
    TrueCountBound(BaseFlags(a));
    var c := Counted(a, verb);
    MissingCount(c);
    var flags := seq(|c|, i requires 0 <= i < |c| => c[i].1);
    assert flags[..FieldCount - 1] == BaseFlags(a);
    if verb {
      assert flags == BaseFlags(a) + [a.hasVerbForms];
    } else {
      assert flags == BaseFlags(a);
    }
  }

  // ---------------------------------------------------------------- whole dictionary

  /** One entry of `incomplete_words[letter]`. */
  datatype Incomplete = Incomplete(word: string, missingFields: seq<string>)

  /** The counters `analyze_dictionary` returns (percentages left out). */
  datatype Report = Report(
    totalWords: nat,
    completenessStats: Hist<nat>,
    fieldStats: Hist<string>,
    complexityDistribution: Hist<Json>,
    partOfSpeechDistribution: Hist<Json>,
    wordLengthStats: Hist<nat>,
    letterDistribution: seq<(string, nat)>,
    incompleteWords: seq<(string, seq<Incomplete>)>)

  const EmptyReport: Report := Report(0, [], [], [], [], [], [], [])

  /** Lines 220-235: `field_stats["has_" + f] += int(flag)` for every counted flag. */
  function Tally(h: Hist<string>, c: seq<(string, bool)>): Hist<string>
    decreases |c|
  {
    if |c| == 0 then h
    else Add(Tally(h, c[..|c| - 1]), "has_" + c[|c| - 1].0, if c[|c| - 1].1 then 1 else 0)
  }

  /** Lines 243-245: every meaning with a `part_of_speech` key counts under it. */
  function CountPartsOfSpeech(h: Hist<Json>, ms: seq<Json>): Hist<Json>
    decreases |ms|
  {
    if |ms| == 0 then h
    else
      var prev := CountPartsOfSpeech(h, ms[..|ms| - 1]);
      var m := ms[|ms| - 1];
      if Has(m, "part_of_speech") then Bump(prev, Get(m, "part_of_speech").value) else prev
  }

  /** `incomplete_words[letter].append(item)` on a `defaultdict(list)`. */
  function AppendTo(d: seq<(string, seq<Incomplete>)>, letter: string, item: Incomplete): seq<(string, seq<Incomplete>)> {
    Put(d, letter, (match Find(d, letter) case Some(l) => l case None => []) + [item])
  }

  /** Lines 186-270 for one word, given its analysis and whether it is a
      verb. (`word_data.get('meanings', [])` at line 243 visits the same
      meanings as the other loops: it is reached only when
      `has_part_of_speech` holds, so "meanings" is present and truthy.) */
  function AddAnalysed(rep: Report, letter: string, word: string, data: Json, a: Analysis, verb: bool): Report
    requires a.hasComplexity ==> Has(data, "complexity")
  {
    var missing := MissingFields(Counted(a, verb));
    Report(
      rep.totalWords + 1,
      Bump<nat>(rep.completenessStats, CompleteFields(a, verb)),
      Tally(rep.fieldStats, Counted(a, verb)),
      if a.hasComplexity then Bump(rep.complexityDistribution, Get(data, "complexity").value)
      else rep.complexityDistribution,
      if a.hasPartOfSpeech then CountPartsOfSpeech(rep.partOfSpeechDistribution, MeaningsOf(data))
      else rep.partOfSpeechDistribution,
      Bump<nat>(rep.wordLengthStats, |word|),
      rep.letterDistribution,
      if |missing| > 0 then AppendTo(rep.incompleteWords, letter, Incomplete(word, missing))
      else rep.incompleteWords)
  }

  /** One word is counted once, and the letter counts are left alone. */
  function AddWord(rep: Report, letter: string, word: string, data: Json): (r: Report)
    ensures r.totalWords == rep.totalWords + 1
    ensures r.letterDistribution == rep.letterDistribution
    ensures Total(r.wordLengthStats) == Total(rep.wordLengthStats) + 1
    ensures Total(r.completenessStats) == Total(rep.completenessStats) + 1
  {
    AddAnalysed(rep, letter, word, data, AnalyzeWord(data), IsVerb(data))
  }

  /** Lines 185-270 over a letter's words, in order. */
  function AddWords(rep: Report, letter: string, words: Members): Report
    decreases |words|
  {
    if |words| == 0 then rep
    else
      var last := words[|words| - 1];
      AddWord(AddWords(rep, letter, words[..|words| - 1]), letter, last.0, last.1)
  }

  /** Lines 181-183: a letter entry that is a dict with "words" is counted;
      anything else is passed over. */
  function AddLetter(rep: Report, letter: string, entry: Json): (r: Report)
    ensures !Has(entry, "words") ==> r == rep
    ensures Has(entry, "words") ==> Find(r.letterDistribution, letter) == Some(|MembersOf(Get(entry, "words").value)|)
  {
    if Has(entry, "words") then
      var ws := MembersOf(Get(entry, "words").value);
      var counted := rep.(letterDistribution := Put<nat>(rep.letterDistribution, letter, |ws|));
      AddWordsKeepLetters(counted, letter, ws);
      AddWords(counted, letter, ws)
    else rep
  }

  function AddLetters(entries: Members): Report
    decreases |entries|
  {
    if |entries| == 0 then EmptyReport
    else
      var last := entries[|entries| - 1];
      AddLetter(AddLetters(entries[..|entries| - 1]), last.0, last.1)
  }

  /** `analyze_dictionary()` over the loaded data. */
  function AnalyzeDictionary(data: Json): (r: Report)
    ensures Conserves(r)
    ensures UniqueKeys(MembersOf(data)) ==> CountSum(r.letterDistribution) == r.totalWords
  {
    var entries := MembersOf(data);
    AddLettersConserves(entries);
    if UniqueKeys(entries) then
      AddLettersSum(entries);
      AddLetters(entries)
    else AddLetters(entries)
  }

  // ---------------------------------------------------------------- conservation laws

  /** The laws every report keeps: both histograms count every word once,
      scores lie in 0..13, and no field is tallied for more words than there are. */
  ghost predicate Conserves(rep: Report) {
    && Total(rep.completenessStats) == rep.totalWords
    && Total(rep.wordLengthStats) == rep.totalWords
    && (forall s: nat :: HasKey<nat>(rep.completenessStats, s) ==> s <= FieldCount)
    && (forall f :: Count(rep.fieldStats, f) <= rep.totalWords)
  }

  /** The field names are distinct. */
  lemma FieldNamesDistinct()
    ensures forall i, j :: 0 <= i < j < FieldCount ==> FieldNames[i] != FieldNames[j]
  {
  }

  /** How much one tally adds to the counter for `f`. */
  function Hits(c: seq<(string, bool)>, f: string): nat
    decreases |c|
  {
    if |c| == 0 then 0
    else Hits(c[..|c| - 1], f) + (if "has_" + c[|c| - 1].0 == f && c[|c| - 1].1 then 1 else 0)
  }

  lemma {:induction false} TallyCount(h: Hist<string>, c: seq<(string, bool)>, f: string)
    ensures Count(Tally(h, c), f) == Count(h, f) + Hits(c, f)
    decreases |c|
  {
    if |c| > 0 {
      TallyCount(h, c[..|c| - 1], f);
    }
  }

  /** Distinct names are each hit at most once. */
  lemma {:induction false} HitsAtMostOne(c: seq<(string, bool)>, f: string)
    requires forall i, j :: 0 <= i < j < |c| ==> c[i].0 != c[j].0
    ensures Hits(c, f) <= 1
    ensures Hits(c, f) == 1 ==> exists i :: 0 <= i < |c| && "has_" + c[i].0 == f && c[i].1
    decreases |c|
  {
    if |c| > 0 {
      var init := c[..|c| - 1];
      HitsAtMostOne(init, f);
      if Hits(init, f) == 1 && "has_" + c[|c| - 1].0 == f {
        var i :| 0 <= i < |init| && "has_" + init[i].0 == f && init[i].1;
        assert c[i].0 == init[i].0;
        PrefixInjective(c[i].0, c[|c| - 1].0);
        assert false;
      }
    }
  }

  lemma PrefixInjective(a: string, b: string)
    requires "has_" + a == "has_" + b
    ensures a == b
  {
    assert a == ("has_" + a)[4..];
    assert b == ("has_" + b)[4..];
  }

  /** The flags counted for a word have distinct names. */
  lemma CountedDistinct(a: Analysis, verb: bool)
    ensures var c := Counted(a, verb); forall i, j :: 0 <= i < j < |c| ==> c[i].0 != c[j].0
  {
    FieldNamesDistinct();
  }

  /** `field_stats["has_verb_forms"]` grows only for verbs with verb forms. */
  lemma VerbFormsTally(h: Hist<string>, a: Analysis, verb: bool)
    ensures Count(Tally(h, Counted(a, verb)), "has_verb_forms")
         == Count(h, "has_verb_forms") + (if verb && a.hasVerbForms then 1 else 0)
  {
    TallyCount(h, Counted(a, verb), "has_verb_forms");
    VerbFormsHits(a, verb);
  }

  lemma VerbFormsHits(a: Analysis, verb: bool)
    ensures Hits(Counted(a, verb), "has_verb_forms") == if verb && a.hasVerbForms then 1 else 0
  {
    var base := Counted(a, false);
    BaseNeverVerbForms(a);
    HitsNone(base, "has_verb_forms");
    if verb {
      var c := Counted(a, verb);
      assert c[..|c| - 1] == base;
    }
  }

  /** None of the twelve always-counted names is "verb_forms". */
  lemma BaseNeverVerbForms(a: Analysis)
    ensures var base := Counted(a, false);
      forall i :: 0 <= i < |base| ==> "has_" + base[i].0 != "has_verb_forms"
  {
    var base := Counted(a, false);
    forall i | 0 <= i < |base| ensures "has_" + base[i].0 != "has_verb_forms" {
      OnlyLastIsVerbForms(i);
      PrefixDiffers(base[i].0, "verb_forms");
    }
  }

  lemma PrefixDiffers(a: string, b: string)
    requires a != b
    ensures "has_" + a != "has_" + b
  {
    if "has_" + a == "has_" + b {
      PrefixInjective(a, b);
    }
  }

  lemma OnlyLastIsVerbForms(i: nat)
    requires i < FieldCount - 1
    ensures FieldNames[i] != "verb_forms"
  {
  }

  lemma {:induction false} HitsNone(c: seq<(string, bool)>, f: string)
    requires forall i :: 0 <= i < |c| ==> "has_" + c[i].0 != f
    ensures Hits(c, f) == 0
    decreases |c|
  {
    if |c| > 0 {
      HitsNone(c[..|c| - 1], f);
    }
  }

  /** One word keeps the laws. */
  lemma AddWordConserves(rep: Report, letter: string, word: string, data: Json)
    requires Conserves(rep)
    ensures Conserves(AddWord(rep, letter, word, data))
    ensures AddWord(rep, letter, word, data).totalWords == rep.totalWords + 1
    ensures AddWord(rep, letter, word, data).letterDistribution == rep.letterDistribution
  {
    AnalysedConserves(rep, letter, word, data, AnalyzeWord(data), IsVerb(data));
  }

  lemma AnalysedConserves(rep: Report, letter: string, word: string, data: Json, a: Analysis, verb: bool)
    requires a.hasComplexity ==> Has(data, "complexity")
    requires Conserves(rep)
    ensures Conserves(AddAnalysed(rep, letter, word, data, a, verb))
    ensures AddAnalysed(rep, letter, word, data, a, verb).totalWords == rep.totalWords + 1
    ensures AddAnalysed(rep, letter, word, data, a, verb).letterDistribution == rep.letterDistribution
  {
    var r := AddAnalysed(rep, letter, word, data, a, verb);
    CompleteScore(a, verb);
    assert Total(r.completenessStats) == r.totalWords;
    assert Total(r.wordLengthStats) == r.totalWords;
    BumpBounded(rep.completenessStats, CompleteFields(a, verb), FieldCount);
    CountedDistinct(a, verb);
    TallyBound(rep.fieldStats, Counted(a, verb), rep.totalWords);
    assert forall f :: Count(r.fieldStats, f) <= r.totalWords;
  }

  /** Counting a score within the bound keeps every score within it. */
  lemma BumpBounded(h: Hist<nat>, k: nat, bound: nat)
    requires forall s: nat :: HasKey<nat>(h, s) ==> s <= bound
    requires k <= bound
    ensures forall s: nat :: HasKey<nat>(Bump<nat>(h, k), s) ==> s <= bound
  {
  }

  /** One word's tally adds at most one to each field's count. */
  lemma TallyBound(h: Hist<string>, c: seq<(string, bool)>, n: nat)
    requires forall i, j :: 0 <= i < j < |c| ==> c[i].0 != c[j].0
    requires forall f :: Count(h, f) <= n
    ensures forall f :: Count(Tally(h, c), f) <= n + 1
  {
    forall f ensures Count(Tally(h, c), f) <= n + 1 {
      TallyCount(h, c, f);
      HitsAtMostOne(c, f);
    }
  }

  /** How `r` lists the word after `rep`: unchanged when all counted fields
      are present, otherwise with the word and exactly its missing fields
      appended to its letter's list, and no other letter's list touched. */
  ghost predicate Listed(rep: Report, r: Report, letter: string, word: string, a: Analysis, verb: bool) {
    var before := match Find(rep.incompleteWords, letter) case Some(l) => l case None => [];
    && (CompleteFields(a, verb) == FieldCount ==> r.incompleteWords == rep.incompleteWords)
    && (CompleteFields(a, verb) < FieldCount ==>
          Find(r.incompleteWords, letter) == Some(before + [Incomplete(word, MissingFields(Counted(a, verb)))]))
    && (forall k :: k != letter ==> Find(r.incompleteWords, k) == Find(rep.incompleteWords, k))
  }

  /** A word is listed as incomplete exactly when its score is below 13,
      with exactly the counted flags that are false. */
  lemma AddWordIncomplete(rep: Report, letter: string, word: string, data: Json)
    ensures Listed(rep, AddWord(rep, letter, word, data), letter, word, AnalyzeWord(data), IsVerb(data))
  {
    ComplexityPresent(data);
    AnalysedIncomplete(rep, letter, word, data, AnalyzeWord(data), IsVerb(data));
  }

  lemma ComplexityPresent(data: Json)
    ensures AnalyzeWord(data).hasComplexity ==> Has(data, "complexity")
  {
  }

  lemma AnalysedIncomplete(rep: Report, letter: string, word: string, data: Json, a: Analysis, verb: bool)
    requires a.hasComplexity ==> Has(data, "complexity")
    ensures Listed(rep, AddAnalysed(rep, letter, word, data, a, verb), letter, word, a, verb)
  {
    CompleteScore(a, verb);
  }

  /** A letter's words all keep the laws, and each adds one word. */
  lemma {:induction false} AddWordsConserves(rep: Report, letter: string, words: Members)
    requires Conserves(rep)
    ensures Conserves(AddWords(rep, letter, words))
    ensures AddWords(rep, letter, words).totalWords == rep.totalWords + |words|
    ensures AddWords(rep, letter, words).letterDistribution == rep.letterDistribution
    decreases |words|
  {
    if |words| > 0 {
      var init := words[..|words| - 1];
      var last := words[|words| - 1];
      AddWordsConserves(rep, letter, init);
      AddWordConserves(AddWords(rep, letter, init), letter, last.0, last.1);
      assert AddWords(rep, letter, words) == AddWord(AddWords(rep, letter, init), letter, last.0, last.1);
    }
  }

  /** The sum of the per-letter counts. */
  function CountSum(d: seq<(string, nat)>): nat
    decreases |d|
  {
    if |d| == 0 then 0 else CountSum(d[..|d| - 1]) + d[|d| - 1].1
  }

  /** The letters counted so far are among the entries visited so far. */
  ghost predicate LettersFrom(rep: Report, entries: Members) {
    forall k :: Contains(rep.letterDistribution, k) ==> Contains(entries, k)
  }

  /** One letter entry keeps the laws; a counted letter adds its words to
      the total and its count to `letter_distribution`. */
  lemma AddLetterFacts(rep: Report, letter: string, entry: Json)
    requires Conserves(rep)
    ensures var r := AddLetter(rep, letter, entry);
      && Conserves(r)
      && (Has(entry, "words") ==>
            && r.totalWords == rep.totalWords + |MembersOf(Get(entry, "words").value)|
            && r.letterDistribution == Put<nat>(rep.letterDistribution, letter, |MembersOf(Get(entry, "words").value)|))
      && (!Has(entry, "words") ==> r == rep)
  {
    if Has(entry, "words") {
      var ws := MembersOf(Get(entry, "words").value);
      AddWordsConserves(rep.(letterDistribution := Put<nat>(rep.letterDistribution, letter, |ws|)), letter, ws);
    }
  }

  /** Over the whole dictionary the laws hold. */
  lemma {:induction false} AddLettersConserves(entries: Members)
    ensures Conserves(AddLetters(entries))
    decreases |entries|
  {
    if |entries| > 0 {
      var init := entries[..|entries| - 1];
      AddLettersConserves(init);
      AddLetterFacts(AddLetters(init), entries[|entries| - 1].0, entries[|entries| - 1].1);
    }
  }

  /** A letter entry counts at most its own letter. */
  lemma AddLetterKeys(rep: Report, letter: string, entry: Json)
    ensures forall k :: Contains(AddLetter(rep, letter, entry).letterDistribution, k) ==>
      Contains(rep.letterDistribution, k) || k == letter
  {
    if Has(entry, "words") {
      var ws := MembersOf(Get(entry, "words").value);
      var start := rep.(letterDistribution := Put<nat>(rep.letterDistribution, letter, |ws|));
      AddWordsKeepLetters(start, letter, ws);
      PutContains(rep.letterDistribution, letter, |ws|);
    }
  }

  lemma {:induction false} AddWordsKeepLetters(rep: Report, letter: string, words: Members)
    ensures AddWords(rep, letter, words).letterDistribution == rep.letterDistribution
    decreases |words|
  {
    if |words| > 0 {
      AddWordsKeepLetters(rep, letter, words[..|words| - 1]);
    }
  }

  /** Only visited letters are counted. */
  lemma {:induction false} AddLettersKeys(entries: Members)
    ensures LettersFrom(AddLetters(entries), entries)
    decreases |entries|
  {
    if |entries| > 0 {
      var init := entries[..|entries| - 1];
      var last := entries[|entries| - 1];
      AddLettersKeys(init);
      AddLetterKeys(AddLetters(init), last.0, last.1);
      LettersGrow(AddLetters(init), AddLetters(entries), init, entries, last.0);
    }
  }

  /** When the letters are distinct, as in any loaded dict, the per-letter
      counts add up to `total_words`. */
  lemma {:induction false} AddLettersSum(entries: Members)
    requires UniqueKeys(entries)
    ensures CountSum(AddLetters(entries).letterDistribution) == AddLetters(entries).totalWords
    decreases |entries|
  {
    if |entries| > 0 {
      var init := entries[..|entries| - 1];
      var last := entries[|entries| - 1];
      UniqueInit(entries);
      AddLettersSum(init);
      AddLettersConserves(init);
      AddLettersKeys(init);
      DistinctInit(entries);
      LetterSum(AddLetters(init), last.0, last.1);
    }
  }

  /** One more letter, new to the counts, keeps the counts adding up to the total. */
  lemma LetterSum(prev: Report, letter: string, entry: Json)
    requires Conserves(prev) && CountSum(prev.letterDistribution) == prev.totalWords
    requires !Contains(prev.letterDistribution, letter)
    ensures CountSum(AddLetter(prev, letter, entry).letterDistribution) == AddLetter(prev, letter, entry).totalWords
  {
    AddLetterFacts(prev, letter, entry);
    if Has(entry, "words") {
      var ws := MembersOf(Get(entry, "words").value);
      var counts := prev.letterDistribution + [(letter, |ws|)];
      assert counts[..|counts| - 1] == prev.letterDistribution;
    }
  }

  lemma UniqueInit(entries: Members)
    requires |entries| > 0 && UniqueKeys(entries)
    ensures UniqueKeys(entries[..|entries| - 1])
  {
    var init := entries[..|entries| - 1];
    forall i, j | 0 <= i < j < |init| ensures init[i].0 != init[j].0 {
      assert init[i] == entries[i] && init[j] == entries[j];
    }
  }

  /** A key of a prefix of `entries` is a key of `entries`. */
  lemma ContainsPrefix(init: Members, entries: Members)
    requires |init| <= |entries| && init == entries[..|init|]
    ensures forall k :: Contains(init, k) ==> Contains(entries, k)
  {
    forall k | Contains(init, k) ensures Contains(entries, k) {
      var i :| 0 <= i < |init| && init[i].0 == k;
      assert entries[i] == init[i];
    }
  }

  lemma LettersGrow(prev: Report, start: Report, init: Members, entries: Members, key: string)
    requires |entries| > 0 && init == entries[..|entries| - 1] && key == entries[|entries| - 1].0
    requires LettersFrom(prev, init)
    requires forall k :: Contains(start.letterDistribution, k) ==> Contains(prev.letterDistribution, k) || k == key
    ensures LettersFrom(start, entries)
  {
    ContainsPrefix(init, entries);
    assert Contains(entries, key) by {
      assert entries[|entries| - 1].0 == key;
    }
  }

  /** The last key of a dict with distinct keys is not among the others. */
  lemma DistinctInit(entries: Members)
    requires |entries| > 0
    ensures UniqueKeys(entries) ==> !Contains(entries[..|entries| - 1], entries[|entries| - 1].0)
  {
    var init := entries[..|entries| - 1];
    if UniqueKeys(entries) {
      forall i | 0 <= i < |init| ensures init[i].0 != entries[|entries| - 1].0 {
        assert init[i] == entries[i];
      }
    }
  }
}
