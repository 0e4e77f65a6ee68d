/** The per-letter statistics both generators store next to the words of a
    letter: `calculate_word_statistics` (word-list stage) and
    `calculate_detailed_statistics` (detailed-dictionary stage). The detailed
    version runs the word-list version's loop body unchanged and adds four
    present/absent counters, so the shared part is defined once here. */
module Statistics {
  import opened Assoc
  import opened Json
  import opened Histogram

  const Intermediate: string := "Intermediate"
  const Advanced: string := "Advanced"
  const UnknownTag: string := "Unknown"

  /** The two complexity tags the generators accept. */
  predicate IsValidComplexity(tag: Json) {
    tag == Str(Intermediate) || tag == Str(Advanced)
  }

  /** The tag a word is counted under: its stored complexity when that is one
      of the two valid tags, "Intermediate" otherwise (missing included). */
  function CountedComplexity(record: Json): (c: string)
    ensures c == Intermediate || c == Advanced
  {
    var tag := GetOr(record, "complexity", Str(UnknownTag));
    if IsValidComplexity(tag) then tag.s else Intermediate
  }

  /** Values a Python dictionary accepts as a key: lists and objects are
      unhashable, so counting one raises `TypeError`. */
  predicate Hashable(j: Json) {
    !j.Arr? && !j.Obj?
  }

  /** A truthy "meanings" value the part-of-speech loop gets through: a
      list of objects with hashable parts of speech. Any other truthy value
      raises: iterating a number or a boolean is a `TypeError`, and the
      elements of a string or the keys of an object are strings, on which
      `.get` is an `AttributeError`. */
  predicate MeaningsCountable(meanings: Json) {
    && meanings.Arr?
    && forall j :: 0 <= j < |meanings.items| ==>
         meanings.items[j].Obj? && Hashable(PartOfSpeech(meanings.items[j]))
  }

  /** A word record the statistics loop reads without raising: an object
      (`word_data.get` raises on anything else) whose meanings, when truthy,
      can be counted. */
  predicate Countable(record: Json) {
    record.Obj? && (FieldTruthy(record, "meanings") ==> MeaningsCountable(Get(record, "meanings").value))
  }

  predicate AllCountable(words: Members) {
    forall i :: 0 <= i < |words| ==> Countable(words[i].1)
  }

  /** The meanings the part-of-speech loop visits: none unless "meanings" is
      present and truthy. */
  function CountedMeanings(record: Json): seq<Json> {
    if FieldTruthy(record, "meanings") then Elements(Get(record, "meanings").value) else []
  }

  /** A meaning's part of speech, "Unknown" when it has none. */
  function PartOfSpeech(meaning: Json): Json {
    GetOr(meaning, "part_of_speech", Str(UnknownTag))
  }

  function ComplexityTags(words: Members): (r: seq<string>)
    ensures |r| == |words|
    ensures forall i :: 0 <= i < |words| ==> r[i] == CountedComplexity(words[i].1)
  {
    seq(|words|, i requires 0 <= i < |words| => CountedComplexity(words[i].1))
  }

  /** The stored "complexity" entry of each word, `None` when missing. */
  function StoredComplexities(words: Members): (r: seq<Option<Json>>)
    ensures |r| == |words|
    ensures forall i :: 0 <= i < |words| ==> r[i] == Get(words[i].1, "complexity")
  {
    seq(|words|, i requires 0 <= i < |words| => Get(words[i].1, "complexity"))
  }

  function WordLengths(words: Members): (r: seq<nat>)
    ensures |r| == |words|
    ensures forall i :: 0 <= i < |words| ==> r[i] == |words[i].0|
  {
    seq(|words|, i requires 0 <= i < |words| => |words[i].0|)
  }

  /** The number of meanings the part-of-speech loop visits over all words. */
  function MeaningTotal(words: Members): nat
    decreases |words|
  {
    if |words| == 0 then 0
    else MeaningTotal(words[..|words| - 1]) + |CountedMeanings(words[|words| - 1].1)|
  }

  /** Every part of speech the loop counts, in visiting order. */
  function PartsOfSpeech(words: Members): (r: seq<Json>)
    ensures |r| == MeaningTotal(words)
    decreases |words|
  {
    if |words| == 0 then []
    else
      var ms := CountedMeanings(words[|words| - 1].1);
      PartsOfSpeech(words[..|words| - 1]) + seq(|ms|, j requires 0 <= j < |ms| => PartOfSpeech(ms[j]))
  }

  /** The four histograms of `calculate_word_statistics`. */
  datatype Stats = Stats(
    totalWords: nat,
    complexityDistribution: Hist<string>,
    wordLengthStats: Hist<nat>,
    partOfSpeechDistribution: Hist<Json>)

  /** The four histograms the loop of `calculate_word_statistics` builds
      when it does not raise. */
  function Tally(words: Members): (r: Stats)
    ensures r.totalWords == |words|
  {
    Stats(|words|, FromSeq(ComplexityTags(words)), FromSeq(WordLengths(words)), FromSeq(PartsOfSpeech(words)))
  }

  /** `calculate_word_statistics(word_batch, letter)`; `None` when it
      raises. The empty batch returns early with four empty entries. */
  function WordStatistics(words: Members): (r: Option<Stats>)
    ensures r.Some? <==> AllCountable(words)
    ensures r.Some? ==> r.value.totalWords == |words|
    ensures |words| == 0 ==> r == Some(Stats(0, [], [], []))
  {
    if AllCountable(words) then Some(Tally(words)) else None
  }

  /** Every word is counted once, under its counted complexity, which is
      one of the two valid tags. */
  lemma ComplexityHistogram(words: Members, s: Stats)
    requires WordStatistics(words) == Some(s)
    ensures Total(s.complexityDistribution) == |words|
    ensures forall c :: Count(s.complexityDistribution, c) == multiset(ComplexityTags(words))[c]
    ensures forall c :: HasKey(s.complexityDistribution, c) ==> c == Intermediate || c == Advanced
  {
    var tags := ComplexityTags(words);
    FromSeqCounts(tags);
    forall c | HasKey(s.complexityDistribution, c) ensures c == Intermediate || c == Advanced {
      var m :| 0 <= m < |tags| && tags[m] == c;
    }
  }

  /** Every word is counted once, under the length of its key. */
  lemma LengthHistogram(words: Members, s: Stats)
    requires WordStatistics(words) == Some(s)
    ensures Total(s.wordLengthStats) == |words|
    ensures forall n :: Count(s.wordLengthStats, n) == multiset(WordLengths(words))[n]
  {
    FromSeqCounts(WordLengths(words));
  }

  /** Every meaning the loop visits is counted once, under its part of
      speech, and every part of speech counted is hashable. */
  lemma PartOfSpeechHistogram(words: Members, s: Stats)
    requires WordStatistics(words) == Some(s)
    ensures Total(s.partOfSpeechDistribution) == MeaningTotal(words)
    ensures forall p :: Count(s.partOfSpeechDistribution, p) == multiset(PartsOfSpeech(words))[p]
    ensures forall p :: HasKey(s.partOfSpeechDistribution, p) ==> Hashable(p)
  {
    FromSeqCounts(PartsOfSpeech(words));
    PartsHashable(words);
  }

  /** Over countable records every part of speech visited is hashable. */
  lemma {:induction false} PartsHashable(words: Members)
    requires AllCountable(words)
    ensures forall p :: p in PartsOfSpeech(words) ==> Hashable(p)
    decreases |words|
  {
    if |words| > 0 {
      var init := words[..|words| - 1];
      var ms := CountedMeanings(words[|words| - 1].1);
      var tail := seq(|ms|, j requires 0 <= j < |ms| => PartOfSpeech(ms[j]));
      PartsHashable(init);
      assert PartsOfSpeech(words) == PartsOfSpeech(init) + tail;
      assert Countable(words[|words| - 1].1);
    }
  }

  /** The words counted as "Advanced" are exactly those whose stored tag is
      "Advanced"; every other word, untagged or mis-tagged, counts as
      "Intermediate". */
  lemma ComplexityCounts(words: Members, s: Stats)
    requires WordStatistics(words) == Some(s)
    ensures Count(s.complexityDistribution, Advanced)
            == multiset(StoredComplexities(words))[Some(Str(Advanced))]
    ensures Count(s.complexityDistribution, Intermediate)
            == |words| - multiset(StoredComplexities(words))[Some(Str(Advanced))]
  {
    ComplexityHistogram(words, s);
    AdvancedTags(words);
    TagsSplit(ComplexityTags(words));
  }

  lemma {:induction false} AdvancedTags(words: Members)
    ensures multiset(ComplexityTags(words))[Advanced] == multiset(StoredComplexities(words))[Some(Str(Advanced))]
    decreases |words|
  {
    if |words| > 0 {
      var init := words[..|words| - 1];
      var last := words[|words| - 1];
      TagsSnoc(words);
      AdvancedTags(init);
      AdvancedTag(last.1);
    }
  }

  lemma TagsSnoc(words: Members)
    requires |words| > 0
    ensures ComplexityTags(words)
            == ComplexityTags(words[..|words| - 1]) + [CountedComplexity(words[|words| - 1].1)]
    ensures StoredComplexities(words)
            == StoredComplexities(words[..|words| - 1]) + [Get(words[|words| - 1].1, "complexity")]
  {
  }

  lemma AdvancedTag(record: Json)
    ensures CountedComplexity(record) == Advanced <==> Get(record, "complexity") == Some(Str(Advanced))
  {
    assert Intermediate != Advanced;
  }

  /** A list of tags drawn from the two valid ones splits between them. */
  lemma {:induction false} TagsSplit(tags: seq<string>)
    requires forall i :: 0 <= i < |tags| ==> tags[i] == Intermediate || tags[i] == Advanced
    ensures multiset(tags)[Intermediate] + multiset(tags)[Advanced] == |tags|
    decreases |tags|
  {
    if |tags| > 0 {
      assert tags == tags[..|tags| - 1] + [tags[|tags| - 1]];
      TagsSplit(tags[..|tags| - 1]);
    }
  }

  /** A present/absent counter pair (`{"has_x": .., "no_x": ..}`), which the
      empty batch leaves as `{}`. */
  datatype Presence = NotCounted | Counts(has: nat, no: nat)

  /** Whether each word's record has a truthy `field`. */
  function FieldFlags(words: Members, field: string): (r: seq<bool>)
    ensures |r| == |words|
    ensures forall i :: 0 <= i < |words| ==> r[i] == FieldTruthy(words[i].1, field)
  {
    seq(|words|, i requires 0 <= i < |words| => FieldTruthy(words[i].1, field))
  }

  /** One pass over the words incrementing "has" when `field` is present and
      truthy and "no" otherwise. */
  function PresenceStats(words: Members, field: string): (r: Presence)
    ensures |words| == 0 <==> r.NotCounted?
    ensures r.Counts? ==> r.has + r.no == |words|
    decreases |words|
  {
    if |words| == 0 then NotCounted
    else
      var prev := PresenceStats(words[..|words| - 1], field);
      var base := if prev.Counts? then prev else Counts(0, 0);
      if FieldTruthy(words[|words| - 1].1, field) then Counts(base.has + 1, base.no)
      else Counts(base.has, base.no + 1)
  }

  /** "has" counts the words whose record has a truthy `field`, "no" the others. */
  lemma {:induction false} PresenceCounts(words: Members, field: string)
    ensures var r := PresenceStats(words, field);
      r.Counts? ==> r.has == multiset(FieldFlags(words, field))[true] && r.no == multiset(FieldFlags(words, field))[false]
    decreases |words|
  {
    if |words| > 0 {
      var init := words[..|words| - 1];
      PresenceCounts(init, field);
      FlagsSnoc(words, field);
    }
  }

  lemma FlagsSnoc(words: Members, field: string)
    requires |words| > 0
    ensures FieldFlags(words, field) == FieldFlags(words[..|words| - 1], field) + [FieldTruthy(words[|words| - 1].1, field)]
  {
  }

  /** The eight entries of `calculate_detailed_statistics`. */
  datatype DetailedStats = DetailedStats(
    basic: Stats,
    pronunciationStats: Presence,
    originStats: Presence,
    phoneticStats: Presence,
    ssmlStats: Presence)

  /** `calculate_detailed_statistics(word_batch, letter)`: the shared loop
      and the four present/absent counters; `None` when it raises, on the
      same records as `calculate_word_statistics`. */
  function DetailedStatistics(words: Members): (r: Option<DetailedStats>)
    ensures r.Some? <==> AllCountable(words)
    ensures r.Some? ==> Some(r.value.basic) == WordStatistics(words)
    ensures r.Some? ==> r.value.basic.totalWords == |words|
    ensures |words| == 0 ==> r == Some(DetailedStats(Stats(0, [], [], []), NotCounted, NotCounted, NotCounted, NotCounted))
    ensures r.Some? && |words| > 0 ==>
      && r.value.pronunciationStats.Counts? && r.value.originStats.Counts?
      && r.value.phoneticStats.Counts? && r.value.ssmlStats.Counts?
    ensures r.Some? && r.value.pronunciationStats.Counts? ==>
      r.value.pronunciationStats.has + r.value.pronunciationStats.no == |words|
    ensures r.Some? && r.value.originStats.Counts? ==> r.value.originStats.has + r.value.originStats.no == |words|
    ensures r.Some? && r.value.phoneticStats.Counts? ==> r.value.phoneticStats.has + r.value.phoneticStats.no == |words|
    ensures r.Some? && r.value.ssmlStats.Counts? ==> r.value.ssmlStats.has + r.value.ssmlStats.no == |words|
  {
    match WordStatistics(words)
    case None => None
    case Some(basic) =>
      Some(DetailedStats(
        basic,
        PresenceStats(words, "pronunciation"),
        PresenceStats(words, "word_origin"),
        PresenceStats(words, "phonetic_respelling"),
        PresenceStats(words, "ssml_phoneme")))
  }
}
