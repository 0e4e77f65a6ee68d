/** The word-list census (`analyze_word_structure` and
    `create_tabular_report`): per-letter word counts over the 26 capital
    letters, the length and complexity tallies, the split of the alphabet at
    90 words, the letters ranked by count, and the tallies of the markdown
    table. The exceptions the model covers (malformed shapes, and complexity
    values `sorted` cannot order) all end in the same `except` clause,
    which returns `(None, None)`; here they are `None`. */
module Census {
  import opened Assoc
  import opened Json
  import opened Histogram
  import Statistics

  const Uppercase: seq<char> := "ABCDEFGHIJKLMNOPQRSTUVWXYZ"

  /** A letter with at least this many words is "90+". */
  const Threshold: nat := 90

  // ---------------------------------------------------------------------
  // One letter

  /** What `if "complexity" in record: tally[record["complexity"]] += 1`
      makes of one word record: nothing to count, a value to count, or an
      exception (a record `in` cannot search, a list or string that does
      contain the key but cannot be indexed by it, or a value that cannot be
      a dictionary key). */
  datatype Tag = Untagged | Tagged(value: Json) | TagError

  function ComplexityTag(record: Json): (r: Tag)
    ensures record.Obj? ==> (r.Untagged? <==> !Has(record, "complexity"))
    ensures r.Tagged? ==> record.Obj? && Get(record, "complexity") == Some(r.value) && !r.value.Obj? && !r.value.Arr?
    ensures record.Null? || record.Bool? || record.Num? ==> r.TagError?
  {
    match Look(record, "complexity")
    case Absent => Untagged
    case Found(v) => if v.Obj? || v.Arr? then TagError else Tagged(v)
    case LookupError => TagError
  }

  /** The two tallies shared by all letters. */
  datatype Tally = Tally(lengths: Hist<nat>, complexities: Hist<Json>)

  /** `for word in words_dict`: every word's length is counted, and its
      complexity when it has one. */
  function TallyWords(t: Tally, words: Members): Option<Tally>
    decreases |words|
  {
    if |words| == 0 then Some(t)
    else
      match TallyWords(t, words[..|words| - 1])
      case None => None
      case Some(prev) =>
        var word := words[|words| - 1];
        var lengths := Bump<nat>(prev.lengths, |word.0|);
        match ComplexityTag(word.1)
        case TagError => None
        case Untagged => Some(Tally(lengths, prev.complexities))
        case Tagged(v) => Some(Tally(lengths, Bump<Json>(prev.complexities, v)))
  }

  /** The stored complexities of the words whose record has the key, in order. */
  function TagValues(words: Members): seq<Json>
    decreases |words|
  {
    if |words| == 0 then []
    else
      var record := words[|words| - 1].1;
      TagValues(words[..|words| - 1]) + if Has(record, "complexity") then [Get(record, "complexity").value] else []
  }

  /** No word record makes the complexity check raise. */
  predicate TagsReadable(words: Members) {
    forall i :: 0 <= i < |words| ==> !ComplexityTag(words[i].1).TagError?
  }

  /** A record that does not make the check raise is counted exactly when
      it has the key, under its stored value. */
  lemma TagAgrees(record: Json)
    requires !ComplexityTag(record).TagError?
    ensures ComplexityTag(record).Tagged? <==> Has(record, "complexity")
    ensures ComplexityTag(record).Tagged? ==> ComplexityTag(record).value == Get(record, "complexity").value
  {
  }

  lemma ReadableSnoc(words: Members)
    requires |words| > 0
    ensures TagsReadable(words) <==> TagsReadable(words[..|words| - 1]) && !ComplexityTag(words[|words| - 1].1).TagError?
  {
    assert forall i :: 0 <= i < |words| - 1 ==> words[..|words| - 1][i] == words[i];
  }

  /** The words loop fails exactly when some record makes it raise. */
  lemma {:induction false} TallyWordsFails(t: Tally, words: Members)
    ensures TallyWords(t, words).Some? <==> TagsReadable(words)
    decreases |words|
  {
    if |words| > 0 {
      TallyWordsFails(t, words[..|words| - 1]);
      ReadableSnoc(words);
    }
  }

  /** One more word, when the loop does not raise: its length is counted,
      and its stored complexity when it has one. */
  lemma TallyStep(t: Tally, words: Members)
    requires |words| > 0
    requires TallyWords(t, words).Some?
    ensures TallyWords(t, words[..|words| - 1]).Some?
    ensures var prev := TallyWords(t, words[..|words| - 1]).value;
      var word := words[|words| - 1];
      TallyWords(t, words).value
      == Tally(Bump<nat>(prev.lengths, |word.0|),
               if Has(word.1, "complexity") then Bump<Json>(prev.complexities, Get(word.1, "complexity").value)
               else prev.complexities)
  {
    TagAgrees(words[|words| - 1].1);
  }

  /** When it does not raise, every word adds its length, and exactly the
      words with a "complexity" key add their complexity. */
  lemma {:induction false} TallyWordsCounts(t: Tally, words: Members)
    requires TallyWords(t, words).Some?
    ensures TallyWords(t, words).value
            == Tally(BumpAll<nat>(t.lengths, Statistics.WordLengths(words)), BumpAll<Json>(t.complexities, TagValues(words)))
    decreases |words|
  {
    if |words| > 0 {
      var init := words[..|words| - 1];
      var word := words[|words| - 1];
      TallyStep(t, words);
      TallyWordsCounts(t, init);
      LengthsSnoc(t.lengths, words);
      TagsSnoc(t.complexities, words);
    }
  }

  lemma LengthsSnoc(h: Hist<nat>, words: Members)
    requires |words| > 0
    ensures BumpAll<nat>(h, Statistics.WordLengths(words))
            == Bump<nat>(BumpAll<nat>(h, Statistics.WordLengths(words[..|words| - 1])), |words[|words| - 1].0|)
  {
    var ls := Statistics.WordLengths(words);
    assert ls[..|ls| - 1] == Statistics.WordLengths(words[..|words| - 1]);
  }

  lemma TagsSnoc(h: Hist<Json>, words: Members)
    requires |words| > 0
    ensures var record := words[|words| - 1].1;
      BumpAll<Json>(h, TagValues(words))
      == if Has(record, "complexity") then Bump<Json>(BumpAll<Json>(h, TagValues(words[..|words| - 1])), Get(record, "complexity").value)
         else BumpAll<Json>(h, TagValues(words[..|words| - 1]))
  {
    var vs := TagValues(words);
    if Has(words[|words| - 1].1, "complexity") {
      assert vs[..|vs| - 1] == TagValues(words[..|words| - 1]);
    } else {
      assert vs == TagValues(words[..|words| - 1]) + [] == TagValues(words[..|words| - 1]);
    }
  }

  /** `for word in letter_data: if isinstance(letter_data[word], dict)`:
      only entries whose value is an object are measured. */
  function DirectLengths(lengths: Hist<nat>, entries: Members): Hist<nat>
    decreases |entries|
  {
    if |entries| == 0 then lengths
    else
      var prev := DirectLengths(lengths, entries[..|entries| - 1]);
      var entry := entries[|entries| - 1];
      if entry.1.Obj? then Bump<nat>(prev, |entry.0|) else prev
  }

  /** The key lengths of the object-valued entries, in order. */
  function DictKeyLengths(entries: Members): seq<nat>
    decreases |entries|
  {
    if |entries| == 0 then []
    else
      var entry := entries[|entries| - 1];
      DictKeyLengths(entries[..|entries| - 1]) + if entry.1.Obj? then [|entry.0|] else []
  }

  lemma {:induction false} DirectLengthsCounts(lengths: Hist<nat>, entries: Members)
    ensures DirectLengths(lengths, entries) == BumpAll<nat>(lengths, DictKeyLengths(entries))
    decreases |entries|
  {
    if |entries| > 0 {
      var init := entries[..|entries| - 1];
      var entry := entries[|entries| - 1];
      DirectLengthsCounts(lengths, init);
      if entry.1.Obj? {
        var ks := DictKeyLengths(entries);
        assert ks[..|ks| - 1] == DictKeyLengths(init);
      } else {
        assert DictKeyLengths(entries) == DictKeyLengths(init) + [] == DictKeyLengths(init);
      }
    }
  }

  /** The `word_count` of a letter: the size of its words map when it has
      one, its number of entries otherwise. */
  function WordCount(entry: Json): nat {
    if Has(entry, "words") then Len(Get(entry, "words").value) else Len(entry)
  }

  /** One present letter: its word count and the updated tallies, or `None`
      when Python would raise. A letter entry that is not an object, and a
      words value that is neither an object nor empty, raise. */
  function ScanEntry(t: Tally, entry: Json): (r: Option<(nat, Tally)>)
    ensures r.Some? ==> r.value.0 == WordCount(entry)
    ensures r.Some? ==> entry.Obj?
    ensures r.Some? && !Has(entry, "words") ==> r.value.1.complexities == t.complexities
  {
    if !entry.Obj? then None
    else if Has(entry, "words") then
      match Get(entry, "words").value
      case Obj(words) =>
        (match TallyWords(t, words)
         case None => None
         case Some(after) => Some((|words|, after)))
      case Arr(items) => if items == [] then Some((0, t)) else None
      case Str(s) => if s == "" then Some((0, t)) else None
      case _ => None
    else Some((|entry.members|, Tally(DirectLengths(t.lengths, entry.members), t.complexities)))
  }

  // ---------------------------------------------------------------------
  // All letters

  /** `total_words`, `letter_stats` and the two tallies after the letter loop. */
  datatype Scan = Scan(totalWords: nat, letterStats: Hist<char>, tally: Tally)

  /** `for letter in string.ascii_uppercase: if letter in data: ...`, over
      any sequence of letters. */
  function ScanLetters(data: Members, letters: seq<char>): (r: Option<Scan>)
    ensures r.Some? ==> |r.value.letterStats| <= |letters|
    ensures r.Some? ==> forall i :: 0 <= i < |r.value.letterStats| ==>
      r.value.letterStats[i].0 in letters && Contains(data, [r.value.letterStats[i].0])
    decreases |letters|
  {
    if |letters| == 0 then Some(Scan(0, [], Tally([], [])))
    else
      match ScanLetters(data, letters[..|letters| - 1])
      case None => None
      case Some(prev) =>
        var c := letters[|letters| - 1];
        if !Contains(data, [c]) then Some(prev)
        else
          match ScanEntry(prev.tally, Find(data, [c]).value)
          case None => None
          case Some(counted) =>
            Some(Scan(prev.totalWords + counted.0, prev.letterStats + [(c, counted.0)], counted.1))
  }

  /** What `letter_stats.get(letter, 0)` should be: the letter's word count
      when it is in the file, 0 when it is not. */
  function Expected(data: Members, c: char): nat {
    if Contains(data, [c]) then WordCount(Find(data, [c]).value) else 0
  }

  predicate Ascending(letters: seq<char>) {
    forall i, j :: 0 <= i < j < |letters| ==> letters[i] < letters[j]
  }

  /** The keys of a counter are strictly ascending. */
  predicate KeysAscending(h: Hist<char>) {
    forall i, j :: 0 <= i < j < |h| ==> h[i].0 < h[j].0
  }

  lemma UppercaseAscending()
    ensures Ascending(Uppercase)
  {
  }

  /** A successful scan of a prefix comes from a successful scan of the
      prefix before it. */
  lemma ScanPrefix(data: Members, letters: seq<char>)
    requires |letters| > 0
    requires ScanLetters(data, letters).Some?
    ensures ScanLetters(data, letters[..|letters| - 1]).Some?
  {
  }

  /** One more letter: a present letter appends its entry and adds its
      word count; an absent one changes nothing. */
  lemma ScanStep(data: Members, letters: seq<char>)
    requires |letters| > 0
    requires ScanLetters(data, letters).Some?
    ensures ScanLetters(data, letters[..|letters| - 1]).Some?
    ensures var prev := ScanLetters(data, letters[..|letters| - 1]).value;
      var s := ScanLetters(data, letters).value;
      var c := letters[|letters| - 1];
      if Contains(data, [c]) then
        && s.totalWords == prev.totalWords + Expected(data, c)
        && s.letterStats == prev.letterStats + [(c, Expected(data, c))]
      else s.totalWords == prev.totalWords && s.letterStats == prev.letterStats
  {
  }

  /** `total_words` is the sum of `letter_stats`. */
  lemma {:induction false} ScanTotal(data: Members, letters: seq<char>)
    requires ScanLetters(data, letters).Some?
    ensures ScanLetters(data, letters).value.totalWords == Total(ScanLetters(data, letters).value.letterStats)
    decreases |letters|
  {
    if |letters| > 0 {
      var init := letters[..|letters| - 1];
      var c := letters[|letters| - 1];
      ScanStep(data, letters);
      ScanTotal(data, init);
      var prev := ScanLetters(data, init).value;
      TotalAppend(prev.letterStats, [(c, Expected(data, c))]);
      assert Total([(c, Expected(data, c))]) == Expected(data, c);
    }
  }

  /** `letter_stats` holds only letters of the file, visited in ascending order. */
  lemma {:induction false} ScanKeys(data: Members, letters: seq<char>)
    requires Ascending(letters)
    requires ScanLetters(data, letters).Some?
    ensures var stats := ScanLetters(data, letters).value.letterStats;
      && KeysAscending(stats)
      && forall i :: 0 <= i < |stats| ==> stats[i].0 in letters && Contains(data, [stats[i].0])
    decreases |letters|
  {
    if |letters| > 0 {
      var init := letters[..|letters| - 1];
      var c := letters[|letters| - 1];
      ScanStep(data, letters);
      assert Ascending(init);
      ScanKeys(data, init);
      var prev := ScanLetters(data, init).value.letterStats;
      forall i | 0 <= i < |prev| ensures prev[i].0 in letters && prev[i].0 < c {
        var k :| 0 <= k < |init| && init[k] == prev[i].0;
        assert letters[k] == init[k];
      }
    }
  }

  /** `letter_stats.get(letter, 0)` is each letter's word count, 0 for the
      letters absent from the file, and the letters present are exactly
      its keys. */
  lemma {:induction false} ScanCounts(data: Members, letters: seq<char>)
    requires Ascending(letters)
    requires ScanLetters(data, letters).Some?
    ensures var stats := ScanLetters(data, letters).value.letterStats;
      && (forall c :: c in letters ==> Count(stats, c) == Expected(data, c))
      && (forall c :: c in letters ==> (HasKey(stats, c) <==> Contains(data, [c])))
    decreases |letters|
  {
    if |letters| > 0 {
      var init := letters[..|letters| - 1];
      var c := letters[|letters| - 1];
      ScanStep(data, letters);
      AscendingInit(letters, init, c);
      ScanCounts(data, init);
      NotYetCounted(data, letters);
      var prev := ScanLetters(data, init).value.letterStats;
      var stats := ScanLetters(data, letters).value.letterStats;
      CountAbsent(prev, c);
      if Contains(data, [c]) {
        AddFresh(prev, c, Expected(data, c), stats);
      }
      assert forall d :: d in letters <==> d in init || d == c;
    }
  }

  /** The last letter has no entry yet when the earlier ones are scanned. */
  lemma NotYetCounted(data: Members, letters: seq<char>)
    requires |letters| > 0 && Ascending(letters)
    requires ScanLetters(data, letters[..|letters| - 1]).Some?
    ensures !HasKey(ScanLetters(data, letters[..|letters| - 1]).value.letterStats, letters[|letters| - 1])
  {
    var init := letters[..|letters| - 1];
    AscendingInit(letters, init, letters[|letters| - 1]);
    ScanKeys(data, init);
  }

  /** Appending a fresh key counts it and leaves every other count alone. */
  lemma AddFresh(prev: Hist<char>, c: char, n: nat, stats: Hist<char>)
    requires !HasKey(prev, c)
    requires stats == prev + [(c, n)]
    ensures Count(stats, c) == n && HasKey(stats, c)
    ensures forall d :: d != c ==> Count(stats, d) == Count(prev, d) && (HasKey(stats, d) <==> HasKey(prev, d))
  {
    assert Add(prev, c, n) == stats;
    CountAbsent(prev, c);
  }

  /** `total_words` is the sum of `letter_stats`, which holds one entry per
      letter present, in alphabetical order, and gives every letter its
      word count, 0 for the absent ones. */
  lemma ScanStats(data: Members, letters: seq<char>)
    requires Ascending(letters)
    requires ScanLetters(data, letters).Some?
    ensures var s := ScanLetters(data, letters).value;
      && s.totalWords == Total(s.letterStats)
      && KeysAscending(s.letterStats)
      && (forall i :: 0 <= i < |s.letterStats| ==> s.letterStats[i].0 in letters && Contains(data, [s.letterStats[i].0]))
      && (forall c :: c in letters ==> Count(s.letterStats, c) == Expected(data, c))
      && (forall c :: c in letters ==> (HasKey(s.letterStats, c) <==> Contains(data, [c])))
  {
    ScanTotal(data, letters);
    ScanKeys(data, letters);
    ScanCounts(data, letters);
  }

  // ---------------------------------------------------------------------
  // The 90-word split

  /** `for letter in string.ascii_uppercase: count = letter_stats.get(letter, 0); ...`:
      the letters with at least 90 words and the others, each in the
      order visited. */
  function Split(stats: Hist<char>, letters: seq<char>): (r: (seq<char>, seq<char>))
    ensures |r.0| + |r.1| == |letters|
    ensures forall i :: 0 <= i < |r.0| ==> r.0[i] in letters && Count(stats, r.0[i]) >= Threshold
    ensures forall i :: 0 <= i < |r.1| ==> r.1[i] in letters && Count(stats, r.1[i]) < Threshold
    decreases |letters|
  {
    if |letters| == 0 then ([], [])
    else
      var prev := Split(stats, letters[..|letters| - 1]);
      var c := letters[|letters| - 1];
      if Count(stats, c) >= Threshold then (prev.0 + [c], prev.1) else (prev.0, prev.1 + [c])
  }

  /** Every letter lands in exactly one of the two lists: the first when its
      count (0 if absent) is at least 90, the second otherwise. */
  lemma {:induction false} SplitPartitions(stats: Hist<char>, letters: seq<char>)
    requires Ascending(letters)
    ensures var (plus, below) := Split(stats, letters);
      && |plus| + |below| == |letters|
      && (forall c :: c in letters ==> (c in plus <==> Count(stats, c) >= Threshold))
      && (forall c :: c in letters ==> (c in below <==> Count(stats, c) < Threshold))
      && (forall c :: c in plus || c in below ==> c in letters)
    decreases |letters|
  {
    if |letters| > 0 {
      var init := letters[..|letters| - 1];
      var c := letters[|letters| - 1];
      assert Ascending(init);
      SplitPartitions(stats, init);
      assert forall d :: d in letters <==> d in init || d == c;
      assert c !in init by {
        assert forall i :: 0 <= i < |init| ==> init[i] == letters[i];
      }
    }
  }

  /** Both lists keep the alphabetical order of the letters. */
  lemma {:induction false} SplitOrdered(stats: Hist<char>, letters: seq<char>)
    requires Ascending(letters)
    ensures Ascending(Split(stats, letters).0) && Ascending(Split(stats, letters).1)
    decreases |letters|
  {
    if |letters| > 0 {
      var init := letters[..|letters| - 1];
      var c := letters[|letters| - 1];
      AscendingInit(letters, init, c);
      SplitOrdered(stats, init);
      SplitPartitions(stats, init);
      var prev := Split(stats, init);
      AscendingSnoc(prev.0, c);
      AscendingSnoc(prev.1, c);
    }
  }

  /** Dropping the last letter keeps the order, and every letter before
      the last is below it. */
  lemma AscendingInit(letters: seq<char>, init: seq<char>, c: char)
    requires Ascending(letters)
    requires |letters| > 0 && init == letters[..|letters| - 1] && c == letters[|letters| - 1]
    ensures Ascending(init)
    ensures forall d :: d in init ==> d < c
  {
    forall d | d in init ensures d < c {
      var k :| 0 <= k < |init| && init[k] == d;
      assert letters[k] == init[k];
    }
  }

  /** A letter above all those of an ascending list extends it in order. */
  lemma AscendingSnoc(xs: seq<char>, c: char)
    requires Ascending(xs)
    requires forall d :: d in xs ==> d < c
    ensures Ascending(xs + [c])
  {
    var ys := xs + [c];
    forall i, j | 0 <= i < j < |ys| ensures ys[i] < ys[j] {
      if j == |xs| {
        assert ys[i] == xs[i] && xs[i] in xs;
      }
    }
  }

  // ---------------------------------------------------------------------
  // Ranking

  /** `sorted(letter_stats.items(), key=lambda x: x[1], reverse=True)`: a
      stable sort by descending count, as an insertion sort. */
  function Rank(stats: Hist<char>): (r: Hist<char>)
    ensures multiset(r) == multiset(stats)
    decreases |stats|
  {
    if |stats| == 0 then []
    else
      assert stats == stats[..|stats| - 1] + [stats[|stats| - 1]];
      Insert(Rank(stats[..|stats| - 1]), stats[|stats| - 1])
  }

  /** Places `x` after every entry whose count is at least its own. */
  function Insert(ranked: Hist<char>, x: (char, nat)): (r: Hist<char>)
    ensures |r| == |ranked| + 1
    ensures multiset(r) == multiset(ranked) + multiset{x}
    decreases |ranked|
  {
    if |ranked| == 0 || ranked[|ranked| - 1].1 >= x.1 then ranked + [x]
    else
      var init := ranked[..|ranked| - 1];
      assert ranked == init + [ranked[|ranked| - 1]];
      Insert(init, x) + [ranked[|ranked| - 1]]
  }

  predicate NonIncreasing(h: Hist<char>) {
    forall i, j :: 0 <= i < j < |h| ==> h[i].1 >= h[j].1
  }

  /** Entries with equal counts keep alphabetical order. */
  predicate TiesAlphabetical(h: Hist<char>) {
    forall i, j :: 0 <= i < j < |h| && h[i].1 == h[j].1 ==> h[i].0 < h[j].0
  }

  lemma {:induction false} InsertSorted(ranked: Hist<char>, x: (char, nat))
    requires NonIncreasing(ranked)
    requires TiesAlphabetical(ranked)
    requires forall i :: 0 <= i < |ranked| ==> ranked[i].0 < x.0
    ensures NonIncreasing(Insert(ranked, x))
    ensures TiesAlphabetical(Insert(ranked, x))
    decreases |ranked|
  {
    if |ranked| > 0 && ranked[|ranked| - 1].1 < x.1 {
      var init := ranked[..|ranked| - 1];
      var last := ranked[|ranked| - 1];
      InsertSorted(init, x);
      InsertAbove(ranked, x);
      AppendRanked(Insert(init, x), last);
      AppendTies(Insert(init, x), last);
    } else {
      AppendRanked(ranked, x);
      AppendTies(ranked, x);
    }
  }

  /** When `x` goes before the last entry, every entry placed before that
      one counts at least as much, and any that counts the same is an
      earlier entry, hence alphabetically before it. */
  lemma InsertAbove(ranked: Hist<char>, x: (char, nat))
    requires |ranked| > 0 && ranked[|ranked| - 1].1 < x.1
    requires NonIncreasing(ranked)
    ensures var ins := Insert(ranked[..|ranked| - 1], x);
      var last := ranked[|ranked| - 1];
      && Insert(ranked, x) == ins + [last]
      && (forall i :: 0 <= i < |ins| ==> ins[i].1 >= last.1)
      && (TiesAlphabetical(ranked) ==> forall i :: 0 <= i < |ins| && ins[i].1 == last.1 ==> ins[i].0 < last.0)
  {
    var init := ranked[..|ranked| - 1];
    var last := ranked[|ranked| - 1];
    var ins := Insert(init, x);
    forall i | 0 <= i < |ins|
      ensures ins[i].1 >= last.1
      ensures TiesAlphabetical(ranked) && ins[i].1 == last.1 ==> ins[i].0 < last.0
    {
      assert ins[i] in multiset(ins);
      if ins[i] != x {
        assert ins[i] in multiset(init);
        var k :| 0 <= k < |init| && init[k] == ins[i];
        assert ranked[k] == init[k];
      }
    }
  }

  lemma AppendRanked(ins: Hist<char>, last: (char, nat))
    requires NonIncreasing(ins)
    requires forall i :: 0 <= i < |ins| ==> ins[i].1 >= last.1
    ensures NonIncreasing(ins + [last])
  {
  }

  lemma AppendTies(ins: Hist<char>, last: (char, nat))
    requires TiesAlphabetical(ins)
    requires forall i :: 0 <= i < |ins| && ins[i].1 == last.1 ==> ins[i].0 < last.0
    ensures TiesAlphabetical(ins + [last])
  {
  }

  /** The ranking is in non-increasing count order, holds exactly the
      entries of `letter_stats`, and breaks ties alphabetically when the
      letters were counted alphabetically. */
  lemma {:induction false} RankSorted(stats: Hist<char>)
    ensures multiset(Rank(stats)) == multiset(stats)
    ensures NonIncreasing(Rank(stats))
    ensures KeysAscending(stats) ==> TiesAlphabetical(Rank(stats))
    decreases |stats|
  {
    if |stats| > 0 {
      var init := stats[..|stats| - 1];
      var x := stats[|stats| - 1];
      assert stats == init + [x];
      RankSorted(init);
      var ranked := Rank(init);
      if KeysAscending(stats) {
        assert KeysAscending(init);
        forall i | 0 <= i < |ranked| ensures ranked[i].0 < x.0 {
          assert ranked[i] in multiset(init);
          var k :| 0 <= k < |init| && init[k] == ranked[i];
          assert stats[k] == init[k];
        }
        InsertSorted(ranked, x);
      } else {
        NonIncreasingInsert(ranked, x);
      }
    }
  }

  lemma {:induction false} NonIncreasingInsert(ranked: Hist<char>, x: (char, nat))
    requires NonIncreasing(ranked)
    ensures NonIncreasing(Insert(ranked, x))
    decreases |ranked|
  {
    if |ranked| > 0 && ranked[|ranked| - 1].1 < x.1 {
      var init := ranked[..|ranked| - 1];
      NonIncreasingInsert(init, x);
      InsertAbove(ranked, x);
      AppendRanked(Insert(init, x), ranked[|ranked| - 1]);
    } else {
      AppendRanked(ranked, x);
    }
  }

  // ---------------------------------------------------------------------
  // The whole analysis

  datatype Report = Report(scan: Scan, atLeast90: seq<char>, below90: seq<char>, ranked: Hist<char>)

  /** The members `letter in data` and `data[letter]` see. An object gives
      its members. In a list or a string `in` tests membership or a
      substring, and a capital letter found there raises when `data[letter]`
      indexes by a string; without one the loop finds no letter. Any other
      value makes `in` raise. */
  function FileLetters(file: Json): (r: Option<Members>)
    ensures file.Obj? ==> r == Some(file.members)
    ensures r.Some? && !file.Obj? ==> r == Some([])
    ensures file.Null? || file.Bool? || file.Num? ==> r.None?
  {
    match file
    case Obj(members) => Some(members)
    case Arr(items) => if exists c :: c in Uppercase && Str([c]) in items then None else Some([])
    case Str(text) => if exists c :: c in Uppercase && c in text then None else Some([])
    case _ => None
  }

  /** Whether `sorted` can order the tallied complexity values: it compares
      values pairwise, and a string with a number, or `None` with anything,
      raises `TypeError`; a single value needs no comparison. */
  predicate Orderable(h: Hist<Json>) {
    || |h| <= 1
    || (forall i :: 0 <= i < |h| ==> h[i].0.Str?)
    || (forall i :: 0 <= i < |h| ==> h[i].0.Num? || h[i].0.Bool?)
  }

  /** `analyze_word_structure()` on the loaded file: `None` where the
      script returns `(None, None)`, which includes line 113 raising on
      complexity values of kinds that cannot be compared. */
  function AnalyzeWordStructure(file: Json): (r: Option<Report>)
    ensures r.Some? <==>
      && FileLetters(file).Some?
      && ScanLetters(FileLetters(file).value, Uppercase).Some?
      && Orderable(ScanLetters(FileLetters(file).value, Uppercase).value.tally.complexities)
    ensures r.Some? ==> r.value.scan == ScanLetters(FileLetters(file).value, Uppercase).value
  {
    match FileLetters(file)
    case None => None
    case Some(data) =>
      match ScanLetters(data, Uppercase)
      case None => None
      case Some(s) =>
        if !Orderable(s.tally.complexities) then None
        else
          var (plus, below) := Split(s.letterStats, Uppercase);
          Some(Report(s, plus, below, Rank(s.letterStats)))
  }

  /** What opening and decoding the word-list file (lines 10-11) gives: no
      file, a file that is not JSON, another read error, or the decoded value. */
  datatype WordListFile = NoFile | NotJson | ReadError | Decoded(data: Json)

  /** `analyze_word_structure()` including the load: each load failure is
      caught (lines 133-141) and the script returns `(None, None)`. */
  function AnalyzeFile(f: WordListFile): (r: Option<Report>)
    ensures !f.Decoded? ==> r.None?
    ensures f.Decoded? ==> r == AnalyzeWordStructure(f.data)
  {
    match f
    case Decoded(data) => AnalyzeWordStructure(data)
    case _ => None
  }

  /** The summary lines of `create_tabular_report`. */
  datatype Tabular = Tabular(totalWords: nat, atLeast90: nat, below90: nat)

  function AtLeast(stats: Hist<char>): nat
    decreases |stats|
  {
    if |stats| == 0 then 0 else AtLeast(stats[..|stats| - 1]) + if stats[|stats| - 1].1 >= Threshold then 1 else 0
  }

  function Below(stats: Hist<char>): nat
    decreases |stats|
  {
    if |stats| == 0 then 0 else Below(stats[..|stats| - 1]) + if stats[|stats| - 1].1 < Threshold then 1 else 0
  }

  /** `create_tabular_report(letter_stats)`: nothing for an empty
      `letter_stats`; otherwise the tallies over its entries, which between
      them count every entry once. */
  function TabularReport(stats: Hist<char>): (r: Option<Tabular>)
    ensures r.None? <==> |stats| == 0
    ensures r.Some? ==> r.value.atLeast90 + r.value.below90 == |stats|
  {
    if |stats| == 0 then None
    else
      TalliesCover(stats);
      Some(Tabular(Total(stats), AtLeast(stats), Below(stats)))
  }

  lemma {:induction false} TalliesCover(stats: Hist<char>)
    ensures AtLeast(stats) + Below(stats) == |stats|
    decreases |stats|
  {
    if |stats| > 0 {
      TalliesCover(stats[..|stats| - 1]);
    }
  }

  /** For the letters of the scan, the split lists and the table tallies
      agree on the 90+ letters, and the split's other list also holds every
      absent letter, which the table leaves out. */
  lemma {:induction false} SplitMatchesTallies(data: Members, letters: seq<char>, stats: Hist<char>)
    requires ScanLetters(data, letters).Some?
    requires forall c :: c in letters ==> Count(stats, c) == Expected(data, c)
    ensures var s := ScanLetters(data, letters).value;
      && |Split(stats, letters).0| == AtLeast(s.letterStats)
      && |Split(stats, letters).1| == Below(s.letterStats) + (|letters| - |s.letterStats|)
      && |s.letterStats| <= |letters|
    decreases |letters|
  {
    if |letters| > 0 {
      var init := letters[..|letters| - 1];
      var c := letters[|letters| - 1];
      ScanPrefix(data, letters);
      SplitMatchesTallies(data, init, stats);
      var prev := ScanLetters(data, init).value;
      var s := ScanLetters(data, letters).value;
      assert Count(stats, c) == Expected(data, c);
      if Contains(data, [c]) {
        assert s.letterStats == prev.letterStats + [(c, Expected(data, c))];
        assert s.letterStats[..|s.letterStats| - 1] == prev.letterStats;
      }
    }
  }

  /** The report the script prints and the markdown table agree: the same
      total, the same number of 90+ letters, and the "<90" line of the
      table short by exactly the letters absent from the file. */
  lemma ReportAgrees(file: Json)
    requires AnalyzeWordStructure(file).Some?
    ensures var r := AnalyzeWordStructure(file).value;
      var stats := r.scan.letterStats;
      && |r.atLeast90| + |r.below90| == 26
      && (TabularReport(stats).Some? ==>
            && TabularReport(stats).value.totalWords == r.scan.totalWords
            && TabularReport(stats).value.atLeast90 == |r.atLeast90|
            && TabularReport(stats).value.below90 + (26 - |stats|) == |r.below90|)
  {
    var data := FileLetters(file).value;
    var s := ScanLetters(data, Uppercase).value;
    UppercaseAscending();
    ScanStats(data, Uppercase);
    SplitPartitions(s.letterStats, Uppercase);
    SplitMatchesTallies(data, Uppercase, s.letterStats);
  }

  /** Every capital letter is in exactly one list, by its count (0 when
      absent), and the ranking is sorted with ties in alphabetical order. */
  lemma ReportShape(file: Json)
    requires AnalyzeWordStructure(file).Some?
    ensures var r := AnalyzeWordStructure(file).value;
      && r.scan.totalWords == Total(r.scan.letterStats)
      && (forall c :: c in Uppercase ==> (c in r.atLeast90 <==> Expected(FileLetters(file).value, c) >= Threshold))
      && (forall c :: c in Uppercase ==> (c in r.below90 <==> Expected(FileLetters(file).value, c) < Threshold))
      && Ascending(r.atLeast90) && Ascending(r.below90)
      && multiset(r.ranked) == multiset(r.scan.letterStats)
      && NonIncreasing(r.ranked)
      && TiesAlphabetical(r.ranked)
  {
    var data := FileLetters(file).value;
    var s := ScanLetters(data, Uppercase).value;
    UppercaseAscending();
    ScanStats(data, Uppercase);
    SplitPartitions(s.letterStats, Uppercase);
    SplitOrdered(s.letterStats, Uppercase);
    RankSorted(s.letterStats);
  }
}
