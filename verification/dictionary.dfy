/** The detailed-dictionary generator (`01_03_Detailed_Dictionary.py`): for
    every letter A-Z it walks the words of the word-list file, asks the model
    for one detailed record per word not yet in the checkpoint, merges it, and
    writes the checkpoint after every word. The model call is an oracle of
    replies, the writes an oracle of outcomes, the waits a trace. Unlike the
    word-list generator, a failed write is swallowed: nothing stops the run. */
module Dictionary {
  import opened Assoc
  import opened Json
  import opened Text
  import opened Statistics
  import opened Retry
  import WordList

  const MaxRetries: nat := 3
  const BaseDelay: nat := 5
  const WordPause: nat := 1

  const PhoneticField: string := "phonetic_respelling"
  const SsmlField: string := "ssml_phoneme"

  // ---------------------------------------------------------------- normalisation

  /** Lines 267-276: a missing or falsy `field` is set to "". */
  function FillBlank(info: Json, field: string): (r: Json)
    requires info.Obj?
    ensures r.Obj? && Has(r, field)
    ensures FieldTruthy(info, field) ==> r == info
    ensures !FieldTruthy(info, field) ==> Get(r, field) == Some(Str(""))
    ensures forall k :: k != field ==> Get(r, k) == Get(info, k)
  {
    if FieldTruthy(info, field) then info else Obj(Put(info.members, field, Str("")))
  }

  /** Lines 260-276: the complexity tag is repaired as in the word-list
      generator, and the two pronunciation fields are made present. */
  function Normalize(result: Json): (r: Json)
    requires result.Obj?
    ensures r.Obj?
    ensures Has(r, "complexity") && IsValidComplexity(Get(r, "complexity").value)
    ensures !WordList.NeedsFix(result) ==> Get(r, "complexity") == Get(result, "complexity")
    ensures WordList.NeedsFix(result) ==> Get(r, "complexity") == Some(Str(Intermediate))
    ensures Has(r, PhoneticField) && Has(r, SsmlField)
    ensures FieldTruthy(result, PhoneticField) ==> Get(r, PhoneticField) == Get(result, PhoneticField)
    ensures !FieldTruthy(result, PhoneticField) ==> Get(r, PhoneticField) == Some(Str(""))
    ensures FieldTruthy(result, SsmlField) ==> Get(r, SsmlField) == Get(result, SsmlField)
    ensures !FieldTruthy(result, SsmlField) ==> Get(r, SsmlField) == Some(Str(""))
    ensures forall k :: k != "complexity" && k != PhoneticField && k != SsmlField ==> Get(r, k) == Get(result, k)
  {
    FillBlank(FillBlank(WordList.FixRecord(result), PhoneticField), SsmlField)
  }

  /** A normalised record is never falsy: it holds at least the three fields. */
  lemma NormalizedTruthy(result: Json)
    requires result.Obj?
    ensures Truthy(Normalize(result))
  {
    var r := Normalize(result);
    assert Contains(r.members, "complexity");
  }

  /** A record the normaliser leaves as it is: valid tag, both fields truthy. */
  lemma NormalizeIdempotent(result: Json)
    requires result.Obj?
    ensures Normalize(Normalize(result)) == Normalize(result)
  {
    var r := Normalize(result);
    assert !WordList.NeedsFix(r);
    NormalizedFieldsTruthy(result);
  }

  /** After normalisation each pronunciation field is either truthy or "";
      filling a "" puts "" back in place. */
  lemma NormalizedFieldsTruthy(result: Json)
    requires result.Obj?
    ensures FillBlank(FillBlank(WordList.FixRecord(Normalize(result)), PhoneticField), SsmlField) == Normalize(result)
  {
    var r := Normalize(result);
    assert WordList.FixRecord(r) == r;
    FillAgain(r, PhoneticField);
    FillAgain(r, SsmlField);
  }

  /** Filling a field whose value is "" rewrites it in place. */
  lemma FillAgain(info: Json, field: string)
    requires info.Obj? && Has(info, field)
    requires FieldTruthy(info, field) || Get(info, field) == Some(Str(""))
    ensures FillBlank(info, field) == info
  {
    if !FieldTruthy(info, field) {
      PutSame(info.members, field, Str(""));
    }
  }

  /** Storing the value a key already has changes nothing. */
  lemma {:induction false} PutSame<V>(d: seq<(string, V)>, k: string, v: V)
    requires Find(d, k) == Some(v)
    ensures Put(d, k, v) == d
    decreases |d|
  {
    if d[0].0 != k {
      PutSame(d[1..], k, v);
      assert d == [d[0]] + d[1..];
    } else {
      assert d == [(k, v)] + d[1..];
    }
  }

  /** One reply, cleaned, parsed by `parse` (`json.loads`) and normalised;
      a result that is not an object raises when its fields are set, which
      takes the retry path like a parse error. */
  function DecodeWord(parse: string -> Option<Json>, text: string): (r: Option<Json>)
    ensures r.Some? ==> r.value.Obj? && Has(r.value, "complexity")
  {
    match parse(CleanReply(text))
    case Some(j) => if j.Obj? then Some(Normalize(j)) else None
    case None => None
  }

  /** `get_detailed_word_info(word, letter)`: three retries, waits of 5, 10
      and 20 seconds (the jitter is left out). */
  function FetchWord(replies: seq<Reply>, parse: string -> Option<Json>): (o: Outcome<Json>)
    ensures 1 <= o.attempts <= MaxRetries + 1 && |o.delays| == o.attempts - 1
    ensures forall a :: 0 <= a < |o.delays| ==> o.delays[a] == BaseDelay * Pow2(a)
    ensures o.value.None? ==> o.attempts == MaxRetries + 1
  {
    Retry.Run(replies, MaxRetries, BaseDelay, (t: string) => DecodeWord(parse, t))
  }

  /** A fetch that succeeds returns a truthy object, so line 558 always
      stores it. */
  lemma FetchWordTruthy(replies: seq<Reply>, parse: string -> Option<Json>)
    ensures var o := FetchWord(replies, parse);
      o.value.Some? ==> o.value.value.Obj? && Truthy(o.value.value)
  {
    var o := FetchWord(replies, parse);
    if o.value.Some? {
      assert Contains(o.value.value.members, "complexity");
    }
  }

  /** The fetch the word loop runs, given the replies still to come. */
  type Fetcher = seq<Reply> -> Outcome<Json>

  function Fetch(parse: string -> Option<Json>): Fetcher {
    rs => FetchWord(rs, parse)
  }

  // ---------------------------------------------------------------- documents

  /** One letter's entry in the checkpoint; `None` statistics stand for the
      `{}` a fresh entry starts with. */
  datatype Entry = Entry(letter: string, description: string, words: Members, statistics: Option<DetailedStats>)

  type Document = seq<(string, Entry)>

  /** Lines 525-530. */
  function FreshEntry(key: string): (e: Entry)
    ensures e.words == [] && e.statistics.None?
  {
    Entry(key, "Words starting with letter " + key, [], None)
  }

  /** `comprehensive_data[letter]`; every letter has an entry once the loop
      reaches it, so the fresh fallback is never taken there. */
  function EntryOf(doc: Document, key: string): Entry {
    match Find(doc, key)
    case Some(e) => e
    case None => FreshEntry(key)
  }

  /** Statistics computed from the entry's own words. */
  predicate Stamped(e: Entry) {
    e.statistics.Some? && DetailedStatistics(e.words) == e.statistics
  }

  /** Lines 381-383 and 575-576: the letter's statistics are recomputed from
      its whole words map; `None` when that computation raises. */
  function Stamp(doc: Document, key: string): (r: Option<Document>)
    ensures !Contains(doc, key) ==> r == Some(doc)
    ensures Contains(doc, key) ==> (r.Some? <==> AllCountable(EntryOf(doc, key).words))
    ensures Contains(doc, key) && r.Some? ==>
      && Contains(r.value, key)
      && EntryOf(r.value, key) == EntryOf(doc, key).(statistics := EntryOf(r.value, key).statistics)
      && Stamped(EntryOf(r.value, key))
    ensures r.Some? ==> forall k :: k != key ==> Find(r.value, k) == Find(doc, k)
  {
    if Contains(doc, key) then
      var e := EntryOf(doc, key);
      match DetailedStatistics(e.words)
      case Some(stats) => Some(Put(doc, key, e.(statistics := Some(stats))))
      case None => None
    else Some(doc)
  }

  /** What reading the checkpoint gave: a missing file, a file `json.load`
      rejects, another read error (permissions, a directory, bad UTF-8),
      which no handler at lines 354-366 catches, or a document. */
  datatype LoadResult = FileMissing | Malformed | ReadFailed | Loaded(doc: Document)

  /** Lines 354-366: a missing or malformed checkpoint is the empty
      document; any other read error raises (`None`). */
  function LoadCheckpoint(f: LoadResult): (doc: Option<Document>)
    ensures f.Loaded? ==> doc == Some(f.doc)
    ensures f.FileMissing? || f.Malformed? ==> doc == Some([])
    ensures doc.None? <==> f.ReadFailed?
  {
    match f
    case Loaded(d) => Some(d)
    case ReadFailed => None
    case _ => Some([])
  }

  /** Lines 479-488: resume from the checkpoint, or start from nothing. */
  function StartDocument(resume: bool, f: LoadResult): (doc: Option<Document>)
    ensures resume ==> doc == LoadCheckpoint(f)
    ensures !resume ==> doc == Some([])
  {
    if resume then LoadCheckpoint(f) else Some([])
  }

  /** What reading the word-list file gave, as for the checkpoint. */
  datatype SourceResult = SourceMissing | SourceMalformed | SourceReadFailed | SourceLoaded(data: Json)

  /** Lines 313-321: a missing or malformed word list reads as `{}`; any
      other read error raises (`None`). */
  function SourceData(f: SourceResult): (data: Option<Json>)
    ensures f.SourceLoaded? ==> data == Some(f.data)
    ensures f.SourceMissing? || f.SourceMalformed? ==> data == Some(Obj([]))
    ensures data.None? <==> f.SourceReadFailed?
  {
    match f
    case SourceLoaded(d) => Some(d)
    case SourceReadFailed => None
    case _ => Some(Obj([]))
  }

  /** What `letter in existing_data and "words" in existing_data[letter]`
      followed by `len(existing_data[letter]["words"])` gives for one letter
      (lines 505-506, again at 410-411 and 533-535): no words, a words value
      Python can take the length of, or an exception. `in` raises on a
      number, a boolean or null; a list or string that contains the key
      cannot be indexed by it; `len` raises on a number, a boolean or null. */
  datatype Listing = Unlisted | Listed(words: Json) | ListRaises

  function ListingOf(data: Json, key: string): (l: Listing)
    ensures l.Listed? ==> Sized(l.words)
    ensures data.Null? || data.Bool? || data.Num? ==> l.ListRaises?
    ensures data.Obj? && !Has(data, key) ==> l.Unlisted?
    ensures data.Obj? && Has(data, key) && Get(data, key).value.Obj? ==>
      var entry := Get(data, key).value;
      && (l.Unlisted? <==> !Has(entry, "words"))
      && (l.Listed? <==> Has(entry, "words") && Sized(Get(entry, "words").value))
      && (l.Listed? ==> l.words == Get(entry, "words").value)
  {
    match Look(data, key)
    case Absent => Unlisted
    case LookupError => ListRaises
    case Found(entry) =>
      match Look(entry, "words")
      case Absent => Unlisted
      case LookupError => ListRaises
      case Found(w) => if Sized(w) then Listed(w) else ListRaises
  }

  /** Lines 503-506: `total_words_to_process`, the number of words the word
      list offers from letter `i` on, or `None` when the test raises for
      some letter. The progress summary at line 512 repeats the same test,
      so it raises exactly when this does. */
  function CountFrom(data: Json, i: nat): (n: Option<nat>)
    requires i <= WordList.LetterCount
    ensures n.Some? <==> forall j :: i <= j < WordList.LetterCount ==> !ListingOf(data, WordList.LetterKey(j)).ListRaises?
    ensures n.Some? && data.Obj? && (forall j :: i <= j < WordList.LetterCount ==> !Has(data, WordList.LetterKey(j))) ==> n.value == 0
    decreases WordList.LetterCount - i
  {
    if i == WordList.LetterCount then Some(0)
    else
      match ListingOf(data, WordList.LetterKey(i))
      case ListRaises => None
      case Unlisted => CountFrom(data, i + 1)
      case Listed(w) =>
        match CountFrom(data, i + 1)
        case None => None
        case Some(m) => Some(Len(w) + m)
  }

  /** The words a letter's turn visits (lines 533-545): none, the keys of
      its words dict in file order, or an exception, either from the test
      at 533-535 or from `words.items()` (line 545) on a words value that
      is a string or a list. */
  datatype Visit = NoVisit | Visit(words: seq<string>) | VisitRaises

  function SourceWords(data: Json, key: string): (v: Visit)
    ensures v.NoVisit? <==> ListingOf(data, key).Unlisted?
    ensures v.VisitRaises? <==> ListingOf(data, key).ListRaises? || (ListingOf(data, key).Listed? && !ListingOf(data, key).words.Obj?)
    ensures v.Visit? ==> ListingOf(data, key).Listed? && v.words == Keys(ListingOf(data, key).words.members)
    ensures data.Obj? && Has(data, key) && Get(data, key).value.Obj?
            && Has(Get(data, key).value, "words") && Get(Get(data, key).value, "words").value.Obj? ==>
      v == Visit(Keys(Get(Get(data, key).value, "words").value.members))
  {
    match ListingOf(data, key)
    case Unlisted => NoVisit
    case ListRaises => VisitRaises
    case Listed(w) => if w.Obj? then Visit(Keys(w.members)) else VisitRaises
  }

  // ---------------------------------------------------------------- word loop

  /** A run: the document in memory, what is left of the two oracles, the
      trace, the last document written, `words_processed`, and whether an
      uncaught exception has ended the run. */
  datatype RunState = RunState(
    doc: Document,
    replies: seq<Reply>,
    saves: seq<bool>,
    trace: seq<Event>,
    disk: Option<Document>,
    processed: nat,
    raised: bool)

  /** `save_comprehensive_data`: the write consumes one outcome, and only
      a successful one changes the file; an error is logged and swallowed.
      The caller records the `Save` event. */
  function SaveDoc(st: RunState): (r: RunState)
    ensures r.doc == st.doc && r.replies == st.replies && r.processed == st.processed && r.raised == st.raised
    ensures r.trace == st.trace && r.saves == WordList.RestSaves(st.saves)
    ensures r.disk == if WordList.NextSave(st.saves) then Some(st.doc) else st.disk
  {
    st.(saves := WordList.RestSaves(st.saves),
        disk := if WordList.NextSave(st.saves) then Some(st.doc) else st.disk)
  }

  /** `save_checkpoint(comprehensive_data, letter, word)`: the statistics
      are recomputed and the file written; when the recomputation raises,
      the handler at lines 389-391 catches it before the write, so the
      statistics and the file stay as they were. */
  function Checkpoint(st: RunState, key: string): (r: RunState)
    ensures r.replies == st.replies && r.processed == st.processed && r.trace == st.trace && r.raised == st.raised
    ensures Stamp(st.doc, key).Some? ==> r.doc == Stamp(st.doc, key).value && r.saves == WordList.RestSaves(st.saves)
    ensures Stamp(st.doc, key).Some? ==> r.disk == if WordList.NextSave(st.saves) then Some(r.doc) else st.disk
    ensures Stamp(st.doc, key).None? ==> r == st
  {
    match Stamp(st.doc, key)
    case Some(d) => SaveDoc(st.(doc := d))
    case None => st
  }

  /** The events of one attempted word: the retry loop's calls and waits,
      the checkpoint write when one was made, then the 1-second wait. */
  function WordEvents(w: string, delays: seq<nat>, written: bool, ok: bool): seq<Event> {
    AttemptEvents(w, delays) + (if written then [Save(ok)] else []) + [Pause(WordPause)]
  }

  /** Line 559: the record is stored under the word in the letter's map. */
  function Insert(doc: Document, key: string, w: string, rec: Json): (r: Document)
    ensures Contains(r, key)
    ensures EntryOf(r, key) == EntryOf(doc, key).(words := Put(EntryOf(doc, key).words, w, rec))
    ensures forall k :: k != key ==> Find(r, k) == Find(doc, k)
  {
    var e := EntryOf(doc, key);
    Put(doc, key, e.(words := Put(e.words, w, rec)))
  }

  /** Step `w` changes no other letter's entry. */
  lemma WordStepFrame(st: RunState, key: string, w: string, fetch: Fetcher, k: string)
    requires k != key
    ensures Find(WordStep(st, key, w, fetch).doc, k) == Find(st.doc, k)
  {
  }

  /** A record line 558 stores: a truthy fetch result. */
  predicate Stores(o: Outcome<Json>) {
    o.value.Some? && Truthy(o.value.value)
  }

  /** Whether the checkpoint after storing `rec` under `w` writes the file:
      it does unless recomputing the letter's statistics raises. */
  predicate Writes(doc: Document, key: string, w: string, rec: Json) {
    Stamp(Insert(doc, key, w, rec), key).Some?
  }

  /** Lines 545-572 for word `w` of letter `key`: a word already in the
      letter's map is skipped without a call or a wait; otherwise it is
      fetched, merged and checkpointed when the fetch succeeds, and the loop
      waits a second either way. */
  function WordStep(st: RunState, key: string, w: string, fetch: Fetcher): (r: RunState)
    ensures Contains(EntryOf(st.doc, key).words, w) ==> r == st
    ensures r.raised == st.raised
    ensures |r.trace| >= |st.trace| && r.trace[..|st.trace|] == st.trace
  {
    var e := EntryOf(st.doc, key);
    if Contains(e.words, w) then st
    else
      var o := fetch(st.replies);
      var fetched := st.(replies := Consume(st.replies, o.attempts));
      var r := if Stores(o) then
          Checkpoint(fetched.(doc := Insert(st.doc, key, w, o.value.value), processed := st.processed + 1), key)
        else fetched;
      var written := Stores(o) && Writes(st.doc, key, w, o.value.value);
      var events := WordEvents(w, o.delays, written, WordList.NextSave(st.saves));
      assert (st.trace + events)[..|st.trace|] == st.trace;
      r.(trace := st.trace + events)
  }

  /** What an attempted word does: its calls, then a write when the fetch
      gave a record and its letter's statistics could be recomputed, then
      the wait. A record is added as the letter's last word; the statistics
      are recomputed over all its words, or, when that raises, left as they
      were with no write. A failed fetch changes no entry. */
  lemma WordStepOutcome(st: RunState, key: string, w: string, fetch: Fetcher)
    requires !Contains(EntryOf(st.doc, key).words, w)
    ensures var o := fetch(st.replies);
      var r := WordStep(st, key, w, fetch);
      var written := Stores(o) && Writes(st.doc, key, w, o.value.value);
      && r.replies == Consume(st.replies, o.attempts)
      && r.trace == st.trace + WordEvents(w, o.delays, written, WordList.NextSave(st.saves))
      && (Stores(o) ==>
            && EntryOf(r.doc, key).words == EntryOf(st.doc, key).words + [(w, o.value.value)]
            && r.processed == st.processed + 1
            && (written <==> AllCountable(EntryOf(r.doc, key).words)))
      && (written ==> Stamped(EntryOf(r.doc, key)) && r.saves == WordList.RestSaves(st.saves))
      && (Stores(o) && !written ==>
            && EntryOf(r.doc, key).statistics == EntryOf(st.doc, key).statistics
            && r.saves == st.saves && r.disk == st.disk)
      && (!Stores(o) ==> r.doc == st.doc && r.processed == st.processed && r.saves == st.saves)
  {
    var o := fetch(st.replies);
    if Stores(o) {
      var d := Insert(st.doc, key, w, o.value.value);
      assert EntryOf(d, key).words == EntryOf(st.doc, key).words + [(w, o.value.value)];
    }
  }

  /** Lines 545-572 from word `n` of `ws` on. */
  function WordsFrom(st: RunState, key: string, ws: seq<string>, n: nat, fetch: Fetcher): (r: RunState)
    requires n <= |ws|
    ensures r.raised == st.raised
    ensures |r.trace| >= |st.trace| && r.trace[..|st.trace|] == st.trace
    decreases |ws| - n
  {
    if n == |ws| then st
    else
      var next := WordStep(st, key, ws[n], fetch);
      var r := WordsFrom(next, key, ws, n + 1, fetch);
      assert r.trace[..|st.trace|] == r.trace[..|next.trace|][..|st.trace|];
      r
  }

  /** The word loop of one letter changes no other letter's entry. */
  lemma {:induction false} WordsFrame(st: RunState, key: string, ws: seq<string>, n: nat, fetch: Fetcher, k: string)
    requires n <= |ws| && k != key
    ensures Find(WordsFrom(st, key, ws, n, fetch).doc, k) == Find(st.doc, k)
    decreases |ws| - n
  {
    if n < |ws| {
      WordStepFrame(st, key, ws[n], fetch, k);
      WordsFrame(WordStep(st, key, ws[n], fetch), key, ws, n + 1, fetch, k);
    }
  }

  /** One step only appends: the words already there stay, in order, and a
      new word is the one visited. */
  lemma WordStepGrows(st: RunState, key: string, w: string, fetch: Fetcher)
    ensures var before := EntryOf(st.doc, key).words;
      var after := EntryOf(WordStep(st, key, w, fetch).doc, key).words;
      && |after| >= |before| && after[..|before|] == before
      && (forall m :: |before| <= m < |after| ==> after[m].0 == w)
      && WordStep(st, key, w, fetch).processed - st.processed == |after| - |before|
  {
    if !Contains(EntryOf(st.doc, key).words, w) {
      WordStepOutcome(st, key, w, fetch);
    }
  }

  /** Over the word loop the letter's map only grows; every word it gains
      is one of the visited words, and `words_processed` counts the gains. */
  lemma {:induction false} WordsGrow(st: RunState, key: string, ws: seq<string>, n: nat, fetch: Fetcher)
    requires n <= |ws|
    ensures var before := EntryOf(st.doc, key).words;
      var r := WordsFrom(st, key, ws, n, fetch);
      var after := EntryOf(r.doc, key).words;
      && |after| >= |before| && after[..|before|] == before
      && (forall m :: |before| <= m < |after| ==> after[m].0 in ws[n..])
      && r.processed - st.processed == |after| - |before|
    decreases |ws| - n
  {
    if n < |ws| {
      var next := WordStep(st, key, ws[n], fetch);
      WordStepGrows(st, key, ws[n], fetch);
      WordsGrow(next, key, ws, n + 1, fetch);
      GrowChain(EntryOf(st.doc, key).words, EntryOf(next.doc, key).words,
                EntryOf(WordsFrom(next, key, ws, n + 1, fetch).doc, key).words, ws, n);
    }
  }

  /** Chaining the growth of one step with that of the rest of the loop. */
  lemma GrowChain(a: Members, b: Members, c: Members, ws: seq<string>, n: nat)
    requires n < |ws|
    requires |b| >= |a| && b[..|a|] == a && forall m :: |a| <= m < |b| ==> b[m].0 == ws[n]
    requires |c| >= |b| && c[..|b|] == b && forall m :: |b| <= m < |c| ==> c[m].0 in ws[n + 1..]
    ensures |c| >= |a| && c[..|a|] == a
    ensures forall m :: |a| <= m < |c| ==> c[m].0 in ws[n..]
  {
    assert c[..|a|] == c[..|b|][..|a|];
    forall m | |a| <= m < |c| ensures c[m].0 in ws[n..] {
      if m < |b| {
        assert c[m] == b[m];
        assert ws[n..][0] == ws[n];
      } else {
        var p :| p in ws[n + 1..] && p == c[m].0;
        assert ws[n + 1..] == ws[n..][1..];
      }
    }
  }

  /** A word the letter already has is never sent to the model. */
  lemma {:induction false} WordsSkipPresent(st: RunState, key: string, ws: seq<string>, n: nat, fetch: Fetcher, w: string)
    requires n <= |ws| && Contains(EntryOf(st.doc, key).words, w)
    ensures Call(w) !in WordsFrom(st, key, ws, n, fetch).trace[|st.trace|..]
    decreases |ws| - n
  {
    if n < |ws| {
      var next := WordStep(st, key, ws[n], fetch);
      StepKeepsWord(st, key, ws[n], fetch, w);
      WordsSkipPresent(next, key, ws, n + 1, fetch, w);
      WordList.SegmentSplit(st.trace, next.trace, WordsFrom(next, key, ws, n + 1, fetch).trace);
    }
  }

  /** A step keeps a present word present and makes no call for it. */
  lemma StepKeepsWord(st: RunState, key: string, v: string, fetch: Fetcher, w: string)
    requires Contains(EntryOf(st.doc, key).words, w)
    ensures Contains(EntryOf(WordStep(st, key, v, fetch).doc, key).words, w)
    ensures Call(w) !in WordStep(st, key, v, fetch).trace[|st.trace|..]
  {
    if !Contains(EntryOf(st.doc, key).words, v) {
      WordStepOutcome(st, key, v, fetch);
      WordStepGrows(st, key, v, fetch);
      var o := fetch(st.replies);
      var r := WordStep(st, key, v, fetch);
      var written := Stores(o) && Writes(st.doc, key, v, o.value.value);
      WordEventsCalls(v, o.delays, written, WordList.NextSave(st.saves), w);
      assert r.trace[|st.trace|..] == WordEvents(v, o.delays, written, WordList.NextSave(st.saves));
      PrefixKeeps(EntryOf(st.doc, key).words, EntryOf(r.doc, key).words, w);
    }
  }

  /** The only calls of an attempted word are for that word. */
  lemma WordEventsCalls(v: string, delays: seq<nat>, stored: bool, ok: bool, w: string)
    requires w != v
    ensures Call(w) !in WordEvents(v, delays, stored, ok)
  {
    var s := WordEvents(v, delays, stored, ok);
    var a := AttemptEvents(v, delays);
    forall m | 0 <= m < |s| ensures s[m] != Call(w) {
      if m < |a| {
        assert s[m] == a[m];
      }
    }
  }

  /** A map that extends another still has its keys. */
  lemma PrefixKeeps(before: Members, after: Members, w: string)
    requires |after| >= |before| && after[..|before|] == before && Contains(before, w)
    ensures Contains(after, w)
  {
    var i :| 0 <= i < |before| && before[i].0 == w;
    assert after[i] == before[i];
  }

  /** When the letter already has every visited word, the loop makes no
      call, no wait and no write. */
  lemma {:induction false} WordsIdle(st: RunState, key: string, ws: seq<string>, n: nat, fetch: Fetcher)
    requires n <= |ws|
    requires forall m :: n <= m < |ws| ==> Contains(EntryOf(st.doc, key).words, ws[m])
    ensures WordsFrom(st, key, ws, n, fetch) == st
    decreases |ws| - n
  {
    if n < |ws| {
      WordsIdle(st, key, ws, n + 1, fetch);
    }
  }

  // ---------------------------------------------------------------- write failures

  /** Two states that differ only in what the writes will do. */
  predicate SameButWrites(a: RunState, b: RunState) {
    a.doc == b.doc && a.replies == b.replies && a.processed == b.processed && a.raised == b.raised
  }

  /** A step's effect on the document does not depend on whether its write
      succeeds. */
  lemma StepIgnoresWrites(a: RunState, b: RunState, key: string, w: string, fetch: Fetcher)
    requires SameButWrites(a, b)
    ensures SameButWrites(WordStep(a, key, w, fetch), WordStep(b, key, w, fetch))
  {
  }

  /** Line 565 is followed by the next word whatever the write did: the
      documents, the replies used and the count of the whole word loop are
      the same for any two write outcome sequences. */
  lemma {:induction false} WordsIgnoreWrites(a: RunState, b: RunState, key: string, ws: seq<string>, n: nat, fetch: Fetcher)
    requires n <= |ws| && SameButWrites(a, b)
    ensures SameButWrites(WordsFrom(a, key, ws, n, fetch), WordsFrom(b, key, ws, n, fetch))
    decreases |ws| - n
  {
    if n < |ws| {
      StepIgnoresWrites(a, b, key, ws[n], fetch);
      WordsIgnoreWrites(WordStep(a, key, ws[n], fetch), WordStep(b, key, ws[n], fetch), key, ws, n + 1, fetch);
    }
  }

  // ---------------------------------------------------------------- letter loop

  /** Lines 524-530: a letter without an entry gets a fresh one at the end. */
  function EnsureEntry(doc: Document, key: string): (r: Document)
    ensures Contains(r, key)
    ensures Contains(doc, key) ==> r == doc
    ensures !Contains(doc, key) ==> r == doc + [(key, FreshEntry(key))]
  {
    if Contains(doc, key) then doc
    else
      var r := doc + [(key, FreshEntry(key))];
      assert r[|doc|].0 == key;
      r
  }

  /** Lines 518-587 for letter `i`: the entry is created if missing; with
      words in the word list they are visited and the statistics recomputed
      at the end, where a raise (line 575, outside any handler) ends the
      run; a words value that cannot be read as a dict raises before any
      word (lines 533-545); otherwise nothing more happens (lines 585-587
      never fire, the entry exists by then). */
  function LetterStep(st: RunState, i: nat, data: Json, fetch: Fetcher): (r: RunState)
    requires i < WordList.LetterCount && !st.raised
    ensures |r.trace| >= |st.trace| && r.trace[..|st.trace|] == st.trace
  {
    var key := WordList.LetterKey(i);
    var init := st.(doc := EnsureEntry(st.doc, key));
    match SourceWords(data, key)
    case NoVisit => init
    case VisitRaises =>
      assert (init.trace + [Raise])[..|st.trace|] == init.trace;
      init.(trace := init.trace + [Raise], raised := true)
    case Visit(ws) =>
      var r := WordsFrom(init, key, ws, 0, fetch);
      match Stamp(r.doc, key)
      case Some(d) => r.(doc := d)
      case None =>
        assert (r.trace + [Raise])[..|st.trace|] == r.trace[..|st.trace|];
        r.(trace := r.trace + [Raise], raised := true)
  }

  /** A letter step changes no other key's entry. */
  lemma LetterFrame(st: RunState, i: nat, data: Json, fetch: Fetcher, k: string)
    requires i < WordList.LetterCount && !st.raised && k != WordList.LetterKey(i)
    ensures Find(LetterStep(st, i, data, fetch).doc, k) == Find(st.doc, k)
  {
    var key := WordList.LetterKey(i);
    var init := st.(doc := EnsureEntry(st.doc, key));
    if !Contains(st.doc, key) {
      AppendFind(st.doc, key, FreshEntry(key), k);
    }
    match SourceWords(data, key)
    case Visit(ws) =>
      WordsFrame(init, key, ws, 0, fetch, k);
    case _ =>
  }

  /** Appending under a new key leaves every other key's lookup alone. */
  lemma AppendFind(doc: Document, key: string, e: Entry, k: string)
    requires !Contains(doc, key) && k != key
    ensures Find(doc + [(key, e)], k) == Find(doc, k)
  {
    assert doc + [(key, e)] == Put(doc, key, e);
  }

  /** After its step a letter has an entry. The step raises exactly when
      the letter's words cannot be read, or when it has words in the word
      list and its final words map holds a record the statistics cannot
      count, and then the raise is the last event; otherwise a letter with
      words in the word list has statistics computed from its whole words
      map. */
  lemma LetterDone(st: RunState, i: nat, data: Json, fetch: Fetcher)
    requires i < WordList.LetterCount && !st.raised
    ensures var r := LetterStep(st, i, data, fetch);
      var key := WordList.LetterKey(i);
      && Contains(r.doc, key)
      && (r.raised <==> SourceWords(data, key).VisitRaises?
                        || (SourceWords(data, key).Visit? && !AllCountable(EntryOf(r.doc, key).words)))
      && (r.raised ==> |r.trace| > 0 && WordList.LastEvent(r.trace) == Raise)
      && (SourceWords(data, key).Visit? && !r.raised ==> Stamped(EntryOf(r.doc, key)))
  {
    var key := WordList.LetterKey(i);
    var init := st.(doc := EnsureEntry(st.doc, key));
    match SourceWords(data, key)
    case Visit(ws) =>
      WordsKeepEntry(init, key, ws, 0, fetch);
    case _ =>
  }

  /** The word loop never removes the letter's entry. */
  lemma {:induction false} WordsKeepEntry(st: RunState, key: string, ws: seq<string>, n: nat, fetch: Fetcher)
    requires n <= |ws| && Contains(st.doc, key)
    ensures Contains(WordsFrom(st, key, ws, n, fetch).doc, key)
    decreases |ws| - n
  {
    if n < |ws| {
      StepKeepsEntry(st, key, ws[n], fetch);
      WordsKeepEntry(WordStep(st, key, ws[n], fetch), key, ws, n + 1, fetch);
    }
  }

  lemma StepKeepsEntry(st: RunState, key: string, w: string, fetch: Fetcher)
    requires Contains(st.doc, key)
    ensures Contains(WordStep(st, key, w, fetch).doc, key)
  {
  }

  /** Lines 518-587 from letter `i` on, until a raise ends the loop. */
  function LettersFrom(st: RunState, i: nat, data: Json, fetch: Fetcher): (r: RunState)
    requires i <= WordList.LetterCount
    ensures st.raised ==> r == st
    ensures |r.trace| >= |st.trace| && r.trace[..|st.trace|] == st.trace
    decreases WordList.LetterCount - i
  {
    if i == WordList.LetterCount || st.raised then st
    else
      var next := LetterStep(st, i, data, fetch);
      var r := LettersFrom(next, i + 1, data, fetch);
      assert r.trace[..|st.trace|] == r.trace[..|next.trace|][..|st.trace|];
      r
  }

  /** A letter loop that ends on a raise has the raise as its last event. */
  lemma {:induction false} LettersRaise(st: RunState, i: nat, data: Json, fetch: Fetcher)
    requires i <= WordList.LetterCount && !st.raised
    ensures var r := LettersFrom(st, i, data, fetch);
      r.raised ==> |r.trace| > 0 && WordList.LastEvent(r.trace) == Raise
    decreases WordList.LetterCount - i
  {
    if i < WordList.LetterCount {
      var next := LetterStep(st, i, data, fetch);
      LetterDone(st, i, data, fetch);
      if !next.raised {
        LettersRaise(next, i + 1, data, fetch);
      }
    }
  }

  /** The state the letter loop starts from. */
  function Initial(doc: Document, replies: seq<Reply>, saves: seq<bool>): (st: RunState)
    ensures st.doc == doc && st.trace == [] && st.disk.None? && st.processed == 0 && !st.raised
  {
    RunState(doc, replies, saves, [], None, 0, false)
  }

  /** `main()` from loading the two files to the final write (line 593): a
      read error other than a missing or malformed file, or a word list the
      counting pass (lines 503-506) cannot read, ends the run before any
      model call or write; a raise in the letter loop ends it before the
      final write; otherwise the final write is the last event. */
  function Generate(resume: bool, checkpoint: LoadResult, source: SourceResult,
                    replies: seq<Reply>, saves: seq<bool>, parse: string -> Option<Json>): (r: RunState)
    ensures |r.trace| > 0
    ensures r.raised ==> WordList.LastEvent(r.trace) == Raise
    ensures !r.raised ==> WordList.LastEvent(r.trace).Save?
    ensures SourceData(source).None? || StartDocument(resume, checkpoint).None? ==> r.raised && r.disk.None?
    ensures SourceData(source).Some? && CountFrom(SourceData(source).value, 0).None? ==>
      r.raised && r.trace == [Raise] && r.disk.None? && r.processed == 0
  {
    match (SourceData(source), StartDocument(resume, checkpoint))
    case (Some(data), Some(doc)) =>
      if CountFrom(data, 0).None? then Initial(doc, replies, saves).(trace := [Raise], raised := true)
      else
        var st := Initial(doc, replies, saves);
        var done := LettersFrom(st, 0, data, Fetch(parse));
        LettersRaise(st, 0, data, Fetch(parse));
        if done.raised then done
        else SaveDoc(done).(trace := done.trace + [Save(WordList.NextSave(done.saves))])
    case _ => RunState([], replies, saves, [Raise], None, 0, true)
  }

  /** A word-list file holding the number 5 stops the run in the counting
      pass (`"A" in 5`), before any model call or write. */
  lemma NumberWordList(replies: seq<Reply>, saves: seq<bool>, parse: string -> Option<Json>)
    ensures var r := Generate(false, FileMissing, SourceLoaded(Num(5)), replies, saves, parse);
      r.raised && r.trace == [Raise] && r.processed == 0 && r.disk.None?
  {
    assert !CountFrom(Num(5), 0).Some?;
  }

  /** The word list `{"A": {"words": ["x"]}}` passes the counting pass,
      whose `len` accepts a list, and stops the run at `words.items()` in
      letter A's turn, before any model call or write. */
  lemma ListWordsStop(replies: seq<Reply>, saves: seq<bool>, parse: string -> Option<Json>)
    ensures var r := Generate(false, FileMissing, SourceLoaded(Obj([("A", Obj([("words", Arr([Str("x")]))]))])), replies, saves, parse);
      r.raised && r.trace == [Raise] && r.processed == 0 && r.disk.None?
  {
    var data := Obj([("A", Obj([("words", Arr([Str("x")]))]))]);
    assert WordList.LetterKey(0) == "A";
    var st := Initial([], replies, saves);
    var next := LetterStep(st, 0, data, Fetch(parse));
    assert next.raised && next.trace == [Raise];
    assert LettersFrom(st, 0, data, Fetch(parse)) == next;
    OnlyA(data);
  }

  /** The counting pass reads a word list holding only letter A with a
      sized words value. */
  lemma OnlyA(data: Json)
    requires data == Obj([("A", Obj([("words", Arr([Str("x")]))]))])
    ensures CountFrom(data, 0).Some?
  {
    forall j | 0 <= j < WordList.LetterCount
      ensures !ListingOf(data, WordList.LetterKey(j)).ListRaises?
    {
      assert WordList.LetterKey(0) == "A";
      if j > 0 {
        assert WordList.LetterKey(j) != "A";
      }
    }
  }

  /** A key none of the remaining letters has keeps its entry. */
  lemma {:induction false} LettersFrame(st: RunState, i: nat, data: Json, fetch: Fetcher, k: string)
    requires i <= WordList.LetterCount
    requires forall j :: i <= j < WordList.LetterCount ==> k != WordList.LetterKey(j)
    ensures Find(LettersFrom(st, i, data, fetch).doc, k) == Find(st.doc, k)
    decreases WordList.LetterCount - i
  {
    if i < WordList.LetterCount && !st.raised {
      LetterFrame(st, i, data, fetch, k);
      LettersFrame(LetterStep(st, i, data, fetch), i + 1, data, fetch, k);
    }
  }

  /** Once the letter loop has passed letter `j`, its entry is final. */
  lemma LetterFinal(st: RunState, i: nat, data: Json, fetch: Fetcher, j: nat)
    requires i <= j < WordList.LetterCount
    ensures Find(LettersFrom(st, j + 1, data, fetch).doc, WordList.LetterKey(j)) == Find(st.doc, WordList.LetterKey(j))
  {
    WordList.LaterLetters(j);
    LettersFrame(st, j + 1, data, fetch, WordList.LetterKey(j));
  }

  /** When the loop does not end on a raise, every letter has an entry at
      the end, no letter's words were unreadable, and every letter with
      words in the word list has statistics that match its words. */
  lemma {:induction false} LettersComplete(st: RunState, i: nat, data: Json, fetch: Fetcher, j: nat)
    requires i <= j < WordList.LetterCount && !st.raised
    ensures var r := LettersFrom(st, i, data, fetch);
      !r.raised ==>
        && Contains(r.doc, WordList.LetterKey(j))
        && !SourceWords(data, WordList.LetterKey(j)).VisitRaises?
        && (SourceWords(data, WordList.LetterKey(j)).Visit? ==> Stamped(EntryOf(r.doc, WordList.LetterKey(j))))
    decreases WordList.LetterCount - i
  {
    var next := LetterStep(st, i, data, fetch);
    assert LettersFrom(st, i, data, fetch) == LettersFrom(next, i + 1, data, fetch);
    if !next.raised {
      if i == j {
        LetterDone(st, i, data, fetch);
        LetterFinal(next, i, data, fetch, j);
      } else {
        LettersComplete(next, i + 1, data, fetch, j);
      }
    }
  }

  /** The letter loop's effect on the document does not depend on the
      write outcomes. */
  lemma {:induction false} LettersIgnoreWrites(a: RunState, b: RunState, i: nat, data: Json, fetch: Fetcher)
    requires i <= WordList.LetterCount && SameButWrites(a, b)
    ensures SameButWrites(LettersFrom(a, i, data, fetch), LettersFrom(b, i, data, fetch))
    decreases WordList.LetterCount - i
  {
    if i < WordList.LetterCount && !a.raised {
      LetterIgnoresWrites(a, b, i, data, fetch);
      LettersIgnoreWrites(LetterStep(a, i, data, fetch), LetterStep(b, i, data, fetch), i + 1, data, fetch);
    }
  }

  lemma LetterIgnoresWrites(a: RunState, b: RunState, i: nat, data: Json, fetch: Fetcher)
    requires i < WordList.LetterCount && SameButWrites(a, b) && !a.raised
    ensures SameButWrites(LetterStep(a, i, data, fetch), LetterStep(b, i, data, fetch))
  {
    var key := WordList.LetterKey(i);
    match SourceWords(data, key)
    case Visit(ws) =>
      WordsIgnoreWrites(a.(doc := EnsureEntry(a.doc, key)), b.(doc := EnsureEntry(b.doc, key)), key, ws, 0, fetch);
    case _ =>
  }

  /** Every write failing yields the same dictionary as every write
      succeeding: a failed write never stops or changes the run. */
  lemma GenerateIgnoresWrites(resume: bool, checkpoint: LoadResult, source: SourceResult,
                              replies: seq<Reply>, saves1: seq<bool>, saves2: seq<bool>,
                              parse: string -> Option<Json>)
    ensures Generate(resume, checkpoint, source, replies, saves1, parse).doc
         == Generate(resume, checkpoint, source, replies, saves2, parse).doc
    ensures Generate(resume, checkpoint, source, replies, saves1, parse).processed
         == Generate(resume, checkpoint, source, replies, saves2, parse).processed
    ensures Generate(resume, checkpoint, source, replies, saves1, parse).raised
         == Generate(resume, checkpoint, source, replies, saves2, parse).raised
  {
    match (SourceData(source), StartDocument(resume, checkpoint))
    case (Some(data), Some(doc)) =>
      if CountFrom(data, 0).Some? {
        LettersIgnoreWrites(Initial(doc, replies, saves1), Initial(doc, replies, saves2), 0, data, Fetch(parse));
      }
    case _ =>
  }

  /** Unless the run raises, the word list passed the counting pass, every
      letter A-Z has an entry in the final dictionary, no letter's words
      were unreadable, and a letter the word list had words for has
      statistics matching its words. */
  lemma GenerateComplete(resume: bool, checkpoint: LoadResult, source: SourceResult,
                         replies: seq<Reply>, saves: seq<bool>, parse: string -> Option<Json>, j: nat)
    requires j < WordList.LetterCount
    ensures var r := Generate(resume, checkpoint, source, replies, saves, parse);
      !r.raised ==>
        && SourceData(source).Some?
        && CountFrom(SourceData(source).value, 0).Some?
        && Contains(r.doc, WordList.LetterKey(j))
        && !SourceWords(SourceData(source).value, WordList.LetterKey(j)).VisitRaises?
        && (SourceWords(SourceData(source).value, WordList.LetterKey(j)).Visit? ==> Stamped(EntryOf(r.doc, WordList.LetterKey(j))))
  {
    match (SourceData(source), StartDocument(resume, checkpoint))
    case (Some(data), Some(doc)) =>
      if CountFrom(data, 0).Some? {
        LettersComplete(Initial(doc, replies, saves), 0, data, Fetch(parse), j);
      }
    case _ =>
  }
}
