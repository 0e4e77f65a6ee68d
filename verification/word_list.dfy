/** The word-list generator (`01_01_generate_word_list.py`): one model call
    per letter A-Z, each returning a batch of words with their records,
    checkpointed after every letter. The model call is an oracle of replies,
    the checkpoint write an oracle of save outcomes, and the waits a trace. */
module WordList {
  import opened Assoc
  import opened Json
  import opened Text
  import opened Statistics
  import opened Retry

  const MaxRetries: nat := 3
  const BaseDelay: nat := 2
  const LetterPause: nat := 2
  const LetterCount: nat := 26

  /** The key of the `i`-th letter of `string.ascii_uppercase`. */
  function LetterKey(i: nat): (k: string)
    requires i < LetterCount
    ensures |k| == 1 && 'A' <= k[0] <= 'Z'
  {
    [(65 + i) as char]
  }

  lemma LetterKeysDistinct(i: nat, j: nat)
    requires i < LetterCount && j < LetterCount && i != j
    ensures LetterKey(i) != LetterKey(j)
  {
    assert LetterKey(i)[0] != LetterKey(j)[0];
  }

  // ---------------------------------------------------------------- validation

  /** A word whose complexity is missing or not one of the two valid tags. */
  predicate NeedsFix(info: Json) {
    !Has(info, "complexity") || !IsValidComplexity(Get(info, "complexity").value)
  }

  /** `word_info["complexity"] = "Intermediate"` when the tag needs fixing. */
  function FixRecord(info: Json): (r: Json)
    requires info.Obj?
    ensures r.Obj?
    ensures Has(r, "complexity") && IsValidComplexity(Get(r, "complexity").value)
    ensures !NeedsFix(info) ==> r == info
    ensures NeedsFix(info) ==> Get(r, "complexity") == Some(Str(Intermediate))
    ensures forall k :: k != "complexity" ==> Get(r, k) == Get(info, k)
  {
    if NeedsFix(info) then Obj(Put(info.members, "complexity", Str(Intermediate))) else info
  }

  predicate AllObjects(words: Members) {
    forall i :: 0 <= i < |words| ==> words[i].1.Obj?
  }

  /** A validated batch and the number of complexity tags that were replaced. */
  datatype Batch = Batch(words: Members, complexityFixes: nat)

  function FixFlags(words: Members): (r: seq<bool>)
    ensures |r| == |words|
    ensures forall i :: 0 <= i < |words| ==> r[i] == NeedsFix(words[i].1)
  {
    seq(|words|, i requires 0 <= i < |words| => NeedsFix(words[i].1))
  }

  /** The complexity-fixing loop over the parsed words: each record fixed in
      place, and the fixes counted. */
  function FixAll(words: Members): (r: Batch)
    requires AllObjects(words)
    ensures |r.words| == |words|
    ensures forall i :: 0 <= i < |words| ==> r.words[i] == (words[i].0, FixRecord(words[i].1))
  {
    Batch(seq(|words|, i requires 0 <= i < |words| => (words[i].0, FixRecord(words[i].1))), CountFixes(words))
  }

  /** `complexity_fixes`, incremented once per word whose tag is replaced. */
  function CountFixes(words: Members): nat
    decreases |words|
  {
    if |words| == 0 then 0
    else CountFixes(words[..|words| - 1]) + (if NeedsFix(words[|words| - 1].1) then 1 else 0)
  }

  /** The reported number of fixes is the number of words whose tag needed fixing. */
  lemma {:induction false} FixCount(words: Members)
    ensures CountFixes(words) == multiset(FixFlags(words))[true]
    decreases |words|
  {
    if |words| > 0 {
      FixFlagsSnoc(words);
      FixCount(words[..|words| - 1]);
    }
  }

  lemma FixFlagsSnoc(words: Members)
    requires |words| > 0
    ensures FixFlags(words) == FixFlags(words[..|words| - 1]) + [NeedsFix(words[|words| - 1].1)]
  {
  }

  /** The checks after `json.loads`: anything but an object raises
      `ValueError`, and an entry that is not an object raises `TypeError` when
      its complexity is read or set; both send the call into the retry path. */
  function ValidateBatch(j: Json): (r: Option<Batch>)
    ensures r.Some? <==> j.Obj? && AllObjects(j.members)
    ensures r.Some? ==> r.value == FixAll(j.members)
  {
    if j.Obj? && AllObjects(j.members) then Some(FixAll(j.members)) else None
  }

  /** One reply, cleaned, parsed by `parse` (`json.loads`), then validated. */
  function DecodeBatch(parse: string -> Option<Json>, text: string): Option<Batch> {
    match parse(CleanReply(text))
    case None => None
    case Some(j) => ValidateBatch(j)
  }

  /** `get_words_for_alphabet_with_retry(letter, logger)`. */
  function FetchLetter(replies: seq<Reply>, parse: string -> Option<Json>): (o: Outcome<Batch>)
    ensures 1 <= o.attempts <= MaxRetries + 1 && |o.delays| == o.attempts - 1
  {
    Retry.Run(replies, MaxRetries, BaseDelay, (t: string) => DecodeBatch(parse, t))
  }

  /** The fetch the main loop runs for a letter, given the replies still to
      come. The loop only relies on a fetch making at most `MaxRetries + 1`
      attempts; `Generate` passes `FetchLetter`. */
  type Fetcher = seq<Reply> -> Outcome<Batch>

  ghost predicate Bounded(fetch: Fetcher) {
    forall rs :: |fetch(rs).delays| <= MaxRetries
  }

  // ---------------------------------------------------------------- document

  /** One letter's entry in the output file. */
  datatype Bucket = Bucket(letter: string, description: string, words: Members, statistics: Stats)

  /** A letter's entry as read back from disk, where "statistics" may be missing. */
  datatype StoredBucket = StoredBucket(letter: string, description: string, words: Members, statistics: Option<Stats>)

  type Document = seq<(string, Bucket)>

  /** What reading the existing output file gave. */
  datatype LoadResult = FileMissing | Unreadable | Loaded(entries: seq<(string, StoredBucket)>)

  /** A bucket whose statistics are the ones its words give. */
  predicate Consistent(b: Bucket) {
    WordStatistics(b.words) == Some(b.statistics)
  }

  /** Every letter's statistics match its words. */
  ghost predicate AllConsistent(doc: Document) {
    forall k :: Find(doc, k).Some? ==> Consistent(Find(doc, k).value)
  }

  /** Lines 328-334: a loaded entry without statistics gets them computed
      from its own words; `None` when that computation raises. */
  function CompleteBucket(b: StoredBucket): (r: Option<Bucket>)
    ensures r.None? <==> b.statistics.None? && WordStatistics(b.words).None?
    ensures r.Some? ==> r.value.letter == b.letter && r.value.description == b.description && r.value.words == b.words
    ensures b.statistics.Some? ==> r == Some(Bucket(b.letter, b.description, b.words, b.statistics.value))
    ensures b.statistics.None? && r.Some? ==> Consistent(r.value)
  {
    if b.statistics.Some? then Some(Bucket(b.letter, b.description, b.words, b.statistics.value))
    else match WordStatistics(b.words)
      case Some(stats) => Some(Bucket(b.letter, b.description, b.words, stats))
      case None => None
  }

  /** Every loaded entry has statistics or gets them without raising. */
  predicate AllComplete(entries: seq<(string, StoredBucket)>) {
    forall i :: 0 <= i < |entries| ==> CompleteBucket(entries[i].1).Some?
  }

  /** Loading the existing output file (lines 319-349): a missing or
      unreadable file starts the run from an empty document, and so does a
      file on which completing an entry's statistics raises, since the
      handler at lines 346-349 catches every exception of the block. */
  function LoadDocument(f: LoadResult): (doc: Document)
    ensures !f.Loaded? ==> doc == []
    ensures f.Loaded? && !AllComplete(f.entries) ==> doc == []
    ensures f.Loaded? && AllComplete(f.entries) ==> |doc| == |f.entries|
    ensures f.Loaded? && AllComplete(f.entries) ==> forall i :: 0 <= i < |doc| ==>
      Some(doc[i].1) == CompleteBucket(f.entries[i].1) && doc[i].0 == f.entries[i].0
  {
    match f
    case Loaded(entries) =>
      if AllComplete(entries) then
        seq(|entries|, i requires 0 <= i < |entries| => (entries[i].0, CompleteBucket(entries[i].1).value))
      else []
    case _ => []
  }

  /** The entry a fresh letter gets. */
  function FreshBucket(key: string): (b: Bucket)
    ensures b.words == [] && b.statistics.totalWords == 0 && Consistent(b)
  {
    Bucket(key, "Words starting with letter " + key, [], Stats(0, [], [], []))
  }

  predicate AllLetters(doc: Document) {
    forall i :: 0 <= i < LetterCount ==> Contains(doc, LetterKey(i))
  }

  /** Lines 352-364 from letter `i` on: a letter without an entry gets a
      fresh one at the end. */
  function InitFrom(doc: Document, i: nat): (r: Document)
    requires i <= LetterCount
    ensures |r| >= |doc| && r[..|doc|] == doc
    decreases LetterCount - i
  {
    if i == LetterCount then doc
    else
      var key := LetterKey(i);
      if Contains(doc, key) then InitFrom(doc, i + 1)
      else
        var next := doc + [(key, FreshBucket(key))];
        var r := InitFrom(next, i + 1);
        assert r[..|doc|] == next[..|doc|];
        r
  }

  /** Entries already present keep their contents. */
  lemma {:induction false} InitKeeps(doc: Document, i: nat)
    requires i <= LetterCount
    ensures forall k :: Contains(doc, k) ==> Find(InitFrom(doc, i), k) == Find(doc, k)
    decreases LetterCount - i
  {
    if i < LetterCount {
      var key := LetterKey(i);
      if Contains(doc, key) {
        InitKeeps(doc, i + 1);
      } else {
        Append(doc, key, FreshBucket(key));
        InitKeeps(doc + [(key, FreshBucket(key))], i + 1);
      }
    }
  }

  /** Every letter from `i` on has an entry in `r`, a fresh one when it had
      none in `doc`. */
  ghost predicate Covers(doc: Document, r: Document, i: nat) {
    forall j :: i <= j < LetterCount ==>
      && Contains(r, LetterKey(j))
      && (!Contains(doc, LetterKey(j)) ==> Find(r, LetterKey(j)) == Some(FreshBucket(LetterKey(j))))
  }

  /** Every letter from `i` on has an entry afterwards, a fresh one when it had none. */
  lemma InitCovers(doc: Document, i: nat)
    requires i <= LetterCount
    ensures forall j :: i <= j < LetterCount ==> Contains(InitFrom(doc, i), LetterKey(j))
    ensures forall j :: i <= j < LetterCount && !Contains(doc, LetterKey(j)) ==>
      Find(InitFrom(doc, i), LetterKey(j)) == Some(FreshBucket(LetterKey(j)))
  {
    InitCoversFrom(doc, i);
  }

  lemma {:induction false} InitCoversFrom(doc: Document, i: nat)
    requires i <= LetterCount
    ensures Covers(doc, InitFrom(doc, i), i)
    decreases LetterCount - i
  {
    if i < LetterCount {
      var key := LetterKey(i);
      if Contains(doc, key) {
        InitCoversFrom(doc, i + 1);
        InitKeeps(doc, i + 1);
        CoversPresent(doc, InitFrom(doc, i), i);
      } else {
        var next := doc + [(key, FreshBucket(key))];
        Append(doc, key, FreshBucket(key));
        InitCoversFrom(next, i + 1);
        InitKeeps(next, i + 1);
        CoversFresh(doc, InitFrom(doc, i), i);
      }
    }
  }

  lemma CoversPresent(doc: Document, r: Document, i: nat)
    requires i < LetterCount && Contains(doc, LetterKey(i))
    requires Covers(doc, r, i + 1) && Contains(r, LetterKey(i))
    ensures Covers(doc, r, i)
  {
  }

  lemma CoversFresh(doc: Document, r: Document, i: nat)
    requires i < LetterCount && !Contains(doc, LetterKey(i))
    requires Covers(doc + [(LetterKey(i), FreshBucket(LetterKey(i)))], r, i + 1)
    requires Find(r, LetterKey(i)) == Some(FreshBucket(LetterKey(i)))
    ensures Covers(doc, r, i)
  {
    var key := LetterKey(i);
    Append(doc, key, FreshBucket(key));
    LaterKeysDiffer(i);
  }

  lemma LaterKeysDiffer(i: nat)
    requires i < LetterCount
    ensures forall j :: i < j < LetterCount ==> LetterKey(j) != LetterKey(i)
  {
    forall j | i < j < LetterCount ensures LetterKey(j) != LetterKey(i) {
      LetterKeysDistinct(i, j);
    }
  }

  /** Adding an entry under a new key. */
  lemma Append(doc: Document, key: string, b: Bucket)
    requires !Contains(doc, key)
    ensures (doc + [(key, b)])[..|doc|] == doc
    ensures Find(doc + [(key, b)], key) == Some(b)
    ensures forall k :: k != key ==> Find(doc + [(key, b)], k) == Find(doc, k)
    ensures forall k :: Contains(doc + [(key, b)], k) <==> Contains(doc, k) || k == key
  {
    var r := Put(doc, key, b);
    assert r == doc + [(key, b)];
    forall k ensures Contains(r, k) <==> Contains(doc, k) || k == key {
      if k != key {
        assert Find(r, k) == Find(doc, k);
      }
    }
  }

  /** Lines 352-369: after initialisation every letter A-Z has an entry;
      the loaded entries keep their place and contents, and the new ones are
      fresh. (Lines 365-369 never fire: every loaded entry already has
      statistics after lines 328-334.) */
  function InitBuckets(doc: Document): (r: Document)
    ensures AllLetters(r)
    ensures |r| >= |doc| && r[..|doc|] == doc
    ensures forall k :: Contains(doc, k) ==> Find(r, k) == Find(doc, k)
    ensures forall j :: 0 <= j < LetterCount && !Contains(doc, LetterKey(j)) ==>
      Find(r, LetterKey(j)) == Some(FreshBucket(LetterKey(j)))
  {
    InitKeeps(doc, 0);
    InitCovers(doc, 0);
    InitFrom(doc, 0)
  }


  // ---------------------------------------------------------------- main loop

  /** The state of a run: the in-memory document, what is left of the two
      oracles, the trace of calls and waits, the document last written
      successfully in this run, and whether the run stopped on a failed write. */
  datatype RunState = RunState(
    doc: Document,
    replies: seq<Reply>,
    saves: seq<bool>,
    trace: seq<Event>,
    disk: Option<Document>,
    aborted: bool)

  /** A write's outcome; once the oracle runs out, writes fail. */
  function NextSave(saves: seq<bool>): bool {
    |saves| > 0 && saves[0]
  }

  function RestSaves(saves: seq<bool>): seq<bool> {
    if |saves| > 0 then saves[1..] else []
  }

  /** `all_words[letter]["statistics"]["total_words"]`. */
  function TotalWordsOf(doc: Document, key: string): nat {
    match Find(doc, key)
    case Some(b) => b.statistics.totalWords
    case None => 0
  }

  /** `all_words[letter]`. After `InitBuckets` every letter has an entry, so
      the fresh fallback is never taken in a run `Generate` starts. */
  function BucketOf(doc: Document, key: string): Bucket {
    match Find(doc, key)
    case Some(b) => b
    case None => FreshBucket(key)
  }

  /** The last document this run wrote is the one in memory. */
  predicate Synced(st: RunState) {
    st.disk.Some? ==> st.disk.value == st.doc
  }

  /** The wait after letter `i`: 2 seconds, except after the last letter. */
  function LetterWait(i: nat): seq<Event> {
    if i < LetterCount - 1 then [Pause(LetterPause)] else []
  }

  /** How an attempted letter's turn ends: nothing was stored, computing the
      statistics of the stored batch raised, or the checkpoint was written
      with the given outcome. */
  datatype Close = NotStored | Raised | Written(ok: bool)

  /** Whether the turn ends the run: an uncaught exception or a failed write. */
  predicate Stops(c: Close) {
    c == Raised || c == Written(false)
  }

  /** The events after a letter's model calls: the wait after a letter with
      nothing stored; the exception that ends the run; or the write of a
      stored batch, then the wait, which a failed write skips. */
  function Closing(c: Close, i: nat): seq<Event> {
    match c
    case NotStored => LetterWait(i)
    case Raised => [Raise]
    case Written(ok) => if ok then [Save(true)] + LetterWait(i) else [Save(false)]
  }

  /** A letter's events hold a successful write exactly when its turn
      ended with one: the retry loop only calls and waits. */
  lemma WroteOf(key: string, delays: seq<nat>, c: Close, i: nat)
    ensures Save(true) in AttemptEvents(key, delays) + Closing(c, i) <==> c == Written(true)
  {
    var events := AttemptEvents(key, delays);
    assert Save(true) !in events;
    assert Save(true) !in LetterWait(i);
    if c == Written(true) {
      assert (events + Closing(c, i))[|events|] == Save(true);
    }
  }

  /** The last event of a trace. */
  function LastEvent(t: seq<Event>): Event
    requires |t| > 0
  {
    t[|t| - 1]
  }

  /** The events one attempted letter adds to the trace: its calls first,
      no call for another letter, and the ending the closing branch gives. */
  predicate LetterEvents(s: seq<Event>, key: string, i: nat, aborted: bool) {
    && |s| > 0 && s[0] == Call(key)
    && (forall m :: 0 <= m < |s| ==> !s[m].Call? || s[m] == Call(key))
    && (aborted ==> LastEvent(s) == Save(false) || LastEvent(s) == Raise)
    && (!aborted && i < LetterCount - 1 ==> LastEvent(s) == Pause(LetterPause))
    && (i == LetterCount - 1 ==> forall m :: 0 <= m < |s| ==> !s[m].Pause?)
  }

  /** The retry loop's calls and backoffs followed by the closing events
      make a letter's events, with one call per attempt. */
  lemma LetterEventsOf(key: string, delays: seq<nat>, c: Close, i: nat)
    ensures LetterEvents(AttemptEvents(key, delays) + Closing(c, i), key, i, Stops(c))
    ensures CallCount(AttemptEvents(key, delays) + Closing(c, i), key) == |delays| + 1
  {
    var events := AttemptEvents(key, delays);
    var tail := Closing(c, i);
    var s := events + tail;
    assert forall m :: 0 <= m < |tail| ==> tail[m].Save? || tail[m].Pause? || tail[m].Raise?;
    assert forall m :: |events| <= m < |s| ==> s[m] == tail[m - |events|];
    CallCountNone(tail, key);
    CallCountAppend(events, tail, key);
  }

  /** Lines 421-424: the wait after a letter whose fetch gave nothing. */
  function PauseAfter(st: RunState, i: nat): (r: RunState)
    ensures r.doc == st.doc && r.replies == st.replies && r.saves == st.saves
    ensures r.disk == st.disk && r.aborted == st.aborted
    ensures r.trace == st.trace + Closing(NotStored, i)
  {
    st.(trace := st.trace + LetterWait(i))
  }

  /** Line 393 raising: the exception leaves `main()`, so the run ends
      before the write and before the wait. The document is kept as it was
      before the letter, since the words the script had just assigned in
      memory go with the process. */
  function RaiseOut(st: RunState): (r: RunState)
    ensures r.doc == st.doc && r.replies == st.replies && r.saves == st.saves && r.disk == st.disk
    ensures r.aborted && r.trace == st.trace + Closing(Raised, 0)
  {
    st.(trace := st.trace + [Raise], aborted := true)
  }

  /** Lines 406-424 after a stored batch: the checkpoint write, then the
      wait; a failed write stops the run before the wait. */
  function Write(st: RunState, i: nat): (r: RunState)
    requires !st.aborted
    ensures r.doc == st.doc && r.replies == st.replies && r.saves == RestSaves(st.saves)
    ensures r.aborted <==> !NextSave(st.saves)
    ensures r.trace == st.trace + Closing(Written(NextSave(st.saves)), i)
    ensures r.aborted ==> r.disk == st.disk
    ensures !r.aborted ==> r.disk == Some(r.doc)
  {
    var ok := NextSave(st.saves);
    var saved := st.(saves := RestSaves(st.saves), trace := st.trace + [Save(ok)],
                     disk := if ok then Some(st.doc) else st.disk);
    if ok then
      assert saved.trace + LetterWait(i) == st.trace + Closing(Written(true), i);
      saved.(trace := saved.trace + LetterWait(i))
    else saved.(aborted := true)
  }

  /** The batch a fetch stores: a non-empty one (an empty `{}` is falsy). */
  predicate Stores(o: Outcome<Batch>) {
    o.value.Some? && |o.value.value.words| > 0
  }

  /** A stored batch on which computing the statistics raises. */
  predicate StoreRaises(o: Outcome<Batch>) {
    Stores(o) && WordStatistics(o.value.value.words).None?
  }

  /** How the turn of a letter whose fetch gave `o` ends. */
  function CloseOf(o: Outcome<Batch>, saves: seq<bool>): Close {
    if !Stores(o) then NotStored
    else if StoreRaises(o) then Raised
    else Written(NextSave(saves))
  }

  /** Lines 385-424 for a letter without words: fetch with retries; store a
      non-empty batch as the letter's words with statistics computed from
      it and write the file; otherwise log the failure and wait. */
  function Attempt(st: RunState, i: nat, fetch: Fetcher): (r: RunState)
    requires i < LetterCount && !st.aborted
    ensures forall k :: k != LetterKey(i) ==> Find(r.doc, k) == Find(st.doc, k)
    ensures |r.trace| > |st.trace| && r.trace[..|st.trace|] == st.trace
    ensures LetterEvents(r.trace[|st.trace|..], LetterKey(i), i, r.aborted)
    ensures CallCount(r.trace[|st.trace|..], LetterKey(i)) == |fetch(st.replies).delays| + 1
    ensures Find(r.doc, LetterKey(i)) == Find(st.doc, LetterKey(i))
            || (Find(r.doc, LetterKey(i)).Some? && Consistent(Find(r.doc, LetterKey(i)).value))
    ensures r.aborted ==> r.disk == st.disk
    ensures !r.aborted ==> (r.disk == st.disk && r.doc == st.doc) || r.disk == Some(r.doc)
    ensures Save(true) in r.trace[|st.trace|..] ==> r.disk == Some(r.doc)
    ensures Save(true) !in r.trace[|st.trace|..] ==> r.disk == st.disk
  {
    var key := LetterKey(i);
    var o := fetch(st.replies);
    var events := AttemptEvents(key, o.delays);
    var fetched := st.(replies := Consume(st.replies, o.attempts), trace := st.trace + events);
    var c := CloseOf(o, st.saves);
    var r := if !Stores(o) then PauseAfter(fetched, i)
      else
        var words := o.value.value.words;
        match WordStatistics(words)
        case None => RaiseOut(fetched)
        case Some(stats) => Write(fetched.(doc := Put(st.doc, key, BucketOf(st.doc, key).(words := words, statistics := stats))), i);
    LetterEventsOf(key, o.delays, c, i);
    assert r.trace == (st.trace + events) + Closing(c, i);
    assert r.aborted == Stops(c);
    AppendSplit(st.trace, events, Closing(c, i));
    WroteOf(key, o.delays, c, i);
    r
  }

  /** What an attempt does with the fetched batch: a non-empty batch becomes
      the letter's words, with the letter's name and description kept, and
      takes one write; one whose statistics raise ends the run with no
      write and the document as it was; anything else leaves the document
      and the writes alone and the run goes on. */
  lemma AttemptOutcome(st: RunState, i: nat, fetch: Fetcher)
    requires i < LetterCount && !st.aborted
    ensures var o := fetch(st.replies);
      var r := Attempt(st, i, fetch);
      && r.replies == Consume(st.replies, o.attempts)
      && (Stores(o) && !StoreRaises(o) ==>
            && Find(r.doc, LetterKey(i)).Some?
            && Find(r.doc, LetterKey(i)).value.words == o.value.value.words
            && Find(r.doc, LetterKey(i)).value.letter == BucketOf(st.doc, LetterKey(i)).letter
            && Find(r.doc, LetterKey(i)).value.description == BucketOf(st.doc, LetterKey(i)).description
            && r.saves == RestSaves(st.saves)
            && (r.aborted <==> !NextSave(st.saves)))
      && (StoreRaises(o) ==>
            && r.doc == st.doc && r.saves == st.saves && r.disk == st.disk && r.aborted
            && LastEvent(r.trace) == Raise)
      && (!Stores(o) ==> r.doc == st.doc && r.saves == st.saves && !r.aborted)
  {
  }

  /** Lines 373-424 for letter `i`: a letter whose statistics show words is
      skipped without a call and without the wait. */
  function Step(st: RunState, i: nat, fetch: Fetcher): (r: RunState)
    requires i < LetterCount && !st.aborted
    ensures TotalWordsOf(st.doc, LetterKey(i)) > 0 ==> r == st
    ensures TotalWordsOf(st.doc, LetterKey(i)) == 0 ==> r == Attempt(st, i, fetch)
    ensures |r.trace| >= |st.trace| && r.trace[..|st.trace|] == st.trace
  {
    if TotalWordsOf(st.doc, LetterKey(i)) > 0 then st else Attempt(st, i, fetch)
  }

  /** Only letter `i`'s entry can change in step `i`. */
  lemma StepFrame(st: RunState, i: nat, fetch: Fetcher)
    requires i < LetterCount && !st.aborted
    ensures forall k :: k != LetterKey(i) ==> Find(Step(st, i, fetch).doc, k) == Find(st.doc, k)
    ensures Find(st.doc, LetterKey(i)).Some? ==> Find(Step(st, i, fetch).doc, LetterKey(i)).Some?
  {
  }

  /** The events of an attempted step. */
  lemma StepEvents(st: RunState, i: nat, fetch: Fetcher)
    requires i < LetterCount && !st.aborted
    requires TotalWordsOf(st.doc, LetterKey(i)) == 0
    ensures var r := Step(st, i, fetch);
      && |r.trace| > |st.trace|
      && LetterEvents(r.trace[|st.trace|..], LetterKey(i), i, r.aborted)
      && CallCount(r.trace[|st.trace|..], LetterKey(i)) == |fetch(st.replies).delays| + 1
  {
  }

  /** Step `i` calls the model for letter `i` only. */
  lemma StepNoCall(st: RunState, i: nat, fetch: Fetcher, k: string)
    requires i < LetterCount && !st.aborted && k != LetterKey(i)
    ensures Call(k) !in Step(st, i, fetch).trace[|st.trace|..]
  {
    if TotalWordsOf(st.doc, LetterKey(i)) == 0 {
      StepEvents(st, i, fetch);
    }
  }

  lemma StepConsistent(st: RunState, i: nat, fetch: Fetcher)
    requires i < LetterCount && !st.aborted && AllConsistent(st.doc)
    ensures AllConsistent(Step(st, i, fetch).doc)
  {
    StepFrame(st, i, fetch);
  }

  /** A step that does not stop the run leaves the written file equal to
      the document; one that stops it leaves the last written file, which
      differs from the document at most in letter `i`. */
  lemma StepSynced(st: RunState, i: nat, fetch: Fetcher)
    requires i < LetterCount && !st.aborted && Synced(st)
    ensures var r := Step(st, i, fetch);
      && (!r.aborted ==> Synced(r))
      && (r.aborted ==> r.disk == st.disk)
      && (r.aborted && r.disk.Some? ==>
            forall k :: k != LetterKey(i) ==> Find(r.doc, k) == Find(r.disk.value, k))
  {
    StepFrame(st, i, fetch);
  }

  /** Lines 373-424 from letter `i` on; a failed write ends the loop. */
  function RunFrom(st: RunState, i: nat, fetch: Fetcher): (r: RunState)
    requires i <= LetterCount
    ensures |r.trace| >= |st.trace| && r.trace[..|st.trace|] == st.trace
    decreases LetterCount - i
  {
    if i == LetterCount || st.aborted then st
    else
      var next := Step(st, i, fetch);
      var r := RunFrom(next, i + 1, fetch);
      assert r.trace[..|st.trace|] == r.trace[..|next.trace|][..|st.trace|];
      r
  }

  /** The run as the script starts it: the loaded document with every
      letter initialised, nothing written yet. */
  function Start(load: LoadResult, replies: seq<Reply>, saves: seq<bool>): (st: RunState)
    ensures AllLetters(st.doc) && st.trace == [] && st.disk.None? && !st.aborted
  {
    RunState(InitBuckets(LoadDocument(load)), replies, saves, [], None, false)
  }

  /** The fetch `main()` runs: the retry loop around the model call. */
  function Fetch(parse: string -> Option<Json>): (fetch: Fetcher)
    ensures Bounded(fetch)
  {
    rs => FetchLetter(rs, parse)
  }

  /** `main()` up to the final summary. */
  function Generate(load: LoadResult, replies: seq<Reply>, saves: seq<bool>,
                    parse: string -> Option<Json>): RunState
  {
    RunFrom(Start(load, replies, saves), 0, Fetch(parse))
  }

  // ---------------------------------------------------------------- properties of a run

  /** No entry is removed: every key keeps an entry for the whole run. */
  lemma {:induction false} RunKeepsKeys(st: RunState, i: nat, fetch: Fetcher, k: string)
    requires i <= LetterCount && Find(st.doc, k).Some?
    ensures Find(RunFrom(st, i, fetch).doc, k).Some?
    decreases LetterCount - i
  {
    if i < LetterCount && !st.aborted {
      StepKeepsKey(st, i, fetch, k);
      RunKeepsKeys(Step(st, i, fetch), i + 1, fetch, k);
    }
  }

  lemma StepKeepsKey(st: RunState, i: nat, fetch: Fetcher, k: string)
    requires i < LetterCount && !st.aborted && Find(st.doc, k).Some?
    ensures Find(Step(st, i, fetch).doc, k).Some?
  {
    StepFrame(st, i, fetch);
  }

  /** Statistics that match their words stay so for the whole run: every
      letter the run fills gets statistics computed from its new words. */
  lemma {:induction false} RunKeepsConsistent(st: RunState, i: nat, fetch: Fetcher)
    requires i <= LetterCount && AllConsistent(st.doc)
    ensures AllConsistent(RunFrom(st, i, fetch).doc)
    decreases LetterCount - i
  {
    if i < LetterCount && !st.aborted {
      StepConsistent(st, i, fetch);
      RunKeepsConsistent(Step(st, i, fetch), i + 1, fetch);
    }
  }

  /** A key none of the remaining letters has keeps its entry. */
  lemma {:induction false} RunFrame(st: RunState, i: nat, fetch: Fetcher, k: string)
    requires i <= LetterCount
    requires forall j :: i <= j < LetterCount ==> k != LetterKey(j)
    ensures Find(RunFrom(st, i, fetch).doc, k) == Find(st.doc, k)
    decreases LetterCount - i
  {
    if i < LetterCount && !st.aborted {
      StepFrame(st, i, fetch);
      RunFrame(Step(st, i, fetch), i + 1, fetch, k);
    }
  }

  /** A key none of the remaining letters has is never sent to the model. */
  lemma {:induction false} RunNoCall(st: RunState, i: nat, fetch: Fetcher, k: string)
    requires i <= LetterCount
    requires forall j :: i <= j < LetterCount ==> k != LetterKey(j)
    ensures Call(k) !in RunFrom(st, i, fetch).trace[|st.trace|..]
    decreases LetterCount - i
  {
    if i < LetterCount && !st.aborted {
      var next := Step(st, i, fetch);
      StepNoCall(st, i, fetch, k);
      RunNoCall(next, i + 1, fetch, k);
      SegmentSplit(st.trace, next.trace, RunFrom(next, i + 1, fetch).trace);
    }
  }

  /** The letters after `j`. */
  lemma LaterLetters(j: nat)
    requires j < LetterCount
    ensures forall m :: j + 1 <= m < LetterCount ==> LetterKey(j) != LetterKey(m)
  {
    forall m | j + 1 <= m < LetterCount ensures LetterKey(j) != LetterKey(m) {
      LetterKeysDistinct(j, m);
    }
  }

  /** A letter that already has words keeps its entry unchanged. */
  lemma {:induction false} RunKeepsCompleted(st: RunState, i: nat, fetch: Fetcher, j: nat)
    requires i <= j < LetterCount
    requires TotalWordsOf(st.doc, LetterKey(j)) > 0
    ensures Find(RunFrom(st, i, fetch).doc, LetterKey(j)) == Find(st.doc, LetterKey(j))
    decreases LetterCount - i
  {
    if i < LetterCount && !st.aborted {
      var next := Step(st, i, fetch);
      if i == j {
        LaterLetters(j);
        RunFrame(next, i + 1, fetch, LetterKey(j));
      } else {
        LetterKeysDistinct(i, j);
        StepFrame(st, i, fetch);
        RunKeepsCompleted(next, i + 1, fetch, j);
      }
    }
  }

  /** A letter that already has words is never sent to the model. */
  lemma {:induction false} RunSkipsCompleted(st: RunState, i: nat, fetch: Fetcher, j: nat)
    requires i <= j < LetterCount
    requires TotalWordsOf(st.doc, LetterKey(j)) > 0
    ensures Call(LetterKey(j)) !in RunFrom(st, i, fetch).trace[|st.trace|..]
    decreases LetterCount - i
  {
    if i < LetterCount && !st.aborted {
      if i == j {
        SkipHere(st, i, fetch);
      } else {
        var next := Step(st, i, fetch);
        SkipElsewhere(st, i, fetch, j);
        RunSkipsCompleted(next, i + 1, fetch, j);
        SegmentSplit(st.trace, next.trace, RunFrom(next, i + 1, fetch).trace);
      }
    }
  }

  /** A completed letter `i` is skipped in step `i`, and later steps do not call it. */
  lemma SkipHere(st: RunState, i: nat, fetch: Fetcher)
    requires i < LetterCount && !st.aborted
    requires TotalWordsOf(st.doc, LetterKey(i)) > 0
    ensures Call(LetterKey(i)) !in RunFrom(st, i, fetch).trace[|st.trace|..]
  {
    assert RunFrom(st, i, fetch) == RunFrom(st, i + 1, fetch);
    LaterLetters(i);
    RunNoCall(st, i + 1, fetch, LetterKey(i));
  }

  /** Another letter's step keeps a completed letter completed, without calling it. */
  lemma SkipElsewhere(st: RunState, i: nat, fetch: Fetcher, j: nat)
    requires i < LetterCount && j < LetterCount && i != j && !st.aborted
    requires TotalWordsOf(st.doc, LetterKey(j)) > 0
    ensures TotalWordsOf(Step(st, i, fetch).doc, LetterKey(j)) > 0
    ensures Call(LetterKey(j)) !in Step(st, i, fetch).trace[|st.trace|..]
  {
    LetterKeysDistinct(i, j);
    StepFrame(st, i, fetch);
    StepNoCall(st, i, fetch, LetterKey(j));
  }

  /** Two documents that agree on every key but one letter's. */
  ghost predicate AgreeButOneLetter(a: Document, b: Document) {
    exists j :: 0 <= j < LetterCount && forall k :: k != LetterKey(j) ==> Find(a, k) == Find(b, k)
  }

  /** While the run goes on, the file it last wrote is the document in
      memory; when a failed write stops it, the file it last wrote differs
      from the document in one letter at most, the one whose write failed. */
  lemma {:induction false} RunSynced(st: RunState, i: nat, fetch: Fetcher)
    requires i <= LetterCount && Synced(st) && !st.aborted
    ensures !RunFrom(st, i, fetch).aborted ==> Synced(RunFrom(st, i, fetch))
    ensures RunFrom(st, i, fetch).aborted && RunFrom(st, i, fetch).disk.Some? ==>
      AgreeButOneLetter(RunFrom(st, i, fetch).doc, RunFrom(st, i, fetch).disk.value)
    decreases LetterCount - i
  {
    if i < LetterCount {
      var next := Step(st, i, fetch);
      assert RunFrom(st, i, fetch) == RunFrom(next, i + 1, fetch);
      StepSynced(st, i, fetch);
      if next.aborted {
        assert RunFrom(next, i + 1, fetch) == next;
      } else {
        RunSynced(next, i + 1, fetch);
      }
    }
  }

  /** Whether a trace segment holds a successful write. */
  predicate Wrote(t: seq<Event>) {
    Save(true) in t
  }

  /** A turn either leaves the file and whether the trace holds a
      successful write as they were, or writes the document and logs it. */
  predicate WritesAs(st: RunState, r: RunState) {
    || (r.disk == st.disk && (Wrote(r.trace) <==> Wrote(st.trace)))
    || (r.disk.Some? && Wrote(r.trace))
  }

  lemma StepWrites(st: RunState, i: nat, fetch: Fetcher)
    requires i < LetterCount && !st.aborted
    ensures var r := Step(st, i, fetch);
      || (r.disk == st.disk && (Wrote(r.trace) <==> Wrote(st.trace)))
      || (r.disk == Some(r.doc) && Wrote(r.trace))
  {
    var r := Step(st, i, fetch);
    assert r.trace == st.trace + r.trace[|st.trace|..];
  }

  /** Over a run, the file changes only when some turn writes it. */
  lemma {:induction false} RunWrites(st: RunState, i: nat, fetch: Fetcher)
    requires i <= LetterCount && !st.aborted
    ensures WritesAs(st, RunFrom(st, i, fetch))
    decreases LetterCount - i
  {
    if i < LetterCount {
      var next := Step(st, i, fetch);
      assert RunFrom(st, i, fetch) == RunFrom(next, i + 1, fetch);
      StepWrites(st, i, fetch);
      if !next.aborted {
        RunWrites(next, i + 1, fetch);
      }
    }
  }

  /** A whole run writes the file iff its trace holds a successful write.
      A run that writes nothing leaves the file it loaded as it was, which
      can differ from the 26-letter document in memory, since there is no
      final write; a run that completes after a write leaves memory on disk. */
  lemma GenerateWrites(load: LoadResult, replies: seq<Reply>, saves: seq<bool>, parse: string -> Option<Json>)
    ensures var r := Generate(load, replies, saves, parse);
      && (r.disk.Some? <==> Wrote(r.trace))
      && (!r.aborted && Wrote(r.trace) ==> r.disk == Some(r.doc))
  {
    var st := Start(load, replies, saves);
    RunWrites(st, 0, Fetch(parse));
    RunSynced(st, 0, Fetch(parse));
  }

  /** A run that stops early stops right after a failed write or on an
      exception from the statistics of a stored batch. */
  lemma {:induction false} RunStopsEarly(st: RunState, i: nat, fetch: Fetcher)
    requires i <= LetterCount && !st.aborted
    ensures RunFrom(st, i, fetch).aborted ==>
      && |RunFrom(st, i, fetch).trace| > |st.trace|
      && (LastEvent(RunFrom(st, i, fetch).trace) == Save(false) || LastEvent(RunFrom(st, i, fetch).trace) == Raise)
    decreases LetterCount - i
  {
    if i < LetterCount {
      var next := Step(st, i, fetch);
      assert RunFrom(st, i, fetch) == RunFrom(next, i + 1, fetch);
      if next.aborted {
        assert RunFrom(next, i + 1, fetch) == next;
        StepEvents(st, i, fetch);
        var seg := next.trace[|st.trace|..];
        assert LastEvent(seg) == LastEvent(next.trace);
      } else {
        RunStopsEarly(next, i + 1, fetch);
      }
    }
  }

  /** When every remaining letter already has words, the run changes
      nothing: no call, no wait, no write. */
  lemma {:induction false} RunIdle(st: RunState, i: nat, fetch: Fetcher)
    requires i <= LetterCount
    requires forall j :: i <= j < LetterCount ==> TotalWordsOf(st.doc, LetterKey(j)) > 0
    ensures RunFrom(st, i, fetch) == st
    decreases LetterCount - i
  {
    if i < LetterCount && !st.aborted {
      RunIdle(Step(st, i, fetch), i + 1, fetch);
    }
  }

  /** Each letter is sent to the model at most `MaxRetries + 1` times. */
  lemma {:induction false} RunCallBound(st: RunState, i: nat, fetch: Fetcher, j: nat)
    requires i <= j < LetterCount && Bounded(fetch)
    ensures CallCount(RunFrom(st, i, fetch).trace[|st.trace|..], LetterKey(j)) <= MaxRetries + 1
    decreases LetterCount - i
  {
    var r := RunFrom(st, i, fetch);
    if st.aborted {
      CallCountNone(r.trace[|st.trace|..], LetterKey(j));
    } else if i == j {
      CallBoundHere(st, i, fetch);
    } else {
      var next := Step(st, i, fetch);
      CallsElsewhere(st, i, fetch, j);
      RunCallBound(next, i + 1, fetch, j);
      SplitCount(st.trace, next.trace, r.trace, LetterKey(j));
    }
  }

  /** The calls for letter `i` all happen in step `i`. */
  lemma CallBoundHere(st: RunState, i: nat, fetch: Fetcher)
    requires i < LetterCount && !st.aborted && Bounded(fetch)
    ensures CallCount(RunFrom(st, i, fetch).trace[|st.trace|..], LetterKey(i)) <= MaxRetries + 1
  {
    var next := Step(st, i, fetch);
    var r := RunFrom(next, i + 1, fetch);
    assert RunFrom(st, i, fetch) == r;
    CallsHere(st, i, fetch);
    NoLaterCalls(next, i, fetch);
    SplitCount(st.trace, next.trace, r.trace, LetterKey(i));
  }

  /** The letters after `i` make no call for letter `i`. */
  lemma NoLaterCalls(st: RunState, i: nat, fetch: Fetcher)
    requires i < LetterCount
    ensures CallCount(RunFrom(st, i + 1, fetch).trace[|st.trace|..], LetterKey(i)) == 0
  {
    LaterLetters(i);
    RunNoCall(st, i + 1, fetch, LetterKey(i));
    CallCountNone(RunFrom(st, i + 1, fetch).trace[|st.trace|..], LetterKey(i));
  }

  /** Step `i` makes at most `MaxRetries + 1` calls. */
  lemma CallsHere(st: RunState, i: nat, fetch: Fetcher)
    requires i < LetterCount && !st.aborted && Bounded(fetch)
    ensures CallCount(Step(st, i, fetch).trace[|st.trace|..], LetterKey(i)) <= MaxRetries + 1
  {
    if TotalWordsOf(st.doc, LetterKey(i)) == 0 {
      StepEvents(st, i, fetch);
    } else {
      CallCountNone(Step(st, i, fetch).trace[|st.trace|..], LetterKey(i));
    }
  }

  /** Step `i` makes no call for another letter. */
  lemma CallsElsewhere(st: RunState, i: nat, fetch: Fetcher, j: nat)
    requires i < LetterCount && j < LetterCount && i != j && !st.aborted
    ensures CallCount(Step(st, i, fetch).trace[|st.trace|..], LetterKey(j)) == 0
  {
    LetterKeysDistinct(i, j);
    StepNoCall(st, i, fetch, LetterKey(j));
    CallCountNone(Step(st, i, fetch).trace[|st.trace|..], LetterKey(j));
  }

  /** Counting calls over a trace extended twice. */
  lemma SplitCount(a: seq<Event>, b: seq<Event>, c: seq<Event>, key: string)
    requires |a| <= |b| <= |c| && b[..|a|] == a && c[..|b|] == b
    ensures CallCount(c[|a|..], key) == CallCount(b[|a|..], key) + CallCount(c[|b|..], key)
  {
    SegmentSplit(a, b, c);
    CallCountAppend(b[|a|..], c[|b|..], key);
  }

  lemma SegmentSplit(a: seq<Event>, b: seq<Event>, c: seq<Event>)
    requires |a| <= |b| <= |c| && b[..|a|] == a && c[..|b|] == b
    ensures c[|a|..] == b[|a|..] + c[|b|..]
  {
  }

  lemma AppendSplit(a: seq<Event>, b: seq<Event>, c: seq<Event>)
    ensures ((a + b) + c)[..|a|] == a
    ensures ((a + b) + c)[|a|..] == b + c
  {
    assert (a + b) + c == a + (b + c);
  }

  // ---------------------------------------------------------------- summary

  /** Lines 431-432: the number of entries whose statistics show words. */
  function CompletedLetters(doc: Document): nat
    decreases |doc|
  {
    if |doc| == 0 then 0
    else CompletedLetters(doc[..|doc| - 1]) + (if doc[|doc| - 1].1.statistics.totalWords > 0 then 1 else 0)
  }

  /** Lines 433-434: the sum of every entry's word count. */
  function TotalWordsGenerated(doc: Document): nat
    decreases |doc|
  {
    if |doc| == 0 then 0
    else TotalWordsGenerated(doc[..|doc| - 1]) + doc[|doc| - 1].1.statistics.totalWords
  }

  /** The two summary figures agree: no more completed letters than entries
      or than words, and no words exactly when no letter is completed. */
  lemma {:induction false} SummaryBounds(doc: Document)
    ensures CompletedLetters(doc) <= |doc|
    ensures CompletedLetters(doc) <= TotalWordsGenerated(doc)
    ensures CompletedLetters(doc) == 0 <==> TotalWordsGenerated(doc) == 0
    decreases |doc|
  {
    if |doc| > 0 {
      SummaryBounds(doc[..|doc| - 1]);
    }
  }
}
