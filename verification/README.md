# Vocabulary pipeline: a Dafny model

This project models the core of a five-stage vocabulary pipeline. The stages
build and check a dictionary of English words, one letter at a time.

- **Word-list generator** (`01_01_generate_word_list.py`). For each letter A–Z
  it asks a language model for a batch of words. Every batch is cleaned of
  markdown fences and parsed. Each record's `complexity` is forced into
  {Intermediate, Advanced}. Per-letter statistics are computed, and the whole
  document is checkpointed after each letter. A letter whose statistics
  already show words is skipped. A failed checkpoint write stops the run.
- **Census** (`01_02_comprehensive_word_analysis.py`). It counts the words of
  every capital letter and tallies word lengths and complexity values. It
  splits the alphabet at 90 words and ranks letters by count. It also
  produces the two tallies of the markdown table.
- **Detailed-dictionary generator** (`01_03_Detailed_Dictionary.py`). It walks
  every word of the word list and asks the model for a detailed record of
  each word not yet in the checkpoint. The record is normalised:
  - `complexity` is forced as above;
  - a falsy `phonetic_respelling` or `ssml_phoneme` becomes `""`.

  The record is merged, the letter's detailed statistics are recomputed, and
  the checkpoint is written after every word. Failed writes are swallowed.
- **Completeness monitor** (`01_04_Monitor_Detailed_Dictionary_Stats.py`). It
  turns each record into presence flags and totals. It counts present fields
  (verb forms only for verbs) and lists each incomplete word with its missing
  fields. It tallies letters, complexities and parts of speech.
- **Audio stage** (`01_05_Generate_Audio_Files.py`). It extracts the word,
  its first definition and its example, and builds the spoken text. Each
  clip has its own file name. For each of three voices it makes an example
  clip and a pronunciation clip, skipping files that exist. It counts
  successes, failures and skipped words. A word whose record raises while
  it is read counts as a failure.

Modelling choices:

- JSON values are a datatype, and JSON objects are association lists. A
  lookup returns the first binding. Writing an existing key keeps its
  position; writing a new key appends it, as Python's `dict` does.
- Everything outside the program is an oracle, passed in as a sequence: the
  model's replies, the speech service's answers, the outcome of each file
  write, and `json.loads` (a function parameter).
- Waits, calls and saves are recorded in a trace of events, so "no call is
  made" and "at most four attempts" are statements about the trace.
- An exhausted oracle answers as a failure.
- Where a script raises on a malformed shape, the model says so with an
  `Option` result or a `raised` flag. A raise the script catches becomes
  what its handler does: a failed word, a skipped write, an empty document.
  One that escapes ends the run at that point.

## Model

| member | source | states |
|---|---|---|
| Json.SizedTruthyHasLength | reference-docs/01_04_Monitor_Detailed_Dictionary_Stats.py:141-151 | For strings, lists and objects, Python truthiness is exactly "non-empty", which is what the monitor relies on when it adds `len(...)` of truthy fields |
| Assoc.Find | reference-docs/01_03_Detailed_Dictionary.py:547 | Looking up a key of a dict finds a value exactly when the key is present, and the value found is bound to that key |
| Assoc.Put | reference-docs/01_03_Detailed_Dictionary.py:558 | `d[k] = v` makes `k` map to `v` and changes no other key; an existing key keeps its place, a new key goes last |
| Histogram.Add | reference-docs/01_01_generate_word_list.py:97 | `h[k] = h.get(k, 0) + n` raises the count of `k` by `n`, leaves every other count, adds `n` to the total and keeps keys distinct; a new key goes last |
| Histogram.Bump | reference-docs/01_01_generate_word_list.py:101 | A single increment raises the one count by one and the total by one |
| Histogram.FromSeqCounts | reference-docs/01_01_generate_word_list.py:88-107 | Counting a sequence of keys gives each key its number of occurrences, the keys that occur and no others, and a total equal to the length |
| Histogram.BumpAllCounts | reference-docs/01_02_comprehensive_word_analysis.py:35-42 | Counting more keys into an existing tally adds their occurrences to each count |
| Text.StripLeft | reference-docs/01_01_generate_word_list.py:242 | `lstrip` removes a whitespace-only prefix and leaves a result that is empty or starts with a non-space |
| Text.StripRight | reference-docs/01_01_generate_word_list.py:242 | `rstrip` removes a whitespace-only suffix and leaves a result that is empty or ends with a non-space |
| Text.RemoveAllKeepsPrefix | reference-docs/01_01_generate_word_list.py:242 | A prefix that cannot contribute to a match of the pattern is kept unchanged by `replace` |
| Text.CleanUnfenced | reference-docs/01_01_generate_word_list.py:242 | A reply without backticks is only stripped of surrounding whitespace |
| Text.StripPadded | reference-docs/01_01_generate_word_list.py:242 | Stripping whitespace padding around a body whose ends are not spaces gives back the body |
| Text.CleanFencedPayload | reference-docs/01_03_Detailed_Dictionary.py:255 | A JSON payload wrapped in a ```` ```json ```` fence and whitespace is recovered exactly by the cleaning step |
| Retry.ConsumeShifts | reference-docs/01_01_generate_word_list.py:137 | After `n` attempts the next reply is the `n`-th of the original oracle |
| Retry.RetryFrom | reference-docs/01_01_generate_word_list.py:137-290 | From attempt `a`: every attempt before the last failed to decode, the value is the last attempt's decode, delays are `base * 2^attempt`, and failure means all `max_retries + 1` attempts were spent |
| Retry.Run | reference-docs/01_01_generate_word_list.py:137-290 | The whole retry loop: between 1 and `max_retries + 1` attempts, one backoff delay between consecutive attempts, the first decodable reply is returned, `None` only after the last attempt |
| Retry.AttemptEvents | reference-docs/01_01_generate_word_list.py:137-290 | The attempts of one key make `delays + 1` calls with a backoff between each pair, starting with a call |
| Retry.CallCountAppend | reference-docs/01_01_generate_word_list.py:137 | Calls made by consecutive stretches of a run add up |
| Statistics.CountedComplexity | reference-docs/01_01_generate_word_list.py:90-94 | The complexity a word is counted under is always Intermediate or Advanced |
| Statistics.WordStatistics | reference-docs/01_01_generate_word_list.py:74-118 | The statistics exist exactly when every record is a dict whose truthy `meanings` is a list of dicts with hashable parts of speech (otherwise the function raises); `total_words` is then the batch size, and an empty batch gives zero with three empty distributions |
| Statistics.ComplexityHistogram | reference-docs/01_01_generate_word_list.py:88-97 | The complexity distribution counts every word once, under its counted complexity, and has no key besides Intermediate and Advanced |
| Statistics.LengthHistogram | reference-docs/01_01_generate_word_list.py:99-101 | The length distribution counts each word once under the length of its name |
| Statistics.PartOfSpeechHistogram | reference-docs/01_01_generate_word_list.py:103-107 | The part-of-speech distribution counts every meaning of every word with a truthy `meanings` list under its `part_of_speech` (Unknown when absent), and every key it holds is hashable |
| Statistics.ComplexityCounts | reference-docs/01_01_generate_word_list.py:88-97 | Advanced counts exactly the records whose stored complexity is Advanced, and Intermediate counts all the others |
| Statistics.AdvancedTag | reference-docs/01_01_generate_word_list.py:90-94 | A word is counted Advanced exactly when its record stores Advanced |
| Statistics.AdvancedTags | reference-docs/01_01_generate_word_list.py:88-97 | Across a batch, the Advanced tags are the records storing Advanced |
| Statistics.TagsSplit | reference-docs/01_01_generate_word_list.py:90-97 | Every counted tag is one of the two classes, so the two counts add up to the batch |
| Statistics.PresenceStats | reference-docs/01_03_Detailed_Dictionary.py:41-51 | An empty batch reports the has/no counters as empty; otherwise has and no add up to the batch |
| Statistics.PresenceCounts | reference-docs/01_03_Detailed_Dictionary.py:83-105 | `has_X` counts the records whose field is truthy and `no_X` those whose field is missing or falsy |
| Statistics.DetailedStatistics | reference-docs/01_03_Detailed_Dictionary.py:30-119 | Detailed statistics exist exactly when the basic ones do and extend them; an empty batch gives the all-empty shape, and a non-empty one four presence counters each covering every word |
| WordList.LetterKeysDistinct | reference-docs/01_01_generate_word_list.py:352 | The 26 letters of `ascii_uppercase` are distinct keys |
| WordList.FixRecord | reference-docs/01_01_generate_word_list.py:252-257 | A record with a missing or invalid complexity gets Intermediate; a valid one is unchanged; no other field is touched |
| WordList.FixAll | reference-docs/01_01_generate_word_list.py:252-257 | Every word of a batch is kept, in order, with its record fixed |
| WordList.FixCount | reference-docs/01_01_generate_word_list.py:251-257 | `complexity_fixes` counts exactly the records that needed fixing |
| WordList.ValidateBatch | reference-docs/01_01_generate_word_list.py:248-257 | A parsed reply is accepted exactly when it is a dict of dicts, and then it is the fixed batch |
| WordList.FetchLetter | reference-docs/01_01_generate_word_list.py:137-290 | At most four attempts, with one backoff delay between consecutive ones |
| WordList.CompleteBucket | reference-docs/01_01_generate_word_list.py:328-334 | A loaded letter keeps its fields; missing statistics are computed from its words, and completion fails exactly when they are missing and that computation raises |
| WordList.LoadDocument | reference-docs/01_01_generate_word_list.py:319-349 | A file that loads, and whose every entry can be completed, is taken letter by letter with statistics completed; a missing or unreadable file, or one on which completion raises, gives an empty document |
| WordList.InitKeeps | reference-docs/01_01_generate_word_list.py:352-369 | Initialising the letters never changes a letter already present |
| WordList.InitCovers | reference-docs/01_01_generate_word_list.py:352-363 | Every remaining letter is present afterwards, and an absent one gets the empty bucket |
| WordList.Append | reference-docs/01_01_generate_word_list.py:355-363 | Adding a new letter bucket keeps every other letter and makes the new one findable |
| WordList.InitBuckets | reference-docs/01_01_generate_word_list.py:352-369 | After initialisation all 26 letters exist, existing letters are unchanged and in their place, and new ones hold an empty bucket with zero words |
| WordList.LetterEventsOf | reference-docs/01_01_generate_word_list.py:385-424 | One letter's trace is its attempts, then the save when stored, then the wait unless aborted or last |
| WordList.PauseAfter | reference-docs/01_01_generate_word_list.py:421-424 | A letter that yields nothing only adds the 2-second wait (none after Z) |
| WordList.Write | reference-docs/01_01_generate_word_list.py:404-416 | A successful write puts the current document on disk; a failed one leaves the disk and aborts the run |
| WordList.Attempt | reference-docs/01_01_generate_word_list.py:385-424 | Attempting a letter changes no other letter, never removes this one, and makes as many calls as the retry loop's attempts; the file holds the document exactly when the turn logs a successful write, and otherwise stays as it was |
| WordList.AttemptOutcome | reference-docs/01_01_generate_word_list.py:385-419 | A stored batch whose statistics can be computed replaces the letter's words, keeps its letter and description, and is followed by one write; one whose statistics raise ends the run with nothing written; a failed fetch changes nothing but the oracle and the trace |
| WordList.Step | reference-docs/01_01_generate_word_list.py:379-382 | A letter whose statistics show words is skipped with no effect at all; otherwise it is attempted |
| WordList.StepFrame | reference-docs/01_01_generate_word_list.py:379-424 | A letter's turn touches only that letter and never deletes it |
| WordList.StepEvents | reference-docs/01_01_generate_word_list.py:385-424 | An attempted letter leaves exactly its attempt-and-close events, one call per attempt |
| WordList.StepConsistent | reference-docs/01_01_generate_word_list.py:391-394 | Stored statistics always describe the stored words |
| WordList.StepSynced | reference-docs/01_01_generate_word_list.py:404-416 | After a turn the disk holds the document, or the run aborted and the disk differs from the document at most in the letter just fetched |
| WordList.Start | reference-docs/01_01_generate_word_list.py:319-369 | The run starts with all 26 letters, an empty trace, and nothing written yet: the file on disk is whatever was loaded, or no file |
| WordList.RunKeepsKeys | reference-docs/01_01_generate_word_list.py:372-424 | No letter is ever removed |
| WordList.RunKeepsConsistent | reference-docs/01_01_generate_word_list.py:391-394 | Every letter's statistics stay consistent with its words for the whole run |
| WordList.RunFrame | reference-docs/01_01_generate_word_list.py:372-424 | Keys other than the 26 letters are never changed |
| WordList.RunNoCall | reference-docs/01_01_generate_word_list.py:372-424 | A key that is not one of the remaining letters is never sent to the model |
| WordList.RunKeepsCompleted | reference-docs/01_01_generate_word_list.py:379-382 | A letter that already has words keeps its bucket unchanged through the rest of the run |
| WordList.RunSkipsCompleted | reference-docs/01_01_generate_word_list.py:379-382 | A letter that already has words is never sent to the model again |
| WordList.RunSynced | reference-docs/01_01_generate_word_list.py:404-416 | If a run that completes wrote anything, its last write is the document in memory; an aborted run's last write differs from memory in at most one letter |
| WordList.StepWrites | reference-docs/01_01_generate_word_list.py:385-424 | A letter's turn either keeps the file as it was and logs no successful write, or writes the document in memory and logs it |
| WordList.RunWrites | reference-docs/01_01_generate_word_list.py:373-424 | Over a run the file changes only through a logged successful write |
| WordList.GenerateWrites | reference-docs/01_01_generate_word_list.py:319-434 | A run writes the file exactly when its trace holds a successful write; there is no final write after the loop, so a run in which every letter is skipped or every fetch fails leaves the loaded file, which need not hold the 26-letter document in memory |
| WordList.RunStopsEarly | reference-docs/01_01_generate_word_list.py:391-416 | The run stops early only right after a failed write or an exception from the statistics |
| WordList.RunIdle | reference-docs/01_01_generate_word_list.py:379-382 | A resumed run over letters that all have words makes no call, no wait and no write |
| WordList.RunCallBound | reference-docs/01_01_generate_word_list.py:137 | Over the whole run each letter is sent to the model at most `max_retries + 1 = 4` times |
| WordList.SummaryBounds | reference-docs/01_01_generate_word_list.py:431-434 | Completed letters never exceed the number of letters or the words generated, and there are none exactly when no word was generated |
| Dictionary.FillBlank | reference-docs/01_03_Detailed_Dictionary.py:267-276 | A missing or falsy field becomes `""`; a truthy one and every other field are unchanged |
| Dictionary.Normalize | reference-docs/01_03_Detailed_Dictionary.py:260-276 | A returned record gets a valid complexity (Intermediate when invalid), `""` for a falsy respelling or phoneme, and no other change |
| Dictionary.NormalizedTruthy | reference-docs/01_03_Detailed_Dictionary.py:557-558 | A normalised record is never empty, so `if detailed_info:` always stores it |
| Dictionary.NormalizeIdempotent | reference-docs/01_03_Detailed_Dictionary.py:260-276 | Normalising twice is normalising once |
| Dictionary.NormalizedFieldsTruthy | reference-docs/01_03_Detailed_Dictionary.py:260-276 | Each normalisation rule is a no-op on a normalised record |
| Dictionary.DecodeWord | reference-docs/01_03_Detailed_Dictionary.py:255-276 | A decoded word is a dict that carries a complexity |
| Dictionary.FetchWord | reference-docs/01_03_Detailed_Dictionary.py:138-305 | At most four attempts, with delays of `5 * 2^attempt` between them, and failure only after all of them |
| Dictionary.FetchWordTruthy | reference-docs/01_03_Detailed_Dictionary.py:557-558 | A successful fetch is a non-empty dict |
| Dictionary.Stamp | reference-docs/01_03_Detailed_Dictionary.py:381-383 | Restamping recomputes the letter's statistics from its words and touches nothing else; it fails exactly when the letter is present and its statistics raise; an absent letter is left alone |
| Dictionary.LoadCheckpoint | reference-docs/01_03_Detailed_Dictionary.py:344-366 | A loadable checkpoint is used as it is; a missing or malformed one gives an empty document; any other read error escapes, which ends the run |
| Dictionary.StartDocument | reference-docs/01_03_Detailed_Dictionary.py:479-488 | Resuming starts from the checkpoint, and starting fresh from an empty document |
| Dictionary.SourceData | reference-docs/01_03_Detailed_Dictionary.py:308-323 | A missing or malformed word list reads as an empty dict; any other read error escapes, which ends the run |
| Dictionary.ListingOf | reference-docs/01_03_Detailed_Dictionary.py:505-506 | The letter test and `len` of the words value: a dict without the letter, or a dict entry without `words`, lists nothing; a dict entry's words value is listed exactly when `len` accepts it; a number, boolean or null file raises |
| Dictionary.CountFrom | reference-docs/01_03_Detailed_Dictionary.py:503-506 | The counting pass succeeds exactly when no letter's test or `len` raises, and a dict without any letter offers 0 words |
| Dictionary.SourceWords | reference-docs/01_03_Detailed_Dictionary.py:533-545 | A letter's turn visits nothing exactly when it is not listed, raises exactly when the test raises or its words value is a list or string (`.items()`), and otherwise visits the keys of its words dict in order |
| Dictionary.NumberWordList | reference-docs/01_03_Detailed_Dictionary.py:503-506 | A word list holding the number 5 ends the run in the counting pass, before any call or write |
| Dictionary.ListWordsStop | reference-docs/01_03_Detailed_Dictionary.py:533-545 | A word list whose letter A has a list of words passes the counting pass and ends the run at `.items()`, before any call or write |
| Dictionary.SaveDoc | reference-docs/01_03_Detailed_Dictionary.py:326-341 | A successful write puts the document on disk; a failed one is swallowed and changes nothing else |
| Dictionary.Checkpoint | reference-docs/01_03_Detailed_Dictionary.py:369-391 | The checkpoint restamps the letter's statistics, then writes once; when the statistics raise, the handler skips the write and nothing changes |
| Dictionary.Insert | reference-docs/01_03_Detailed_Dictionary.py:558 | Storing a record adds or replaces that word in its letter and changes no other letter |
| Dictionary.WordStep | reference-docs/01_03_Detailed_Dictionary.py:547-550 | A word already in the checkpoint is skipped with no call, no wait and no write |
| Dictionary.WordStepOutcome | reference-docs/01_03_Detailed_Dictionary.py:552-572 | A new word: a fetched record is appended to its letter and the counter raised; the statistics are restamped and one write made exactly when they can be computed; a failure changes only the oracle and the trace; the 1-second wait follows either way |
| Dictionary.WordStepFrame | reference-docs/01_03_Detailed_Dictionary.py:545-572 | A word's turn touches no other letter |
| Dictionary.WordsFrame | reference-docs/01_03_Detailed_Dictionary.py:545-572 | The word loop of one letter touches no other letter |
| Dictionary.WordsGrow | reference-docs/01_03_Detailed_Dictionary.py:545-572 | A letter's words only grow at the end, every added word comes from the word list, and `words_processed` counts exactly the words added |
| Dictionary.WordsSkipPresent | reference-docs/01_03_Detailed_Dictionary.py:547-550 | A word already processed is never sent to the model again |
| Dictionary.WordsIdle | reference-docs/01_03_Detailed_Dictionary.py:547-550 | Resuming a letter whose words are all present changes nothing |
| Dictionary.WordsIgnoreWrites | reference-docs/01_03_Detailed_Dictionary.py:326-341 | Whether writes succeed has no effect on the document or the counter |
| Dictionary.EnsureEntry | reference-docs/01_03_Detailed_Dictionary.py:524-530 | A missing letter gets an empty entry appended; a present one is untouched |
| Dictionary.LetterFrame | reference-docs/01_03_Detailed_Dictionary.py:518-587 | A letter's turn touches no other letter |
| Dictionary.LetterStep | reference-docs/01_03_Detailed_Dictionary.py:518-587 | A letter's turn only appends to the trace; a words value that is not a dict raises after the entry is created |
| Dictionary.LetterDone | reference-docs/01_03_Detailed_Dictionary.py:524-576 | After its turn a letter is present; the turn raises exactly when its words cannot be read, or when the word list has words for it and its statistics cannot be computed, and otherwise those statistics describe its words |
| Dictionary.LettersFrame | reference-docs/01_03_Detailed_Dictionary.py:518-587 | The letter loop never changes a key that is not a remaining letter |
| Dictionary.LetterFinal | reference-docs/01_03_Detailed_Dictionary.py:518-587 | Once past a letter, the loop never changes it again |
| Dictionary.LettersComplete | reference-docs/01_03_Detailed_Dictionary.py:518-587 | Unless the loop raises, every remaining letter ends present, none had unreadable words, and each has statistics matching its words whenever the word list had words for it |
| Dictionary.Generate | reference-docs/01_03_Detailed_Dictionary.py:448-593 | The run ends with the final save, or with the exception that stopped it; an unreadable word-list or checkpoint file, or a word list the counting pass cannot read, stops it before any call or write |
| Dictionary.GenerateIgnoresWrites | reference-docs/01_03_Detailed_Dictionary.py:326-341 | Failed writes never change what is generated or how many words were processed |
| Dictionary.GenerateComplete | reference-docs/01_03_Detailed_Dictionary.py:503-593 | Unless the run raises, the counting pass succeeded, every letter A–Z is in the final dictionary, no letter had unreadable words, and each has statistics matching its words whenever the word list had words for it |
| Completeness.AnyExists | reference-docs/01_04_Monitor_Detailed_Dictionary_Stats.py:109-121 | A flag set inside a loop is set exactly when some element passes the test |
| Completeness.SumPositive | reference-docs/01_04_Monitor_Detailed_Dictionary_Stats.py:141-151 | A running total is positive exactly when some element contributes |
| Completeness.AnalyzeWord | reference-docs/01_04_Monitor_Detailed_Dictionary_Stats.py:75-159 | `has_complexity` and `has_meanings` are the fields' truthiness, and `total_meanings` is the length of a truthy meanings list, else 0 |
| Completeness.IsVerb | reference-docs/01_04_Monitor_Detailed_Dictionary_Stats.py:193-199 | A word is a verb exactly when one of the meanings the loop visits has part of speech "Verb" |
| Completeness.EmptyRecord | reference-docs/01_04_Monitor_Detailed_Dictionary_Stats.py:85-103 | A record with no fields yields every flag false and every total 0, the defaults |
| Completeness.DefinitionFlag | reference-docs/01_04_Monitor_Detailed_Dictionary_Stats.py:109-121 | `has_definition` (and `has_example`) holds exactly when some definition of some meaning has a truthy entry |
| Completeness.TotalImpliesFlag | reference-docs/01_04_Monitor_Detailed_Dictionary_Stats.py:144-151 | A positive synonym (antonym) total implies the flag |
| Completeness.FlagImpliesTotal | reference-docs/01_04_Monitor_Detailed_Dictionary_Stats.py:144-151 | For well-formed lists the flag implies a positive total, so flag and total agree |
| Completeness.PartOfSpeechFlag | reference-docs/01_04_Monitor_Detailed_Dictionary_Stats.py:136-138 | `has_part_of_speech` holds exactly when some visited meaning has a truthy `part_of_speech` |
| Completeness.DefinitionsPositive | reference-docs/01_04_Monitor_Detailed_Dictionary_Stats.py:136-141 | `total_definitions` is positive exactly when some visited meaning has a truthy `definitions` value that has a length |
| Completeness.FlagsImplyDefinitions | reference-docs/01_04_Monitor_Detailed_Dictionary_Stats.py:111-141 | A word with a definition or an example has a positive `total_definitions` |
| Completeness.DefinitionsVisited | reference-docs/01_04_Monitor_Detailed_Dictionary_Stats.py:140-143 | When every truthy `definitions` value is a list, `total_definitions` is the number of definitions the inner loops visit |
| Completeness.VerbFormsFlag | reference-docs/01_04_Monitor_Detailed_Dictionary_Stats.py:153-157 | `has_verb_forms` holds exactly when some meaning has truthy verb forms |
| Completeness.FieldNamesDistinct | reference-docs/01_04_Monitor_Detailed_Dictionary_Stats.py:217-235 | The counted fields have distinct names |
| Completeness.Counted | reference-docs/01_04_Monitor_Detailed_Dictionary_Stats.py:201-215 | The twelve base fields are always counted, and verb forms only for a verb |
| Completeness.CompleteFields | reference-docs/01_04_Monitor_Detailed_Dictionary_Stats.py:201-215 | The score is at most 13, and a word with no verb meaning always has the verb-forms point |
| Completeness.MissingFields | reference-docs/01_04_Monitor_Detailed_Dictionary_Stats.py:248-262 | The missing fields are at most the counted ones |
| Completeness.MissingExactly | reference-docs/01_04_Monitor_Detailed_Dictionary_Stats.py:248-262 | A field is listed as missing exactly when it is counted and absent |
| Completeness.MissingCount | reference-docs/01_04_Monitor_Detailed_Dictionary_Stats.py:201-262 | Present and missing fields together are all the counted fields |
| Completeness.CompleteScore | reference-docs/01_04_Monitor_Detailed_Dictionary_Stats.py:201-217 | The score never exceeds 13; a non-verb gets the verb-forms point for free; score plus missing fields is 13 |
| Completeness.TallyCount | reference-docs/01_04_Monitor_Detailed_Dictionary_Stats.py:220-235 | `field_stats[has_f]` rises by one for each present field named f |
| Completeness.HitsAtMostOne | reference-docs/01_04_Monitor_Detailed_Dictionary_Stats.py:220-235 | A word raises each field counter at most once |
| Completeness.VerbFormsTally | reference-docs/01_04_Monitor_Detailed_Dictionary_Stats.py:222-233 | `has_verb_forms` is counted only for a verb that has verb forms |
| Completeness.AddWord | reference-docs/01_04_Monitor_Detailed_Dictionary_Stats.py:185-270 | Each word adds one to the total and to both per-word histograms, and leaves the letter counts alone |
| Completeness.AddWordConserves | reference-docs/01_04_Monitor_Detailed_Dictionary_Stats.py:185-270 | One word raises `total_words` by one, keeps the letter counts, and keeps every tally within the words seen |
| Completeness.AddWordIncomplete | reference-docs/01_04_Monitor_Detailed_Dictionary_Stats.py:248-270 | A complete word changes no incomplete list; an incomplete one is appended, with exactly its missing fields, to its own letter's list only |
| Completeness.AddWordsConserves | reference-docs/01_04_Monitor_Detailed_Dictionary_Stats.py:185-270 | A letter's words raise `total_words` by their number and keep the letter counts |
| Completeness.AddLetter | reference-docs/01_04_Monitor_Detailed_Dictionary_Stats.py:181-187 | A letter entry without `words` changes nothing; one with it records the number of its words under the letter |
| Completeness.AddLetterFacts | reference-docs/01_04_Monitor_Detailed_Dictionary_Stats.py:181-187 | A letter with a words map records its word count under its letter; one without is ignored |
| Completeness.AddLettersConserves | reference-docs/01_04_Monitor_Detailed_Dictionary_Stats.py:181-270 | The bounds hold over the whole dictionary |
| Completeness.AddLettersKeys | reference-docs/01_04_Monitor_Detailed_Dictionary_Stats.py:181-187 | Every key of the letter distribution is a letter of the dictionary that has a words map |
| Completeness.AddLettersSum | reference-docs/01_04_Monitor_Detailed_Dictionary_Stats.py:181-187 | With distinct letters the letter distribution adds up to `total_words` |
| Completeness.AnalyzeDictionary | reference-docs/01_04_Monitor_Detailed_Dictionary_Stats.py:161-270 | The report keeps its conservation laws (both histograms count every word, scores in 0..13, no field over the total), and with distinct letters the letter counts add up to the total |
| Audio.FirstDefinition | reference-docs/01_05_Generate_Audio_Files.py:243-251 | A first definition is reached only through a first meaning, which needs a truthy `meanings` |
| Audio.ExtractWordData | reference-docs/01_05_Generate_Audio_Files.py:224-258 | Extraction fails (the word counts as failed) for a record that is not searchable, for a truthy `meanings` or `definitions` that cannot be measured or indexed, and for a definition or example that cannot be sliced by the debug lines; otherwise the word is the key, a missing respelling or phoneme stays blank, and without meanings the definition and example stay blank |
| Audio.LaterMeaningsIgnored | reference-docs/01_05_Generate_Audio_Files.py:243-249 | Only the first meaning is read: the later ones can be anything |
| Audio.OtherFieldsKept | reference-docs/01_05_Generate_Audio_Files.py:234-241 | The respelling and phoneme do not depend on the meanings |
| Audio.LaterDefinitionsIgnored | reference-docs/01_05_Generate_Audio_Files.py:248-258 | Only the first definition of the first meaning is read: extraction succeeds exactly when that definition's `definition` and `example` can be sliced, and then yields them, blank when absent |
| Audio.FirstDefinitionIs | reference-docs/01_05_Generate_Audio_Files.py:243-249 | With a non-empty meanings list whose first meaning has definitions, the first definition is that one |
| Audio.CreateTextForTts | reference-docs/01_05_Generate_Audio_Files.py:283-291 | The text splits back into the word, "...", the word, the definition and, only for a truthy example, " Example: " and the example |
| Audio.TextIgnoresRespelling | reference-docs/01_05_Generate_Audio_Files.py:286-287 | The phonetic respelling is not spoken |
| Audio.ShortNameSuffix | reference-docs/01_05_Generate_Audio_Files.py:310 | `split('-')[-1]` is the longest dash-free suffix |
| Audio.ShortName | reference-docs/01_05_Generate_Audio_Files.py:310 | The short name is dash-free and no longer than the voice name |
| Audio.ShortNameAfterDash | reference-docs/01_05_Generate_Audio_Files.py:310 | The short name of `prefix-name` is `name` when `name` has no dash |
| Audio.VoiceShortNames | reference-docs/01_05_Generate_Audio_Files.py:63-67 | The three voices are stored under Umbriel, Iapetus and Puck |
| Audio.AvailableVoicesDistinct | reference-docs/01_05_Generate_Audio_Files.py:63-67 | The three voices have distinct short names |
| Audio.FileName | reference-docs/01_05_Generate_Audio_Files.py:313-316 | A clip's file name starts with the word and ends with `.mp3` |
| Audio.SpokenText | reference-docs/01_05_Generate_Audio_Files.py:283-291 | A pronunciation clip speaks the word between two pairs of dots; an example clip's text starts with the word |
| Audio.FileNameInjective | reference-docs/01_05_Generate_Audio_Files.py:313-316 | For one word the file name determines the clip kind and the voice's short name |
| Audio.FileNamesDiffer | reference-docs/01_05_Generate_Audio_Files.py:313-316 | Different kinds, or voices with different short names, never share a file |
| Audio.Generate | reference-docs/01_05_Generate_Audio_Files.py:320-386 | An existing file is reported made with no call; otherwise one call is made, and success is exactly the file being written |
| Audio.GenerateIdempotent | reference-docs/01_05_Generate_Audio_Files.py:320-323 | Regenerating a made clip is a no-op that reports success, whatever the service would answer |
| Audio.ForVoice | reference-docs/01_05_Generate_Audio_Files.py:480-499 | Without the modern service a voice's entry is false/false and nothing happens |
| Audio.ForVoiceSteps | reference-docs/01_05_Generate_Audio_Files.py:476-501 | With the service a voice's turn writes only its own two files, flags exactly those present, and only pauses when both exist |
| Audio.Through | reference-docs/01_05_Generate_Audio_Files.py:478-499 | The voice loop records at most one result per voice |
| Audio.ThroughIdle | reference-docs/01_05_Generate_Audio_Files.py:480-485 | Without the service the loop touches nothing and every entry is false/false |
| Audio.ThroughKeys | reference-docs/01_05_Generate_Audio_Files.py:478-485 | With distinct voices the result has one entry per voice, in voice order |
| Audio.ThroughWrites | reference-docs/01_05_Generate_Audio_Files.py:478-499 | The loop only adds files, and only the word's own |
| Audio.ThroughFlags | reference-docs/01_05_Generate_Audio_Files.py:489-495 | Each voice's flags hold exactly when its files are in the folder at the end |
| Audio.ThroughPresent | reference-docs/01_05_Generate_Audio_Files.py:320-323 | When every file exists, the loop only pauses and every flag is set |
| Audio.ThroughAgain | reference-docs/01_05_Generate_Audio_Files.py:320-323 | Re-running after all clips were made calls nothing, writes nothing and reports every clip |
| Audio.AllVoicesFiles | reference-docs/01_05_Generate_Audio_Files.py:465-501 | One entry per voice in order, each flag true exactly when its file exists, and no file written but the word's own |
| Audio.AllVoices | reference-docs/01_05_Generate_Audio_Files.py:465-501 | At most one result per voice, and without the service every flag is false and the job is untouched |
| Audio.AllVoicesIdle | reference-docs/01_05_Generate_Audio_Files.py:465-501 | Without the service every flag is false and nothing is written or called |
| Audio.AllVoicesAgain | reference-docs/01_05_Generate_Audio_Files.py:465-501 | Re-voicing a fully voiced word is a no-op apart from the pauses |
| Audio.ExampleHits | reference-docs/01_05_Generate_Audio_Files.py:670-672 | At most one example clip is counted per voice |
| Audio.PronunciationHits | reference-docs/01_05_Generate_Audio_Files.py:673-674 | At most one pronunciation clip is counted per voice |
| Audio.ProcessWord | reference-docs/01_05_Generate_Audio_Files.py:652-691 | Each word raises `total_words` by one; a word whose extraction raised only raises `failed_generations`; a word lacking a definition or example only raises `skipped_words`; a voiced word is not skipped |
| Audio.ProcessWordSound | reference-docs/01_05_Generate_Audio_Files.py:652-691 | One word keeps the counter bounds: skipped + voiced + raised = total, failures cover the raised words, at most one clip per voice and kind, and a voiced success means all clips |
| Audio.ProcessWordAdvances | reference-docs/01_05_Generate_Audio_Files.py:652-691 | One word moves the counters as its fate says: failed, skipped, or voiced with at most one clip per voice and kind and a failure exactly when some clip is missing |
| Audio.AdvanceSound | reference-docs/01_05_Generate_Audio_Files.py:652-691 | Any such move keeps the counter bounds, with one more raised word for a failed extraction |
| Audio.VoicerCounts | reference-docs/01_05_Generate_Audio_Files.py:651-691 | The script's word step moves the counters as the classification of its extracted data says |
| Audio.EachWordSound | reference-docs/01_05_Generate_Audio_Files.py:651-691 | Over a letter's words the bounds hold, every word is counted, the skipped words are those classified as skipped, and the failed extractions are among the failures |
| Audio.LettersRaise | reference-docs/01_05_Generate_Audio_Files.py:646-651 | The letter loop raises exactly when some letter's `words` cannot be listed |
| Audio.ProcessLettersSound | reference-docs/01_05_Generate_Audio_Files.py:646-691 | Unless the loop raises, only words under a letter with a words map are counted, the skipped words are those classified as skipped, and the bounds hold |
| Audio.ProcessAllWords | reference-docs/01_05_Generate_Audio_Files.py:621-698 | A dictionary that is not an object raises before any word is counted; an empty one leaves the counters at their start |
| Audio.ProcessDictionaryFile | reference-docs/01_05_Generate_Audio_Files.py:176-209 | A missing, undecodable or unreadable dictionary file raises before any counter moves, any file is written or the service is called; a decoded one is processed as loaded |
| Audio.ProcessAllWordsCounts | reference-docs/01_05_Generate_Audio_Files.py:621-698 | The run raises exactly when the dictionary is not an object or some letter's `words` is not; otherwise `total_words` counts every word of every letter with a words map, `skipped_words` those read but lacking a definition or example, every word whose extraction raised is a failure, and the clip and failure counters respect the bounds for three voices |
| Audio.EachWordIdle | reference-docs/01_05_Generate_Audio_Files.py:651-687 | Without the service the word loop leaves folder and oracle untouched and counts every voiced word as failed |
| Audio.UnavailableRun | reference-docs/01_05_Generate_Audio_Files.py:621-698 | Without the service no file or call is made, no clip is counted, and every word not skipped is a failure, whether or not the run raises |
| Census.TagAgrees | reference-docs/01_02_comprehensive_word_analysis.py:37-40 | A word is tallied under a complexity exactly when its record has one, and under its stored value |
| Census.ComplexityTag | reference-docs/01_02_comprehensive_word_analysis.py:40-42 | A dict record is untagged exactly when it has no `complexity`; a tag is the stored value and never a list or object; a record that is null, a boolean or a number cannot be searched |
| Census.TallyWordsFails | reference-docs/01_02_comprehensive_word_analysis.py:35-42 | Tallying a letter's words fails exactly when some record cannot be searched for a complexity |
| Census.TallyWordsCounts | reference-docs/01_02_comprehensive_word_analysis.py:35-42 | The length tally counts each word name's length and the complexity tally each stored complexity |
| Census.DirectLengthsCounts | reference-docs/01_02_comprehensive_word_analysis.py:44-53 | An entry without a `words` key is itself the word map, and its keys' lengths are tallied |
| Census.ScanEntry | reference-docs/01_02_comprehensive_word_analysis.py:28-53 | A scanned entry is a dict, yields its word count, and leaves the complexity tally alone when it has no `words` key |
| Census.ScanLetters | reference-docs/01_02_comprehensive_word_analysis.py:24-56 | A successful scan records at most one count per visited letter, and only for letters present in the file |
| Census.ScanTotal | reference-docs/01_02_comprehensive_word_analysis.py:55-56 | `total_words` is the sum of the letter counts |
| Census.ScanKeys | reference-docs/01_02_comprehensive_word_analysis.py:24-56 | The letter counts are keyed in alphabetical order, only by letters present in the file |
| Census.ScanCounts | reference-docs/01_02_comprehensive_word_analysis.py:24-56 | Every letter's count is its word count in the file, and it has a key exactly when the file has the letter |
| Census.ScanStats | reference-docs/01_02_comprehensive_word_analysis.py:24-56 | The scan's total, key order, key origin and per-letter counts together |
| Census.Split | reference-docs/01_02_comprehensive_word_analysis.py:64-77 | Every visited letter lands in one of the two lists, the first holding only letters with at least 90 words and the second only letters with fewer |
| Census.SplitPartitions | reference-docs/01_02_comprehensive_word_analysis.py:64-77 | Each letter is in exactly one list: 90+ when its count is at least 90, else below |
| Census.SplitOrdered | reference-docs/01_02_comprehensive_word_analysis.py:64-77 | Both lists are in alphabetical order |
| Census.Insert | reference-docs/01_02_comprehensive_word_analysis.py:119 | Inserting into the ranking keeps every entry and adds the new one |
| Census.Rank | reference-docs/01_02_comprehensive_word_analysis.py:119 | The ranking is a permutation of the letter counts |
| Census.InsertSorted | reference-docs/01_02_comprehensive_word_analysis.py:119 | Inserting keeps the ranking by decreasing count, with ties alphabetical |
| Census.RankSorted | reference-docs/01_02_comprehensive_word_analysis.py:119 | The ranking is a permutation of the letter counts, sorted by decreasing count, ties kept alphabetical because the sort is stable |
| Census.TabularReport | reference-docs/01_02_comprehensive_word_analysis.py:143-168 | No table without letter counts; otherwise the 90+ and <90 tallies add up to the letters counted |
| Census.TalliesCover | reference-docs/01_02_comprehensive_word_analysis.py:166-168 | The two table tallies together count every letter in the counts |
| Census.SplitMatchesTallies | reference-docs/01_02_comprehensive_word_analysis.py:64-77 | The 90+ list matches the 90+ tally, and the <90 list is the <90 tally plus the letters absent from the file |
| Census.ReportAgrees | reference-docs/01_02_comprehensive_word_analysis.py:55-168 | Whenever the analysis succeeds (so the script reaches its table), the printed report and the table agree on the total and the 90+ count, and the table's <90 count is short by exactly the absent letters |
| Census.ReportShape | reference-docs/01_02_comprehensive_word_analysis.py:24-131 | Whenever the analysis succeeds, every capital letter lands in exactly one list by its count, both lists are alphabetical, and the ranking is a sorted permutation with ties alphabetical |
| Census.AnalyzeWordStructure | reference-docs/01_02_comprehensive_word_analysis.py:14-141 | The analysis succeeds exactly when the file can be searched for the capital letters (an object, or a list or string holding none of them), every present letter can be scanned, and the tallied complexities can be sorted; its scan is then the scan of the capital letters |
| Census.AnalyzeFile | reference-docs/01_02_comprehensive_word_analysis.py:9-141 | A missing, undecodable or unreadable word-list file gives no report, as the `(None, None)` of the three handlers; a decoded file gives the analysis of its value |

## Left out

- The language-model calls (Gemini streaming, prompts, chunk filtering), the
  Google Cloud project lookup, the `gcloud` path search and the HTTP
  synthesis request are oracles. They give one reply or answer per
  attempt, and an exhausted oracle fails.
- `json.loads` is a parameter. The model does not describe JSON syntax.
- Logging and `print` output are not modelled. That covers the progress
  summaries, the dashboards, the census's printed breakdowns and its
  top-5/bottom-5 lists, the markdown table rows, `print_summary` and
  `debug_word_analysis`.
- Timing is not modelled: `processing_time`, elapsed times and the wall
  clock. Waits appear only as events in the trace.
- Dictionary.FetchWord: its delays leave out the random jitter of up to one
  second (`01_03_Detailed_Dictionary.py:285`, `298`). The jitter only
  lengthens a wait and does not affect what is computed.
- The interactive resume prompt is a boolean parameter, and the backup copy
  made when starting fresh is left out: both are console and file I/O.
- The monitor's percentages are left out because they are floating point.
  Its text dashboard is left out too.
- The fallback speech engines (`generate_audio`, gTTS, pyttsx3, the old
  Google client) are left out; the run calls only the modern service.
  `test_tts_availability` becomes the `available` flag, and
  `load_selected_voice` is never used by the run.
- The scripts `01_00`, `01_06` and `01_07` (a sample client, voice selection
  and sample download) are not part of this model.
- A write that fails is modelled as leaving the file as it was. A real
  truncating write can leave a partial file.
- JSON numbers are integers only. Floats play no part in the modelled
  logic.
- Object keys are assumed unique, as `json.load` produces them.
- Json.Display renders lists and objects as the empty string, where
  Python's `str()` gives their repr. In the audio script only strings and
  lists reach the spoken text, so a list definition or example is spoken
  as nothing. Any other value makes the word's debug line raise, and the
  word counts as failed.
- Completeness.AnalyzeWord reads a `meanings` or `definitions` value that is
  not a list, or a meaning that is not a dict, as empty. On such shapes
  Python may iterate a dict's keys or raise, which ends the monitor without
  a report. It also gives all-false flags for a word record that is not a
  dict, and ignores a definition element that is not a dict. Python raises
  on both: `in` on a number, boolean or null record
  (`01_04_Monitor_Detailed_Dictionary_Stats.py:106`), indexing a list or
  string record that contains a field name, `in` on a number, boolean or
  null definition, and indexing a list or string definition that contains
  a field name (lines 115 and 145). Each ends the monitor without a report.
- Completeness.AnalyzeDictionary reads a top-level file that is not an
  object as having no letters and returns the empty report. Python raises
  on `self.data.items()` (`01_04_Monitor_Detailed_Dictionary_Stats.py:181`),
  and `main` has no handler, so the monitor ends without a report.
- Completeness.AddLetter reads a `words` value that is not an object as
  having no words and records 0 for the letter. Python records its `len`
  (or raises on a number, boolean or null) and then raises on `.items()`
  (`01_04_Monitor_Detailed_Dictionary_Stats.py:183-185`), which ends the
  monitor without a report.
- Completeness.AddWord, through its helper AddAnalysed, tallies any JSON
  value of `complexity` and `part_of_speech`
  (`01_04_Monitor_Detailed_Dictionary_Stats.py:239`, `245`). Python raises
  on a list or object value, which ends the monitor, and its counters merge
  `true` with `1`, which the model keeps apart.
- Statistics.PartOfSpeechHistogram keeps `true` and `1` apart as parts of
  speech, where Python's counter merges them.
- WordList.LoadDocument reads the stored entries into a typed shape: letter,
  description, words and optional statistics. Python keeps an entry that
  lacks a field or has extra keys as it is. A non-dict entry makes the
  handler at `01_01_generate_word_list.py:346-349` discard the whole file,
  and a `statistics` value without `total_words` raises at line 379,
  outside any handler. The model covers neither shape.
- Completeness.FlagImpliesTotal requires that synonym and antonym entries be
  strings, lists or objects (`SizedEntries`). For other truthy values Python
  raises on `len`.
- Census.ScanEntry treats any non-dict letter entry as a failure. Python
  handles some list or string shapes with no error. The complexity tally
  compares JSON values, whereas Python's dict also merges `true` with `1`.
- Dictionary.LoadCheckpoint assumes a loadable checkpoint has the shape the
  generator writes: letters mapping to entries with `words`.
- Dictionary.LetterStep models the branch for a letter without source words
  as written. Its inner `if letter not in comprehensive_data`
  (`01_03_Detailed_Dictionary.py:585-587`) can never hold, because lines
  524-530 just added the letter, so such a letter keeps empty statistics.
- The word-list generator's final `return None` after the retry loop
  (`01_01_generate_word_list.py:292`) is unreachable and has no counterpart.
- Audio file names of different words may collide (for instance when one
  word is a prefix of another ending in `-pronunciation`). Only collisions
  within one word are ruled out.
