# Anki Lazy English — a Dafny model of the card-building pipeline

Anki Lazy English turns a list of English words into Anki flash cards. For
each word it looks up the Free Dictionary API and renders the first entry
into the Word, IPA and Meaning fields of a note, plus an optional audio
attachment. It keeps a word → note cache, so a word is looked up only once.
It splits the word list into chunks of five for a thread pool. Before adding
the notes through AnkiConnect (API version 6), it creates the "Lazy English
Cards" note type and the "Lazy English" deck if they are missing. The note
type's back template gets one link per enabled online dictionary.

The model covers app.py and its older copy anki.py. They share every
definition except two differences:

- the example prefix: app.py writes the arrow mis-encoded, anki.py writes a
  correct "→" (`Dictionary.ExamplePrefix`, selected by `Release`);
- anki.py's `get_model` appends no dictionary links (`Templates.AnkiGetModel`).

Modules:

- `Results`: `Option` and `Result`.
- `Seqs`: `Concat`, which models both a string accumulated with `+=` and
  `itertools.chain.from_iterable`.
- `AnkiConnect`: `request` and the reply checks of `invoke`. The HTTP post is
  a `server` function parameter from request body to reply.
- `Dictionary`: `parse_json`. The rendering is specified as a concatenation
  of named parts: numbered definition blocks, optional lines, group blocks
  and separators. The loops of the source are methods proved equal to that
  specification. The HTTP GET becomes a `LookupReply` input.
- `Batching`: `split_iterable`.
- `Notes`: `get_note`, `get_notes` and the `threading` decorator.
  - `NoteCache` is the cache dict, which the methods update in place.
  - `RunWords` is the specification: `get_note` applied word after word,
    stopping at the first failure.
  - The dictionary service is a function parameter from word to reply.
- `Templates`: `get_model`. Asset file contents and the `DICTIONARIES` flags
  are inputs. `Merge` is Python's `dict |=`.
- `Provisioning`: the create-if-absent steps at the start of `main`, as a
  transition on the sets of model and deck names.

## Model

| member | source | states |
|---|---|---|
| AnkiConnect.Request | app.py:23-25 | the body is an object with exactly the keys action, params, version |
| AnkiConnect.RequestRoundTrip | app.py:23-25 | reading the body back gives the same action and params, and version is 6 |
| AnkiConnect.ReadRequestOnlyRequests | app.py:23-25 | every well-formed version-6 envelope is the one `request` builds from its action and params |
| AnkiConnect.CheckResponse | app.py:35-49 | succeeds iff the reply has exactly the keys error and result and error is null; the value is then `result`; a non-null error is the failure verbatim; the checks run in order: a wrong field count fails with its message, then a missing error field with its message, then a missing result field with its message |
| AnkiConnect.Invoke | app.py:28-49 | no connection fails as a transport error; a connected reply gives exactly the outcome of `CheckResponse` on it, so the remote error is the failure verbatim |
| Dictionary.ExamplePrefix | app.py:111 | in both releases the text before an example starts with `&nbsp;`, ends with a space, and has at least one character between; the arrow itself is in the body only |
| Dictionary.JoinLayout | app.py:114-122 | with an empty separator a join is the concatenation; its length is the items' lengths plus one separator per gap; it starts with the first item |
| Dictionary.Decimal | app.py:109 | the number written before a definition is a non-empty string of digits without a leading zero (a lone digit may be 0) |
| Dictionary.DecimalRoundTrip | app.py:107-108 | reading the written number back gives the definition's number |
| Dictionary.LinesInFixedOrder | app.py:108-119 | a definition starts with its numbered text line; the lines follow the order text, example, synonyms, antonyms; each optional line is present iff its field is non-empty |
| Dictionary.DefinitionAt | app.py:105-120 | definition j sits right after the part of speech, the colon and the blocks of definitions 0..j-1; its block starts with `<div>`, the number j+1 and its text, and ends with `</div>` |
| Dictionary.GroupLayout | app.py:104-121 | a group is its part of speech, a colon, its definition blocks in order, then its own synonyms line if it has synonyms |
| Dictionary.GroupAt | app.py:103-122 | group k sits right after groups 0..k-1; its block starts with its part of speech and a colon and is the group followed by one `<hr /> ` separator |
| Dictionary.DropLast | app.py:133 | `s[:-1]` of an empty string is empty; otherwise adding back the last character gives `s` |
| Dictionary.MeaningDropsLastChar | app.py:122-133 | Meaning is empty iff there are no groups; otherwise Meaning plus one space is the accumulated text and Meaning ends with `<hr />` |
| Dictionary.FirstAudio | app.py:124-128 | a non-empty result is the audio of some phonetic (`FirstAudioSpec` pins which one) |
| Dictionary.FirstAudioSpec | app.py:124-128 | the chosen audio is empty iff no phonetic has audio; otherwise it is the audio of a phonetic with none before it |
| Dictionary.AudioAbsentIffNoPhoneticAudio | app.py:124-137 | the attachment is None iff no phonetic has audio; otherwise its url is the first audio |
| Dictionary.Render | app.py:124-137 | Word and IPA are copied from the entry; Meaning is the accumulated text without its last character; there is no attachment iff `FirstAudio` is empty, else its url is that audio, url = filename, and fields ["Sound"] |
| Dictionary.RenderReply | app.py:99-101 | an unreachable service is a transport error; no definitions or an empty list is a not-found error; rendering succeeds iff the reply is a non-empty list of entries, and then renders the first entry |
| Dictionary.SamePrefixFreeRendering | app.py:110-111 | the example prefix affects nothing when no definition has an example |
| Dictionary.ReleasesAgreeWithoutExamples | anki.py:93-94 | app.py and anki.py render an entry without examples identically |
| Dictionary.ScanAudio | app.py:124-128 | the loop with `break` yields `FirstAudio` |
| Dictionary.WriteDefinition | app.py:107-120 | the string built for one definition equals its specified block |
| Dictionary.WriteGroup | app.py:103-121 | the string built for one group equals its specified block |
| Dictionary.ParseJson | app.py:96-138 | the nested loops, the final slice and the audio scan compute `RenderReply` |
| Batching.Chunks | app.py:204-211 | every chunk holds between 1 and `size` items |
| Batching.ChunksConcat | app.py:204-211 | concatenating the chunks gives back the input |
| Batching.ChunksShape | app.py:204-211 | no chunk is empty; every chunk but the last has the chunk size; no chunks iff empty input; the count is the ceiling of length over size |
| Batching.ChunkIndex | app.py:204-211 | element r of chunk q is element q*size+r of the input |
| Notes.BuildNote | app.py:148-157 | a note is built iff the reply has an entry; it carries the given deck, model and allowDuplicate, and the fields and audio `Render` gives for the first entry |
| Notes.DefaultNote | app.py:141-157 | with the defaults a note goes to deck "Lazy English" with note type "Lazy English Cards", duplicates refused, rendered with app.py's arrow |
| Notes.NoteStep | app.py:145-160 | with caching on, a hit returns the stored note, fetches nothing and keeps the cache; otherwise the word is fetched; only the word's key can be added; no existing entry changes; a built note is stored under the word |
| Notes.RunWords | app.py:177-179 | at most one fetch per word, and a run fails only after a fetch (a cache hit never fails) |
| Notes.RunWordsAppend | app.py:176-179 | running a+b is running a, then b on the cache a left behind |
| Notes.RunWordsLength | app.py:177-179 | a successful batch has one note per word |
| Notes.RunWordsKeepsEntries | app.py:145-159 | cached entries are never overwritten; only words of the list are added |
| Notes.RunWordsCached | app.py:145-159 | with caching on, after success every word is cached and note i is the cached note of words[i] |
| Notes.RunWordsCacheSound | app.py:145-159 | every cache entry is either an old, unchanged entry or the note fetched for its key |
| Notes.NotesMatchWords | app.py:145-179 | note i is words[i]'s old cached note, or the note fetched for words[i] |
| Notes.RunWordsUncached | app.py:145-159 | with caching off the cache never changes and every word is fetched, note i being the one built for words[i] |
| Notes.FetchesOnlyMisses | app.py:145-148 | with caching on, only words in the list that were not cached before are fetched |
| Notes.FetchesOnce | app.py:145-159 | with caching on no word is fetched twice in a run |
| Notes.AllHits | app.py:145-147 | with caching on, when every word is cached the run fetches nothing, keeps the cache and returns the cached notes in order |
| Notes.SecondRunFetchesNothing | app.py:145-159 | with caching on, re-running a successful word list on the resulting cache fetches nothing and returns the same notes |
| Notes.NoteCache.GetNote | app.py:141-160 | the in-place update of the cache, the outcome and the fetch are those of `NoteStep` |
| Notes.NoteCache.GetChunkNotes | app.py:177-179 | the list comprehension over one chunk is `RunWords` on that chunk |
| Notes.NoteCache.GetNotes | app.py:163-179 | chunking, mapping over the chunks and flattening equals `RunWords` over all words |
| Templates.Put | app.py:72 | a new key goes last; existing keys keep their position |
| Templates.PutLookup | app.py:72 | after an assignment the key has the new value and every other key is unchanged |
| Templates.PutUnique | app.py:72 | an assignment never duplicates a key |
| Templates.Merge | app.py:71-72 | the merged dict keeps the original keys first, in order, and grows by at most the number of links |
| Templates.MergeAppendsFresh | app.py:71-72 | after the original keys come the links whose key was new, in the order of links, with their values |
| Templates.MergeUnique | app.py:71-72 | merging keeps keys unique |
| Templates.MergeLookup | app.py:71-72 | after the merge a key has the value from links if links has it, else its old value |
| Templates.LinkHtml | app.py:74-85 | names outside the five known dictionaries add nothing |
| Templates.EnabledOnly | app.py:73-85 | only truthy flags contribute links, in merged-dict order |
| Templates.Appended | app.py:73-85 | the link loop only appends: the starting text stays a prefix |
| Templates.BackWithLinks | app.py:70-86 | the back template is the back file, then `<p>`, then the links, and ends with `</p>` |
| Templates.DefaultEnabled | constants.py:10-16 | the shipped flags enable Cambridge, Macmillan and Urban Dictionary, in that order |
| Templates.ModelFor | app.py:87-93 | fields are Word, Sound, Meaning, IPA; isCloze is false; the single card template has the model's name and the given front and back |
| Templates.GetModel | app.py:59-93 | the back template is the back file, `<p>`, the loop's links over the merged flags, then `</p>` |
| Templates.AnkiGetModel | anki.py:59-76 | the same model with the back file unchanged |
| Templates.ReleasesShareModel | anki.py:70-76 | the two releases differ only in the back template, and app.py's starts with anki.py's |
| Provisioning.ProvisionCommands | app.py:226-229 | at most two commands, each creating the model or the deck |
| Provisioning.CreatesOnlyWhatIsMissing | app.py:226-229 | createModel is issued iff the model name is absent, createDeck iff the deck name is absent, the model first |
| Provisioning.ProvisionResult | app.py:226-229 | afterwards both names exist and nothing else was added |
| Provisioning.ProvisionIdempotent | app.py:226-229 | provisioning again issues nothing |
| Provisioning.MainProvisions | app.py:226-229 | with `MODEL_NAME` and `DECK_NAME`, "Lazy English Cards" and "Lazy English" exist afterwards, nothing else is added, and a second start sends nothing |

## Left out

- HTTP: `requests.post` in `invoke` and `requests.get` in `parse_json` become function parameters (`server`, `Service`). A connection failure is the `Unreachable` reply. The 30 s and 10 s timeouts are not modelled.
- Non-object AnkiConnect replies are not modelled: the reply is a decoded JSON object (`map<string, Json>`).
- `json.dumps`/`.json()` serialisation is not modelled; the envelope is a `Json` value.
- `open_anki` (process scan, `os.startfile`) is not modelled: it is OS process control.
- File I/O is not modelled. The asset files' contents are the `Assets` input. `get_words`, `load_cache` and the final `json.dump` of the cache are left out; the cache is the `NoteCache` object's initial value.
- `main` beyond its provisioning steps (loading the cache, `addNotes`, saving the cache) is not modelled: it is I/O around `get_notes`.
- `ThreadPool` parallelism is modelled as running the chunks one after another, in order. This fixes one interleaving of the threads that share the cache. With real threads, a word occurring in two chunks may be fetched twice, which `FetchesOnce` excludes for the sequential run.
- Failures: the model runs `get_note` word after word and ends the run at the first failing word in list order; its error is that word's, and its `fetched` words and cache cover only the words up to it. In the code, `pool.map` (app.py:170) groups consecutive chunks into pool tasks (several chunks per task once there are more than four chunks per worker); a task runs its chunks one after another and ends at the first exception, so the later chunks of the failing task are never looked up, while chunks in other pool tasks keep looking words up and writing to the cache. `pool.map` returns only after every task has finished and re-raises the exception of the first failing task to finish. In both, a failure means `get_notes` returns no notes. A policy where one word's failure leaves the other words' notes intact is not modelled.
- Provisioning.ProvisionResult: every `invoke` of app.py:226-229 (`modelNames`, `createModel`, `deckNames`, `createDeck`) is assumed to succeed, with the name sets as the replies. In the code a failing call raises `RequestException` out of `main` before the names exist; this failure branch is not modelled, and `ProvisionResult`, `ProvisionIdempotent` and `MainProvisions` speak only of the all-succeed run.
- `itertools.batched` (Python 3.12 and later) is not modelled separately: it yields the same chunks as the slicing branch, which is modelled.
- `dicts = DICTIONARIES` aliasing: `|=` mutates the module-level `DICTIONARIES`, so links passed to one call would persist into later calls. The model takes the flags as an input and does not track this global update. No caller passes links.
- Templates.LinkHtml: states only that unknown names add nothing, not the exact text of the five anchors. The anchors are 150–300-character literals that the prover cannot reason about within its resource limits. The body holds them verbatim.
- The exact `RequestException` type: every failed check is a `RequestException` value holding the message or the remote error.
- Required keys of a dictionary entry: the code subscripts `word`, `phonetics`, `meanings`, `partOfSpeech`, `definitions`, `definition` and a phonetic's `audio` without `.get`, so a missing key raises `KeyError` and aborts the whole `get_notes`. The model assumes every entry has these keys; its typed `Entry` cannot express a missing one.
- `logging`, gui.py and the unused `CREATED_PATH`/`CONFIG_PATH` constants are not part of this model.
- Python's truthiness for missing fields: a missing `example` is "", missing `synonyms`/`antonyms` are [], and a missing `phonetic` is "". A present but null value is not distinguished.
