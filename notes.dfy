/** `get_note`, `get_notes` and the `threading` decorator: building notes for a
    word list through a word -> note cache that is updated in place. The thread
    pool is modelled as running the chunks one after the other, in order. */
module Notes {
  import opened Results
  import opened Seqs
  import opened Batching
  import opened Dictionary
  import Templates

  /** The parameters of an `addNote` call, as `get_note` builds them. */
  datatype Note = Note(deckName: string, modelName: string, allowDuplicate: bool,
                       fields: Fields, audio: Option<AudioAttachment>)

  /** What `get_note` reads besides the word and the cache: `CACHE_ENABLED`, its
      keyword arguments, and which copy of the program runs (for the example prefix). */
  datatype NoteConfig = NoteConfig(cacheEnabled: bool, deckName: string, modelName: string,
                                   allowDuplicate: bool, release: Release)

  /** The defaults of constants.py and of `get_note`'s signature. */
  const DefaultConfig: NoteConfig := NoteConfig(true, Templates.DeckName, Templates.ModelName, false, App)

  type Cache = map<string, Note>

  /** The dictionary service: the reply the GET yields for each word. */
  type Service = string -> LookupReply

  /** The note built from a fresh lookup of the word. */
  function BuildNote(word: string, cfg: NoteConfig, service: Service): (r: Result<Note, FetchError>)
    ensures r.Success? <==> service(word).Entries? && |service(word).entries| > 0
    ensures r.Success? ==> && r.value.deckName == cfg.deckName && r.value.modelName == cfg.modelName
                           && r.value.allowDuplicate == cfg.allowDuplicate
                           && r.value.fields.word == service(word).entries[0].word
    ensures r.Success? ==> var rendered := Render(service(word).entries[0], ExamplePrefix(cfg.release));
                           r.value.fields == rendered.fields && r.value.audio == rendered.audio
  {
    match RenderReply(word, service(word), ExamplePrefix(cfg.release))
    case Failure(e) => Failure(e)
    case Success(w) => Success(Note(cfg.deckName, cfg.modelName, cfg.allowDuplicate, w.fields, w.audio))
  }

  /** With the defaults, a note goes to the "Lazy English" deck with the "Lazy
      English Cards" note type, duplicates refused, and the example arrow of app.py. */
  lemma DefaultNote(word: string, service: Service)
    ensures var r := BuildNote(word, DefaultConfig, service);
      r.Success? ==> && r.value.deckName == "Lazy English" && r.value.modelName == "Lazy English Cards"
                     && !r.value.allowDuplicate
                     && r.value.fields == Render(service(word).entries[0], ExamplePrefix(App)).fields
  {
  }

  /** How `get_note` obtains a note on a cache miss. */
  type Fetch = string -> Result<Note, FetchError>

  /** A fresh lookup through the dictionary service, rendered into a note. */
  function Fetcher(cfg: NoteConfig, service: Service): Fetch
  {
    w => BuildNote(w, cfg, service)
  }

  /** The outcome of one `get_note` call, the cache after it, and the words it fetched. */
  datatype Step = Step(outcome: Result<Note, FetchError>, cache: Cache, fetched: seq<string>)

  /** `get_note(word, cache)`: a cache hit short-circuits the lookup; a miss builds
      the note and, with caching on, stores it under the word. A failed lookup
      raises before the cache is touched. */
  function NoteStep(cache: Cache, word: string, caching: bool, fetch: Fetch): (s: Step)
    ensures caching && word in cache ==> s == Step(Success(cache[word]), cache, [])
    ensures !(caching && word in cache) ==> s.fetched == [word] && s.outcome == fetch(word)
    ensures s.cache.Keys == cache.Keys + (if caching && s.outcome.Success? then {word} else {})
    ensures forall k | k in cache :: s.cache[k] == cache[k]
    ensures caching && s.outcome.Success? ==> s.cache[word] == s.outcome.value
  {
    if caching && word in cache then Step(Success(cache[word]), cache, [])
    else
      var built := fetch(word);
      Step(built, if caching && built.Success? then cache[word := built.value] else cache, [word])
  }

  /** The outcome of `get_note` over a list of words, the cache after it, and the
      words fetched. The first failure ends the run, as the raised exception does. */
  datatype Batch = Batch(outcome: Result<seq<Note>, FetchError>, cache: Cache, fetched: seq<string>)

  function PrependAll(ns: seq<Note>, o: Result<seq<Note>, FetchError>): Result<seq<Note>, FetchError>
  {
    match o
    case Success(ms) => Success(ns + ms)
    case Failure(e) => Failure(e)
  }

  /** `[get_note(word, cache) for word in words]`, one word after the other. */
  function RunWords(cache: Cache, words: seq<string>, caching: bool, fetch: Fetch): (b: Batch)
    ensures |b.fetched| <= |words|
    ensures b.outcome.Failure? ==> |b.fetched| > 0
    decreases |words|
  {
    if |words| == 0 then Batch(Success([]), cache, [])
    else
      var s := NoteStep(cache, words[0], caching, fetch);
      match s.outcome
      case Failure(e) => Batch(Failure(e), s.cache, s.fetched)
      case Success(n) =>
        var rest := RunWords(s.cache, words[1..], caching, fetch);
        Batch(PrependAll([n], rest.outcome), rest.cache, s.fetched + rest.fetched)
  }

  /** Running more words after a batch, unless the batch already failed. */
  function Then(first: Batch, rest: seq<string>, caching: bool, fetch: Fetch): Batch
  {
    match first.outcome
    case Failure(_) => first
    case Success(ns) =>
      var next := RunWords(first.cache, rest, caching, fetch);
      Batch(PrependAll(ns, next.outcome), next.cache, first.fetched + next.fetched)
  }

  /** Prepending one successful step commutes with running more words after it. */
  lemma ThenPrepend(n: Note, fetched: seq<string>, tail: Batch, rest: seq<string>, caching: bool, fetch: Fetch)
    ensures var after := Then(tail, rest, caching, fetch);
      Then(Batch(PrependAll([n], tail.outcome), tail.cache, fetched + tail.fetched), rest, caching, fetch)
      == Batch(PrependAll([n], after.outcome), after.cache, fetched + after.fetched)
  {
    if tail.outcome.Success? {
      var next := RunWords(tail.cache, rest, caching, fetch);
      assert fetched + (tail.fetched + next.fetched) == (fetched + tail.fetched) + next.fetched;
      if next.outcome.Success? {
        assert [n] + (tail.outcome.value + next.outcome.value) == ([n] + tail.outcome.value) + next.outcome.value;
      }
    }
  }

  /** Running a + b is running a, then b on the cache a left behind. */
  lemma {:induction false} RunWordsAppend(cache: Cache, a: seq<string>, b: seq<string>, caching: bool, fetch: Fetch)
    ensures RunWords(cache, a + b, caching, fetch) == Then(RunWords(cache, a, caching, fetch), b, caching, fetch)
    decreases |a|
  {
    if |a| == 0 {
      assert a + b == b;
      var r := RunWords(cache, b, caching, fetch);
      if r.outcome.Success? {
        assert [] + r.outcome.value == r.outcome.value;
      }
    } else {
      assert (a + b)[0] == a[0] && (a + b)[1..] == a[1..] + b;
      var s := NoteStep(cache, a[0], caching, fetch);
      if s.outcome.Success? {
        RunWordsAppend(s.cache, a[1..], b, caching, fetch);
        ThenPrepend(s.outcome.value, s.fetched, RunWords(s.cache, a[1..], caching, fetch), b, caching, fetch);
      }
    }
  }

  /** Once a run has failed, further words change nothing. */
  lemma RunWordsStops(cache: Cache, a: seq<string>, b: seq<string>, caching: bool, fetch: Fetch)
    requires RunWords(cache, a, caching, fetch).outcome.Failure?
    ensures RunWords(cache, a + b, caching, fetch) == RunWords(cache, a, caching, fetch)
  {
    RunWordsAppend(cache, a, b, caching, fetch);
  }

  /** One more word after a successful run is one more `get_note` step. */
  lemma RunWordsSnoc(cache: Cache, words: seq<string>, w: string, caching: bool, fetch: Fetch,
                     done: seq<Note>, mid: Cache, fetchedBefore: seq<string>,
                     n: Result<Note, FetchError>, after: Cache, fetchedNow: seq<string>)
    requires Batch(Success(done), mid, fetchedBefore) == RunWords(cache, words, caching, fetch)
    requires Step(n, after, fetchedNow) == NoteStep(mid, w, caching, fetch)
    ensures RunWords(cache, words + [w], caching, fetch)
         == Batch(if n.Success? then Success(done + [n.value]) else Failure(n.error), after, fetchedBefore + fetchedNow)
  {
    RunWordsAppend(cache, words, [w], caching, fetch);
    assert [w][1..] == [] && [w][0] == w;
    var next := RunWords(mid, [w], caching, fetch);
    assert RunWords(after, [], caching, fetch) == Batch(Success([]), after, []);
    if n.Success? {
      assert [n.value] + [] == [n.value] && fetchedNow + [] == fetchedNow;
      assert next == Batch(Success([n.value]), after, fetchedNow);
    } else {
      assert next == Batch(Failure(n.error), after, fetchedNow);
    }
  }

  /** One iteration of the loop over a chunk: a success extends the run by one
      word, a failure ends the run over the whole chunk. */
  lemma WordStep(cache: Cache, words: seq<string>, i: nat, caching: bool, fetch: Fetch,
                 done: seq<Note>, mid: Cache, fetchedBefore: seq<string>,
                 n: Result<Note, FetchError>, after: Cache, fetchedNow: seq<string>)
    requires i < |words|
    requires Batch(Success(done), mid, fetchedBefore) == RunWords(cache, words[..i], caching, fetch)
    requires Step(n, after, fetchedNow) == NoteStep(mid, words[i], caching, fetch)
    ensures n.Success? ==> Batch(Success(done + [n.value]), after, fetchedBefore + fetchedNow)
                           == RunWords(cache, words[..i + 1], caching, fetch)
    ensures n.Failure? ==> Batch(Failure(n.error), after, fetchedBefore + fetchedNow)
                           == RunWords(cache, words, caching, fetch)
  {
    assert words[..i + 1] == words[..i] + [words[i]];
    RunWordsSnoc(cache, words[..i], words[i], caching, fetch, done, mid, fetchedBefore, n, after, fetchedNow);
    if n.Failure? {
      assert words == words[..i + 1] + words[i + 1..];
      RunWordsStops(cache, words[..i + 1], words[i + 1..], caching, fetch);
    }
  }

  /** One iteration of the loop over the chunks: a chunk that succeeds extends
      the run by its words, a failing chunk ends the run over all words. */
  lemma ChunkStep(cache: Cache, chunks: seq<seq<string>>, k: nat, caching: bool, fetch: Fetch,
                  results: seq<seq<Note>>, mid: Cache, fetchedBefore: seq<string>,
                  res: Result<seq<Note>, FetchError>, after: Cache, fetchedNow: seq<string>)
    requires k < |chunks|
    requires Batch(Success(Concat(results)), mid, fetchedBefore) == RunWords(cache, Concat(chunks[..k]), caching, fetch)
    requires Batch(res, after, fetchedNow) == RunWords(mid, chunks[k], caching, fetch)
    ensures res.Success? ==> Batch(Success(Concat(results + [res.value])), after, fetchedBefore + fetchedNow)
                             == RunWords(cache, Concat(chunks[..k + 1]), caching, fetch)
    ensures res.Failure? ==> Batch(Failure(res.error), after, fetchedBefore + fetchedNow)
                             == RunWords(cache, Concat(chunks), caching, fetch)
  {
    assert chunks[..k + 1] == chunks[..k] + [chunks[k]];
    ConcatSnoc(chunks[..k], chunks[k]);
    RunWordsAppend(cache, Concat(chunks[..k]), chunks[k], caching, fetch);
    if res.Success? {
      ConcatSnoc(results, res.value);
    } else {
      assert chunks == chunks[..k + 1] + chunks[k + 1..];
      ConcatAppend(chunks[..k + 1], chunks[k + 1..]);
      RunWordsStops(cache, Concat(chunks[..k + 1]), Concat(chunks[k + 1..]), caching, fetch);
    }
  }

  /** A batch that succeeds yields one note per word. */
  lemma {:induction false} RunWordsLength(cache: Cache, words: seq<string>, caching: bool, fetch: Fetch)
    ensures var b := RunWords(cache, words, caching, fetch);
      b.outcome.Success? ==> |b.outcome.value| == |words|
    decreases |words|
  {
    if |words| > 0 {
      var s := NoteStep(cache, words[0], caching, fetch);
      if s.outcome.Success? {
        RunWordsLength(s.cache, words[1..], caching, fetch);
      }
    }
  }

  /** With caching on, entries already cached are never overwritten and only
      words of the list are added. */
  lemma {:induction false} RunWordsKeepsEntries(cache: Cache, words: seq<string>, caching: bool, fetch: Fetch)
    requires caching
    ensures var b := RunWords(cache, words, caching, fetch);
      && (forall k | k in cache :: k in b.cache && b.cache[k] == cache[k])
      && (forall k | k in b.cache :: k in cache || k in words)
    decreases |words|
  {
    if |words| > 0 {
      var s := NoteStep(cache, words[0], caching, fetch);
      if s.outcome.Success? {
        RunWordsKeepsEntries(s.cache, words[1..], caching, fetch);
        var b := RunWords(cache, words, caching, fetch);
        forall k | k in b.cache ensures k in cache || k in words {
          if k !in cache && k != words[0] {
            assert k in words[1..];
          }
        }
      }
    }
  }

  /** With caching on, after a successful batch every word is cached and note i
      is the cached note of word i, so equal words get equal notes. */
  lemma {:induction false} RunWordsCached(cache: Cache, words: seq<string>, caching: bool, fetch: Fetch)
    requires caching
    ensures var b := RunWords(cache, words, caching, fetch);
      b.outcome.Success? ==>
        && |b.outcome.value| == |words|
        && forall i | 0 <= i < |words| :: words[i] in b.cache && b.outcome.value[i] == b.cache[words[i]]
    decreases |words|
  {
    if |words| > 0 {
      var s := NoteStep(cache, words[0], caching, fetch);
      if s.outcome.Success? {
        RunWordsCached(s.cache, words[1..], caching, fetch);
        RunWordsKeepsEntries(s.cache, words[1..], caching, fetch);
        var b := RunWords(cache, words, caching, fetch);
        if b.outcome.Success? {
          forall i | 0 <= i < |words|
            ensures words[i] in b.cache && b.outcome.value[i] == b.cache[words[i]]
          {
            if i > 0 {
              assert words[i] == words[1..][i - 1];
            }
          }
        }
      }
    }
  }

  /** With caching on, every entry of the cache after a run is either one that
      was there before, unchanged, or the note fetched for its key. */
  lemma {:induction false} RunWordsCacheSound(cache: Cache, words: seq<string>, caching: bool, fetch: Fetch)
    requires caching
    ensures var b := RunWords(cache, words, caching, fetch);
      forall k | k in b.cache :: if k in cache then b.cache[k] == cache[k] else fetch(k) == Success(b.cache[k])
    decreases |words|
  {
    if |words| > 0 {
      var s := NoteStep(cache, words[0], caching, fetch);
      if s.outcome.Success? {
        RunWordsCacheSound(s.cache, words[1..], caching, fetch);
      }
    }
  }

  /** With caching on, note i of a successful batch is the note cached for
      words[i] before the run, or else the note fetched for words[i]. */
  lemma NotesMatchWords(cache: Cache, words: seq<string>, caching: bool, fetch: Fetch)
    requires caching
    ensures var b := RunWords(cache, words, caching, fetch);
      b.outcome.Success? ==>
        && |b.outcome.value| == |words|
        && forall i | 0 <= i < |words| ::
          if words[i] in cache then b.outcome.value[i] == cache[words[i]]
          else fetch(words[i]) == Success(b.outcome.value[i])
  {
    RunWordsCached(cache, words, caching, fetch);
    RunWordsCacheSound(cache, words, caching, fetch);
  }

  /** With caching off the cache is left alone and every word is looked up afresh. */
  lemma {:induction false} RunWordsUncached(cache: Cache, words: seq<string>, caching: bool, fetch: Fetch)
    requires !caching
    ensures var b := RunWords(cache, words, caching, fetch);
      && b.cache == cache
      && (b.outcome.Success? ==>
            && b.fetched == words && |b.outcome.value| == |words|
            && forall i | 0 <= i < |words| :: fetch(words[i]) == Success(b.outcome.value[i]))
    decreases |words|
  {
    if |words| > 0 {
      var s := NoteStep(cache, words[0], caching, fetch);
      if s.outcome.Success? {
        RunWordsUncached(s.cache, words[1..], caching, fetch);
        var b := RunWords(cache, words, caching, fetch);
        if b.outcome.Success? {
          assert words == [words[0]] + words[1..];
          forall i | 0 <= i < |words|
            ensures fetch(words[i]) == Success(b.outcome.value[i])
          {
            if i > 0 {
              assert words[i] == words[1..][i - 1];
            }
          }
        }
      }
    }
  }

  /** With caching on, a word is fetched only if it occurs in the list and was
      not cached before the run. */
  lemma {:induction false} FetchesOnlyMisses(cache: Cache, words: seq<string>, caching: bool, fetch: Fetch)
    requires caching
    ensures forall w | w in RunWords(cache, words, caching, fetch).fetched :: w !in cache && w in words
    decreases |words|
  {
    if |words| > 0 {
      var s := NoteStep(cache, words[0], caching, fetch);
      if s.outcome.Success? {
        FetchesOnlyMisses(s.cache, words[1..], caching, fetch);
        var rest := RunWords(s.cache, words[1..], caching, fetch);
        assert RunWords(cache, words, caching, fetch).fetched == s.fetched + rest.fetched;
        forall w | w in rest.fetched ensures w !in cache && w in words {
          assert w in words[1..];
        }
      }
    }
  }

  predicate Distinct<T(==)>(xs: seq<T>)
  {
    forall i, j | 0 <= i < j < |xs| :: xs[i] != xs[j]
  }

  lemma DistinctCons<T>(x: T, xs: seq<T>)
    requires x !in xs && Distinct(xs)
    ensures Distinct([x] + xs)
  {
    forall i, j | 0 <= i < j < |[x] + xs| ensures ([x] + xs)[i] != ([x] + xs)[j] {
      if i == 0 {
        assert ([x] + xs)[j] == xs[j - 1];
      } else {
        assert ([x] + xs)[i] == xs[i - 1] && ([x] + xs)[j] == xs[j - 1];
      }
    }
  }

  /** With caching on, each word is fetched at most once per run, even when it
      occurs several times in the list. */
  lemma {:induction false} FetchesOnce(cache: Cache, words: seq<string>, caching: bool, fetch: Fetch)
    requires caching
    ensures Distinct(RunWords(cache, words, caching, fetch).fetched)
    decreases |words|
  {
    if |words| > 0 {
      var s := NoteStep(cache, words[0], caching, fetch);
      if s.outcome.Success? {
        FetchesOnce(s.cache, words[1..], caching, fetch);
        var rest := RunWords(s.cache, words[1..], caching, fetch);
        assert RunWords(cache, words, caching, fetch).fetched == s.fetched + rest.fetched;
        if s.fetched != [] {
          FetchesOnlyMisses(s.cache, words[1..], caching, fetch);
          assert s.fetched == [words[0]] && words[0] in s.cache;
          DistinctCons(words[0], rest.fetched);
        } else {
          assert s.fetched + rest.fetched == rest.fetched;
        }
      }
    }
  }

  /** The cached notes of the words, in word order. */
  function CachedNotes(cache: Cache, words: seq<string>): (ns: seq<Note>)
    requires forall i | 0 <= i < |words| :: words[i] in cache
    ensures |ns| == |words| && forall i | 0 <= i < |words| :: ns[i] == cache[words[i]]
  {
    seq(|words|, i requires 0 <= i < |words| => cache[words[i]])
  }

  /** When every word is cached, the run fetches nothing, changes nothing and
      returns the cached notes in word order. */
  lemma {:induction false} AllHits(cache: Cache, words: seq<string>, caching: bool, fetch: Fetch)
    requires caching
    requires forall i | 0 <= i < |words| :: words[i] in cache
    ensures RunWords(cache, words, caching, fetch) == Batch(Success(CachedNotes(cache, words)), cache, [])
    decreases |words|
  {
    if |words| > 0 {
      assert words[0] in cache;
      var s := NoteStep(cache, words[0], caching, fetch);
      assert s == Step(Success(cache[words[0]]), cache, []);
      AllHits(cache, words[1..], caching, fetch);
      assert [cache[words[0]]] + CachedNotes(cache, words[1..]) == CachedNotes(cache, words);
    }
  }

  /** Running the same word list again on the cache a successful run left behind
      fetches nothing and yields the same notes: repeated runs are idempotent. */
  lemma SecondRunFetchesNothing(cache: Cache, words: seq<string>, caching: bool, fetch: Fetch)
    requires caching
    requires RunWords(cache, words, caching, fetch).outcome.Success?
    ensures var b := RunWords(cache, words, caching, fetch);
      RunWords(b.cache, words, caching, fetch) == Batch(b.outcome, b.cache, [])
  {
    var b := RunWords(cache, words, caching, fetch);
    RunWordsCached(cache, words, caching, fetch);
    AllHits(b.cache, words, caching, fetch);
    assert b.outcome.value == CachedNotes(b.cache, words);
  }

  /** The `cache` dictionary that `main` hands to `get_notes` and that
      `get_note` updates in place. */
  class NoteCache {
    var entries: Cache

    constructor (initial: Cache)
      ensures entries == initial
    {
      entries := initial;
    }

    /** `get_note(word, cache)`. The ghost `fetched` records whether the
        dictionary service was asked. */
    method GetNote(word: string, cfg: NoteConfig, service: Service)
      returns (r: Result<Note, FetchError>, ghost fetched: seq<string>)
      modifies this
      ensures Step(r, entries, fetched) == NoteStep(old(entries), word, cfg.cacheEnabled, Fetcher(cfg, service))
    {
      if cfg.cacheEnabled && word in entries {
        return Success(entries[word]), [];
      }
      fetched := [word];
      var rendered := ParseJson(word, service(word), ExamplePrefix(cfg.release));
      if rendered.Failure? {
        return Failure(rendered.error), fetched;
      }
      var note := Note(cfg.deckName, cfg.modelName, cfg.allowDuplicate, rendered.value.fields, rendered.value.audio);
      if cfg.cacheEnabled {
        entries := entries[word := note];
      }
      r := Success(note);
    }

    /** `get_notes` applied to one chunk: `get_note` for each word in order. */
    method GetChunkNotes(words: seq<string>, cfg: NoteConfig, service: Service)
      returns (r: Result<seq<Note>, FetchError>, ghost fetched: seq<string>)
      modifies this
      ensures Batch(r, entries, fetched) == RunWords(old(entries), words, cfg.cacheEnabled, Fetcher(cfg, service))
    {
      var notes: seq<Note> := [];
      fetched := [];
      for i := 0 to |words|
        invariant Batch(Success(notes), entries, fetched)
               == RunWords(old(entries), words[..i], cfg.cacheEnabled, Fetcher(cfg, service))
      {
        ghost var before := entries;
        var n, f := GetNote(words[i], cfg, service);
        WordStep(old(entries), words, i, cfg.cacheEnabled, Fetcher(cfg, service), notes, before, fetched, n, entries, f);
        if n.Failure? {
          return Failure(n.error), fetched + f;
        }
        notes := notes + [n.value];
        fetched := fetched + f;
      }
      assert words[..|words|] == words;
      r := Success(notes);
    }

    /** `get_notes(words, cache=cache)`: the `threading` decorator splits the
        words into chunks of five, runs `get_notes` on each chunk and flattens
        the results. The chunks run one after the other here. */
    method GetNotes(words: seq<string>, cfg: NoteConfig, service: Service)
      returns (r: Result<seq<Note>, FetchError>, ghost fetched: seq<string>)
      modifies this
      ensures Batch(r, entries, fetched) == RunWords(old(entries), words, cfg.cacheEnabled, Fetcher(cfg, service))
    {
      var chunks := Chunks(words, ChunkSize);
      var results: seq<seq<Note>> := [];
      fetched := [];
      ChunksConcat(words, ChunkSize);
      for k := 0 to |chunks|
        invariant Batch(Success(Concat(results)), entries, fetched)
               == RunWords(old(entries), Concat(chunks[..k]), cfg.cacheEnabled, Fetcher(cfg, service))
      {
        ghost var before := entries;
        var res, f := GetChunkNotes(chunks[k], cfg, service);
        ChunkStep(old(entries), chunks, k, cfg.cacheEnabled, Fetcher(cfg, service), results, before, fetched, res, entries, f);
        if res.Failure? {
          return Failure(res.error), fetched + f;
        }
        results := results + [res.value];
        fetched := fetched + f;
      }
      assert chunks[..|chunks|] == chunks;
      r := Success(Concat(results));
    }
  }
}
