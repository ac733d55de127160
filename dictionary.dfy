/** `parse_json`: rendering the first Free Dictionary API entry for a word into the
    Word, IPA and Meaning fields of a note and its audio attachment. The HTTP GET
    is replaced by its decoded reply. */
module Dictionary {
  import opened Results
  import opened Seqs

  /** One definition of a meaning group. A missing `example` is "" and missing
      `synonyms`/`antonyms` are [], which Python's truthiness treats alike. */
  datatype Definition = Definition(text: string, example: string, synonyms: seq<string>, antonyms: seq<string>)

  /** One entry of `meanings`: a part of speech, its definitions and its own synonyms. */
  datatype MeaningGroup = MeaningGroup(partOfSpeech: string, definitions: seq<Definition>, synonyms: seq<string>)

  datatype Phonetic = Phonetic(audio: string)

  /** One dictionary entry; a missing `phonetic` is "" (`word_json.get("phonetic", "")`). */
  datatype Entry = Entry(word: string, phonetic: string, phonetics: seq<Phonetic>, meanings: seq<MeaningGroup>)

  /** What the GET of `api/v2/entries/en/<word>` yields: a list of entries, the
      "No Definitions Found" object, or a network failure. */
  datatype LookupReply = Entries(entries: seq<Entry>) | NoDefinitions | Unreachable

  datatype FetchError = LookupNotFound(word: string) | TransportError(word: string)

  datatype Fields = Fields(word: string, ipa: string, meaning: string)

  /** The single element of the note's `audio` list. */
  datatype AudioAttachment = AudioAttachment(url: string, filename: string, fields: seq<string>)

  /** The dictionary `parse_json` returns. */
  datatype Rendered = Rendered(fields: Fields, audio: Option<AudioAttachment>)

  /** The two copies of the program: app.py and the older anki.py. */
  datatype Release = App | Anki

  /** The text before an example: app.py writes the arrow mis-encoded as "â†’",
      anki.py writes a correct "→". */
  function ExamplePrefix(release: Release): (p: string)
    ensures |p| > 7 && p[..6] == "&nbsp;" && p[|p| - 1] == ' '
  {
    match release
    case App => "&nbsp;\U{e2}\U{2020}\U{2019} "
    case Anki => "&nbsp;\U{2192} "
  }

  const Separator: string := "<hr /> "

  // ---------------------------------------------------------------- numbers

  predicate IsDigit(c: char) { '0' <= c <= '9' }

  function Digit(d: nat): char
    requires d < 10
  {
    "0123456789"[d]
  }

  /** `f"{n}"` for a natural number. */
  function Decimal(n: nat): (s: string)
    ensures |s| > 0 && forall i | 0 <= i < |s| :: IsDigit(s[i])
    ensures |s| == 1 || s[0] != '0'
  {
    if n < 10 then [Digit(n)]
    else
      var head := Decimal(n / 10);
      assert |head| == 1 ==> head[0] == Digit(n / 10) != '0';
      head + [Digit(n % 10)]
  }

  /** The value of a string of decimal digits. */
  function DecimalValue(s: string): nat
    requires forall i | 0 <= i < |s| :: IsDigit(s[i])
  {
    if |s| == 0 then 0
    else
      assert IsDigit(s[|s| - 1]);
      10 * DecimalValue(s[..|s| - 1]) + (s[|s| - 1] as int - '0' as int)
  }

  /** Reading back the number printed in front of a definition gives its number. */
  lemma {:induction false} DecimalRoundTrip(n: nat)
    ensures DecimalValue(Decimal(n)) == n
  {
    if n >= 10 {
      DecimalRoundTrip(n / 10);
      var s := Decimal(n);
      assert s[..|s| - 1] == Decimal(n / 10);
    }
  }

  /** `sep.join(xs)`. */
  function Join(xs: seq<string>, sep: string): string
  {
    if |xs| == 0 then "" else if |xs| == 1 then xs[0] else xs[0] + sep + Join(xs[1..], sep)
  }

  /** With no separator a join is the plain concatenation; otherwise its
      length is that of the items plus one separator between each two. */
  lemma {:induction false} JoinLayout(xs: seq<string>, sep: string)
    ensures sep == "" ==> Join(xs, sep) == Concat(xs)
    ensures |xs| > 0 ==> |Join(xs, sep)| == |Concat(xs)| + (|xs| - 1) * |sep|
    ensures |xs| > 0 ==> Join(xs, sep)[..|xs[0]|] == xs[0]
    decreases |xs|
  {
    if |xs| == 1 {
      ConcatSingleton(xs[0]);
    } else if |xs| > 1 {
      JoinLayout(xs[1..], sep);
      assert xs == [xs[0]] + xs[1..];
      ConcatCons(xs[0], xs[1..]);
      assert (|xs| - 1) * |sep| == |sep| + (|xs| - 2) * |sep|;
      assert (xs[0] + sep + Join(xs[1..], sep))[..|xs[0]|] == xs[0];
    }
  }

  // ---------------------------------------------------------------- rendering

  /** `[t]` when `present`, `[]` otherwise: a part written only when its field is truthy. */
  function Optional<T>(present: bool, t: T): seq<T>
  {
    if present then [t] else []
  }

  /** Concatenating an optional part appends it, or nothing. */
  lemma ConcatOptional<T>(parts: seq<seq<T>>, present: bool, t: seq<T>)
    ensures Concat(parts + Optional(present, t)) == Concat(parts) + (if present then t else [])
  {
    if present {
      ConcatSnoc(parts, t);
    } else {
      assert parts + Optional(present, t) == parts;
    }
  }

  /** The kinds of line a definition block can hold, in the order they are written. */
  datatype LineKind = Gloss | Example | Synonyms | Antonyms

  function Rank(k: LineKind): nat
  {
    match k
    case Gloss => 0
    case Example => 1
    case Synonyms => 2
    case Antonyms => 3
  }

  datatype Line = Line(kind: LineKind, text: string)

  /** The opening line of definition number n: `<div>n) text<br /> `. */
  function GlossText(n: nat, d: Definition): string
  {
    "<div>" + Decimal(n) + ") " + d.text + "<br /> "
  }

  function ExampleText(d: Definition, prefix: string): string
  {
    prefix + d.example + "<br />"
  }

  function SynonymsText(d: Definition): string
  {
    "&nbsp; synonyms: " + Join(d.synonyms, ", ") + "<br/>"
  }

  function AntonymsText(d: Definition): string
  {
    "&nbsp; antonyms: " + Join(d.antonyms, ", ") + "<br/>"
  }

  /** The lines of definition number n: its numbered text, then each optional line
      whose field is non-empty. */
  function DefinitionLines(n: nat, d: Definition, prefix: string): seq<Line>
  {
    [Line(Gloss, GlossText(n, d))]
    + Optional(d.example != "", Line(Example, ExampleText(d, prefix)))
    + Optional(|d.synonyms| > 0, Line(Synonyms, SynonymsText(d)))
    + Optional(|d.antonyms| > 0, Line(Antonyms, AntonymsText(d)))
  }

  function Texts(lines: seq<Line>): seq<string>
  {
    seq(|lines|, i requires 0 <= i < |lines| => lines[i].text)
  }

  /** Definition number n: its lines closed by `</div>`. */
  function DefinitionBlock(n: nat, d: Definition, prefix: string): string
  {
    Concat(Texts(DefinitionLines(n, d, prefix))) + "</div>"
  }

  /** The blocks of a group's definitions, numbered from 1 in source order. */
  function DefinitionBlockList(ds: seq<Definition>, prefix: string): seq<string>
  {
    seq(|ds|, j requires 0 <= j < |ds| => DefinitionBlock(j + 1, ds[j], prefix))
  }

  function DefinitionBlocks(ds: seq<Definition>, prefix: string): string
  {
    Concat(DefinitionBlockList(ds, prefix))
  }

  function GroupHead(g: MeaningGroup): string
  {
    g.partOfSpeech + ":"
  }

  function GroupSynonymsText(g: MeaningGroup): string
  {
    "synonyms: " + Join(g.synonyms, ", ") + "<br />"
  }

  /** The pieces `str_meaning` is built from: the part of speech, the numbered
      definitions, then the group's own synonyms if it has any. */
  function GroupParts(g: MeaningGroup, prefix: string): seq<string>
  {
    [GroupHead(g)] + DefinitionBlockList(g.definitions, prefix)
    + Optional(|g.synonyms| > 0, GroupSynonymsText(g))
  }

  /** `str_meaning` once a group is done. */
  function GroupBlock(g: MeaningGroup, prefix: string): string
  {
    Concat(GroupParts(g, prefix))
  }

  /** Each group followed by its separator, in source order. */
  function GroupBlockList(gs: seq<MeaningGroup>, prefix: string): seq<string>
  {
    seq(|gs|, k requires 0 <= k < |gs| => GroupBlock(gs[k], prefix) + Separator)
  }

  /** `res` after the loop over `meanings`. */
  function Accumulated(gs: seq<MeaningGroup>, prefix: string): string
  {
    Concat(GroupBlockList(gs, prefix))
  }

  /** `s[:-1]`: everything but the last character, and "" for "". */
  function DropLast(s: string): (r: string)
    ensures |s| == 0 ==> r == ""
    ensures |s| > 0 ==> r + [s[|s| - 1]] == s
  {
    if |s| == 0 then "" else s[..|s| - 1]
  }

  function MeaningText(gs: seq<MeaningGroup>, prefix: string): string
  {
    DropLast(Accumulated(gs, prefix))
  }

  /** The audio of the first phonetic that has one, or "" if none does. */
  function FirstAudio(phonetics: seq<Phonetic>): (a: string)
    ensures a != "" ==> exists i | 0 <= i < |phonetics| :: phonetics[i].audio == a
  {
    if |phonetics| == 0 then ""
    else if phonetics[0].audio != "" then phonetics[0].audio
    else FirstAudio(phonetics[1..])
  }

  /** The value `parse_json` returns for an entry. */
  function Render(e: Entry, prefix: string): (r: Rendered)
    ensures r.fields.word == e.word && r.fields.ipa == e.phonetic
    ensures r.fields.meaning == MeaningText(e.meanings, prefix)
    ensures r.audio.None? <==> FirstAudio(e.phonetics) == ""
    ensures r.audio.Some? ==> r.audio.value.url == FirstAudio(e.phonetics)
    ensures r.audio.Some? ==> r.audio.value.url == r.audio.value.filename != ""
                              && r.audio.value.fields == ["Sound"]
  {
    var audio := FirstAudio(e.phonetics);
    Rendered(Fields(e.word, e.phonetic, MeaningText(e.meanings, prefix)),
             if audio != "" then Some(AudioAttachment(audio, audio, ["Sound"])) else None)
  }

  /** `parse_json(word)` given the reply of the lookup: only the first entry is used. */
  function RenderReply(word: string, reply: LookupReply, prefix: string): (r: Result<Rendered, FetchError>)
    ensures reply.Unreachable? <==> r == Failure(TransportError(word))
    ensures r.Success? <==> reply.Entries? && |reply.entries| > 0
    ensures r.Success? ==> r.value == Render(reply.entries[0], prefix)
    ensures reply.NoDefinitions? || (reply.Entries? && |reply.entries| == 0) ==> r == Failure(LookupNotFound(word))
  {
    match reply
    case Unreachable => Failure(TransportError(word))
    case NoDefinitions => Failure(LookupNotFound(word))
    case Entries(entries) =>
      if |entries| == 0 then Failure(LookupNotFound(word)) else Success(Render(entries[0], prefix))
  }

  // ---------------------------------------------------------------- properties of the rendering

  /** Within a definition the lines come in the fixed order text, example,
      synonyms, antonyms, each optional line present exactly when its field is
      non-empty; the first line carries the definition's number and text. */
  lemma LinesInFixedOrder(n: nat, d: Definition, prefix: string)
    ensures var lines := DefinitionLines(n, d, prefix);
      && |lines| >= 1 && lines[0] == Line(Gloss, GlossText(n, d))
      && (forall i, j | 0 <= i < j < |lines| :: Rank(lines[i].kind) < Rank(lines[j].kind))
      && ((exists i | 0 <= i < |lines| :: lines[i].kind == Example) <==> d.example != "")
      && ((exists i | 0 <= i < |lines| :: lines[i].kind == Synonyms) <==> |d.synonyms| > 0)
      && ((exists i | 0 <= i < |lines| :: lines[i].kind == Antonyms) <==> |d.antonyms| > 0)
  {
    var e := Optional(d.example != "", Line(Example, ExampleText(d, prefix)));
    var s := Optional(|d.synonyms| > 0, Line(Synonyms, SynonymsText(d)));
    var a := Optional(|d.antonyms| > 0, Line(Antonyms, AntonymsText(d)));
    var lines := DefinitionLines(n, d, prefix);
    assert lines == [Line(Gloss, GlossText(n, d))] + e + s + a;
    if d.example != "" { assert lines[1].kind == Example; }
    if |d.synonyms| > 0 { assert lines[1 + |e|].kind == Synonyms; }
    if |d.antonyms| > 0 { assert lines[1 + |e| + |s|].kind == Antonyms; }
  }

  lemma TextsSnocOptional(lines: seq<Line>, present: bool, line: Line)
    ensures Texts(lines + Optional(present, line)) == Texts(lines) + Optional(present, line.text)
  {
  }

  /** A definition block written out piece by piece, as `parse_json` appends it. */
  lemma DefinitionBlockUnfold(n: nat, d: Definition, prefix: string)
    ensures DefinitionBlock(n, d, prefix)
         == GlossText(n, d)
            + (if d.example != "" then ExampleText(d, prefix) else "")
            + (if |d.synonyms| > 0 then SynonymsText(d) else "")
            + (if |d.antonyms| > 0 then AntonymsText(d) else "")
            + "</div>"
  {
    var g := [Line(Gloss, GlossText(n, d))];
    var e := Line(Example, ExampleText(d, prefix));
    var s := Line(Synonyms, SynonymsText(d));
    var a := Line(Antonyms, AntonymsText(d));
    var ge := g + Optional(d.example != "", e);
    var ges := ge + Optional(|d.synonyms| > 0, s);
    var gesa := ges + Optional(|d.antonyms| > 0, a);
    var t1 := GlossText(n, d);
    var t2 := t1 + (if d.example != "" then ExampleText(d, prefix) else "");
    var t3 := t2 + (if |d.synonyms| > 0 then SynonymsText(d) else "");
    var t4 := t3 + (if |d.antonyms| > 0 then AntonymsText(d) else "");
    assert Concat(Texts(g)) == t1 by {
      assert Texts(g) == [] + [t1];
      ConcatSnoc([], t1);
    }
    assert Concat(Texts(ge)) == t2 by {
      TextsSnocOptional(g, d.example != "", e);
      ConcatOptional(Texts(g), d.example != "", e.text);
    }
    assert Concat(Texts(ges)) == t3 by {
      TextsSnocOptional(ge, |d.synonyms| > 0, s);
      ConcatOptional(Texts(ge), |d.synonyms| > 0, s.text);
    }
    assert Concat(Texts(gesa)) == t4 by {
      TextsSnocOptional(ges, |d.antonyms| > 0, a);
      ConcatOptional(Texts(ges), |d.antonyms| > 0, a.text);
    }
    assert DefinitionLines(n, d, prefix) == gesa;
  }

  lemma DefinitionBlockListPrefix(ds: seq<Definition>, prefix: string, i: nat)
    requires i < |ds|
    ensures DefinitionBlockList(ds[..i + 1], prefix)
         == DefinitionBlockList(ds[..i], prefix) + [DefinitionBlock(i + 1, ds[i], prefix)]
    ensures DefinitionBlockList(ds, prefix)[..i] == DefinitionBlockList(ds[..i], prefix)
  {
  }

  lemma GroupBlockListPrefix(gs: seq<MeaningGroup>, prefix: string, k: nat)
    requires k < |gs|
    ensures GroupBlockList(gs[..k + 1], prefix)
         == GroupBlockList(gs[..k], prefix) + [GroupBlock(gs[k], prefix) + Separator]
    ensures GroupBlockList(gs, prefix)[..k] == GroupBlockList(gs[..k], prefix)
  {
  }

  /** A group is laid out as its part of speech and a colon, then all its
      numbered definitions, then its own synonyms line if it has synonyms. */
  lemma GroupLayout(g: MeaningGroup, prefix: string)
    ensures GroupBlock(g, prefix)
         == g.partOfSpeech + ":" + DefinitionBlocks(g.definitions, prefix)
            + (if |g.synonyms| > 0 then GroupSynonymsText(g) else "")
  {
    var defs := DefinitionBlockList(g.definitions, prefix);
    assert Concat([GroupHead(g)] + defs) == GroupHead(g) + DefinitionBlocks(g.definitions, prefix) by {
      ConcatCons(GroupHead(g), defs);
    }
    ConcatOptional([GroupHead(g)] + defs, |g.synonyms| > 0, GroupSynonymsText(g));
  }

  /** A definition block opens with its numbered text line and closes with `</div>`. */
  lemma DefinitionBlockShape(n: nat, d: Definition, prefix: string)
    ensures var b := DefinitionBlock(n, d, prefix);
            var head := GlossText(n, d);
      |head| + 6 <= |b| && b[..|head|] == head && b[|b| - 6..] == "</div>"
  {
    var texts := Texts(DefinitionLines(n, d, prefix));
    assert texts[0] == GlossText(n, d);
    ConcatAt(texts, 0);
    assert texts[..0] == [];
  }

  /** Definition j of a group is written right after its part of speech and the
      blocks of the definitions before it; its block opens with `<div>`, the
      number j+1 and the definition's text, and closes with `</div>`. */
  lemma DefinitionAt(g: MeaningGroup, prefix: string, j: nat)
    requires j < |g.definitions|
    ensures var off := |g.partOfSpeech| + 1 + |DefinitionBlocks(g.definitions[..j], prefix)|;
            var b := DefinitionBlock(j + 1, g.definitions[j], prefix);
            var head := GlossText(j + 1, g.definitions[j]);
      && off + |b| <= |GroupBlock(g, prefix)|
      && GroupBlock(g, prefix)[off..off + |b|] == b
      && |head| + 6 <= |b| && b[..|head|] == head && b[|b| - 6..] == "</div>"
  {
    DefinitionPart(g, prefix, j);
    ConcatAt(GroupParts(g, prefix), j + 1);
    DefinitionBlockShape(j + 1, g.definitions[j], prefix);
  }

  /** Part j + 1 of a group is the block of definition j, and the parts before it
      are the head and the blocks of the definitions before it. */
  lemma DefinitionPart(g: MeaningGroup, prefix: string, j: nat)
    requires j < |g.definitions|
    ensures var parts := GroupParts(g, prefix);
      && j + 1 < |parts|
      && parts[j + 1] == DefinitionBlock(j + 1, g.definitions[j], prefix)
      && |Concat(parts[..j + 1])| == |g.partOfSpeech| + 1 + |DefinitionBlocks(g.definitions[..j], prefix)|
  {
    var ds := g.definitions;
    var parts := GroupParts(g, prefix);
    assert parts == [GroupHead(g)] + DefinitionBlockList(ds, prefix)
                    + Optional(|g.synonyms| > 0, GroupSynonymsText(g));
    DefinitionBlockListPrefix(ds, prefix, j);
    assert parts[..j + 1] == [GroupHead(g)] + DefinitionBlockList(ds[..j], prefix);
    ConcatCons(GroupHead(g), DefinitionBlockList(ds[..j], prefix));
  }

  /** Group k of the entry sits right after the groups before it; it opens with its
      part of speech and a colon and is closed by exactly one separator. */
  lemma GroupAt(gs: seq<MeaningGroup>, prefix: string, k: nat)
    requires k < |gs|
    ensures var off := |Accumulated(gs[..k], prefix)|;
            var b := GroupBlock(gs[k], prefix) + Separator;
            var head := gs[k].partOfSpeech + ":";
      && off + |b| <= |Accumulated(gs, prefix)|
      && Accumulated(gs, prefix)[off..off + |b|] == b
      && |head| + |Separator| <= |b| && b[..|head|] == head && b[|b| - |Separator|..] == Separator
  {
    GroupBlockListPrefix(gs, prefix, k);
    ConcatAt(GroupBlockList(gs, prefix), k);
    GroupStartsWithHead(gs[k], prefix);
  }

  /** A group's text, separator included, opens with its part of speech and a
      colon and closes with the separator. */
  lemma GroupStartsWithHead(g: MeaningGroup, prefix: string)
    ensures var b := GroupBlock(g, prefix) + Separator;
      && |g.partOfSpeech| + 1 + |Separator| <= |b|
      && b[..|g.partOfSpeech| + 1] == g.partOfSpeech + ":"
      && b[|b| - |Separator|..] == Separator
  {
    var parts := GroupParts(g, prefix);
    var block := GroupBlock(g, prefix);
    assert block[..|g.partOfSpeech| + 1] == g.partOfSpeech + ":" by {
      assert parts[0] == GroupHead(g);
      ConcatAt(parts, 0);
      assert parts[..0] == [];
    }
    assert (block + Separator)[..|g.partOfSpeech| + 1] == block[..|g.partOfSpeech| + 1];
  }

  /** The Meaning field is the accumulated text minus its final character: the
      space of the last separator. It is empty exactly when there are no groups. */
  lemma MeaningDropsLastChar(gs: seq<MeaningGroup>, prefix: string)
    ensures |gs| == 0 <==> MeaningText(gs, prefix) == ""
    ensures |gs| > 0 ==> var m := MeaningText(gs, prefix);
      && m + " " == Accumulated(gs, prefix)
      && |m| >= 6 && m[|m| - 6..] == "<hr />"
  {
    if |gs| > 0 {
      AccumulatedEndsWithSeparator(gs, prefix);
      var acc := Accumulated(gs, prefix);
      var m := MeaningText(gs, prefix);
      assert acc[|acc| - 1] == Separator[6] == ' ';
      assert m[|m| - 6..] == Separator[..6] == "<hr />";
      assert m + " " == acc;
    }
  }

  /** With at least one group, the accumulated text ends with the last group's separator. */
  lemma AccumulatedEndsWithSeparator(gs: seq<MeaningGroup>, prefix: string)
    requires |gs| > 0
    ensures var acc := Accumulated(gs, prefix);
      |acc| >= |Separator| && acc[|acc| - |Separator|..] == Separator
  {
    var parts := GroupBlockList(gs, prefix);
    var last := GroupBlock(gs[|gs| - 1], prefix) + Separator;
    assert parts == parts[..|gs| - 1] + [last];
    ConcatSnoc(parts[..|gs| - 1], last);
    assert last[|last| - |Separator|..] == Separator;
  }

  /** The audio chosen is the one of the first phonetic that carries one. */
  lemma {:induction false} FirstAudioAt(phonetics: seq<Phonetic>, i: nat)
    requires i < |phonetics| && phonetics[i].audio != ""
    requires forall j | 0 <= j < i :: phonetics[j].audio == ""
    ensures FirstAudio(phonetics) == phonetics[i].audio
  {
    if i > 0 {
      FirstAudioAt(phonetics[1..], i - 1);
    }
  }

  /** There is no audio exactly when no phonetic carries one; otherwise the audio
      is that of some phonetic and every phonetic before it has none. */
  lemma {:induction false} FirstAudioSpec(phonetics: seq<Phonetic>)
    ensures FirstAudio(phonetics) == "" <==> forall i | 0 <= i < |phonetics| :: phonetics[i].audio == ""
    ensures FirstAudio(phonetics) != "" ==>
      exists i | 0 <= i < |phonetics| :: phonetics[i].audio == FirstAudio(phonetics)
                                       && forall j | 0 <= j < i :: phonetics[j].audio == ""
  {
    if |phonetics| > 0 && phonetics[0].audio == "" {
      var rest := phonetics[1..];
      FirstAudioSpec(rest);
      if FirstAudio(rest) != "" {
        var i :| 0 <= i < |rest| && rest[i].audio == FirstAudio(rest)
                 && forall j | 0 <= j < i :: rest[j].audio == "";
        assert phonetics[i + 1] == rest[i];
        forall j | 0 <= j < i + 1 ensures phonetics[j].audio == "" {
          if j > 0 { assert phonetics[j] == rest[j - 1]; }
        }
      } else {
        forall i | 0 <= i < |phonetics| ensures phonetics[i].audio == "" {
          if i > 0 { assert phonetics[i] == rest[i - 1]; }
        }
      }
    } else if |phonetics| > 0 {
      assert phonetics[0].audio == FirstAudio(phonetics);
    }
  }

  /** The audio attachment is absent exactly when no phonetic carries audio. */
  lemma AudioAbsentIffNoPhoneticAudio(e: Entry, prefix: string)
    ensures Render(e, prefix).audio.None?
            <==> forall i | 0 <= i < |e.phonetics| :: e.phonetics[i].audio == ""
    ensures Render(e, prefix).audio.Some? ==> Render(e, prefix).audio.value.url == FirstAudio(e.phonetics)
  {
    FirstAudioSpec(e.phonetics);
  }

  /** Two example prefixes render an entry alike when none of its definitions
      carries an example. */
  lemma SamePrefixFreeRendering(e: Entry, p1: string, p2: string)
    requires forall k, j | 0 <= k < |e.meanings| && 0 <= j < |e.meanings[k].definitions| ::
               e.meanings[k].definitions[j].example == ""
    ensures Render(e, p1) == Render(e, p2)
  {
    forall k | 0 <= k < |e.meanings|
      ensures GroupBlock(e.meanings[k], p1) == GroupBlock(e.meanings[k], p2)
    {
      var ds := e.meanings[k].definitions;
      forall j | 0 <= j < |ds|
        ensures DefinitionBlock(j + 1, ds[j], p1) == DefinitionBlock(j + 1, ds[j], p2)
      {
        assert DefinitionLines(j + 1, ds[j], p1) == DefinitionLines(j + 1, ds[j], p2);
      }
      assert DefinitionBlockList(ds, p1) == DefinitionBlockList(ds, p2);
      assert GroupParts(e.meanings[k], p1) == GroupParts(e.meanings[k], p2);
    }
    assert GroupBlockList(e.meanings, p1) == GroupBlockList(e.meanings, p2);
  }

  /** app.py and anki.py produce the same fields and audio for an entry none of
      whose definitions carries an example: the prefix is their only difference. */
  lemma ReleasesAgreeWithoutExamples(e: Entry)
    requires forall k, j | 0 <= k < |e.meanings| && 0 <= j < |e.meanings[k].definitions| ::
               e.meanings[k].definitions[j].example == ""
    ensures Render(e, ExamplePrefix(App)) == Render(e, ExamplePrefix(Anki))
  {
    SamePrefixFreeRendering(e, ExamplePrefix(App), ExamplePrefix(Anki));
  }

  // ---------------------------------------------------------------- the procedure

  /** The scan over `phonetics` that stops at the first non-empty audio. */
  method ScanAudio(phonetics: seq<Phonetic>) returns (audio: string)
    ensures audio == FirstAudio(phonetics)
  {
    audio := "";
    for i := 0 to |phonetics|
      invariant audio == ""
      invariant forall j | 0 <= j < i :: phonetics[j].audio == ""
    {
      if phonetics[i].audio != "" {
        audio := phonetics[i].audio;
        FirstAudioAt(phonetics, i);
        return;
      }
    }
    FirstAudioSpec(phonetics);
  }

  /** One definition as the inner loop of `parse_json` writes it. */
  method WriteDefinition(n: nat, meaning: Definition, prefix: string) returns (block: string)
    ensures block == DefinitionBlock(n, meaning, prefix)
  {
    var strDefinition := "<div>" + Decimal(n) + ") " + meaning.text + "<br /> ";
    if meaning.example != "" {
      strDefinition := strDefinition + (prefix + meaning.example + "<br />");
    }
    if |meaning.synonyms| > 0 {
      strDefinition := strDefinition + ("&nbsp; synonyms: " + Join(meaning.synonyms, ", ") + "<br/>");
    }
    if |meaning.antonyms| > 0 {
      strDefinition := strDefinition + ("&nbsp; antonyms: " + Join(meaning.antonyms, ", ") + "<br/>");
    }
    DefinitionBlockUnfold(n, meaning, prefix);
    block := strDefinition + "</div>";
  }

  /** One meaning group as the outer loop body of `parse_json` writes it: the part
      of speech, the numbered definitions, then the group's synonyms. */
  method WriteGroup(elem: MeaningGroup, prefix: string) returns (strMeaning: string)
    ensures strMeaning == GroupBlock(elem, prefix)
  {
    var meanings := elem.definitions;
    strMeaning := elem.partOfSpeech + ":";
    assert strMeaning == Concat([GroupHead(elem)] + DefinitionBlockList(meanings[..0], prefix)) by {
      assert [GroupHead(elem)] + DefinitionBlockList(meanings[..0], prefix) == [] + [GroupHead(elem)];
      ConcatSnoc([], GroupHead(elem));
    }
    for i := 0 to |meanings|
      invariant strMeaning == Concat([GroupHead(elem)] + DefinitionBlockList(meanings[..i], prefix))
    {
      var block := WriteDefinition(i + 1, meanings[i], prefix);
      ghost var done := [GroupHead(elem)] + DefinitionBlockList(meanings[..i], prefix);
      assert Concat([GroupHead(elem)] + DefinitionBlockList(meanings[..i + 1], prefix)) == strMeaning + block by {
        DefinitionBlockListPrefix(meanings, prefix, i);
        assert [GroupHead(elem)] + DefinitionBlockList(meanings[..i + 1], prefix) == done + [block];
        ConcatSnoc(done, block);
      }
      strMeaning := strMeaning + block;
    }
    assert strMeaning == Concat([GroupHead(elem)] + DefinitionBlockList(meanings, prefix)) by {
      assert meanings[..|meanings|] == meanings;
    }
    if |elem.synonyms| > 0 {
      strMeaning := strMeaning + ("synonyms: " + Join(elem.synonyms, ", ") + "<br />");
    }
    ConcatOptional([GroupHead(elem)] + DefinitionBlockList(meanings, prefix), |elem.synonyms| > 0, GroupSynonymsText(elem));
  }

  /** `parse_json(word)`: the loop that builds `res` group by group, the removal of
      its last character, then the audio scan. */
  method ParseJson(word: string, reply: LookupReply, prefix: string) returns (r: Result<Rendered, FetchError>)
    ensures r == RenderReply(word, reply, prefix)
  {
    if reply.Unreachable? {
      return Failure(TransportError(word));
    }
    if reply.NoDefinitions? || |reply.entries| == 0 {
      return Failure(LookupNotFound(word));
    }
    var entry := reply.entries[0];
    var res := "";
    for k := 0 to |entry.meanings|
      invariant res == Concat(GroupBlockList(entry.meanings[..k], prefix))
    {
      var strMeaning := WriteGroup(entry.meanings[k], prefix);
      GroupBlockListPrefix(entry.meanings, prefix, k);
      ConcatSnoc(GroupBlockList(entry.meanings[..k], prefix), strMeaning + Separator);
      res := res + (strMeaning + Separator);
    }
    assert entry.meanings[..|entry.meanings|] == entry.meanings;
    var audio := ScanAudio(entry.phonetics);
    r := Success(Rendered(Fields(entry.word, entry.phonetic, DropLast(res)),
                          if audio != "" then Some(AudioAttachment(audio, audio, ["Sound"])) else None));
  }
}
