/** `get_model`: the parameters of AnkiConnect's `createModel` action, with
    the back template extended by one link per enabled online dictionary. */
module Templates {
  import opened Results

  /** An insertion-ordered Python dict from dictionary name to "show a link". */
  type Flags = seq<(string, bool)>

  /** A dict has each key once. */
  predicate UniqueKeys(fs: Flags)
  {
    forall i, j | 0 <= i < j < |fs| :: fs[i].0 != fs[j].0
  }

  /** `MODEL_NAME` and `DECK_NAME` of constants.py. */
  const ModelName: string := "Lazy English Cards"
  const DeckName: string := "Lazy English"

  /** The module-level `DICTIONARIES` of constants.py. */
  const Dictionaries: Flags :=
    [("Oxford", false), ("Cambridge", true), ("Macmillan", true), ("Urban Dictionary", true), ("Cambridge (ru)", false)]

  /** `fs.get(key)`. */
  function Lookup(fs: Flags, key: string): (r: Option<bool>)
    ensures r.Some? <==> exists i | 0 <= i < |fs| :: fs[i].0 == key
  {
    if |fs| == 0 then None
    else if fs[0].0 == key then Some(fs[0].1)
    else
      var r := Lookup(fs[1..], key);
      assert forall i | 1 <= i < |fs| :: fs[i] == fs[1..][i - 1];
      r
  }

  /** `fs[key] = value`: an existing key keeps its position, a new key goes last. */
  function Put(fs: Flags, key: string, value: bool): (r: Flags)
    ensures |r| == if Lookup(fs, key).Some? then |fs| else |fs| + 1
    ensures forall i | 0 <= i < |fs| :: r[i].0 == fs[i].0
    ensures |r| == |fs| + 1 ==> r[|fs|] == (key, value)
  {
    if |fs| == 0 then [(key, value)]
    else if fs[0].0 == key then [(key, value)] + fs[1..]
    else
      var rest := Put(fs[1..], key, value);
      assert forall i | 0 <= i < |rest| :: ([fs[0]] + rest)[i + 1] == rest[i];
      [fs[0]] + rest
  }

  /** After `fs[key] = value` the key maps to value and every other key is unchanged. */
  lemma {:induction false} PutLookup(fs: Flags, key: string, value: bool, k: string)
    ensures Lookup(Put(fs, key, value), k) == if k == key then Some(value) else Lookup(fs, k)
    decreases |fs|
  {
    if |fs| > 0 && fs[0].0 != key {
      PutLookup(fs[1..], key, value, k);
      assert Put(fs, key, value)[1..] == Put(fs[1..], key, value);
    } else if |fs| > 0 {
      assert Put(fs, key, value)[1..] == fs[1..];
    }
  }

  /** Setting a key never duplicates it. */
  lemma PutUnique(fs: Flags, key: string, value: bool)
    requires UniqueKeys(fs)
    ensures UniqueKeys(Put(fs, key, value))
  {
    var r := Put(fs, key, value);
    forall i, j | 0 <= i < j < |r| ensures r[i].0 != r[j].0 {
      if j == |fs| {
        assert r[j].0 == key && Lookup(fs, key).None?;
        assert fs[i].0 != key;
      }
    }
  }

  /** `fs |= links`: every link in order is put into fs. */
  function Merge(fs: Flags, links: Flags): (r: Flags)
    ensures |fs| <= |r| <= |fs| + |links|
    ensures forall i | 0 <= i < |fs| :: r[i].0 == fs[i].0
  {
    if |links| == 0 then fs
    else Put(Merge(fs, links[..|links| - 1]), links[|links| - 1].0, links[|links| - 1].1)
  }

  /** The items of links whose key fs lacks, in links order. */
  function Fresh(fs: Flags, links: Flags): (r: Flags)
    ensures forall i | 0 <= i < |r| :: Lookup(fs, r[i].0).None? && r[i] in links
  {
    if |links| == 0 then []
    else
      var last := links[|links| - 1];
      Fresh(fs, links[..|links| - 1]) + (if Lookup(fs, last.0).None? then [last] else [])
  }

  /** The fresh items of the earlier links never carry the last link's key. */
  lemma FreshAvoidsLast(fs: Flags, links: Flags)
    requires UniqueKeys(links) && |links| > 0
    ensures var f := Fresh(fs, links[..|links| - 1]);
      forall i | 0 <= i < |f| :: f[i].0 != links[|links| - 1].0
  {
    var init := links[..|links| - 1];
    var f := Fresh(fs, init);
    forall i | 0 <= i < |f| ensures f[i].0 != links[|links| - 1].0 {
      var j :| 0 <= j < |init| && init[j] == f[i];
      assert links[j] == init[j];
    }
  }

  /** Putting a key leaves every item that carries another key where it was. */
  lemma {:induction false} PutAt(m: Flags, key: string, value: bool, i: nat)
    requires i < |m| && m[i].0 != key
    ensures |Put(m, key, value)| >= |m| && Put(m, key, value)[i] == m[i]
    decreases i
  {
    if m[0].0 != key && i > 0 {
      PutAt(m[1..], key, value, i - 1);
    }
  }

  /** Putting a key that occurs in none of the items from lo on leaves them as they are. */
  lemma PutKeepsTail(m: Flags, key: string, value: bool, lo: nat)
    requires lo <= |m| && forall i | lo <= i < |m| :: m[i].0 != key
    ensures |Put(m, key, value)| >= |m| && Put(m, key, value)[lo..|m|] == m[lo..]
  {
    var r := Put(m, key, value);
    forall i | lo <= i < |m| ensures r[i] == m[i] {
      PutAt(m, key, value, i);
    }
    assert r[lo..|m|] == m[lo..];
  }

  /** Assigning a key that m holds before lo, and nowhere from lo on, leaves
      m[lo..] as it is. */
  lemma PutOldKey(m: Flags, key: string, value: bool, lo: nat, tail: Flags)
    requires lo <= |m| && m[lo..] == tail && forall i | 0 <= i < |tail| :: tail[i].0 != key
    requires exists k | 0 <= k < lo :: m[k].0 == key
    ensures Put(m, key, value)[lo..] == tail
  {
    assert forall i | lo <= i < |m| :: m[i] == tail[i - lo];
    PutKeepsTail(m, key, value, lo);
  }

  /** A suffix made of a known body and a known last item. */
  lemma LastSplit<T>(s: seq<T>, lo: nat, n: nat, body: seq<T>, last: T)
    requires lo <= n && |s| == n + 1 && s[lo..n] == body && s[n] == last
    ensures s[lo..] == body + [last]
  {
    assert s[lo..] == s[lo..n] + [s[n]];
  }

  /** Assigning a key that no item of m carries appends the item. */
  lemma PutAbsent(m: Flags, item: (string, bool))
    requires forall i | 0 <= i < |m| :: m[i].0 != item.0
    ensures |Put(m, item.0, item.1)| == |m| + 1 && Put(m, item.0, item.1)[|m|] == item
  {
    assert Lookup(m, item.0).None?;
  }

  /** Assigning a key that m lacks appends the item after m[lo..]. */
  lemma PutNewKey(m: Flags, item: (string, bool), lo: nat)
    requires lo <= |m| && forall i | 0 <= i < |m| :: m[i].0 != item.0
    ensures Put(m, item.0, item.1)[lo..] == m[lo..] + [item]
  {
    PutAbsent(m, item);
    PutKeepsTail(m, item.0, item.1, lo);
    LastSplit(Put(m, item.0, item.1), lo, |m|, m[lo..], item);
  }

  /** One step of the merge: the last link's key is already in fs, so its
      assignment lands among the old keys and nothing new is appended. */
  lemma MergeStepOld(fs: Flags, links: Flags)
    requires UniqueKeys(links) && |links| > 0
    requires Merge(fs, links[..|links| - 1])[|fs|..] == Fresh(fs, links[..|links| - 1])
    requires Lookup(fs, links[|links| - 1].0).Some?
    ensures Merge(fs, links)[|fs|..] == Fresh(fs, links)
  {
    var init, last := links[..|links| - 1], links[|links| - 1];
    var m, f := Merge(fs, init), Fresh(fs, init);
    PutKeepsTail(m, last.0, last.1, |m|);
    assert Put(m, last.0, last.1)[|fs|..] == f by {
      FreshAvoidsLast(fs, links);
      assert exists k | 0 <= k < |fs| :: m[k].0 == last.0 by {
        var k :| 0 <= k < |fs| && fs[k].0 == last.0;
        assert m[k].0 == last.0;
      }
      PutOldKey(m, last.0, last.1, |fs|, f);
    }
    assert Fresh(fs, links) == f + [];
  }

  /** A key that neither fs nor the fresh items of the earlier links carry is
      absent from the dict merged so far. */
  lemma MergedLacksNewKey(fs: Flags, links: Flags)
    requires UniqueKeys(links) && |links| > 0
    requires Merge(fs, links[..|links| - 1])[|fs|..] == Fresh(fs, links[..|links| - 1])
    requires Lookup(fs, links[|links| - 1].0).None?
    ensures var m := Merge(fs, links[..|links| - 1]);
      forall i | 0 <= i < |m| :: m[i].0 != links[|links| - 1].0
  {
    var init, last := links[..|links| - 1], links[|links| - 1];
    var m, f := Merge(fs, init), Fresh(fs, init);
    FreshAvoidsLast(fs, links);
    assert forall i | 0 <= i < |fs| :: fs[i].0 != last.0;
    forall i | 0 <= i < |m| ensures m[i].0 != last.0 {
      if i < |fs| {
        assert m[i].0 == fs[i].0;
      } else {
        assert m[i] == f[i - |fs|];
      }
    }
  }

  /** One step of the merge: the last link's key is new, so it is appended. */
  lemma MergeStepNew(fs: Flags, links: Flags)
    requires UniqueKeys(links) && |links| > 0
    requires Merge(fs, links[..|links| - 1])[|fs|..] == Fresh(fs, links[..|links| - 1])
    requires Lookup(fs, links[|links| - 1].0).None?
    ensures Merge(fs, links)[|fs|..] == Fresh(fs, links)
  {
    var init, last := links[..|links| - 1], links[|links| - 1];
    MergedLacksNewKey(fs, links);
    PutNewKey(Merge(fs, init), last, |fs|);
  }

  /** `|=` appends the keys new to fs after the old ones, in the order of links,
      with the values links gives them. */
  lemma {:induction false} MergeAppendsFresh(fs: Flags, links: Flags)
    requires UniqueKeys(links)
    ensures Merge(fs, links)[|fs|..] == Fresh(fs, links)
  {
    if |links| > 0 {
      var init := links[..|links| - 1];
      assert UniqueKeys(init) by {
        forall i, j | 0 <= i < j < |init| ensures init[i].0 != init[j].0 {
          assert init[i] == links[i] && init[j] == links[j];
        }
      }
      MergeAppendsFresh(fs, init);
      if Lookup(fs, links[|links| - 1].0).Some? {
        MergeStepOld(fs, links);
      } else {
        MergeStepNew(fs, links);
      }
    }
  }

  /** Merging into a dict keeps it a dict: no key appears twice. */
  lemma {:induction false} MergeUnique(fs: Flags, links: Flags)
    requires UniqueKeys(fs)
    ensures UniqueKeys(Merge(fs, links))
  {
    if |links| > 0 {
      MergeUnique(fs, links[..|links| - 1]);
      PutUnique(Merge(fs, links[..|links| - 1]), links[|links| - 1].0, links[|links| - 1].1);
    }
  }

  lemma LookupSnoc(fs: Flags, p: (string, bool), key: string)
    ensures Lookup(fs + [p], key)
         == if Lookup(fs, key).Some? then Lookup(fs, key) else if p.0 == key then Some(p.1) else None
  {
    if |fs| > 0 {
      assert (fs + [p])[1..] == fs[1..] + [p];
    }
  }

  /** After `fs |= links` a key has the value links gives it, and otherwise keeps
      the value it had. */
  lemma {:induction false} MergeLookup(fs: Flags, links: Flags, key: string)
    requires UniqueKeys(links)
    ensures Lookup(Merge(fs, links), key) == if Lookup(links, key).Some? then Lookup(links, key) else Lookup(fs, key)
  {
    if |links| > 0 {
      var init, last := links[..|links| - 1], links[|links| - 1];
      assert links == init + [last];
      MergeLookup(fs, init, key);
      LookupSnoc(init, last, key);
      PutLookup(Merge(fs, init), last.0, last.1, key);
      if last.0 == key {
        assert forall i | 0 <= i < |init| :: init[i].0 != key by {
          forall i | 0 <= i < |init| ensures init[i].0 != key {
            assert init[i] == links[i];
          }
        }
      }
    }
  }

  /** The link the `match` statement appends for a dictionary name; names it
      does not list add nothing. */
  function LinkHtml(key: string): (html: string)
    ensures key !in {"Oxford", "Cambridge", "Macmillan", "Urban Dictionary", "Cambridge (ru)"} ==> html == ""
  {
    match key
    case "Oxford" =>
      "<a href=\"https://www.oxfordlearnersdictionaries.com/definition/english/{{Word}}\"><img src=\"https://fontslogo.com/wp-content/uploads/2017/10/Oxford-Dictionaries-Logo-Font.jpg\"></a>\n"
    case "Cambridge" =>
      "<a href=\"https://dictionary.cambridge.org/dictionary/english/{{Word}}/\"><img src=\"https://w7.pngwing.com/pngs/647/218/png-transparent-coat-of-arms-of-the-university-of-cambridge-university-of-oxford-ulverston-victoria-high-school-others-text-logo-symmetry.png\"></a>\n"
    case "Macmillan" =>
      "<a href=\"https://www.macmillandictionary.com/dictionary/british/{{Word}}\"><img src=\"https://pbs.twimg.com/profile_images/1225002102608494592/GRFg82nJ_400x400.jpg\"></a>\n"
    case "Urban Dictionary" =>
      "<a href=\"https://www.urbandictionary.com/define.php?term={{Word}}\"><img src=\"https://play-lh.googleusercontent.com/unQjigibyJQvru9rcCOX7UCqyByuf5-h_tLpA-9fYH93uqrRAnZ0J2IummiejMMhi5Ch\"></a>\n"
    case "Cambridge (ru)" =>
      "ru:<a href=\"https://dictionary.cambridge.org/dictionary/english-russian/{{Word}}/\"><img src=\"https://w7.pngwing.com/pngs/647/218/png-transparent-coat-of-arms-of-the-university-of-cambridge-university-of-oxford-ulverston-victoria-high-school-others-text-logo-symmetry.png\"></a></p>\n"
    case _ => ""
  }

  /** What one dict item adds to the back template. */
  function Anchor(p: (string, bool)): string
  {
    if p.1 then LinkHtml(p.0) else ""
  }

  /** `back_html` after the loop has visited the items of fs, starting from base;
      the loop only ever appends, so base stays a prefix. */
  function Appended(base: string, fs: Flags): (r: string)
    ensures |r| >= |base| && r[..|base|] == base
  {
    if |fs| == 0 then base
    else
      var x := Appended(base, fs[..|fs| - 1]);
      assert (x + Anchor(fs[|fs| - 1]))[..|base|] == x[..|base|];
      x + Anchor(fs[|fs| - 1])
  }

  /** The items whose value is truthy, in dict order. */
  function Enabled(fs: Flags): (r: Flags)
    ensures forall i | 0 <= i < |r| :: r[i].1
  {
    if |fs| == 0 then [] else Enabled(fs[..|fs| - 1]) + (if fs[|fs| - 1].1 then [fs[|fs| - 1]] else [])
  }

  /** Only the enabled dictionaries contribute to the back template, in dict order. */
  lemma {:induction false} EnabledOnly(base: string, fs: Flags)
    ensures Appended(base, fs) == Appended(base, Enabled(fs))
    decreases |fs|
  {
    if |fs| > 0 {
      var init, last := fs[..|fs| - 1], fs[|fs| - 1];
      EnabledOnly(base, init);
      var e := Enabled(init);
      var x := Appended(base, init);
      if last.1 {
        assert (e + [last])[..|e|] == e && (e + [last])[|e|] == last;
        assert Appended(base, e + [last]) == Appended(base, e) + Anchor(last);
      } else {
        assert Enabled(fs) == e + [] == e;
        assert Anchor(last) == "" && x + "" == x;
      }
    }
  }

  /** With the shipped settings the back template links Cambridge, Macmillan
      and Urban Dictionary, in that order. */
  lemma DefaultEnabled()
    ensures Enabled(Dictionaries) == [("Cambridge", true), ("Macmillan", true), ("Urban Dictionary", true)]
  {
    var d := Dictionaries;
    assert d[..1][..0] == [] && Enabled(d[..1]) == [];
    assert d[..2][..1] == d[..1] && Enabled(d[..2]) == [d[1]];
    assert d[..3][..2] == d[..2] && Enabled(d[..3]) == [d[1], d[2]];
    assert d[..4][..3] == d[..3] && Enabled(d[..4]) == [d[1], d[2], d[3]];
    assert d[..5][..4] == d[..4] && d[..5] == d;
  }

  /** The contents of assets/styling.css, assets/front.html and assets/back.html. */
  datatype Assets = Assets(css: string, front: string, back: string)

  datatype CardTemplate = CardTemplate(name: string, front: string, back: string)

  datatype ModelParams = ModelParams(modelName: string, inOrderFields: seq<string>, isCloze: bool,
                                     css: string, cardTemplates: seq<CardTemplate>)

  const NoteFields: seq<string> := ["Word", "Sound", "Meaning", "IPA"]

  /** The back template with the links paragraph appended. */
  function BackWithLinks(back: string, fs: Flags): (r: string)
    ensures |r| >= |back| + 7 && r[..|back| + 3] == back + "<p>" && r[|r| - 4..] == "</p>"
  {
    var body := Appended(back + "<p>", fs);
    assert (body + "</p>")[..|back| + 3] == body[..|back| + 3];
    body + "</p>"
  }

  /** The `createModel` parameters for a given back template. */
  function ModelFor(name: string, assets: Assets, back: string): (m: ModelParams)
    ensures m.modelName == name && m.inOrderFields == NoteFields && !m.isCloze && m.css == assets.css
    ensures m.cardTemplates == [CardTemplate(name, assets.front, back)]
  {
    ModelParams(name, NoteFields, false, assets.css, [CardTemplate(name, assets.front, back)])
  }

  /** anki.py's `get_model`: the asset files unchanged, no links. */
  function AnkiGetModel(name: string, assets: Assets): (m: ModelParams)
    ensures m.modelName == name && m.inOrderFields == NoteFields && !m.isCloze && m.css == assets.css
    ensures m.cardTemplates == [CardTemplate(name, assets.front, assets.back)]
  {
    ModelFor(name, assets, assets.back)
  }

  /** The two releases build the same model except for the back template, and
      app.py's back template is anki.py's followed by the links paragraph. */
  lemma ReleasesShareModel(name: string, assets: Assets, fs: Flags)
    ensures var app := ModelFor(name, assets, BackWithLinks(assets.back, fs));
      var anki := AnkiGetModel(name, assets);
      && app.(cardTemplates := anki.cardTemplates) == anki
      && |app.cardTemplates[0].back| >= |anki.cardTemplates[0].back|
      && app.cardTemplates[0].back[..|assets.back|] == anki.cardTemplates[0].back
  {
    var app := BackWithLinks(assets.back, fs);
    assert forall i | 0 <= i < |assets.back| :: app[i] == (assets.back + "<p>")[i] == assets.back[i];
  }

  /** app.py's `get_model(model_name, links)`, given the contents of the asset
      files and the `DICTIONARIES` flags. */
  method GetModel(name: string, assets: Assets, dictionaries: Flags, links: Flags) returns (m: ModelParams)
    ensures m == ModelFor(name, assets, BackWithLinks(assets.back, Merge(dictionaries, links)))
  {
    var back := assets.back;
    back := back + "<p>";
    var dicts := Merge(dictionaries, links);
    for i := 0 to |dicts|
      invariant back == Appended(assets.back + "<p>", dicts[..i])
    {
      assert dicts[..i + 1][..i] == dicts[..i];
      if dicts[i].1 {
        back := back + LinkHtml(dicts[i].0);
      }
    }
    assert dicts[..|dicts|] == dicts;
    back := back + "</p>";
    m := ModelFor(name, assets, back);
  }
}
