/** The start of `main`: make sure the note type and the deck exist in the
    Anki collection before any note is added. */
module Provisioning {
  import opened Templates

  /** What AnkiConnect's `modelNames` and `deckNames` actions report. */
  datatype Collection = Collection(modelNames: set<string>, deckNames: set<string>)

  /** The state-changing AnkiConnect actions `main` may issue. */
  datatype Command = CreateModel(params: ModelParams) | CreateDeck(deck: string)

  /** The effect of one action on the collection. */
  function Perform(c: Collection, cmd: Command): Collection
  {
    match cmd
    case CreateModel(params) => c.(modelNames := c.modelNames + {params.modelName})
    case CreateDeck(deck) => c.(deckNames := c.deckNames + {deck})
  }

  function PerformAll(c: Collection, cmds: seq<Command>): Collection
    decreases |cmds|
  {
    if |cmds| == 0 then c else PerformAll(Perform(c, cmds[0]), cmds[1..])
  }

  /** `createModel` is sent only when the model name is not listed, then
      `createDeck` only when the deck name is not listed. */
  function ProvisionCommands(c: Collection, model: ModelParams, deck: string): (cmds: seq<Command>)
    ensures |cmds| <= 2
    ensures forall i | 0 <= i < |cmds| :: cmds[i] == CreateModel(model) || cmds[i] == CreateDeck(deck)
  {
    (if model.modelName in c.modelNames then [] else [CreateModel(model)])
    + (if deck in c.deckNames then [] else [CreateDeck(deck)])
  }

  /** Each create action is issued exactly when its name is missing, the model
      before the deck. */
  lemma CreatesOnlyWhatIsMissing(c: Collection, model: ModelParams, deck: string)
    ensures var cmds := ProvisionCommands(c, model, deck);
      && (CreateModel(model) in cmds <==> model.modelName !in c.modelNames)
      && (CreateDeck(deck) in cmds <==> deck !in c.deckNames)
      && (|cmds| == 2 ==> cmds == [CreateModel(model), CreateDeck(deck)])
  {
  }

  /** Afterwards both names exist, and nothing but these two names was added. */
  lemma ProvisionResult(c: Collection, model: ModelParams, deck: string)
    ensures var after := PerformAll(c, ProvisionCommands(c, model, deck));
      && after.modelNames == c.modelNames + {model.modelName}
      && after.deckNames == c.deckNames + {deck}
  {
    var m := if model.modelName in c.modelNames then [] else [CreateModel(model)];
    var d := if deck in c.deckNames then [] else [CreateDeck(deck)];
    PerformAllAppend(c, m, d);
    var mid := PerformAll(c, m);
    if m != [] {
      assert m[1..] == [];
    }
    assert mid.modelNames == c.modelNames + {model.modelName} && mid.deckNames == c.deckNames;
    if d != [] {
      assert d[1..] == [];
    }
  }

  lemma {:induction false} PerformAllAppend(c: Collection, a: seq<Command>, b: seq<Command>)
    ensures PerformAll(c, a + b) == PerformAll(PerformAll(c, a), b)
    decreases |a|
  {
    if |a| == 0 {
      assert a + b == b;
    } else {
      assert (a + b)[0] == a[0] && (a + b)[1..] == a[1..] + b;
      PerformAllAppend(Perform(c, a[0]), a[1..], b);
    }
  }

  /** A second start against the provisioned collection issues nothing. */
  lemma ProvisionIdempotent(c: Collection, model: ModelParams, deck: string)
    ensures ProvisionCommands(PerformAll(c, ProvisionCommands(c, model, deck)), model, deck) == []
  {
    ProvisionResult(c, model, deck);
  }

  /** What `main` sends: the model `get_model(model_name=MODEL_NAME)` builds
      from the shipped `DICTIONARIES` with no extra links, and `DECK_NAME`. */
  function MainCommands(c: Collection, assets: Assets): seq<Command>
  {
    ProvisionCommands(c, ModelFor(ModelName, assets, BackWithLinks(assets.back, Merge(Dictionaries, []))), DeckName)
  }

  /** After the start of `main` the collection holds the "Lazy English Cards"
      note type and the "Lazy English" deck, and a second start sends nothing. */
  lemma MainProvisions(c: Collection, assets: Assets)
    ensures var after := PerformAll(c, MainCommands(c, assets));
      && after.modelNames == c.modelNames + {"Lazy English Cards"}
      && after.deckNames == c.deckNames + {"Lazy English"}
      && MainCommands(after, assets) == []
  {
    var model := ModelFor(ModelName, assets, BackWithLinks(assets.back, Merge(Dictionaries, [])));
    ProvisionResult(c, model, DeckName);
    ProvisionIdempotent(c, model, DeckName);
  }
}
