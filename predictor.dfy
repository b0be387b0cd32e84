/**
 * The model registry and the forecast pipeline of `ModelPredictor`: loading each species'
 * artifact with ordered fallback strategies, reconciling the feature table with the schema
 * the model exposes, and turning the model's scores into month-by-month forecast points.
 */
module Predictor {
  import opened Wrappers
  import opened Text
  import opened Calendar
  import opened ApiModels

  const MaxForecastDays := 365
  const TilapiaModelPath := "app/models/tilapia_forecast_best_model.pkl"
  const BangusModelPath := "app/models/bangus_forecast_best_model.pkl"
  const ModelVersion := "1.0.0"

  /** One column of the feature table: its name and one value per row. */
  datatype Column = Column(name: string, values: seq<real>)

  /** The DataFrame handed to the model: `rows` rows and the columns in order. */
  datatype Frame = Frame(rows: nat, columns: seq<Column>)

  /**
   * A deserialised model, known only through what the code asks of it: the attribute
   * `feature_names_in_` (if present), the method `get_feature_names_out` (absent, raising,
   * or returning names), `predict`, and `predict_interval` (if present). A scoring call
   * that raises yields Failure with the exception's text.
   */
  datatype Model = Model(
    featureNamesIn: Option<seq<string>>,
    featureNamesOut: Option<Option<seq<string>>>,
    score: Frame -> Result<seq<real>, string>,
    scoreInterval: Option<Frame -> Result<seq<(real, real)>, string>>)

  /** A deserialisation strategy: the model read from a path, or None when it raises. */
  datatype LoadingMethod = LoadingMethod(name: string, load: string -> Option<Model>)

  /** What the process finds on disk and in its Python environment. */
  datatype Environment = Environment(
    joblibImportable: bool,
    fileExists: string -> bool,
    joblibLoad: string -> Option<Model>,
    pickleLatin1: string -> Option<Model>,
    pickleBytes: string -> Option<Model>,
    pickleDefault: string -> Option<Model>)

  /** A `model_info` entry. */
  datatype RegistryEntry = RegistryEntry(name: string, species: string, version: string, path: string)

  /** A copy of a `model_info` entry with its `status`. */
  datatype ModelSummary = ModelSummary(name: string, species: string, version: string, path: string, status: string)

  // ---------------------------------------------------------------------------
  // Loading
  // ---------------------------------------------------------------------------

  /** The strategies in the order they are tried: joblib first when it can be imported. */
  function LoadingOrder(env: Environment): seq<LoadingMethod> {
    var pickles := [
      LoadingMethod("latin1", env.pickleLatin1),
      LoadingMethod("bytes", env.pickleBytes),
      LoadingMethod("default", env.pickleDefault)];
    if env.joblibImportable then [LoadingMethod("joblib", env.joblibLoad)] + pickles else pickles
  }

  function Names(methods: seq<LoadingMethod>): (r: seq<string>)
    ensures |r| == |methods| && forall i :: 0 <= i < |r| ==> r[i] == methods[i].name
  {
    seq(|methods|, i requires 0 <= i < |methods| => methods[i].name)
  }

  lemma NamesSnoc(methods: seq<LoadingMethod>, i: nat)
    requires i < |methods|
    ensures Names(methods[..i + 1]) == Names(methods[..i]) + [methods[i].name]
  {
    assert methods[..i + 1] == methods[..i] + [methods[i]];
  }

  /** The position of the first strategy that reads `path` without raising. */
  function FirstLoadable(methods: seq<LoadingMethod>, path: string): (r: Option<nat>)
    ensures r.Some? ==> r.value < |methods| && methods[r.value].load(path).Some?
    ensures r.Some? ==> forall j :: 0 <= j < r.value ==> methods[j].load(path).None?
    ensures r.None? ==> forall j :: 0 <= j < |methods| ==> methods[j].load(path).None?
    decreases |methods|
  {
    if methods == [] then None
    else if methods[0].load(path).Some? then Some(0)
    else
      match FirstLoadable(methods[1..], path)
      case None => None
      case Some(k) => Some(k + 1)
  }

  /** The model the first successful strategy produced, if any. */
  function LoadedModel(methods: seq<LoadingMethod>, path: string): Option<Model> {
    match FirstLoadable(methods, path)
    case Some(k) => methods[k].load(path)
    case None => None
  }

  /** The model registered for an artifact by `_load_models`: none if the file is missing. */
  function Installed(env: Environment, path: string): Option<Model> {
    if env.fileExists(path) then LoadedModel(LoadingOrder(env), path) else None
  }

  lemma {:induction false} FirstLoadableAt(methods: seq<LoadingMethod>, path: string, k: nat)
    requires k < |methods| && methods[k].load(path).Some?
    requires forall j :: 0 <= j < k ==> methods[j].load(path).None?
    ensures FirstLoadable(methods, path) == Some(k)
    decreases k
  {
    if k > 0 {
      assert methods[0].load(path).None?;
      forall j | 0 <= j < k - 1 ensures methods[1..][j].load(path).None? {
        assert methods[1..][j] == methods[j + 1];
      }
      FirstLoadableAt(methods[1..], path, k - 1);
    }
  }

  /** An artifact that only the k-th strategy can read is loaded by that strategy. */
  lemma OnlyReadableBy(methods: seq<LoadingMethod>, path: string, k: nat)
    requires k < |methods| && methods[k].load(path).Some?
    requires forall j :: 0 <= j < |methods| && j != k ==> methods[j].load(path).None?
    ensures FirstLoadable(methods, path) == Some(k)
    ensures LoadedModel(methods, path) == methods[k].load(path)
  {
  }

  // ---------------------------------------------------------------------------
  // Feature schema and feature table
  // ---------------------------------------------------------------------------

  const FallbackFeatures: seq<string> := ["AvgWeight", "Fingerlings", "SurvivalRate"]

  /** The default of a feature: the documented operating point, else 0.0. */
  function DefaultValue(name: string): real {
    if name == "AvgWeight" then 250.0
    else if name == "Fingerlings" then 5000.0
    else if name == "SurvivalRate" then 85.0
    else 0.0
  }

  /** The feature names the model exposes: `feature_names_in_`, else `get_feature_names_out()` unless it raises. */
  function FeatureNamesOf(model: Model): Option<seq<string>> {
    if model.featureNamesIn.Some? then model.featureNamesIn
    else if model.featureNamesOut.Some? then model.featureNamesOut.value
    else None
  }

  predicate NoDuplicates(xs: seq<string>) {
    forall i, j :: 0 <= i < j < |xs| ==> xs[i] != xs[j]
  }

  /** The names, each kept at its first occurrence. */
  function Distinct(xs: seq<string>): (r: seq<string>)
    ensures forall x :: x in r <==> x in xs
    ensures NoDuplicates(r)
    decreases |xs|
  {
    if xs == [] then []
    else
      var init, last := xs[..|xs| - 1], xs[|xs| - 1];
      assert xs == init + [last];
      var d := Distinct(init);
      if last in d then d else d + [last]
  }

  lemma {:induction false} DistinctOfNoDuplicates(xs: seq<string>)
    requires NoDuplicates(xs)
    ensures Distinct(xs) == xs
    decreases |xs|
  {
    if xs != [] {
      var init, last := xs[..|xs| - 1], xs[|xs| - 1];
      DistinctOfNoDuplicates(init);
      assert last !in init;
    }
  }

  function Constant(v: real, n: nat): (r: seq<real>)
    ensures |r| == n && forall i :: 0 <= i < n ==> r[i] == v
  {
    seq(n, _ => v)
  }

  /** One column per name, each holding the name's default in every one of the `n` rows. */
  function ColumnsFor(names: seq<string>, n: nat): (r: seq<Column>)
    ensures |r| == |names|
    ensures forall i :: 0 <= i < |r| ==> r[i] == Column(names[i], Constant(DefaultValue(names[i]), n))
  {
    seq(|names|, i requires 0 <= i < |names| => Column(names[i], Constant(DefaultValue(names[i]), n)))
  }

  /** The feature table for `n` dates: the model's own schema if it exposes one, else the fallback schema. */
  function FeatureFrame(names: Option<seq<string>>, n: nat): Frame {
    Frame(n, ColumnsFor(if names.Some? then Distinct(names.value) else FallbackFeatures, n))
  }

  function ColumnNames(frame: Frame): (r: seq<string>)
    ensures |r| == |frame.columns| && forall i :: 0 <= i < |r| ==> r[i] == frame.columns[i].name
  {
    seq(|frame.columns|, i requires 0 <= i < |frame.columns| => frame.columns[i].name)
  }

  /** `df[name] = values`: overwrite the column of that name in place, or append a new one. */
  function SetColumn(columns: seq<Column>, name: string, values: seq<real>): seq<Column> {
    if columns == [] then [Column(name, values)]
    else if columns[0].name == name then [Column(name, values)] + columns[1..]
    else [columns[0]] + SetColumn(columns[1..], name, values)
  }

  lemma {:induction false} SetColumnAppends(columns: seq<Column>, name: string, values: seq<real>)
    requires forall i :: 0 <= i < |columns| ==> columns[i].name != name
    ensures SetColumn(columns, name, values) == columns + [Column(name, values)]
    decreases |columns|
  {
    if columns != [] {
      SetColumnAppends(columns[1..], name, values);
    }
  }

  lemma {:induction false} SetColumnKeeps(columns: seq<Column>, name: string, values: seq<real>, k: nat)
    requires k < |columns| && columns[k] == Column(name, values)
    requires forall i :: 0 <= i < k ==> columns[i].name != name
    ensures SetColumn(columns, name, values) == columns
    decreases |columns|
  {
    if k > 0 {
      SetColumnKeeps(columns[1..], name, values, k - 1);
    }
  }

  /** Adding the next schema name to the table built so far matches the table for the longer prefix. */
  lemma ColumnsStep(names: seq<string>, i: nat, n: nat)
    requires i < |names|
    ensures ColumnsFor(Distinct(names[..i + 1]), n)
         == SetColumn(ColumnsFor(Distinct(names[..i]), n), names[i], Constant(DefaultValue(names[i]), n))
  {
    assert names[..i + 1][..i] == names[..i];
    var d := Distinct(names[..i]);
    var x := names[i];
    var columns := ColumnsFor(d, n);
    if x in d {
      var k :| 0 <= k < |d| && d[k] == x;
      SetColumnKeeps(columns, x, Constant(DefaultValue(x), n), k);
    } else {
      SetColumnAppends(columns, x, Constant(DefaultValue(x), n));
      assert ColumnsFor(d + [x], n) == columns + [Column(x, Constant(DefaultValue(x), n))];
    }
  }

  /**
   * The table's columns are the exposed names in their order (each once), or exactly the
   * fallback schema; every column has one default value per date.
   */
  lemma FeatureFrameShape(names: Option<seq<string>>, n: nat)
    ensures var frame := FeatureFrame(names, n);
      && frame.rows == n
      && (names.Some? ==> forall x :: x in ColumnNames(frame) <==> x in names.value)
      && (names.Some? && NoDuplicates(names.value) ==> ColumnNames(frame) == names.value)
      && (names.None? ==> ColumnNames(frame) == FallbackFeatures)
      && NoDuplicates(ColumnNames(frame))
      && forall i :: 0 <= i < |frame.columns| ==>
           frame.columns[i].values == Constant(DefaultValue(frame.columns[i].name), n)
  {
    var frame := FeatureFrame(names, n);
    var schema := if names.Some? then Distinct(names.value) else FallbackFeatures;
    assert ColumnNames(frame) == schema;
    if names.Some? && NoDuplicates(names.value) {
      DistinctOfNoDuplicates(names.value);
    }
  }

  // ---------------------------------------------------------------------------
  // The predictor object
  // ---------------------------------------------------------------------------

  predicate AllLowercase(keys: set<string>) {
    forall s :: s in keys ==> IsLowercase(s)
  }

  function Summary(entry: RegistryEntry, status: string): ModelSummary {
    ModelSummary(entry.name, entry.species, entry.version, entry.path, status)
  }

  /** The state of the predictor: `models`, `model_info`, and the insertion order of `model_info`. */
  datatype Registry = Registry(models: map<string, Model>, info: map<string, RegistryEntry>, order: seq<string>)

  const EmptyRegistry := Registry(map[], map[], [])

  /** A model is registered exactly when its entry is, under its own species, listed once in `order`. */
  ghost predicate RegistryInvariant(reg: Registry) {
    && reg.models.Keys == reg.info.Keys
    && (forall s :: s in reg.info ==> reg.info[s].species == s)
    && NoDuplicates(reg.order)
    && (forall i :: 0 <= i < |reg.order| ==> reg.order[i] in reg.info)
    && (forall s :: s in reg.info ==> s in reg.order)
  }

  /** Registering a model and its entry under a species; a new species goes to the end of the order. */
  function Register(reg: Registry, species: string, model: Model, entry: RegistryEntry): Registry {
    Registry(reg.models[species := model], reg.info[species := entry],
             if species in reg.info then reg.order else reg.order + [species])
  }

  /** The registry after `_load_single_model(species, path, name)`: unchanged when no strategy reads the file. */
  function AfterLoading(reg: Registry, env: Environment, species: string, path: string, name: string): Registry {
    match LoadedModel(LoadingOrder(env), path)
    case None => reg
    case Some(model) => Register(reg, species, model, RegistryEntry(name, species, ModelVersion, path))
  }

  /** The strategies `_load_single_model` tries: up to the first that succeeds, or all of them. */
  function Attempted(env: Environment, path: string): seq<string> {
    var methods := LoadingOrder(env);
    match FirstLoadable(methods, path)
    case Some(k) => Names(methods[..k + 1])
    case None => Names(methods)
  }

  function LoadIfPresent(reg: Registry, env: Environment, species: string, path: string, name: string): Registry {
    if env.fileExists(path) then AfterLoading(reg, env, species, path, name) else reg
  }

  /** The registry after `_load_models`: the tilapia artifact, then the bangus one. */
  function LoadAll(reg: Registry, env: Environment): Registry {
    var withTilapia := LoadIfPresent(reg, env, "tilapia", TilapiaModelPath, "Tilapia Harvest Forecast Model");
    LoadIfPresent(withTilapia, env, "bangus", BangusModelPath, "Bangus Harvest Forecast Model")
  }

  /** The status `get_all_models_info` reports: whether the lower-cased species has a model. */
  function StatusOf(reg: Registry, species: string): string {
    if Lower(species) in reg.models then "loaded" else "not_loaded"
  }

  /** One summary per listed species, in insertion order. */
  function ModelSummaries(reg: Registry): seq<ModelSummary>
    requires forall i :: 0 <= i < |reg.order| ==> reg.order[i] in reg.info
  {
    seq(|reg.order|, i requires 0 <= i < |reg.order| => Summary(reg.info[reg.order[i]], StatusOf(reg, reg.order[i])))
  }

  /**
   * Every listed description is copied field by field; with lower-case keys every
   * species finds its model by its lower-cased name, so all show as loaded.
   */
  lemma SummariesCopyEntries(reg: Registry)
    requires RegistryInvariant(reg)
    ensures var list := ModelSummaries(reg);
      && |list| == |reg.order|
      && (forall i :: 0 <= i < |list| ==>
            && reg.order[i] in reg.info
            && list[i].name == reg.info[reg.order[i]].name
            && list[i].species == reg.order[i]
            && list[i].version == reg.info[reg.order[i]].version
            && list[i].path == reg.info[reg.order[i]].path
            && (list[i].status == "loaded" <==> Lower(reg.order[i]) in reg.models))
      && (AllLowercase(reg.info.Keys) ==> forall i :: 0 <= i < |list| ==> list[i].status == "loaded")
  {
    var list := ModelSummaries(reg);
    forall i | 0 <= i < |list|
      ensures list[i].species == reg.order[i]
      ensures AllLowercase(reg.info.Keys) ==> list[i].status == "loaded"
    {
      assert reg.info[reg.order[i]].species == reg.order[i];
      if AllLowercase(reg.info.Keys) {
        LowerOfLowercase(reg.order[i]);
      }
    }
  }

  /** Registering an entry under its own species keeps the registry invariant. */
  lemma RegisterKeepsInvariant(reg: Registry, species: string, model: Model, entry: RegistryEntry)
    requires RegistryInvariant(reg) && entry.species == species
    ensures RegistryInvariant(Register(reg, species, model, entry))
  {
    var after := Register(reg, species, model, entry);
    assert after.models.Keys == after.info.Keys by {
      assert after.models.Keys == reg.models.Keys + {species};
      assert after.info.Keys == reg.info.Keys + {species};
    }
    forall s | s in after.info ensures after.info[s].species == s {
      if s != species {
        assert after.info[s] == reg.info[s];
      }
    }
    RegisterKeepsOrder(reg.info, reg.order, species, entry);
  }

  /** The order after registering still lists each entry once, and nothing else. */
  lemma RegisterKeepsOrder(info: map<string, RegistryEntry>, order: seq<string>, species: string, entry: RegistryEntry)
    requires NoDuplicates(order)
    requires forall i :: 0 <= i < |order| ==> order[i] in info
    requires forall s :: s in info ==> s in order
    ensures var info', order' := info[species := entry], if species in info then order else order + [species];
      && NoDuplicates(order')
      && (forall i :: 0 <= i < |order'| ==> order'[i] in info')
      && (forall s :: s in info' ==> s in order')
  {
    if species !in info {
      var order' := order + [species];
      forall i, j | 0 <= i < j < |order'| ensures order'[i] != order'[j] {
        assert order'[i] == order[i];
        if j < |order| {
          assert order'[j] == order[j];
        }
      }
      assert order'[|order|] == species;
    }
  }

  /** Loading keeps the registry invariant. */
  lemma AfterLoadingKeepsInvariant(reg: Registry, env: Environment, species: string, path: string, name: string)
    requires RegistryInvariant(reg)
    ensures RegistryInvariant(AfterLoading(reg, env, species, path, name))
  {
    var loaded := LoadedModel(LoadingOrder(env), path);
    if loaded.Some? {
      RegisterKeepsInvariant(reg, species, loaded.value, RegistryEntry(name, species, ModelVersion, path));
    }
  }

  /** Loading one species touches only that species, and registers it iff some strategy reads the file. */
  lemma AfterLoadingLookups(reg: Registry, env: Environment, species: string, path: string, name: string, s: string)
    ensures var after := AfterLoading(reg, env, species, path, name);
      var loaded := LoadedModel(LoadingOrder(env), path);
      && (s != species ==> Get(after.models, s) == Get(reg.models, s) && Get(after.info, s) == Get(reg.info, s))
      && (s == species ==> Get(after.models, s) == (if loaded.Some? then loaded else Get(reg.models, s)))
      && (s == species && loaded.Some? ==> Get(after.info, s) == Some(RegistryEntry(name, species, ModelVersion, path)))
      && (loaded.None? ==> after == reg)
  {
  }

  /**
   * Starting empty, each species ends up registered on its own: exactly when its artifact
   * exists and a strategy reads it, with its fixed entry, whatever happens to the other one.
   */
  lemma LoadAllIsolatesSpecies(env: Environment)
    ensures var reg := LoadAll(EmptyRegistry, env);
      && RegistryInvariant(reg)
      && reg.models.Keys <= {"tilapia", "bangus"}
      && Get(reg.models, "tilapia") == Installed(env, TilapiaModelPath)
      && Get(reg.models, "bangus") == Installed(env, BangusModelPath)
      && ("tilapia" in reg.info ==>
           reg.info["tilapia"] == RegistryEntry("Tilapia Harvest Forecast Model", "tilapia", ModelVersion, TilapiaModelPath))
      && ("bangus" in reg.info ==>
           reg.info["bangus"] == RegistryEntry("Bangus Harvest Forecast Model", "bangus", ModelVersion, BangusModelPath))
      && reg.order == (if "tilapia" in reg.models then ["tilapia"] else []) + (if "bangus" in reg.models then ["bangus"] else [])
  {
    LoadAllOrder(env);
    var first := LoadIfPresent(EmptyRegistry, env, "tilapia", TilapiaModelPath, "Tilapia Harvest Forecast Model");
    var reg := LoadIfPresent(first, env, "bangus", BangusModelPath, "Bangus Harvest Forecast Model");
    assert RegistryInvariant(EmptyRegistry);
    AfterLoadingKeepsInvariant(EmptyRegistry, env, "tilapia", TilapiaModelPath, "Tilapia Harvest Forecast Model");
    AfterLoadingKeepsInvariant(first, env, "bangus", BangusModelPath, "Bangus Harvest Forecast Model");
    AfterLoadingLookups(EmptyRegistry, env, "tilapia", TilapiaModelPath, "Tilapia Harvest Forecast Model", "tilapia");
    AfterLoadingLookups(EmptyRegistry, env, "tilapia", TilapiaModelPath, "Tilapia Harvest Forecast Model", "bangus");
    AfterLoadingLookups(first, env, "bangus", BangusModelPath, "Bangus Harvest Forecast Model", "tilapia");
    AfterLoadingLookups(first, env, "bangus", BangusModelPath, "Bangus Harvest Forecast Model", "bangus");
  }

  /** Starting empty, the insertion order lists tilapia, then bangus, each only when it was loaded. */
  lemma LoadAllOrder(env: Environment)
    ensures var reg := LoadAll(EmptyRegistry, env);
      reg.order == (if "tilapia" in reg.models then ["tilapia"] else []) + (if "bangus" in reg.models then ["bangus"] else [])
  {
    var first := LoadIfPresent(EmptyRegistry, env, "tilapia", TilapiaModelPath, "Tilapia Harvest Forecast Model");
    assert first.info.Keys == first.models.Keys <= {"tilapia"};
    assert first.order == if "tilapia" in first.models then ["tilapia"] else [];
    var reg := LoadIfPresent(first, env, "bangus", BangusModelPath, "Bangus Harvest Forecast Model");
    assert "bangus" !in first.info;
    assert ("tilapia" in reg.models) == ("tilapia" in first.models);
    assert reg.order == first.order + (if "bangus" in reg.models then ["bangus"] else []);
  }

  /** The strategies tried are a prefix of the loading order that ends at the first one to succeed. */
  lemma AttemptedIsPrefix(env: Environment, path: string)
    ensures var methods, tried := LoadingOrder(env), Attempted(env, path);
      && 0 < |tried| <= |methods|
      && (forall i :: 0 <= i < |tried| ==> tried[i] == methods[i].name)
      && (LoadedModel(methods, path).Some? <==> methods[|tried| - 1].load(path).Some?)
      && tried[0] == (if env.joblibImportable then "joblib" else "latin1")
  {
  }

  /** `ModelPredictor`: the loaded models and their `model_info` entries, keyed by species. */
  class ModelPredictor {
    var models: map<string, Model>
    var modelInfo: map<string, RegistryEntry>
    /** The keys of `modelInfo` in insertion order, the order a dict iterates them. */
    var infoOrder: seq<string>

    function State(): Registry
      reads this
    {
      Registry(models, modelInfo, infoOrder)
    }

    ghost predicate Valid()
      reads this
    {
      RegistryInvariant(State())
    }

    constructor (env: Environment)
      ensures Valid()
      ensures State() == LoadAll(EmptyRegistry, env)
    {
      models := map[];
      modelInfo := map[];
      infoOrder := [];
      new;
      assert RegistryInvariant(EmptyRegistry);
      LoadModels(env);
    }

    /** `_load_models`: try the tilapia artifact, then the bangus one, skipping a missing file. */
    method LoadModels(env: Environment)
      requires Valid()
      modifies this
      ensures Valid()
      ensures State() == LoadAll(old(State()), env)
    {
      if env.fileExists(TilapiaModelPath) {
        var _ := LoadSingleModel(env, "tilapia", TilapiaModelPath, "Tilapia Harvest Forecast Model");
      }
      if env.fileExists(BangusModelPath) {
        var _ := LoadSingleModel(env, "bangus", BangusModelPath, "Bangus Harvest Forecast Model");
      }
    }

    /**
     * `_load_single_model`: try the strategies in order and register the model the first
     * successful one yields; `attempted` names the strategies tried.
     */
    method LoadSingleModel(env: Environment, species: string, path: string, name: string)
      returns (attempted: seq<string>)
      requires Valid()
      modifies this
      ensures Valid()
      ensures State() == AfterLoading(old(State()), env, species, path, name)
      ensures attempted == Attempted(env, path)
    {
      var methods := [
        LoadingMethod("latin1", env.pickleLatin1),
        LoadingMethod("bytes", env.pickleBytes),
        LoadingMethod("default", env.pickleDefault)];
      if env.joblibImportable {
        methods := [LoadingMethod("joblib", env.joblibLoad)] + methods;
      }
      attempted := [];
      var i := 0;
      while i < |methods|
        invariant 0 <= i <= |methods|
        invariant methods == LoadingOrder(env)
        invariant attempted == Names(methods[..i])
        invariant forall j :: 0 <= j < i ==> methods[j].load(path).None?
        invariant State() == old(State())
      {
        NamesSnoc(methods, i);
        attempted := attempted + [methods[i].name];
        var loaded := methods[i].load(path);
        if loaded.Some? {
          FirstLoadableAt(methods, path, i);
          assert attempted == Attempted(env, path);
          assert AfterLoading(old(State()), env, species, path, name)
              == Register(State(), species, loaded.value, RegistryEntry(name, species, ModelVersion, path));
          RegisterModel(species, loaded.value, RegistryEntry(name, species, ModelVersion, path));
          return;
        }
        i := i + 1;
      }
      assert methods[..i] == methods;
      assert attempted == Attempted(env, path);
    }

    /** The two assignments of `_load_single_model` that store a model and its entry. */
    method RegisterModel(species: string, model: Model, entry: RegistryEntry)
      requires Valid() && entry.species == species
      modifies this
      ensures Valid()
      ensures State() == Register(old(State()), species, model, entry)
    {
      RegisterKeepsInvariant(State(), species, model, entry);
      models := models[species := model];
      if species !in modelInfo {
        infoOrder := infoOrder + [species];
      }
      modelInfo := modelInfo[species := entry];
    }

    /** `is_model_loaded`: the lower-cased species has a model. */
    function IsModelLoaded(species: string): bool
      reads this
    {
      Lower(species) in models
    }

    /** `get_model_info`: the entry of the lower-cased species, if any. */
    function GetModelInfo(species: string): Option<RegistryEntry>
      reads this
    {
      Get(modelInfo, Lower(species))
    }

    /** Lookups ignore the case of the species, and an entry exists exactly for a loaded model. */
    lemma LookupsIgnoreCase(species: string)
      requires Valid()
      ensures IsModelLoaded(species) == IsModelLoaded(Lower(species))
      ensures GetModelInfo(species) == GetModelInfo(Lower(species))
      ensures GetModelInfo(species).Some? <==> IsModelLoaded(species)
      ensures GetModelInfo(species).Some? ==> GetModelInfo(species).value.species == Lower(species)
    {
      LowerIdempotent(species);
    }

    /** `get_all_models_info`: a copy of every entry, in insertion order, with its status. */
    method GetAllModelsInfo() returns (list: seq<ModelSummary>)
      requires Valid()
      ensures list == ModelSummaries(State())
    {
      ghost var spec := ModelSummaries(State());
      list := [];
      for i := 0 to |infoOrder|
        invariant |list| == i
        invariant forall j :: 0 <= j < i ==> list[j] == spec[j]
      {
        var species := infoOrder[i];
        var status := if IsModelLoaded(species) then "loaded" else "not_loaded";
        assert status == StatusOf(State(), species);
        list := list + [Summary(modelInfo[species], status)];
      }
    }

    /** `_prepare_features`: the feature table for `n` dates, built column by column. */
    method PrepareFeatures(species: string, n: nat, province: string, city: string) returns (frame: Frame)
      requires species in models
      ensures frame == FeatureFrame(FeatureNamesOf(models[species]), n)
    {
      var model := models[species];
      var featureNames := FeatureNamesOf(model);
      if featureNames.Some? {
        var names := featureNames.value;
        var columns: seq<Column> := [];
        for i := 0 to |names|
          invariant columns == ColumnsFor(Distinct(names[..i]), n)
        {
          ColumnsStep(names, i, n);
          columns := SetColumn(columns, names[i], Constant(DefaultValue(names[i]), n));
        }
        assert names[..|names|] == names;
        frame := Frame(n, columns);
      } else {
        frame := Frame(n, [
          Column("AvgWeight", Constant(250.0, n)),
          Column("Fingerlings", Constant(5000.0, n)),
          Column("SurvivalRate", Constant(85.0, n))]);
      }
    }

    /** `predict`: the forecast, or the ValueError it raises. */
    method Predict(species: string, dateFrom: string, dateTo: string, province: string, city: string)
      returns (r: Result<seq<PredictionPoint>, PredictError>)
      requires Valid()
      ensures r == Forecast(models, species, dateFrom, dateTo)
    {
      var key := Lower(species);
      LowerIdempotent(species);
      ForecastRejects(models, species, dateFrom, dateTo);
      if !IsModelLoaded(key) {
        return Failure(NotLoaded(key));
      }
      var range := CheckRange(dateFrom, dateTo);
      if range.Failure? {
        return Failure(range.error);
      }
      var (start, end) := range.value;
      var dates := MonthStarts(start, end);
      ForecastScores(models, species, dateFrom, dateTo, start, end);
      r := ScoreDates(key, dates, province, city);
    }

    /** The scoring half of `predict`: call the model on the feature table and build the points. */
    method ScoreDates(key: string, dates: seq<Date>, province: string, city: string)
      returns (r: Result<seq<PredictionPoint>, PredictError>)
      requires key in models
      requires forall i :: 0 <= i < |dates| ==> ValidDate(dates[i])
      ensures r == Score(models[key], dates)
    {
      var model := models[key];
      ScoreOutcome(model, dates);
      var frame := PrepareFeatures(key, |dates|, province, city);
      var scored := model.score(frame);
      if scored.Failure? {
        return Failure(ScoringFailed(scored.error));
      }
      var values := scored.value;
      var bounds: Option<seq<(real, real)>> := None;
      if model.scoreInterval.Some? {
        var attempt := model.scoreInterval.value(frame);
        if attempt.Success? {
          bounds := Some(attempt.value);
        }
      }
      assert bounds == Intervals(model, frame);
      r := BuildPoints(dates, values, bounds);
    }

    /** The loop of `predict` that reads one score, and its bounds when there are any, per date. */
    method BuildPoints(dates: seq<Date>, values: seq<real>, bounds: Option<seq<(real, real)>>)
      returns (r: Result<seq<PredictionPoint>, PredictError>)
      requires forall i :: 0 <= i < |dates| ==> ValidDate(dates[i])
      ensures r == PointsOf(dates, values, bounds)
    {
      var points: seq<PredictionPoint> := [];
      for i := 0 to |dates|
        invariant |points| == i <= |values|
        invariant bounds.Some? ==> i <= |bounds.value|
        invariant forall j :: 0 <= j < i ==> points[j] == PointAt(dates[j], values[j], bounds, j)
      {
        if i >= |values| {
          return Failure(ScoringFailed(IndexOutOfRange));
        }
        // A missing bound raises before the point is appended, so checking it first is the same.
        if bounds.Some? && i >= |bounds.value| {
          return Failure(ScoringFailed(IndexOutOfRange));
        }
        points := points + [PointAt(dates[i], values[i], bounds, i)];
      }
      assert points == PointsOf(dates, values, bounds).value;
      return Success(points);
    }
  }

  // ---------------------------------------------------------------------------
  // Forecasts
  // ---------------------------------------------------------------------------

  /** The ValueErrors `predict` raises. */
  datatype PredictError =
    | NotLoaded(species: string)
    | UnparsableDate(text: string)
    | EndBeforeStart
    | RangeTooLong(days: int)
    | OutOfTimestampRange
    | ScoringFailed(reason: string)

  /** The message of the ValueError a score lookup past the returned array raises. */
  const IndexOutOfRange := "index out of range"

  function Message(e: PredictError): string {
    match e
    case NotLoaded(s) => "Model for " + s + " is not loaded"
    case UnparsableDate(t) => "time data '" + t + "' does not match format '%Y-%m-%d'"
    case EndBeforeStart => "End date must be after start date"
    case RangeTooLong(_) => "Date range exceeds maximum of 365 days"
    case OutOfTimestampRange => "Out of bounds nanosecond timestamp"
    case ScoringFailed(reason) => "Failed to make harvest forecast: " + reason
  }

  /** The date checks of `predict`, in the order the code makes them. */
  function CheckRange(dateFrom: string, dateTo: string): (r: Result<(Date, Date), PredictError>)
    ensures r.Success? <==>
      && ParseDate(dateFrom).Some? && ParseDate(dateTo).Some?
      && !Before(ParseDate(dateTo).value, ParseDate(dateFrom).value)
      && DaysBetween(ParseDate(dateFrom).value, ParseDate(dateTo).value) + 1 <= MaxForecastDays
      && InTimestampRange(ParseDate(dateFrom).value) && InTimestampRange(ParseDate(dateTo).value)
    ensures r.Success? ==> r.value == (ParseDate(dateFrom).value, ParseDate(dateTo).value)
  {
    match ParseDate(dateFrom)
    case None => Failure(UnparsableDate(dateFrom))
    case Some(start) =>
      match ParseDate(dateTo)
      case None => Failure(UnparsableDate(dateTo))
      case Some(end) =>
        if Before(end, start) then Failure(EndBeforeStart)
        else if DaysBetween(start, end) + 1 > MaxForecastDays then Failure(RangeTooLong(DaysBetween(start, end) + 1))
        else if !InTimestampRange(start) || !InTimestampRange(end) then Failure(OutOfTimestampRange)
        else Success((start, end))
  }

  /** The bounds `predict_interval` returned, or None when the model has none or it raised. */
  function Intervals(model: Model, frame: Frame): Option<seq<(real, real)>> {
    if model.scoreInterval.None? then None
    else
      match model.scoreInterval.value(frame)
      case Success(bounds) => Some(bounds)
      case Failure(_) => None
  }

  function PointAt(date: Date, value: real, bounds: Option<seq<(real, real)>>, i: nat): PredictionPoint
    requires ValidDate(date)
    requires bounds.Some? ==> i < |bounds.value|
  {
    if bounds.Some? then PredictionPoint(IsoFormat(date), value, Some(bounds.value[i].0), Some(bounds.value[i].1))
    else PredictionPoint(IsoFormat(date), value)
  }

  /** Scoring the dates: one point per date, or one error and no points. */
  function Score(model: Model, dates: seq<Date>): Result<seq<PredictionPoint>, PredictError>
    requires forall i :: 0 <= i < |dates| ==> ValidDate(dates[i])
  {
    var n := |dates|;
    var frame := FeatureFrame(FeatureNamesOf(model), n);
    match model.score(frame)
    case Failure(reason) => Failure(ScoringFailed(reason))
    case Success(values) => PointsOf(dates, values, Intervals(model, frame))
  }

  /** One point per date from the scores and bounds, or the IndexError of a list too short. */
  function PointsOf(dates: seq<Date>, values: seq<real>, bounds: Option<seq<(real, real)>>): Result<seq<PredictionPoint>, PredictError>
    requires forall i :: 0 <= i < |dates| ==> ValidDate(dates[i])
  {
    var n := |dates|;
    if |values| < n || (bounds.Some? && |bounds.value| < n) then Failure(ScoringFailed(IndexOutOfRange))
    else Success(seq(n, i requires 0 <= i < n => PointAt(dates[i], values[i], bounds, i)))
  }

  /** Scoring raises, or finds too few values, or yields one point per date. */
  lemma ScoreOutcome(model: Model, dates: seq<Date>)
    requires forall i :: 0 <= i < |dates| ==> ValidDate(dates[i])
    ensures var n, frame := |dates|, FeatureFrame(FeatureNamesOf(model), |dates|);
      var bounds := Intervals(model, frame);
      && (model.score(frame).Failure? ==> Score(model, dates) == Failure(ScoringFailed(model.score(frame).error)))
      && (model.score(frame).Success? ==>
            var values := model.score(frame).value;
            if |values| < n || (bounds.Some? && |bounds.value| < n)
            then Score(model, dates) == Failure(ScoringFailed(IndexOutOfRange))
            else
              && Score(model, dates).Success? && |Score(model, dates).value| == n
              && forall i :: 0 <= i < n ==> Score(model, dates).value[i] == PointAt(dates[i], values[i], bounds, i))
  {
  }

  lemma MonthStartsAllValid(start: Date, end: Date)
    requires ValidDate(start) && ValidDate(end)
    ensures forall i :: 0 <= i < |MonthStarts(start, end)| ==> ValidDate(MonthStarts(start, end)[i])
  {
    forall i | 0 <= i < |MonthStarts(start, end)| ensures ValidDate(MonthStarts(start, end)[i]) {
      MonthStartsSound(start, end, i);
    }
  }

  /** What `predict(species, date_from, date_to, province, city)` returns or raises. */
  function Forecast(models: map<string, Model>, species: string, dateFrom: string, dateTo: string)
    : Result<seq<PredictionPoint>, PredictError>
  {
    var key := Lower(species);
    if key !in models then Failure(NotLoaded(key))
    else
      match CheckRange(dateFrom, dateTo)
      case Failure(e) => Failure(e)
      case Success((start, end)) =>
        MonthStartsAllValid(start, end);
        Score(models[key], MonthStarts(start, end))
  }

  /**
   * A successful forecast has one point per first of the month in the range, ascending,
   * each dated in `YYYY-MM-DD` form, at most twelve of them; every point carries bounds
   * or none does.
   */
  lemma ForecastPoints(models: map<string, Model>, species: string, dateFrom: string, dateTo: string)
    requires Forecast(models, species, dateFrom, dateTo).Success?
    ensures var points := Forecast(models, species, dateFrom, dateTo).value;
      var start, end := ParseDate(dateFrom).value, ParseDate(dateTo).value;
      && Lower(species) in models
      && |points| == |MonthStarts(start, end)| <= 12
      && (forall i :: 0 <= i < |points| ==>
            && ParseDate(points[i].date) == Some(MonthStarts(start, end)[i])
            && ParseDate(points[i].date).value.day == 1
            && !Before(ParseDate(points[i].date).value, start)
            && !Before(end, ParseDate(points[i].date).value))
      && (forall i, j :: 0 <= i < j < |points| ==>
            Before(ParseDate(points[i].date).value, ParseDate(points[j].date).value))
      && (forall i, j :: 0 <= i < |points| && 0 <= j < |points| ==>
            (points[i].confidenceLower.Some? <==> points[j].confidenceLower.Some?))
      && (forall i, j :: 0 <= i < |points| && 0 <= j < |points| ==>
            (points[i].confidenceUpper.Some? <==> points[j].confidenceUpper.Some?))
      && (forall i :: 0 <= i < |points| ==> (points[i].confidenceLower.Some? <==> points[i].confidenceUpper.Some?))
  {
    var points := Forecast(models, species, dateFrom, dateTo).value;
    var start, end := ParseDate(dateFrom).value, ParseDate(dateTo).value;
    var dates := MonthStarts(start, end);
    ForecastScores(models, species, dateFrom, dateTo, start, end);
    ScoredPoints(models[Lower(species)], dates);
    MonthStartsInAYear(start, end);
    forall i | 0 <= i < |points|
      ensures ParseDate(points[i].date) == Some(dates[i])
      ensures dates[i].day == 1 && !Before(dates[i], start) && !Before(end, dates[i])
    {
      ParseIsoFormat(dates[i]);
      MonthStartsSound(start, end, i);
    }
    forall i, j | 0 <= i < j < |points|
      ensures Before(ParseDate(points[i].date).value, ParseDate(points[j].date).value)
    {
      MonthStartsAscending(start, end, i, j);
    }
  }

  /** Scored points carry the dates in ISO form, and either all carry bounds or none does. */
  lemma ScoredPoints(model: Model, dates: seq<Date>)
    requires forall i :: 0 <= i < |dates| ==> ValidDate(dates[i])
    requires Score(model, dates).Success?
    ensures var points := Score(model, dates).value;
      && |points| == |dates|
      && (forall i :: 0 <= i < |points| ==> points[i].date == IsoFormat(dates[i]))
      && (forall i, j :: 0 <= i < |points| && 0 <= j < |points| ==>
            (points[i].confidenceLower.Some? <==> points[j].confidenceLower.Some?))
      && (forall i, j :: 0 <= i < |points| && 0 <= j < |points| ==>
            (points[i].confidenceUpper.Some? <==> points[j].confidenceUpper.Some?))
      && (forall i :: 0 <= i < |points| ==> (points[i].confidenceLower.Some? <==> points[i].confidenceUpper.Some?))
  {
    var frame := FeatureFrame(FeatureNamesOf(model), |dates|);
    var bounds := Intervals(model, frame);
    var points := Score(model, dates).value;
    assert points == PointsOf(dates, model.score(frame).value, bounds).value;
    forall i | 0 <= i < |points|
      ensures points[i].confidenceLower.Some? <==> bounds.Some?
      ensures points[i].confidenceUpper.Some? <==> bounds.Some?
    {
      assert points[i] == PointAt(dates[i], model.score(frame).value[i], bounds, i);
    }
  }

  /** When every check passes, the forecast fails only if scoring raises or returns too few values. */
  lemma ForecastSucceeds(models: map<string, Model>, species: string, dateFrom: string, dateTo: string)
    requires Lower(species) in models && CheckRange(dateFrom, dateTo).Success?
    ensures var model := models[Lower(species)];
      var (start, end) := CheckRange(dateFrom, dateTo).value;
      var n := |MonthStarts(start, end)|;
      var frame := FeatureFrame(FeatureNamesOf(model), n);
      Forecast(models, species, dateFrom, dateTo).Success? <==>
        && model.score(frame).Success? && |model.score(frame).value| >= n
        && (Intervals(model, frame).Some? ==> |Intervals(model, frame).value| >= n)
  {
  }

  /** The range checks fail before any scoring happens, whatever the model does. */
  lemma ForecastRejects(models: map<string, Model>, species: string, dateFrom: string, dateTo: string)
    ensures Lower(species) !in models ==> Forecast(models, species, dateFrom, dateTo) == Failure(NotLoaded(Lower(species)))
    ensures Lower(species) in models && CheckRange(dateFrom, dateTo).Failure? ==>
      Forecast(models, species, dateFrom, dateTo) == Failure(CheckRange(dateFrom, dateTo).error)
    ensures Lower(species) in models && ParseDate(dateFrom).Some? && ParseDate(dateTo).Some? ==>
      var start, end := ParseDate(dateFrom).value, ParseDate(dateTo).value;
      && (Before(end, start) ==> Forecast(models, species, dateFrom, dateTo) == Failure(EndBeforeStart))
      && (!Before(end, start) && DaysBetween(start, end) + 1 > MaxForecastDays ==>
            Forecast(models, species, dateFrom, dateTo).Failure?
            && Forecast(models, species, dateFrom, dateTo).error.RangeTooLong?)
  {
  }

  lemma JanuaryRange()
    ensures CheckRange("2024-01-01", "2024-01-31") == Success((Date(2024, 1, 1), Date(2024, 1, 31)))
  {
    JanuaryIso();
    ParseIsoFormat(Date(2024, 1, 1));
    ParseIsoFormat(Date(2024, 1, 31));
    var start, end := Date(2024, 1, 1), Date(2024, 1, 31);
    assert DaysBetween(start, end) == 30 by {
      assert Ordinal(end) - Ordinal(start) == DaysBeforeMonth(2024, 1) + 31 - (DaysBeforeMonth(2024, 1) + 1);
    }
    assert !Before(end, start);
    assert InTimestampRange(start) && InTimestampRange(end);
  }

  /** Once the checks pass, the forecast is the scoring of the month starts. */
  lemma ForecastScores(models: map<string, Model>, species: string, dateFrom: string, dateTo: string, start: Date, end: Date)
    requires Lower(species) in models && CheckRange(dateFrom, dateTo) == Success((start, end))
    ensures ValidDate(start) && ValidDate(end)
    ensures forall i :: 0 <= i < |MonthStarts(start, end)| ==> ValidDate(MonthStarts(start, end)[i])
    ensures Forecast(models, species, dateFrom, dateTo) == Score(models[Lower(species)], MonthStarts(start, end))
  {
    MonthStartsAllValid(start, end);
  }

  lemma JanuaryScoresNewYear(models: map<string, Model>)
    requires "tilapia" in models
    ensures Forecast(models, "tilapia", "2024-01-01", "2024-01-31") == Score(models["tilapia"], [Date(2024, 1, 1)])
  {
    LowerOfLowercase("tilapia");
    JanuaryRange();
    var start, end := Date(2024, 1, 1), Date(2024, 1, 31);
    ForecastScores(models, "tilapia", "2024-01-01", "2024-01-31", start, end);
    JanuaryHasOneMonthStart();
  }

  lemma ScoreNewYear(model: Model)
    requires model.scoreInterval.None?
    requires var frame := FeatureFrame(FeatureNamesOf(model), 1);
      model.score(frame).Success? && |model.score(frame).value| >= 1
    ensures Score(model, [Date(2024, 1, 1)])
         == Success([PredictionPoint("2024-01-01", model.score(FeatureFrame(FeatureNamesOf(model), 1)).value[0])])
  {
    JanuaryIso();
    var d := Date(2024, 1, 1);
    var r := Score(model, [d]);
    var v := model.score(FeatureFrame(FeatureNamesOf(model), 1)).value[0];
    assert r.Success? && |r.value| == 1;
    assert r.value[0] == PointAt(d, v, None, 0);
    assert r.value == [PredictionPoint("2024-01-01", v)];
  }

  /** January 2024 gives a single point, dated the first of January. */
  lemma JanuaryForecast(models: map<string, Model>)
    requires "tilapia" in models && models["tilapia"].scoreInterval.None?
    requires var frame := FeatureFrame(FeatureNamesOf(models["tilapia"]), 1);
      models["tilapia"].score(frame).Success? && |models["tilapia"].score(frame).value| >= 1
    ensures var frame := FeatureFrame(FeatureNamesOf(models["tilapia"]), 1);
      Forecast(models, "tilapia", "2024-01-01", "2024-01-31")
        == Success([PredictionPoint("2024-01-01", models["tilapia"].score(frame).value[0])])
  {
    JanuaryScoresNewYear(models);
    ScoreNewYear(models["tilapia"]);
  }
}
