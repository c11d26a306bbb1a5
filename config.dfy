/** The parsed application configuration and behavior template, their
    validation at construction, and property lookup. */
module Config {
  import opened Wrappers
  import opened Strings
  import opened Errors

  /** One key and its value in a YAML mapping. */
  datatype Pair = Pair(key: Plain, value: Plain)

  /** A mapping of the `preprocessing` or `postprocessing` list, its pairs in
      insertion order (normally a single pair). */
  type Entry = seq<Pair>

  /** The application file; a field is `None` when its key is absent. */
  datatype AppConfig = AppConfig(
    preprocessing: Option<seq<Entry>>,
    knowledgeBase: Option<string>,
    postprocessing: Option<seq<Entry>>,
    database: Option<string>)

  /** The behavior file: sections, each mapping field names to templates. */
  type Behavior = map<string, map<string, string>>

  const PreprocessingFields: set<string> := {"context", "mapping", "init"}
  const PostprocessingFields: set<string> := {"context", "mapping", "init", "summarize"}

  /** `required_config - set(self.config.keys())`. */
  function AbsentConfigKeys(cfg: AppConfig): set<string> {
    (if cfg.preprocessing.None? then {"preprocessing"} else {})
    + (if cfg.knowledgeBase.None? then {"knowledge_base"} else {})
    + (if cfg.postprocessing.None? then {"postprocessing"} else {})
  }

  /** `_validate_config`: the required configuration keys first, then each
      behavior section and its fields, preprocessing before postprocessing. */
  function ValidateConfig(cfg: AppConfig, beh: Behavior): (r: Outcome<Failure>)
    ensures r.Pass? <==> WellFormed(cfg, beh)
    ensures r.Fail? ==> r.error.ConfigError?
    ensures r.Fail? && r.error.cause.MissingConfigKeys? ==>
      r.error.cause.keys != {} && r.error.cause.keys == AbsentConfigKeys(cfg)
  {
    if AbsentConfigKeys(cfg) != {} then
      Fail(ConfigError(MissingConfigKeys(AbsentConfigKeys(cfg))))
    else if "preprocessing" !in beh then
      Fail(ConfigError(MissingBehaviorSection("preprocessing")))
    else if !(PreprocessingFields <= beh["preprocessing"].Keys) then
      Fail(ConfigError(MissingBehaviorFields("preprocessing", PreprocessingFields - beh["preprocessing"].Keys)))
    else if "postprocessing" !in beh then
      Fail(ConfigError(MissingBehaviorSection("postprocessing")))
    else if !(PostprocessingFields <= beh["postprocessing"].Keys) then
      Fail(ConfigError(MissingBehaviorFields("postprocessing", PostprocessingFields - beh["postprocessing"].Keys)))
    else
      Pass
  }

  /** The configuration a constructed pipeline holds: the three required
      keys, and both behavior sections with all their fields. */
  predicate WellFormed(cfg: AppConfig, beh: Behavior) {
    && cfg.preprocessing.Some? && cfg.knowledgeBase.Some? && cfg.postprocessing.Some?
    && "preprocessing" in beh
    && "context" in beh["preprocessing"] && "mapping" in beh["preprocessing"] && "init" in beh["preprocessing"]
    && "postprocessing" in beh
    && "context" in beh["postprocessing"] && "mapping" in beh["postprocessing"] && "init" in beh["postprocessing"]
    && "summarize" in beh["postprocessing"]
  }

  /** The key a lookup compares: the whole key, or its predicate name when
      looking up a fact. */
  predicate Matches(p: Pair, key: string, isFact: bool) {
    if isFact then AtomName(p.key) == key else p.key == key
  }

  /** Entry `i` is where `next(...)` stops: it matches `key`, and every
      earlier entry is non-empty and does not. */
  predicate FirstHit(props: seq<Entry>, i: int, key: string, isFact: bool)
    requires 0 <= i < |props|
  {
    && |props[i]| > 0 && Matches(props[i][0], key, isFact)
    && forall j | 0 <= j < i :: |props[j]| > 0 && !Matches(props[j][0], key, isFact)
  }

  /** `__get_property`: the first key and first value of the first entry whose
      first key matches.  An empty entry met on the way raises inside the
      generator; no match raises `Property not found`. */
  function GetProperty(props: seq<Entry>, key: string, isFact: bool): (r: Result<Pair, Failure>)
    ensures r.Failure? ==> r.error.LlmaspError?
  {
    if |props| == 0 then Failure(LlmaspError(PropertyNotFound(key)))
    else if |props[0]| == 0 then Failure(LlmaspError(MalformedProperty))
    else if Matches(props[0][0], key, isFact) then Success(props[0][0])
    else GetProperty(props[1..], key, isFact)
  }

  /** Past a non-empty entry that does not match, the first hit moves one
      entry down. */
  lemma FirstHitShift(props: seq<Entry>, i: int, key: string, isFact: bool)
    requires 1 <= i < |props| && |props[0]| > 0 && !Matches(props[0][0], key, isFact)
    ensures FirstHit(props, i, key, isFact) == FirstHit(props[1..], i - 1, key, isFact)
  {
    assert forall j | 0 <= j < i - 1 :: props[1..][j] == props[j + 1];
    assert forall j | 1 <= j < i :: props[j] == props[1..][j - 1];
  }

  /** Every entry misses exactly when the first does and all the others do. */
  lemma AllMissShift(props: seq<Entry>, key: string, isFact: bool)
    requires |props| > 0 && |props[0]| > 0 && !Matches(props[0][0], key, isFact)
    ensures (forall j | 0 <= j < |props| :: |props[j]| > 0 && !Matches(props[j][0], key, isFact)) <==>
      (forall j | 0 <= j < |props| - 1 :: |props[1..][j]| > 0 && !Matches(props[1..][j][0], key, isFact))
  {
    assert forall j | 0 <= j < |props| - 1 :: props[1..][j] == props[j + 1];
  }

  /** The lookup finds exactly the first matching entry, fails with
      `Property not found` exactly when every entry is non-empty and none
      matches, and otherwise reports the empty entry in the way. */
  lemma {:induction false} GetPropertyFirstMatch(props: seq<Entry>, key: string, isFact: bool)
    ensures GetProperty(props, key, isFact).Success? <==>
      exists i | 0 <= i < |props| :: FirstHit(props, i, key, isFact)
    ensures forall i | 0 <= i < |props| && FirstHit(props, i, key, isFact) ::
      GetProperty(props, key, isFact) == Success(props[i][0])
    ensures GetProperty(props, key, isFact) == Failure(LlmaspError(PropertyNotFound(key))) <==>
      forall j | 0 <= j < |props| :: |props[j]| > 0 && !Matches(props[j][0], key, isFact)
  {
    if |props| > 0 && |props[0]| > 0 && !Matches(props[0][0], key, isFact) {
      var rest := props[1..];
      GetPropertyFirstMatch(rest, key, isFact);
      forall i | 1 <= i < |props| ensures FirstHit(props, i, key, isFact) == FirstHit(rest, i - 1, key, isFact) {
        FirstHitShift(props, i, key, isFact);
      }
      assert !FirstHit(props, 0, key, isFact);
      if GetProperty(rest, key, isFact).Success? {
        var i :| 0 <= i < |rest| && FirstHit(rest, i, key, isFact);
        assert FirstHit(props, i + 1, key, isFact);
      }
      AllMissShift(props, key, isFact);
    } else if |props| > 0 {
      assert FirstHit(props, 0, key, isFact) <==> |props[0]| > 0;
      forall i | 1 <= i < |props| ensures !FirstHit(props, i, key, isFact) {
        assert !(|props[0]| > 0 && !Matches(props[0][0], key, isFact));
      }
    }
  }

  /** What the constructor keeps: both files and the database text. */
  datatype Setup = Setup(config: AppConfig, behavior: Behavior, database: string)

  /** `__init__`.  `configFile` and `behaviorFile` are the parsed files, `None`
      when a file cannot be opened or parsed; `loadDatabase` gives the parsed
      database file at a path, `None` when it cannot be loaded. */
  function Construct(
    configFile: Option<AppConfig>, behaviorFile: Option<Behavior>,
    loadDatabase: string -> Option<map<string, string>>): (r: Result<Setup, Failure>)
    ensures r.Failure? ==> r.error.ConfigError? && IsLlmaspError(r.error)
    ensures r.Success? <==>
      configFile.Some? && behaviorFile.Some? && WellFormed(configFile.value, behaviorFile.value)
    ensures r.Success? ==>
      r.value.config == configFile.value && r.value.behavior == behaviorFile.value
    ensures r.Success? && r.value.database != "" ==>
      var path := r.value.config.database;
      path.Some? && loadDatabase(path.value).Some? && "database" in loadDatabase(path.value).value
      && r.value.database == loadDatabase(path.value).value["database"]
    ensures r.Success? ==>
      var path := r.value.config.database;
      (path.None? || loadDatabase(path.value).None? || "database" !in loadDatabase(path.value).value)
      ==> r.value.database == ""
  {
    if configFile.None? then
      Failure(ConfigError(Wrapped(Initializing, ConfigError(CannotLoad("config")))))
    else if behaviorFile.None? then
      Failure(ConfigError(Wrapped(Initializing, ConfigError(CannotLoad("behavior")))))
    else match ValidateConfig(configFile.value, behaviorFile.value)
      case Fail(e) => Failure(ConfigError(Wrapped(Initializing, e)))
      case Pass =>
        var cfg := configFile.value;
        var database :=
          if cfg.database.Some? && loadDatabase(cfg.database.value).Some?
             && "database" in loadDatabase(cfg.database.value).value
          then loadDatabase(cfg.database.value).value["database"]
          else "";
        Success(Setup(cfg, behaviorFile.value, database))
  }

  /** A configuration without `knowledge_base` is refused before anything
      else happens. */
  lemma MissingKnowledgeBaseRefused(
    cfg: AppConfig, beh: Behavior, loadDatabase: string -> Option<map<string, string>>)
    requires cfg.knowledgeBase.None?
    ensures Construct(Some(cfg), Some(beh), loadDatabase) ==
      Failure(ConfigError(Wrapped(Initializing, ConfigError(MissingConfigKeys(AbsentConfigKeys(cfg))))))
    ensures "knowledge_base" in AbsentConfigKeys(cfg)
  {
  }
}
