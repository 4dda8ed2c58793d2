/** The model-server settings file: checking and normalising a loaded document, listing and
    adding models (scripts/model_server/config_manager.py). */
module ModelServerConfig {
  import opened Wrappers
  import opened Json

  /** What reading the settings file gave: no file, text that is not JSON, or a document. */
  datatype FileContents = Missing | Malformed | Parsed(doc: Json)

  /** Why loading stops the program: no file, a JSON syntax error, a required key that is absent
      or falsy, or a document that is not an object and on which the first key test or lookup
      raises (caught by the generic handler). A list or string document for which the first key
      test finds nothing stops with that key missing instead, as `in` accepts both. */
  datatype LoadError = FileNotFound | BadFormat | MissingKey(key: string) | NotAnObject

  const RequiredKeys: seq<string> := ["aws_access_key", "aws_secret_key", "instance_id", "ssh_key_path"]

  /** Whether `key` is present with a truthy value. */
  predicate Provided(config: map<string, Json>, key: string) {
    key in config && Truthy(config[key])
  }

  /** The first of `keys` that is not provided, if any. */
  function FirstMissing(config: map<string, Json>, keys: seq<string>): (r: Option<string>)
    ensures r.None? <==> forall i :: 0 <= i < |keys| ==> Provided(config, keys[i])
    ensures r.Some? ==>
      exists i :: 0 <= i < |keys| && keys[i] == r.value && !Provided(config, keys[i]) && forall j :: 0 <= j < i ==> Provided(config, keys[j])
  {
    if keys == [] then None
    else if !Provided(config, keys[0]) then Some(keys[0])
    else
      var r := FirstMissing(config, keys[1..]);
      assert forall i :: 1 <= i < |keys| ==> keys[1..][i - 1] == keys[i];
      if r.Some? then
        ghost var i :| 0 <= i < |keys| - 1 && keys[1..][i] == r.value && !Provided(config, keys[1..][i]) &&
          forall j :: 0 <= j < i ==> Provided(config, keys[1..][j]);
        assert keys[i + 1] == r.value;
        r
      else r
  }

  /** The entry a legacy single-model file is given under `models`: name 'Default Model', the
      `model_path` (or '') as path, `gpu_layers` (or 32), `threads` (or 4), and embedding on. */
  function LegacyModel(config: map<string, Json>): Json {
    JObject(map[
      "name" := JString("Default Model"),
      "path" := Get(config, "model_path", JString("")),
      "gpu_layers" := Get(config, "gpu_layers", JNumber(32.0)),
      "threads" := Get(config, "threads", JNumber(4.0)),
      "embedding" := JBool(true)])
  }

  /** The value each defaulted key takes when it is absent. */
  function Defaults(config: map<string, Json>): map<string, Json> {
    map[
      "aws_region" := JString("us-west-2"),
      "ec2_user" := JString("ubuntu"),
      "models" := JObject(map["default" := LegacyModel(config)]),
      "base_port" := Get(config, "server_port", JNumber(8080.0))]
  }

  /** The normalised settings: every key already present keeps its value, and every defaulted
      key that is absent takes its default (what the run of `setdefault`s and guarded
      assignments computes, stated as one map union). */
  function WithDefaults(config: map<string, Json>): map<string, Json> {
    Defaults(config) + config
  }

  /** What `_load_config` returns for the file contents, or the reason it stops the program. */
  function Loaded(contents: FileContents): Result<map<string, Json>, LoadError> {
    match contents
    case Missing => Err(FileNotFound)
    case Malformed => Err(BadFormat)
    case Parsed(doc) =>
      if !doc.JObject? then
        match PyIn(RequiredKeys[0], doc)
        case Ok(false) => Err(MissingKey(RequiredKeys[0]))
        case _ => Err(NotAnObject)
      else
        match FirstMissing(doc.fields, RequiredKeys)
        case Some(key) => Err(MissingKey(key))
        case None => Ok(WithDefaults(doc.fields))
  }

  /** The `models` entry of the settings, or an empty object when there is none
      (`get_available_models`). */
  function ModelsIn(config: map<string, Json>): (r: Json)
    ensures "models" in config ==> r == config["models"]
    ensures "models" !in config ==> r == JObject(map[])
  {
    Get(config, "models", JObject(map[]))
  }

  /** Why `add_model` raises: the `models` entry is present but is not an object. */
  datatype AddError = ModelsNotAnObject

  /** The settings after `add_model(modelId, info)`: `models` is created if absent and
      `models[modelId]` is set. A `models` value that is not an object makes the item assignment
      raise before anything changes. */
  function WithModel(config: map<string, Json>, modelId: string, info: Json): Result<map<string, Json>, AddError> {
    var models := ModelsIn(config);
    if models.JObject? then Ok(config["models" := JObject(models.fields[modelId := info])])
    else Err(ModelsNotAnObject)
  }

  /** The settings file and the normalised settings read from it (`ConfigManager`). */
  class ConfigManager {
    var configFile: string
    var config: map<string, Json>

    constructor (configFile: string, config: map<string, Json>)
      ensures this.configFile == configFile && this.config == config
    {
      this.configFile := configFile;
      this.config := config;
    }

    /** `__init__`: load the file and keep the normalised settings; a load error ends the
        program, which here is an `Err` and no manager. */
    static method Open(configFile: string, contents: FileContents) returns (r: Result<ConfigManager, LoadError>)
      ensures r.Err? <==> Loaded(contents).Err?
      ensures r.Err? ==> r.error == Loaded(contents).error
      ensures r.Ok? ==> fresh(r.value) && r.value.configFile == configFile && r.value.config == Loaded(contents).value
    {
      var loaded := LoadConfig(contents);
      match loaded
      case Err(e) => r := Err(e);
      case Ok(config) =>
        var m := new ConfigManager(configFile, config);
        r := Ok(m);
    }

    /** `get_available_models`: the `models` entry, or an empty object when there is none. */
    function AvailableModels(): (r: Json)
      reads this
      ensures "models" in config ==> r == config["models"]
      ensures "models" !in config ==> r == JObject(map[])
    {
      ModelsIn(config)
    }

    /** `add_model`: create `models` if absent and set `models[modelId] := info` in place. Writing
        the file back is not modelled. */
    method AddModel(modelId: string, info: Json) returns (r: Result<(), AddError>)
      modifies this
      ensures WithModel(old(config), modelId, info).Ok? ==> r.Ok? && config == WithModel(old(config), modelId, info).value
      ensures WithModel(old(config), modelId, info).Err? ==> r.Err? && config == old(config)
      ensures configFile == old(configFile)
    {
      if "models" !in config {
        config := config["models" := JObject(map[])];
      }
      var models := config["models"];
      if !models.JObject? {
        return Err(ModelsNotAnObject);
      }
      config := config["models" := JObject(models.fields[modelId := info])];
      return Ok(());
    }
  }

  /** `_load_config` after the file has been read and parsed: check the required keys in order,
      then fill in the defaults one key at a time. */
  method LoadConfig(contents: FileContents) returns (r: Result<map<string, Json>, LoadError>)
    ensures r == Loaded(contents)
  {
    if contents.Missing? {
      return Err(FileNotFound);
    } else if contents.Malformed? {
      return Err(BadFormat);
    } else if !contents.doc.JObject? {
      var found := PyIn(RequiredKeys[0], contents.doc);
      if found == Ok(false) {
        return Err(MissingKey(RequiredKeys[0]));
      }
      return Err(NotAnObject);
    }
    var config := contents.doc.fields;
    for i := 0 to |RequiredKeys|
      invariant forall j :: 0 <= j < i ==> Provided(config, RequiredKeys[j])
    {
      var key := RequiredKeys[i];
      if key !in config || !Truthy(config[key]) {
        assert FirstMissing(config, RequiredKeys) == Some(key) by {
          FirstMissingIsFirst(config, RequiredKeys, i);
        }
        return Err(MissingKey(key));
      }
    }
    config := FillDefaults(config);
    return Ok(config);
  }

  /** `d.setdefault(key, value)`: `d` with `key` set to `value` when it is absent. */
  function SetDefault<V>(d: map<string, V>, key: string, value: V): map<string, V> {
    if key in d then d else d[key := value]
  }

  /** The defaulting half of `_load_config`: `setdefault` for the region and the user, the
      legacy model when `models` is absent, and `base_port` when it is absent. */
  method FillDefaults(original: map<string, Json>) returns (config: map<string, Json>)
    ensures config == WithDefaults(original)
  {
    config := SetDefault(original, "aws_region", JString("us-west-2"));
    config := SetDefault(config, "ec2_user", JString("ubuntu"));
    ghost var legacy := config;
    if "models" !in config {
      var defaultModel := JObject(map[
        "name" := JString("Default Model"),
        "path" := Get(config, "model_path", JString("")),
        "gpu_layers" := Get(config, "gpu_layers", JNumber(32.0)),
        "threads" := Get(config, "threads", JNumber(4.0)),
        "embedding" := JBool(true)]);
      config := config["models" := JObject(map["default" := defaultModel])];
    }
    ghost var ported := config;
    if "base_port" !in config {
      config := config["base_port" := Get(config, "server_port", JNumber(8080.0))];
    }
    DefaultsInOrder(original, legacy, ported, config);
  }

  /** The four guarded steps of `FillDefaults` add up to `WithDefaults`. */
  lemma DefaultsInOrder(original: map<string, Json>, legacy: map<string, Json>, ported: map<string, Json>, config: map<string, Json>)
    requires legacy == SetDefault(SetDefault(original, "aws_region", JString("us-west-2")), "ec2_user", JString("ubuntu"))
    requires ported == SetDefault(legacy, "models", JObject(map["default" := LegacyModel(legacy)]))
    requires config == SetDefault(ported, "base_port", Get(ported, "server_port", JNumber(8080.0)))
    ensures config == WithDefaults(original)
  {
    SetDefaultsAreUnion(original, JString("us-west-2"), JString("ubuntu"), JObject(map["default" := LegacyModel(legacy)]),
      Get(ported, "server_port", JNumber(8080.0)));
    assert LegacyModel(legacy) == LegacyModel(original) by {
      assert Get(legacy, "model_path", JString("")) == Get(original, "model_path", JString(""));
      assert Get(legacy, "gpu_layers", JNumber(32.0)) == Get(original, "gpu_layers", JNumber(32.0));
      assert Get(legacy, "threads", JNumber(4.0)) == Get(original, "threads", JNumber(4.0));
    }
    assert Get(ported, "server_port", JNumber(8080.0)) == Get(original, "server_port", JNumber(8080.0));
  }

  /** Four `setdefault`s on distinct keys are one union with the defaults on the left. */
  lemma SetDefaultsAreUnion<V>(d: map<string, V>, region: V, user: V, models: V, port: V)
    ensures SetDefault(SetDefault(SetDefault(SetDefault(d, "aws_region", region), "ec2_user", user), "models", models), "base_port", port)
      == map["aws_region" := region, "ec2_user" := user, "models" := models, "base_port" := port] + d
  {
  }

  /** A key that is not provided, after provided ones only, is the one `FirstMissing` reports. */
  lemma {:induction false} FirstMissingIsFirst(config: map<string, Json>, keys: seq<string>, i: nat)
    requires i < |keys| && !Provided(config, keys[i])
    requires forall j :: 0 <= j < i ==> Provided(config, keys[j])
    ensures FirstMissing(config, keys) == Some(keys[i])
  {
    if i > 0 {
      FirstMissingIsFirst(config, keys[1..], i - 1);
    }
  }

  // ---------------------------------------------------------------------------------------
  // Properties of loading

  /** A successful load had an object document whose four required keys are all present and
      truthy, and keeps them as they were; a failure names the first required key that is
      absent or falsy. */
  lemma LoadedRequires(contents: FileContents)
    ensures Loaded(contents).Ok? <==>
      contents.Parsed? && contents.doc.JObject? && forall i :: 0 <= i < |RequiredKeys| ==> Provided(contents.doc.fields, RequiredKeys[i])
    ensures Loaded(contents).Ok? ==> forall i :: 0 <= i < |RequiredKeys| ==>
      Loaded(contents).value[RequiredKeys[i]] == contents.doc.fields[RequiredKeys[i]]
    ensures Loaded(contents) == Err(MissingKey("aws_secret_key")) <==>
      contents.Parsed? && contents.doc.JObject? &&
      Provided(contents.doc.fields, "aws_access_key") && !Provided(contents.doc.fields, "aws_secret_key")
  {
    if contents.Parsed? && contents.doc.JObject? {
      var c := contents.doc.fields;
      if Provided(c, "aws_access_key") && !Provided(c, "aws_secret_key") {
        FirstMissingIsFirst(c, RequiredKeys, 1);
      } else if !Provided(c, "aws_access_key") {
        FirstMissingIsFirst(c, RequiredKeys, 0);
      }
    }
  }

  /** A document that is not an object never loads. A list without the string
      'aws_access_key', or a string without it as a substring, fails the first key test and
      stops with that key missing; any other non-object document raises on the test or on the
      lookup that follows it. */
  lemma NonObjectDocument(doc: Json)
    requires !doc.JObject?
    ensures doc.JArray? && JString("aws_access_key") !in doc.items ==>
      Loaded(Parsed(doc)) == Err(MissingKey("aws_access_key"))
    ensures doc.JString? && !IsSubstring("aws_access_key", doc.s) ==>
      Loaded(Parsed(doc)) == Err(MissingKey("aws_access_key"))
    ensures doc.JArray? && JString("aws_access_key") in doc.items ==> Loaded(Parsed(doc)) == Err(NotAnObject)
    ensures doc.JString? && IsSubstring("aws_access_key", doc.s) ==> Loaded(Parsed(doc)) == Err(NotAnObject)
    ensures doc.JNull? || doc.JBool? || doc.JNumber? ==> Loaded(Parsed(doc)) == Err(NotAnObject)
  {
  }

  /** An empty list, an empty string and a string without the key all stop with the first
      required key missing. */
  lemma NonObjectExamples()
    ensures Loaded(Parsed(JArray([]))) == Err(MissingKey("aws_access_key"))
    ensures Loaded(Parsed(JString(""))) == Err(MissingKey("aws_access_key"))
    ensures Loaded(Parsed(JString("abc"))) == Err(MissingKey("aws_access_key"))
    ensures Loaded(Parsed(JString("aws_access_key"))) == Err(NotAnObject)
    ensures Loaded(Parsed(JNull)) == Err(NotAnObject)
  {
    assert !IsSubstring("aws_access_key", "abc") by {
      var s := "abc";
      assert s[1..] == "bc" && s[1..][1..] == "c" && s[1..][1..][1..] == "";
    }
    assert IsSubstring("aws_access_key", "aws_access_key");
  }

  /** Normalising never changes a key that is present, adds exactly the defaulted keys that are
      absent, and gives each of them its default: 'us-west-2', 'ubuntu', a single legacy
      'default' model, and the `server_port` (else 8080) as `base_port`. */
  lemma WithDefaultsFields(config: map<string, Json>)
    ensures forall key | key in config :: key in WithDefaults(config) && WithDefaults(config)[key] == config[key]
    ensures WithDefaults(config).Keys == config.Keys + {"aws_region", "ec2_user", "models", "base_port"}
    ensures "aws_region" !in config ==> WithDefaults(config)["aws_region"] == JString("us-west-2")
    ensures "ec2_user" !in config ==> WithDefaults(config)["ec2_user"] == JString("ubuntu")
    ensures "models" !in config ==> ModelsIn(WithDefaults(config)) == JObject(map["default" := LegacyModel(config)])
    ensures "models" in config ==> ModelsIn(WithDefaults(config)) == config["models"]
    ensures "base_port" !in config && "server_port" in config ==> WithDefaults(config)["base_port"] == config["server_port"]
    ensures "base_port" !in config && "server_port" !in config ==> WithDefaults(config)["base_port"] == JNumber(8080.0)
  {
  }

  /** Normalising normalised settings changes nothing, so a file written back after a load
      loads to the same settings. */
  lemma WithDefaultsIdempotent(config: map<string, Json>)
    ensures WithDefaults(WithDefaults(config)) == WithDefaults(config)
  {
    var once := WithDefaults(config);
    assert Defaults(once).Keys <= once.Keys;
  }

  lemma ReloadIsStable(contents: FileContents)
    requires Loaded(contents).Ok?
    ensures Loaded(Parsed(JObject(Loaded(contents).value))) == Loaded(contents)
  {
    var config := Loaded(contents).value;
    LoadedRequires(contents);
    LoadedRequires(Parsed(JObject(config)));
    WithDefaultsIdempotent(contents.doc.fields);
  }

  // ---------------------------------------------------------------------------------------
  // Properties of adding a model

  /** Adding a model makes it available under its id and leaves every other model and every
      other setting as it was; it fails only when `models` is present and not an object. */
  lemma WithModelEffect(config: map<string, Json>, modelId: string, info: Json)
    ensures WithModel(config, modelId, info).Err? <==> "models" in config && !config["models"].JObject?
    ensures WithModel(config, modelId, info).Ok? ==>
      var after := WithModel(config, modelId, info).value;
      && ModelsIn(after).JObject?
      && ModelsIn(after).fields.Keys == ModelsIn(config).fields.Keys + {modelId}
      && ModelsIn(after).fields[modelId] == info
      && (forall id | id in ModelsIn(config).fields && id != modelId :: ModelsIn(after).fields[id] == ModelsIn(config).fields[id])
      && after.Keys == config.Keys + {"models"}
      && (forall key | key in config && key != "models" :: after[key] == config[key])
  {
  }

  /** Adding the same model twice is the same as adding it once; a later addition under the
      same id replaces the earlier one. */
  lemma WithModelOverrides(config: map<string, Json>, modelId: string, first: Json, second: Json)
    requires WithModel(config, modelId, first).Ok?
    ensures WithModel(WithModel(config, modelId, first).value, modelId, second) == WithModel(config, modelId, second)
  {
    var models := ModelsIn(config).fields;
    var after := WithModel(config, modelId, first).value;
    assert ModelsIn(after) == JObject(models[modelId := first]);
    assert models[modelId := first][modelId := second] == models[modelId := second];
    assert after["models" := JObject(models[modelId := second])] == config["models" := JObject(models[modelId := second])];
  }
}
