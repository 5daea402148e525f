/**
 * `config.py`: the defaults and `load_config`, which starts from a copy of the
 * defaults, merges the saved JSON object into it and resets a background path
 * that no longer exists. Reading the file and `os.path.exists` are inputs.
 */
module Config {
  import opened PyText

  /** A JSON value as `json.load` returns it. */
  datatype Json =
    | JNull
    | JBool(b: bool)
    | JInt(i: int)
    | JFloat(f: real)
    | JStr(s: string)
    | JArr(items: seq<Json>)
    | JObj(fields: map<string, Json>)

  /** A Python dict with string keys. */
  type Dict = map<string, Json>

  const BackgroundKey := "background_image"
  const OpacityKey := "background_opacity"

  const DefaultConfig: Dict := map[BackgroundKey := JStr(""), OpacityKey := JFloat(0.3)]

  /** What reading `config.json` gives: no file, an exception while opening or
      parsing it, or the parsed document. */
  datatype ConfigFile = Absent | Unreadable | Parsed(doc: Json)

  /** Python truthiness of a JSON value. */
  predicate Truthy(v: Json)
  {
    match v
    case JNull => false
    case JBool(b) => b
    case JInt(i) => i != 0
    case JFloat(f) => f != 0.0
    case JStr(s) => s != ""
    case JArr(items) => |items| > 0
    case JObj(fields) => |fields| > 0
  }

  /** `config.update(doc)`: an object merges key by key, the saved value
      winning; an empty list or string changes nothing; anything else raises
      (`None`). */
  function Update(config: Dict, doc: Json): (r: Option<Dict>)
    ensures doc.JObj? ==> r.Some? && r.value.Keys == config.Keys + doc.fields.Keys
    ensures doc.JObj? ==> forall k :: k in doc.fields ==> r.value[k] == doc.fields[k]
    ensures doc.JObj? ==> forall k :: k in config && k !in doc.fields ==> r.value[k] == config[k]
    ensures !doc.JObj? && r.Some? ==> r.value == config
    ensures r.None? <==> !doc.JObj? && doc != JArr([]) && doc != JStr("")
  {
    match doc
    case JObj(fields) => Some(config + fields)
    case JArr(items) => if items == [] then Some(config) else None
    case JStr(s) => if s == "" then Some(config) else None
    case _ => None
  }

  /** A background value `load_config` resets: truthy, and `os.path.exists`
      answered `False` (`pathExists` gives `None` when it raises). */
  predicate Stale(v: Json, pathExists: Json -> Option<bool>)
  {
    Truthy(v) && pathExists(v) == Some(false)
  }

  /** The dict `load_config` returns: the defaults when there is no saved
      object to merge, otherwise the saved object merged over the defaults
      with a stale background path reset. */
  function LoadedFrom(file: ConfigFile, pathExists: Json -> Option<bool>): Dict
  {
    if file.Parsed? && file.doc.JObj? then
      var merged := DefaultConfig + file.doc.fields;
      merged[BackgroundKey := if Stale(merged[BackgroundKey], pathExists) then JStr("") else merged[BackgroundKey]]
    else DefaultConfig
  }

  /** `load_config`. Any exception is swallowed: before the update the
      defaults are returned, after it the merged dict as it stands. */
  method LoadConfig(file: ConfigFile, pathExists: Json -> Option<bool>) returns (config: Dict)
    ensures BackgroundKey in config && OpacityKey in config
    ensures !Stale(config[BackgroundKey], pathExists)
    ensures !file.Parsed? ==> config == DefaultConfig
    ensures file.Parsed? && Update(DefaultConfig, file.doc).None? ==> config == DefaultConfig
    ensures file.Parsed? && file.doc.JObj? ==>
      var saved := file.doc.fields;
      var merged := DefaultConfig + saved;
      && config.Keys == DefaultConfig.Keys + saved.Keys
      && (forall k :: k in saved && k != BackgroundKey ==> config[k] == saved[k])
      && (forall k :: k in DefaultConfig && k !in saved ==> config[k] == DefaultConfig[k])
      && config[BackgroundKey] == (if Stale(merged[BackgroundKey], pathExists) then JStr("") else merged[BackgroundKey])
    ensures file.Parsed? && !file.doc.JObj? ==> config == DefaultConfig
    ensures config == LoadedFrom(file, pathExists)
  {
    config := DefaultConfig;
    if file.Parsed? {
      var updated := Update(config, file.doc);
      if updated.Some? {
        config := updated.value;
        var bgPath := config[BackgroundKey];
        if Truthy(bgPath) {
          var found := pathExists(bgPath);
          if found.None? {
            return;
          }
          if !found.value {
            config := config[BackgroundKey := JStr("")];
          }
        }
      }
    }
  }
}
