/**
  The configuration loader and validator of Konfigur2.py: `validate_config`
  checks the six required parameters of a parsed JSON document, and `main`
  turns the exception that escapes loading or validation into an exit status.
 */
module Konfigur2 {
  import opened Json

  /** The two Python types `validate_config` asks for. */
  datatype PyType = Str | Int

  /**
    The class of an exception that reaches `main`: the first of the four
    classes its first `except` clause names that the exception is an instance
    of (`json.JSONDecodeError` and `UnicodeDecodeError` are instances of
    `ValueError`), or `OtherException` for any other instance of `Exception`.
   */
  datatype PyException = FileNotFoundError | ValueError | KeyError | TypeError | OtherException

  /**
    What `validate_config` does: return normally, or raise an exception of
    class `kind` while it checks the required parameter `key`.
   */
  datatype Outcome = Pass | Fail(kind: PyException, key: string)

  /** The exception classes `validate_config` can raise. */
  const ValidationErrors: set<PyException> := {KeyError, TypeError, ValueError}

  /**
    `isinstance(v, t)` for a value `json.load` produced. Python's `bool` is a
    subclass of `int`, so JSON `true` and `false` are instances of `int`; a
    JSON number with a fraction or exponent is a `float`, which is not; no
    value is an instance of both types, and `None`, lists and dicts of neither.
   */
  function IsInstance(v: JValue, t: PyType): (r: bool)
    ensures v.JString? ==> (r <==> t == Str)
    ensures v.JInt? || v.JBool? ==> (r <==> t == Int)
    ensures v.JNull? || v.JFloat? || v.JArray? || v.JObject? ==> !r
  {
    match t
    case Str => v.JString?
    case Int => v.JInt? || v.JBool?
  }

  /** The integer value of an instance of `int` (`True == 1`, `False == 0`). */
  function IntValue(v: JValue): (n: int)
    requires IsInstance(v, Int)
    ensures v.JBool? ==> 0 <= n <= 1
  {
    match v
    case JInt(n) => n
    case JBool(b) => if b then 1 else 0
  }

  /** The required parameters and their types, in the order the dictionary literal declares them. */
  const RequiredKeys: seq<(string, PyType)> := [
    ("package_name", Str),
    ("repository_url", Str),
    ("repo_mode", Str),
    ("output_file", Str),
    ("max_depth", Int),
    ("filter_substring", Str)
  ]

  /** The names of the required parameters. */
  const RequiredNames: set<string> := set i | 0 <= i < |RequiredKeys| :: RequiredKeys[i].0

  /** The values `repo_mode` may take. */
  const RepoModes: set<JValue> := {JString("remote"), JString("local")}

  /** One iteration of the checking loop lets `entry` through: present, and of the declared type. */
  predicate KeyOk(config: map<string, JValue>, entry: (string, PyType)) {
    entry.0 in config && IsInstance(config[entry.0], entry.1)
  }

  /** The exception one iteration of the checking loop raises for a bad `entry`. */
  function KeyFailure(config: map<string, JValue>, entry: (string, PyType)): (r: Outcome)
    requires !KeyOk(config, entry)
    ensures r.Fail? && r.key == entry.0
    ensures r.kind == KeyError <==> entry.0 !in config
    ensures r.kind == TypeError <==> entry.0 in config && !IsInstance(config[entry.0], entry.1)
  {
    if entry.0 !in config then Fail(KeyError, entry.0) else Fail(TypeError, entry.0)
  }

  /** `i` is the first entry of `keys` that the checking loop stops at. */
  predicate FirstBad(config: map<string, JValue>, keys: seq<(string, PyType)>, i: int) {
    && 0 <= i < |keys|
    && !KeyOk(config, keys[i])
    && forall j :: 0 <= j < i ==> KeyOk(config, keys[j])
  }

  /**
    The presence-and-type loop over `keys`: it passes exactly when every entry
    is present with its type, and otherwise raises for the first entry that is
    not, and for nothing after it.
   */
  function CheckKeys(config: map<string, JValue>, keys: seq<(string, PyType)>): (r: Outcome)
    ensures r.Pass? <==> forall i :: 0 <= i < |keys| ==> KeyOk(config, keys[i])
    ensures r.Fail? ==> exists i :: FirstBad(config, keys, i) && r == KeyFailure(config, keys[i])
  {
    if keys == [] then Pass
    else if !KeyOk(config, keys[0]) then
      assert FirstBad(config, keys, 0);
      KeyFailure(config, keys[0])
    else
      var r := CheckKeys(config, keys[1..]);
      assert r.Fail? ==> exists i :: FirstBad(config, keys, i) && r == KeyFailure(config, keys[i]) by {
        if r.Fail? {
          var i :| FirstBad(config, keys[1..], i) && r == KeyFailure(config, keys[1..][i]);
          assert FirstBad(config, keys, i + 1);
        }
      }
      assert (forall i :: 0 <= i < |keys[1..]| ==> KeyOk(config, keys[1..][i])) ==>
             (forall i :: 0 <= i < |keys| ==> KeyOk(config, keys[i])) by {
        forall i | 0 < i < |keys| ensures keys[i] == keys[1..][i - 1] { }
      }
      r
  }

  /**
    The conditions under which `validate_config` returns normally, written out
    parameter by parameter.
   */
  predicate Accepted(config: map<string, JValue>) {
    && "package_name" in config && config["package_name"].JString?
    && "repository_url" in config && config["repository_url"].JString?
    && "repo_mode" in config && config["repo_mode"] in RepoModes
    && "output_file" in config && config["output_file"].JString?
    && "max_depth" in config && IsInstance(config["max_depth"], Int) && IntValue(config["max_depth"]) >= 0
    && "filter_substring" in config && config["filter_substring"].JString?
  }

  /** All six required parameters are present with their declared types. */
  predicate AllKeysOk(config: map<string, JValue>) {
    forall i :: 0 <= i < |RequiredKeys| ==> KeyOk(config, RequiredKeys[i])
  }

  /**
    `validate_config(config)` on a dictionary: the presence-and-type loop, then
    `max_depth >= 0`, then `repo_mode` in ("remote", "local"). The mapping is a
    value here, so nothing in it can change.
   */
  function ValidateConfig(config: map<string, JValue>): (r: Outcome)
    ensures r.Pass? <==> Accepted(config)
    ensures r.Fail? && r.kind == ValueError ==> AllKeysOk(config)
    ensures r.Fail? ==> r.key in RequiredNames && r.kind in ValidationErrors
  {
    var checked := CheckKeys(config, RequiredKeys);
    if checked.Fail? then checked
    else
      assert KeyOk(config, RequiredKeys[2]) && KeyOk(config, RequiredKeys[4]);
      if IntValue(config["max_depth"]) < 0 then Fail(ValueError, "max_depth")
      else if config["repo_mode"] !in RepoModes then Fail(ValueError, "repo_mode")
      else
        assert KeyOk(config, RequiredKeys[0]) && KeyOk(config, RequiredKeys[1]);
        assert KeyOk(config, RequiredKeys[3]) && KeyOk(config, RequiredKeys[5]);
        Pass
  }

  /**
    `validate_config` applied to whatever `json.load` returned. Only a `dict`
    can pass. On a `str` the presence test `key not in config` is a substring
    test and on a `list` a membership test, and when it succeeds the lookup
    `config[key]` raises `TypeError`; on `None`, a `bool` or a number the
    presence test itself raises `TypeError`. Either way the first key,
    `package_name`, is the one being checked, though the messages of these
    `TypeError`s come from Python and do not name it.
   */
  function ValidateDocument(doc: JValue): (r: Outcome)
    ensures r.Pass? <==> doc.JObject? && Accepted(doc.fields)
    ensures r.Fail? ==> r.kind in ValidationErrors
    ensures !doc.JObject? ==> r.Fail? && r.key == RequiredKeys[0].0 && r.kind in {KeyError, TypeError}
  {
    var first := RequiredKeys[0].0;
    match doc
    case JObject(m) => ValidateConfig(m)
    case JString(s) => if Contains(s, first) then Fail(TypeError, first) else Fail(KeyError, first)
    case JArray(items) => if JString(first) in items then Fail(TypeError, first) else Fail(KeyError, first)
    case _ => Fail(TypeError, first)
  }

  /** What reading and parsing an existing configuration file gives. */
  datatype FileRead =
    | Parsed(doc: JValue)
    | DecodeFailed
    | ReadRaised(e: PyException)

  /** The result of `load_config`: the parsed document, or the exception it lets out. */
  datatype Loaded = Loaded(doc: JValue) | LoadRaised(e: PyException)

  /**
    `load_config`, with the file system test and the file's contents as
    parameters: a path that is not a regular file raises `FileNotFoundError`,
    malformed JSON is re-raised as `ValueError`, and anything else from
    opening or reading the file goes through unchanged.
   */
  function LoadConfig(isFile: bool, read: FileRead): (r: Loaded)
    ensures !isFile ==> r == LoadRaised(FileNotFoundError)
    ensures isFile && read.Parsed? ==> r == Loaded(read.doc)
    ensures isFile && read.DecodeFailed? ==> r == LoadRaised(ValueError)
    ensures isFile && read.ReadRaised? ==> r == LoadRaised(read.e)
  {
    if !isFile then LoadRaised(FileNotFoundError)
    else match read
      case Parsed(doc) => Loaded(doc)
      case DecodeFailed => LoadRaised(ValueError)
      case ReadRaised(e) => LoadRaised(e)
  }

  /**
    The exit status `main` gives an exception: 1 for the configuration errors
    of its first `except` clause, 2 for any other instance of `Exception`.
   */
  function ExitStatus(e: PyException): (code: nat)
    ensures code == 1 <==> e in {FileNotFoundError, ValueError, KeyError, TypeError}
    ensures code == 2 <==> e == OtherException
  {
    if e.OtherException? then 2 else 1
  }

  /**
    The exit status of a run of `main`: load, validate, print, or stop at the
    first exception. A normal return ends the process with status 0. The
    status is 0 exactly when the file exists, parses and is accepted, 2
    exactly when reading it raised an `Exception` outside the four classes
    the first `except` clause names, and 1 otherwise.
   */
  function RunMain(isFile: bool, read: FileRead): (code: nat)
    ensures code == 0 <==> isFile && read.Parsed? && read.doc.JObject? && Accepted(read.doc.fields)
    ensures code == 2 <==> isFile && read == ReadRaised(OtherException)
    ensures code in {0, 1, 2}
  {
    match LoadConfig(isFile, read)
    case LoadRaised(e) => ExitStatus(e)
    case Loaded(doc) =>
      match ValidateDocument(doc)
      case Pass => 0
      case Fail(kind, _) => ExitStatus(kind)
  }
}
