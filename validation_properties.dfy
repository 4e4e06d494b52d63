/**
  What `validate_config` and `main` in Konfigur2.py promise across inputs:
  the order in which the parameters are checked, which exception a rejected
  configuration raises, what is never consulted, and the exit status.
 */
module ValidationProperties {
  import opened Json
  import opened Konfigur2

  /** `c1` and `c2` hold the same thing (or nothing) under `key`. */
  predicate AgreeOn(c1: map<string, JValue>, c2: map<string, JValue>, key: string) {
    (key in c1 <==> key in c2) && (key in c1 ==> c1[key] == c2[key])
  }

  /** The loop stops at the first bad entry, whatever stands after it. */
  lemma FirstBadIsUnique(config: map<string, JValue>, keys: seq<(string, PyType)>, i: int, j: int)
    requires FirstBad(config, keys, i) && FirstBad(config, keys, j)
    ensures i == j
  {
  }

  /**
    The exception is raised for the first required parameter, in declared
    order, that is missing (`KeyError`) or present with the wrong type
    (`TypeError`).
   */
  lemma ReportsFirstBadKey(config: map<string, JValue>, i: int)
    requires FirstBad(config, RequiredKeys, i)
    ensures ValidateConfig(config) == KeyFailure(config, RequiredKeys[i])
    ensures ValidateConfig(config).kind == KeyError <==> RequiredKeys[i].0 !in config
  {
  }

  /** `KeyError` names a parameter that is absent. */
  lemma KeyErrorMeansAbsent(config: map<string, JValue>)
    requires ValidateConfig(config).Fail? && ValidateConfig(config).kind == KeyError
    ensures ValidateConfig(config).key !in config
    ensures exists i :: FirstBad(config, RequiredKeys, i) && RequiredKeys[i].0 == ValidateConfig(config).key
  {
  }

  /** `TypeError` names a parameter that is present but not of its declared type. */
  lemma TypeErrorMeansIllTyped(config: map<string, JValue>)
    requires ValidateConfig(config).Fail? && ValidateConfig(config).kind == TypeError
    ensures exists i :: && FirstBad(config, RequiredKeys, i)
                        && RequiredKeys[i].0 == ValidateConfig(config).key
                        && RequiredKeys[i].0 in config
                        && !IsInstance(config[RequiredKeys[i].0], RequiredKeys[i].1)
  {
  }

  /**
    Once the loop stops at entry `i`, the parameters after it are not
    consulted: a configuration that agrees on the first `i + 1` required
    parameters raises the same exception.
   */
  lemma LaterKeysNotConsulted(c1: map<string, JValue>, c2: map<string, JValue>, i: int)
    requires FirstBad(c1, RequiredKeys, i)
    requires forall j :: 0 <= j <= i ==> AgreeOn(c1, c2, RequiredKeys[j].0)
    ensures ValidateConfig(c2) == ValidateConfig(c1) == KeyFailure(c1, RequiredKeys[i])
  {
  }

  /** The loop's verdict depends only on which entries it lets through. */
  lemma CheckKeysSameVerdicts(c1: map<string, JValue>, c2: map<string, JValue>, keys: seq<(string, PyType)>)
    requires forall i :: 0 <= i < |keys| ==> (KeyOk(c1, keys[i]) <==> KeyOk(c2, keys[i]))
    requires forall i :: 0 <= i < |keys| ==> (keys[i].0 in c1 <==> keys[i].0 in c2)
    ensures CheckKeys(c1, keys) == CheckKeys(c2, keys)
  {
  }

  /** `validate_config` looks at nothing but the six required parameters. */
  lemma OnlyRequiredKeysMatter(c1: map<string, JValue>, c2: map<string, JValue>)
    requires forall k :: k in RequiredNames ==> AgreeOn(c1, c2, k)
    ensures ValidateConfig(c1) == ValidateConfig(c2)
  {
  }

  /** An extra parameter, whatever its value, never changes the verdict. */
  lemma ExtraKeysIgnored(config: map<string, JValue>, key: string, v: JValue)
    requires key !in RequiredNames
    ensures ValidateConfig(config[key := v]) == ValidateConfig(config)
  {
  }

  /** Dropping every parameter but the six required ones changes nothing either. */
  lemma RestrictionToRequiredKeys(config: map<string, JValue>)
    ensures ValidateConfig(map k | k in config && k in RequiredNames :: config[k]) == ValidateConfig(config)
  {
  }

  /**
    A negative `max_depth` raises `ValueError` once all six parameters passed
    the loop, whether or not `repo_mode` is also out of range.
   */
  lemma NegativeDepthReportedFirst(config: map<string, JValue>)
    requires AllKeysOk(config)
    requires "max_depth" in config && IsInstance(config["max_depth"], Int) && IntValue(config["max_depth"]) < 0
    ensures ValidateConfig(config) == Fail(ValueError, "max_depth")
  {
  }

  /** With every other check passed, a `repo_mode` other than "remote" or "local" raises `ValueError`. */
  lemma UnknownModeRejected(config: map<string, JValue>)
    requires AllKeysOk(config)
    requires IntValue(config[RequiredKeys[4].0]) >= 0
    requires config[RequiredKeys[2].0] !in RepoModes
    ensures ValidateConfig(config) == Fail(ValueError, "repo_mode")
  {
  }

  /** A JSON float for `max_depth` is a `TypeError`: a `float` is not an instance of `int`. */
  lemma FloatDepthIsTypeError(config: map<string, JValue>, x: real)
    requires forall j :: 0 <= j < 4 ==> KeyOk(config, RequiredKeys[j])
    requires "max_depth" in config && config["max_depth"] == JFloat(x)
    ensures ValidateConfig(config) == Fail(TypeError, "max_depth")
  {
    ReportsFirstBadKey(config, 4);
  }

  /** A number for `repo_mode` is a `TypeError`, not a `ValueError`. */
  lemma NumericModeIsTypeError(config: map<string, JValue>)
    requires KeyOk(config, RequiredKeys[0]) && KeyOk(config, RequiredKeys[1])
    requires "repo_mode" in config && (config["repo_mode"].JInt? || config["repo_mode"].JFloat?)
    ensures ValidateConfig(config) == Fail(TypeError, "repo_mode")
  {
    ReportsFirstBadKey(config, 2);
  }

  /**
    A JSON boolean for `max_depth` is accepted as the integer 1 or 0, so it
    is never rejected for being negative.
   */
  lemma BoolDepthActsAsInt(config: map<string, JValue>, b: bool)
    ensures ValidateConfig(config["max_depth" := JBool(b)])
         == ValidateConfig(config["max_depth" := JInt(if b then 1 else 0)])
  {
  }

  /** A rejected document ends the run with exit status 1, never 2. */
  lemma RejectedDocumentExitsWithOne(doc: JValue)
    requires ValidateDocument(doc).Fail?
    ensures RunMain(true, Parsed(doc)) == 1
  {
  }
}
