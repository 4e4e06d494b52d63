# Konfigur2 configuration validator, modelled in Dafny

Konfigur2.py loads `config.json`, checks it, prints it, and exits with a
status that tells a configuration error (1) from any other failure (2). This
project models the checking step, `validate_config`, and the exit-status
classification of `main`, and proves what they promise.

- `json.dfy` (module `Json`): the values `json.load` returns (`None`, `bool`,
  `int`, `float`, `str`, `list`, `dict`), and Python's substring test on
  strings.
- `konfigur2.dfy` (module `Konfigur2`): the six required parameters in their
  declared order (`package_name`, `repository_url`, `repo_mode`,
  `output_file`, `max_depth`, `filter_substring`). `isinstance` follows
  Python, so a JSON boolean is an `int` and a JSON float is not. The
  presence-and-type loop is `CheckKeys`, a recursive function over that
  sequence. `ValidateConfig` is `validate_config` on a dictionary.
  `ValidateDocument` is `validate_config` on any parsed document, because
  `json.load` need not return a dictionary. `LoadConfig` is the error mapping
  of `load_config`. `ExitStatus` and `RunMain` are the exception handling of
  `main`.
- `validation_properties.dfy` (module `ValidationProperties`): lemmas on the
  order of the checks, the error kinds, the parameters never consulted, and
  the exit status.

An outcome is `Pass` (the function returns `None`) or `Fail(kind, key)`. Here
`kind` is the exception class (`KeyError`, `TypeError` or `ValueError`) and
`key` is the required parameter being checked when the exception was
raised. The configuration is a Dafny value, so nothing `validate_config` does
can change it.

Behaviour of the code that the model keeps:

- A missing key raises `KeyError` and a value of the wrong type raises
  `TypeError`. Both range checks raise `ValueError`.
- `package_version` is not a required key and is never checked.
- A JSON boolean passes as `max_depth`, with the value 1 or 0.
- A top-level document that is not an object is rejected with `KeyError` or
  `TypeError` while `package_name` is being checked, as Python's `in` and
  `[]` behave on strings, lists and scalars.
- `main` gives status 1 to any `ValueError`, including a `UnicodeDecodeError`
  while the file is read, not only to configuration errors.

## Model

| member | source | states |
|---|---|---|
| Json.Contains | Konfigur2.py:29 | Python's `key in s` on strings holds exactly when `key` occurs at some position of `s` |
| Konfigur2.IsInstance | Konfigur2.py:31 | a string is an instance of `str` only; a JSON integer or boolean is an instance of `int` only; `None`, a float, a list and a dict are instances of neither |
| Konfigur2.IntValue | Konfigur2.py:38 | a JSON boolean compared as an `int` is 0 or 1, so it is never negative |
| Konfigur2.KeyFailure | Konfigur2.py:29-35 | one iteration raises `KeyError` exactly when the key is absent and `TypeError` exactly when it is present with the wrong type, both naming that key |
| Konfigur2.CheckKeys | Konfigur2.py:28-35 | the loop passes exactly when every required key is present with its declared type; otherwise it raises for the first bad key in declared order, all keys before it being fine |
| Konfigur2.ValidateConfig | Konfigur2.py:17-41 | returns normally exactly when all six keys are present and typed, `max_depth >= 0` and `repo_mode` is "remote" or "local"; a `ValueError` is raised only after all six keys passed the loop; every exception is a `KeyError`, `TypeError` or `ValueError` raised while a required key is checked |
| Konfigur2.ValidateDocument | Konfigur2.py:28-31 | only a JSON object can pass; any other document is rejected with `KeyError` or `TypeError` while `package_name` is being checked |
| Konfigur2.LoadConfig | Konfigur2.py:6-14 | a path that is not a file gives `FileNotFoundError`; malformed JSON gives `ValueError`; a parsed document is returned unchanged; other read failures pass through |
| Konfigur2.ExitStatus | Konfigur2.py:59-64 | `FileNotFoundError`, `ValueError`, `KeyError` and `TypeError` give status 1, any other instance of `Exception` gives status 2 |
| Konfigur2.RunMain | Konfigur2.py:51-64 | `main` exits with 0 exactly when the file exists, parses and is accepted; with 2 exactly when reading it raised an `Exception` outside the four caught classes; with 1 otherwise |
| ValidationProperties.FirstBadIsUnique | Konfigur2.py:28-35 | the loop can stop at only one entry |
| ValidationProperties.ReportsFirstBadKey | Konfigur2.py:28-35 | the exception is for the first key in declared order that is missing or ill-typed, and it is `KeyError` exactly when that key is absent |
| ValidationProperties.KeyErrorMeansAbsent | Konfigur2.py:29-30 | a `KeyError` names a required key that is absent and is the first bad one |
| ValidationProperties.TypeErrorMeansIllTyped | Konfigur2.py:31-35 | a `TypeError` names a required key that is present but not of its declared type, and is the first bad one |
| ValidationProperties.LaterKeysNotConsulted | Konfigur2.py:28-35 | once the loop stops at a key, any configuration that agrees up to that key raises the same exception, whatever follows it |
| ValidationProperties.CheckKeysSameVerdicts | Konfigur2.py:28-35 | the loop's outcome depends only on which keys are present and which pass their type test |
| ValidationProperties.OnlyRequiredKeysMatter | Konfigur2.py:17-41 | two configurations that agree on the six required keys get the same outcome |
| ValidationProperties.ExtraKeysIgnored | Konfigur2.py:17-41 | adding or replacing a key outside the six never changes the outcome |
| ValidationProperties.RestrictionToRequiredKeys | Konfigur2.py:17-41 | dropping all keys outside the six never changes the outcome |
| ValidationProperties.NegativeDepthReportedFirst | Konfigur2.py:38-39 | once all six keys pass, a negative `max_depth` raises `ValueError` about `max_depth`, even when `repo_mode` is also invalid |
| ValidationProperties.UnknownModeRejected | Konfigur2.py:40-41 | once every other check passes, a `repo_mode` other than "remote" or "local" raises `ValueError` about `repo_mode` |
| ValidationProperties.FloatDepthIsTypeError | Konfigur2.py:24 | a JSON float for `max_depth` after four good keys raises `TypeError` about `max_depth` |
| ValidationProperties.NumericModeIsTypeError | Konfigur2.py:22 | a number for `repo_mode` after two good keys raises `TypeError`, not `ValueError` |
| ValidationProperties.BoolDepthActsAsInt | Konfigur2.py:24 | a JSON boolean for `max_depth` gets the same outcome as the integer 1 or 0 |
| ValidationProperties.RejectedDocumentExitsWithOne | Konfigur2.py:55-61 | a parsed document that `validate_config` rejects ends the run with status 1 |

## Left out

- `print_config` (Konfigur2.py:44-48) and every `print` in `main`: console output only. The model assumes printing an accepted configuration raises nothing.
- The text of the error messages (Konfigur2.py:9, 14, 30, 32-34, 39, 41): the model keeps the exception class and the required parameter being checked.
- The `TypeError`s Python itself raises for a document that is not an object (`in` on `None` or a number, `[]` with a string index on a string or list) carry Python's own message, which does not name `package_name`; the model records only that `package_name` was being checked.
- Exceptions derived from `BaseException` but not from `Exception`, such as `KeyboardInterrupt` and `SystemExit`, are caught by neither `except` clause of `main` and escape it; they are not modelled, and `RunMain` does not cover them.
- The file system test and JSON parsing inside `load_config`: they are parameters of `LoadConfig`. Duplicate keys in the file, which `json.load` resolves by keeping the last one, are not modelled.
- JSON floats are modelled as `real`. The non-finite values `NaN` and `Infinity`, which `json.load` also accepts, are not represented. Every float fails the type test anyway.
- Strings holding lone surrogates (`"\ud800"`), which `json.load` accepts, cannot be represented: Dafny's `char` holds only Unicode scalar values. No outcome depends on them.
- `sys.exit` and process termination: `RunMain` returns the exit status.
- Building a package-feed query, fetching it over HTTP, parsing XML and decoding dependency lists: none of this exists in Konfigur2.py.
