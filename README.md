# Heart-disease risk prediction: feature encoding and outcome chain

This project models the logic of a small heart-disease prediction system with two entry points.

- **The prediction service** (`app_25RP21043.py`, module `Api`).
  - `POST /api/predict` takes a JSON record of patient features.
  - It walks the trained model's feature-name list in order.
  - Each categorical string (`"male"`, `"typical angina"`, …) is lower-cased and trimmed, then looked up in a fixed 19-entry category table. A string not in the table must parse as a number. Numbers pass through unchanged.
  - It stops at the first missing, null or unreadable feature with a 400 answer.
  - It scales the vector and asks the model for class probabilities.
  - It picks the first index of the largest probability, names the class, and looks up a risk tier for it.
  - Before the loop come two checks, in order: "Model not loaded" (500) and "No JSON data" (400).
- **The offline check script** (`predict.py`, module `Script`).
  - It encodes a fixed sample profile with a lenient copy of the same loop: a missing feature or an unreadable string becomes `0.0` instead of an error.
  - It resolves class names through a three-step fallback: the model's `classes_`, then a list artifact, then a dict's values.
  - It prints one row per class and marks the predicted row.

Supporting modules:

- `Text` models Python's `str.lower()`, `str.upper()` and `str.strip()`. Stripping uses the full `str.isspace` character set. Case mapping covers ASCII only.
- `Records` models the decoded JSON body and `dict.get`.
- `Categories` models the table lookup both entry points share.
- `Inference` models the artifacts, the scaler and model calls, and `np.argmax`.
- `Wrappers` holds `Option` and `Result`.

Some operations are statement sequences or loops in the source, and each becomes a method.

- The two encoding loops, `Api.EncodeFeatures` and `Script.EncodeFeatures`, are each proved equal to a recursive specification function (`Api.Encode`, `Script.Encode`). The lemmas state their properties against that function.
- The printing loop `Script.MarkRows` is specified pointwise: row i and the count of marked rows.
- The handler `Api.Predict` is specified as its ordered chain of outcomes, in terms of `RequestVector`, `Rejection` and `Respond`.
- The script `Script.Run` is specified by the properties of its report and of its failures.

Three things are parameters of the model rather than parts of it:

- Python's `float()` on strings is the function `parse: string -> Option<real>`.
- The fitted scaler and model are the functions `transform` and `predictProba` in `Artifacts`. Each returns `None` where the call raises.
- Artifact loading is an `Option<Artifacts>`, which is `None` when loading failed.

## Model

| member | source | states |
|---|---|---|
| Text.NormalizeIgnoresCaseAndPadding | app_25RP21043.py:89 | `lower().strip()` gives the same key for any spelling that differs only in ASCII letter case and surrounding whitespace |
| Text.StripIdempotent | app_25RP21043.py:89 | stripping an already stripped string changes nothing |
| Text.NormalizeIdempotent | app_25RP21043.py:89 | a normalised string is its own normal form |
| Text.NormalizeShape | app_25RP21043.py:89 | `lower().strip()` is a lower-case slice of the lower-cased string, blank outside the slice, with no whitespace at either end |
| Text.ToUpperShape | predict.py:97 | `upper()` changes only letter case, only on lower-case ASCII letters, and leaves none |
| Text.NormalFormFixed | app_25RP21043.py:18-25 | a string with no upper-case ASCII letter and no whitespace at either end, as every table key is, is its own normal form |
| Categories.Lookup | app_25RP21043.py:89-91 | a string is found exactly when its lower-cased, trimmed form is a table key |
| Categories.LookupIgnoresCaseAndPadding | app_25RP21043.py:88-91 | the lookup gives the same code for strings that differ only in case and surrounding whitespace |
| Categories.LookupByNormalForm | app_25RP21043.py:89-91 | a string whose normal form is a key yields that key's code as a float |
| Api.LookupPaddedMale | app_25RP21043.py:88-91 | `" Male"` is found with the code `1.0` of `"male"` |
| Api.ConvertMapped | app_25RP21043.py:88-91 | a string whose normal form is a table key converts to its code, whatever `float()` would say |
| Api.Convert | app_25RP21043.py:84-96 | absent or null gives `Missing`, in both directions; a mapped string gives its code; an unmapped string that `float()` accepts gives the parsed value of the raw string; a string that is neither gives `InvalidString` carrying the original raw string, in both directions; a number passes through unchanged and never consults the table; a bool gives 1.0 or 0.0; an array or object, and only that, raises the `TypeError` that reaches the catch-all |
| Api.Encode | app_25RP21043.py:82-98 | a successful encoding has exactly one entry per feature name |
| Api.EncodeSuccess | app_25RP21043.py:82-98 | encoding succeeds iff every feature converts, and then entry i is the conversion of `record[FEATURE_NAMES[i]]` |
| Api.EncodesTo | app_25RP21043.py:82-98 | a record whose every feature converts to entry i of `v` encodes to exactly `v` |
| Api.EncodeFirstFailure | app_25RP21043.py:83-94 | the reported error is that of the first failing feature in schema order |
| Api.EncodeIgnoresUnreached | app_25RP21043.py:83-94 | features after the first failing one are never examined: records that agree up to it fail alike |
| Api.EncodeDependsOnlyOnSchema | app_25RP21043.py:83-84 | only the values under the schema's names matter; extra keys and key order are ignored |
| Api.EncodeFeatures | app_25RP21043.py:82-98 | the loop with early returns computes exactly the encoding above |
| Api.RequestVector | app_25RP21043.py:82-84 | an object body is encoded; a body that is not an object gives the empty vector for an empty schema, and otherwise raises the `AttributeError` of its first `.get` |
| Api.ActualClasses | app_25RP21043.py:40-43 | class names come from `classes_`, else from a list artifact, else are empty; each is lower-cased and trimmed |
| Api.RiskMapHasNoUnknown | app_25RP21043.py:47-54 | no tier in the table reads "Unknown" |
| Api.RiskLevelInfo | app_25RP21043.py:45-54 | the lookup is total: the tier is "Unknown" (with the "Consult a physician" text) exactly when the normalised name is not among the five known names, and otherwise it is that name's entry |
| Api.KnownRiskTiers | app_25RP21043.py:46-53 | the five known names give Critical, High, Medium, Low Risk and Healthy |
| Api.RiskLevelIgnoresCaseAndPadding | app_25RP21043.py:45-54 | the tier ignores letter case and surrounding whitespace of the class name |
| Api.PerClass | app_25RP21043.py:116-119 | the probability map has exactly the class names at the indices of the probability row as keys |
| Api.PerClassLast | app_25RP21043.py:116-119 | a name's value is 100 times the probability at its last occurrence |
| Api.Rejection | app_25RP21043.py:85-94 | a missing feature answers 400 "Missing: <name>"; an invalid string answers 400 "Invalid string value: <raw string>"; a raised exception, and only that, answers 500 carrying the exception |
| Api.Respond | app_25RP21043.py:100-124 | a prediction is given iff the model call succeeds with a non-empty row no longer than the class list, and otherwise the answer is 500; the predicted class and confidence both use the first arg-max index; the predicted class is a key of the probability map, which is the per-class map of the whole row; the risk fields are the tier lookup of the predicted class |
| Api.Predict | app_25RP21043.py:73-124 | outcomes in order: "Model not loaded" (500) for any body; then "No JSON data" (400) for an absent or falsy body; then the first per-feature rejection; then the answer for the encoded vector |
| Api.NoClassesNoPrediction | app_25RP21043.py:40-43 | with no `classes_` and no list of labels, no request ends in a prediction |
| Inference.Scores | app_25RP21043.py:100-103 | the probability row is `predict_proba` applied to the scaled vector; a failure is a scaler or model fault |
| Inference.ArgMax | app_25RP21043.py:104 | the index is in range, holds a maximum, and is the first index that does |
| Inference.ArgMaxUnique | app_25RP21043.py:104 | any first-maximum index is the arg-max |
| Inference.NormalizeAll | app_25RP21043.py:41 | each class name is lower-cased and trimmed, in order |
| Records.NoData | app_25RP21043.py:79 | `not data` holds exactly for an absent body, an empty object, or a falsy non-object |
| Records.Get | app_25RP21043.py:84 | `get` finds a value exactly under the keys present |
| Script.MappingMatchesApi | predict.py:23-30 | the script's table equals the service's table |
| Script.Convert | predict.py:52-70 | the lenient step fails only on an array or object value; where the strict step succeeds it gives the same value; where the strict step reports a missing or invalid feature it gives `0.0` |
| Script.Encode | predict.py:50-72 | the lenient vector has one entry per feature name |
| Script.EncodeShape | predict.py:50-72 | the lenient encoding succeeds iff no feature holds an array or object, and then entry i is the lenient conversion of `record[feature_names[i]]` |
| Script.StrictSuccessAgrees | predict.py:50-72 | whenever the service's strict encoder succeeds, the lenient loop produces the identical vector |
| Script.EncodeFeatures | predict.py:50-72 | the loop with `continue` computes exactly the lenient encoding |
| Script.ResolveClasses | predict.py:82-85 | names come from `classes_`, else a list artifact, else a dict's values in order, each lower-cased and trimmed; any other artifact fails; the first two steps agree with the service |
| Script.MarkedOnlyAt | predict.py:91-94 | rows marked at exactly one index have exactly one marked row |
| Script.MarkRows | predict.py:91-94 | one row per probability, labelled by the class at the same index, with percentage 100·p; exactly one row is marked when the index is in range |
| Script.SampleAlwaysEncodes | predict.py:33-72 | the lenient loop never aborts on the sample profile, whatever the feature list |
| Script.SampleInput | predict.py:50-72 | the sample's vector has one entry per feature name |
| Script.SampleFeature | predict.py:33-47 | feature i of the sample converts to entry i of [63, 1, 1, 145, 233, 1, 2, 150, 0, 2.3, 3, 0, 3] |
| Script.SampleEncoding | predict.py:33-72 | with the feature list in the sample's key order, both the strict and the lenient encoders give [63, 1, 1, 145, 233, 1, 2, 150, 0, 2.3, 3, 0, 3] |
| Script.Run | predict.py:11-100 | the run exits iff the artifacts are missing; a report has one row per probability; row i carries class name i from the label fallback and 100 times probability i, and it is marked exactly when i is the first arg-max, so exactly one row is marked; the report also gives the upper-cased predicted name and its confidence; every other outcome comes from a model failure, an empty row, labels without values or too few class names |

## Left out

- Flask routing, CORS, `jsonify` and `request.get_json` are left out. The parsed body is an `Option<Body>`, and a body that is not valid JSON is `None`.
- The `/api/health` and `/api/model-info` handlers are left out. They return constant payloads plus a wall-clock timestamp.
- `joblib.load`, the printed load error and `exit()` are left out because they are file I/O. Loading is an `Option<Artifacts>`.
- Python's `float()` on strings is not modelled. This covers IEEE parsing, `"nan"`, `"inf"` and underscores. It is the parameter `parse`.
- Api.Convert: int-to-float rounding of very large JSON integers is left out. JSON numbers are exact `real`s.
- Api.Convert: an integer beyond the double range makes `float(val)` raise `OverflowError`, which answers 500. The model gives the integer's value instead.
- JSON `NaN`, `Infinity` and `-Infinity`, which Python's decoder accepts, are not modelled. A `Num` holds a `real`, which cannot represent them.
- `round(..., 2)` on percentages is left out. Confidences are exact `100 * p`.
- The `timestamp` field of a prediction is left out.
- The fitted scaler and model are opaque foreign calls. Their outputs are uninterpreted functions, and a raised exception is a `None` output.
- Text: `str.lower()` and `str.upper()` are modelled for ASCII letters only. Unicode case mapping, which can change a string's length, is not modelled.
- `str(c)` on non-string class labels is left out. Class names are taken as strings.
- `traceback.print_exc`, the exception text in a 500 body, console printing and column formatting are left out. A 500 body carries the kind of exception, not its message.
- Script.Run: the script prints rows one by one, so with fewer class names than probabilities it prints some rows before the `IndexError`. The model reports only the crash.
- `numpy` reshaping is left out. The vector stays a `seq<real>`.
