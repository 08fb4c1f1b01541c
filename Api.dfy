/**
  The prediction service (app_25RP21043.py): the category table, the strict
  feature encoder, the risk table, the class-name resolution and the
  `/api/predict` handler with its ordered chain of outcomes.
*/
module Api {
  import opened Wrappers
  import opened Text
  import opened Records
  import opened Categories
  import opened Inference

  /** The category table: normalised categorical strings and their numeric codes. */
  const Mapping: map<string, int> := map[
    "male" := 1, "female" := 0,
    "typical angina" := 1, "atypical angina" := 2, "non-anginal" := 3, "asymptomatic" := 4,
    "true" := 1, "false" := 0, "yes" := 1, "no" := 0,
    "normal" := 0, "st-t wave" := 1, "hypertrophy" := 2,
    "upsloping" := 1, "flat" := 2, "downsloping" := 3,
    "fixed defect" := 3, "normal defect" := 6, "reversable defect" := 7
  ]

  // The table keys the lemmas below rely on are in normal form.
  lemma NormalMale() ensures Normalize("male") == "male" { NormalFormFixed("male"); }
  lemma NormalTypicalAngina() ensures Normalize("typical angina") == "typical angina" { NormalFormFixed("typical angina"); }
  lemma NormalTrue() ensures Normalize("true") == "true" { NormalFormFixed("true"); }
  lemma NormalHypertrophy() ensures Normalize("hypertrophy") == "hypertrophy" { NormalFormFixed("hypertrophy"); }
  lemma NormalNo() ensures Normalize("no") == "no" { NormalFormFixed("no"); }
  lemma NormalDownsloping() ensures Normalize("downsloping") == "downsloping" { NormalFormFixed("downsloping"); }
  lemma NormalFixedDefect() ensures Normalize("fixed defect") == "fixed defect" { NormalFormFixed("fixed defect"); }

  /** `" Male"` normalises to the key `"male"`. */
  lemma NormalizePaddedMale()
    ensures Normalize(" Male") == "male"
  {
    NormalizeIgnoresCaseAndPadding(" ", "Male", "male", "");
    assert " " + "Male" + "" == " Male";
    NormalMale();
  }

  /** For instance `" Male"` is found with the code of `"male"`. */
  lemma LookupPaddedMale()
    ensures Lookup(Mapping, " Male") == Some(1.0)
  {
    NormalizePaddedMale();
    LookupByNormalForm(Mapping, " Male", "male");
  }

  /** A string whose normal form is a table key converts to that key's code; the number parser is
      never consulted. */
  lemma ConvertMapped(name: string, raw: string, key: string, parse: string -> Option<real>)
    requires Normalize(raw) == key && key in Mapping
    ensures Convert(name, Some(Str(raw)), parse) == Success(Mapping[key] as real)
  {
    LookupByNormalForm(Mapping, raw, key);
  }

  /** Why encoding a request stopped. */
  datatype EncodeError =
    | Missing(name: string)        // the feature is absent or `null`
    | InvalidString(raw: string)   // a string that is neither a table key nor a number
    | Raised(fault: Fault)         // an exception that reaches the catch-all handler

  /** One iteration of the encoding loop: the feature `name` whose looked-up value is `v`. */
  function Convert(name: string, v: Option<Value>, parse: string -> Option<real>): (r: Result<real, EncodeError>)
    ensures r == Failure(Missing(name)) <==> v == None || v == Some(Null)
    ensures r.Failure? && r.error.InvalidString? ==>
              v == Some(Str(r.error.raw)) && Lookup(Mapping, r.error.raw).None? && parse(r.error.raw).None?
    ensures v.Some? && v.value.Str? && Lookup(Mapping, v.value.s).Some? ==> r == Success(Lookup(Mapping, v.value.s).value)
    ensures v.Some? && v.value.Str? && Lookup(Mapping, v.value.s).None? && parse(v.value.s).None? ==>
              r == Failure(InvalidString(v.value.s))
    ensures v.Some? && v.value.Str? && Lookup(Mapping, v.value.s).None? && parse(v.value.s).Some? ==>
              r == Success(parse(v.value.s).value)
    ensures v.Some? && v.value.Num? ==> r == Success(v.value.x)
    ensures v.Some? && v.value.Bool? ==> r == Success(if v.value.b then 1.0 else 0.0)
    ensures v == Some(Composite) <==> r == Failure(Raised(NotConvertible))
  {
    match v
    case None => Failure(Missing(name))
    case Some(Null) => Failure(Missing(name))
    case Some(Str(s)) =>
      (match Lookup(Mapping, s)
       case Some(code) => Success(code)
       case None =>
         (match parse(s)
          case Some(x) => Success(x)
          case None => Failure(InvalidString(s))))
    case Some(Num(x)) => Success(x)
    case Some(Bool(b)) => Success(if b then 1.0 else 0.0)
    case Some(Composite) => Failure(Raised(NotConvertible))
  }

  /** The feature `schema[i]` of `record` converts without error. */
  predicate Converts(schema: seq<string>, record: map<string, Value>, parse: string -> Option<real>, i: nat)
    requires i < |schema|
  {
    Convert(schema[i], Get(record, schema[i]), parse).Success?
  }

  /** The encoded vector of `record` in schema order, or the error of the first feature that fails. */
  function Encode(schema: seq<string>, record: map<string, Value>, parse: string -> Option<real>): (r: Result<seq<real>, EncodeError>)
    ensures r.Success? ==> |r.value| == |schema|
    decreases |schema|
  {
    if schema == [] then Success([])
    else
      match Convert(schema[0], Get(record, schema[0]), parse)
      case Failure(e) => Failure(e)
      case Success(x) =>
        match Encode(schema[1..], record, parse)
        case Failure(e) => Failure(e)
        case Success(rest) => Success([x] + rest)
  }

  /** Encoding succeeds exactly when every feature converts, and then entry `i`
      is the conversion of `record[schema[i]]`. */
  lemma {:induction false} EncodeSuccess(schema: seq<string>, record: map<string, Value>, parse: string -> Option<real>)
    ensures Encode(schema, record, parse).Success? <==>
              forall i :: 0 <= i < |schema| ==> Converts(schema, record, parse, i)
    ensures Encode(schema, record, parse).Success? ==>
              forall i :: 0 <= i < |schema| ==>
                Convert(schema[i], Get(record, schema[i]), parse) == Success(Encode(schema, record, parse).value[i])
    decreases |schema|
  {
    if schema != [] {
      EncodeSuccess(schema[1..], record, parse);
      assert forall i :: 1 <= i < |schema| ==> schema[1..][i - 1] == schema[i];
      if !Converts(schema, record, parse, 0) {
        assert !(forall i :: 0 <= i < |schema| ==> Converts(schema, record, parse, i));
      } else if (forall i :: 0 <= i < |schema[1..]| ==> Converts(schema[1..], record, parse, i)) {
        assert forall i :: 0 <= i < |schema| ==> Converts(schema, record, parse, i) by {
          forall i | 1 <= i < |schema| ensures Converts(schema, record, parse, i) {
            assert Converts(schema[1..], record, parse, i - 1);
          }
        }
      } else {
        var i :| 0 <= i < |schema[1..]| && !Converts(schema[1..], record, parse, i);
        assert !Converts(schema, record, parse, i + 1);
      }
    }
  }

  /** A record whose every feature converts to the matching entry of `v` encodes to `v`. */
  lemma EncodesTo(schema: seq<string>, record: map<string, Value>, parse: string -> Option<real>, v: seq<real>)
    requires |v| == |schema|
    requires forall i :: 0 <= i < |schema| ==> Convert(schema[i], Get(record, schema[i]), parse) == Success(v[i])
    ensures Encode(schema, record, parse) == Success(v)
  {
    EncodeSuccess(schema, record, parse);
    assert forall i :: 0 <= i < |schema| ==> Converts(schema, record, parse, i);
    var r := Encode(schema, record, parse);
    assert r.Success?;
    forall i | 0 <= i < |schema|
      ensures r.value[i] == v[i]
    {
      assert Convert(schema[i], Get(record, schema[i]), parse) == Success(r.value[i]);
    }
    assert r.value == v;
  }

  /** Encoding fails fast: the reported error is that of the first feature, in schema order, that fails. */
  lemma {:induction false} EncodeFirstFailure(schema: seq<string>, record: map<string, Value>, parse: string -> Option<real>, k: nat)
    requires k < |schema| && !Converts(schema, record, parse, k)
    requires forall j :: 0 <= j < k ==> Converts(schema, record, parse, j)
    ensures Encode(schema, record, parse) == Failure(Convert(schema[k], Get(record, schema[k]), parse).error)
    decreases k
  {
    if k > 0 {
      assert Converts(schema, record, parse, 0);
      forall j | 0 <= j < k - 1 ensures Converts(schema[1..], record, parse, j) {
        assert Converts(schema, record, parse, j + 1);
      }
      EncodeFirstFailure(schema[1..], record, parse, k - 1);
    }
  }

  /** Features after the first failing one are never examined: any record that agrees up to and
      including it fails with the same error. */
  lemma EncodeIgnoresUnreached(schema: seq<string>, r1: map<string, Value>, r2: map<string, Value>,
                               parse: string -> Option<real>, k: nat)
    requires k < |schema| && !Converts(schema, r1, parse, k)
    requires forall j :: 0 <= j < k ==> Converts(schema, r1, parse, j)
    requires AgreeOn(schema[..k + 1], r1, r2)
    ensures Encode(schema, r2, parse) == Encode(schema, r1, parse)
  {
    forall j | 0 <= j <= k
      ensures Converts(schema, r2, parse, j) == Converts(schema, r1, parse, j)
      ensures Convert(schema[j], Get(r2, schema[j]), parse) == Convert(schema[j], Get(r1, schema[j]), parse)
    {
      assert schema[..k + 1][j] == schema[j];
    }
    EncodeFirstFailure(schema, r1, parse, k);
    EncodeFirstFailure(schema, r2, parse, k);
  }

  /** Only the values under the schema's names matter: keys outside the schema are ignored
      (and a map has no key order to matter). */
  lemma {:induction false} EncodeDependsOnlyOnSchema(schema: seq<string>, r1: map<string, Value>, r2: map<string, Value>,
                                                     parse: string -> Option<real>)
    requires AgreeOn(schema, r1, r2)
    ensures Encode(schema, r1, parse) == Encode(schema, r2, parse)
    decreases |schema|
  {
    if schema != [] {
      assert Get(r1, schema[0]) == Get(r2, schema[0]);
      forall i | 0 <= i < |schema[1..]| ensures Get(r1, schema[1..][i]) == Get(r2, schema[1..][i]) {
        assert schema[1..][i] == schema[i + 1];
      }
      EncodeDependsOnlyOnSchema(schema[1..], r1, r2, parse);
    }
  }

  /** The loop of `predict()` that appends one converted value per feature name and returns at
      the first feature that fails. */
  method EncodeFeatures(schema: seq<string>, record: map<string, Value>, parse: string -> Option<real>)
    returns (r: Result<seq<real>, EncodeError>)
    ensures r == Encode(schema, record, parse)
  {
    var inputValues: seq<real> := [];
    for i := 0 to |schema|
      invariant |inputValues| == i
      invariant forall j :: 0 <= j < i ==> Convert(schema[j], Get(record, schema[j]), parse) == Success(inputValues[j])
    {
      var f := schema[i];
      var val := Get(record, f);
      if val == None || val == Some(Null) {
        EncodeFirstFailure(schema, record, parse, i);
        return Failure(Missing(f));
      }
      var converted: real;
      match val.value {
        case Str(s) =>
          var lowVal := Normalize(s);
          if lowVal in Mapping {
            converted := Mapping[lowVal] as real;
          } else {
            var parsed := parse(s);
            if parsed.None? {
              EncodeFirstFailure(schema, record, parse, i);
              return Failure(InvalidString(s));
            }
            converted := parsed.value;
          }
        case Num(x) =>
          converted := x;
        case Bool(b) =>
          converted := if b then 1.0 else 0.0;
        case Composite =>
          EncodeFirstFailure(schema, record, parse, i);
          return Failure(Raised(NotConvertible));
      }
      inputValues := inputValues + [converted];
    }
    EncodeSuccess(schema, record, parse);
    var e := Encode(schema, record, parse);
    assert e.Success?;
    assert e.value == inputValues;
    return Success(inputValues);
  }

  /** The vector the handler's loop builds from a body that passed the "No JSON data" check:
      a body that is not a JSON object fails on its first `.get`. */
  function RequestVector(schema: seq<string>, body: Body, parse: string -> Option<real>): (r: Result<seq<real>, EncodeError>)
    ensures body.NonObject? && schema == [] ==> r == Success([])
    ensures body.NonObject? && schema != [] ==> r == Failure(Raised(NoGetOnBody))
    ensures body.Object? ==> r == Encode(schema, body.fields, parse)
  {
    match body
    case Object(fields) => Encode(schema, fields, parse)
    case NonObject(_) => if schema == [] then Success([]) else Failure(Raised(NoGetOnBody))
  }

  /** `ACTUAL_CLASSES`: the model's own classes, else the labels artifact when it is a list,
      else nothing; every name lower-cased and trimmed. */
  function ActualClasses(a: Artifacts): (r: seq<string>)
    ensures a.modelClasses.Some? ==> r == NormalizeAll(a.modelClasses.value)
    ensures a.modelClasses.None? && a.labels.LabelList? ==> r == NormalizeAll(a.labels.names)
    ensures a.modelClasses.None? && !a.labels.LabelList? ==> r == []
  {
    match a.modelClasses
    case Some(classes) => NormalizeAll(classes)
    case None =>
      match a.labels
      case LabelList(names) => NormalizeAll(names)
      case _ => []
  }

  datatype RiskInfo = RiskInfo(risk: string, clinical: string)

  const RiskMap: map<string, RiskInfo> := map[
    "immediate danger" := RiskInfo("Critical", "Emergency condition. Immediate medical care required."),
    "severe" := RiskInfo("High", "Severe heart disease detected. Urgent consultation recommended."),
    "mild" := RiskInfo("Medium", "Mild heart disease detected. Lifestyle changes advised."),
    "very mild" := RiskInfo("Low Risk", "Very mild indicators. Regular checkups advised."),
    "no disease" := RiskInfo("Healthy", "No signs of heart disease detected.")
  ]

  const UnknownRisk := RiskInfo("Unknown", "Consult a physician for interpretation.")

  /** No tier of the table reads "Unknown". */
  lemma RiskMapHasNoUnknown()
    ensures forall name :: name in RiskMap ==> RiskMap[name].risk != UnknownRisk.risk
  {
    forall name | name in RiskMap ensures RiskMap[name].risk != UnknownRisk.risk {
      assert RiskMap[name].risk[0] != 'U';
    }
  }

  /** `get_risk_level_info`: a total lookup that falls back to "Unknown". */
  function RiskLevelInfo(predictedClassName: string): (r: RiskInfo)
    ensures r.risk == "Unknown" <==> Normalize(predictedClassName) !in RiskMap
    ensures r.risk == "Unknown" ==> r == UnknownRisk
    ensures Normalize(predictedClassName) in RiskMap ==> r == RiskMap[Normalize(predictedClassName)]
  {
    var name := Normalize(predictedClassName);
    RiskMapHasNoUnknown();
    if name in RiskMap then RiskMap[name] else UnknownRisk
  }

  /** `{ACTUAL_CLASSES[i]: probabilities[i] * 100 for i in range(len(probabilities))}`, rounding
      left out; a class name that occurs twice keeps its last probability. */
  function PerClass(classes: seq<string>, p: seq<real>): (m: map<string, real>)
    requires |p| <= |classes|
    ensures m.Keys == set i | 0 <= i < |p| :: classes[i]
    decreases |p|
  {
    if p == [] then map[]
    else
      var n := |p| - 1;
      PerClass(classes, p[..n])[classes[n] := 100.0 * p[n]]
  }

  /** A class name that occurs at index `i` and not later gets the probability at index `i`. */
  lemma {:induction false} PerClassLast(classes: seq<string>, p: seq<real>, i: nat)
    requires |p| <= |classes| && i < |p|
    requires forall j :: i < j < |p| ==> classes[j] != classes[i]
    ensures PerClass(classes, p)[classes[i]] == 100.0 * p[i]
    decreases |p|
  {
    var n := |p| - 1;
    if i < n {
      assert classes[n] != classes[i];
      PerClassLast(classes, p[..n], i);
    }
  }

  /** The risk tier ignores letter case and surrounding whitespace of the class name. */
  lemma RiskLevelIgnoresCaseAndPadding(p: string, s: string, t: string, q: string)
    requires IsBlank(p) && IsBlank(q) && SameIgnoringCase(s, t)
    ensures RiskLevelInfo(p + s + q) == RiskLevelInfo(t)
  {
    NormalizeIgnoresCaseAndPadding(p, s, t, q);
  }

  /** The five known class names and their tiers, for any spelling whose normal form is the name. */
  lemma KnownRiskTiers(name: string)
    ensures Normalize(name) == "immediate danger" ==> RiskLevelInfo(name).risk == "Critical"
    ensures Normalize(name) == "severe" ==> RiskLevelInfo(name).risk == "High"
    ensures Normalize(name) == "mild" ==> RiskLevelInfo(name).risk == "Medium"
    ensures Normalize(name) == "very mild" ==> RiskLevelInfo(name).risk == "Low Risk"
    ensures Normalize(name) == "no disease" ==> RiskLevelInfo(name).risk == "Healthy"
  {
  }

  datatype Message = Literal(text: string) | Exception(fault: Fault)

  /** What `/api/predict` answers: an error with its HTTP status, or a prediction. */
  datatype Response =
    | Error(status: nat, message: Message)
    | Prediction(predictedClass: string, confidence: real, riskLevel: string,
                 clinicalInterpretation: string, perClassProbabilities: map<string, real>)

  /** The 400/500 answer for an encoding error. */
  function Rejection(e: EncodeError): (r: Response)
    ensures r.Error?
    ensures r.status == 400 <==> !e.Raised?
    ensures r.status == 500 <==> e.Raised?
    ensures e.Missing? ==> r.message == Literal("Missing: " + e.name)
    ensures e.InvalidString? ==> r.message == Literal("Invalid string value: " + e.raw)
    ensures e.Raised? ==> r.message == Exception(e.fault)
  {
    match e
    case Missing(name) => Error(400, Literal("Missing: " + name))
    case InvalidString(raw) => Error(400, Literal("Invalid string value: " + raw))
    case Raised(f) => Error(500, Exception(f))
  }

  /** Everything after the model call: arg-max, class name, risk tier, response body. */
  function Respond(classes: seq<string>, scores: Result<seq<real>, Fault>): (r: Response)
    ensures r.Prediction? <==> scores.Success? && 0 < |scores.value| <= |classes|
    ensures r.Error? ==> r.status == 500
    ensures r.Prediction? ==>
              var k := ArgMax(scores.value);
              r.predictedClass == classes[k] && r.confidence == 100.0 * scores.value[k]
    ensures r.Prediction? ==> r.predictedClass in r.perClassProbabilities
    ensures r.Prediction? ==> r.perClassProbabilities == PerClass(classes, scores.value)
    ensures r.Prediction? ==> RiskInfo(r.riskLevel, r.clinicalInterpretation) == RiskLevelInfo(r.predictedClass)
  {
    match scores
    case Failure(f) => Error(500, Exception(f))
    case Success(p) =>
      if |p| == 0 then Error(500, Exception(EmptyArgMax))
      else
        var k := ArgMax(p);
        if k >= |classes| then Error(500, Exception(ClassIndex))
        else
          var name := classes[k];
          var risk := RiskLevelInfo(name);
          if |p| > |classes| then Error(500, Exception(ClassIndex))
          else
            var probs := PerClass(classes, p);
            assert name in probs;
            Prediction(name, 100.0 * p[k], risk.risk, risk.clinical, probs)
  }

  /** The `/api/predict` handler. `artifacts` is `None` when loading failed at startup;
      `body` is `None` when the request carries no parseable JSON (or JSON `null`). */
  method Predict(artifacts: Option<Artifacts>, body: Option<Body>, parse: string -> Option<real>)
    returns (resp: Response)
    ensures artifacts.None? ==> resp == Error(500, Literal("Model not loaded"))
    ensures artifacts.Some? && NoData(body) ==> resp == Error(400, Literal("No JSON data"))
    ensures artifacts.Some? && !NoData(body) &&
            RequestVector(artifacts.value.featureNames, body.value, parse).Failure? ==>
              resp == Rejection(RequestVector(artifacts.value.featureNames, body.value, parse).error)
    ensures artifacts.Some? && !NoData(body) &&
            RequestVector(artifacts.value.featureNames, body.value, parse).Success? ==>
              resp == Respond(ActualClasses(artifacts.value),
                              Scores(artifacts.value, RequestVector(artifacts.value.featureNames, body.value, parse).value))
  {
    if artifacts.None? {
      return Error(500, Literal("Model not loaded"));
    }
    var a := artifacts.value;
    if NoData(body) {
      return Error(400, Literal("No JSON data"));
    }
    var inputValues: seq<real>;
    match body.value {
      case Object(fields) =>
        var encoded := EncodeFeatures(a.featureNames, fields, parse);
        if encoded.Failure? {
          return Rejection(encoded.error);
        }
        inputValues := encoded.value;
      case NonObject(_) =>
        if a.featureNames != [] {
          return Rejection(Raised(NoGetOnBody));
        }
        inputValues := [];
    }
    resp := Respond(ActualClasses(a), Scores(a, inputValues));
  }

  /** With no `classes_` on the model and a labels artifact that is not a list, there are no class
      names, so no request can end in a prediction. */
  lemma NoClassesNoPrediction(a: Artifacts, scores: Result<seq<real>, Fault>)
    requires a.modelClasses.None? && !a.labels.LabelList?
    ensures Respond(ActualClasses(a), scores).Error?
  {
  }
}
